/**
 The event loop of duet5-hogp-bridge.py: `main`, from the variables it
 initialises to the end of one iteration of its while loop.

 One iteration is a sequence of actions: up to four for each line read from
 btclient, in the order of the searches, and then five that run whether or not
 anything was read. What the outside world decides (the lines, the clock, which
 calls raise) is a parameter of the action; what the loop does to the outside
 world is appended to a log. An exception sets `stopped`, after which nothing
 happens any more.
*/
module BridgeLoop {
  import opened Bytes
  import opened Wrappers
  import Messages
  import Seqs
  import UhidCodec

  /** GATT characteristic value handle -> HID Report ID, in the order of the Python dictionary. */
  const HANDLES: seq<nat> := [49, 57, 61, 65, 76]
  const INPUT_HANDLES: map<nat, byte> := map[49 := 1, 57 := 2, 61 := 3, 65 := 4, 76 := 6]
  const EXPECTED_LENGTHS: map<nat, nat> := map[49 := 11, 57 := 6, 61 := 3, 65 := 1, 76 := 20]

  const COMMAND_INTERVAL := 0.8
  const RETRY_INTERVAL := 6.0

  datatype Command =
    | ListBonded
    | RegisterClient
    | SetConnectTransport
    | SetAuthReq
    | SetDirectConnect(direct: bool)
    | ClientConnect(peer: string)
    | RegisterNotification(peer: string, handle: nat)

  /** What the rest of the system sees of the loop. */
  datatype Event =
    | Queued(command: Command)
    | Sent(command: Command, at: real)
    | Published(clientId: int)
    | Callback(peer: string, up: bool)
    | Retried(peer: string, at: real)
    | ModeWrite(client: Option<int>, peer: string, at: real)
    | Report(bytes: seq<byte>)

  datatype State = State(
    direct: bool,
    stopped: bool,
    address: Option<string>,
    addresses: seq<string>,
    addressIndex: nat,
    registered: bool,
    clientId: Option<int>,
    connected: bool,
    notificationSetup: bool,
    modeSet: bool,
    queue: seq<Command>,
    nextCommandAt: real,
    lastConnectTry: real,
    stats: map<nat, nat>,
    warned: set<(nat, nat)>,
    log: seq<Event>)

  datatype Action =
    | Found(device: string)
    | Registered(r: Messages.Registration, publishOk: bool, clock: real)
    | Connection(c: Messages.Connection)
    | Notified(n: Messages.Notification, uhidOk: bool)
    | SetUp
    | WriteMode(now: real, modeOk: bool)
    | Retry(now: real)
    | Send(now: real, sendOk: bool)
    | Poll(exited: bool)

  /** One line from btclient, with what happens to the calls it may lead to. */
  datatype LineInput = LineInput(line: Messages.Line, publishOk: bool, clock: real, uhidOk: bool)

  /** One iteration of the loop. */
  datatype Tick = Tick(now: real, lines: seq<LineInput>, modeOk: bool, sendOk: bool, exited: bool)

  // ----- Effects -----

  function Emit(s: State, e: Event): State {
    s.(log := s.log + [e])
  }

  function Queue(s: State, c: Command): State {
    Emit(s.(queue := s.queue + [c]), Queued(c))
  }

  function QueueAll(s: State, cs: seq<Command>): State
    decreases |cs|
  {
    if cs == [] then s else QueueAll(Queue(s, cs[0]), cs[1..])
  }

  function Stop(s: State): State {
    s.(stopped := true)
  }

  /** list.index, for an element that is there. */
  function IndexOf(xs: seq<string>, x: string): (i: nat)
    requires x in xs
    ensures i < |xs| && xs[i] == x && x !in xs[..i]
  {
    if xs[0] == x then 0
    else
      var i := IndexOf(xs[1..], x);
      assert xs[..i + 1] == [xs[0]] + xs[1..][..i];
      1 + i
  }

  /** address_index = (address_index + 1) % len(addresses); address = addresses[address_index] */
  function Advance(s: State): State
    requires s.addresses != []
  {
    var i := (s.addressIndex + 1) % |s.addresses|;
    s.(addressIndex := i, address := Some(s.addresses[i]))
  }

  /** The text Python formats for `address`. */
  function PeerText(s: State): string {
    if s.address.Some? then s.address.value else "None"
  }

  function Batch(peer: string): seq<Command> {
    [RegisterNotification(peer, 49), RegisterNotification(peer, 57), RegisterNotification(peer, 61),
     RegisterNotification(peer, 65), RegisterNotification(peer, 76)]
  }

  // ----- The actions -----

  function OnFound(s: State, device: string): State {
    OnCandidate(s, Messages.Upper(device))
  }

  function OnCandidate(s: State, candidate: string): State {
    var t := if candidate in s.addresses then s else s.(addresses := s.addresses + [candidate]);
    if t.address.None? then Queue(t.(address := Some(candidate)), RegisterClient) else t
  }

  /** The client id is kept and, except by the direct variant, published; failing to publish it raises. */
  function Announce(s: State, clientId: int, publishOk: bool): State {
    var t := s.(registered := true, clientId := Some(clientId));
    if s.direct then t
    else if publishOk then Emit(t, Published(clientId))
    else Stop(t)
  }

  function Configuration(direct: bool): seq<Command> {
    [SetConnectTransport, SetAuthReq, SetDirectConnect(direct)]
  }

  function FirstConnect(s: State, clock: real): State {
    if s.address.Some? then Queue(s, ClientConnect(s.address.value)).(lastConnectTry := clock) else s
  }

  function OnRegistered(s: State, r: Messages.Registration, publishOk: bool, clock: real): State {
    if r.status != 0 then Stop(s)
    else if s.registered then s
    else
      var t := Announce(s, r.clientId, publishOk);
      if t.stopped then t else FirstConnect(QueueAll(t, Configuration(s.direct)), clock)
  }

  function OnConnection(s: State, c: Messages.Connection): State {
    OnCallback(s, Messages.Upper(c.peer), c.connected && c.status == 0)
  }

  function OnCallback(s: State, peer: string, up: bool): State {
    if peer !in s.addresses then s
    else if up then
      Emit(s.(address := Some(peer), addressIndex := IndexOf(s.addresses, peer), connected := true,
              notificationSetup := false, modeSet := false),
           Callback(peer, true))
    else
      var t := Emit(s, Callback(peer, false));
      if s.address == Some(peer) then Advance(t.(connected := false)) else t
  }

  /** The unexpected lengths that have been warned about, one entry per handle and length. */
  function Warn(s: State, handle: nat, length: nat): State
    requires handle in INPUT_HANDLES
  {
    if length == EXPECTED_LENGTHS[handle] then s else s.(warned := s.warned + {(handle, length)})
  }

  function Counted(stats: map<nat, nat>, handle: nat): map<nat, nat> {
    stats[handle := (if handle in stats then stats[handle] else 0) + 1]
  }

  function Forward(s: State, handle: nat, value: seq<byte>, uhidOk: bool): State
    requires handle in INPUT_HANDLES
  {
    match UhidCodec.SendInput(UhidCodec.InputReport(INPUT_HANDLES[handle], value))
    case None => Stop(s)
    case Some(bytes) =>
      if uhidOk then Emit(s.(stats := Counted(s.stats, handle)), Report(bytes)) else Stop(s)
  }

  function OnNotified(s: State, n: Messages.Notification, uhidOk: bool): State {
    if s.address != Some(Messages.Upper(n.peer)) || n.handle !in INPUT_HANDLES then s
    else OnValue(s, n.handle, Messages.ParseValue(n.raw), uhidOk)
  }

  /** A value that could not be parsed is ignored. */
  function OnValue(s: State, handle: nat, parsed: Option<seq<byte>>, uhidOk: bool): State
    requires handle in INPUT_HANDLES
  {
    match parsed
    case None => s
    case Some(value) => Forward(Warn(s, handle, |value|), handle, value, uhidOk)
  }

  function OnSetUp(s: State): State {
    if s.connected && !s.notificationSetup && s.queue == [] then
      QueueAll(s, Batch(PeerText(s))).(notificationSetup := true)
    else s
  }

  /** The write is issued before its result is looked at. */
  function OnWriteMode(s: State, now: real, modeOk: bool): State {
    if s.connected && s.notificationSetup && s.queue == [] && !s.modeSet then
      var t := Emit(s, ModeWrite(s.clientId, PeerText(s), now));
      if modeOk then t.(modeSet := true) else Stop(t)
    else s
  }

  function OnRetry(s: State, now: real): State {
    if s.registered && s.addresses != [] && !s.connected && s.queue == []
       && now - s.lastConnectTry > RETRY_INTERVAL then
      var t := Advance(s);
      Queue(Emit(t, Retried(t.address.value, now)), ClientConnect(t.address.value)).(lastConnectTry := now)
    else s
  }

  /** The command leaves the queue before it is written; an exception loses it. */
  function OnSend(s: State, now: real, sendOk: bool): State {
    if s.queue != [] && now >= s.nextCommandAt then
      var t := s.(queue := s.queue[1..]);
      if sendOk then Emit(t, Sent(s.queue[0], now)).(nextCommandAt := now + COMMAND_INTERVAL) else Stop(t)
    else s
  }

  function Act(s: State, a: Action): State {
    if s.stopped then s
    else
      match a
      case Found(device) => OnFound(s, device)
      case Registered(r, publishOk, clock) => OnRegistered(s, r, publishOk, clock)
      case Connection(c) => OnConnection(s, c)
      case Notified(n, uhidOk) => OnNotified(s, n, uhidOk)
      case SetUp => OnSetUp(s)
      case WriteMode(now, modeOk) => OnWriteMode(s, now, modeOk)
      case Retry(now) => OnRetry(s, now)
      case Send(now, sendOk) => OnSend(s, now, sendOk)
      case Poll(exited) => if exited then Stop(s) else s
  }

  function Perform(s: State, actions: seq<Action>): State
    decreases |actions|
  {
    if actions == [] then s else Perform(Act(s, actions[0]), actions[1..])
  }

  // ----- Iterations -----

  function DeviceActions(l: LineInput): seq<Action> {
    if l.line.device.Some? then [Found(l.line.device.value)] else []
  }

  function RegistrationActions(l: LineInput): seq<Action> {
    if l.line.registration.Some? then [Registered(l.line.registration.value, l.publishOk, l.clock)] else []
  }

  function ConnectionActions(l: LineInput): seq<Action> {
    if l.line.connection.Some? then [Connection(l.line.connection.value)] else []
  }

  function NotificationActions(l: LineInput): seq<Action> {
    if l.line.notification.Some? then [Notified(l.line.notification.value, l.uhidOk)] else []
  }

  /** What the four searches of one line lead to, in their order. */
  function LineActions(l: LineInput): seq<Action> {
    DeviceActions(l) + RegistrationActions(l) + ConnectionActions(l) + NotificationActions(l)
  }

  function LinesActions(lines: seq<LineInput>): seq<Action> {
    if lines == [] then [] else LineActions(lines[0]) + LinesActions(lines[1..])
  }

  function LoopActions(t: Tick): seq<Action> {
    [SetUp, WriteMode(t.now, t.modeOk), Retry(t.now), Send(t.now, t.sendOk), Poll(t.exited)]
  }

  function TickActions(t: Tick): seq<Action> {
    LinesActions(t.lines) + LoopActions(t)
  }

  function RunTicks(s: State, ticks: seq<Tick>): State
    decreases |ticks|
  {
    if ticks == [] then s else RunTicks(Perform(s, TickActions(ticks[0])), ticks[1..])
  }

  /** The state in which the loop is entered; argument is --address, if given. */
  function Initial(argument: Option<string>, direct: bool): State {
    var address := if argument.Some? && argument.value != "" then Some(Messages.Upper(argument.value)) else None;
    var s := State(direct, false, address, if address.Some? then [address.value] else [], 0,
                   false, None, false, false, false, [], 0.0, 0.0,
                   map h | h in HANDLES :: 0, {}, []);
    Queue(s, if address.Some? then RegisterClient else ListBonded)
  }

  // ----- Sequencing -----

  lemma {:induction false} PerformConcat(s: State, a: seq<Action>, b: seq<Action>)
    ensures Perform(s, a + b) == Perform(Perform(s, a), b)
    decreases |a|
  {
    if a == [] {
      assert a + b == b;
    } else {
      PerformConcat(Act(s, a[0]), a[1..], b);
      Seqs.TailConcat(a, b);
    }
  }

  lemma PerformOne(s: State, a: Action)
    ensures Perform(s, [a]) == Act(s, a)
  {
    assert [a][1..] == [];
  }

  /** What every action keeps, every run keeps. */
  lemma {:induction false} InvariantRun(inv: State -> bool, s: State, actions: seq<Action>)
    requires inv(s) && forall t, a | inv(t) :: inv(Act(t, a))
    ensures inv(Perform(s, actions))
    decreases |actions|
  {
    if actions == [] {
    } else {
      InvariantRun(inv, Act(s, actions[0]), actions[1..]);
    }
  }

  lemma {:induction false} StoppedStays(s: State, actions: seq<Action>)
    requires s.stopped
    ensures Perform(s, actions) == s
    decreases |actions|
  {
    if actions == [] {
    } else {
      StoppedStays(s, actions[1..]);
    }
  }

  function RunActions(ticks: seq<Tick>): seq<Action> {
    if ticks == [] then [] else TickActions(ticks[0]) + RunActions(ticks[1..])
  }

  /** A run of iterations is one long sequence of actions. */
  lemma {:induction false} RunIsPerform(s: State, ticks: seq<Tick>)
    ensures RunTicks(s, ticks) == Perform(s, RunActions(ticks))
    decreases |ticks|
  {
    if ticks == [] {
    } else {
      RunIsPerform(Perform(s, TickActions(ticks[0])), ticks[1..]);
      PerformConcat(s, TickActions(ticks[0]), RunActions(ticks[1..]));
    }
  }
}
