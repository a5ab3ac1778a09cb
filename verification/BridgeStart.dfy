/**
 How the loop starts: the commands that find the device, register the client and
 configure it, each queued once, and the first connection request, from which the
 retries count their six seconds.
*/
module BridgeStart {
  import opened BridgeFrames
  import opened BridgeInputs
  import opened BridgeLog
  import opened BridgeLoop
  import opened BridgePublication
  import opened BridgeSafety
  import opened BridgeTiming
  import opened Wrappers
  import Messages
  import Seqs

  // ----- What each action queues -----

  function QueuedBy(s: State, a: Action): seq<Command> {
    match a
    case Found(_) => if s.address.None? then [RegisterClient] else []
    case Registered(r, publishOk, _) =>
      if r.status == 0 && !s.registered && (s.direct || publishOk) then
        [SetConnectTransport, SetAuthReq, SetDirectConnect(s.direct)]
        + if s.address.Some? then [ClientConnect(s.address.value)] else []
      else []
    case SetUp =>
      if s.connected && !s.notificationSetup && s.queue == [] then Batch(PeerText(s)) else []
    case Retry(now) =>
      if s.registered && s.addresses != [] && !s.connected && s.queue == [] && now - s.lastConnectTry > 6.0
      then [ClientConnect(s.addresses[(s.addressIndex + 1) % |s.addresses|])] else []
    case _ => []
  }

  lemma {:induction false} CommandsKept(log: Log, more: Log)
    requires log <= more && forall k | |log| <= k < |more| :: !more[k].Queued?
    ensures QueuedCommands(more) == QueuedCommands(log)
    decreases |more|
  {
    if |more| == |log| {
      assert more == log;
    } else {
      CommandsKept(log, Front(more));
    }
  }

  lemma QueuedFound(s: State, device: string)
    ensures QueuedCommands(OnFound(s, device).log) == QueuedCommands(s.log) + QueuedBy(s, Found(device))
  {
    CandidateShape(s, Messages.Upper(device));
    Snoc(s.log, Queued(RegisterClient));
    assert QueuedCommands(s.log) + [] == QueuedCommands(s.log);
  }

  lemma QueuedRegistered(s: State, r: Messages.Registration, publishOk: bool, clock: real)
    requires !s.stopped
    ensures QueuedCommands(OnRegistered(s, r, publishOk, clock).log) ==
            QueuedCommands(s.log) + QueuedBy(s, Registered(r, publishOk, clock))
  {
    var t := Announce(s, r.clientId, publishOk);
    Snoc(s.log, Published(r.clientId));
    assert QueuedCommands(s.log) + [] == QueuedCommands(s.log);
    if r.status != 0 || s.registered {
      assert OnRegistered(s, r, publishOk, clock).log == s.log;
    } else if t.stopped {
      assert OnRegistered(s, r, publishOk, clock) == t && t.log == s.log;
    } else {
      var three := Configuration(s.direct);
      var u := QueueAll(t, three);
      QueueAllState(t, three);
      QueueAllCommands(t.log, three);
      assert OnRegistered(s, r, publishOk, clock) == FirstConnect(u, clock);
      QueuedConnect(u, clock);
      Seqs.Assoc(QueuedCommands(s.log), three, if s.address.Some? then [ClientConnect(s.address.value)] else []);
    }
  }

  lemma QueuedConnect(s: State, clock: real)
    ensures QueuedCommands(FirstConnect(s, clock).log) ==
            QueuedCommands(s.log) + if s.address.Some? then [ClientConnect(s.address.value)] else []
  {
    if s.address.Some? {
      Snoc(s.log, Queued(ClientConnect(s.address.value)));
    } else {
      assert QueuedCommands(s.log) + [] == QueuedCommands(s.log);
    }
  }

  lemma QueuedRetry(s: State, now: real)
    ensures QueuedCommands(OnRetry(s, now).log) == QueuedCommands(s.log) + QueuedBy(s, Retry(now))
  {
    if QueuedBy(s, Retry(now)) != [] {
      var peer := Advance(s).address.value;
      Snoc(s.log, Retried(peer, now));
      Snoc(s.log + [Retried(peer, now)], Queued(ClientConnect(peer)));
    } else {
      assert QueuedCommands(s.log) + [] == QueuedCommands(s.log);
    }
  }

  lemma QueuedSetUp(s: State)
    ensures QueuedCommands(OnSetUp(s).log) == QueuedCommands(s.log) + QueuedBy(s, SetUp)
  {
    var batch := Batch(PeerText(s));
    QueueAllState(s, batch);
    QueueAllCommands(s.log, batch);
    assert QueuedCommands(s.log) + [] == QueuedCommands(s.log);
  }

  lemma QueuedStep(s: State, a: Action)
    requires !s.stopped
    ensures QueuedCommands(Act(s, a).log) == QueuedCommands(s.log) + QueuedBy(s, a)
  {
    match a
    case Found(device) => QueuedFound(s, device);
    case Registered(r, publishOk, clock) => QueuedRegistered(s, r, publishOk, clock);
    case SetUp => QueuedSetUp(s);
    case Retry(now) => QueuedRetry(s, now);
    case _ =>
      ActFrame(s, a);
      CommandsKept(s.log, Act(s, a).log);
      assert QueuedCommands(s.log) + [] == QueuedCommands(s.log);
  }

  lemma {:induction false} CommandsFrom(s: State, actions: seq<Action>)
    ensures QueuedCommands(Perform(s, actions).log) == QueuedCommands(s.log) + Collect(QueuedBy, s, actions)
  {
    var view := (t: State) => QueuedCommands(t.log);
    forall t: State, a: Action | !t.stopped
      ensures view(Act(t, a)) == view(t) + QueuedBy(t, a)
    {
      QueuedStep(t, a);
    }
    CollectRun(view, QueuedBy, s, actions);
  }

  /** On every run the commands queued are the first one and what the actions of the running loop queue, in order. */
  lemma {:induction false} CommandsQueued(argument: Option<string>, direct: bool, actions: seq<Action>)
    ensures var s := Initial(argument, direct);
            QueuedCommands(Perform(s, actions).log) ==
            [if argument.Some? && argument.value != "" then RegisterClient else ListBonded]
            + Collect(QueuedBy, s, actions)
  {
    var s := Initial(argument, direct);
    CommandsFrom(s, actions);
    FirstLog(argument, direct);
    FirstEvent(s.queue[0]);
  }

  // ----- The commands that are queued once -----

  predicate IsSetting(c: Command) {
    c.SetConnectTransport? || c.SetAuthReq? || c.SetDirectConnect?
  }

  predicate IsSearch(c: Command) {
    c.ListBonded? || c.RegisterClient?
  }

  function Only(p: Command -> bool, cs: seq<Command>): seq<Command> {
    if cs == [] then [] else (if p(cs[0]) then [cs[0]] else []) + Only(p, cs[1..])
  }

  lemma {:induction false} OnlyConcat(p: Command -> bool, a: seq<Command>, b: seq<Command>)
    ensures Only(p, a + b) == Only(p, a) + Only(p, b)
  {
    if a == [] {
      assert a + b == b;
    } else {
      OnlyConcat(p, a[1..], b);
      Seqs.TailConcat(a, b);
      Seqs.Assoc(if p(a[0]) then [a[0]] else [], Only(p, a[1..]), Only(p, b));
    }
  }

  lemma {:induction false} OnlyNone(p: Command -> bool, cs: seq<Command>)
    requires forall c | c in cs :: !p(c)
    ensures Only(p, cs) == []
  {
    if cs == [] {
    } else {
      OnlyNone(p, cs[1..]);
    }
  }

  lemma {:induction false} OnlyAll(p: Command -> bool, cs: seq<Command>)
    requires forall c | c in cs :: p(c)
    ensures Only(p, cs) == cs
  {
    if cs == [] {
    } else {
      OnlyAll(p, cs[1..]);
      Seqs.Uncons(cs);
    }
  }

  function Searches(given: bool, found: bool): seq<Command> {
    if given then [RegisterClient] else if found then [ListBonded, RegisterClient] else [ListBonded]
  }

  lemma SettingKinds(s: State)
    ensures var three := [SetConnectTransport, SetAuthReq, SetDirectConnect(s.direct)];
            && Only(IsSearch, three) == [] && Only(IsSetting, three) == three
  {
    var three := [SetConnectTransport, SetAuthReq, SetDirectConnect(s.direct)];
    OnlyNone(IsSearch, three);
    OnlyAll(IsSetting, three);
  }

  lemma ConnectKinds(s: State)
    ensures var connect := if s.address.Some? then [ClientConnect(s.address.value)] else [];
            Only(IsSearch, connect) == [] && Only(IsSetting, connect) == []
  {
    var connect := if s.address.Some? then [ClientConnect(s.address.value)] else [];
    OnlyNone(IsSearch, connect);
    OnlyNone(IsSetting, connect);
  }

  lemma RegisteredKinds(s: State)
    ensures var three := [SetConnectTransport, SetAuthReq, SetDirectConnect(s.direct)];
            var all := three + if s.address.Some? then [ClientConnect(s.address.value)] else [];
            && Only(IsSearch, all) == [] && Only(IsSetting, all) == three
  {
    var three := [SetConnectTransport, SetAuthReq, SetDirectConnect(s.direct)];
    var connect := if s.address.Some? then [ClientConnect(s.address.value)] else [];
    SettingKinds(s);
    ConnectKinds(s);
    OnlyConcat(IsSearch, three, connect);
    OnlyConcat(IsSetting, three, connect);
  }

  /** Of an action's commands, those of the search and of the settings. */
  lemma QueuedKinds(s: State, a: Action)
    ensures Only(IsSearch, QueuedBy(s, a)) == if a.Found? && s.address.None? then [RegisterClient] else []
    ensures Only(IsSetting, QueuedBy(s, a)) ==
            if a.Registered? && a.r.status == 0 && !s.registered && (s.direct || a.publishOk)
            then [SetConnectTransport, SetAuthReq, SetDirectConnect(s.direct)] else []
  {
    var q := QueuedBy(s, a);
    if a.Found? {
      OnlyAll(IsSearch, q);
      OnlyNone(IsSetting, q);
    } else if a.Registered? {
      RegisteredKinds(s);
    } else {
      OnlyNone(IsSearch, q);
      OnlyNone(IsSetting, q);
    }
  }

  predicate Begun(s: State, given: bool) {
    && Tracking(s) && (given ==> s.address.Some?)
    && Only(IsSearch, QueuedCommands(s.log)) == Searches(given, s.address.Some?)
  }

  lemma OnlyQueued(p: Command -> bool, s: State, a: Action)
    requires !s.stopped
    ensures Only(p, QueuedCommands(Act(s, a).log)) == Only(p, QueuedCommands(s.log)) + Only(p, QueuedBy(s, a))
  {
    QueuedStep(s, a);
    OnlyConcat(p, QueuedCommands(s.log), QueuedBy(s, a));
  }

  lemma AddressStays(s: State, a: Action)
    requires Tracking(s) && !s.stopped
    ensures Act(s, a).address.Some? <==> s.address.Some? || a.Found?
  {
    TrackingStep(s, a);
    AddressesStep(s, a);
    if a.Found? {
      assert Act(s, a).address.Some?;
    } else {
      assert Act(s, a).addresses == s.addresses;
    }
  }

  lemma BegunStep(s: State, a: Action, given: bool)
    requires Begun(s, given)
    ensures Begun(Act(s, a), given)
  {
    if !s.stopped {
      TrackingStep(s, a);
      AddressStays(s, a);
      QueuedKinds(s, a);
      OnlyQueued(IsSearch, s, a);
    }
  }

  lemma {:induction false} BegunInitial(argument: Option<string>, direct: bool)
    ensures Begun(Initial(argument, direct), argument.Some? && argument.value != "")
  {
    TrackingReached(argument, direct, []);
    FirstLog(argument, direct);
    FirstEvent(Initial(argument, direct).queue[0]);
    assert Initial(argument, direct).queue[1..] == [];
  }

  /** The client is registered, and its id published where it is to be. */
  predicate Done(s: State) {
    s.registered && (s.direct || PublishedIds(s.log) != [])
  }

  lemma {:induction false} PublishedKept(log: Log, more: Log)
    requires log <= more && forall k | |log| <= k < |more| :: !more[k].Published?
    ensures PublishedIds(more) == PublishedIds(log)
    decreases |more|
  {
    if |more| == |log| {
      assert more == log;
    } else {
      PublishedKept(log, Front(more));
    }
  }

  lemma DoneRegistered(s: State, r: Messages.Registration, publishOk: bool, clock: real)
    requires Safe(s) && !s.stopped
    ensures Done(OnRegistered(s, r, publishOk, clock)) <==>
            Done(s) || (r.status == 0 && !s.registered && (s.direct || publishOk))
  {
    var a := Registered(r, publishOk, clock);
    SafeStep(s, a);
    RegistrationTaken(s, r, publishOk, clock);
    RegisteredStops(s, r, publishOk, clock);
    ActFrame(s, a);
  }

  lemma DoneStep(s: State, a: Action)
    requires Safe(s) && !s.stopped
    ensures Done(Act(s, a)) <==>
            Done(s) || (a.Registered? && a.r.status == 0 && !s.registered && (s.direct || a.publishOk))
  {
    if a.Registered? {
      DoneRegistered(s, a.r, a.publishOk, a.clock);
    } else {
      ActFrame(s, a);
      PublishedKept(s.log, Act(s, a).log);
    }
  }

  predicate Settled(s: State, direct: bool) {
    && Safe(s) && s.direct == direct
    && Only(IsSetting, QueuedCommands(s.log)) ==
       if Done(s) then [SetConnectTransport, SetAuthReq, SetDirectConnect(direct)] else []
  }

  lemma SettledStep(s: State, a: Action, direct: bool)
    requires Settled(s, direct)
    ensures Settled(Act(s, a), direct)
  {
    SafeStep(s, a);
    if !s.stopped {
      DoneStep(s, a);
      QueuedKinds(s, a);
      OnlyQueued(IsSetting, s, a);
    }
  }

  lemma {:induction false} SettledInitial(argument: Option<string>, direct: bool)
    ensures Settled(Initial(argument, direct), direct)
  {
    SafeInitial(argument, direct);
    FirstLog(argument, direct);
    FirstEvent(Initial(argument, direct).queue[0]);
    assert Initial(argument, direct).queue[1..] == [];
  }

  /**
   On every run: the bonded devices are listed once, first, unless an address was given;
   the client registration is asked for once, as soon as an address is known; and the
   three settings are queued once, in this order, when the client is registered and,
   except by the direct variant, its id published.
  */
  lemma {:induction false} StartsOnce(argument: Option<string>, direct: bool, actions: seq<Action>)
    ensures var s := Perform(Initial(argument, direct), actions);
            var queued := QueuedCommands(s.log);
            && Only(IsSearch, queued) ==
               (if argument.Some? && argument.value != "" then [RegisterClient]
                else if s.address.Some? then [ListBonded, RegisterClient] else [ListBonded])
            && Only(IsSetting, queued) ==
               if s.registered && (direct || PublishedIds(s.log) != [])
               then [SetConnectTransport, SetAuthReq, SetDirectConnect(direct)] else []
  {
    var given := argument.Some? && argument.value != "";
    BegunInitial(argument, direct);
    SettledInitial(argument, direct);
    forall s, a | Begun(s, given)
      ensures Begun(Act(s, a), given)
    {
      BegunStep(s, a, given);
    }
    forall s, a | Settled(s, direct)
      ensures Settled(Act(s, a), direct)
    {
      SettledStep(s, a, direct);
    }
    InvariantRun(s => Begun(s, given), Initial(argument, direct), actions);
    InvariantRun(s => Settled(s, direct), Initial(argument, direct), actions);
  }

  // ----- The first request -----

  /** Retries logged from here on come more than six seconds after this reading, and the loop is registered. */
  predicate Waits(s: State, from: nat, clock: real) {
    && s.registered && |s.log| >= from && s.lastConnectTry >= clock
    && forall k | from <= k < |s.log| && s.log[k].Retried? :: s.log[k].at > clock + 6.0
  }

  lemma WaitsStep(s: State, a: Action, from: nat, clock: real)
    requires Waits(s, from, clock)
    ensures Waits(Act(s, a), from, clock)
  {
    ActFrame(s, a);
    if a.Retry? {
      WaitsRetry(s, a.now, from, clock);
    }
  }

  lemma WaitsRetry(s: State, now: real, from: nat, clock: real)
    requires Waits(s, from, clock)
    ensures Waits(OnRetry(s, now), from, clock)
  {
    if s.addresses != [] && now - s.lastConnectTry > RETRY_INTERVAL {
      var t := Advance(s);
      assert (s.log + [Retried(t.address.value, now)]) + [Queued(ClientConnect(t.address.value))] ==
             s.log + [Retried(t.address.value, now), Queued(ClientConnect(t.address.value))];
    }
  }

  /**
   Registering with an address known requests a connection to it at that reading of the
   clock, and whatever follows, no retry comes within six seconds of it.
  */
  lemma {:induction false} RetriesAfterRequest(
    s: State, r: Messages.Registration, clock: real, after: seq<Action>)
    requires !s.stopped && !s.registered && s.address.Some? && r.status == 0
    ensures var t := Act(s, Registered(r, true, clock));
            var e := Perform(t, after);
            && t.log != [] && Last(t.log) == Queued(ClientConnect(s.address.value)) && |t.log| <= |e.log|
            && forall k | |t.log| <= k < |e.log| && e.log[k].Retried? :: e.log[k].at > clock + 6.0
  {
    var t := Act(s, Registered(r, true, clock));
    QueueAllState(Announce(s, r.clientId, true), Configuration(s.direct));
    var from := |t.log|;
    forall u, a | Waits(u, from, clock)
      ensures Waits(Act(u, a), from, clock)
    {
      WaitsStep(u, a, from, clock);
    }
    InvariantRun(u => Waits(u, from, clock), t, after);
  }
}
