/**
 `main` of duet5-hogp-bridge.py as a running object: its variables as fields that
 the code updates step by step, with a pseudo-terminal client of its own. Every
 method is proved to take the fields to exactly the state the corresponding
 action of BridgeLoop gives, so everything proved of the actions holds of it.
*/
module BridgeProcess {
  import opened BridgeLoop
  import opened BridgeLog
  import opened Bytes
  import opened Wrappers
  import BridgeTiming
  import Framing
  import Messages
  import Seqs
  import TextRuns
  import UhidCodec

  class Bridge {
    const direct: bool
    const client: Framing.BtClientPty
    var stopped: bool
    var address: Option<string>
    var addresses: seq<string>
    var addressIndex: nat
    var registered: bool
    var clientId: Option<int>
    var connected: bool
    var notificationSetup: bool
    var modeSet: bool
    var commandQueue: seq<Command>
    var nextCommandAt: real
    var lastConnectTry: real
    var stats: map<nat, nat>
    var warnedLengths: set<(nat, nat)>
    var log: seq<Event>

    function Snapshot(): State
      reads this
    {
      State(direct, stopped, address, addresses, addressIndex, registered, clientId, connected, notificationSetup,
            modeSet, commandQueue, nextCommandAt, lastConnectTry, stats, warnedLengths, log)
    }

    /** What the code counts on: the address is one of the list, and every handle has a counter. */
    predicate Valid()
      reads this
    {
      && (address.Some? ==> addresses != [])
      && (forall h | h in INPUT_HANDLES :: h in stats)
    }

    method Enqueue(command: Command)
      modifies this`commandQueue, this`log
      ensures Snapshot() == Queue(old(Snapshot()), command)
    {
      commandQueue := commandQueue + [command];
      log := log + [Queued(command)];
    }

    constructor (argument: Option<string>, direct: bool)
      ensures Snapshot() == Initial(argument, direct) && Valid()
      ensures fresh(client) && client.Valid() && client.buffer == ""
    {
      var given := argument.Some? && argument.value != "";
      this.direct := direct;
      client := new Framing.BtClientPty();
      stopped := false;
      address := if given then Some(Messages.Upper(argument.value)) else None;
      addresses := if given then [Messages.Upper(argument.value)] else [];
      addressIndex := 0;
      registered := false;
      clientId := None;
      connected := false;
      notificationSetup := false;
      modeSet := false;
      commandQueue := [];
      nextCommandAt := 0.0;
      lastConnectTry := 0.0;
      stats := map h | h in HANDLES :: 0;
      warnedLengths := {};
      log := [];
      new;
      Enqueue(if given then RegisterClient else ListBonded);
    }

    // ----- One line -----

    method DeviceFound(device: string)
      requires !stopped && Valid()
      modifies this`address, this`addresses, this`commandQueue, this`log
      ensures Snapshot() == OnFound(old(Snapshot()), device) && Valid()
    {
      var candidate := Messages.Upper(device);
      if candidate !in addresses {
        addresses := addresses + [candidate];
      }
      if address.None? {
        address := Some(candidate);
        Enqueue(RegisterClient);
      }
    }

    method ClientRegistered(r: Messages.Registration, publishOk: bool, clock: real)
      requires !stopped && Valid()
      modifies this`stopped, this`registered, this`clientId, this`commandQueue, this`lastConnectTry, this`log
      ensures Snapshot() == OnRegistered(old(Snapshot()), r, publishOk, clock) && Valid()
    {
      if r.status != 0 {
        stopped := true;
        return;
      }
      if !registered {
        Publish(r.clientId, publishOk);
        if stopped {
          return;
        }
        Configure();
        ConnectFirst(clock);
      }
    }

    method Publish(id: int, publishOk: bool)
      requires !stopped
      modifies this`registered, this`clientId, this`stopped, this`log
      ensures Snapshot() == Announce(old(Snapshot()), id, publishOk)
    {
      registered := true;
      clientId := Some(id);
      if !direct {
        if !publishOk {
          stopped := true;
          return;
        }
        log := log + [Published(id)];
      }
    }

    method ConnectFirst(clock: real)
      modifies this`commandQueue, this`log, this`lastConnectTry
      ensures Snapshot() == FirstConnect(old(Snapshot()), clock)
    {
      if address.Some? {
        Enqueue(ClientConnect(address.value));
        lastConnectTry := clock;
      }
    }

    method Configure()
      modifies this`commandQueue, this`log
      ensures Snapshot() == QueueAll(old(Snapshot()), Configuration(direct))
    {
      ThreeQueued(Snapshot(), SetConnectTransport, SetAuthReq, SetDirectConnect(direct));
      Enqueue(SetConnectTransport);
      Enqueue(SetAuthReq);
      Enqueue(SetDirectConnect(direct));
    }

    method ConnectionChanged(c: Messages.Connection)
      requires !stopped && Valid()
      modifies this`address, this`addressIndex, this`connected, this`notificationSetup, this`modeSet, this`log
      ensures Snapshot() == OnConnection(old(Snapshot()), c) && Valid()
    {
      var callbackAddress := Messages.Upper(c.peer);
      if callbackAddress in addresses {
        if c.connected && c.status == 0 {
          Connected(callbackAddress);
        } else {
          Disconnected(callbackAddress);
        }
      }
    }

    method Connected(peer: string)
      requires peer in addresses
      modifies this`address, this`addressIndex, this`connected, this`notificationSetup, this`modeSet, this`log
      ensures Snapshot() == OnCallback(old(Snapshot()), peer, true) && (old(Valid()) ==> Valid())
    {
      ghost var s := Snapshot();
      var index := IndexOf(addresses, peer);
      log := log + [Callback(peer, true)];
      address := Some(peer);
      addressIndex := index;
      connected := true;
      notificationSetup := false;
      modeSet := false;
      assert OnCallback(s, peer, true) ==
             Emit(s.(address := Some(peer), addressIndex := index, connected := true,
                     notificationSetup := false, modeSet := false), Callback(peer, true));
    }

    method Disconnected(peer: string)
      requires peer in addresses
      modifies this`address, this`addressIndex, this`connected, this`log
      ensures Snapshot() == OnCallback(old(Snapshot()), peer, false) && (old(Valid()) ==> Valid())
    {
      log := log + [Callback(peer, false)];
      if address == Some(peer) {
        connected := false;
        NextAddress();
      }
    }

    method Notification(n: Messages.Notification, uhidOk: bool)
      requires !stopped && Valid()
      modifies this`stopped, this`stats, this`warnedLengths, this`log
      ensures Snapshot() == OnNotified(old(Snapshot()), n, uhidOk) && Valid()
    {
      if address != Some(Messages.Upper(n.peer)) || n.handle !in INPUT_HANDLES {
        return;
      }
      var parsed := Messages.ParseValue(n.raw);
      if parsed.None? {
        return;
      }
      WarnOnce(n.handle, |parsed.value|);
      Deliver(n.handle, parsed.value, uhidOk);
    }

    /** One warning per handle and unexpected length. */
    method WarnOnce(handle: nat, length: nat)
      requires handle in INPUT_HANDLES
      modifies this`warnedLengths
      ensures Snapshot() == Warn(old(Snapshot()), handle, length)
    {
      if length != EXPECTED_LENGTHS[handle] && (handle, length) !in warnedLengths {
        warnedLengths := warnedLengths + {(handle, length)};
      }
    }

    /** send_input, and the counter after it. */
    method Deliver(handle: nat, value: seq<byte>, uhidOk: bool)
      requires handle in INPUT_HANDLES && Valid()
      modifies this`log, this`stats, this`stopped
      ensures Snapshot() == Forward(old(Snapshot()), handle, value, uhidOk) && Valid()
    {
      var event := UhidCodec.SendInput(UhidCodec.InputReport(INPUT_HANDLES[handle], value));
      if event.None? || !uhidOk {
        stopped := true;
        return;
      }
      log := log + [Report(event.value)];
      stats := stats[handle := stats[handle] + 1];
    }

    method HandleLine(l: LineInput)
      requires !stopped && Valid()
      modifies this
      ensures Snapshot() == Perform(old(Snapshot()), LineActions(l)) && Valid()
    {
      LineParts(Snapshot(), l);
      HandleNames(l);
      if stopped {
        StoppedParts(Snapshot(), l);
        return;
      }
      HandleEvents(l);
    }

    /** The first two searches: a device found, a client registered. */
    method HandleNames(l: LineInput)
      requires !stopped && Valid()
      modifies this
      ensures Snapshot() == Perform(Perform(old(Snapshot()), DeviceActions(l)), RegistrationActions(l)) && Valid()
    {
      DevicePart(Snapshot(), l);
      if l.line.device.Some? {
        DeviceFound(l.line.device.value);
      }
      RegistrationPart(Snapshot(), l);
      if l.line.registration.Some? {
        ClientRegistered(l.line.registration.value, l.publishOk, l.clock);
      }
    }

    /** The other two: a connection changed, a notification. */
    method HandleEvents(l: LineInput)
      requires !stopped && Valid()
      modifies this
      ensures Snapshot() == Perform(Perform(old(Snapshot()), ConnectionActions(l)), NotificationActions(l)) && Valid()
    {
      ConnectionPart(Snapshot(), l);
      if l.line.connection.Some? {
        ConnectionChanged(l.line.connection.value);
      }
      NotificationPart(Snapshot(), l);
      if l.line.notification.Some? {
        Notification(l.line.notification.value, l.uhidOk);
      }
    }

    // ----- The rest of an iteration -----

    method SetUpNotifications()
      requires !stopped && Valid()
      modifies this`commandQueue, this`notificationSetup, this`log
      ensures Snapshot() == OnSetUp(old(Snapshot())) && Valid()
    {
      if connected && !notificationSetup && commandQueue == [] {
        QueueRegistrations();
        notificationSetup := true;
      }
    }

    /** for handle in INPUT_HANDLES: queue(...) */
    method QueueRegistrations()
      modifies this`commandQueue, this`log
      ensures Snapshot() == QueueAll(old(Snapshot()), Batch(PeerText(old(Snapshot()))))
    {
      ghost var s := Snapshot();
      var peer := if address.Some? then address.value else "None";
      ghost var batch := Batch(peer);
      for i := 0 to |HANDLES|
        invariant Snapshot() == QueueAll(s, batch[..i])
      {
        QueueAllSnoc(s, batch, i);
        Enqueue(RegisterNotification(peer, HANDLES[i]));
      }
      assert batch[..|HANDLES|] == batch;
    }

    method WriteInputMode(now: real, modeOk: bool)
      requires !stopped && Valid()
      modifies this`stopped, this`modeSet, this`log
      ensures Snapshot() == OnWriteMode(old(Snapshot()), now, modeOk) && Valid()
    {
      if connected && notificationSetup && commandQueue == [] && !modeSet {
        log := log + [ModeWrite(clientId, if address.Some? then address.value else "None", now)];
        if !modeOk {
          stopped := true;
          return;
        }
        modeSet := true;
      }
    }

    method RetryConnect(now: real)
      requires !stopped && Valid()
      modifies this`address, this`addressIndex, this`commandQueue, this`lastConnectTry, this`log
      ensures Snapshot() == OnRetry(old(Snapshot()), now) && Valid()
    {
      if registered && addresses != [] && !connected && commandQueue == [] && now - lastConnectTry > 6.0 {
        NextAddress();
        log := log + [Retried(address.value, now)];
        Enqueue(ClientConnect(address.value));
        lastConnectTry := now;
      }
    }

    method NextAddress()
      requires addresses != []
      modifies this`address, this`addressIndex
      ensures Snapshot() == Advance(old(Snapshot()))
    {
      addressIndex := (addressIndex + 1) % |addresses|;
      address := Some(addresses[addressIndex]);
    }

    method SendNext(now: real, sendOk: bool)
      requires !stopped && Valid()
      modifies this`stopped, this`commandQueue, this`nextCommandAt, this`log
      ensures Snapshot() == OnSend(old(Snapshot()), now, sendOk) && Valid()
    {
      if commandQueue != [] && now >= nextCommandAt {
        var command := commandQueue[0];
        commandQueue := commandQueue[1..];
        if !sendOk {
          stopped := true;
          return;
        }
        log := log + [Sent(command, now)];
        nextCommandAt := now + 0.8;
      }
    }

    method CloseIteration(t: Tick)
      requires !stopped && Valid()
      modifies this
      ensures Snapshot() == Perform(old(Snapshot()), LoopActions(t)) && Valid()
    {
      ghost var s0 := Snapshot();
      SetUpNotifications();
      ghost var s1 := Snapshot();
      WriteInputMode(t.now, t.modeOk);
      ghost var s2 := Snapshot();
      if stopped {
        IterationEffect(s0, s1, s2, s2, s2, s2, t);
        return;
      }
      RetryConnect(t.now);
      ghost var s3 := Snapshot();
      SendNext(t.now, t.sendOk);
      ghost var s4 := Snapshot();
      if t.exited {
        stopped := true;
      }
      IterationEffect(s0, s1, s2, s3, s4, Snapshot(), t);
    }

    // ----- Iterations -----

    /** The body of the while loop: one read, its lines, and the rest. */
    method Iterate(t: TextRuns.TextTick)
      requires !stopped && Valid() && client.Valid()
      modifies this, client
      ensures Valid() && client.Valid()
      ensures var f := Framing.Feed(old(client.buffer), t.chunk);
              && client.buffer == f.buffer
              && Snapshot() == Perform(old(Snapshot()), TickActions(TextRuns.TickOf(t, f.lines)))
    {
      ghost var s0 := Snapshot();
      var lines := client.Lines(Some(t.chunk));
      ghost var tick := TextRuns.TickOf(t, lines);
      PerformConcat(s0, LinesActions(tick.lines), LoopActions(tick));
      ReadLines(lines, t.outcome);
      if stopped {
        StoppedStays(Snapshot(), LoopActions(tick));
        return;
      }
      CloseIteration(Tick(t.now, [], t.modeOk, t.sendOk, t.exited));
    }

    /** for line in client.lines() */
    method ReadLines(lines: seq<string>, outcome: nat -> TextRuns.Outcome)
      requires !stopped && Valid()
      modifies this
      ensures Snapshot() == Perform(old(Snapshot()), LinesActions(TextRuns.Inputs(lines, outcome, 0))) && Valid()
    {
      ghost var all := LinesActions(TextRuns.Inputs(lines, outcome, 0));
      for i := 0 to |lines|
        invariant !stopped && Valid()
        invariant Perform(old(Snapshot()), all) ==
                  Perform(Snapshot(), LinesActions(TextRuns.Inputs(lines[i..], outcome, i)))
      {
        assert lines[i..][1..] == lines[i + 1..];
        TextRuns.InputsCons(Snapshot(), lines[i..], outcome, i);
        HandleLine(TextRuns.InputOf(lines[i], outcome(i)));
        if stopped {
          StoppedStays(Snapshot(), LinesActions(TextRuns.Inputs(lines[i + 1..], outcome, i + 1)));
          return;
        }
      }
      assert lines[|lines|..] == [];
    }

    /** while not stopping, for the given readings, reads and answers. */
    method Run(ticks: seq<TextRuns.TextTick>)
      requires !stopped && Valid() && client.Valid()
      modifies this, client
      ensures Valid() && client.Valid()
      ensures Snapshot() == TextRuns.RunText(old(Snapshot()), old(client.buffer), ticks)
    {
      ghost var end := TextRuns.RunText(Snapshot(), client.buffer, ticks);
      for i := 0 to |ticks|
        invariant !stopped && Valid() && client.Valid()
        invariant end == TextRuns.RunText(Snapshot(), client.buffer, ticks[i..])
      {
        assert ticks[i..][1..] == ticks[i + 1..];
        Iterate(ticks[i]);
        if stopped {
          TextRuns.RunTextStopped(Snapshot(), client.buffer, ticks[i + 1..]);
          return;
        }
      }
      assert ticks[|ticks|..] == [];
    }
  }

  lemma ThreeQueued(s: State, a: Command, b: Command, c: Command)
    ensures QueueAll(s, [a, b, c]) == Queue(Queue(Queue(s, a), b), c)
  {
    assert [a, b, c][1..] == [b, c] && [b, c][1..] == [c] && [c][1..] == [];
    assert QueueAll(Queue(Queue(s, a), b), [c]) == QueueAll(Queue(Queue(Queue(s, a), b), c), []);
    assert QueueAll(Queue(s, a), [b, c]) == QueueAll(Queue(Queue(s, a), b), [c]);
  }

  lemma QueueAllSnoc(s: State, cs: seq<Command>, i: nat)
    requires i < |cs|
    ensures QueueAll(s, cs[..i + 1]) == Queue(QueueAll(s, cs[..i]), cs[i])
  {
    QueueAllState(s, cs[..i]);
    QueueAllState(s, cs[..i + 1]);
    assert cs[..i + 1] == cs[..i] + [cs[i]];
    assert QueuedEvents(cs[..i + 1]) == QueuedEvents(cs[..i]) + [Queued(cs[i])];
    Seqs.Assoc(s.queue, cs[..i], [cs[i]]);
    Seqs.Assoc(s.log, QueuedEvents(cs[..i]), [Queued(cs[i])]);
  }

  lemma DevicePart(s: State, l: LineInput)
    requires !s.stopped
    ensures Perform(s, DeviceActions(l)) == if l.line.device.Some? then OnFound(s, l.line.device.value) else s
  {
    if l.line.device.Some? {
      PerformOne(s, Found(l.line.device.value));
    }
  }

  lemma RegistrationPart(s: State, l: LineInput)
    requires !s.stopped
    ensures Perform(s, RegistrationActions(l)) ==
            if l.line.registration.Some? then OnRegistered(s, l.line.registration.value, l.publishOk, l.clock) else s
  {
    if l.line.registration.Some? {
      PerformOne(s, Registered(l.line.registration.value, l.publishOk, l.clock));
    }
  }

  lemma ConnectionPart(s: State, l: LineInput)
    requires !s.stopped
    ensures Perform(s, ConnectionActions(l)) ==
            if l.line.connection.Some? then OnConnection(s, l.line.connection.value) else s
  {
    if l.line.connection.Some? {
      PerformOne(s, Connection(l.line.connection.value));
    }
  }

  lemma NotificationPart(s: State, l: LineInput)
    requires !s.stopped
    ensures Perform(s, NotificationActions(l)) ==
            if l.line.notification.Some? then OnNotified(s, l.line.notification.value, l.uhidOk) else s
  {
    if l.line.notification.Some? {
      PerformOne(s, Notified(l.line.notification.value, l.uhidOk));
    }
  }

  /** The four parts of a line, one after the other. */
  lemma LineParts(s: State, l: LineInput)
    ensures Perform(s, LineActions(l)) ==
            Perform(Perform(Perform(Perform(s, DeviceActions(l)), RegistrationActions(l)), ConnectionActions(l)),
                    NotificationActions(l))
  {
    var a, b, c, d := DeviceActions(l), RegistrationActions(l), ConnectionActions(l), NotificationActions(l);
    PerformConcat(s, a + b + c, d);
    PerformConcat(s, a + b, c);
    PerformConcat(s, a, b);
  }

  lemma StoppedParts(s: State, l: LineInput)
    requires s.stopped
    ensures Perform(Perform(s, ConnectionActions(l)), NotificationActions(l)) == s
  {
    StoppedStays(s, ConnectionActions(l));
    StoppedStays(s, NotificationActions(l));
  }

  lemma IterationEffect(s0: State, s1: State, s2: State, s3: State, s4: State, s5: State, t: Tick)
    requires s0.stopped == s1.stopped == false && s2.stopped == s3.stopped
    requires s1 == OnSetUp(s0)
    requires s2 == OnWriteMode(s1, t.now, t.modeOk)
    requires s3 == if s2.stopped then s2 else OnRetry(s2, t.now)
    requires s4 == if s3.stopped then s3 else OnSend(s3, t.now, t.sendOk)
    requires s5 == if t.exited && !s4.stopped then Stop(s4) else s4
    ensures Perform(s0, LoopActions(t)) == s5
  {
    BridgeTiming.LoopActionsStep(s0, t);
    SetUpEffect(s0, s1, s2, t);
    CloseEffect(s2, s3, s4, s5, t);
  }

  lemma SetUpEffect(s0: State, s1: State, s2: State, t: Tick)
    requires s0.stopped == s1.stopped == false && s1 == OnSetUp(s0) && s2 == OnWriteMode(s1, t.now, t.modeOk)
    ensures Act(Act(s0, SetUp), WriteMode(t.now, t.modeOk)) == s2
  {
  }

  lemma CloseEffect(s2: State, s3: State, s4: State, s5: State, t: Tick)
    requires s3 == if s2.stopped then s2 else OnRetry(s2, t.now)
    requires s4 == if s3.stopped then s3 else OnSend(s3, t.now, t.sendOk)
    requires s5 == if t.exited && !s4.stopped then Stop(s4) else s4
    ensures Act(Act(Act(s2, Retry(t.now)), Send(t.now, t.sendOk)), Poll(t.exited)) == s5
  {
  }
}
