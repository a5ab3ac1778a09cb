/** What each action of the bridge's loop can change, and what it can log. */
module BridgeFrames {
  import opened BridgeLog
  import opened BridgeLoop
  import opened Wrappers
  import Messages

  predicate Allowed(a: Action, e: Event) {
    match a
    case Found(_) => e.Queued?
    case Registered(_, _, _) => e.Published? || e.Queued?
    case Connection(_) => e.Callback?
    case Notified(_, _) => e.Report?
    case SetUp => e.Queued?
    case WriteMode(_, _) => e.ModeWrite?
    case Retry(_) => e.Retried? || e.Queued?
    case Send(_, _) => e.Sent?
    case Poll(_) => false
  }

  /** The log only grows, and only by events of the action's own kinds. */
  predicate Grows(log: Log, more: Log, a: Action) {
    log <= more && forall k | |log| <= k < |more| :: Allowed(a, more[k])
  }

  /** The fields an action may change; all others are as they were. */
  predicate Changes(s: State, t: State, a: Action) {
    match a
    case Found(_) =>
      && t == s.(addresses := t.addresses, address := t.address, queue := t.queue, log := t.log)
      && (s.address.Some? ==> t == s.(addresses := t.addresses))
    case Registered(r, _, _) =>
      && t == s.(stopped := t.stopped, registered := t.registered, clientId := t.clientId, queue := t.queue,
                 lastConnectTry := t.lastConnectTry, log := t.log)
      && (s.registered || r.status != 0 ==> t == s.(stopped := t.stopped))
    case Connection(_) =>
      t == s.(address := t.address, addressIndex := t.addressIndex, connected := t.connected,
              notificationSetup := t.notificationSetup, modeSet := t.modeSet, log := t.log)
    case Notified(_, _) => t == s.(stopped := t.stopped, stats := t.stats, warned := t.warned, log := t.log)
    case SetUp => t == s.(queue := t.queue, notificationSetup := t.notificationSetup, log := t.log)
    case WriteMode(_, _) => t == s.(stopped := t.stopped, modeSet := t.modeSet, log := t.log)
    case Retry(_) =>
      t == s.(address := t.address, addressIndex := t.addressIndex, queue := t.queue,
              lastConnectTry := t.lastConnectTry, log := t.log)
    case Send(_, _) => t == s.(stopped := t.stopped, queue := t.queue, nextCommandAt := t.nextCommandAt, log := t.log)
    case Poll(_) => t == s.(stopped := t.stopped)
  }

  predicate Frame(s: State, t: State, a: Action) {
    Changes(s, t, a) && Grows(s.log, t.log, a)
  }

  lemma FoundFrame(s: State, device: string)
    ensures Frame(s, OnFound(s, device), Found(device))
  {
    CandidateShape(s, Messages.Upper(device));
  }

  lemma GrowsOn(log: Log, more: Log, most: Log, a: Action)
    requires Grows(log, more, a) && Grows(more, most, a)
    ensures Grows(log, most, a)
  {
  }

  lemma AnnounceFrame(s: State, id: int, publishOk: bool, a: Action)
    requires a.Registered?
    ensures var t := Announce(s, id, publishOk);
            && t == s.(registered := true, clientId := Some(id), stopped := t.stopped, log := t.log)
            && Grows(s.log, t.log, a)
  {
  }

  lemma QueuedFrame(s: State, cs: seq<Command>, a: Action)
    requires a.Registered?
    ensures var t := QueueAll(s, cs); t == s.(queue := t.queue, log := t.log) && Grows(s.log, t.log, a)
  {
    QueueAllState(s, cs);
  }

  lemma ConnectFrame(s: State, clock: real, a: Action)
    requires a.Registered?
    ensures var t := FirstConnect(s, clock);
            && t == s.(queue := t.queue, lastConnectTry := t.lastConnectTry, log := t.log)
            && Grows(s.log, t.log, a)
  {
  }

  /** Handling the answer: its announcement, the configuration commands and the first connection request. */
  lemma RegisteredFrame(s: State, r: Messages.Registration, publishOk: bool, clock: real)
    ensures Frame(s, OnRegistered(s, r, publishOk, clock), Registered(r, publishOk, clock))
  {
    if r.status == 0 && !s.registered {
      var a, t := Registered(r, publishOk, clock), Announce(s, r.clientId, publishOk);
      AnnounceFrame(s, r.clientId, publishOk, a);
      if !t.stopped {
        var u := QueueAll(t, Configuration(s.direct));
        QueuedFrame(t, Configuration(s.direct), a);
        ConnectFrame(u, clock, a);
        GrowsOn(s.log, t.log, u.log, a);
        GrowsOn(s.log, u.log, FirstConnect(u, clock).log, a);
      }
    }
  }

  lemma ConnectionFrame(s: State, c: Messages.Connection)
    ensures Frame(s, OnConnection(s, c), Connection(c))
  {
    CallbackShape(s, Messages.Upper(c.peer), c.connected && c.status == 0);
  }

  lemma NotifiedFrame(s: State, n: Messages.Notification, uhidOk: bool)
    ensures Frame(s, OnNotified(s, n, uhidOk), Notified(n, uhidOk))
  {
    NotifiedShape(s, n, uhidOk);
  }

  lemma SetUpFrame(s: State)
    ensures Frame(s, OnSetUp(s), SetUp)
  {
    QueueAllState(s, Batch(PeerText(s)));
  }

  lemma WriteModeFrame(s: State, now: real, modeOk: bool)
    ensures Frame(s, OnWriteMode(s, now, modeOk), WriteMode(now, modeOk))
  {
    if s.connected && s.notificationSetup && s.queue == [] && !s.modeSet {
      var t := Emit(s, ModeWrite(s.clientId, PeerText(s), now));
      assert OnWriteMode(s, now, modeOk) == if modeOk then t.(modeSet := true) else Stop(t);
    }
  }

  lemma SendFrame(s: State, now: real, sendOk: bool)
    ensures Frame(s, OnSend(s, now, sendOk), Send(now, sendOk))
  {
    if s.queue != [] && now >= s.nextCommandAt {
      var t := s.(queue := s.queue[1..]);
      assert OnSend(s, now, sendOk) ==
             if sendOk then Emit(t, Sent(s.queue[0], now)).(nextCommandAt := now + COMMAND_INTERVAL) else Stop(t);
    }
  }

  lemma RetryFrame(s: State, now: real)
    ensures Frame(s, OnRetry(s, now), Retry(now))
  {
  }

  lemma ActFrame(s: State, a: Action)
    ensures Frame(s, Act(s, a), a)
  {
    match a
    case Found(device) => FoundFrame(s, device);
    case Registered(r, publishOk, clock) => RegisteredFrame(s, r, publishOk, clock);
    case Connection(c) => ConnectionFrame(s, c);
    case Notified(n, uhidOk) => NotifiedFrame(s, n, uhidOk);
    case SetUp => SetUpFrame(s);
    case WriteMode(now, ok) => WriteModeFrame(s, now, ok);
    case Retry(now) => RetryFrame(s, now);
    case Send(now, ok) => SendFrame(s, now, ok);
    case Poll(_) =>
  }
}
