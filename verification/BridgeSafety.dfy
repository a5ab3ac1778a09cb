/**
 What every run of the bridge's loop keeps, whatever btclient prints, whatever
 the clock shows and whichever calls fail. The lemmas about runs are stated for
 arbitrary sequences of actions, of which the iterations of the loop are a
 special case.
*/
module BridgeSafety {
  import opened BridgeLoop
  import opened BridgeLog
  import opened Wrappers
  import Messages
  import Seqs

  // ----- The address list and the connection flag -----

  predicate NoDuplicates(xs: seq<string>) {
    forall i, j | 0 <= i < j < |xs| :: xs[i] != xs[j]
  }

  predicate Tracking(s: State) {
    && NoDuplicates(s.addresses)
    && (s.addresses == [] ==> s.address == None && s.addressIndex == 0)
    && (s.addresses != [] ==> s.addressIndex < |s.addresses| && s.address == Some(s.addresses[s.addressIndex]))
    && (s.connected ==> s.addresses != [] && LinkPeer(s.log) == s.address == LastPeer(s.log))
    && (!s.connected ==> LinkPeer(s.log).None?)
  }

  lemma QueueTracking(s: State, cs: seq<Command>)
    requires Tracking(s)
    ensures Tracking(QueueAll(s, cs))
  {
    QueueAllState(s, cs);
    QueueAllKeeps(s.log, cs);
  }

  lemma EmitTracking(s: State, e: Event)
    requires Tracking(s) && !e.Callback?
    ensures Tracking(Emit(s, e))
  {
    Snoc(s.log, e);
  }

  lemma TrackingFound(s: State, device: string)
    requires Tracking(s)
    ensures Tracking(OnFound(s, device))
  {
    var candidate := Messages.Upper(device);
    var t := if candidate in s.addresses then s else s.(addresses := s.addresses + [candidate]);
    if t.address.None? {
      EmitTracking(t.(address := Some(candidate), queue := t.queue + [RegisterClient]), Queued(RegisterClient));
    }
  }

  lemma TrackingQueue(s: State, c: Command)
    requires Tracking(s)
    ensures Tracking(Queue(s, c))
  {
    EmitTracking(s.(queue := s.queue + [c]), Queued(c));
  }

  lemma TrackingRegistered(s: State, r: Messages.Registration, publishOk: bool, clock: real)
    requires Tracking(s)
    ensures Tracking(OnRegistered(s, r, publishOk, clock))
  {
    if r.status == 0 && !s.registered {
      EmitTracking(s.(registered := true, clientId := Some(r.clientId)), Published(r.clientId));
      var t := Announce(s, r.clientId, publishOk);
      QueueTracking(t, Configuration(s.direct));
      var u := QueueAll(t, Configuration(s.direct));
      if u.address.Some? {
        TrackingQueue(u, ClientConnect(u.address.value));
      }
    }
  }

  lemma TrackingUp(s: State, peer: string)
    requires Tracking(s) && peer in s.addresses
    ensures Tracking(OnCallback(s, peer, true))
  {
    Snoc(s.log, Callback(peer, true));
  }

  lemma TrackingDown(s: State, peer: string)
    requires Tracking(s) && peer in s.addresses
    ensures Tracking(OnCallback(s, peer, false))
  {
    Snoc(s.log, Callback(peer, false));
    if s.address == Some(peer) {
      assert OnCallback(s, peer, false) == Advance(Emit(s, Callback(peer, false)).(connected := false));
    } else {
      assert OnCallback(s, peer, false) == Emit(s, Callback(peer, false));
    }
  }

  lemma TrackingConnection(s: State, c: Messages.Connection)
    requires Tracking(s)
    ensures Tracking(OnConnection(s, c))
  {
    var peer := Messages.Upper(c.peer);
    if peer in s.addresses {
      TrackingUp(s, peer);
      TrackingDown(s, peer);
    }
  }

  lemma TrackingNotified(s: State, n: Messages.Notification, uhidOk: bool)
    requires Tracking(s)
    ensures Tracking(OnNotified(s, n, uhidOk))
  {
    NotifiedShape(s, n, uhidOk);
    var t := OnNotified(s, n, uhidOk);
    if t.log != s.log {
      EmitTracking(s, Last(t.log));
    }
  }

  lemma TrackingSetUp(s: State)
    requires Tracking(s)
    ensures Tracking(OnSetUp(s))
  {
    QueueTracking(s, Batch(PeerText(s)));
  }

  lemma TrackingRetry(s: State, now: real)
    requires Tracking(s)
    ensures Tracking(OnRetry(s, now))
  {
    if s.addresses != [] && !s.connected {
      var t := Advance(s);
      EmitTracking(t, Retried(t.address.value, now));
      TrackingQueue(Emit(t, Retried(t.address.value, now)), ClientConnect(t.address.value));
    }
  }

  lemma TrackingWriteMode(s: State, now: real, ok: bool)
    requires Tracking(s)
    ensures Tracking(OnWriteMode(s, now, ok))
  {
    EmitTracking(s, ModeWrite(s.clientId, PeerText(s), now));
  }

  lemma TrackingSend(s: State, now: real, ok: bool)
    requires Tracking(s)
    ensures Tracking(OnSend(s, now, ok))
  {
    if s.queue != [] {
      EmitTracking(s.(queue := s.queue[1..]), Sent(s.queue[0], now));
    }
  }

  lemma TrackingStep(s: State, a: Action)
    requires Tracking(s)
    ensures Tracking(Act(s, a))
  {
    match a
    case Found(device) => TrackingFound(s, device);
    case Registered(r, publishOk, clock) => TrackingRegistered(s, r, publishOk, clock);
    case Connection(c) => TrackingConnection(s, c);
    case Notified(n, uhidOk) => TrackingNotified(s, n, uhidOk);
    case SetUp => TrackingSetUp(s);
    case WriteMode(now, ok) => TrackingWriteMode(s, now, ok);
    case Retry(now) => TrackingRetry(s, now);
    case Send(now, ok) => TrackingSend(s, now, ok);
    case Poll(_) =>
  }

  lemma {:induction false} TrackingReached(argument: Option<string>, direct: bool, actions: seq<Action>)
    ensures Tracking(Perform(Initial(argument, direct), actions))
  {
    FirstLog(argument, direct);
    FirstEvent(Initial(argument, direct).queue[0]);
    forall s, a | Tracking(s)
      ensures Tracking(Act(s, a))
    {
      TrackingStep(s, a);
    }
    InvariantRun(Tracking, Initial(argument, direct), actions);
  }

  /** What LinkPeer means, event by event. */
  lemma {:induction false} LinkPeerMeans(log: Log, peer: string)
    ensures LinkPeer(log) == Some(peer) <==>
            exists i | 0 <= i < |log| ::
              log[i] == Callback(peer, true)
              && forall j | i < j < |log| :: !(log[j].Callback? && (log[j].up || log[j].peer == peer))
  {
    if log == [] {
    } else {
      var front, e := Front(log), Last(log);
      LinkPeerMeans(front, peer);
      assert forall i | 0 <= i < |front| :: front[i] == log[i];
      if e.Callback? && e.up {
        assert log[|log| - 1] == e;
      } else if LinkPeer(front) == Some(peer) && !(e.Callback? && e.peer == peer) {
        var i :| 0 <= i < |front| && front[i] == Callback(peer, true)
                 && forall j | i < j < |front| :: !(front[j].Callback? && (front[j].up || front[j].peer == peer));
        assert log[i] == Callback(peer, true);
      }
    }
  }

  /**
   The address list never holds an address twice, the index always points at the
   current address, and the loop believes it is connected exactly when the latest
   successful callback came from a peer that has had no failing callback since,
   and that peer is the current address.
  */
  lemma {:induction false} AddressTracking(argument: Option<string>, direct: bool, actions: seq<Action>)
    ensures var s := Perform(Initial(argument, direct), actions);
            && NoDuplicates(s.addresses)
            && (s.addresses == [] <==> s.address.None?)
            && (s.addresses != [] ==> s.addressIndex < |s.addresses| && s.address == Some(s.addresses[s.addressIndex]))
            && (s.connected <==> exists peer, i | 0 <= i < |s.log| ::
                  s.log[i] == Callback(peer, true) && s.address == Some(peer)
                  && forall j | i < j < |s.log| :: !(s.log[j].Callback? && (s.log[j].up || s.log[j].peer == peer)))
  {
    var s := Perform(Initial(argument, direct), actions);
    TrackingReached(argument, direct, actions);
    if s.address.Some? {
      LinkPeerMeans(s.log, s.address.value);
    }
  }

  // ----- The command queue -----

  /** Room the queue still has to leave for a device that is not found and a client that is not registered yet. */
  function Pending(s: State): nat {
    |s.queue| + (if s.address.None? then 1 else 0) + (if s.registered then 0 else 4)
  }

  predicate Bounded(s: State) {
    Pending(s) <= 9 && (s.connected ==> s.address.Some?)
  }

  lemma BoundedRegistered(s: State, r: Messages.Registration, publishOk: bool, clock: real)
    requires Bounded(s)
    ensures Bounded(OnRegistered(s, r, publishOk, clock))
  {
    QueueAllState(Announce(s, r.clientId, publishOk), Configuration(s.direct));
  }

  lemma BoundedFound(s: State, device: string)
    requires Bounded(s)
    ensures Bounded(OnFound(s, device))
  {
  }

  lemma BoundedConnection(s: State, c: Messages.Connection)
    requires Bounded(s)
    ensures Bounded(OnConnection(s, c))
  {
  }

  lemma BoundedNotified(s: State, n: Messages.Notification, uhidOk: bool)
    requires Bounded(s)
    ensures Bounded(OnNotified(s, n, uhidOk))
  {
    NotifiedShape(s, n, uhidOk);
  }

  lemma BoundedSetUp(s: State)
    requires Bounded(s)
    ensures Bounded(OnSetUp(s))
  {
    QueueAllState(s, Batch(PeerText(s)));
  }

  lemma BoundedRetry(s: State, now: real)
    requires Bounded(s)
    ensures Bounded(OnRetry(s, now))
  {
  }

  lemma BoundedWriteSend(s: State, now: real, ok: bool)
    requires Bounded(s)
    ensures Bounded(OnWriteMode(s, now, ok)) && Bounded(OnSend(s, now, ok))
  {
  }

  lemma BoundedStep(s: State, a: Action)
    requires Bounded(s)
    ensures Bounded(Act(s, a))
  {
    match a
    case Found(device) => BoundedFound(s, device);
    case Registered(r, publishOk, clock) => BoundedRegistered(s, r, publishOk, clock);
    case Connection(c) => BoundedConnection(s, c);
    case Notified(n, uhidOk) => BoundedNotified(s, n, uhidOk);
    case SetUp => BoundedSetUp(s);
    case WriteMode(now, ok) => BoundedWriteSend(s, now, ok);
    case Retry(now) => BoundedRetry(s, now);
    case Send(now, ok) => BoundedWriteSend(s, now, ok);
    case Poll(_) =>
  }

  /** On every run the queue holds at most nine commands, fewer before the device is found or the client registered. */
  lemma {:induction false} QueueBound(argument: Option<string>, direct: bool, actions: seq<Action>)
    ensures var s := Perform(Initial(argument, direct), actions);
            |s.queue| + (if s.address.None? then 1 else 0) + (if s.registered then 0 else 4) <= 9
  {
    forall s, a | Bounded(s)
      ensures Bounded(Act(s, a))
    {
      BoundedStep(s, a);
    }
    InvariantRun(Bounded, Initial(argument, direct), actions);
  }

  /** The bound is reached: a connection reported before the registration fills the queue to nine. */
  lemma {:induction false} QueueBoundTight(peer: string)
    requires Messages.Upper(peer) == peer != ""
    ensures exists actions :: |Perform(Initial(Some(peer), false), actions).queue| == 9
  {
    var s := Initial(Some(peer), false);
    var c := Messages.Connection(0, 0, true, peer);
    var r := Messages.Registration(0, 0);
    var a: seq<Action> := [Send(0.0, true), Connection(c), SetUp, Registered(r, true, 0.0)];
    var s1 := Act(s, a[0]);
    assert s1.queue == [];
    var s2 := Act(s1, a[1]);
    var s3 := Act(s2, a[2]);
    QueueAllState(s2, Batch(PeerText(s2)));
    var s4 := Act(s3, a[3]);
    QueueAllState(Announce(s3, 0, true), Configuration(false));
    assert |s4.queue| == 9;
    Perform4(s, a);
  }

  lemma Perform4(s: State, a: seq<Action>)
    requires |a| == 4
    ensures Perform(s, a) == Act(Act(Act(Act(s, a[0]), a[1]), a[2]), a[3])
  {
    assert a[1..][1..] == a[2..] && a[2..][1..] == a[3..] && a[3..][1..] == [];
    var s1 := Act(s, a[0]);
    var s2 := Act(s1, a[1]);
    var s3 := Act(s2, a[2]);
    assert Perform(s, a) == Perform(s1, a[1..]);
    assert Perform(s1, a[1..]) == Perform(s2, a[2..]);
    assert Perform(s2, a[2..]) == Perform(s3, a[3..]);
    assert Perform(s3, a[3..]) == Perform(Act(s3, a[3]), []);
  }

  /** Commands leave in the order they came; only a send that raised can lose one, and then the loop has stopped. */
  predicate Fifo(s: State) {
    && SentCommands(s.log) <= QueuedCommands(s.log)
    && (!s.stopped ==> QueuedCommands(s.log) == SentCommands(s.log) + s.queue)
  }

  lemma FifoQueueAll(s: State, cs: seq<Command>)
    requires Fifo(s) && !s.stopped
    ensures Fifo(QueueAll(s, cs))
  {
    QueueAllState(s, cs);
    QueueAllCommands(s.log, cs);
    Seqs.Assoc(SentCommands(s.log), s.queue, cs);
  }

  lemma FifoQueue(s: State, c: Command)
    requires Fifo(s) && !s.stopped
    ensures Fifo(Queue(s, c))
  {
    Snoc(s.log, Queued(c));
    Seqs.Assoc(SentCommands(s.log), s.queue, [c]);
  }

  lemma FifoEmit(s: State, e: Event)
    requires Fifo(s) && !e.Queued? && !e.Sent?
    ensures Fifo(Emit(s, e))
  {
    Snoc(s.log, e);
  }

  lemma FifoSend(s: State, now: real, sendOk: bool)
    requires Fifo(s) && !s.stopped
    ensures Fifo(OnSend(s, now, sendOk))
  {
    if s.queue != [] {
      Snoc(s.log, Sent(s.queue[0], now));
      Seqs.Uncons(s.queue);
      Seqs.Assoc(SentCommands(s.log), [s.queue[0]], s.queue[1..]);
    }
  }

  lemma FifoRegistered(s: State, r: Messages.Registration, publishOk: bool, clock: real)
    requires Fifo(s) && !s.stopped
    ensures Fifo(OnRegistered(s, r, publishOk, clock))
  {
    if r.status == 0 && !s.registered {
      FifoEmit(s.(registered := true, clientId := Some(r.clientId)), Published(r.clientId));
      var t := Announce(s, r.clientId, publishOk);
      if !t.stopped {
        FifoQueueAll(t, Configuration(s.direct));
        QueueAllState(t, Configuration(s.direct));
        var u := QueueAll(t, Configuration(s.direct));
        if u.address.Some? {
          FifoQueue(u, ClientConnect(u.address.value));
        }
      }
    }
  }

  lemma FifoFound(s: State, device: string)
    requires Fifo(s) && !s.stopped
    ensures Fifo(OnFound(s, device))
  {
    CandidateShape(s, Messages.Upper(device));
    FifoQueue(s, RegisterClient);
  }

  lemma FifoNotified(s: State, n: Messages.Notification, uhidOk: bool)
    requires Fifo(s) && !s.stopped
    ensures Fifo(OnNotified(s, n, uhidOk))
  {
    NotifiedShape(s, n, uhidOk);
    var t := OnNotified(s, n, uhidOk);
    if t.log != s.log {
      FifoEmit(s, Last(t.log));
    }
  }

  lemma FifoConnectionMode(s: State, c: Messages.Connection, now: real, ok: bool)
    requires Fifo(s) && !s.stopped
    ensures Fifo(OnConnection(s, c)) && Fifo(OnWriteMode(s, now, ok))
  {
    FifoEmit(s, Callback(Messages.Upper(c.peer), true));
    FifoEmit(s, Callback(Messages.Upper(c.peer), false));
    FifoEmit(s, ModeWrite(s.clientId, PeerText(s), now));
  }

  lemma FifoRetry(s: State, now: real)
    requires Fifo(s) && !s.stopped
    ensures Fifo(OnRetry(s, now))
  {
    if s.addresses != [] {
      var t := Advance(s);
      FifoEmit(t, Retried(t.address.value, now));
      FifoQueue(Emit(t, Retried(t.address.value, now)), ClientConnect(t.address.value));
    }
  }

  lemma FifoStep(s: State, a: Action)
    requires Fifo(s)
    ensures Fifo(Act(s, a))
  {
    if !s.stopped {
      match a
      case Found(device) => FifoFound(s, device);
      case Registered(r, publishOk, clock) => FifoRegistered(s, r, publishOk, clock);
      case Connection(c) => FifoConnectionMode(s, c, 0.0, true);
      case Notified(n, uhidOk) => FifoNotified(s, n, uhidOk);
      case SetUp => FifoQueueAll(s, Batch(PeerText(s)));
      case WriteMode(now, ok) => FifoConnectionMode(s, Messages.Connection(0, 0, true, ""), now, ok);
      case Retry(now) => FifoRetry(s, now);
      case Send(now, sendOk) => FifoSend(s, now, sendOk);
      case Poll(_) =>
    }
  }

  lemma {:induction false} FifoRun(s: State, actions: seq<Action>)
    requires Fifo(s)
    ensures Fifo(Perform(s, actions))
  {
    forall t, a | Fifo(t)
      ensures Fifo(Act(t, a))
    {
      FifoStep(t, a);
    }
    InvariantRun(Fifo, s, actions);
  }

  lemma {:induction false} FifoInitial(argument: Option<string>, direct: bool)
    ensures Fifo(Initial(argument, direct))
  {
    FirstLog(argument, direct);
    FirstEvent(Initial(argument, direct).queue[0]);
  }

  /** On every run that has not stopped, what was sent followed by what is queued is all that was ever queued. */
  lemma {:induction false} FifoOrder(argument: Option<string>, direct: bool, actions: seq<Action>)
    ensures var s := Perform(Initial(argument, direct), actions);
            && SentCommands(s.log) <= QueuedCommands(s.log)
            && (!s.stopped ==> QueuedCommands(s.log) == SentCommands(s.log) + s.queue)
  {
    FifoInitial(argument, direct);
    FifoRun(Initial(argument, direct), actions);
  }
}
