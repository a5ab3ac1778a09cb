/**
 The order in which a peer is set up: after a successful connection callback the
 five notification registrations for that peer are queued once the queue has run
 empty, all of them are sent, and only then is the Input Mode written, at most
 once per callback.
*/
module BridgeModes {
  import opened BridgeLoop
  import opened BridgeLog
  import opened BridgeSafety
  import opened Wrappers
  import Messages
  import Seqs

  function BatchOf(peer: Option<string>): seq<Command> {
    if peer.Some? then Batch(peer.value) else []
  }

  /** The log allows an Input Mode write for this peer: its five registrations are queued, and all that was is sent. */
  predicate Ready(log: Log, peer: string) {
    && LastPeer(log) == Some(peer)
    && Registrations(log) == Batch(peer)
    && QueuedCommands(log) == SentCommands(log)
    && ModeWrites(log) == 0
  }

  /** What holds of the log at any moment. */
  predicate LawAt(log: Log) {
    && SentCommands(log) <= QueuedCommands(log)
    && Registrations(log) <= BatchOf(LastPeer(log))
    && ModeWrites(log) <= 1
    && (log != [] && Last(log).ModeWrite? ==> Ready(Front(log), Last(log).peer))
  }

  predicate Lawful(log: Log) {
    forall n | 0 <= n <= |log| :: LawAt(log[..n])
  }

  lemma LawfulSnoc(log: Log, e: Event)
    requires Lawful(log) && LawAt(log + [e])
    ensures Lawful(log + [e])
  {
    var more := log + [e];
    forall n | 0 <= n <= |more|
      ensures LawAt(more[..n])
    {
      if n <= |log| {
        assert more[..n] == log[..n];
      } else {
        assert more[..n] == more;
      }
    }
  }

  lemma LawfulWhole(log: Log)
    requires Lawful(log)
    ensures LawAt(log)
  {
    assert log[..|log|] == log;
  }

  /** How the loop's flags relate to the log. */
  predicate Phases(s: State) {
    s.connected ==>
      && (!s.notificationSetup ==> Registrations(s.log) == [] && ModeWrites(s.log) == 0)
      && (s.notificationSetup ==> Registrations(s.log) == BatchOf(s.address))
      && (!s.modeSet && !s.stopped ==> ModeWrites(s.log) == 0)
      && (s.modeSet ==> ModeWrites(s.log) == 1)
  }

  predicate Ordered(s: State) {
    Tracking(s) && Fifo(s) && Lawful(s.log) && Phases(s)
  }

  /** Events that concern neither a peer's set-up nor the queue. */
  predicate Neutral(e: Event) {
    e.Published? || e.Retried? || e.Report? || (e.Callback? && !e.up)
  }

  lemma NeutralKeeps(log: Log, e: Event)
    requires Lawful(log) && Neutral(e)
    ensures Lawful(log + [e])
    ensures Registrations(log + [e]) == Registrations(log) && ModeWrites(log + [e]) == ModeWrites(log)
  {
    Snoc(log, e);
    LawfulWhole(log);
    LawfulSnoc(log, e);
  }

  lemma QueueKeeps(log: Log, c: Command)
    requires Lawful(log) && !c.RegisterNotification?
    ensures Lawful(log + [Queued(c)])
    ensures Registrations(log + [Queued(c)]) == Registrations(log) && ModeWrites(log + [Queued(c)]) == ModeWrites(log)
  {
    Snoc(log, Queued(c));
    LawfulWhole(log);
    LawfulSnoc(log, Queued(c));
  }

  lemma QueueLawful(log: Log, c: Command)
    requires Lawful(log)
    requires Registrations(log) + OnlyRegistrations([c]) <= BatchOf(LastPeer(log))
    ensures Lawful(log + [Queued(c)])
    ensures Registrations(log + [Queued(c)]) == Registrations(log) + OnlyRegistrations([c])
    ensures LastPeer(log + [Queued(c)]) == LastPeer(log)
  {
    assert [c][1..] == [];
    Snoc(log, Queued(c));
    LawfulWhole(log);
    LawfulSnoc(log, Queued(c));
  }

  lemma OnlyCons(cs: seq<Command>)
    requires cs != []
    ensures OnlyRegistrations(cs) == OnlyRegistrations([cs[0]]) + OnlyRegistrations(cs[1..])
  {
    assert [cs[0]][1..] == [];
  }

  lemma PrefixLeft<T>(a: seq<T>, b: seq<T>, c: seq<T>, d: seq<T>)
    requires a + (b + c) <= d
    ensures a + b <= d && (a + b) + c <= d
  {
    Seqs.Assoc(a, b, c);
  }

  lemma QueuedCons(log: Log, cs: seq<Command>)
    requires cs != []
    ensures log + QueuedEvents(cs) == (log + [Queued(cs[0])]) + QueuedEvents(cs[1..])
  {
    assert [Queued(cs[0])] + QueuedEvents(cs[1..]) == QueuedEvents(cs);
    Seqs.Assoc(log, [Queued(cs[0])], QueuedEvents(cs[1..]));
  }

  lemma {:induction false} QueueAllLawful(log: Log, cs: seq<Command>)
    requires Lawful(log) && Registrations(log) + OnlyRegistrations(cs) <= BatchOf(LastPeer(log))
    ensures Lawful(log + QueuedEvents(cs))
    decreases |cs|
  {
    if cs == [] {
      assert log + QueuedEvents(cs) == log;
    } else {
      OnlyCons(cs);
      PrefixLeft(Registrations(log), OnlyRegistrations([cs[0]]), OnlyRegistrations(cs[1..]), BatchOf(LastPeer(log)));
      QueueLawful(log, cs[0]);
      QueueAllLawful(log + [Queued(cs[0])], cs[1..]);
      QueuedCons(log, cs);
    }
  }

  // ----- Every action keeps it -----

  lemma OrderedFound(s: State, device: string)
    requires Ordered(s) && !s.stopped
    ensures Ordered(OnFound(s, device))
  {
    TrackingFound(s, device);
    FifoFound(s, device);
    QueueKeeps(s.log, RegisterClient);
    CandidateShape(s, Messages.Upper(device));
    if s.address.Some? {
      KnownCandidateShape(s, Messages.Upper(device));
    }
  }

  lemma PlainQueueAll(log: Log, cs: seq<Command>)
    requires Lawful(log) && OnlyRegistrations(cs) == []
    ensures Lawful(log + QueuedEvents(cs))
    ensures Registrations(log + QueuedEvents(cs)) == Registrations(log)
    ensures ModeWrites(log + QueuedEvents(cs)) == ModeWrites(log)
  {
    LawfulWhole(log);
    assert Registrations(log) + [] == Registrations(log);
    QueueAllLawful(log, cs);
    QueueAllRegistrations(log, cs);
    QueueAllKeeps(log, cs);
  }

  lemma ConfigurationPlain(direct: bool)
    ensures OnlyRegistrations(Configuration(direct)) == []
  {
    var cs := Configuration(direct);
    assert cs[1..] == [cs[1], cs[2]] && cs[1..][1..] == [cs[2]] && [cs[2]][1..] == [];
    assert OnlyRegistrations([cs[2]]) == [];
  }

  /** Neither the set-up flags nor what they are compared with. */
  predicate SamePhase(s: State, t: State) {
    && t.connected == s.connected && t.notificationSetup == s.notificationSetup && t.modeSet == s.modeSet
    && t.address == s.address && (s.stopped ==> t.stopped)
    && Registrations(t.log) == Registrations(s.log) && ModeWrites(t.log) == ModeWrites(s.log)
  }

  lemma LawfulConfigured(s: State)
    requires Lawful(s.log)
    ensures var t := QueueAll(s, Configuration(s.direct)); Lawful(t.log) && SamePhase(s, t)
  {
    QueueAllState(s, Configuration(s.direct));
    ConfigurationPlain(s.direct);
    PlainQueueAll(s.log, Configuration(s.direct));
  }

  lemma LawfulConnect(s: State, clock: real)
    requires Lawful(s.log)
    ensures Lawful(FirstConnect(s, clock).log) && SamePhase(s, FirstConnect(s, clock))
  {
    if s.address.Some? {
      QueueKeeps(s.log, ClientConnect(s.address.value));
    }
  }

  lemma OrderedRegistered(s: State, r: Messages.Registration, publishOk: bool, clock: real)
    requires Ordered(s) && !s.stopped
    ensures Ordered(OnRegistered(s, r, publishOk, clock))
  {
    TrackingRegistered(s, r, publishOk, clock);
    FifoRegistered(s, r, publishOk, clock);
    if r.status == 0 && !s.registered {
      NeutralKeeps(s.log, Published(r.clientId));
      var t := Announce(s, r.clientId, publishOk);
      if !t.stopped {
        LawfulConfigured(t);
        LawfulConnect(QueueAll(t, Configuration(s.direct)), clock);
      }
    }
  }

  lemma LawfulUp(log: Log, peer: string)
    requires Lawful(log)
    ensures var more := log + [Callback(peer, true)];
            Lawful(more) && Registrations(more) == [] && ModeWrites(more) == 0
  {
    Snoc(log, Callback(peer, true));
    LawfulWhole(log);
    LawfulSnoc(log, Callback(peer, true));
  }

  lemma OrderedConnection(s: State, c: Messages.Connection)
    requires Ordered(s) && !s.stopped
    ensures Ordered(OnConnection(s, c))
  {
    var peer, up := Messages.Upper(c.peer), c.connected && c.status == 0;
    TrackingConnection(s, c);
    FifoConnectionMode(s, c, 0.0, true);
    CallbackShape(s, peer, up);
    if peer in s.addresses {
      if up {
        LawfulUp(s.log, peer);
      } else {
        NeutralKeeps(s.log, Callback(peer, false));
      }
    }
  }

  lemma OrderedNotified(s: State, n: Messages.Notification, uhidOk: bool)
    requires Ordered(s) && !s.stopped
    ensures Ordered(OnNotified(s, n, uhidOk))
  {
    TrackingNotified(s, n, uhidOk);
    FifoNotified(s, n, uhidOk);
    NotifiedShape(s, n, uhidOk);
    var t := OnNotified(s, n, uhidOk);
    if t.log != s.log {
      NeutralKeeps(s.log, Last(t.log));
    }
  }

  lemma OrderedSetUp(s: State)
    requires Ordered(s) && !s.stopped
    ensures Ordered(OnSetUp(s))
  {
    TrackingSetUp(s);
    FifoQueueAll(s, Batch(PeerText(s)));
    if s.connected && !s.notificationSetup && s.queue == [] {
      var batch := Batch(s.address.value);
      BatchRegistrations(s.address.value);
      assert [] + batch == batch;
      QueueAllState(s, batch);
      QueueAllLawful(s.log, batch);
      QueueAllRegistrations(s.log, batch);
      QueueAllKeeps(s.log, batch);
    }
  }

  lemma OrderedWriteMode(s: State, now: real, ok: bool)
    requires Ordered(s) && !s.stopped
    ensures Ordered(OnWriteMode(s, now, ok))
  {
    TrackingWriteMode(s, now, ok);
    FifoConnectionMode(s, Messages.Connection(0, 0, true, ""), now, ok);
    if s.connected && s.notificationSetup && s.queue == [] && !s.modeSet {
      var e := ModeWrite(s.clientId, PeerText(s), now);
      assert SentCommands(s.log) + s.queue == SentCommands(s.log);
      Snoc(s.log, e);
      LawfulWhole(s.log);
      LawfulSnoc(s.log, e);
    }
  }

  lemma OrderedRetry(s: State, now: real)
    requires Ordered(s) && !s.stopped
    ensures Ordered(OnRetry(s, now))
  {
    TrackingRetry(s, now);
    FifoRetry(s, now);
    if s.addresses != [] && !s.connected {
      var peer := Advance(s).address.value;
      NeutralKeeps(s.log, Retried(peer, now));
      QueueKeeps(s.log + [Retried(peer, now)], ClientConnect(peer));
    }
  }

  lemma OrderedSend(s: State, now: real, sendOk: bool)
    requires Ordered(s) && !s.stopped
    ensures Ordered(OnSend(s, now, sendOk))
  {
    TrackingSend(s, now, sendOk);
    FifoSend(s, now, sendOk);
    if s.queue != [] {
      var e := Sent(s.queue[0], now);
      Snoc(s.log, e);
      LawfulWhole(s.log);
      SentStaysPrefix(SentCommands(s.log), s.queue);
      LawfulSnoc(s.log, e);
    }
  }

  lemma SentStaysPrefix(sent: seq<Command>, queue: seq<Command>)
    requires queue != []
    ensures sent + [queue[0]] <= sent + queue
  {
  }

  lemma OrderedStep(s: State, a: Action)
    requires Ordered(s)
    ensures Ordered(Act(s, a))
  {
    if !s.stopped {
      match a
      case Found(device) => OrderedFound(s, device);
      case Registered(r, publishOk, clock) => OrderedRegistered(s, r, publishOk, clock);
      case Connection(c) => OrderedConnection(s, c);
      case Notified(n, uhidOk) => OrderedNotified(s, n, uhidOk);
      case SetUp => OrderedSetUp(s);
      case WriteMode(now, ok) => OrderedWriteMode(s, now, ok);
      case Retry(now) => OrderedRetry(s, now);
      case Send(now, sendOk) => OrderedSend(s, now, sendOk);
      case Poll(_) =>
    }
  }

  lemma LawfulFirst(c: Command)
    requires !c.RegisterNotification?
    ensures Lawful([Queued(c)]) && Registrations([Queued(c)]) == [] && ModeWrites([Queued(c)]) == 0
  {
    assert Lawful([]) by {
      assert LawAt([]);
    }
    QueueKeeps([], c);
    assert [] + [Queued(c)] == [Queued(c)];
  }

  lemma {:induction false} OrderedReached(argument: Option<string>, direct: bool, actions: seq<Action>)
    ensures Ordered(Perform(Initial(argument, direct), actions))
  {
    var init := Initial(argument, direct);
    FirstLog(argument, direct);
    TrackingReached(argument, direct, []);
    FifoInitial(argument, direct);
    LawfulFirst(init.queue[0]);
    forall s, a | Ordered(s)
      ensures Ordered(Act(s, a))
    {
      OrderedStep(s, a);
    }
    InvariantRun(Ordered, init, actions);
  }

  // ----- What a lawful log says about its events -----

  lemma {:induction false} CommandsConcat(a: Log, b: Log)
    ensures QueuedCommands(a + b) == QueuedCommands(a) + QueuedCommands(b)
    ensures SentCommands(a + b) == SentCommands(a) + SentCommands(b)
    decreases |b|
  {
    if b == [] {
      assert a + b == a;
    } else {
      CommandsConcat(a, Front(b));
      assert Front(a + b) == a + Front(b) && Last(a + b) == Last(b);
      if Last(b).Queued? {
        Seqs.Assoc(QueuedCommands(a), QueuedCommands(Front(b)), [Last(b).command]);
      } else if Last(b).Sent? {
        Seqs.Assoc(SentCommands(a), SentCommands(Front(b)), [Last(b).command]);
      }
    }
  }

  /** Position c holds the latest successful callback before the end of the log. */
  predicate IsLastUp(log: Log, c: nat, peer: string) {
    && c < |log| && log[c] == Callback(peer, true)
    && forall j | c < j < |log| :: !(log[j].Callback? && log[j].up)
  }

  lemma {:induction false} LastUpExists(log: Log, peer: string) returns (c: nat)
    requires LastPeer(log) == Some(peer)
    ensures IsLastUp(log, c, peer)
  {
    if Last(log).Callback? && Last(log).up {
      c := |log| - 1;
    } else {
      c := LastUpExists(Front(log), peer);
      forall j | c < j < |log|
        ensures !(log[j].Callback? && log[j].up)
      {
        if j < |log| - 1 {
          assert Front(log)[j] == log[j];
        }
      }
    }
  }

  /** Since the latest successful callback, every registration was queued, and no mode write happened if none counts. */
  lemma {:induction false} SinceLastUp(log: Log, c: nat, peer: string)
    requires IsLastUp(log, c, peer)
    ensures forall r | r in Registrations(log) :: r in QueuedCommands(log[c + 1..])
    ensures ModeWrites(log) == 0 ==> forall j | c < j < |log| :: !log[j].ModeWrite?
  {
    if c == |log| - 1 {
      assert Registrations(log) == [];
    } else {
      var front := Front(log);
      assert IsLastUp(front, c, peer) by {
        assert forall j | c <= j < |front| :: front[j] == log[j];
      }
      SinceLastUp(front, c, peer);
      var since := log[c + 1..];
      assert Front(since) == front[c + 1..] && Last(since) == Last(log);
      assert forall j | c < j < |front| :: front[j] == log[j];
    }
  }

  lemma {:induction false} CommandsAreEvents(log: Log, c: Command)
    ensures c in QueuedCommands(log) ==> exists i | 0 <= i < |log| :: log[i] == Queued(c)
    ensures c in SentCommands(log) ==> exists i | 0 <= i < |log| :: log[i].Sent? && log[i].command == c
  {
    if log == [] {
    } else {
      CommandsAreEvents(Front(log), c);
      assert forall i | 0 <= i < |log| - 1 :: Front(log)[i] == log[i];
      if c in QueuedCommands(log) && c !in QueuedCommands(Front(log)) {
        assert log[|log| - 1] == Queued(c);
      }
      if c in SentCommands(log) && c !in SentCommands(Front(log)) {
        assert log[|log| - 1].Sent? && log[|log| - 1].command == c;
      }
    }
  }

  /** What was queued after a moment when no more had been sent than queued has been sent after it too. */
  lemma SentSince(before: Log, since: Log)
    requires SentCommands(before) <= QueuedCommands(before)
    requires QueuedCommands(before + since) == SentCommands(before + since)
    ensures forall r | r in QueuedCommands(since) :: r in SentCommands(since)
  {
    CommandsConcat(before, since);
    var q, s := QueuedCommands(before), SentCommands(before);
    assert q == s + q[|s|..];
    Seqs.Assoc(s, q[|s|..], QueuedCommands(since));
    Seqs.SplitConcat(s, SentCommands(since));
    Seqs.SplitConcat(s, q[|s|..] + QueuedCommands(since));
    assert SentCommands(since) == q[|s|..] + QueuedCommands(since);
  }

  /** Between positions c and i the command was queued, and then sent. */
  predicate QueuedThenSent(log: Log, c: nat, i: nat, command: Command)
    requires c < i <= |log|
  {
    exists j, k | c < j < k < i :: log[j] == Queued(command) && log[k].Sent? && log[k].command == command
  }

  lemma {:induction false} FirstQueued(log: Log, command: Command)
    requires log != [] && log[0] == Queued(command)
    ensures command in QueuedCommands(log)
  {
    if |log| == 1 {
    } else {
      FirstQueued(Front(log), command);
    }
  }

  /** If all that was queued has been sent, the command queued first since then was sent behind it. */
  lemma SentAfterFirst(before: Log, since: Log, command: Command) returns (m: nat)
    requires SentCommands(before) <= QueuedCommands(before)
    requires QueuedCommands(before + since) == SentCommands(before + since)
    requires since != [] && since[0] == Queued(command)
    ensures 0 < m < |since| && since[m].Sent? && since[m].command == command
  {
    SentSince(before, since);
    FirstQueued(since, command);
    CommandsAreEvents(since, command);
    m :| 0 <= m < |since| && since[m].Sent? && since[m].command == command;
  }

  /** What was queued at position j of a lawful log that has sent everything was sent behind it. */
  lemma SentBehind(log: Log, j: nat, command: Command) returns (k: nat)
    requires Lawful(log) && QueuedCommands(log) == SentCommands(log)
    requires j < |log| && log[j] == Queued(command)
    ensures j < k < |log| && log[k].Sent? && log[k].command == command
  {
    var before, since := log[..j], log[j..];
    assert before + since == log;
    assert LawAt(before);
    var m := SentAfterFirst(before, since, command);
    k := j + m;
  }

  lemma {:induction false} ReadyMeans(log: Log, peer: string) returns (c: nat)
    requires Lawful(log) && Ready(log, peer)
    ensures IsLastUp(log, c, peer)
    ensures forall j | c < j < |log| :: !log[j].ModeWrite?
    ensures forall r | r in Batch(peer) :: QueuedThenSent(log, c, |log|, r)
  {
    c := LastUpExists(log, peer);
    SinceLastUp(log, c, peer);
    forall r | r in Batch(peer)
      ensures QueuedThenSent(log, c, |log|, r)
    {
      var since := log[c + 1..];
      CommandsAreEvents(since, r);
      var m :| 0 <= m < |since| && since[m] == Queued(r);
      assert log[c + 1 + m] == Queued(r);
      var k := SentBehind(log, c + 1 + m, r);
    }
  }

  lemma QueuedThenSentEarlier(log: Log, c: nat, i: nat, command: Command)
    requires c < i <= |log| && QueuedThenSent(log[..i], c, i, command)
    ensures QueuedThenSent(log, c, i, command)
  {
    var j, k :| c < j < k < i && log[..i][j] == Queued(command)
                && log[..i][k].Sent? && log[..i][k].command == command;
    assert log[j] == Queued(command) && log[k].Sent? && log[k].command == command;
  }

  /** What a mode write at position i has behind it: its peer's callback at c, and the batch since. */
  predicate WellTimed(log: Log, c: nat, i: nat)
    requires c < i < |log| && log[i].ModeWrite?
  {
    && log[c] == Callback(log[i].peer, true)
    && (forall j | c < j < i :: !(log[j].Callback? && log[j].up) && !log[j].ModeWrite?)
    && (forall r | r in Batch(log[i].peer) :: QueuedThenSent(log, c, i, r))
    && Registrations(log[..i]) == Batch(log[i].peer)
    && QueuedCommands(log[..i]) == SentCommands(log[..i])
  }

  lemma {:induction false} LawfulWrite(log: Log, i: nat) returns (c: nat)
    requires Lawful(log) && i < |log| && log[i].ModeWrite?
    ensures c < i && WellTimed(log, c, i)
  {
    var p := log[..i];
    assert log[..i + 1] == p + [log[i]];
    assert LawAt(log[..i + 1]);
    Snoc(p, log[i]);
    assert Lawful(p) by {
      assert forall n | 0 <= n <= |p| :: p[..n] == log[..n];
    }
    c := ReadyMeans(p, log[i].peer);
    forall r | r in Batch(log[i].peer)
      ensures QueuedThenSent(log, c, i, r)
    {
      QueuedThenSentEarlier(log, c, i, r);
    }
    assert forall j | c <= j < i :: p[j] == log[j];
  }

  /**
   On every run, an Input Mode write to a peer comes after that peer's successful
   callback, with no other successful callback and no other mode write in between.
   In between, the five registrations for that peer were queued, in order and no
   others; each was sent behind its queueing; and nothing whatever that was queued
   before the write is still unsent, commands of earlier connections included.
  */
  lemma {:induction false} ModeWriteOrdering(argument: Option<string>, direct: bool, actions: seq<Action>)
    ensures var log := Perform(Initial(argument, direct), actions).log;
            forall i: nat | i < |log| && log[i].ModeWrite? :: exists c: nat | c < i :: WellTimed(log, c, i)
  {
    var log := Perform(Initial(argument, direct), actions).log;
    OrderedReached(argument, direct, actions);
    forall i: nat | i < |log| && log[i].ModeWrite?
      ensures exists c: nat | c < i :: WellTimed(log, c, i)
    {
      var c := LawfulWrite(log, i);
    }
  }

  /**
   What the flags of a connected loop mean, on every run: the batch for the current
   address has been queued since the latest successful callback exactly when the loop
   says so, and the Input Mode has been written since then exactly once when it says
   so, and otherwise, unless an exception has stopped the loop, not at all.
  */
  lemma {:induction false} FlagsMean(argument: Option<string>, direct: bool, actions: seq<Action>)
    ensures var s := Perform(Initial(argument, direct), actions);
            s.connected ==>
              && s.address.Some?
              && Registrations(s.log) == (if s.notificationSetup then Batch(s.address.value) else [])
              && (s.modeSet || !s.stopped ==> ModeWrites(s.log) == if s.modeSet then 1 else 0)
  {
    OrderedReached(argument, direct, actions);
  }

  /**
   At every moment of every run: since the latest successful callback, no more than
   one batch of registrations, in order and for that peer, and one mode write.
  */
  lemma {:induction false} OneBatchPerCallback(argument: Option<string>, direct: bool, actions: seq<Action>, n: nat)
    requires n <= |Perform(Initial(argument, direct), actions).log|
    ensures var log := Perform(Initial(argument, direct), actions).log[..n];
            && Registrations(log) <= BatchOf(LastPeer(log))
            && ModeWrites(log) <= 1
  {
    OrderedReached(argument, direct, actions);
    assert LawAt(Perform(Initial(argument, direct), actions).log[..n]);
  }
}
