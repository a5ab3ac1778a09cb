/**
 The bridge publishes its client id before it asks for any connection: the fact
 about the loop that the watchdog and the GATT filter rely on. An Input Mode write
 names that id too, but only if there is one by then.
*/
module BridgePublication {
  import opened BridgeFrames
  import opened BridgeLoop
  import opened BridgeLog
  import opened Wrappers
  import Messages

  /** A connection is requested, or its request leaves the queue. */
  predicate IsConnect(e: Event) {
    (e.Queued? || e.Sent?) && e.command.ClientConnect?
  }

  function PublishedIds(log: Log): seq<int> {
    if log == [] then []
    else if Last(log).Published? then PublishedIds(Front(log)) + [Last(log).clientId]
    else PublishedIds(Front(log))
  }

  function FirstId(ids: seq<int>): Option<int> {
    if ids == [] then None else Some(ids[0])
  }

  /** After these events, a request needs an id published, and a mode write names the id that is. */
  predicate Fits(log: Log, e: Event) {
    && (IsConnect(e) ==> PublishedIds(log) != [])
    && (e.ModeWrite? ==> e.client == FirstId(PublishedIds(log)))
  }

  /** Every event so far fitted. */
  predicate Gated(log: Log) {
    log == [] || (Gated(Front(log)) && Fits(Front(log), Last(log)))
  }

  predicate Waiting(queue: seq<Command>) {
    exists c | c in queue :: c.ClientConnect?
  }

  /** The one id the log may hold, by how far the registration got; failing to publish stops the loop. */
  predicate IdsMatch(s: State) {
    && (s.direct || !s.registered ==> PublishedIds(s.log) == [])
    && (!s.registered ==> s.clientId.None?)
    && (!s.direct && s.registered ==>
          && s.clientId.Some?
          && (PublishedIds(s.log) == [s.clientId.value] || (s.stopped && PublishedIds(s.log) == [])))
  }

  predicate Safe(s: State) {
    && IdsMatch(s)
    && (!s.direct ==> Gated(s.log) && (Waiting(s.queue) ==> PublishedIds(s.log) != []))
  }

  /** Events that neither publish, nor request, nor write the mode. */
  predicate Plain(log: Log, more: Log) {
    log <= more
    && forall k | |log| <= k < |more| :: !more[k].Published? && !IsConnect(more[k]) && !more[k].ModeWrite?
  }

  lemma {:induction false} PlainKeeps(log: Log, more: Log)
    requires Plain(log, more)
    ensures PublishedIds(more) == PublishedIds(log) && (Gated(log) ==> Gated(more))
    decreases |more|
  {
    if |more| == |log| {
      assert more == log;
    } else {
      assert forall k | |log| <= k < |more| - 1 :: Front(more)[k] == more[k];
      PlainKeeps(log, Front(more));
    }
  }

  /** What an action that neither publishes nor requests may do. */
  predicate Harmless(s: State, t: State) {
    && Plain(s.log, t.log)
    && t.direct == s.direct && t.registered == s.registered && t.clientId == s.clientId
    && (s.stopped ==> t.stopped) && (Waiting(t.queue) ==> Waiting(s.queue))
  }

  lemma HarmlessSafe(s: State, t: State)
    requires Safe(s) && Harmless(s, t)
    ensures Safe(t) && t.direct == s.direct
  {
    PlainKeeps(s.log, t.log);
  }

  lemma HarmlessFound(s: State, device: string)
    ensures Harmless(s, OnFound(s, device))
  {
    CandidateShape(s, Messages.Upper(device));
  }

  lemma HarmlessSetUp(s: State)
    ensures Harmless(s, OnSetUp(s))
  {
    QueueAllState(s, Batch(PeerText(s)));
  }

  lemma HarmlessStep(s: State, a: Action)
    requires a.Found? || a.Connection? || a.Notified? || a.SetUp?
    ensures Harmless(s, Act(s, a))
  {
    match a
    case Found(device) => HarmlessFound(s, device);
    case SetUp => HarmlessSetUp(s);
    case _ => ActFrame(s, a);
  }

  lemma SafeWriteMode(s: State, now: real, ok: bool)
    requires Safe(s) && !s.stopped
    ensures Safe(OnWriteMode(s, now, ok)) && OnWriteMode(s, now, ok).direct == s.direct
  {
    Snoc(s.log, ModeWrite(s.clientId, PeerText(s), now));
  }

  lemma PublishSafe(s: State, clientId: int, publishOk: bool)
    requires Safe(s) && !s.stopped && !s.registered
    ensures Safe(Announce(s, clientId, publishOk))
  {
    Snoc(s.log, Published(clientId));
  }

  lemma QueueConnectSafe(s: State, peer: string)
    requires Safe(s) && s.registered && !s.stopped
    ensures Safe(Queue(s, ClientConnect(peer)))
  {
    Snoc(s.log, Queued(ClientConnect(peer)));
  }

  lemma ConfigurationSafe(s: State)
    requires Safe(s)
    ensures Safe(QueueAll(s, Configuration(s.direct)))
    ensures var t := QueueAll(s, Configuration(s.direct));
            t.registered == s.registered && t.stopped == s.stopped && t.direct == s.direct
  {
    QueueAllState(s, Configuration(s.direct));
    HarmlessSafe(s, QueueAll(s, Configuration(s.direct)));
  }

  lemma SafeRegistered(s: State, r: Messages.Registration, publishOk: bool, clock: real)
    requires Safe(s) && !s.stopped
    ensures Safe(OnRegistered(s, r, publishOk, clock)) && OnRegistered(s, r, publishOk, clock).direct == s.direct
  {
    if r.status == 0 && !s.registered {
      var t := Announce(s, r.clientId, publishOk);
      PublishSafe(s, r.clientId, publishOk);
      if !t.stopped {
        ConfigurationSafe(t);
        var u := QueueAll(t, Configuration(s.direct));
        if u.address.Some? {
          QueueConnectSafe(u, u.address.value);
        }
      }
    }
  }

  /** A retry, from the state in which the next address is current. */
  lemma SafeRetried(s: State, peer: string, now: real)
    requires Safe(s) && s.registered && !s.stopped
    ensures var t := Queue(Emit(s, Retried(peer, now)), ClientConnect(peer)); Safe(t) && t.direct == s.direct
  {
    HarmlessSafe(s, Emit(s, Retried(peer, now)));
    QueueConnectSafe(Emit(s, Retried(peer, now)), peer);
  }

  lemma HeadWaits(queue: seq<Command>)
    requires queue != []
    ensures Waiting(queue) <==> queue[0].ClientConnect? || Waiting(queue[1..])
  {
    assert queue[0] in queue;
    assert forall c | c in queue :: c == queue[0] || c in queue[1..];
  }

  /** One more event that fits and publishes nothing. */
  lemma GatedSnoc(log: Log, e: Event)
    requires Gated(log) && Fits(log, e) && !e.Published?
    ensures Gated(log + [e])
  {
    Snoc(log, e);
  }

  lemma IdsSnoc(log: Log, e: Event)
    requires !e.Published?
    ensures PublishedIds(log + [e]) == PublishedIds(log)
  {
    Snoc(log, e);
  }

  lemma SafeSend(s: State, now: real, sendOk: bool)
    requires Safe(s)
    ensures Safe(OnSend(s, now, sendOk)) && OnSend(s, now, sendOk).direct == s.direct
  {
    if s.queue != [] && now >= s.nextCommandAt {
      var t := s.(queue := s.queue[1..]);
      var e := Sent(s.queue[0], now);
      HeadWaits(s.queue);
      IdsSnoc(s.log, e);
      if !s.direct {
        GatedSnoc(s.log, e);
      }
      if sendOk {
        assert OnSend(s, now, sendOk) == Emit(t, e).(nextCommandAt := now + COMMAND_INTERVAL);
      } else {
        assert OnSend(s, now, sendOk) == Stop(t);
      }
    }
  }

  lemma SafeStep(s: State, a: Action)
    requires Safe(s)
    ensures Safe(Act(s, a)) && Act(s, a).direct == s.direct
  {
    if !s.stopped {
      match a
      case Registered(r, publishOk, clock) => SafeRegistered(s, r, publishOk, clock);
      case WriteMode(now, ok) => SafeWriteMode(s, now, ok);
      case Retry(now) =>
        if s.registered && s.addresses != [] {
          SafeRetried(Advance(s), Advance(s).address.value, now);
        }
      case Send(now, ok) => SafeSend(s, now, ok);
      case Poll(_) =>
      case _ =>
        HarmlessStep(s, a);
        HarmlessSafe(s, Act(s, a));
    }
  }

  lemma {:induction false} SafeInitial(argument: Option<string>, direct: bool)
    ensures Safe(Initial(argument, direct))
  {
    FirstLog(argument, direct);
    GatedFirst(Initial(argument, direct).queue[0]);
  }

  lemma {:induction false} SafeReached(argument: Option<string>, direct: bool, actions: seq<Action>)
    ensures var s := Perform(Initial(argument, direct), actions); Safe(s) && s.direct == direct
  {
    SafeInitial(argument, direct);
    var inv := (s: State) => Safe(s) && s.direct == direct;
    forall s, a | inv(s)
      ensures inv(Act(s, a))
    {
      SafeStep(s, a);
    }
    InvariantRun(inv, Initial(argument, direct), actions);
  }

  lemma GatedFirst(c: Command)
    requires !c.ClientConnect?
    ensures Gated([Queued(c)]) && PublishedIds([Queued(c)]) == []
  {
    assert Front([Queued(c)]) == [];
    assert Gated([]);
  }

  lemma {:induction false} IdsAreEvents(log: Log)
    ensures forall j | 0 <= j < |log| && log[j].Published? :: log[j].clientId in PublishedIds(log)
    ensures PublishedIds(log) != [] ==> exists j | 0 <= j < |log| :: log[j] == Published(PublishedIds(log)[0])
  {
    if log == [] {
    } else {
      IdsAreEvents(Front(log));
      assert forall j | 0 <= j < |log| - 1 :: log[j] == Front(log)[j];
      if PublishedIds(log) != [] && PublishedIds(Front(log)) == [] {
        assert log[|log| - 1] == Published(PublishedIds(log)[0]);
      }
    }
  }

  lemma {:induction false} GatedMeans(log: Log, i: nat)
    requires Gated(log) && i < |log|
    ensures Fits(log[..i], log[i])
  {
    if i == |log| - 1 {
      assert log[..i] == Front(log);
    } else {
      GatedMeans(Front(log), i);
      assert Front(log)[..i] == log[..i];
    }
  }

  /**
   On every run of the publishing variant: no connection is requested, and no request
   leaves the queue, before the id is published; no other id is ever published than
   the one the loop holds; and an Input Mode write names that id if and only if it
   was published before.
  */
  lemma {:induction false} PublishedBeforeConnect(argument: Option<string>, actions: seq<Action>)
    ensures var s := Perform(Initial(argument, false), actions);
            && (forall i | 0 <= i < |s.log| && IsConnect(s.log[i]) ::
                  exists j | 0 <= j < i :: s.log[j].Published?)
            && (forall j | 0 <= j < |s.log| && s.log[j].Published? :: s.clientId == Some(s.log[j].clientId))
            && (forall i | 0 <= i < |s.log| && s.log[i].ModeWrite? ::
                  s.log[i].client ==
                  if exists j | 0 <= j < i :: s.log[j].Published? then s.clientId else None)
  {
    var s := Perform(Initial(argument, false), actions);
    SafeReached(argument, false, actions);
    IdsAreEvents(s.log);
    forall i | 0 <= i < |s.log|
      ensures IsConnect(s.log[i]) ==> exists j | 0 <= j < i :: s.log[j].Published?
      ensures s.log[i].ModeWrite? ==>
                s.log[i].client == if exists j | 0 <= j < i :: s.log[j].Published? then s.clientId else None
    {
      GatedMeans(s.log, i);
      EarlierIds(s, i);
    }
  }

  /** Whether an id was published before an event, read off the ids up to there. */
  lemma EarlierIds(s: State, i: nat)
    requires !s.direct && IdsMatch(s) && i < |s.log|
    ensures FirstId(PublishedIds(s.log[..i])) ==
            if exists j | 0 <= j < i :: s.log[j].Published? then s.clientId else None
  {
    var log := s.log[..i];
    IdsAreEvents(log);
    IdsAreEvents(s.log);
    assert forall j | 0 <= j < i :: log[j] == s.log[j];
    if PublishedIds(log) != [] {
      var j :| 0 <= j < |log| && log[j] == Published(PublishedIds(log)[0]);
      assert s.log[j].Published? && s.log[j].clientId in PublishedIds(s.log);
    }
  }

  /** The direct variant publishes nothing, on any run. */
  lemma {:induction false} DirectPublishesNothing(argument: Option<string>, actions: seq<Action>)
    ensures forall e | e in Perform(Initial(argument, true), actions).log :: !e.Published?
  {
    SafeReached(argument, true, actions);
    IdsAreEvents(Perform(Initial(argument, true), actions).log);
  }

  // ----- A mode write without an id -----

  /** Sending until the queue is empty, each command as soon as the pacing allows. */
  function Drain(s: State): seq<Action>
    decreases |s.queue|
  {
    if s.queue == [] then []
    else
      var a := Send(s.nextCommandAt, true);
      [a] + Drain(OnSend(s, s.nextCommandAt, true))
  }

  lemma {:induction false} DrainEmpties(s: State)
    requires !s.stopped
    ensures var t := Perform(s, Drain(s));
            t == s.(queue := [], nextCommandAt := t.nextCommandAt, log := t.log)
    decreases |s.queue|
  {
    if s.queue == [] {
    } else {
      var t := OnSend(s, s.nextCommandAt, true);
      DrainEmpties(t);
      assert Drain(s)[1..] == Drain(t);
      assert Act(s, Drain(s)[0]) == t;
    }
  }

  /**
   The write without an id does happen: a peer that connects before the registration
   is answered is set up and written to as client None.
  */
  lemma {:induction false} ModeWriteWithoutId(peer: string)
    requires Messages.Upper(peer) == peer != ""
    ensures exists actions, at ::
              ModeWrite(None, peer, at) in Perform(Initial(Some(peer), false), actions).log
  {
    var s0 := Initial(Some(peer), false);
    var up := Connection(Messages.Connection(0, 0, true, peer));
    DrainEmpties(s0);
    var s1 := Perform(s0, Drain(s0));
    var s2 := Act(s1, up);
    assert s2.connected && s2.address == Some(peer) && s2.clientId.None? && s2.queue == [];
    var s3 := Act(s2, SetUp);
    QueueAllState(s2, Batch(peer));
    assert s3.connected && s3.notificationSetup && !s3.modeSet && s3.clientId.None? && !s3.stopped;
    DrainEmpties(s3);
    var s4 := Perform(s3, Drain(s3));
    var actions := Drain(s0) + ([up, SetUp] + (Drain(s3) + [WriteMode(0.0, true)]));
    PerformConcat(s0, Drain(s0), [up, SetUp] + (Drain(s3) + [WriteMode(0.0, true)]));
    PerformTwo(s1, up, SetUp);
    PerformConcat(s1, [up, SetUp], Drain(s3) + [WriteMode(0.0, true)]);
    PerformConcat(s3, Drain(s3), [WriteMode(0.0, true)]);
    var s5 := Act(s4, WriteMode(0.0, true));
    assert Perform(s4, [WriteMode(0.0, true)]) == s5;
    assert s5.log == s4.log + [ModeWrite(None, peer, 0.0)];
    assert ModeWrite(None, peer, 0.0) in Perform(s0, actions).log;
  }

  lemma PerformTwo(s: State, a: Action, b: Action)
    ensures Perform(s, [a, b]) == Act(Act(s, a), b)
  {
    assert [a, b][1..] == [b] && [b][1..] == [];
    assert Perform(s, [a, b]) == Perform(Act(s, a), [b]);
  }
}
