/**
 Time in the bridge's loop: how far apart commands and retries are, and how soon
 a connected peer gets its Input Mode write. Times are the loop's own readings of
 the monotonic clock, as reals.
*/
module BridgeTiming {
  import opened BridgeFrames
  import opened BridgeLoop
  import opened BridgeLog
  import opened BridgeModes
  import opened BridgeSafety
  import opened Wrappers
  import Messages
  import Seqs

  // ----- What concerns time -----

  /** Events of other kinds leave the send times, the retry times and the reports as they were. */
  lemma {:induction false} OthersKeep(log: Log, more: Log)
    requires log <= more
    ensures (forall k | |log| <= k < |more| :: !more[k].Sent?) ==> SentTimes(more) == SentTimes(log)
    ensures (forall k | |log| <= k < |more| :: !more[k].Retried?) ==> RetryTimes(more) == RetryTimes(log)
    ensures (forall k | |log| <= k < |more| :: !more[k].Report?) ==> Reports(more) == Reports(log)
    decreases |more|
  {
    if |more| == |log| {
      assert more == log;
    } else {
      OthersKeep(log, Front(more));
      assert forall k | |log| <= k < |more| - 1 :: Front(more)[k] == more[k];
    }
  }

  // ----- Pacing -----

  /** Neighbouring times are at least, or more than, d apart. */
  predicate Spaced(times: seq<real>, d: real) {
    forall k | 0 <= k < |times| - 1 :: times[k + 1] - times[k] >= d
  }

  predicate StrictlySpaced(times: seq<real>, d: real) {
    forall k | 0 <= k < |times| - 1 :: times[k + 1] - times[k] > d
  }

  /** Sends so far, and when the next one may come. */
  predicate SendsPaced(times: seq<real>, next: real) {
    && Spaced(times, COMMAND_INTERVAL)
    && (times != [] ==> next == times[|times| - 1] + COMMAND_INTERVAL)
  }

  /** Retries so far, and the latest attempt to connect. */
  predicate RetriesPaced(times: seq<real>, registered: bool, last: real) {
    && StrictlySpaced(times, RETRY_INTERVAL)
    && (times != [] ==> registered && last == times[|times| - 1])
  }

  predicate Paced(s: State) {
    && SendsPaced(SentTimes(s.log), s.nextCommandAt)
    && RetriesPaced(RetryTimes(s.log), s.registered, s.lastConnectTry)
  }

  /** The clocks and the registration move only where they should. */
  predicate ClocksKept(s: State, t: State) {
    && t.nextCommandAt == s.nextCommandAt
    && (s.registered ==> t.registered && t.lastConnectTry == s.lastConnectTry)
  }

  lemma ClocksStep(s: State, a: Action)
    requires !a.Send? && !a.Retry?
    ensures ClocksKept(s, Act(s, a))
  {
    ActFrame(s, a);
  }

  lemma SendsPacedSnoc(times: seq<real>, next: real, now: real)
    requires SendsPaced(times, next) && now >= next
    ensures SendsPaced(times + [now], now + COMMAND_INTERVAL)
  {
  }

  lemma RetriesPacedSnoc(times: seq<real>, last: real, now: real)
    requires RetriesPaced(times, true, last) && now - last > RETRY_INTERVAL
    ensures RetriesPaced(times + [now], true, now)
  {
  }

  lemma SendTimes(log: Log, c: Command, at: real)
    ensures SentTimes(log + [Sent(c, at)]) == SentTimes(log) + [at]
    ensures RetryTimes(log + [Sent(c, at)]) == RetryTimes(log)
  {
    Snoc(log, Sent(c, at));
  }

  lemma RetryTimesOf(log: Log, peer: string, at: real)
    ensures var more := log + [Retried(peer, at)] + [Queued(ClientConnect(peer))];
            SentTimes(more) == SentTimes(log) && RetryTimes(more) == RetryTimes(log) + [at]
  {
    Snoc(log, Retried(peer, at));
    Snoc(log + [Retried(peer, at)], Queued(ClientConnect(peer)));
  }

  lemma PacedSend(s: State, now: real, sendOk: bool)
    requires Paced(s)
    ensures Paced(OnSend(s, now, sendOk))
  {
    if s.queue != [] && now >= s.nextCommandAt {
      var t := s.(queue := s.queue[1..]);
      if sendOk {
        SendTimes(s.log, s.queue[0], now);
        SendsPacedSnoc(SentTimes(s.log), s.nextCommandAt, now);
        assert OnSend(s, now, sendOk) == Emit(t, Sent(s.queue[0], now)).(nextCommandAt := now + COMMAND_INTERVAL);
      } else {
        assert OnSend(s, now, sendOk) == Stop(t);
      }
    } else {
      assert OnSend(s, now, sendOk) == s;
    }
  }

  lemma PacedRetry(s: State, now: real)
    requires Paced(s)
    ensures Paced(OnRetry(s, now))
  {
    if s.registered && s.addresses != [] && now - s.lastConnectTry > RETRY_INTERVAL {
      RetryTimesOf(s.log, Advance(s).address.value, now);
      RetriesPacedSnoc(RetryTimes(s.log), s.lastConnectTry, now);
    }
  }

  lemma PacedOther(s: State, a: Action)
    requires Paced(s) && !a.Send? && !a.Retry?
    ensures Paced(Act(s, a))
  {
    ActFrame(s, a);
    OthersKeep(s.log, Act(s, a).log);
    ClocksStep(s, a);
  }

  lemma PacedStep(s: State, a: Action)
    requires Paced(s)
    ensures Paced(Act(s, a))
  {
    match a
    case Send(now, ok) => PacedSend(s, now, ok);
    case Retry(now) => PacedRetry(s, now);
    case _ => PacedOther(s, a);
  }

  lemma {:induction false} PacedReached(argument: Option<string>, direct: bool, actions: seq<Action>)
    ensures Paced(Perform(Initial(argument, direct), actions))
  {
    FirstLog(argument, direct);
    FirstEvent(Initial(argument, direct).queue[0]);
    forall s, a | Paced(s)
      ensures Paced(Act(s, a))
    {
      PacedStep(s, a);
    }
    InvariantRun(Paced, Initial(argument, direct), actions);
  }

  lemma {:induction false} SpacedSpan(times: seq<real>, i: nat, j: nat)
    requires Spaced(times, COMMAND_INTERVAL) && i <= j < |times|
    ensures times[j] - times[i] >= (j - i) as real * 0.8
  {
    if i >= j {
    } else {
      SpacedSpan(times, i, j - 1);
    }
  }

  /**
   On every run, m + 1 successive sends take at least 0.8 m seconds, so no window of
   w seconds holds more than w / 0.8 + 1 of them; successive retries are more than
   six seconds apart. No assumption is made about the clock.
  */
  lemma {:induction false} Pacing(argument: Option<string>, direct: bool, actions: seq<Action>)
    ensures var log := Perform(Initial(argument, direct), actions).log;
            && (forall i, j | 0 <= i <= j < |SentTimes(log)| ::
                  SentTimes(log)[j] - SentTimes(log)[i] >= (j - i) as real * 0.8)
            && (forall k | 0 <= k < |RetryTimes(log)| - 1 ::
                  RetryTimes(log)[k + 1] - RetryTimes(log)[k] > 6.0)
  {
    PacedReached(argument, direct, actions);
    var times := SentTimes(Perform(Initial(argument, direct), actions).log);
    forall i, j | 0 <= i <= j < |times|
      ensures times[j] - times[i] >= (j - i) as real * 0.8
    {
      SpacedSpan(times, i, j);
    }
  }

  /** The window form: sends i to j within w seconds number at most floor(w / 0.8) + 1. */
  lemma {:induction false} WindowBound(
    argument: Option<string>, direct: bool, actions: seq<Action>, i: nat, j: nat, w: real)
    requires var times := SentTimes(Perform(Initial(argument, direct), actions).log);
             i <= j < |times| && times[j] - times[i] <= w
    ensures j - i + 1 <= (w / 0.8).Floor + 1
  {
    Pacing(argument, direct, actions);
  }

  // ----- Bounded liveness -----

  /** n * x, by repeated addition. */
  function Times(n: nat, x: real): real {
    if n == 0 then 0.0 else Times(n - 1, x) + x
  }

  lemma {:induction false} TimesIsProduct(n: nat, x: real)
    ensures Times(n, x) == n as real * x
  {
    if n == 0 {
    } else {
      TimesIsProduct(n - 1, x);
    }
  }

  lemma {:induction false} TimesMonotone(m: nat, n: nat, x: real)
    requires m <= n && x >= 0.0
    ensures Times(m, x) <= Times(n, x)
  {
    if m >= n {
    } else {
      TimesMonotone(m, n - 1, x);
    }
  }

  /** The commands still to be sent before the mode write, if nothing but registration adds any. */
  function Backlog(s: State): nat {
    |s.queue| + (if s.registered then 0 else 4) + (if s.notificationSetup then 0 else 5)
  }

  predicate Quiet(a: Action) {
    a.Found? || a.Registered? || a.Notified?
  }

  /** Lines other than connection callbacks leave the backlog and the set-up flags alone. */
  predicate SameDuty(s: State, t: State) {
    && t.connected == s.connected && t.address == s.address && t.notificationSetup == s.notificationSetup
    && t.modeSet == s.modeSet && t.nextCommandAt == s.nextCommandAt && Backlog(t) == Backlog(s)
  }

  lemma QuietRegistered(s: State, r: Messages.Registration, publishOk: bool, clock: real)
    requires s.address.Some? && !OnRegistered(s, r, publishOk, clock).stopped
    ensures SameDuty(s, OnRegistered(s, r, publishOk, clock))
  {
    QueueAllState(Announce(s, r.clientId, publishOk), Configuration(s.direct));
  }

  lemma QuietStep(s: State, a: Action)
    requires s.address.Some? && Quiet(a) && !Act(s, a).stopped
    ensures SameDuty(s, Act(s, a))
  {
    match a
    case Registered(r, publishOk, clock) => QuietRegistered(s, r, publishOk, clock);
    case _ => ActFrame(s, a);
  }

  lemma {:induction false} QuietRun(s: State, actions: seq<Action>)
    requires s.address.Some? && (forall a | a in actions :: Quiet(a)) && !Perform(s, actions).stopped
    ensures SameDuty(s, Perform(s, actions)) && s.log <= Perform(s, actions).log
    decreases |actions|
  {
    if actions == [] {
    } else {
      var t := Act(s, actions[0]);
      if t.stopped {
        StoppedStays(t, actions[1..]);
      }
      QuietStep(s, actions[0]);
      ActFrame(s, actions[0]);
      QuietRun(t, actions[1..]);
    }
  }

  predicate NoCallbacks(lines: seq<LineInput>) {
    forall l | l in lines :: l.line.connection.None?
  }

  lemma {:induction false} NoCallbacksQuiet(lines: seq<LineInput>)
    requires NoCallbacks(lines)
    ensures forall a | a in LinesActions(lines) :: Quiet(a)
  {
    if lines == [] {
    } else {
      NoCallbacksQuiet(lines[1..]);
    }
  }

  function LoopStep(s: State, t: Tick): State {
    Act(Act(Act(Act(Act(s, SetUp), WriteMode(t.now, t.modeOk)), Retry(t.now)), Send(t.now, t.sendOk)), Poll(t.exited))
  }

  lemma LoopActionsStep(s: State, t: Tick)
    ensures Perform(s, LoopActions(t)) == LoopStep(s, t)
  {
    var a := LoopActions(t);
    var s1 := Act(s, a[0]);
    var s2 := Act(s1, a[1]);
    var s3 := Act(s2, a[2]);
    var s4 := Act(s3, a[3]);
    var s5 := Act(s4, a[4]);
    assert a[1..][1..] == a[2..] && a[2..][1..] == a[3..] && a[3..][1..] == a[4..] && a[4..][1..] == [];
    assert Perform(s4, a[4..]) == Perform(s5, []);
    assert Perform(s3, a[3..]) == Perform(s4, a[4..]);
    assert Perform(s2, a[2..]) == Perform(s3, a[3..]);
    assert Perform(s1, a[1..]) == Perform(s2, a[2..]);
  }

  /** The five closing actions of one iteration, for a connected loop that is not stopped by them. */
  lemma LoopEffect(s: State, t: Tick)
    requires s.connected && s.address.Some? && !LoopStep(s, t).stopped
    ensures var e := LoopStep(s, t);
            var wrote := (s.queue == [] && s.notificationSetup && !s.modeSet);
            && e.connected && e.address == s.address && e.modeSet == (s.modeSet || wrote)
            && (wrote ==> s.log + [ModeWrite(s.clientId, s.address.value, t.now)] <= e.log)
            && s.log <= e.log
            && (!wrote && !s.modeSet ==>
                  if t.now >= s.nextCommandAt
                  then Backlog(e) == Backlog(s) - 1 && e.nextCommandAt == t.now + COMMAND_INTERVAL
                  else Backlog(e) == Backlog(s) && e.nextCommandAt == s.nextCommandAt && e.queue != [])
  {
    PrepareEffect(s, t);
    SendEffect(Act(Act(s, SetUp), WriteMode(t.now, t.modeOk)), t);
  }

  /** The first two of them: the batch is queued, or the mode written, or neither. */
  lemma PrepareEffect(s: State, t: Tick)
    requires s.connected && s.address.Some?
    ensures var e := Act(Act(s, SetUp), WriteMode(t.now, t.modeOk));
            var wrote := (s.queue == [] && s.notificationSetup && !s.modeSet);
            !e.stopped ==>
              && e.connected && e.address == s.address && e.modeSet == (s.modeSet || wrote)
              && e.nextCommandAt == s.nextCommandAt && Backlog(e) == Backlog(s) && s.log <= e.log
              && (wrote ==> e.log == s.log + [ModeWrite(s.clientId, s.address.value, t.now)])
              && (!wrote && !s.modeSet ==> e.queue != [])
  {
    QueueAllState(s, Batch(PeerText(s)));
  }

  /** The other three: at most a send. */
  lemma SendEffect(s: State, t: Tick)
    requires s.connected
    ensures var e := Act(Act(Act(s, Retry(t.now)), Send(t.now, t.sendOk)), Poll(t.exited));
            && (s.stopped ==> e == s)
            && (!e.stopped ==>
                  && e.connected && e.address == s.address && e.modeSet == s.modeSet && s.log <= e.log
                  && (s.queue != [] ==>
                        if t.now >= s.nextCommandAt
                        then Backlog(e) == Backlog(s) - 1 && e.nextCommandAt == t.now + COMMAND_INTERVAL
                        else Backlog(e) == Backlog(s) && e.nextCommandAt == s.nextCommandAt && e.queue != []))
  {
    assert Act(s, Retry(t.now)) == s;
  }

  /** When the commands before the backlog have had their turn, at one per interval and each up to a gap late. */
  function Turn(s: State, start: real, total: nat, gap: real): real
    requires Backlog(s) <= total
  {
    start + Times(total - Backlog(s), COMMAND_INTERVAL + gap)
  }

  /** Unless the mode is written: the next send is no later than its turn, and neither is the latest reading. */
  predicate InTurn(s: State, start: real, total: nat, gap: real, prev: real) {
    !s.modeSet ==>
      && Backlog(s) <= total
      && s.nextCommandAt <= Turn(s, start, total, gap) + COMMAND_INTERVAL
      && (prev <= Turn(s, start, total, gap) || prev < s.nextCommandAt)
      && prev <= start + Times(total, COMMAND_INTERVAL + gap)
  }

  /** The same of a state between two iterations, where a reading after the turn leaves a command waiting. */
  predicate OnTime(s: State, start: real, total: nat, gap: real, prev: real) {
    !s.modeSet ==>
      && Backlog(s) <= total
      && s.nextCommandAt <= Turn(s, start, total, gap) + COMMAND_INTERVAL
      && (prev <= Turn(s, start, total, gap) || (prev < s.nextCommandAt && s.queue != []))
  }

  predicate Written(log: Log, from: nat, limit: real) {
    exists k | from <= k < |log| :: log[k].ModeWrite? && log[k].at <= limit
  }

  lemma OnTimePrevious(s: State, start: real, total: nat, gap: real, prev: real)
    requires OnTime(s, start, total, gap, prev) && !s.modeSet && gap >= 0.0
    ensures prev <= start + Times(total, COMMAND_INTERVAL + gap)
  {
    var k := Backlog(s);
    TimesMonotone(total - k, total, COMMAND_INTERVAL + gap);
    if k > 0 {
      TimesMonotone(total - k + 1, total, COMMAND_INTERVAL + gap);
    }
  }

  lemma WrittenLater(log: Log, more: Log, start: nat, later: nat, limit: real)
    requires log <= more && start <= later
    ensures Written(log, start, limit) ==> Written(more, start, limit)
    ensures Written(more, later, limit) ==> Written(more, start, limit)
  {
    if Written(log, start, limit) {
      var k :| start <= k < |log| && log[k].ModeWrite? && log[k].at <= limit;
      assert more[k] == log[k];
    }
  }

  lemma LoopOnTime(s: State, t: Tick, start: real, total: nat, gap: real, prev: real)
    requires s.connected && s.address.Some? && gap >= 0.0 && !LoopStep(s, t).stopped
    requires InTurn(s, start, total, gap, prev) && prev <= t.now <= prev + gap
    ensures var e := LoopStep(s, t);
            && e.connected && e.address == s.address && s.log <= e.log
            && OnTime(e, start, total, gap, t.now)
            && (s.modeSet ==> e.modeSet)
            && (e.modeSet && !s.modeSet ==>
                  Written(e.log, |s.log|, start + Times(total, COMMAND_INTERVAL + gap) + gap))
  {
    var e := LoopStep(s, t);
    LoopEffect(s, t);
    if !s.modeSet && e.modeSet {
      assert e.log[|s.log|] == ModeWrite(s.clientId, s.address.value, t.now);
    }
  }

  lemma TickOnTime(s: State, t: Tick, start: real, total: nat, gap: real, prev: real)
    requires s.connected && s.address.Some? && NoCallbacks(t.lines) && gap >= 0.0
    requires !Perform(s, TickActions(t)).stopped
    requires OnTime(s, start, total, gap, prev) && prev <= t.now <= prev + gap
    ensures var e := Perform(s, TickActions(t));
            && e.connected && e.address == s.address && s.log <= e.log
            && OnTime(e, start, total, gap, t.now)
            && (s.modeSet ==> e.modeSet)
            && (e.modeSet && !s.modeSet ==>
                  Written(e.log, |s.log|, start + Times(total, COMMAND_INTERVAL + gap) + gap))
  {
    var read := Perform(s, LinesActions(t.lines));
    PerformConcat(s, LinesActions(t.lines), LoopActions(t));
    LoopActionsStep(read, t);
    if read.stopped {
      StoppedStays(read, LoopActions(t));
    }
    NoCallbacksQuiet(t.lines);
    QuietRun(s, LinesActions(t.lines));
    ReadInTurn(s, read, start, total, gap, prev);
    LoopOnTime(read, t, start, total, gap, prev);
    var limit := start + Times(total, COMMAND_INTERVAL + gap) + gap;
    WrittenLater(LoopStep(read, t).log, LoopStep(read, t).log, |s.log|, |read.log|, limit);
  }

  lemma ReadInTurn(s: State, read: State, start: real, total: nat, gap: real, prev: real)
    requires OnTime(s, start, total, gap, prev) && SameDuty(s, read) && gap >= 0.0
    ensures InTurn(read, start, total, gap, prev)
  {
    if !s.modeSet {
      OnTimePrevious(s, start, total, gap, prev);
    }
  }

  predicate Steady(ticks: seq<Tick>, gap: real) {
    && (forall t | t in ticks :: NoCallbacks(t.lines))
    && (forall i | 0 <= i < |ticks| - 1 :: ticks[i].now <= ticks[i + 1].now <= ticks[i].now + gap)
  }

  lemma SteadyTail(ticks: seq<Tick>, gap: real)
    requires Steady(ticks, gap) && ticks != []
    ensures NoCallbacks(ticks[0].lines) && Steady(ticks[1..], gap)
    ensures |ticks| > 1 ==> ticks[0].now <= ticks[1].now <= ticks[0].now + gap
  {
    assert ticks[0] in ticks;
    forall i | 0 <= i < |ticks[1..]| - 1
      ensures ticks[1..][i].now <= ticks[1..][i + 1].now <= ticks[1..][i].now + gap
    {
      assert ticks[1..][i] == ticks[i + 1] && ticks[1..][i + 1] == ticks[i + 2];
    }
  }

  lemma {:induction false} RunOnTime(
    s: State, ticks: seq<Tick>, start: real, total: nat, gap: real, prev: real, limit: real)
    requires s.connected && s.address.Some? && gap >= 0.0 && Steady(ticks, gap)
    requires ticks != [] ==> prev <= ticks[0].now <= prev + gap
    requires !RunTicks(s, ticks).stopped && OnTime(s, start, total, gap, prev)
    requires limit == start + Times(total, COMMAND_INTERVAL + gap) + gap
    ensures var e := RunTicks(s, ticks);
            && e.connected && s.log <= e.log
            && OnTime(e, start, total, gap, if ticks == [] then prev else ticks[|ticks| - 1].now)
            && (e.modeSet && !s.modeSet ==> Written(e.log, |s.log|, limit))
    decreases |ticks|
  {
    if ticks == [] {
    } else {
      var t := Perform(s, TickActions(ticks[0]));
      var e := RunTicks(t, ticks[1..]);
      RunStopped(t, ticks[1..]);
      SteadyTail(ticks, gap);
      TickOnTime(s, ticks[0], start, total, gap, prev);
      RunOnTime(t, ticks[1..], start, total, gap, ticks[0].now, limit);
      WrittenLater(t.log, e.log, |s.log|, |t.log|, limit);
    }
  }

  lemma {:induction false} RunStopped(s: State, ticks: seq<Tick>)
    ensures s.stopped ==> RunTicks(s, ticks).stopped
    decreases |ticks|
  {
    if ticks == [] {
    } else if s.stopped {
      StoppedStays(s, TickActions(ticks[0]));
      RunStopped(s, ticks[1..]);
    }
  }

  /** The clock starts at or above zero and never runs backwards. */
  predicate Monotone(ticks: seq<Tick>) {
    && (ticks != [] ==> ticks[0].now >= 0.0)
    && forall i | 0 <= i < |ticks| - 1 :: ticks[i].now <= ticks[i + 1].now
  }

  lemma {:induction false} NextCommandNear(s: State, actions: seq<Action>, now: real)
    requires s.nextCommandAt <= now + COMMAND_INTERVAL
    requires forall a | a in actions && a.Send? :: a.now <= now
    ensures Perform(s, actions).nextCommandAt <= now + COMMAND_INTERVAL
    decreases |actions|
  {
    if actions == [] {
    } else {
      if !actions[0].Send? && !actions[0].Retry? {
        ClocksStep(s, actions[0]);
      }
      NextCommandNear(Act(s, actions[0]), actions[1..], now);
    }
  }

  lemma {:induction false} NoSendsInLines(lines: seq<LineInput>)
    ensures forall a | a in LinesActions(lines) :: !a.Send?
  {
    if lines == [] {
    } else {
      NoSendsInLines(lines[1..]);
    }
  }

  lemma {:induction false} NextCommandRun(s: State, ticks: seq<Tick>, later: real)
    requires s.nextCommandAt <= later + COMMAND_INTERVAL && forall t | t in ticks :: t.now <= later
    ensures RunTicks(s, ticks).nextCommandAt <= later + COMMAND_INTERVAL
    decreases |ticks|
  {
    if ticks == [] {
    } else {
      NoSendsInLines(ticks[0].lines);
      NextCommandNear(s, TickActions(ticks[0]), later);
      NextCommandRun(Perform(s, TickActions(ticks[0])), ticks[1..], later);
    }
  }

  lemma {:induction false} MonotoneBelow(ticks: seq<Tick>, i: nat, j: nat)
    requires Monotone(ticks) && i <= j < |ticks|
    ensures 0.0 <= ticks[i].now <= ticks[j].now
    decreases j + i
  {
    if i < j {
      MonotoneBelow(ticks, i, j - 1);
    } else if i > 0 {
      MonotoneBelow(ticks, i - 1, i);
      MonotoneBelow(ticks, i - 1, i - 1);
    }
  }

  /** The bound on the wait, from a connected state with its queue and its next send no later than usual. */
  function Commands(s: State): nat {
    |s.queue| + 5 + if s.registered then 0 else 4
  }

  /** When the mode write is due: the commands before it at one per interval, each up to a gap late. */
  function Due(s: State, start: real, gap: real): real {
    start + Commands(s) as real * (0.8 + gap)
  }

  lemma {:induction false} DeadlineInTimes(s: State, after: seq<Tick>, gap: real, total: nat)
    requires after != [] && gap >= 0.0 && Steady(after, gap)
    requires s.connected && s.address.Some? && s.nextCommandAt <= after[0].now + COMMAND_INTERVAL
    requires !RunTicks(s, after).stopped && total == Commands(s)
    ensures var e := RunTicks(s, after);
            var due := after[0].now + Times(total, COMMAND_INTERVAL + gap);
            && e.connected && (after[|after| - 1].now > due ==> e.modeSet)
            && (e.modeSet && !s.modeSet ==> Written(e.log, |s.log|, due + gap))
  {
    TimesMonotone(0, total - Backlog(s), COMMAND_INTERVAL + gap);
    RunOnTime(s, after, after[0].now, total, gap, after[0].now,
              after[0].now + Times(total, COMMAND_INTERVAL + gap) + gap);
    var e := RunTicks(s, after);
    if !e.modeSet {
      OnTimePrevious(e, after[0].now, total, gap, after[|after| - 1].now);
    }
  }

  lemma {:induction false} DeadlineFrom(s: State, after: seq<Tick>, gap: real)
    requires after != [] && gap >= 0.0 && Steady(after, gap)
    requires s.connected && s.address.Some? && s.nextCommandAt <= after[0].now + COMMAND_INTERVAL
    requires !RunTicks(s, after).stopped
    ensures var e := RunTicks(s, after);
            var due := Due(s, after[0].now, gap);
            && e.connected && (after[|after| - 1].now > due ==> e.modeSet)
            && (e.modeSet && !s.modeSet ==> Written(e.log, |s.log|, due + gap))
  {
    DueInTimes(s, after[0].now, gap);
    DeadlineInTimes(s, after, gap, Commands(s));
  }

  lemma DueInTimes(s: State, start: real, gap: real)
    ensures Due(s, start, gap) == start + Times(Commands(s), COMMAND_INTERVAL + gap)
  {
    TimesIsProduct(Commands(s), COMMAND_INTERVAL + gap);
  }

  lemma {:induction false} EarlierTicks(before: seq<Tick>, after: seq<Tick>)
    requires Monotone(before + after) && after != []
    ensures after[0].now >= 0.0 && forall t | t in before :: t.now <= after[0].now
  {
    var all := before + after;
    assert all[|before|] == after[0];
    MonotoneBelow(all, |before|, |before|);
    forall t | t in before
      ensures t.now <= after[0].now
    {
      var i :| 0 <= i < |before| && before[i] == t;
      assert all[i] == t;
      MonotoneBelow(all, i, |before|);
    }
  }

  lemma {:induction false} ConnectedState(argument: Option<string>, direct: bool, before: seq<Tick>, later: real)
    requires later >= 0.0 && forall t | t in before :: t.now <= later
    ensures var s := RunTicks(Initial(argument, direct), before);
            (s.connected ==> s.address.Some?) && s.nextCommandAt <= later + COMMAND_INTERVAL
  {
    var init := Initial(argument, direct);
    RunIsPerform(init, before);
    TrackingReached(argument, direct, RunActions(before));
    NextCommandRun(init, before, later);
  }

  /**
   Bounded liveness. Take any run of iterations to a connected state, and any further
   run with no connection callback, readings at most gap apart, and no exception.
   With q commands queued, and four more to come if the client is not registered yet,
   a reading more than (q + 5)(0.8 + gap) seconds after the first of the further run
   finds the Input Mode written, exactly once since the latest successful callback;
   and if it was not written before, it was no more than gap seconds after that bound.
  */
  lemma {:induction false} ModeWriteDeadline(
    argument: Option<string>, direct: bool, before: seq<Tick>, after: seq<Tick>, gap: real)
    requires Monotone(before + after) && after != [] && gap >= 0.0 && Steady(after, gap)
    requires RunTicks(Initial(argument, direct), before).connected
    requires !RunTicks(RunTicks(Initial(argument, direct), before), after).stopped
    ensures var s := RunTicks(Initial(argument, direct), before);
            var e := RunTicks(s, after);
            var due := Due(s, after[0].now, gap);
            && (after[|after| - 1].now > due ==> e.modeSet && ModeWrites(e.log) == 1)
            && (e.modeSet && !s.modeSet ==> Written(e.log, |s.log|, due + gap))
  {
    var s := RunTicks(Initial(argument, direct), before);
    EarlierTicks(before, after);
    ConnectedState(argument, direct, before, after[0].now);
    DeadlineFrom(s, after, gap);
    RunConcatTicks(Initial(argument, direct), before, after);
    RunIsPerform(Initial(argument, direct), before + after);
    FlagsMean(argument, direct, RunActions(before + after));
  }

  lemma {:induction false} RunConcatTicks(s: State, a: seq<Tick>, b: seq<Tick>)
    ensures RunTicks(s, a + b) == RunTicks(RunTicks(s, a), b)
    decreases |a|
  {
    if a == [] {
      assert a + b == b;
    } else {
      RunConcatTicks(Perform(s, TickActions(a[0])), a[1..], b);
      Seqs.TailConcat(a, b);
    }
  }
}
