/**
 How soon a registered loop that is not connected asks for the next connection: once
 the commands before it have had their turn and six seconds have passed since the
 latest attempt.
*/
module RetryTiming {
  import opened BridgeFrames
  import opened BridgeLog
  import opened BridgeLoop
  import opened BridgeSafety
  import opened BridgeTiming
  import opened Wrappers
  import Messages

  /** Registered, with an address, and not connected. */
  predicate Searching(s: State) {
    !s.stopped && s.registered && s.addresses != [] && s.address.Some? && !s.connected
  }

  /** Lines that report no successful connection. */
  predicate NoSuccess(lines: seq<LineInput>) {
    forall l | l in lines && l.line.connection.Some? ::
      !(l.line.connection.value.connected && l.line.connection.value.status == 0)
  }

  predicate Failing(a: Action) {
    a.Found? || a.Registered? || a.Notified? || (a.Connection? && !(a.c.connected && a.c.status == 0))
  }

  predicate NoRetry(log: Log, more: Log) {
    log <= more && forall k | |log| <= k < |more| :: !more[k].Retried?
  }

  /** Such lines leave the queue and the clocks alone. */
  predicate SameWait(s: State, t: State) {
    && Searching(t) && t.queue == s.queue && t.nextCommandAt == s.nextCommandAt
    && t.lastConnectTry == s.lastConnectTry && NoRetry(s.log, t.log)
  }

  lemma FailingFound(s: State, device: string)
    requires Searching(s)
    ensures SameWait(s, OnFound(s, device))
  {
    CandidateShape(s, Messages.Upper(device));
  }

  lemma FailingStep(s: State, a: Action)
    requires Searching(s) && Failing(a) && !Act(s, a).stopped
    ensures SameWait(s, Act(s, a))
  {
    ActFrame(s, a);
    match a
    case Found(device) => FailingFound(s, device);
    case Registered(_, _, _) =>
    case Connection(c) =>
    case Notified(_, _) =>
  }

  lemma {:induction false} FailingRun(s: State, actions: seq<Action>)
    requires Searching(s) && (forall a | a in actions :: Failing(a)) && !Perform(s, actions).stopped
    ensures SameWait(s, Perform(s, actions))
    decreases |actions|
  {
    if actions == [] {
    } else {
      var t := Act(s, actions[0]);
      if t.stopped {
        StoppedStays(t, actions[1..]);
      }
      FailingStep(s, actions[0]);
      FailingRun(t, actions[1..]);
    }
  }

  lemma {:induction false} NoSuccessFailing(lines: seq<LineInput>)
    requires NoSuccess(lines)
    ensures forall a | a in LinesActions(lines) :: Failing(a)
  {
    if lines == [] {
    } else {
      assert lines[0] in lines;
      NoSuccessFailing(lines[1..]);
    }
  }

  lemma RetryLogged(s: State, now: real)
    requires Searching(s) && s.queue == [] && now - s.lastConnectTry > 6.0
    ensures var e := Act(s, Retry(now));
            |s.log| < |e.log| && s.log <= e.log
            && e.log[|s.log|] == Retried(s.addresses[(s.addressIndex + 1) % |s.addresses|], now)
  {
  }

  lemma SendTaken(s: State, now: real, sendOk: bool)
    requires Searching(s)
    ensures var e := Act(s, Send(now, sendOk));
            !e.stopped ==>
              && Searching(e) && e.lastConnectTry == s.lastConnectTry && NoRetry(s.log, e.log)
              && (if s.queue != [] && now >= s.nextCommandAt
                  then e.queue == s.queue[1..] && e.nextCommandAt == now + COMMAND_INTERVAL
                  else e.queue == s.queue && e.nextCommandAt == s.nextCommandAt)
  {
    ActFrame(s, Send(now, sendOk));
  }

  /** The end of an iteration: the retry if it is due, else a send if there is one and it may come. */
  lemma SearchingStep(s: State, t: Tick)
    requires Searching(s) && !LoopStep(s, t).stopped
    ensures var e := LoopStep(s, t);
            if s.queue == [] && t.now - s.lastConnectTry > 6.0 then
              && |s.log| < |e.log| && s.log <= e.log
              && e.log[|s.log|] == Retried(s.addresses[(s.addressIndex + 1) % |s.addresses|], t.now)
            else
              && Searching(e) && e.lastConnectTry == s.lastConnectTry && NoRetry(s.log, e.log)
              && (if s.queue != [] && t.now >= s.nextCommandAt
                  then e.queue == s.queue[1..] && e.nextCommandAt == t.now + COMMAND_INTERVAL
                  else e.queue == s.queue && e.nextCommandAt == s.nextCommandAt)
  {
    assert Act(Act(s, SetUp), WriteMode(t.now, t.modeOk)) == s;
    var r := Act(s, Retry(t.now));
    PollKeeps(Act(r, Send(t.now, t.sendOk)), t.exited);
    if s.queue == [] && t.now - s.lastConnectTry > 6.0 {
      RetryLogged(s, t.now);
      ActFrame(r, Send(t.now, t.sendOk));
    } else {
      assert r == s;
      SendTaken(s, t.now, t.sendOk);
    }
  }

  lemma PollKeeps(s: State, exited: bool)
    ensures !Act(s, Poll(exited)).stopped ==> Act(s, Poll(exited)) == s
    ensures Act(s, Poll(exited)).log == s.log
  {
  }

  /** When a queue of this length, once of total commands, has had its turn. */
  function TurnOf(length: nat, start: real, total: nat, gap: real): real
    requires length <= total
  {
    start + Times(total - length, COMMAND_INTERVAL + gap)
  }

  /** No retry yet: the queue is on time, or empty and the six seconds are not over. */
  predicate OnWay(s: State, start: real, total: nat, gap: real, prev: real) {
    && Searching(s) && |s.queue| <= total
    && s.nextCommandAt <= TurnOf(|s.queue|, start, total, gap) + COMMAND_INTERVAL
    && (prev <= TurnOf(|s.queue|, start, total, gap)
        || (s.queue != [] && prev < s.nextCommandAt)
        || (s.queue == [] && prev <= s.lastConnectTry + 6.0))
  }

  /** The first retry there is behind the log, read no later than limit. */
  predicate RetriedBy(log: Log, from: nat, limit: real) {
    exists k | from <= k < |log| :: log[k].Retried? && log[k].at <= limit
  }

  /** The bound: the queue's turn, or six seconds after the latest attempt. */
  function RetryDue(s: State, start: real, gap: real): real {
    var turn := start + |s.queue| as real * (0.8 + gap);
    if turn >= s.lastConnectTry + 6.0 then turn else s.lastConnectTry + 6.0
  }

  lemma OnWayPrevious(s: State, start: real, total: nat, gap: real, prev: real, limit: real)
    requires OnWay(s, start, total, gap, prev) && gap >= 0.0
    requires start + Times(total, COMMAND_INTERVAL + gap) <= limit && s.lastConnectTry + 6.0 <= limit
    ensures prev <= limit
  {
    var k := |s.queue|;
    TimesMonotone(total - k, total, COMMAND_INTERVAL + gap);
    if k > 0 {
      TimesMonotone(total - k + 1, total, COMMAND_INTERVAL + gap);
    }
  }

  lemma StepOnWay(s: State, t: Tick, start: real, total: nat, gap: real, prev: real, limit: real)
    requires OnWay(s, start, total, gap, prev) && gap >= 0.0 && prev <= t.now <= prev + gap
    requires start + Times(total, COMMAND_INTERVAL + gap) <= limit && s.lastConnectTry + 6.0 <= limit
    requires !LoopStep(s, t).stopped
    ensures var e := LoopStep(s, t);
            && s.log <= e.log
            && (RetriedBy(e.log, |s.log|, limit + gap)
                || (OnWay(e, start, total, gap, t.now) && e.lastConnectTry == s.lastConnectTry))
  {
    var e := LoopStep(s, t);
    SearchingStep(s, t);
    OnWayPrevious(s, start, total, gap, prev, limit);
    if s.queue == [] && t.now - s.lastConnectTry > 6.0 {
      assert e.log[|s.log|].Retried? && e.log[|s.log|].at <= limit + gap;
    }
  }

  lemma TickOnWay(s: State, t: Tick, start: real, total: nat, gap: real, prev: real, limit: real)
    requires OnWay(s, start, total, gap, prev) && gap >= 0.0 && prev <= t.now <= prev + gap && NoSuccess(t.lines)
    requires start + Times(total, COMMAND_INTERVAL + gap) <= limit && s.lastConnectTry + 6.0 <= limit
    requires !Perform(s, TickActions(t)).stopped
    ensures var e := Perform(s, TickActions(t));
            && s.log <= e.log
            && (RetriedBy(e.log, |s.log|, limit + gap)
                || (OnWay(e, start, total, gap, t.now) && e.lastConnectTry == s.lastConnectTry))
  {
    var read := Perform(s, LinesActions(t.lines));
    PerformConcat(s, LinesActions(t.lines), LoopActions(t));
    LoopActionsStep(read, t);
    if read.stopped {
      StoppedStays(read, LoopActions(t));
    }
    NoSuccessFailing(t.lines);
    FailingRun(s, LinesActions(t.lines));
    StepOnWay(read, t, start, total, gap, prev, limit);
  }

  lemma RetriedLater(log: Log, more: Log, from: nat, later: nat, limit: real)
    requires log <= more && from <= later
    ensures RetriedBy(log, from, limit) || RetriedBy(more, later, limit) ==> RetriedBy(more, from, limit)
  {
    if k :| from <= k < |log| && log[k].Retried? && log[k].at <= limit {
      assert more[k] == log[k];
    }
  }

  predicate Patient(ticks: seq<Tick>, gap: real) {
    && (forall t | t in ticks :: NoSuccess(t.lines))
    && (forall i | 0 <= i < |ticks| - 1 :: ticks[i].now <= ticks[i + 1].now <= ticks[i].now + gap)
  }

  lemma PatientTail(ticks: seq<Tick>, gap: real)
    requires Patient(ticks, gap) && ticks != []
    ensures NoSuccess(ticks[0].lines) && Patient(ticks[1..], gap)
    ensures |ticks| > 1 ==> ticks[0].now <= ticks[1].now <= ticks[0].now + gap
  {
    assert ticks[0] in ticks;
    forall i | 0 <= i < |ticks[1..]| - 1
      ensures ticks[1..][i].now <= ticks[1..][i + 1].now <= ticks[1..][i].now + gap
    {
      assert ticks[1..][i] == ticks[i + 1] && ticks[1..][i + 1] == ticks[i + 2];
    }
  }

  lemma {:induction false} LogGrows(s: State, ticks: seq<Tick>)
    ensures s.log <= RunTicks(s, ticks).log
    decreases |ticks|
  {
    if ticks == [] {
    } else {
      LogGrowsBy(s, TickActions(ticks[0]));
      LogGrows(Perform(s, TickActions(ticks[0])), ticks[1..]);
    }
  }

  lemma {:induction false} LogGrowsBy(s: State, actions: seq<Action>)
    ensures s.log <= Perform(s, actions).log
    decreases |actions|
  {
    if actions == [] {
    } else {
      ActFrame(s, actions[0]);
      LogGrowsBy(Act(s, actions[0]), actions[1..]);
    }
  }

  lemma {:induction false} RunOnWay(
    s: State, ticks: seq<Tick>, start: real, total: nat, gap: real, prev: real, limit: real)
    requires OnWay(s, start, total, gap, prev) && gap >= 0.0 && Patient(ticks, gap)
    requires ticks != [] ==> prev <= ticks[0].now <= prev + gap
    requires start + Times(total, COMMAND_INTERVAL + gap) <= limit && s.lastConnectTry + 6.0 <= limit
    requires !RunTicks(s, ticks).stopped
    ensures RetriedBy(RunTicks(s, ticks).log, |s.log|, limit + gap)
            || (if ticks == [] then prev else ticks[|ticks| - 1].now) <= limit
    decreases |ticks|
  {
    if ticks == [] {
      OnWayPrevious(s, start, total, gap, prev, limit);
    } else {
      var t := Perform(s, TickActions(ticks[0]));
      var e := RunTicks(t, ticks[1..]);
      RunStopped(t, ticks[1..]);
      PatientTail(ticks, gap);
      TickOnWay(s, ticks[0], start, total, gap, prev, limit);
      LogGrows(t, ticks[1..]);
      if !RetriedBy(t.log, |s.log|, limit + gap) {
        RunOnWay(t, ticks[1..], start, total, gap, ticks[0].now, limit);
      }
      RetriedLater(t.log, e.log, |s.log|, |t.log|, limit + gap);
    }
  }

  lemma RetryDueInTimes(s: State, start: real, gap: real)
    ensures RetryDue(s, start, gap) >= start + Times(|s.queue|, COMMAND_INTERVAL + gap)
    ensures RetryDue(s, start, gap) >= s.lastConnectTry + 6.0
  {
    TimesIsProduct(|s.queue|, COMMAND_INTERVAL + gap);
  }

  lemma RetryFrom(s: State, after: seq<Tick>, gap: real)
    requires after != [] && gap >= 0.0 && Patient(after, gap)
    requires Searching(s) && s.nextCommandAt <= after[0].now + COMMAND_INTERVAL && !RunTicks(s, after).stopped
    ensures var due := RetryDue(s, after[0].now, gap);
            after[|after| - 1].now > due ==> RetriedBy(RunTicks(s, after).log, |s.log|, due + gap)
  {
    RetryDueInTimes(s, after[0].now, gap);
    assert Times(0, COMMAND_INTERVAL + gap) == 0.0;
    RunOnWay(s, after, after[0].now, |s.queue|, gap, after[0].now, RetryDue(s, after[0].now, gap));
  }

  lemma {:induction false} SearchingReached(argument: Option<string>, direct: bool, before: seq<Tick>, later: seq<Tick>)
    requires var s := RunTicks(Initial(argument, direct), before);
             s.registered && s.addresses != [] && !s.connected && !RunTicks(s, later).stopped
    ensures Searching(RunTicks(Initial(argument, direct), before))
  {
    RunIsPerform(Initial(argument, direct), before);
    TrackingReached(argument, direct, RunActions(before));
    RunStopped(RunTicks(Initial(argument, direct), before), later);
  }

  /**
   Bounded liveness of the retries. Take any run of iterations to a registered loop that
   has an address and is not connected, and any further run in which no connection
   succeeds, nothing raises and readings are at most gap apart. With q commands queued,
   once a reading is more than q (0.8 + gap) seconds after the first of the further run
   and more than six seconds after the latest attempt, a connection has been tried again,
   at most gap after that bound.
  */
  lemma {:induction false} RetryDeadline(
    argument: Option<string>, direct: bool, before: seq<Tick>, after: seq<Tick>, gap: real)
    requires Monotone(before + after) && after != [] && gap >= 0.0 && Patient(after, gap)
    requires var s := RunTicks(Initial(argument, direct), before);
             s.registered && s.addresses != [] && !s.connected && !RunTicks(s, after).stopped
    ensures var s := RunTicks(Initial(argument, direct), before);
            var due := RetryDue(s, after[0].now, gap);
            after[|after| - 1].now > due ==> RetriedBy(RunTicks(s, after).log, |s.log|, due + gap)
  {
    var s := RunTicks(Initial(argument, direct), before);
    EarlierTicks(before, after);
    ConnectedState(argument, direct, before, after[0].now);
    SearchingReached(argument, direct, before, after);
    RetryFrom(s, after, gap);
  }
}
