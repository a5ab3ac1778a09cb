/**
 What the lines a connected loop handles put on /dev/uhid, and what can stop it
 while it handles them.
*/
module BridgeReports {
  import opened BridgeFrames
  import opened BridgeInputs
  import opened BridgeLog
  import opened BridgeLoop
  import opened BridgeTiming
  import opened Bytes
  import opened Wrappers
  import Messages
  import Seqs
  import UhidCodec

  // ----- One line -----

  /** What one notification puts on /dev/uhid while the peer is the current address. */
  function Delivered(n: Messages.Notification, peer: string): seq<seq<byte>> {
    if Messages.Upper(n.peer) != peer || n.handle !in INPUT_HANDLES then []
    else
      match Messages.ParseValue(n.raw)
      case None => []
      case Some(value) =>
        match UhidCodec.SendInput(UhidCodec.InputReport(INPUT_HANDLES[n.handle], value))
        case None => []
        case Some(bytes) => [bytes]
  }

  lemma ReportSnoc(log: Log, bytes: seq<byte>)
    ensures Reports(log + [Report(bytes)]) == Reports(log) + [bytes]
  {
    Snoc(log, Report(bytes));
  }

  lemma ForwardReports(s: State, handle: nat, value: seq<byte>, uhidOk: bool)
    requires !s.stopped && handle in INPUT_HANDLES
    ensures var t := Forward(s, handle, value, uhidOk);
            var event := UhidCodec.SendInput(UhidCodec.InputReport(INPUT_HANDLES[handle], value));
            Reports(t.log) == Reports(s.log) + if t.stopped || event.None? then [] else [event.value]
  {
    var event := UhidCodec.SendInput(UhidCodec.InputReport(INPUT_HANDLES[handle], value));
    assert Reports(s.log) + [] == Reports(s.log);
    if event.Some? {
      ReportSnoc(s.log, event.value);
    }
  }

  /** A notification delivers its value, or stops the loop and delivers nothing. */
  lemma NotifiedReports(s: State, n: Messages.Notification, uhidOk: bool, peer: string)
    requires !s.stopped && s.address == Some(peer)
    ensures var t := OnNotified(s, n, uhidOk);
            Reports(t.log) == Reports(s.log) + if t.stopped then [] else Delivered(n, peer)
  {
    assert Reports(s.log) + [] == Reports(s.log);
    AcceptedForward(s, n, uhidOk);
    if Accepted(s, n).Some? {
      ForwardReports(s.(warned := s.warned + Warnings(s, n)), n.handle, Accepted(s, n).value, uhidOk);
    }
  }

  /** The searches of a line before the last. */
  function HeadActions(l: LineInput): seq<Action> {
    DeviceActions(l) + RegistrationActions(l) + ConnectionActions(l)
  }

  predicate OnLink(s: State, peer: string) {
    s.connected && s.address == Some(peer)
  }

  lemma ReportsKept(s: State, a: Action)
    requires !a.Notified?
    ensures Reports(Act(s, a).log) == Reports(s.log)
  {
    ActFrame(s, a);
    OthersKeep(s.log, Act(s, a).log);
  }

  lemma LinkKept(s: State, a: Action, peer: string)
    requires OnLink(s, peer) && !a.Connection?
    ensures OnLink(Act(s, a), peer)
  {
    ActFrame(s, a);
  }

  lemma {:induction false} SilentRun(s: State, actions: seq<Action>, peer: string)
    requires OnLink(s, peer) && forall a | a in actions :: !a.Notified? && !a.Connection?
    ensures OnLink(Perform(s, actions), peer) && Reports(Perform(s, actions).log) == Reports(s.log)
    decreases |actions|
  {
    if actions == [] {
    } else {
      ReportsKept(s, actions[0]);
      LinkKept(s, actions[0], peer);
      SilentRun(Act(s, actions[0]), actions[1..], peer);
    }
  }

  /** What the notification of a line, if it has one, puts on /dev/uhid. */
  function DeliveredBy(l: Messages.Line, peer: string): seq<seq<byte>> {
    if l.notification.Some? then Delivered(l.notification.value, peer) else []
  }

  /** A line without a callback delivers what its notification brings, or stops the loop and delivers nothing. */
  lemma LineReports(s: State, l: LineInput, peer: string)
    requires OnLink(s, peer) && l.line.connection.None?
    ensures var t := Perform(s, LineActions(l));
            && OnLink(t, peer)
            && Reports(t.log) == Reports(s.log) + if t.stopped then [] else DeliveredBy(l.line, peer)
  {
    var u := Perform(s, HeadActions(l));
    PerformConcat(s, HeadActions(l), NotificationActions(l));
    SilentRun(s, HeadActions(l), peer);
    assert Reports(u.log) + [] == Reports(u.log);
    if l.line.notification.Some? {
      var a := Notified(l.line.notification.value, l.uhidOk);
      PerformOne(u, a);
      LinkKept(u, a, peer);
      if !u.stopped {
        NotifiedReports(u, a.n, a.uhidOk, peer);
      }
    }
  }

  // ----- Many lines -----

  function LinesOf(inputs: seq<LineInput>): seq<Messages.Line> {
    seq(|inputs|, i requires 0 <= i < |inputs| => inputs[i].line)
  }

  /** The lines that the iterations of a run handle, one after the other. */
  function HeardLines(ticks: seq<Tick>): seq<Messages.Line> {
    if ticks == [] then [] else LinesOf(ticks[0].lines) + HeardLines(ticks[1..])
  }

  lemma LinesOfCons(input: LineInput, rest: seq<LineInput>)
    ensures LinesOf([input] + rest) == [input.line] + LinesOf(rest)
  {
  }

  lemma HeardCons(tick: Tick, rest: seq<Tick>)
    ensures HeardLines([tick] + rest) == LinesOf(tick.lines) + HeardLines(rest)
  {
  }

  predicate NoCallback(lines: seq<Messages.Line>) {
    forall l | l in lines :: l.connection.None?
  }

  lemma NoCallbackConcat(a: seq<Messages.Line>, b: seq<Messages.Line>)
    requires NoCallback(a + b)
    ensures NoCallback(a) && NoCallback(b)
  {
    assert forall l | l in a || l in b :: l in a + b;
  }

  function DeliveredAll(lines: seq<Messages.Line>, peer: string): seq<seq<byte>> {
    if lines == [] then [] else DeliveredBy(lines[0], peer) + DeliveredAll(lines[1..], peer)
  }

  lemma {:induction false} DeliveredConcat(a: seq<Messages.Line>, b: seq<Messages.Line>, peer: string)
    ensures DeliveredAll(a + b, peer) == DeliveredAll(a, peer) + DeliveredAll(b, peer)
  {
    if a == [] {
      assert a + b == b;
    } else {
      DeliveredConcat(a[1..], b, peer);
      Seqs.TailConcat(a, b);
      Seqs.Assoc(DeliveredBy(a[0], peer), DeliveredAll(a[1..], peer), DeliveredAll(b, peer));
    }
  }

  /** Of these lines the first n have been delivered, all of them unless the loop has stopped. */
  predicate UpTo(before: seq<seq<byte>>, e: State, lines: seq<Messages.Line>, peer: string, n: nat) {
    && n <= |lines| && (n < |lines| ==> e.stopped)
    && Reports(e.log) == before + DeliveredAll(lines[..n], peer)
  }

  lemma UpToStopped(
    before: seq<seq<byte>>, e: State, lines: seq<Messages.Line>, rest: seq<Messages.Line>, peer: string, n: nat)
    requires UpTo(before, e, lines, peer, n) && e.stopped
    ensures UpTo(before, e, lines + rest, peer, n)
  {
    Seqs.TakeConcat(lines, rest, n);
  }

  lemma UpToMore(before: seq<seq<byte>>, t: State, e: State,
                 lines: seq<Messages.Line>, rest: seq<Messages.Line>, peer: string, m: nat)
    requires UpTo(before, t, lines, peer, |lines|) && UpTo(Reports(t.log), e, rest, peer, m)
    ensures UpTo(before, e, lines + rest, peer, |lines| + m)
  {
    assert lines[..|lines|] == lines && (lines + rest)[..|lines| + m] == lines + rest[..m];
    DeliveredConcat(lines, rest[..m], peer);
    Seqs.Assoc(before, DeliveredAll(lines, peer), DeliveredAll(rest[..m], peer));
  }

  lemma UpToNone(s: State, e: State, lines: seq<Messages.Line>, peer: string)
    requires Reports(e.log) == Reports(s.log) && (lines != [] ==> e.stopped)
    ensures UpTo(Reports(s.log), e, lines, peer, 0)
  {
    assert Reports(s.log) + [] == Reports(s.log);
  }

  lemma UpToOne(s: State, t: State, line: Messages.Line, peer: string)
    requires Reports(t.log) == Reports(s.log) + DeliveredBy(line, peer)
    ensures UpTo(Reports(s.log), t, [line], peer, 1)
  {
    var one := [line];
    assert one[..1] == one && one[1..] == [] && DeliveredAll([], peer) == [];
    assert DeliveredAll(one, peer) == DeliveredBy(line, peer) + [];
  }

  lemma UpToFirst(
    s: State, t: State, e: State, line: Messages.Line, rest: seq<Messages.Line>, peer: string, m: nat)
    requires Reports(t.log) == Reports(s.log) + DeliveredBy(line, peer) && UpTo(Reports(t.log), e, rest, peer, m)
    ensures UpTo(Reports(s.log), e, [line] + rest, peer, 1 + m)
  {
    UpToOne(s, t, line, peer);
    UpToMore(Reports(s.log), t, e, [line], rest, peer, m);
  }

  lemma NoCallbackCons(input: LineInput, rest: seq<LineInput>)
    requires NoCallback([input.line] + LinesOf(rest))
    ensures input.line.connection.None? && NoCallback(LinesOf(rest))
  {
    NoCallbackConcat([input.line], LinesOf(rest));
    assert input.line in [input.line];
  }

  lemma LinesCons(s: State, inputs: seq<LineInput>)
    requires inputs != []
    ensures Perform(s, LinesActions(inputs)) ==
            Perform(Perform(s, LineActions(inputs[0])), LinesActions(inputs[1..]))
    ensures LinesOf(inputs) == [inputs[0].line] + LinesOf(inputs[1..])
  {
    PerformConcat(s, LineActions(inputs[0]), LinesActions(inputs[1..]));
    LinesOfCons(inputs[0], inputs[1..]);
    Seqs.Uncons(inputs);
  }

  /** The lines of a read are delivered up to the one that stops the loop, or all of them. */
  lemma {:induction false} InputsReports(s: State, inputs: seq<LineInput>, peer: string) returns (n: nat)
    requires OnLink(s, peer) && NoCallback(LinesOf(inputs))
    ensures var t := Perform(s, LinesActions(inputs));
            OnLink(t, peer) && UpTo(Reports(s.log), t, LinesOf(inputs), peer, n)
    decreases |inputs|
  {
    n := 0;
    if inputs == [] {
      UpToNone(s, s, [], peer);
    } else {
      var input, rest := inputs[0], inputs[1..];
      var t := Perform(s, LineActions(input));
      LinesCons(s, inputs);
      NoCallbackCons(input, rest);
      LineReports(s, input, peer);
      if t.stopped {
        StoppedStays(t, LinesActions(rest));
        UpToNone(s, t, LinesOf(inputs), peer);
      } else {
        var m := InputsReports(t, rest, peer);
        UpToFirst(s, t, Perform(t, LinesActions(rest)), input.line, LinesOf(rest), peer, m);
        n := 1 + m;
      }
    }
  }

  lemma LoopSilent(s: State, t: Tick, peer: string)
    requires OnLink(s, peer)
    ensures OnLink(Perform(s, LoopActions(t)), peer) && Reports(Perform(s, LoopActions(t)).log) == Reports(s.log)
  {
    SilentRun(s, LoopActions(t), peer);
  }

  lemma TickReports(s: State, t: Tick, peer: string) returns (n: nat)
    requires OnLink(s, peer) && NoCallback(LinesOf(t.lines))
    ensures var e := Perform(s, TickActions(t));
            OnLink(e, peer) && UpTo(Reports(s.log), e, LinesOf(t.lines), peer, n)
  {
    var read := Perform(s, LinesActions(t.lines));
    PerformConcat(s, LinesActions(t.lines), LoopActions(t));
    n := InputsReports(s, t.lines, peer);
    if read.stopped {
      StoppedStays(read, LoopActions(t));
    } else {
      LoopSilent(read, t, peer);
    }
  }

  lemma {:induction false} TicksStopped(s: State, ticks: seq<Tick>)
    requires s.stopped
    ensures RunTicks(s, ticks) == s
    decreases |ticks|
  {
    if ticks == [] {
    } else {
      StoppedStays(s, TickActions(ticks[0]));
      TicksStopped(s, ticks[1..]);
    }
  }

  /** The lines of a run are delivered up to some line, and if not all of them are, the run has stopped. */
  lemma {:induction false} TicksReports(s: State, ticks: seq<Tick>, peer: string) returns (n: nat)
    requires OnLink(s, peer) && NoCallback(HeardLines(ticks))
    ensures UpTo(Reports(s.log), RunTicks(s, ticks), HeardLines(ticks), peer, n)
    decreases |ticks|
  {
    if ticks == [] {
      n := 0;
      UpToNone(s, s, [], peer);
    } else {
      var lines, rest := LinesOf(ticks[0].lines), HeardLines(ticks[1..]);
      var t := Perform(s, TickActions(ticks[0]));
      NoCallbackConcat(lines, rest);
      n := TickReports(s, ticks[0], peer);
      if t.stopped {
        TicksStopped(t, ticks[1..]);
        UpToStopped(Reports(s.log), t, lines, rest, peer, n);
      } else {
        var m := TicksReports(t, ticks[1..], peer);
        UpToMore(Reports(s.log), t, RunTicks(t, ticks[1..]), lines, rest, peer, m);
        n := n + m;
      }
    }
  }

  // ----- Runs that go on -----

  predicate Fits(n: Messages.Notification) {
    Messages.ParseValue(n.raw).Some? ==> |Messages.ParseValue(n.raw).value| <= 65534
  }

  /** A line that can stop nothing while its calls succeed: no failed registration, and no overlong value. */
  predicate Sound(l: Messages.Line) {
    && (l.registration.Some? ==> l.registration.value.status == 0)
    && (l.notification.Some? ==> Fits(l.notification.value))
  }

  predicate AllSound(lines: seq<Messages.Line>) {
    forall l | l in lines :: Sound(l)
  }

  predicate CallsSucceed(inputs: seq<LineInput>) {
    forall l | l in inputs :: l.publishOk && l.uhidOk
  }

  /** Every call of the iteration succeeds, and btclient goes on. */
  predicate Succeeds(t: Tick) {
    t.modeOk && t.sendOk && !t.exited && CallsSucceed(t.lines)
  }

  /** An action that stops the loop in no state. */
  predicate NeverRaises(a: Action) {
    match a
    case Registered(r, publishOk, _) => r.status == 0 && publishOk
    case Notified(n, uhidOk) => Fits(n) && uhidOk
    case WriteMode(_, modeOk) => modeOk
    case Send(_, sendOk) => sendOk
    case Poll(exited) => !exited
    case _ => true
  }

  lemma {:induction false} SafeActions(s: State, actions: seq<Action>)
    requires !s.stopped && forall a | a in actions :: NeverRaises(a)
    ensures !Perform(s, actions).stopped
    decreases |actions|
  {
    if actions == [] {
    } else {
      assert NeverRaises(actions[0]);
      StopsExactly(s, actions[0]);
      SafeActions(Act(s, actions[0]), actions[1..]);
    }
  }

  lemma LineGoesOn(s: State, l: LineInput)
    requires !s.stopped && Sound(l.line) && l.publishOk && l.uhidOk
    ensures !Perform(s, LineActions(l)).stopped
  {
    SafeActions(s, LineActions(l));
  }

  lemma {:induction false} InputsGoOn(s: State, inputs: seq<LineInput>)
    requires !s.stopped && AllSound(LinesOf(inputs)) && CallsSucceed(inputs)
    ensures !Perform(s, LinesActions(inputs)).stopped
    decreases |inputs|
  {
    if inputs == [] {
    } else {
      LinesCons(s, inputs);
      AllSoundConcat([inputs[0].line], LinesOf(inputs[1..]));
      assert inputs[0].line in [inputs[0].line] && inputs[0] in inputs;
      LineGoesOn(s, inputs[0]);
      InputsGoOn(Perform(s, LineActions(inputs[0])), inputs[1..]);
    }
  }

  lemma AllSoundConcat(a: seq<Messages.Line>, b: seq<Messages.Line>)
    requires AllSound(a + b)
    ensures AllSound(a) && AllSound(b)
  {
    assert forall l | l in a || l in b :: l in a + b;
  }

  lemma LoopGoesOn(s: State, t: Tick)
    requires !s.stopped && t.modeOk && t.sendOk && !t.exited
    ensures !Perform(s, LoopActions(t)).stopped
  {
    var s1 := Act(s, SetUp);
    var s2 := Act(s1, WriteMode(t.now, t.modeOk));
    var s3 := Act(s2, Retry(t.now));
    var s4 := Act(s3, Send(t.now, t.sendOk));
    LoopActionsStep(s, t);
    StopsExactly(s, SetUp);
    StopsExactly(s1, WriteMode(t.now, t.modeOk));
    StopsExactly(s2, Retry(t.now));
    StopsExactly(s3, Send(t.now, t.sendOk));
    StopsExactly(s4, Poll(t.exited));
  }

  lemma TickGoesOn(s: State, t: Tick)
    requires !s.stopped && Succeeds(t) && AllSound(LinesOf(t.lines))
    ensures !Perform(s, TickActions(t)).stopped
  {
    PerformConcat(s, LinesActions(t.lines), LoopActions(t));
    InputsGoOn(s, t.lines);
    LoopGoesOn(Perform(s, LinesActions(t.lines)), t);
  }

  /** Whatever is heard, while every call succeeds only a failed registration or an overlong value stops the loop. */
  lemma {:induction false} TicksGoOn(s: State, ticks: seq<Tick>)
    requires !s.stopped && (forall t | t in ticks :: Succeeds(t)) && AllSound(HeardLines(ticks))
    ensures !RunTicks(s, ticks).stopped
    decreases |ticks|
  {
    if ticks == [] {
    } else {
      AllSoundConcat(LinesOf(ticks[0].lines), HeardLines(ticks[1..]));
      assert ticks[0] in ticks;
      TickGoesOn(s, ticks[0]);
      TicksGoOn(Perform(s, TickActions(ticks[0])), ticks[1..]);
    }
  }
}
