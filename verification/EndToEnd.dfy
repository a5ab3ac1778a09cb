/**
 From the text btclient prints to the events written to /dev/uhid, and the
 counters the bridge keeps of them.
*/
module EndToEnd {
  import opened BridgeFrames
  import opened BridgeInputs
  import opened BridgeLog
  import opened BridgeLoop
  import opened BridgeReports
  import opened Bytes
  import opened TextRuns
  import opened Wrappers
  import Framing
  import Messages
  import Seqs
  import UhidCodec

  // ----- From text to reports -----

  /** A line for a bridge that is to stay connected: no callback, and no notification but printed reports that fit. */
  predicate Ordinary(o: Output) {
    && o.Meaning().connection.None?
    && (o.Other? ==> o.Meaning().notification.None?)
    && (o.Note? ==> |o.report.value| <= UhidCodec.UHID_DATA_MAX - 1)
  }

  predicate AllOrdinary(outputs: seq<Output>) {
    forall o | o in outputs :: Ordinary(o)
  }

  /** The report one line should deliver: that of an input characteristic of the peer, under its report id. */
  function Meant(o: Output, peer: string): seq<UhidCodec.InputReport> {
    if o.Note? && Messages.Upper(o.report.peer) == peer && o.report.handle in INPUT_HANDLES
    then [UhidCodec.InputReport(INPUT_HANDLES[o.report.handle], o.report.value)]
    else []
  }

  function Expected(outputs: seq<Output>, peer: string): seq<UhidCodec.InputReport> {
    if outputs == [] then [] else Meant(outputs[0], peer) + Expected(outputs[1..], peer)
  }

  /** Written events that decode, one by one, to the given reports. */
  predicate Decodes(events: seq<seq<byte>>, reports: seq<UhidCodec.InputReport>) {
    |events| == |reports|
    && forall k | 0 <= k < |events| :: UhidCodec.DecodeInput2(events[k]) == Some(reports[k])
  }

  lemma NoteDelivers(r: Messages.Report, peer: string)
    requires |r.value| <= UhidCodec.UHID_DATA_MAX - 1
    ensures var n := Messages.Notification(r.peer, r.handle, Messages.PrintValue(r.value));
            && Messages.ParseValue(n.raw) == Some(r.value)
            && (if Messages.Upper(r.peer) == peer && r.handle in INPUT_HANDLES
                then Decodes(Delivered(n, peer), [UhidCodec.InputReport(INPUT_HANDLES[r.handle], r.value)])
                else Delivered(n, peer) == [])
  {
    Messages.ParsePrintedValue(r.value);
    if r.handle in INPUT_HANDLES {
      UhidCodec.SendInputRoundTrip(UhidCodec.InputReport(INPUT_HANDLES[r.handle], r.value));
    }
  }

  lemma OutputDelivers(o: Output, peer: string)
    requires Ordinary(o)
    ensures Decodes(DeliveredBy(o.Meaning(), peer), Meant(o, peer))
  {
    if o.Note? {
      NoteDelivers(o.report, peer);
    }
  }

  lemma DecodesConcat(
    a: seq<seq<byte>>, b: seq<seq<byte>>, x: seq<UhidCodec.InputReport>, y: seq<UhidCodec.InputReport>)
    requires Decodes(a, x) && Decodes(b, y)
    ensures Decodes(a + b, x + y)
  {
  }

  lemma MeaningsCons(outputs: seq<Output>)
    requires outputs != []
    ensures Meanings(outputs) == [outputs[0].Meaning()] + Meanings(outputs[1..])
  {
    Seqs.MapCons(MeaningOf, outputs);
  }

  lemma {:induction false} OutputsDeliver(outputs: seq<Output>, peer: string)
    requires AllOrdinary(outputs)
    ensures Decodes(DeliveredAll(Meanings(outputs), peer), Expected(outputs, peer))
  {
    if outputs == [] {
    } else {
      var o, rest := outputs[0], outputs[1..];
      assert o in outputs;
      OutputDelivers(o, peer);
      OutputsDeliver(rest, peer);
      MeaningsCons(outputs);
      DecodesConcat(DeliveredBy(o.Meaning(), peer), DeliveredAll(Meanings(rest), peer),
                    Meant(o, peer), Expected(rest, peer));
    }
  }

  /** No line reports that a registration failed. */
  predicate NoFailure(outputs: seq<Output>) {
    forall o | o in outputs && o.Meaning().registration.Some? :: o.Meaning().registration.value.status == 0
  }

  lemma OrdinarySound(o: Output)
    requires Ordinary(o)
    requires o.Meaning().registration.Some? ==> o.Meaning().registration.value.status == 0
    ensures Sound(o.Meaning())
  {
    if o.Note? {
      NoteDelivers(o.report, "");
    }
  }

  lemma OrdinaryMeanings(outputs: seq<Output>)
    requires AllOrdinary(outputs)
    ensures NoCallback(Meanings(outputs)) && (NoFailure(outputs) ==> AllSound(Meanings(outputs)))
  {
    forall l | l in Meanings(outputs)
      ensures l.connection.None? && (NoFailure(outputs) ==> Sound(l))
    {
      var i :| 0 <= i < |outputs| && Meanings(outputs)[i] == l;
      assert outputs[i] in outputs;
      if NoFailure(outputs) {
        OrdinarySound(outputs[i]);
      }
    }
  }

  /** Of these lines the first n have been delivered, all of them unless the loop has stopped. */
  predicate DeliveredFirst(before: Log, e: State, outputs: seq<Output>, peer: string, n: nat) {
    && n <= |outputs| && Reports(before) <= Reports(e.log)
    && Decodes(Reports(e.log)[|Reports(before)|..], Expected(outputs[..n], peer))
    && (n < |outputs| ==> e.stopped)
  }

  lemma DeliveredPart(before: Log, e: State, outputs: seq<Output>, peer: string, n: nat)
    requires AllOrdinary(outputs) && UpTo(Reports(before), e, Meanings(outputs), peer, n)
    ensures DeliveredFirst(before, e, outputs, peer, n)
  {
    assert forall o | o in outputs[..n] :: o in outputs;
    OutputsDeliver(outputs[..n], peer);
    assert Meanings(outputs[..n]) == Meanings(outputs)[..n];
    Seqs.SplitConcat(Reports(before), DeliveredAll(Meanings(outputs)[..n], peer));
  }

  /**
   End-to-end refinement. Let a connected bridge, with part of a line buffered, read
   over any iterations and in any chunks that cut no control sequence, a decorated
   stream that completes the buffered text to a list of lines and perhaps the start of
   another: notifications from any address, devices, registrations and any other lines,
   but no connection callbacks. The events it writes to /dev/uhid meanwhile decode to
   exactly the notifications of the connected peer's input characteristics, in order,
   each under its report id with its value unchanged: of all the lines, or, if the loop
   has stopped, of the lines up to then. And while every call succeeds and no
   registration fails, it does not stop.
  */
  lemma {:induction false} TextToUhid(
    s: State, buffer: string, peer: string, outputs: seq<Output>, rest: string, ticks: seq<TextTick>)
    requires s.connected && s.address == Some(peer)
    requires '\n' !in buffer && '\n' !in rest && AllValid(outputs) && AllOrdinary(outputs)
    requires Framing.CleanCuts(Chunks(ticks))
    requires buffer + Framing.Sanitise(Seqs.Flatten(Chunks(ticks))) == Text(Lines(outputs)) + rest
    ensures var e := RunText(s, buffer, ticks);
            && (exists n :: DeliveredFirst(s.log, e, outputs, peer, n))
            && (!s.stopped && AllSucceed(ticks) && NoFailure(outputs) ==> !e.stopped)
  {
    TextIsHeard(buffer, outputs, rest, ticks);
    RunTextIsPerform(s, buffer, ticks);
    OrdinaryMeanings(outputs);
    var n := TicksReports(s, TicksOf(buffer, ticks), peer);
    DeliveredPart(s.log, RunText(s, buffer, ticks), outputs, peer, n);
    if !s.stopped && AllSucceed(ticks) && NoFailure(outputs) {
      TicksSucceed(buffer, ticks);
      TicksGoOn(s, TicksOf(buffer, ticks));
    }
  }

  // ----- Iterations whose calls succeed -----

  /** Every call an iteration on text may lead to succeeds, and btclient goes on. */
  ghost predicate TextSucceeds(t: TextTick) {
    && t.modeOk && t.sendOk && !t.exited
    && forall k: nat :: t.outcome(k).publishOk && t.outcome(k).uhidOk
  }

  ghost predicate AllSucceed(ticks: seq<TextTick>) {
    forall t | t in ticks :: TextSucceeds(t)
  }

  lemma {:induction false} InputsSucceed(lines: seq<string>, outcome: nat -> Outcome, first: nat)
    requires forall k: nat :: outcome(k).publishOk && outcome(k).uhidOk
    ensures CallsSucceed(Inputs(lines, outcome, first))
    decreases |lines|
  {
    if lines == [] {
    } else {
      InputsSucceed(lines[1..], outcome, first + 1);
      var input, rest := InputOf(lines[0], outcome(first)), Inputs(lines[1..], outcome, first + 1);
      forall l | l in [input] + rest
        ensures l.publishOk && l.uhidOk
      {
        assert l == input || l in rest;
      }
    }
  }

  lemma {:induction false} TicksSucceed(buffer: string, ticks: seq<TextTick>)
    requires AllSucceed(ticks)
    ensures forall t | t in TicksOf(buffer, ticks) :: Succeeds(t)
    decreases |ticks|
  {
    if |ticks| == 0 {
    } else {
      var f := Framing.Feed(buffer, ticks[0].chunk);
      assert ticks[0] in ticks;
      InputsSucceed(f.lines, ticks[0].outcome, 0);
      TicksSucceed(f.buffer, ticks[1..]);
    }
  }

  // ----- The counters -----

  /** How many of the written events are input reports with this id. */
  function CountId(events: seq<seq<byte>>, id: byte): nat {
    if events == [] then 0
    else
      var r := UhidCodec.DecodeInput2(events[|events| - 1]);
      CountId(events[..|events| - 1], id) + if r.Some? && r.value.reportId == id then 1 else 0
  }

  predicate Counting(s: State) {
    forall h | h in INPUT_HANDLES :: h in s.stats && s.stats[h] == CountId(Reports(s.log), INPUT_HANDLES[h])
  }

  lemma CountSnoc(events: seq<seq<byte>>, r: UhidCodec.InputReport, id: byte)
    requires |r.value| < 0xFFFF
    ensures CountId(events + [UhidCodec.SendInput(r).value], id) ==
            CountId(events, id) + if r.reportId == id then 1 else 0
  {
    var e := UhidCodec.SendInput(r).value;
    UhidCodec.SendInputDecodes(r);
    assert (events + [e])[..|events|] == events;
  }

  lemma IdsDistinct(g: nat, h: nat)
    requires g in INPUT_HANDLES && h in INPUT_HANDLES
    ensures INPUT_HANDLES[g] == INPUT_HANDLES[h] <==> g == h
  {
  }

  lemma CountingForward(s: State, handle: nat, value: seq<byte>, uhidOk: bool)
    requires Counting(s) && handle in INPUT_HANDLES
    ensures Counting(Forward(s, handle, value, uhidOk))
  {
    var r := UhidCodec.InputReport(INPUT_HANDLES[handle], value);
    if UhidCodec.SendInput(r).Some? && uhidOk {
      var bytes := UhidCodec.SendInput(r).value;
      ReportSnoc(s.log, bytes);
      CountingWrite(s, handle, r, bytes);
    }
  }

  /** One written event and one count more, for the same handle. */
  lemma CountingWrite(s: State, handle: nat, r: UhidCodec.InputReport, bytes: seq<byte>)
    requires Counting(s) && handle in INPUT_HANDLES && r.reportId == INPUT_HANDLES[handle]
    requires UhidCodec.SendInput(r) == Some(bytes)
    ensures forall h | h in INPUT_HANDLES ::
              Counted(s.stats, handle)[h] == CountId(Reports(s.log) + [bytes], INPUT_HANDLES[h])
  {
    forall h | h in INPUT_HANDLES
      ensures Counted(s.stats, handle)[h] == CountId(Reports(s.log) + [bytes], INPUT_HANDLES[h])
    {
      CountSnoc(Reports(s.log), r, INPUT_HANDLES[h]);
      IdsDistinct(handle, h);
    }
  }

  lemma CountingNotified(s: State, n: Messages.Notification, uhidOk: bool)
    requires Counting(s)
    ensures Counting(OnNotified(s, n, uhidOk))
  {
    if s.address == Some(Messages.Upper(n.peer)) && n.handle in INPUT_HANDLES && Messages.ParseValue(n.raw).Some? {
      var value := Messages.ParseValue(n.raw).value;
      CountingForward(Warn(s, n.handle, |value|), n.handle, value, uhidOk);
    }
  }

  lemma StatsKept(s: State, a: Action)
    requires !a.Notified?
    ensures Act(s, a).stats == s.stats
  {
    ActFrame(s, a);
  }

  lemma CountingStep(s: State, a: Action)
    requires Counting(s)
    ensures Counting(Act(s, a))
  {
    if a.Notified? {
      CountingNotified(s, a.n, a.uhidOk);
    } else {
      StatsKept(s, a);
      ReportsKept(s, a);
    }
  }

  /** On every run, each handle's counter is the number of written input events that carry its report id. */
  lemma {:induction false} StatsCountReports(argument: Option<string>, direct: bool, actions: seq<Action>)
    ensures var s := Perform(Initial(argument, direct), actions);
            forall h | h in INPUT_HANDLES :: h in s.stats && s.stats[h] == CountId(Reports(s.log), INPUT_HANDLES[h])
  {
    FirstLog(argument, direct);
    FirstEvent(Initial(argument, direct).queue[0]);
    forall s, a | Counting(s)
      ensures Counting(Act(s, a))
    {
      CountingStep(s, a);
    }
    InvariantRun(Counting, Initial(argument, direct), actions);
  }
}
