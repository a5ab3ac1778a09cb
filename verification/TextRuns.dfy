/**
 The loop on text: iterations that read from the terminal, the actions they amount
 to, and what btclient prints, which the loop hears as it was meant.
*/
module TextRuns {
  import opened BridgeLoop
  import opened BridgeReports
  import opened Wrappers
  import Framing
  import MessageForms
  import Messages
  import Seqs

  // ----- Iterations on text -----

  /** What happens to the calls a line may lead to. */
  datatype Outcome = Outcome(publishOk: bool, clock: real, uhidOk: bool)

  /** One iteration as the outside world sees it: the text read (none is ""), and the answers to every call. */
  datatype TextTick = TextTick(
    now: real, chunk: string, outcome: nat -> Outcome, modeOk: bool, sendOk: bool, exited: bool)

  /** One line, scanned, with what happens to its calls. */
  function InputOf(line: string, o: Outcome): LineInput {
    LineInput(Messages.Scan(line), o.publishOk, o.clock, o.uhidOk)
  }

  /** The lines of one read, scanned; from is the position of the first among the lines of the read. */
  function Inputs(lines: seq<string>, outcome: nat -> Outcome, first: nat): seq<LineInput>
    decreases |lines|
  {
    if lines == [] then []
    else
      [InputOf(lines[0], outcome(first))] + Inputs(lines[1..], outcome, first + 1)
  }

  function TickOf(t: TextTick, lines: seq<string>): Tick {
    Tick(t.now, Inputs(lines, t.outcome, 0), t.modeOk, t.sendOk, t.exited)
  }

  /** The loop on text, from a state and a buffer. */
  function RunText(s: State, buffer: string, ticks: seq<TextTick>): State
    decreases |ticks|
  {
    if |ticks| == 0 then s
    else
      var f := Framing.Feed(buffer, ticks[0].chunk);
      RunText(AfterTick(s, ticks[0], f.lines), f.buffer, ticks[1..])
  }

  /** One iteration that reads these lines. */
  function AfterTick(s: State, t: TextTick, lines: seq<string>): State {
    Perform(s, TickActions(TickOf(t, lines)))
  }

  function Chunks(ticks: seq<TextTick>): seq<string> {
    seq(|ticks|, i requires 0 <= i < |ticks| => ticks[i].chunk)
  }

  /** The lines of a read: the first, then the rest. */
  lemma InputsCons(s: State, lines: seq<string>, outcome: nat -> Outcome, first: nat)
    requires lines != []
    ensures Perform(s, LinesActions(Inputs(lines, outcome, first))) ==
            Perform(Perform(s, LineActions(InputOf(lines[0], outcome(first)))),
                    LinesActions(Inputs(lines[1..], outcome, first + 1)))
  {
    var input := InputOf(lines[0], outcome(first));
    var inputs := Inputs(lines, outcome, first);
    assert inputs[0] == input && inputs[1..] == Inputs(lines[1..], outcome, first + 1);
    PerformConcat(s, LineActions(input), LinesActions(inputs[1..]));
  }

  /** A stopped loop reads nothing more. */
  lemma {:induction false} RunTextStopped(s: State, buffer: string, ticks: seq<TextTick>)
    requires s.stopped
    ensures RunText(s, buffer, ticks) == s
    decreases |ticks|
  {
    if |ticks| == 0 {
    } else {
      var f := Framing.Feed(buffer, ticks[0].chunk);
      StoppedStays(s, TickActions(TickOf(ticks[0], f.lines)));
      RunTextStopped(s, f.buffer, ticks[1..]);
    }
  }

  lemma FeedAllCons(buffer: string, ticks: seq<TextTick>)
    requires |ticks| > 0
    ensures var f := Framing.Feed(buffer, ticks[0].chunk);
            Framing.FeedAll(buffer, Chunks(ticks)).lines ==
            f.lines + Framing.FeedAll(f.buffer, Chunks(ticks[1..])).lines
  {
    assert Chunks(ticks)[0] == ticks[0].chunk && Chunks(ticks)[1..] == Chunks(ticks[1..]);
  }

  /** The iterations a run on text amounts to. */
  function TicksOf(buffer: string, ticks: seq<TextTick>): seq<Tick>
    decreases |ticks|
  {
    if |ticks| == 0 then []
    else
      var f := Framing.Feed(buffer, ticks[0].chunk);
      [TickOf(ticks[0], f.lines)] + TicksOf(f.buffer, ticks[1..])
  }

  /** A run on text is a run of iterations, and so of actions: what holds of every one of those holds of it. */
  lemma {:induction false} RunTextIsPerform(s: State, buffer: string, ticks: seq<TextTick>)
    ensures RunText(s, buffer, ticks) == RunTicks(s, TicksOf(buffer, ticks))
    ensures RunText(s, buffer, ticks) == Perform(s, RunActions(TicksOf(buffer, ticks)))
    decreases |ticks|
  {
    if |ticks| != 0 {
      var f := Framing.Feed(buffer, ticks[0].chunk);
      RunTextIsPerform(Perform(s, TickActions(TickOf(ticks[0], f.lines))), f.buffer, ticks[1..]);
      assert TicksOf(buffer, ticks)[1..] == TicksOf(f.buffer, ticks[1..]);
    }
    RunIsPerform(s, TicksOf(buffer, ticks));
  }

  // ----- What btclient printed -----

  /** A line btclient prints: one of the four messages behind a prompt, or any other text. */
  datatype Output =
    | Note(prompt: string, report: Messages.Report)
    | Device(prompt: string, peer: string, space: string)
    | Registration(prompt: string, r: Messages.Registration)
    | Callback(prompt: string, c: Messages.Connection)
    | Other(text: string)
  {
    /** What the line says; its prompt starts nothing that looks like a message. */
    function Body(): string {
      match this
      case Note(_, r) => Messages.PrintReport(r)
      case Device(_, peer, space) => MessageForms.PrintDevice(peer, space)
      case Registration(_, r) => MessageForms.PrintRegistration(r)
      case Callback(_, c) => MessageForms.PrintConnection(c)
      case Other(text) => text
    }

    predicate Valid() {
      && (!Other? ==> '\n' !in prompt && MessageForms.Silent(prompt, Body()))
      && (Note? ==> Messages.IsAddress(report.peer))
      && (Device? ==> Messages.IsAddress(peer) && MessageForms.Spaces(space) && '\n' !in space)
      && (Callback? ==> Messages.IsAddress(c.peer))
      && (Other? ==> '\n' !in text)
    }

    function Line(): string {
      if Other? then text else prompt + Body()
    }

    /** What the bridge is meant to find in it. */
    function Meaning(): Messages.Line {
      match this
      case Note(_, r) =>
        var n := Messages.Notification(r.peer, r.handle, Messages.PrintValue(r.value));
        Messages.NOTHING.(notification := Some(n))
      case Device(_, peer, _) => Messages.NOTHING.(device := Some(peer))
      case Registration(_, r) => Messages.NOTHING.(registration := Some(r))
      case Callback(_, c) => Messages.NOTHING.(connection := Some(c))
      case Other(text) => Messages.Scan(text)
    }
  }

  predicate AllValid(outputs: seq<Output>) {
    forall o | o in outputs :: o.Valid()
  }

  lemma OutputScan(o: Output)
    requires o.Valid()
    ensures Messages.Scan(o.Line()) == o.Meaning() && '\n' !in o.Line()
  {
    match o
    case Note(prompt, r) =>
      MessageForms.ScanNotification(prompt, r);
      Messages.PrintReportNoNewline(r);
    case Device(prompt, peer, space) =>
      MessageForms.ScanDevice(prompt, peer, space);
      MessageForms.PlainDevice(peer, space);
    case Registration(prompt, r) =>
      MessageForms.ScanRegistration(prompt, r);
      MessageForms.PlainRegistration(r);
    case Callback(prompt, c) =>
      MessageForms.ScanConnection(prompt, c);
      MessageForms.PlainConnection(c);
    case Other(_) =>
  }

  function Lines(outputs: seq<Output>): seq<string> {
    seq(|outputs|, i requires 0 <= i < |outputs| => outputs[i].Line())
  }

  function Meanings(outputs: seq<Output>): seq<Messages.Line> {
    Seqs.Map(MeaningOf, outputs)
  }

  function MeaningOf(o: Output): Messages.Line {
    o.Meaning()
  }

  /** Lines as a terminal shows them, each with its newline. */
  function Text(lines: seq<string>): string {
    if lines == [] then "" else lines[0] + "\n" + Text(lines[1..])
  }

  lemma {:induction false} SplitText(lines: seq<string>, rest: string)
    requires '\n' !in rest && forall l | l in lines :: '\n' !in l
    ensures Framing.Split(Text(lines) + rest, '\n') == lines + [rest]
  {
    if lines == [] {
      Framing.SplitItem(rest, "", '\n');
      assert Text(lines) + rest == rest && lines + [rest] == [rest];
    } else {
      SplitText(lines[1..], rest);
      Framing.SplitItem(lines[0], Text(lines[1..]) + rest, '\n');
      Seqs.Assoc(lines[0] + "\n", Text(lines[1..]), rest);
      Seqs.Uncons(lines);
      Seqs.Assoc([lines[0]], lines[1..], [rest]);
    }
  }

  /** The lines read are the lines printed, whatever decorates them, if no read cuts a control sequence. */
  lemma LinesRead(buffer: string, outputs: seq<Output>, rest: string, chunks: seq<string>)
    requires '\n' !in buffer && '\n' !in rest && AllValid(outputs)
    requires Framing.CleanCuts(chunks)
    requires buffer + Framing.Sanitise(Seqs.Flatten(chunks)) == Text(Lines(outputs)) + rest
    ensures Framing.FeedAll(buffer, chunks) == Framing.Framed(Lines(outputs), rest)
  {
    forall l | l in Lines(outputs)
      ensures '\n' !in l
    {
      var i :| 0 <= i < |outputs| && Lines(outputs)[i] == l;
      OutputScan(outputs[i]);
    }
    Framing.FeedAllSplits(buffer, chunks);
    Framing.SanitiseAllEsc(chunks);
    SplitText(Lines(outputs), rest);
    var f := Framing.FeedAll(buffer, chunks);
    var a, b := f.lines + [f.buffer], Lines(outputs) + [rest];
    assert a == b;
    assert f.lines == a[..|a| - 1] && f.buffer == a[|a| - 1];
    assert Lines(outputs) == b[..|b| - 1] && rest == b[|b| - 1];
  }

  // ----- What the loop hears -----

  function Scans(lines: seq<string>): seq<Messages.Line> {
    Seqs.Map(Messages.Scan, lines)
  }

  lemma {:induction false} InputsScanned(lines: seq<string>, outcome: nat -> Outcome, first: nat)
    ensures LinesOf(Inputs(lines, outcome, first)) == Scans(lines)
    decreases |lines|
  {
    if lines == [] {
    } else {
      var input := InputOf(lines[0], outcome(first));
      InputsScanned(lines[1..], outcome, first + 1);
      LinesOfCons(input, Inputs(lines[1..], outcome, first + 1));
      Seqs.MapCons(Messages.Scan, lines);
    }
  }

  lemma {:induction false} HeardScans(buffer: string, ticks: seq<TextTick>)
    ensures HeardLines(TicksOf(buffer, ticks)) == Scans(Framing.FeedAll(buffer, Chunks(ticks)).lines)
    decreases |ticks|
  {
    if |ticks| == 0 {
    } else {
      var f := Framing.Feed(buffer, ticks[0].chunk);
      HeardScans(f.buffer, ticks[1..]);
      FeedAllCons(buffer, ticks);
      InputsScanned(f.lines, ticks[0].outcome, 0);
      HeardCons(TickOf(ticks[0], f.lines), TicksOf(f.buffer, ticks[1..]));
      Seqs.MapConcat(Messages.Scan, f.lines, Framing.FeedAll(f.buffer, Chunks(ticks[1..])).lines);
    }
  }

  /**
   Text is heard as it was meant. Over any iterations and in any chunks that cut no
   control sequence, the lines the loop handles are, one by one, the devices,
   registrations, callbacks and notifications printed, each with the values printed,
   and what else was printed is searched as it stands.
  */
  lemma {:induction false} TextIsHeard(buffer: string, outputs: seq<Output>, rest: string, ticks: seq<TextTick>)
    requires '\n' !in buffer && '\n' !in rest && AllValid(outputs)
    requires Framing.CleanCuts(Chunks(ticks))
    requires buffer + Framing.Sanitise(Seqs.Flatten(Chunks(ticks))) == Text(Lines(outputs)) + rest
    ensures HeardLines(TicksOf(buffer, ticks)) == Meanings(outputs)
  {
    LinesRead(buffer, outputs, rest, Chunks(ticks));
    HeardScans(buffer, ticks);
    forall i | 0 <= i < |outputs|
      ensures Scans(Lines(outputs))[i] == Meanings(outputs)[i]
    {
      OutputScan(outputs[i]);
    }
  }
}
