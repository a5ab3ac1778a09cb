/**
 What one printed line brings about, from its text on the terminal to the state of
 the loop: a registration, and a connection callback.
*/
module LineEffects {
  import opened BridgeFrames
  import opened BridgeInputs
  import opened BridgeLog
  import opened BridgeLoop
  import opened MessageForms
  import opened TerminalText
  import opened TextRuns
  import opened Wrappers
  import Framing
  import Messages
  import Seqs

  lemma OneLine(line: string)
    requires Plain(line)
    ensures Framing.Feed("", line + "\r\n") == Framing.Framed([line], "")
  {
    var chunk := line + "\r\n";
    assert Ended([line]) == line + ("\r\n" + Ended([line][1..]));
    assert Ended([line][1..]) == "" && "\r\n" + "" == "\r\n";
    assert [chunk][1..] == [];
    assert Seqs.Flatten([chunk]) == chunk + Seqs.Flatten<char>([]) == chunk;
    assert Ended([line]) + "" == chunk;
    TerminalLines([line], "", [chunk]);
    assert Framing.FeedAll(Framing.Feed("", chunk).buffer, [chunk][1..]).lines == [];
    assert Framing.Feed("", chunk).lines + [] == Framing.Feed("", chunk).lines;
  }

  lemma OneLineActions(l: LineInput)
    ensures LinesActions([l]) == LineActions(l)
  {
    assert [l][1..] == [];
    assert LineActions(l) + [] == LineActions(l);
  }

  lemma OneInputs(line: string, t: TextTick)
    ensures Inputs([line], t.outcome, 0) == [InputOf(line, t.outcome(0))]
  {
    assert [line][1..] == [];
    assert Inputs([line][1..], t.outcome, 1) == [];
  }

  lemma OneTick(s: State, buffer: string, t: TextTick)
    ensures RunText(s, buffer, [t]) == AfterTick(s, t, Framing.Feed(buffer, t.chunk).lines)
  {
    assert [t][1..] == [];
  }

  /** An iteration that reads one line, with the line end of a terminal. */
  lemma ReadsLine(s: State, line: string, t: TextTick)
    requires Plain(line) && t.chunk == line + "\r\n"
    ensures RunText(s, "", [t]) ==
            Perform(Perform(s, LineActions(InputOf(line, t.outcome(0)))), LoopActions(TickOf(t, [line])))
  {
    OneLine(line);
    OneTick(s, "", t);
    OneInputs(line, t);
    OneLineActions(InputOf(line, t.outcome(0)));
    PerformConcat(s, LineActions(InputOf(line, t.outcome(0))), LoopActions(TickOf(t, [line])));
  }

  /** The end of an iteration leaves connection and registration as they are. */
  predicate Settled(s: State, e: State) {
    && e.connected == s.connected && e.registered == s.registered && e.clientId == s.clientId
    && (s.connected ==> e.address == s.address) && s.log <= e.log
  }

  lemma SettledAct(s: State, a: Action)
    requires !a.Found? && !a.Registered? && !a.Connection?
    ensures Settled(s, Act(s, a))
  {
    ActFrame(s, a);
  }

  lemma {:induction false} SettledRun(s: State, actions: seq<Action>)
    requires forall a | a in actions :: !a.Found? && !a.Registered? && !a.Connection?
    ensures Settled(s, Perform(s, actions))
    decreases |actions|
  {
    if actions == [] {
    } else {
      SettledAct(s, actions[0]);
      SettledRun(Act(s, actions[0]), actions[1..]);
    }
  }

  lemma LoopSettles(s: State, t: Tick)
    ensures Settled(s, Perform(s, LoopActions(t)))
  {
    SettledRun(s, LoopActions(t));
  }

  lemma RegistrationLine(prompt: string, r: Messages.Registration, o: Outcome)
    requires Silent(prompt, PrintRegistration(r))
    ensures LineActions(InputOf(prompt + PrintRegistration(r), o)) == [Registered(r, o.publishOk, o.clock)]
  {
    ScanRegistration(prompt, r);
  }

  lemma CallbackLine(prompt: string, c: Messages.Connection, o: Outcome)
    requires Messages.IsAddress(c.peer) && Silent(prompt, PrintConnection(c))
    ensures LineActions(InputOf(prompt + PrintConnection(c), o)) == [Connection(c)]
  {
    ScanConnection(prompt, c);
  }

  /**
   The text of a registration that succeeds, read behind any silent prompt by a running
   loop that is not registered, leaves it registered with the client id printed, which,
   except by the direct variant, it publishes at once.
  */
  lemma RegistrationRead(s: State, prompt: string, r: Messages.Registration, t: TextTick)
    requires !s.stopped && !s.registered && r.status == 0 && t.outcome(0).publishOk
    requires Plain(prompt) && Silent(prompt, PrintRegistration(r))
    requires t.chunk == (prompt + PrintRegistration(r)) + "\r\n"
    ensures var e := RunText(s, "", [t]);
            && e.registered && e.clientId == Some(r.clientId)
            && (!s.direct ==> |s.log| < |e.log| && e.log[..|s.log|] == s.log && e.log[|s.log|] == Published(r.clientId))
  {
    var line := prompt + PrintRegistration(r);
    var a := Registered(r, true, t.outcome(0).clock);
    PlainRegistration(r);
    RegistrationLine(prompt, r, t.outcome(0));
    ReadsLine(s, line, t);
    PerformOne(s, a);
    RegistrationEffect(s, r, t.outcome(0).clock);
    LoopSettles(Act(s, a), TickOf(t, [line]));
  }

  lemma RegistrationEffect(s: State, r: Messages.Registration, clock: real)
    requires !s.stopped && !s.registered && r.status == 0
    ensures var t := Act(s, Registered(r, true, clock));
            && t.registered && t.clientId == Some(r.clientId)
            && (!s.direct ==> |s.log| < |t.log| && t.log[..|s.log|] == s.log && t.log[|s.log|] == Published(r.clientId))
  {
    QueueAllState(Announce(s, r.clientId, true), Configuration(s.direct));
  }

  lemma CallbackEffect(s: State, c: Messages.Connection)
    requires !s.stopped && Messages.Upper(c.peer) in s.addresses
    ensures var t := Act(s, Connection(c));
            var peer, up := Messages.Upper(c.peer), c.connected && c.status == 0;
            && t.log == s.log + [Event.Callback(peer, up)]
            && (up ==> t.connected && t.address == Some(peer))
            && (!up && s.address == Some(peer) ==> !t.connected)
  {
    CallbackShape(s, Messages.Upper(c.peer), c.connected && c.status == 0);
  }

  /**
   The text of a callback for an address the loop knows, read behind any silent prompt.
   A success leaves it connected to that address; a failure of the address it was
   connected to leaves it disconnected.
  */
  lemma CallbackRead(s: State, prompt: string, c: Messages.Connection, t: TextTick)
    requires !s.stopped && Messages.IsAddress(c.peer) && Messages.Upper(c.peer) in s.addresses
    requires Plain(prompt) && Silent(prompt, PrintConnection(c))
    requires t.chunk == (prompt + PrintConnection(c)) + "\r\n"
    ensures var e := RunText(s, "", [t]);
            var peer, up := Messages.Upper(c.peer), c.connected && c.status == 0;
            && |s.log| < |e.log| && e.log[|s.log|] == Event.Callback(peer, up)
            && (up ==> e.connected && e.address == Some(peer))
            && (!up && s.address == Some(peer) ==> !e.connected)
  {
    var line := prompt + PrintConnection(c);
    PlainConnection(c);
    CallbackLine(prompt, c, t.outcome(0));
    ReadsLine(s, line, t);
    PerformOne(s, Connection(c));
    CallbackEffect(s, c);
    LoopSettles(Act(s, Connection(c)), TickOf(t, [line]));
  }
}
