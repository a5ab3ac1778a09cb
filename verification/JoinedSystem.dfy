/**
 The bridge's loop inside the protocol of the id file: the world of the wrapper,
 Floss and the file system, with the loop's state in the bridge process. What the
 loop logs as one event, publishing its id, is here the system calls of
 write_runtime_file, between any two of which the others may move and the bridge
 may crash; and what the loop asks for is asked at a point of the protocol.
*/
module JoinedSystem {
  import opened BridgeFrames
  import opened BridgeLog
  import opened BridgeLoop
  import opened BridgePublication
  import opened Bytes
  import opened Wrappers
  import BridgeModes
  import BridgeSafety
  import Decimal
  import GattFilter
  import Messages
  import Seqs
  import W = Watchdog

  datatype System = System(world: W.World, loop: State)

  datatype Move =
    | Wrapper(pid: nat, zombie: bool)
    | Other(id: int, registers: bool)  // another client of Floss comes or goes
    | Assign(id: int)                  // Floss gives the bridge its id
    | Loop(a: Action)                  // the loop takes one of its actions
    | Open                             // it reads the line that reports its id, and starts to publish it
    | Write(length: nat)
    | Replace
    | Return(clock: real)              // write_runtime_file returns, and the loop goes on with the line
    | Raise(clock: real)               // write_runtime_file raises
    | Leave                            // the loop ends, by a signal or an exception
    | Unlink
    | Exit
    | Crash

  /** The wrapper runs the bridge without arguments. */
  const INITIAL := System(W.INITIAL, Initial(None, false))

  function Phase(u: System): W.Phase {
    u.world.bridge.phase
  }

  /** The loop has control: not one of the calls that publish the id, nor the clean-up. */
  predicate Looping(u: System) {
    Phase(u) == W.Starting || Phase(u) == W.Assigned || Phase(u) == W.Serving
  }

  predicate Leaving(u: System) {
    Phase(u) == W.Closing || Phase(u) == W.Closed || Phase(u) == W.Dead
  }

  function InWorld(u: System, step: W.Step): System {
    u.(world := W.Apply(u.world, step))
  }

  /** A line that reports a registration: the first one is handled by Open to Return, and carries the id assigned. */
  predicate Reports(a: Action) {
    a.Registered? && a.r.status == 0
  }

  /** The loop's action on the line that reports the bridge's id. */
  function Report(u: System, publishOk: bool, clock: real): State
    requires u.world.bridge.id.Some?
  {
    Act(u.loop, Registered(Messages.Registration(0, u.world.bridge.id.value), publishOk, clock))
  }

  /** A move that cannot be made changes nothing. */
  function Apply(u: System, m: Move): System {
    match m
    case Wrapper(pid, zombie) =>
      var v := InWorld(u, W.WrapperStep(pid, zombie));
      if u.world.wrapper.Spawn? then v.(loop := Initial(None, false)) else v
    case Other(id, registers) => InWorld(u, if registers then W.OtherRegisters(id) else W.OtherUnregisters(id))
    case Assign(id) => InWorld(u, W.AssignId(id))
    case Loop(a) => if Looping(u) && (Reports(a) ==> u.loop.registered) then u.(loop := Act(u.loop, a)) else u
    case Open => if u.loop.stopped then u else InWorld(u, W.OpenTemporary)
    case Write(length) => InWorld(u, W.WriteTemporary(length))
    case Replace => InWorld(u, W.Rename)
    case Return(clock) =>
      if Phase(u) == W.Renamed && u.world.bridge.id.Some?
      then InWorld(u, W.RemoveTemporary).(loop := Report(u, true, clock)) else u
    case Raise(clock) =>
      if (Phase(u) == W.Writing || Phase(u) == W.Renamed) && u.world.bridge.id.Some?
      then InWorld(u, if Phase(u) == W.Writing then W.FailToWrite else W.Close).(loop := Report(u, false, clock))
      else u
    case Leave => if Looping(u) then InWorld(u, W.Close) else u
    case Unlink => InWorld(u, W.UnlinkId)
    case Exit => InWorld(u, W.Exit)
    case Crash => InWorld(u, W.Crash)
  }

  function Run(u: System, moves: seq<Move>): System
    decreases |moves|
  {
    if moves == [] then u else Run(Apply(u, moves[0]), moves[1..])
  }

  // ----- What the loop knows, by how far the publication got -----

  predicate LoopFits(phase: W.Phase, id: Option<int>, s: State) {
    && Safe(s) && !s.direct
    && (phase == W.Starting || phase == W.Assigned || phase == W.Writing || phase == W.Renamed ==> !s.registered)
    && (phase == W.Writing || phase == W.Renamed ==> !s.stopped)
    && (phase == W.Serving ==> s.registered && s.clientId == id && PublishedIds(s.log) != [])
  }

  ghost predicate Joined(u: System) {
    W.Invariant(u.world) && LoopFits(Phase(u), u.world.bridge.id, u.loop)
  }

  lemma {:induction false} IdsGrow(log: Log, more: Log)
    requires log <= more
    ensures PublishedIds(log) <= PublishedIds(more)
    decreases |more|
  {
    if |more| == |log| {
      assert more == log;
    } else {
      IdsGrow(log, Front(more));
    }
  }

  /** Only the report of a registration that is news changes what the loop knows of its id. */
  predicate SameId(s: State, t: State) {
    t.registered == s.registered && t.clientId == s.clientId
  }

  lemma IdKept(s: State, a: Action)
    requires Reports(a) ==> s.registered
    ensures SameId(s, Act(s, a))
  {
    ActFrame(s, a);
  }

  lemma LoopKeepsFit(phase: W.Phase, id: Option<int>, s: State, a: Action)
    requires LoopFits(phase, id, s) && (Reports(a) ==> s.registered)
    requires phase == W.Starting || phase == W.Assigned || phase == W.Serving
    ensures LoopFits(phase, id, Act(s, a))
  {
    SafeStep(s, a);
    IdKept(s, a);
    ActFrame(s, a);
    IdsGrow(s.log, Act(s, a).log);
  }

  /** The line that reports the id, handled to its end: the loop holds that id, and has logged its publication. */
  lemma ReturnFits(s: State, id: int, clock: real)
    requires LoopFits(W.Renamed, Some(id), s)
    ensures LoopFits(W.Serving, Some(id), Act(s, Registered(Messages.Registration(0, id), true, clock)))
  {
    var r := Messages.Registration(0, id);
    SafeStep(s, Registered(r, true, clock));
    QueueAllState(Announce(s, id, true), Configuration(s.direct));
    var t := OnRegistered(s, r, true, clock);
    assert t.registered && t.clientId == Some(id) && !t.stopped;
  }

  lemma RaiseFits(s: State, id: int, phase: W.Phase, clock: real)
    requires LoopFits(phase, Some(id), s) && (phase == W.Writing || phase == W.Renamed)
    ensures var t := Act(s, Registered(Messages.Registration(0, id), false, clock));
            LoopFits(W.Closing, Some(id), t) && t.log == s.log
  {
    SafeStep(s, Registered(Messages.Registration(0, id), false, clock));
  }

  lemma {:induction false} JoinedStart(u: System, pid: nat, zombie: bool)
    requires Joined(u) && u.world.wrapper.Spawn?
    ensures Joined(Apply(u, Wrapper(pid, zombie)))
  {
    W.StepInvariant(u.world, W.WrapperStep(pid, zombie));
    SafeInitial(None, false);
  }

  lemma JoinedWorld(u: System, step: W.Step)
    requires Joined(u) && (step.WrapperStep? ==> !u.world.wrapper.Spawn?)
    requires step.OpenTemporary? ==> !u.loop.stopped
    requires !step.RemoveTemporary? && !step.FailToWrite? && (step.Close? ==> Looping(u))
    ensures Joined(InWorld(u, step))
  {
    W.StepInvariant(u.world, step);
  }

  lemma JoinedReturn(u: System, clock: real)
    requires Joined(u) && Phase(u) == W.Renamed && u.world.bridge.id.Some?
    ensures Joined(Apply(u, Return(clock)))
  {
    W.StepInvariant(u.world, W.RemoveTemporary);
    ReturnFits(u.loop, u.world.bridge.id.value, clock);
  }

  lemma JoinedRaise(u: System, clock: real)
    requires Joined(u) && (Phase(u) == W.Writing || Phase(u) == W.Renamed) && u.world.bridge.id.Some?
    ensures Joined(Apply(u, Raise(clock)))
  {
    W.StepInvariant(u.world, if Phase(u) == W.Writing then W.FailToWrite else W.Close);
    RaiseFits(u.loop, u.world.bridge.id.value, Phase(u), clock);
  }

  lemma {:induction false} JoinedStep(u: System, m: Move)
    requires Joined(u)
    ensures Joined(Apply(u, m))
  {
    match m
    case Wrapper(pid, zombie) =>
      if u.world.wrapper.Spawn? {
        JoinedStart(u, pid, zombie);
      } else {
        JoinedWorld(u, W.WrapperStep(pid, zombie));
      }
    case Other(id, registers) => JoinedWorld(u, if registers then W.OtherRegisters(id) else W.OtherUnregisters(id));
    case Assign(id) => JoinedWorld(u, W.AssignId(id));
    case Loop(a) =>
      if Looping(u) && (Reports(a) ==> u.loop.registered) {
        LoopKeepsFit(Phase(u), u.world.bridge.id, u.loop, a);
      }
    case Open =>
      if !u.loop.stopped {
        JoinedWorld(u, W.OpenTemporary);
      }
    case Write(length) => JoinedWorld(u, W.WriteTemporary(length));
    case Replace => JoinedWorld(u, W.Rename);
    case Return(clock) =>
      if Phase(u) == W.Renamed && u.world.bridge.id.Some? {
        JoinedReturn(u, clock);
      }
    case Raise(clock) =>
      if (Phase(u) == W.Writing || Phase(u) == W.Renamed) && u.world.bridge.id.Some? {
        JoinedRaise(u, clock);
      }
    case Leave =>
      if Looping(u) {
        JoinedWorld(u, W.Close);
      }
    case Unlink => JoinedWorld(u, W.UnlinkId);
    case Exit => JoinedWorld(u, W.Exit);
    case Crash => JoinedWorld(u, W.Crash);
  }

  lemma {:induction false} JoinedRun(u: System, moves: seq<Move>)
    requires Joined(u)
    ensures Joined(Run(u, moves))
    decreases |moves|
  {
    if moves == [] {
    } else {
      JoinedStep(u, moves[0]);
      JoinedRun(Apply(u, moves[0]), moves[1..]);
    }
  }

  lemma {:induction false} JoinedInitial()
    ensures Joined(INITIAL)
  {
    SafeInitial(None, false);
  }

  // ----- What a connection request meets -----

  /** Some request of the bridge's has been queued or sent. */
  predicate Requested(s: State) {
    exists k | 0 <= k < |s.log| :: IsConnect(s.log[k])
  }

  /**
   The id file holds the loop's client id in full, and the filter, reading it, lets
   that client open on every address and blocks every other native on every address,
   for an id that is not negative and that a C int holds.
  */
  ghost predicate Admitted(u: System) {
    && u.loop.clientId.Some?
    && var c, file := u.loop.clientId.value, W.FileContent(u.world);
    && file == Some(Decimal.PrintInt(c))
    && (0 <= c < GattFilter.INT_LIMIT ==>
          && (forall a :: !GattFilter.HotfixBlocks(GattFilter.BridgeClientId(file), GattFilter.Low(c), a))
          && (forall client, a :: GattFilter.IsNative(client) && client != GattFilter.Low(c) ==>
                GattFilter.HotfixBlocks(GattFilter.BridgeClientId(file), client, a)))
  }

  lemma RequestMeansServing(u: System)
    requires Joined(u) && Requested(u.loop) && !Leaving(u)
    ensures Phase(u) == W.Serving
  {
    var k :| 0 <= k < |u.loop.log| && IsConnect(u.loop.log[k]);
    GatedMeans(u.loop.log, k);
    IdsGrow(u.loop.log[..k], u.loop.log);
  }

  lemma ServingMeansAdmitted(u: System)
    requires Joined(u) && Phase(u) == W.Serving
    ensures Admitted(u)
  {
    GattFilter.PublishedIdRead(u.loop.clientId.value);
  }

  /**
   In every interleaving: from the bridge's first connection request on, until it
   starts to leave, the file holds the id of the loop that made the request, and the
   filter admits that client and blocks the other natives.
  */
  lemma {:induction false} AdmittedUntilLeaving(moves: seq<Move>)
    ensures var u := Run(INITIAL, moves); Requested(u.loop) && !Leaving(u) ==> Admitted(u)
  {
    var u := Run(INITIAL, moves);
    JoinedInitial();
    JoinedRun(INITIAL, moves);
    if Requested(u.loop) && !Leaving(u) {
      RequestMeansServing(u);
      ServingMeansAdmitted(u);
    }
  }

  /** The events a move adds to the loop's log include a connection request, queued or sent. */
  predicate Requests(u: System, v: System) {
    exists k | |u.loop.log| <= k < |v.loop.log| :: IsConnect(v.loop.log[k])
  }

  lemma LoopUnmoved(u: System, m: Move)
    requires !m.Wrapper? && !m.Loop? && !m.Return? && !m.Raise?
    ensures Apply(u, m).loop == u.loop
  {
  }

  lemma StartRequestsNothing(u: System, m: Move)
    requires Joined(u) && m.Wrapper?
    ensures !Requests(u, Apply(u, m))
  {
    FirstLog(None, false);
  }

  lemma RaiseRequestsNothing(u: System, m: Move)
    requires Joined(u) && m.Raise?
    ensures !Requests(u, Apply(u, m))
  {
    if (Phase(u) == W.Writing || Phase(u) == W.Renamed) && u.world.bridge.id.Some? {
      RaiseFits(u.loop, u.world.bridge.id.value, Phase(u), m.clock);
    }
  }

  lemma RequestsInLoop(u: System, m: Move)
    requires Joined(u)
    ensures Requests(u, Apply(u, m)) ==>
              !Leaving(Apply(u, m)) && W.FileContent(u.world) == W.FileContent(Apply(u, m).world)
  {
    if m.Raise? {
      RaiseRequestsNothing(u, m);
    } else if m.Wrapper? {
      StartRequestsNothing(u, m);
    } else if !m.Loop? && !m.Return? {
      LoopUnmoved(u, m);
    }
  }

  /**
   In every interleaving: at any move in which the loop queues or sends a
   client-connect, the file holds the loop's id both before and after the move, and
   the filter admits that client and blocks the other natives.
  */
  lemma {:induction false} RequestsMeetFilter(moves: seq<Move>, m: Move)
    ensures var u := Run(INITIAL, moves);
            var v := Apply(u, m);
            Requests(u, v) ==> Admitted(v) && W.FileContent(u.world) == W.FileContent(v.world)
  {
    var u := Run(INITIAL, moves);
    var v := Apply(u, m);
    JoinedInitial();
    JoinedRun(INITIAL, moves);
    JoinedStep(u, m);
    RequestsInLoop(u, m);
    if Requests(u, v) {
      RequestMeansServing(v);
      ServingMeansAdmitted(v);
    }
  }

  /**
   In every interleaving: no UnregisterClient has named the client of the bridge then
   alive, and a loop that serves holds an id that Floss still knows.
  */
  lemma {:induction false} LoopNeverUnregistered(moves: seq<Move>)
    ensures var u := Run(INITIAL, moves);
            && (forall c | c in u.world.calls :: c.live != Some(c.target))
            && (Phase(u) == W.Serving ==> u.loop.clientId.Some? && u.loop.clientId.value in u.world.clients)
  {
    JoinedInitial();
    JoinedRun(INITIAL, moves);
  }

  /** When the loop ends, the bridge unlinks the id file and is gone, and the loop has done nothing more. */
  lemma LoopLeaves(u: System)
    requires Looping(u)
    ensures var v := Run(u, [Leave] + [Unlink, Exit]);
            Phase(v) == W.Dead && W.FileContent(v.world) == None && v.loop == u.loop
  {
    RunConcat(u, [Leave], [Unlink, Exit]);
    RunOne(u, Leave);
    RunTwo(Run(u, [Leave]), Unlink, Exit);
  }

  // ----- The joined system is made of both -----

  lemma WorldStep(u: System, m: Move) returns (steps: seq<W.Step>)
    ensures Apply(u, m).world == W.Run(u.world, steps)
  {
    if Apply(u, m).world == u.world {
      steps := [];
    } else {
      var step :=
        match m
        case Wrapper(pid, zombie) => W.WrapperStep(pid, zombie)
        case Other(id, registers) => if registers then W.OtherRegisters(id) else W.OtherUnregisters(id)
        case Assign(id) => W.AssignId(id)
        case Open => W.OpenTemporary
        case Write(length) => W.WriteTemporary(length)
        case Replace => W.Rename
        case Return(_) => W.RemoveTemporary
        case Raise(_) => if Phase(u) == W.Writing then W.FailToWrite else W.Close
        case Leave => W.Close
        case Unlink => W.UnlinkId
        case Exit => W.Exit
        case _ => W.Crash;
      steps := [step];
      assert steps[1..] == [];
      assert W.Run(u.world, steps) == W.Run(W.Apply(u.world, step), []);
    }
  }

  /** Every run of the joined system is a run of the protocol. */
  lemma {:induction false} WorldIsRun(u: System, moves: seq<Move>)
    ensures exists steps :: Run(u, moves).world == W.Run(u.world, steps)
    decreases |moves|
  {
    if moves == [] {
      assert W.Run(u.world, []) == u.world;
    } else {
      var v := Apply(u, moves[0]);
      var first := WorldStep(u, moves[0]);
      WorldIsRun(v, moves[1..]);
      var rest :| Run(v, moves[1..]).world == W.Run(v.world, rest);
      W.RunConcat(u.world, first, rest);
    }
  }

  predicate IsLoopRun(s: State, actions: seq<Action>) {
    s == Perform(Initial(None, false), actions)
  }

  lemma LoopStep(u: System, m: Move, actions: seq<Action>) returns (more: seq<Action>)
    requires IsLoopRun(u.loop, actions)
    ensures IsLoopRun(Apply(u, m).loop, more)
  {
    var v := Apply(u, m);
    if v.loop == u.loop {
      more := actions;
    } else if m.Wrapper? {
      more := [];
    } else {
      var id := if u.world.bridge.id.Some? then u.world.bridge.id.value else 0;
      var a :=
        match m
        case Loop(b) => b
        case Return(clock) => Registered(Messages.Registration(0, id), true, clock)
        case Raise(clock) => Registered(Messages.Registration(0, id), false, clock)
        case _ => SetUp;
      more := actions + [a];
      PerformConcat(Initial(None, false), actions, [a]);
      assert [a][1..] == [];
    }
  }

  /** In every run of the joined system the loop is in a state that a run of the loop alone reaches. */
  lemma {:induction false} LoopIsRun(u: System, moves: seq<Move>, actions: seq<Action>)
    requires IsLoopRun(u.loop, actions)
    ensures exists more :: IsLoopRun(Run(u, moves).loop, more)
    decreases |moves|
  {
    if moves == [] {
      assert IsLoopRun(Run(u, moves).loop, actions);
    } else {
      var v := Apply(u, moves[0]);
      var more := LoopStep(u, moves[0], actions);
      LoopIsRun(v, moves[1..], more);
      var all :| IsLoopRun(Run(v, moves[1..]).loop, all);
      assert IsLoopRun(Run(u, moves).loop, all);
    }
  }

  // ----- A run in which a request is sent -----

  lemma {:induction false} RunConcat(u: System, a: seq<Move>, b: seq<Move>)
    ensures Run(u, a + b) == Run(Run(u, a), b)
    decreases |a|
  {
    if a == [] {
      assert a + b == b;
    } else {
      RunConcat(Apply(u, a[0]), a[1..], b);
      Seqs.TailConcat(a, b);
    }
  }

  lemma RunTwo(u: System, a: Move, b: Move)
    ensures Run(u, [a, b]) == Apply(Apply(u, a), b)
  {
    assert [a, b][1..] == [b] && [b][1..] == [];
    assert Run(u, [a, b]) == Run(Apply(u, a), [b]);
    assert Run(Apply(u, a), [b]) == Run(Apply(Apply(u, a), b), []);
  }

  function AsMoves(actions: seq<Action>): seq<Move> {
    seq(|actions|, i requires 0 <= i < |actions| => Loop(actions[i]))
  }

  /** While the loop has control and no registration is reported, its actions are moves. */
  lemma {:induction false} LoopRuns(u: System, actions: seq<Action>)
    requires Looping(u) && forall a | a in actions :: !Reports(a)
    ensures Run(u, AsMoves(actions)) == u.(loop := Perform(u.loop, actions))
    decreases |actions|
  {
    if actions == [] {
    } else {
      assert actions[0] in actions;
      assert AsMoves(actions)[1..] == AsMoves(actions[1..]);
      LoopRuns(Apply(u, Loop(actions[0])), actions[1..]);
    }
  }

  lemma {:induction false} DrainSends(s: State)
    ensures forall a | a in Drain(s) :: a.Send?
    decreases |s.queue|
  {
    if s.queue == [] {
    } else {
      DrainSends(OnSend(s, s.nextCommandAt, true));
    }
  }

  /** The bridge is spawned and finds its device before it is registered. */
  lemma FindingRun(peer: string) returns (moves: seq<Move>)
    ensures var u := Run(INITIAL, moves);
            && u.world == W.World(map[], W.Bridge(1, W.Starting, None), W.Check, {}, [], [])
            && u.loop == Act(Initial(None, false), Found(peer))
  {
    var go := Wrapper(1, false);
    var w2 := System(W.World(map[], W.Bridge(1, W.Starting, None), W.Check, {}, [], []), Initial(None, false));
    RunTwo(INITIAL, go, go);
    assert Run(INITIAL, [go, go]) == w2;
    RunOne(w2, Loop(Found(peer)));
    moves := [go, go] + [Loop(Found(peer))];
    RunConcat(INITIAL, [go, go], [Loop(Found(peer))]);
  }

  lemma RunOne(u: System, m: Move)
    ensures Run(u, [m]) == Apply(u, m)
  {
    assert [m][1..] == [];
  }

  /** Moves that only the world makes are its steps. */
  lemma AssignOpen(u: System, id: nat)
    requires u.world == W.World(map[], W.Bridge(1, W.Starting, None), W.Check, {}, [], []) && !u.loop.stopped
    ensures Run(u, [Assign(id), Open]) == u.(world := W.Stage(map[W.Temporary(1) := ""], W.Writing, id))
  {
    RunTwo(u, Assign(id), Open);
    W.AssigningRun(u.world, id);
    W.RunTwo(u.world, W.AssignId(id), W.OpenTemporary);
  }

  lemma WriteReplace(u: System, id: nat)
    requires u.world == W.Stage(map[W.Temporary(1) := ""], W.Writing, id)
    ensures var text := Decimal.Print(id);
            Run(u, [Write(|text|), Replace]) == u.(world := W.Stage(map[W.IdFile := text], W.Renamed, id))
  {
    var text := Decimal.Print(id);
    RunTwo(u, Write(|text|), Replace);
    W.WritingRun(id);
    W.RunTwo(u.world, W.WriteTemporary(|text|), W.Rename);
  }

  lemma ReturnServes(u: System, id: nat)
    requires u.world == W.Stage(map[W.IdFile := Decimal.Print(id)], W.Renamed, id)
    ensures Run(u, [Return(0.0)]) ==
            System(W.Stage(map[W.IdFile := Decimal.Print(id)], W.Serving, id),
                   Act(u.loop, Registered(Messages.Registration(0, id), true, 0.0)))
  {
    RunOne(u, Return(0.0));
    W.ServingStep(id);
  }

  /** From there the id is assigned and published, call by call. */
  lemma PublishingRun(u: System, id: nat) returns (moves: seq<Move>)
    requires u.world == W.World(map[], W.Bridge(1, W.Starting, None), W.Check, {}, [], []) && !u.loop.stopped
    ensures var v := Run(u, moves);
            && v.world == W.Stage(map[W.IdFile := Decimal.Print(id)], W.Serving, id)
            && v.loop == Act(u.loop, Registered(Messages.Registration(0, id), true, 0.0))
  {
    var text := Decimal.Print(id);
    var a, b, c := [Assign(id), Open], [Write(|text|), Replace], [Return(0.0)];
    moves := a + b + c;
    RunConcat(u, a + b, c);
    RunConcat(u, a, b);
    AssignOpen(u, id);
    WriteReplace(Run(u, a), id);
    ReturnServes(Run(Run(u, a), b), id);
  }

  lemma {:induction false} QueuedIsCommand(log: Log, k: nat, c: Command)
    requires k < |log| && log[k] == Queued(c)
    ensures c in QueuedCommands(log)
  {
    if k == |log| - 1 {
    } else {
      QueuedIsCommand(Front(log), k, c);
    }
  }

  ghost predicate HasSent(s: State, c: Command) {
    exists i, at | 0 <= i < |s.log| :: s.log[i] == Sent(c, at)
  }

  /** A drained loop has sent whatever it had queued. */
  lemma {:induction false} DrainedIsSent(s: State, c: Command, k: nat)
    requires BridgeSafety.Fifo(s) && !s.stopped && k < |s.log| && s.log[k] == Queued(c)
    ensures HasSent(Perform(s, Drain(s)), c)
  {
    var t := Perform(s, Drain(s));
    DrainEmpties(s);
    BridgeSafety.FifoRun(s, Drain(s));
    QueuedIsCommand(s.log, k, c);
    DrainKeepsQueued(s);
    assert SentCommands(t.log) + [] == SentCommands(t.log);
    BridgeModes.CommandsAreEvents(t.log, c);
    var i :| 0 <= i < |t.log| && t.log[i].Sent? && t.log[i].command == c;
    assert t.log[i] == Sent(c, t.log[i].at);
  }

  lemma {:induction false} DrainKeepsQueued(s: State)
    requires !s.stopped
    ensures QueuedCommands(Perform(s, Drain(s)).log) == QueuedCommands(s.log)
    decreases |s.queue|
  {
    if s.queue == [] {
    } else {
      var t := OnSend(s, s.nextCommandAt, true);
      Snoc(s.log, Sent(s.queue[0], s.nextCommandAt));
      DrainKeepsQueued(t);
      assert Drain(s)[1..] == Drain(t);
      assert Act(s, Drain(s)[0]) == t;
    }
  }

  lemma ConnectQueued(peer: string, id: nat)
    ensures var s := Act(Act(Initial(None, false), Found(peer)), Registered(Messages.Registration(0, id), true, 0.0));
            && !s.stopped && s.log != [] && Last(s.log) == Queued(ClientConnect(Messages.Upper(peer)))
  {
    var s0 := Initial(None, false);
    var s1 := Act(s0, Found(peer));
    assert s1.address == Some(Messages.Upper(peer)) && !s1.stopped && !s1.registered;
    QueueAllState(Announce(s1, id, true), Configuration(false));
  }

  /** A system that serves with that request queued last can go on to send it. */
  lemma SendingRun(v: System, c: Command) returns (moves: seq<Move>)
    requires Phase(v) == W.Serving && !v.loop.stopped && BridgeSafety.Fifo(v.loop)
    requires v.loop.log != [] && Last(v.loop.log) == Queued(c)
    ensures var e := Run(v, moves);
            && e.world == v.world && e.loop.clientId == v.loop.clientId
            && HasSent(e.loop, c)
  {
    moves := AsMoves(Drain(v.loop));
    DrainSends(v.loop);
    DrainEmpties(v.loop);
    LoopRuns(v, Drain(v.loop));
    DrainedIsSent(v.loop, c, |v.loop.log| - 1);
  }

  lemma ReportedFifo(peer: string, r: Messages.Registration)
    ensures BridgeSafety.Fifo(Act(Act(Initial(None, false), Found(peer)), Registered(r, true, 0.0)))
  {
    var s0 := Initial(None, false);
    BridgeSafety.FifoInitial(None, false);
    BridgeSafety.FifoStep(s0, Found(peer));
    BridgeSafety.FifoStep(Act(s0, Found(peer)), Registered(r, true, 0.0));
  }

  lemma FoundGoesOn(peer: string)
    ensures !Act(Initial(None, false), Found(peer)).stopped
  {
    CandidateShape(Initial(None, false), Messages.Upper(peer));
  }

  lemma ServingId(moves: seq<Move>)
    ensures var u := Run(INITIAL, moves); Phase(u) == W.Serving ==> u.loop.clientId == u.world.bridge.id
  {
    JoinedInitial();
    JoinedRun(INITIAL, moves);
  }

  /** The guarantees above are not kept for want of requests: for every peer and id a run sends one. */
  lemma {:induction false} RequestIsSent(peer: string, id: nat)
    ensures exists moves ::
              var u := Run(INITIAL, moves);
              && Phase(u) == W.Serving && u.loop.clientId == Some(id)
              && HasSent(u.loop, ClientConnect(Messages.Upper(peer)))
  {
    var finding := FindingRun(peer);
    var u := Run(INITIAL, finding);
    FoundGoesOn(peer);
    var publishing := PublishingRun(u, id);
    var v := Run(u, publishing);
    ConnectQueued(peer, id);
    ReportedFifo(peer, Messages.Registration(0, id));
    var sending := SendingRun(v, ClientConnect(Messages.Upper(peer)));
    var moves := finding + (publishing + sending);
    RunConcat(INITIAL, finding, publishing + sending);
    RunConcat(u, publishing, sending);
    ServingId(moves);
  }
}
