/**
 The protocol between the wrapper run-duet5-bridge.sh, the bridge it spawns, and
 Floss, over the file that holds the bridge's client id. Every step below is one
 system call or one registration event; a run is any interleaving of them, and
 the bridge may crash between any two.

 One wrapper runs, and Floss gives each bridge process one client id.
*/
module Watchdog {
  import opened Bytes
  import opened Wrappers
  import Decimal
  import GattFilter
  import Seqs

  /** The native clients the wrapper unregisters, in the order of the shell's list. */
  const IDS: seq<nat> := [43, 45, 46, 48, 50]

  /** The id file, and the temporary files processes write before renaming them to it. */
  datatype Path = IdFile | Temporary(pid: nat)

  /** What a bridge process is doing with the file. */
  datatype Phase =
    | Starting      // no client id yet
    | Assigned      // Floss has assigned the id
    | Writing       // the temporary file exists
    | Renamed       // the temporary file has replaced the id file
    | Serving       // the id is published: connections may be requested
    | Closing       // leaving, by the end of the loop or by an exception
    | Closed        // the id file has been unlinked
    | Dead

  datatype Bridge = Bridge(pid: nat, phase: Phase, id: Option<int>) {
    predicate Live() {
      phase != Dead
    }
  }

  /** Where the wrapper is; bridgeId is its shell variable. */
  datatype Wrapper =
    | Remove
    | Spawn
    | Check
    | Test
    | Read
    | Decide(bridgeId: string)
    | Sweep(bridgeId: string, next: nat, issued: seq<nat>)
    | Wait

  /** One UnregisterClient call, with the id of the bridge alive at that moment. */
  datatype Call = Call(target: nat, live: Option<int>)

  datatype World = World(
    files: map<Path, string>,
    bridge: Bridge,
    wrapper: Wrapper,
    clients: set<int>,
    calls: seq<Call>,
    rounds: seq<(string, seq<nat>)>)

  datatype Step =
    | WrapperStep(pid: nat, zombie: bool)  // pid for a spawn; zombie: kill -0 still finds a dead child
    | AssignId(id: int)
    | OpenTemporary
    | WriteTemporary(length: nat)
    | Rename
    | RemoveTemporary
    | FailToWrite
    | Close
    | UnlinkId
    | Exit
    | Crash
    | OtherRegisters(id: int)
    | OtherUnregisters(id: int)

  const INITIAL := World(map[], Bridge(0, Dead, None), Remove, {}, [], [])

  function LiveId(w: World): Option<int> {
    if w.bridge.Live() then w.bridge.id else None
  }

  function InPhase(w: World, phase: Phase): World {
    w.(bridge := w.bridge.(phase := phase))
  }

  /** case "$bridge_id" in ''|*[!0-9]*) */
  predicate IsNumeric(s: string) {
    s != "" && Decimal.AllDigits(s)
  }

  /** One turn of the for loop over IDS. */
  function SweepOne(w: World, bridgeId: string, next: nat, issued: seq<nat>): World
    requires next < |IDS|
  {
    var id := IDS[next];
    if Decimal.Print(id) == bridgeId then w.(wrapper := Sweep(bridgeId, next + 1, issued))
    else
      w.(wrapper := Sweep(bridgeId, next + 1, issued + [id]),
         calls := w.calls + [Call(id, LiveId(w))],
         clients := w.clients - {id})
  }

  function StepWrapper(w: World, pid: nat, zombie: bool): World {
    match w.wrapper
    case Remove => w.(files := w.files - {IdFile}, wrapper := Spawn)
    case Spawn => w.(bridge := Bridge(pid, Starting, None), wrapper := Check)
    case Check => if w.bridge.Live() || zombie then w.(wrapper := Test) else w.(wrapper := Wait)
    case Test => w.(wrapper := if IdFile in w.files then Read else Decide(""))
    case Read => w.(wrapper := Decide(if IdFile in w.files then w.files[IdFile] else ""))
    case Decide(b) => w.(wrapper := if IsNumeric(b) then Sweep(b, 0, []) else Check)
    case Sweep(b, next, issued) =>
      if next < |IDS| then SweepOne(w, b, next, issued)
      else w.(wrapper := Check, rounds := w.rounds + [(b, issued)])
    case Wait => if w.bridge.Live() then w else w.(wrapper := Remove)
  }

  /** write_runtime_file and the clean-up in main, call by call; any step the bridge cannot take changes nothing. */
  function StepBridge(w: World, step: Step): World {
    var b := w.bridge;
    var temp := Temporary(b.pid);
    match step
    case AssignId(id) =>
      if b.phase == Starting && id !in w.clients
      then w.(bridge := b.(phase := Assigned, id := Some(id)), clients := w.clients + {id}) else w
    case OpenTemporary =>
      if b.phase == Assigned then InPhase(w.(files := w.files[temp := ""]), Writing) else w
    case WriteTemporary(n) =>
      if b.phase == Writing && b.id.Some? && n <= |Decimal.PrintInt(b.id.value)|
      then w.(files := w.files[temp := Decimal.PrintInt(b.id.value)[..n]]) else w
    case Rename =>
      if b.phase == Writing && b.id.Some? && temp in w.files && w.files[temp] == Decimal.PrintInt(b.id.value)
      then InPhase(w.(files := w.files[IdFile := w.files[temp]] - {temp}), Renamed) else w
    case RemoveTemporary => if b.phase == Renamed then InPhase(w.(files := w.files - {temp}), Serving) else w
    case FailToWrite => if b.phase == Writing then InPhase(w.(files := w.files - {temp}), Closing) else w
    case Close => if b.phase != Closed && b.phase != Dead && b.phase != Writing then InPhase(w, Closing) else w
    case UnlinkId => if b.phase == Closing then InPhase(w.(files := w.files - {IdFile}), Closed) else w
    case Exit => if b.phase == Closed then InPhase(w, Dead) else w
    case Crash => InPhase(w, Dead)
    case _ => w
  }

  function Apply(w: World, step: Step): World {
    match step
    case WrapperStep(pid, zombie) => StepWrapper(w, pid, zombie)
    case OtherRegisters(id) => w.(clients := w.clients + {id})
    case OtherUnregisters(id) => if LiveId(w) == Some(id) then w else w.(clients := w.clients - {id})
    case _ => StepBridge(w, step)
  }

  function Run(w: World, steps: seq<Step>): World
    decreases |steps|
  {
    if steps == [] then w else Run(Apply(w, steps[0]), steps[1..])
  }

  // ----- The sweep as the shell runs it -----

  /** The ids of the list that are not the bridge's. */
  function Others(bridgeId: string, n: nat): seq<nat>
    requires n <= |IDS|
  {
    if n == 0 then []
    else if Decimal.Print(IDS[n - 1]) == bridgeId then Others(bridgeId, n - 1)
    else Others(bridgeId, n - 1) + [IDS[n - 1]]
  }

  /** for id in $IDS; do ... done */
  method SweepLoop(bridgeId: string) returns (issued: seq<nat>)
    ensures issued == Others(bridgeId, |IDS|)
  {
    issued := [];
    for i := 0 to |IDS|
      invariant issued == Others(bridgeId, i)
    {
      if bridgeId != "" && Decimal.Print(IDS[i]) == bridgeId {
        continue;
      }
      issued := issued + [IDS[i]];
    }
  }

  function WrapperSteps(n: nat): seq<Step> {
    seq(n, _ => WrapperStep(0, false))
  }

  /** An UnregisterClient call for each of the ids. */
  function Calls(ids: seq<nat>, live: Option<int>): seq<Call> {
    seq(|ids|, i requires 0 <= i < |ids| => Call(ids[i], live))
  }

  /** The steps of a sweep that nobody interrupts do what the loop does: after n turns, those of its first n ids. */
  lemma {:induction false} SweepTurns(w: World, bridgeId: string, n: nat)
    requires n <= |IDS| && w.wrapper == Sweep(bridgeId, 0, [])
    ensures var v := Run(w, WrapperSteps(n));
            && v.wrapper == Sweep(bridgeId, n, Others(bridgeId, n))
            && v.rounds == w.rounds && v.files == w.files && v.bridge == w.bridge
            && v.calls == w.calls + Calls(Others(bridgeId, n), LiveId(w))
  {
    if n == 0 {
      assert w.calls + Calls([], LiveId(w)) == w.calls;
    } else {
      SweepTurns(w, bridgeId, n - 1);
      WrapperStepsSnoc(w, n - 1);
      TurnTaken(Run(w, WrapperSteps(n - 1)), bridgeId, n - 1, w.calls, LiveId(w));
    }
  }

  /** One turn, after the calls for the ids before it. */
  lemma TurnTaken(v: World, bridgeId: string, n: nat, before: seq<Call>, live: Option<int>)
    requires n < |IDS| && v.wrapper == Sweep(bridgeId, n, Others(bridgeId, n)) && LiveId(v) == live
    requires v.calls == before + Calls(Others(bridgeId, n), live)
    ensures var u := StepWrapper(v, 0, false);
            && u.wrapper == Sweep(bridgeId, n + 1, Others(bridgeId, n + 1))
            && u.rounds == v.rounds && u.files == v.files && u.bridge == v.bridge
            && u.calls == before + Calls(Others(bridgeId, n + 1), live)
  {
    var ids, id := Others(bridgeId, n), IDS[n];
    assert Calls(ids + [id], live) == Calls(ids, live) + [Call(id, live)];
    Seqs.Assoc(before, Calls(ids, live), [Call(id, live)]);
  }

  // ----- The invariant -----

  /** The text the current bridge, alive or dead, publishes. */
  predicate IsPublishedText(w: World, s: string) {
    w.bridge.id.Some? && s == Decimal.PrintInt(w.bridge.id.value)
  }

  predicate HoldsId(phase: Phase) {
    phase == Assigned || phase == Writing || phase == Renamed || phase == Serving
  }

  /** A finished round: the id the wrapper had read, and what it unregistered. */
  ghost predicate Complete(r: (string, seq<nat>)) {
    exists c: nat :: r.0 == Decimal.Print(c) && r.1 == Others(r.0, |IDS|)
  }

  ghost predicate Invariant(w: World) {
    && (IdFile in w.files ==> IsPublishedText(w, w.files[IdFile]))
    && (w.wrapper.Remove? || w.wrapper.Spawn? ==> !w.bridge.Live())
    && (w.wrapper.Spawn? ==> IdFile !in w.files)
    && (w.wrapper.Decide? && w.wrapper.bridgeId != "" ==> IsPublishedText(w, w.wrapper.bridgeId))
    && (w.wrapper.Sweep? ==> IsPublishedText(w, w.wrapper.bridgeId) && IsNumeric(w.wrapper.bridgeId))
    && (w.wrapper.Sweep? ==> w.wrapper.next <= |IDS| && w.wrapper.issued == Others(w.wrapper.bridgeId, w.wrapper.next))
    && (HoldsId(w.bridge.phase) ==> w.bridge.id.Some?)
    && (w.bridge.phase == Starting ==> w.bridge.id.None?)
    && (w.bridge.phase == Renamed || w.bridge.phase == Serving ==> IdFile in w.files)
    && (w.bridge.phase == Closed ==> IdFile !in w.files)
    && (LiveId(w).Some? ==> LiveId(w).value in w.clients)
    && (forall c | c in w.calls :: c.live != Some(c.target))
    && (forall r | r in w.rounds :: Complete(r))
  }

  /** A numeric published text is the decimal form of a natural id. */
  lemma NumericId(id: int)
    requires IsNumeric(Decimal.PrintInt(id))
    ensures id >= 0 && Decimal.PrintInt(id) == Decimal.Print(id)
  {
    assert Decimal.IsDigit(Decimal.PrintInt(id)[0]);
  }

  lemma SweepInvariant(w: World)
    requires Invariant(w) && w.wrapper.Sweep? && w.wrapper.next < |IDS|
    ensures Invariant(SweepOne(w, w.wrapper.bridgeId, w.wrapper.next, w.wrapper.issued))
  {
    var b, id := w.wrapper.bridgeId, IDS[w.wrapper.next];
    var mine := w.bridge.id.value;
    NumericId(mine);
    if Decimal.Print(id) != b {
      assert id != mine;
    }
  }

  lemma WrapperInvariant(w: World, pid: nat, zombie: bool)
    requires Invariant(w)
    ensures Invariant(StepWrapper(w, pid, zombie))
  {
    match w.wrapper
    case Sweep(b, next, issued) =>
      if next < |IDS| {
        SweepInvariant(w);
      } else {
        NumericId(w.bridge.id.value);
        assert Complete((b, issued));
      }
    case Remove =>
    case Spawn =>
    case Check =>
    case Test =>
    case Read =>
    case Decide(_) =>
    case Wait =>
  }

  lemma BridgeInvariant(w: World, step: Step)
    requires Invariant(w)
    ensures Invariant(StepBridge(w, step))
  {
  }

  lemma StepInvariant(w: World, step: Step)
    requires Invariant(w)
    ensures Invariant(Apply(w, step))
  {
    match step
    case WrapperStep(pid, zombie) => WrapperInvariant(w, pid, zombie);
    case OtherRegisters(id) =>
    case OtherUnregisters(id) =>
    case _ => BridgeInvariant(w, step);
  }

  lemma {:induction false} RunInvariant(w: World, steps: seq<Step>)
    requires Invariant(w)
    ensures Invariant(Run(w, steps))
    decreases |steps|
  {
    if steps == [] {
    } else {
      StepInvariant(w, steps[0]);
      RunInvariant(Apply(w, steps[0]), steps[1..]);
    }
  }

  // ----- Safety -----

  /**
   In every interleaving, the wrapper never unregisters the client of the bridge
   that is alive, and that client stays registered with Floss for as long as the
   bridge lives.
  */
  lemma {:induction false} NeverUnregistersBridge(steps: seq<Step>)
    ensures var w := Run(INITIAL, steps);
            && (forall c | c in w.calls :: c.live != Some(c.target))
            && (w.bridge.Live() && w.bridge.id.Some? ==> w.bridge.id.value in w.clients)
  {
    RunInvariant(INITIAL, steps);
  }

  /** The id file is absent, or holds the complete id of the bridge now alive or, if none is, of the last one. */
  lemma {:induction false} FileHoldsWholeId(steps: seq<Step>)
    ensures var w := Run(INITIAL, steps);
            IdFile in w.files ==> w.bridge.id.Some? && w.files[IdFile] == Decimal.PrintInt(w.bridge.id.value)
  {
    RunInvariant(INITIAL, steps);
  }

  /** A round that had read the id c unregistered every client of the list but c. */
  ghost predicate Spares(r: (string, seq<nat>), c: nat) {
    r.0 == Decimal.Print(c) && forall id: nat :: id in r.1 <==> id in IDS && id != c
  }

  lemma CompleteSpares(r: (string, seq<nat>), c: nat)
    requires r.0 == Decimal.Print(c) && r.1 == Others(r.0, |IDS|)
    ensures Spares(r, c)
  {
    forall id: nat
      ensures id in r.1 <==> id in IDS && id != c
    {
      OthersFilter(r.0, |IDS|, id);
      assert IDS[..|IDS|] == IDS;
      if Decimal.Print(id) == Decimal.Print(c) {
        Decimal.PrintInjective(id, c);
      }
    }
  }

  /** Every finished round had read some natural id, and unregistered all the others of the list, and only those. */
  lemma {:induction false} RoundsAreComplete(steps: seq<Step>)
    ensures forall r | r in Run(INITIAL, steps).rounds :: exists c: nat :: Spares(r, c)
  {
    RunInvariant(INITIAL, steps);
    forall r | r in Run(INITIAL, steps).rounds
      ensures exists c: nat :: Spares(r, c)
    {
      assert Complete(r);
      var c: nat :| r.0 == Decimal.Print(c) && r.1 == Others(r.0, |IDS|);
      CompleteSpares(r, c);
    }
  }

  lemma {:induction false} OthersFilter(bridgeId: string, n: nat, id: nat)
    requires n <= |IDS|
    ensures id in Others(bridgeId, n) <==> id in IDS[..n] && Decimal.Print(id) != bridgeId
  {
    if n == 0 {
    } else {
      OthersFilter(bridgeId, n - 1, id);
      assert IDS[..n] == IDS[..n - 1] + [IDS[n - 1]];
    }
  }

  /** What the filters read when btadapterd opens the file. */
  function FileContent(w: World): Option<string> {
    if IdFile in w.files then Some(w.files[IdFile]) else None
  }

  /**
   Whenever a bridge may request a connection, its id is published in full, and the
   hotfix filter then lets it through on every address (for an id that a C int holds
   and that is not negative) and blocks every other native client on every address.
  */
  lemma {:induction false} ServingBridgePasses(steps: seq<Step>, a: Option<seq<byte>>, client: byte)
    requires Run(INITIAL, steps).bridge.phase == Serving
    ensures var w := Run(INITIAL, steps);
            && w.bridge.id.Some? && FileContent(w) == Some(Decimal.PrintInt(w.bridge.id.value))
            && var c, allowed := w.bridge.id.value, GattFilter.BridgeClientId(FileContent(w));
            0 <= c < GattFilter.INT_LIMIT ==>
              && allowed == c
              && !GattFilter.HotfixBlocks(allowed, GattFilter.Low(c), a)
              && (GattFilter.IsNative(client) && client != GattFilter.Low(c) ==>
                    GattFilter.HotfixBlocks(allowed, client, a))
  {
    RunInvariant(INITIAL, steps);
    GattFilter.PublishedIdRead(Run(INITIAL, steps).bridge.id.value);
  }

  lemma {:induction false} RunConcat(w: World, a: seq<Step>, b: seq<Step>)
    ensures Run(w, a + b) == Run(Run(w, a), b)
    decreases |a|
  {
    if a == [] {
      assert a + b == b;
    } else {
      RunConcat(Apply(w, a[0]), a[1..], b);
      Seqs.TailConcat(a, b);
    }
  }

  lemma RunTwo(w: World, a: Step, b: Step)
    ensures Run(w, [a, b]) == Apply(Apply(w, a), b)
  {
    assert [a, b][1..] == [b] && [b][1..] == [];
    assert Run(w, [a, b]) == Run(Apply(w, a), [b]);
    assert Run(Apply(w, a), [b]) == Run(Apply(Apply(w, a), b), []);
  }

  /** The world of a bridge with this much of its protocol done, and the wrapper about to check it. */
  function Stage(files: map<Path, string>, phase: Phase, id: nat): World {
    World(files, Bridge(1, phase, Some(id)), Check, {id as int}, [], [])
  }

  lemma SpawningRun(go: Step)
    requires go == WrapperStep(1, false)
    ensures Run(INITIAL, [go, go]) == World(map[], Bridge(1, Starting, None), Check, {}, [], [])
  {
    RunTwo(INITIAL, go, go);
  }

  lemma AssigningRun(w: World, id: nat)
    requires w == World(map[], Bridge(1, Starting, None), Check, {}, [], [])
    ensures Run(w, [AssignId(id), OpenTemporary]) == Stage(map[Temporary(1) := ""], Writing, id)
  {
    RunTwo(w, AssignId(id), OpenTemporary);
  }

  lemma WritingRun(id: nat)
    ensures var text := Decimal.Print(id);
            Run(Stage(map[Temporary(1) := ""], Writing, id), [WriteTemporary(|text|), Rename]) ==
            Stage(map[IdFile := text], Renamed, id)
  {
    var text := Decimal.Print(id);
    var w := Stage(map[Temporary(1) := ""], Writing, id);
    assert text[..|text|] == text;
    RunTwo(w, WriteTemporary(|text|), Rename);
    assert Apply(w, WriteTemporary(|text|)) == Stage(map[Temporary(1) := text], Writing, id);
    assert map[Temporary(1) := text][IdFile := text] - {Temporary(1)} == map[IdFile := text];
  }

  lemma ServingStep(id: nat)
    ensures var text := Decimal.Print(id);
            Apply(Stage(map[IdFile := text], Renamed, id), RemoveTemporary) == Stage(map[IdFile := text], Serving, id)
  {
    var text := Decimal.Print(id);
    assert map[IdFile := text] - {Temporary(1)} == map[IdFile := text];
  }

  lemma RunOne(w: World, a: Step)
    ensures Run(w, [a]) == Apply(w, a)
  {
    assert [a][1..] == [];
  }

  /** A run in which a bridge is spawned, gets its id, and publishes it. */
  lemma PublishingRun(id: nat) returns (steps: seq<Step>)
    ensures Run(INITIAL, steps) == Stage(map[IdFile := Decimal.Print(id)], Serving, id)
  {
    var go, text := WrapperStep(1, false), Decimal.Print(id);
    var a, b, c, d := [go, go], [AssignId(id), OpenTemporary], [WriteTemporary(|text|), Rename], [RemoveTemporary];
    SpawningRun(go);
    AssigningRun(Run(INITIAL, a), id);
    WritingRun(id);
    ServingStep(id);
    RunOne(Stage(map[IdFile := text], Renamed, id), RemoveTemporary);
    steps := a + b + c + d;
    RunConcat(INITIAL, a + b + c, d);
    RunConcat(INITIAL, a + b, c);
    RunConcat(INITIAL, a, b);
  }

  /** From Check the wrapper tests for the file, reads it, and goes on to sweep. */
  lemma SweepingRun(id: nat)
    ensures var go, text := WrapperStep(1, false), Decimal.Print(id);
            var w := Stage(map[IdFile := text], Serving, id);
            Run(w, [go, go] + [go, go]) == w.(wrapper := Sweep(text, 0, []))
  {
    var go, text := WrapperStep(1, false), Decimal.Print(id);
    var w := Stage(map[IdFile := text], Serving, id);
    RunTwo(w, go, go);
    RunTwo(Run(w, [go, go]), go, go);
    RunConcat(w, [go, go], [go, go]);
  }

  /** The guarantees above are not kept for want of runs: a bridge serves while the wrapper sweeps beside it. */
  lemma {:induction false} SweepBesideServing(id: nat)
    ensures exists steps ::
              var w := Run(INITIAL, steps);
              w.bridge.phase == Serving && w.bridge.id == Some(id) && w.wrapper == Sweep(Decimal.Print(id), 0, [])
  {
    var go := WrapperStep(1, false);
    var steps := PublishingRun(id);
    SweepingRun(id);
    RunConcat(INITIAL, steps, [go, go] + [go, go]);
  }

  // ----- What the wrapper does left to itself -----

  /** A bridge that has finished its clean-up leaves no id file behind, until the wrapper spawns the next. */
  lemma {:induction false} ClosedLeavesNoFile(steps: seq<Step>)
    ensures Run(INITIAL, steps).bridge.phase == Closed ==> IdFile !in Run(INITIAL, steps).files
  {
    RunInvariant(INITIAL, steps);
  }

  /** The wrapper's own steps, with the pid its next spawn gets. */
  function Alone(n: nat, pid: nat): seq<Step> {
    seq(n, _ => WrapperStep(pid, false))
  }

  lemma AloneStep(w: World, n: nat, pid: nat)
    ensures Run(w, Alone(n + 1, pid)) == Run(StepWrapper(w, pid, false), Alone(n, pid))
  {
    assert Alone(n + 1, pid)[1..] == Alone(n, pid);
  }

  /** How many steps a wrapper whose bridge is dead takes to spawn another, at most. */
  function ToSpawn(w: World): nat {
    match w.wrapper
    case Spawn => 1
    case Remove => 2
    case Wait => 3
    case Check => 4
    case Sweep(_, next, _) => 5 + (if next < |IDS| then |IDS| - next else 0)
    case Decide(_) => 6 + |IDS|
    case Read => 7 + |IDS|
    case Test => 8 + |IDS|
  }

  predicate Respawned(w: World, pid: nat) {
    w.bridge == Bridge(pid, Starting, None) && w.wrapper == Check && IdFile !in w.files
  }

  /** Wherever the wrapper is when its bridge is dead, its own next steps, thirteen at most, bring up a new one. */
  lemma {:induction false} RespawnFrom(w: World, pid: nat) returns (n: nat)
    requires !w.bridge.Live() && (w.wrapper.Spawn? ==> IdFile !in w.files)
    ensures n <= ToSpawn(w) <= 13 && Respawned(Run(w, Alone(n, pid)), pid)
    decreases ToSpawn(w)
  {
    var v := StepWrapper(w, pid, false);
    if w.wrapper.Spawn? {
      n := 1;
      AloneStep(w, 0, pid);
    } else {
      var m := RespawnFrom(v, pid);
      n := m + 1;
      AloneStep(w, m, pid);
    }
  }

  /** After any run, with the bridge dead, at most thirteen steps of the wrapper start the next, with no id file. */
  lemma {:induction false} Respawns(steps: seq<Step>, pid: nat)
    requires !Run(INITIAL, steps).bridge.Live()
    ensures exists n :: n <= 13 && Respawned(Run(INITIAL, steps + Alone(n, pid)), pid)
  {
    RunInvariant(INITIAL, steps);
    var n := RespawnFrom(Run(INITIAL, steps), pid);
    RunConcat(INITIAL, steps, Alone(n, pid));
  }

  /** From Wait with a dead bridge: the file is removed, and a new bridge starts. */
  lemma WaitRespawns(w: World, pid: nat)
    requires !w.bridge.Live() && w.wrapper.Wait?
    ensures Run(w, Alone(3, pid)) ==
            w.(files := w.files - {IdFile}, bridge := Bridge(pid, Starting, None), wrapper := Check)
  {
    AloneStep(w, 2, pid);
    var v := StepWrapper(w, pid, false);
    AloneStep(v, 1, pid);
    AloneStep(StepWrapper(v, pid, false), 0, pid);
  }

  function AsClients(ids: seq<nat>): set<int> {
    set id | id in ids :: id as int
  }

  lemma AsClientsSnoc(ids: seq<nat>, id: nat)
    ensures AsClients(ids + [id]) == AsClients(ids) + {id as int}
  {
    forall x
      ensures x in AsClients(ids + [id]) <==> x in AsClients(ids) || x == id
    {
      if x in AsClients(ids) {
        var i: nat :| i in ids && i == x;
        assert i in ids + [id];
      }
      assert id in ids + [id];
    }
  }

  lemma {:induction false} SweepClients(w: World, bridgeId: string, n: nat)
    requires n <= |IDS| && w.wrapper == Sweep(bridgeId, 0, [])
    ensures Run(w, WrapperSteps(n)).clients == w.clients - AsClients(Others(bridgeId, n))
  {
    if n == 0 {
    } else {
      SweepClients(w, bridgeId, n - 1);
      SweepTurns(w, bridgeId, n - 1);
      WrapperStepsSnoc(w, n - 1);
      var ids, id := Others(bridgeId, n - 1), IDS[n - 1];
      AsClientsSnoc(ids, id);
    }
  }

  lemma WrapperStepsSnoc(w: World, n: nat)
    ensures Run(w, WrapperSteps(n + 1)) == StepWrapper(Run(w, WrapperSteps(n)), 0, false)
  {
    assert WrapperSteps(n + 1) == WrapperSteps(n) + [WrapperStep(0, false)];
    RunConcat(w, WrapperSteps(n), [WrapperStep(0, false)]);
    RunOne(Run(w, WrapperSteps(n)), WrapperStep(0, false));
  }

  /** From Check, beside a live bridge whose numeric id is in the file, the wrapper comes to sweep. */
  lemma ToSweep(w: World)
    requires w.wrapper == Check && w.bridge.Live() && IdFile in w.files && IsNumeric(w.files[IdFile])
    ensures Run(w, WrapperSteps(4)) == w.(wrapper := Sweep(w.files[IdFile], 0, []))
  {
    var text := w.files[IdFile];
    assert Run(w, WrapperSteps(0)) == w;
    WrapperStepsSnoc(w, 0);
    assert Run(w, WrapperSteps(1)) == w.(wrapper := Test);
    WrapperStepsSnoc(w, 1);
    assert Run(w, WrapperSteps(2)) == w.(wrapper := Read);
    WrapperStepsSnoc(w, 2);
    assert Run(w, WrapperSteps(3)) == w.(wrapper := Decide(text));
    WrapperStepsSnoc(w, 3);
  }

  lemma WrapperStepsConcat(w: World, m: nat, n: nat)
    ensures Run(w, WrapperSteps(m + n)) == Run(Run(w, WrapperSteps(m)), WrapperSteps(n))
  {
    assert WrapperSteps(m + n) == WrapperSteps(m) + WrapperSteps(n);
    RunConcat(w, WrapperSteps(m), WrapperSteps(n));
  }

  /** The wrapper's list and the filter's natives are the same. */
  lemma NativeIds(id: nat)
    ensures id in IDS <==> id < 256 && GattFilter.IsNative(id)
  {
    assert IDS == [43, 45, 46, 48, 50];
  }

  /** The native clients but c. */
  function OtherNatives(c: int): set<int> {
    set k: byte | GattFilter.IsNative(k) && k as int != c :: k as int
  }

  lemma SweptNatives(c: nat)
    ensures AsClients(Others(Decimal.Print(c), |IDS|)) == OtherNatives(c)
  {
    var swept := AsClients(Others(Decimal.Print(c), |IDS|));
    forall id: nat
      ensures id as int in swept <==> id in IDS && id != c
    {
      OthersFilter(Decimal.Print(c), |IDS|, id);
      assert IDS[..|IDS|] == IDS;
      if Decimal.Print(id) == Decimal.Print(c) {
        Decimal.PrintInjective(id, c);
      }
    }
    var natives := OtherNatives(c);
    forall x
      ensures x in swept <==> x in natives
    {
      if x in swept {
        var id: nat := x;
        assert id as int in swept;
        NativeIds(id);
        var k: byte := x;
        assert GattFilter.IsNative(k);
      }
      if x in natives {
        var id: nat := x;
        NativeIds(id);
        assert id as int in swept;
      }
    }
    assert swept == natives;
  }

  /**
   On every run that has come to a serving bridge with a natural id and the wrapper
   about to check it, ten steps of the wrapper unregister every native client but the
   bridge, if it is one, and nobody else, and are back where they began.
  */
  lemma {:induction false} RoundHappens(steps: seq<Step>, c: nat)
    requires var w := Run(INITIAL, steps);
             w.wrapper == Check && w.bridge.phase == Serving && w.bridge.id == Some(c)
    ensures var w := Run(INITIAL, steps);
            var v := Run(INITIAL, steps + WrapperSteps(10));
            && v.wrapper == Check && v.bridge == w.bridge && v.files == w.files && c in v.clients
            && v.clients == w.clients - OtherNatives(c)
            && v.rounds == w.rounds + [(Decimal.Print(c), Others(Decimal.Print(c), |IDS|))]
  {
    RunInvariant(INITIAL, steps);
    RunConcat(INITIAL, steps, WrapperSteps(10));
    RoundFrom(Run(INITIAL, steps), c);
  }

  lemma RoundFrom(w: World, c: nat)
    requires w.wrapper == Check && w.bridge.Live() && w.bridge.id == Some(c) && c in w.clients
    requires IdFile in w.files && w.files[IdFile] == Decimal.Print(c)
    ensures var v := Run(w, WrapperSteps(10));
            && v.wrapper == Check && v.bridge == w.bridge && v.files == w.files && c in v.clients
            && v.clients == w.clients - OtherNatives(c)
            && v.rounds == w.rounds + [(Decimal.Print(c), Others(Decimal.Print(c), |IDS|))]
  {
    var text := Decimal.Print(c);
    var u := w.(wrapper := Sweep(text, 0, []));
    ToSweep(w);
    WrapperStepsConcat(w, 4, 6);
    FullSweep(u, c);
  }

  lemma SweepEnds(w: World, bridgeId: string, issued: seq<nat>)
    requires w.wrapper == Sweep(bridgeId, |IDS|, issued)
    ensures StepWrapper(w, 0, false) == w.(wrapper := Check, rounds := w.rounds + [(bridgeId, issued)])
  {
  }

  /** Six turns of the sweep: five ids, and the end. */
  lemma FullSweep(u: World, c: nat)
    requires u.wrapper == Sweep(Decimal.Print(c), 0, []) && c in u.clients
    ensures var text := Decimal.Print(c);
            var v := Run(u, WrapperSteps(6));
            && v.wrapper == Check && v.bridge == u.bridge && v.files == u.files && c in v.clients
            && v.clients == u.clients - OtherNatives(c) && v.rounds == u.rounds + [(text, Others(text, |IDS|))]
  {
    var text := Decimal.Print(c);
    var t := Run(u, WrapperSteps(5));
    SweepTurns(u, text, 5);
    SweepClients(u, text, 5);
    SweptNatives(c);
    assert t.clients == u.clients - OtherNatives(c);
    WrapperStepsSnoc(u, 5);
    SweepEnds(t, text, Others(text, |IDS|));
  }

  lemma RunThree(w: World, a: Step, b: Step, c: Step)
    ensures Run(w, [a, b, c]) == Apply(Apply(Apply(w, a), b), c)
  {
    assert [a, b, c][1..] == [b, c];
    assert Run(w, [a, b, c]) == Run(Apply(w, a), [b, c]);
    RunTwo(Apply(w, a), b, c);
  }

  /** While its dead bridge is a zombie and there is no file, the wrapper polls; once it is gone, the wrapper waits. */
  lemma ZombiePolls(w: World, pid: nat)
    requires w.wrapper == Check && !w.bridge.Live() && IdFile !in w.files
    ensures Run(w, [WrapperStep(pid, true), WrapperStep(pid, true), WrapperStep(pid, true)]) == w
    ensures Run(w, [WrapperStep(pid, false)]) == w.(wrapper := Wait)
  {
    RunThree(w, WrapperStep(pid, true), WrapperStep(pid, true), WrapperStep(pid, true));
    RunOne(w, WrapperStep(pid, false));
  }

  /** How a bridge starts to leave: write_runtime_file raises, or its loop ends. */
  function Leaving(w: World): Step {
    if w.bridge.phase == Writing then FailToWrite else Close
  }

  /** Whatever it is doing, a bridge that leaves removes the id file and the temporary file it was writing. */
  lemma LeavesClean(w: World)
    requires w.bridge.Live() && w.bridge.phase != Closed
    ensures var v := Run(w, [Leaving(w), UnlinkId, Exit]);
            && v.bridge == w.bridge.(phase := Dead) && v.wrapper == w.wrapper && v.clients == w.clients
            && v.files.Keys == w.files.Keys - {IdFile}
                               - if w.bridge.phase == Writing then {Temporary(w.bridge.pid)} else {}
  {
    RunThree(w, Leaving(w), UnlinkId, Exit);
  }

  /** Every step but a crash. */
  predicate Orderly(steps: seq<Step>) {
    forall step | step in steps :: !step.Crash?
  }

  /** Temporary files are there only while the bridge of their name is writing. */
  ghost predicate Tidy(w: World) {
    forall pid: nat | Temporary(pid) in w.files :: pid == w.bridge.pid && w.bridge.phase == Writing
  }

  lemma TidyStep(w: World, step: Step)
    requires Tidy(w) && Invariant(w) && !step.Crash?
    ensures Tidy(Apply(w, step))
  {
  }

  lemma {:induction false} TidyRun(w: World, steps: seq<Step>)
    requires Tidy(w) && Invariant(w) && Orderly(steps)
    ensures Tidy(Run(w, steps))
    decreases |steps|
  {
    if steps == [] {
    } else {
      assert steps[0] in steps;
      TidyStep(w, steps[0]);
      StepInvariant(w, steps[0]);
      TidyRun(Apply(w, steps[0]), steps[1..]);
    }
  }

  /** In every interleaving without a crash, a temporary file is there only while the live bridge writes it. */
  lemma {:induction false} NoTemporaryLeft(steps: seq<Step>, pid: nat)
    requires Orderly(steps) && Temporary(pid) in Run(INITIAL, steps).files
    ensures Run(INITIAL, steps).bridge.pid == pid && Run(INITIAL, steps).bridge.phase == Writing
  {
    TidyRun(INITIAL, steps);
  }

  /** After a crash it may stay: a run leaves the temporary file of a bridge that died writing. */
  lemma {:induction false} CrashLeavesTemporary(id: nat)
    ensures exists steps ::
              var w := Run(INITIAL, steps); w.bridge.phase == Dead && Temporary(w.bridge.pid) in w.files
  {
    var go := WrapperStep(1, false);
    var steps := [go, go] + [AssignId(id), OpenTemporary] + [Crash];
    SpawningRun(go);
    AssigningRun(Run(INITIAL, [go, go]), id);
    RunConcat(INITIAL, [go, go] + [AssignId(id), OpenTemporary], [Crash]);
    RunConcat(INITIAL, [go, go], [AssignId(id), OpenTemporary]);
    var w := Stage(map[Temporary(1) := ""], Writing, id);
    RunOne(w, Crash);
    assert Run(INITIAL, steps) == InPhase(w, Dead);
  }

  /** A native client that registers beside a serving bridge is unregistered by the next round. */
  lemma {:induction false} NativeSwept(c: nat, k: nat)
    requires k in IDS && k != c
    ensures exists steps ::
              k in Run(INITIAL, steps).clients && k !in Run(INITIAL, steps + WrapperSteps(10)).clients
  {
    var serving := PublishingRun(c);
    var steps := serving + [OtherRegisters(k)];
    RunConcat(INITIAL, serving, [OtherRegisters(k)]);
    RunOne(Run(INITIAL, serving), OtherRegisters(k));
    RoundHappens(steps, c);
    NativeIds(k);
  }
}
