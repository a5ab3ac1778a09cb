/**
 Which address the bridge tries next. While the list of addresses stays the same
 and no connection succeeds, the address index moves only at a retry and at a
 failing callback for the current address, by one each time.
*/
module RetryRotation {
  import opened BridgeFrames
  import opened BridgeLoop
  import opened BridgeLog
  import opened BridgeSafety
  import opened BridgeTiming
  import opened Wrappers
  import BridgePublication
  import Messages
  import Seqs

  /** The index after the events of a log, from index i. */
  function Replay(xs: seq<string>, i: nat, log: Log): (j: nat)
    requires i < |xs|
    ensures j < |xs|
  {
    if log == [] then i
    else
      var j := Replay(xs, i, Front(log));
      if Last(log).Retried? || (Last(log).Callback? && Last(log).peer == xs[j]) then (j + 1) % |xs| else j
  }

  /** Every retry goes to the address the index has just moved to. */
  predicate Follows(xs: seq<string>, i: nat, log: Log)
    requires i < |xs|
  {
    forall k | 0 <= k < |log| && log[k].Retried? :: log[k].peer == xs[Replay(xs, i, log[..k + 1])]
  }

  lemma ReplaySnoc(xs: seq<string>, i: nat, log: Log, e: Event)
    requires i < |xs|
    ensures Replay(xs, i, log + [e]) ==
            if e.Retried? || (e.Callback? && e.peer == xs[Replay(xs, i, log)])
            then (Replay(xs, i, log) + 1) % |xs| else Replay(xs, i, log)
  {
    Snoc(log, e);
  }

  lemma FollowsSnoc(xs: seq<string>, i: nat, log: Log, e: Event)
    requires i < |xs| && Follows(xs, i, log)
    requires e.Retried? ==> e.peer == xs[(Replay(xs, i, log) + 1) % |xs|]
    ensures Follows(xs, i, log + [e])
    ensures Replay(xs, i, log + [e]) ==
            if e.Retried? || (e.Callback? && e.peer == xs[Replay(xs, i, log)])
            then (Replay(xs, i, log) + 1) % |xs| else Replay(xs, i, log)
  {
    ReplaySnoc(xs, i, log, e);
    var more := log + [e];
    forall k | 0 <= k < |more| && more[k].Retried?
      ensures more[k].peer == xs[Replay(xs, i, more[..k + 1])]
    {
      if k < |log| {
        assert more[..k + 1] == log[..k + 1];
      } else {
        assert more[..k + 1] == more;
      }
    }
  }

  /** Actions that leave the list of addresses as it is and connect to none of them. */
  predicate Unlucky(s: State, a: Action) {
    && (a.Found? ==> Messages.Upper(a.device) in s.addresses)
    && (a.Connection? ==> !(a.c.connected && a.c.status == 0))
  }

  ghost predicate AllUnlucky(s: State, actions: seq<Action>)
    decreases |actions|
  {
    actions != [] ==> Unlucky(s, actions[0]) && AllUnlucky(Act(s, actions[0]), actions[1..])
  }

  /** The state agrees with replaying its log from length len on, where the list was xs and the index i. */
  predicate Rotating(s: State, xs: seq<string>, i: nat, len: nat) {
    && i < |xs| && s.addresses == xs && len <= |s.log|
    && s.addressIndex == Replay(xs, i, s.log[len..])
    && s.address == Some(xs[s.addressIndex])
    && Follows(xs, i, s.log[len..])
  }

  predicate SameAddress(s: State, t: State) {
    t.addresses == s.addresses && t.addressIndex == s.addressIndex && t.address == s.address
  }

  lemma OthersCandidate(s: State, candidate: string)
    requires s.address.Some? && candidate in s.addresses
    ensures OnCandidate(s, candidate) == s
  {
  }

  lemma OthersKeepAddress(s: State, a: Action)
    requires s.address.Some? && Unlucky(s, a) && !a.Retry? && !a.Connection?
    ensures SameAddress(s, Act(s, a))
  {
    if a.Found? {
      OthersCandidate(s, Messages.Upper(a.device));
    } else {
      ActFrame(s, a);
    }
  }

  /** Events that are neither retries nor callbacks do not move the index. */
  lemma {:induction false} NeutralReplay(xs: seq<string>, i: nat, log: Log, more: Log)
    requires i < |xs| && log <= more && Follows(xs, i, log)
    requires forall k | |log| <= k < |more| :: !more[k].Retried? && !more[k].Callback?
    ensures Follows(xs, i, more) && Replay(xs, i, more) == Replay(xs, i, log)
    decreases |more|
  {
    if |more| == |log| {
      assert more == log;
    } else {
      NeutralReplay(xs, i, log, Front(more));
      assert Front(more) + [Last(more)] == more;
      FollowsSnoc(xs, i, Front(more), Last(more));
    }
  }

  lemma RotatingOther(s: State, a: Action, xs: seq<string>, i: nat, len: nat)
    requires Rotating(s, xs, i, len) && Unlucky(s, a) && !a.Retry? && !a.Connection?
    ensures Rotating(Act(s, a), xs, i, len)
  {
    var t := Act(s, a);
    OthersKeepAddress(s, a);
    ActFrame(s, a);
    assert s.log[len..] <= t.log[len..];
    forall k | |s.log[len..]| <= k < |t.log[len..]|
      ensures !t.log[len..][k].Retried? && !t.log[len..][k].Callback?
    {
      assert t.log[len..][k] == t.log[len + k];
    }
    NeutralReplay(xs, i, s.log[len..], t.log[len..]);
  }

  lemma RotatingRetry(s: State, now: real, xs: seq<string>, i: nat, len: nat)
    requires Rotating(s, xs, i, len)
    ensures Rotating(OnRetry(s, now), xs, i, len)
  {
    var t := OnRetry(s, now);
    if t != s {
      var peer := Advance(s).address.value;
      var log := s.log[len..];
      FollowsSnoc(xs, i, log, Retried(peer, now));
      FollowsSnoc(xs, i, log + [Retried(peer, now)], Queued(ClientConnect(peer)));
      assert t.log[len..] == log + [Retried(peer, now)] + [Queued(ClientConnect(peer))];
    }
  }

  lemma RotatingEvent(s: State, e: Event, xs: seq<string>, i: nat, len: nat)
    requires Rotating(s, xs, i, len) && !e.Retried?
    ensures var log := Emit(s, e).log[len..];
            && Follows(xs, i, log)
            && Replay(xs, i, log) ==
               if e.Callback? && e.peer == xs[s.addressIndex] then (s.addressIndex + 1) % |xs| else s.addressIndex
  {
    FollowsSnoc(xs, i, s.log[len..], e);
    assert Emit(s, e).log[len..] == s.log[len..] + [e];
  }

  lemma RotatingFailure(s: State, peer: string, xs: seq<string>, i: nat, len: nat)
    requires Rotating(s, xs, i, len)
    ensures Rotating(OnCallback(s, peer, false), xs, i, len)
  {
    if peer in xs {
      var e := Emit(s, Callback(peer, false));
      RotatingEvent(s, Callback(peer, false), xs, i, len);
      if s.address == Some(peer) {
        assert OnCallback(s, peer, false) == Advance(e.(connected := false));
      } else {
        assert OnCallback(s, peer, false) == e;
      }
    }
  }

  lemma {:induction false} RotatingRun(s: State, actions: seq<Action>, xs: seq<string>, i: nat, len: nat)
    requires Rotating(s, xs, i, len) && AllUnlucky(s, actions)
    ensures Rotating(Perform(s, actions), xs, i, len)
    decreases |actions|
  {
    if actions == [] {
    } else {
      var a := actions[0];
      if !s.stopped {
        match a
        case Retry(now) => RotatingRetry(s, now, xs, i, len);
        case Connection(c) => RotatingFailure(s, Messages.Upper(c.peer), xs, i, len);
        case _ => RotatingOther(s, a, xs, i, len);
      }
      RotatingRun(Act(s, a), actions[1..], xs, i, len);
    }
  }

  // ----- Counting turns -----

  /** The addresses retried, in order. */
  function Retries(log: Log): seq<string> {
    if log == [] then []
    else if Last(log).Retried? then Retries(Front(log)) + [Last(log).peer]
    else Retries(Front(log))
  }

  /** Failing callbacks that moved the index. */
  function Drops(xs: seq<string>, i: nat, log: Log): nat
    requires i < |xs|
  {
    if log == [] then 0
    else Drops(xs, i, Front(log))
         + if Last(log).Callback? && Last(log).peer == xs[Replay(xs, i, Front(log))] then 1 else 0
  }

  lemma {:induction false} ModAdd(a: nat, n: nat, k: nat)
    requires n > 0
    ensures (a + n * k) % n == a % n
  {
    if k == 0 {
    } else {
      ModAdd(a, n, k - 1);
      assert a + n * k == (a + n * (k - 1)) + n;
      ModOnce(a + n * (k - 1), n);
    }
  }

  lemma ModOnce(a: nat, n: nat)
    requires n > 0
    ensures (a + n) % n == a % n
  {
    assert a + n == n * (a / n + 1) + a % n;
    ModIs(a + n, n, a / n + 1, a % n);
  }

  lemma MulAbove(n: nat, p: nat, q: nat)
    requires p < q
    ensures n * q >= n * p + n
  {
    assert n * q == n * p + n * (q - p);
    assert n * (q - p) == n + n * (q - p - 1);
  }

  lemma ModIs(a: nat, n: nat, q: nat, r: nat)
    requires r < n && a == n * q + r
    ensures a % n == r
  {
    var p := a / n;
    assert a == n * p + a % n;
    if p < q {
      MulAbove(n, p, q);
    } else if q < p {
      MulAbove(n, q, p);
    }
  }

  lemma ModStep(a: nat, n: nat)
    requires n > 0
    ensures (a % n + 1) % n == (a + 1) % n
  {
    assert a + 1 == a % n + 1 + n * (a / n);
    ModAdd(a % n + 1, n, a / n);
  }

  /** The place reached by so many turns, and by perhaps one more. */
  lemma ModTurn(a: nat, n: nat, turn: nat)
    requires n > 0 && turn <= 1
    ensures (a + turn) % n == if turn == 1 then (a % n + 1) % n else a % n
  {
    ModStep(a, n);
  }

  /** Whether the last event of a log turns the index. */
  function Turn(xs: seq<string>, i: nat, log: Log): (turn: nat)
    requires i < |xs| && log != []
    ensures turn <= 1
  {
    var e := Last(log);
    if e.Retried? || (e.Callback? && e.peer == xs[Replay(xs, i, Front(log))]) then 1 else 0
  }

  lemma TurnCounts(xs: seq<string>, i: nat, log: Log)
    requires i < |xs| && log != []
    ensures var j := Replay(xs, i, Front(log));
            Replay(xs, i, log) == if Turn(xs, i, log) == 1 then (j + 1) % |xs| else j
    ensures |Retries(log)| + Drops(xs, i, log) == |Retries(Front(log))| + Drops(xs, i, Front(log)) + Turn(xs, i, log)
  {
  }

  /** The index counts every turn, round and round. */
  lemma {:induction false} ReplayCounts(xs: seq<string>, i: nat, log: Log)
    requires i < |xs|
    ensures Replay(xs, i, log) == (i + |Retries(log)| + Drops(xs, i, log)) % |xs|
  {
    if log == [] {
      OnceAround(i, |xs|);
    } else {
      ReplayCounts(xs, i, Front(log));
      TurnCounts(xs, i, log);
      ModTurn(i + |Retries(Front(log))| + Drops(xs, i, Front(log)), |xs|, Turn(xs, i, log));
    }
  }

  /** How many turns failing callbacks took before retry j, as a function of j. */
  predicate DropsBeforeRetries(xs: seq<string>, i: nat, log: Log, perRetry: nat)
    requires i < |xs|
  {
    forall k | 0 <= k < |log| && log[k].Retried? ::
      Drops(xs, i, log[..k]) == perRetry * |Retries(log[..k])|
  }

  lemma FrontAgrees(xs: seq<string>, i: nat, log: Log, perRetry: nat)
    requires i < |xs| && log != [] && Follows(xs, i, log) && DropsBeforeRetries(xs, i, log, perRetry)
    ensures Follows(xs, i, Front(log)) && DropsBeforeRetries(xs, i, Front(log), perRetry)
  {
    var front := Front(log);
    forall k | 0 <= k < |front| && front[k].Retried?
      ensures front[k].peer == xs[Replay(xs, i, front[..k + 1])]
      ensures Drops(xs, i, front[..k]) == perRetry * |Retries(front[..k])|
    {
      assert log[k] == front[k] && log[..k] == front[..k] && log[..k + 1] == front[..k + 1];
    }
  }

  lemma LastTarget(xs: seq<string>, i: nat, log: Log, perRetry: nat)
    requires i < |xs| && log != [] && Follows(xs, i, log) && DropsBeforeRetries(xs, i, log, perRetry)
    requires Last(log).Retried?
    ensures Last(log).peer == xs[(i + (1 + perRetry) * |Retries(Front(log))| + 1) % |xs|]
  {
    var j := |Retries(Front(log))|;
    assert log[..|log|] == log;
    assert log[|log| - 1] == Last(log);
    ReplayCounts(xs, i, log);
    assert Drops(xs, i, log) == perRetry * j;
    assert i + (j + 1) + perRetry * j == i + (1 + perRetry) * j + 1;
  }

  /** Retry j goes to the address (1 + perRetry) j + 1 places on. */
  lemma {:induction false} RetryTargets(xs: seq<string>, i: nat, log: Log, perRetry: nat)
    requires i < |xs| && Follows(xs, i, log) && DropsBeforeRetries(xs, i, log, perRetry)
    ensures forall j | 0 <= j < |Retries(log)| :: Retries(log)[j] == xs[(i + (1 + perRetry) * j + 1) % |xs|]
  {
    if log == [] {
    } else {
      FrontAgrees(xs, i, log, perRetry);
      RetryTargets(xs, i, Front(log), perRetry);
      if Last(log).Retried? {
        LastTarget(xs, i, log, perRetry);
      }
    }
  }

  /** Without callbacks there is nothing but retries to move the index. */
  lemma {:induction false} NoCallbacksNoDrops(xs: seq<string>, i: nat, log: Log)
    requires i < |xs| && forall k | 0 <= k < |log| :: !log[k].Callback?
    ensures Drops(xs, i, log) == 0 && DropsBeforeRetries(xs, i, log, 0)
  {
    if log == [] {
    } else {
      var front := Front(log);
      assert forall k | 0 <= k < |front| :: front[k] == log[k];
      NoCallbacksNoDrops(xs, i, front);
      forall k | 0 <= k < |log| && log[k].Retried?
        ensures Drops(xs, i, log[..k]) == 0 * |Retries(log[..k])|
      {
        assert log[..k] == front[..k];
        if k < |front| {
          assert front[k].Retried?;
        } else {
          assert front[..k] == front;
        }
      }
    }
  }

  // ----- The two schedules -----

  /** Turn by turn from index i, any n successive turns of a cycle of n visit every place. */
  lemma VisitsByOne(i: nat, n: nat, t: nat) returns (j: nat)
    requires i < n && t < n
    ensures j < n && (i + (1 + 0) * j + 1) % n == t
  {
    if t > i {
      j := t - i - 1;
      ModIs(t, n, 0, t);
    } else {
      j := t + n - i - 1;
      ModIs(t + n, n, 1, t);
    }
  }

  /** Two places at a time, n turns of a cycle of odd length n visit every place. */
  lemma VisitsByTwo(i: nat, n: nat, t: nat) returns (j: nat)
    requires i < n && t < n && n % 2 == 1
    ensures j < n && (i + (1 + 1) * j + 1) % n == t
  {
    var d := if t > i then t - i - 1 else t + n - i - 1;
    j := if d % 2 == 0 then d / 2 else (d + n) / 2;
    var q := (if t > i then 0 else 1) + (if d % 2 == 0 then 0 else 1);
    assert i + 2 * j + 1 == t + n * q;
    ModIs(i + 2 * j + 1, n, q, t);
  }

  /** Of a cycle of even length, two places at a time visit only one parity. */
  lemma MissesByTwo(i: nat, n: nat, j: nat)
    requires i < n && n % 2 == 0
    ensures (i + (1 + 1) * j + 1) % n % 2 == (i + 1) % 2
  {
    var a := i + 2 * j + 1;
    assert a == n * (a / n) + a % n;
    assert n == 2 * (n / 2);
    assert n * (a / n) == 2 * ((n / 2) * (a / n));
  }

  predicate CoversAll(xs: seq<string>, peers: seq<string>) {
    forall x | x in xs :: x in peers
  }

  lemma CoversByOne(xs: seq<string>, i: nat, peers: seq<string>)
    requires i < |xs| <= |peers|
    requires forall j | 0 <= j < |xs| :: peers[j] == xs[(i + (1 + 0) * j + 1) % |xs|]
    ensures CoversAll(xs, peers[..|xs|])
  {
    forall x | x in xs
      ensures x in peers[..|xs|]
    {
      var t :| 0 <= t < |xs| && xs[t] == x;
      var j := VisitsByOne(i, |xs|, t);
      assert peers[..|xs|][j] == x;
    }
  }

  lemma CoversByTwoIff(xs: seq<string>, i: nat, peers: seq<string>)
    requires NoDuplicates(xs) && i < |xs| <= |peers|
    requires forall j | 0 <= j < |xs| :: peers[j] == xs[(i + (1 + 1) * j + 1) % |xs|]
    ensures CoversAll(xs, peers[..|xs|]) <==> |xs| % 2 == 1
  {
    var n := |xs|;
    if n % 2 == 1 {
      forall x | x in xs
        ensures x in peers[..n]
      {
        var t :| 0 <= t < n && xs[t] == x;
        var j := VisitsByTwo(i, n, t);
        assert peers[..n][j] == x;
      }
    } else {
      forall j | 0 <= j < n
        ensures peers[j] != xs[i]
      {
        MissesByTwo(i, n, j);
      }
      assert xs[i] in xs;
    }
  }

  /** The n places visited one by one are all different. */
  lemma DifferByOne(i: nat, n: nat, j: nat, k: nat)
    requires i < n && j < k < n
    ensures (i + (1 + 0) * j + 1) % n != (i + (1 + 0) * k + 1) % n
  {
    OnceAround(i + j + 1, n);
    OnceAround(i + k + 1, n);
  }

  lemma OnceAround(a: nat, n: nat)
    requires n > 0 && a < 2 * n
    ensures a % n == if a < n then a else a - n
  {
    if a < n {
      ModIs(a, n, 0, a);
    } else {
      ModIs(a, n, 1, a - n);
    }
  }

  lemma DistinctByOne(xs: seq<string>, i: nat, peers: seq<string>)
    requires NoDuplicates(xs) && i < |xs| <= |peers|
    requires forall j | 0 <= j < |xs| :: peers[j] == xs[(i + (1 + 0) * j + 1) % |xs|]
    ensures NoDuplicates(peers[..|xs|])
  {
    forall j, k | 0 <= j < k < |xs|
      ensures peers[..|xs|][j] != peers[..|xs|][k]
    {
      DifferByOne(i, |xs|, j, k);
      Distinct(xs, (i + (1 + 0) * j + 1) % |xs|, (i + (1 + 0) * k + 1) % |xs|);
    }
  }

  lemma Distinct(xs: seq<string>, p: nat, q: nat)
    requires NoDuplicates(xs) && p < |xs| && q < |xs|
    ensures xs[p] == xs[q] <==> p == q
  {
  }

  /** In steps of two around an even list, the starting address is never tried, however often. */
  lemma SkippedByTwo(xs: seq<string>, i: nat, peers: seq<string>)
    requires NoDuplicates(xs) && i < |xs| && |xs| % 2 == 0
    requires forall j | 0 <= j < |peers| :: peers[j] == xs[(i + (1 + 1) * j + 1) % |xs|]
    ensures xs[i] !in peers
  {
    forall j | 0 <= j < |peers|
      ensures peers[j] != xs[i]
    {
      MissesByTwo(i, |xs|, j);
      Distinct(xs, i, (i + (1 + 1) * j + 1) % |xs|);
    }
  }

  /**
   The schedule of the retries in a log: which address each goes to; when the first n
   are all of them; without drops, each exactly once; and with one drop per retry and
   n even, the starting address never, by any number of retries.
  */
  predicate Scheduled(xs: seq<string>, i: nat, peers: seq<string>, perRetry: nat)
    requires i < |xs|
  {
    && (forall j | 0 <= j < |peers| :: peers[j] == xs[(i + (1 + perRetry) * j + 1) % |xs|])
    && (|peers| >= |xs| ==> (CoversAll(xs, peers[..|xs|]) <==> perRetry == 0 || |xs| % 2 == 1))
    && (|peers| >= |xs| && perRetry == 0 ==> NoDuplicates(peers[..|xs|]))
    && (|xs| % 2 == 0 && perRetry == 1 ==> xs[i] !in peers)
  }

  lemma {:induction false} RotatingSchedule(xs: seq<string>, i: nat, log: Log, perRetry: nat)
    requires NoDuplicates(xs) && i < |xs| && perRetry <= 1
    requires Follows(xs, i, log) && DropsBeforeRetries(xs, i, log, perRetry)
    ensures Scheduled(xs, i, Retries(log), perRetry)
  {
    var peers := Retries(log);
    RetryTargets(xs, i, log, perRetry);
    if perRetry == 0 {
      if |peers| >= |xs| {
        CoversByOne(xs, i, peers);
        DistinctByOne(xs, i, peers);
      }
    } else {
      if |peers| >= |xs| {
        CoversByTwoIff(xs, i, peers);
      }
      if |xs| % 2 == 0 {
        SkippedByTwo(xs, i, peers);
      }
    }
  }

  lemma {:induction false} RotatesFrom(s: State, after: seq<Action>, perRetry: nat)
    requires perRetry <= 1 && Tracking(s) && s.addresses != [] && AllUnlucky(s, after)
    ensures var t := Perform(s, after);
            && |s.log| <= |t.log|
            && (DropsBeforeRetries(s.addresses, s.addressIndex, t.log[|s.log|..], perRetry) ==>
                  Scheduled(s.addresses, s.addressIndex, Retries(t.log[|s.log|..]), perRetry))
  {
    var xs, i, len := s.addresses, s.addressIndex, |s.log|;
    assert s.log[len..] == [];
    RotatingRun(s, after, xs, i, len);
    var log := Perform(s, after).log[len..];
    if DropsBeforeRetries(xs, i, log, perRetry) {
      RotatingSchedule(xs, i, log, perRetry);
    }
  }

  /**
   Retry rotation, on every run. Take any state a run has reached with n addresses,
   and any further actions that find no new address and report no connection. If no
   failing callback moves the index, retry j goes to the address j + 1 places on, and
   the first n retries try every address exactly once. If exactly one does per retry,
   the step is two, and the first n retries cover every address if and only if n is
   odd; if n is even, the address the run started from is never tried at all.
  */
  lemma {:induction false} RetryRotates(
    argument: Option<string>, direct: bool, before: seq<Action>, after: seq<Action>, perRetry: nat)
    requires perRetry <= 1
    requires Perform(Initial(argument, direct), before).addresses != []
    requires AllUnlucky(Perform(Initial(argument, direct), before), after)
    ensures var s := Perform(Initial(argument, direct), before);
            var t := Perform(s, after);
            && s.addressIndex < |s.addresses| && |s.log| <= |t.log|
            && (DropsBeforeRetries(s.addresses, s.addressIndex, t.log[|s.log|..], perRetry) ==>
                  Scheduled(s.addresses, s.addressIndex, Retries(t.log[|s.log|..]), perRetry))
  {
    var s := Perform(Initial(argument, direct), before);
    TrackingReached(argument, direct, before);
    RotatesFrom(s, after, perRetry);
  }

  // ----- Runs without callbacks -----

  predicate NoConnection(actions: seq<Action>) {
    forall a | a in actions :: !a.Connection?
  }

  lemma {:induction false} NoCallbackEvents(s: State, actions: seq<Action>)
    requires NoConnection(actions)
    ensures var t := Perform(s, actions);
            s.log <= t.log && forall k | |s.log| <= k < |t.log| :: !t.log[k].Callback?
    decreases |actions|
  {
    if actions == [] {
    } else {
      ActFrame(s, actions[0]);
      NoCallbackEvents(Act(s, actions[0]), actions[1..]);
    }
  }

  /** Without a single callback the schedule follows from the actions alone: every address exactly once in n retries. */
  lemma {:induction false} UndisturbedRotation(
    argument: Option<string>, direct: bool, before: seq<Action>, after: seq<Action>)
    requires Perform(Initial(argument, direct), before).addresses != []
    requires AllUnlucky(Perform(Initial(argument, direct), before), after) && NoConnection(after)
    ensures var s := Perform(Initial(argument, direct), before);
            var t := Perform(s, after);
            && s.addressIndex < |s.addresses| && |s.log| <= |t.log|
            && Scheduled(s.addresses, s.addressIndex, Retries(t.log[|s.log|..]), 0)
  {
    var s := Perform(Initial(argument, direct), before);
    RetryRotates(argument, direct, before, after, 0);
    NoCallbackEvents(s, after);
    var log := Perform(s, after).log[|s.log|..];
    assert forall k | 0 <= k < |log| :: log[k] == Perform(s, after).log[|s.log| + k];
    NoCallbacksNoDrops(s.addresses, s.addressIndex, log);
  }

  // ----- A run that never tries one of two addresses -----

  /** Between rounds: registered, not connected, nothing queued, and the first of two addresses current. */
  predicate BetweenRounds(s: State, a: string, b: string) {
    && !s.stopped && s.registered && !s.connected && s.queue == []
    && a != b && s.addresses == [a, b] && s.addressIndex == 0 && s.address == Some(a)
  }

  /** A reading of the clock at which both a retry and a send are due. */
  function NextReading(s: State): real {
    (if s.lastConnectTry >= s.nextCommandAt then s.lastConnectTry else s.nextCommandAt) + 7.0
  }

  /** Retry, send the request, and learn that it failed. */
  function Round(s: State, b: string): seq<Action> {
    [Retry(NextReading(s)), Send(NextReading(s), true), Connection(Messages.Connection(1, 0, false, b))]
  }

  function RoundEvents(b: string, now: real): Log {
    [Retried(b, now), Queued(ClientConnect(b)), Sent(ClientConnect(b), now), Callback(b, false)]
  }

  lemma RetryEffect(s: State, a: string, b: string)
    requires BetweenRounds(s, a, b)
    ensures var now := NextReading(s);
            OnRetry(s, now) ==
            s.(addressIndex := 1, address := Some(b), queue := [ClientConnect(b)], lastConnectTry := now,
               log := s.log + [Retried(b, now), Queued(ClientConnect(b))])
  {
    var now := NextReading(s);
    var t := Advance(s);
    assert t == s.(addressIndex := 1, address := Some(b));
    assert s.log + [Retried(b, now)] + [Queued(ClientConnect(b))] ==
           s.log + [Retried(b, now), Queued(ClientConnect(b))];
  }

  lemma FailEffect(s: State, a: string, b: string)
    requires a != b && s.addresses == [a, b] && s.address == Some(b) && s.addressIndex == 1
    ensures OnCallback(s, b, false) ==
            s.(addressIndex := 0, address := Some(a), connected := false, log := s.log + [Callback(b, false)])
  {
  }

  lemma RoundStates(s: State, a: string, b: string)
    requires BetweenRounds(s, a, b)
    ensures var now := NextReading(s);
            var t := OnCallback(OnSend(OnRetry(s, now), now, true), b, false);
            BetweenRounds(t, a, b) && t.log == s.log + RoundEvents(b, now)
  {
    var now := NextReading(s);
    RetryEffect(s, a, b);
    FailEffect(OnSend(OnRetry(s, now), now, true), a, b);
    RoundLog(s.log, b, now);
  }

  lemma RoundLog(log: Log, b: string, now: real)
    ensures ((log + [Retried(b, now), Queued(ClientConnect(b))]) + [Sent(ClientConnect(b), now)]) + [Callback(b, false)]
            == log + RoundEvents(b, now)
  {
  }

  lemma PerformThree(s: State, a: Action, b: Action, c: Action)
    ensures Perform(s, [a, b, c]) == Act(Act(Act(s, a), b), c)
    ensures Unlucky(s, a) && Unlucky(Act(s, a), b) && Unlucky(Act(Act(s, a), b), c) ==> AllUnlucky(s, [a, b, c])
  {
    var r := [a, b, c];
    assert r[1..] == [b, c] && [b, c][1..] == [c] && [c][1..] == [];
    var s1 := Act(s, a);
    var s2 := Act(s1, b);
    assert Perform(s2, [c]) == Perform(Act(s2, c), []);
    assert Perform(s1, [b, c]) == Perform(s2, [c]);
    assert AllUnlucky(Act(s2, c), []);
    assert Unlucky(s2, c) ==> AllUnlucky(s2, [c]);
    assert Unlucky(s1, b) && Unlucky(s2, c) ==> AllUnlucky(s1, [b, c]);
  }

  lemma RoundEffect(s: State, a: string, b: string)
    requires BetweenRounds(s, a, b) && Messages.Upper(b) == b
    ensures var t := Perform(s, Round(s, b));
            && BetweenRounds(t, a, b) && t.log == s.log + RoundEvents(b, NextReading(s))
            && AllUnlucky(s, Round(s, b))
  {
    var now, r := NextReading(s), Round(s, b);
    PerformThree(s, r[0], r[1], r[2]);
    RoundStates(s, a, b);
    RetryEffect(s, a, b);
    assert Act(s, r[0]) == OnRetry(s, now);
    assert Act(OnRetry(s, now), r[1]) == OnSend(OnRetry(s, now), now, true);
  }

  /** What m rounds leave in a log: m retries, all of the second address, each with a drop behind it. */
  predicate Starving(xs: seq<string>, log: Log, m: nat, b: string)
    requires xs != []
  {
    && Replay(xs, 0, log) == 0 && Drops(xs, 0, log) == m && DropsBeforeRetries(xs, 0, log, 1)
    && |Retries(log)| == m && forall p | p in Retries(log) :: p == b
  }

  lemma CountsSnoc(xs: seq<string>, log: Log, e: Event)
    requires xs != []
    ensures Drops(xs, 0, log + [e]) ==
            Drops(xs, 0, log) + if e.Callback? && e.peer == xs[Replay(xs, 0, log)] then 1 else 0
    ensures Retries(log + [e]) == Retries(log) + if e.Retried? then [e.peer] else []
  {
    Snoc(log, e);
  }

  lemma DropsSnoc(xs: seq<string>, log: Log, e: Event)
    requires xs != [] && DropsBeforeRetries(xs, 0, log, 1)
    requires e.Retried? ==> Drops(xs, 0, log) == |Retries(log)|
    ensures DropsBeforeRetries(xs, 0, log + [e], 1)
  {
    var more := log + [e];
    forall k | 0 <= k < |more| && more[k].Retried?
      ensures Drops(xs, 0, more[..k]) == 1 * |Retries(more[..k])|
    {
      assert more[..k] == log[..k];
      if k == |log| {
        assert log[..k] == log;
      } else {
        assert log[k] == more[k];
      }
    }
  }

  lemma EventSnoc(xs: seq<string>, log: Log, e: Event)
    requires xs != [] && DropsBeforeRetries(xs, 0, log, 1)
    requires e.Retried? ==> Drops(xs, 0, log) == |Retries(log)|
    ensures DropsBeforeRetries(xs, 0, log + [e], 1)
    ensures Drops(xs, 0, log + [e]) ==
            Drops(xs, 0, log) + if e.Callback? && e.peer == xs[Replay(xs, 0, log)] then 1 else 0
    ensures Retries(log + [e]) == Retries(log) + if e.Retried? then [e.peer] else []
    ensures Replay(xs, 0, log + [e]) ==
            if e.Retried? || (e.Callback? && e.peer == xs[Replay(xs, 0, log)])
            then (Replay(xs, 0, log) + 1) % |xs| else Replay(xs, 0, log)
  {
    DropsSnoc(xs, log, e);
    CountsSnoc(xs, log, e);
    ReplaySnoc(xs, 0, log, e);
  }

  lemma StarvingRound(a: string, b: string, log: Log, m: nat, now: real)
    requires a != b && Starving([a, b], log, m, b)
    ensures Starving([a, b], log + RoundEvents(b, now), m + 1, b)
  {
    var xs, r := [a, b], RoundEvents(b, now);
    var l1 := log + [r[0]];
    var l2 := l1 + [r[1]];
    var l3 := l2 + [r[2]];
    EventSnoc(xs, log, r[0]);
    EventSnoc(xs, l1, r[1]);
    EventSnoc(xs, l2, r[2]);
    EventSnoc(xs, l3, r[3]);
    assert l3 + [r[3]] == log + r;
  }

  lemma {:induction false} UnluckyConcat(s: State, a: seq<Action>, b: seq<Action>)
    requires AllUnlucky(s, a) && AllUnlucky(Perform(s, a), b)
    ensures AllUnlucky(s, a + b)
    decreases |a|
  {
    if a == [] {
      assert a + b == b;
    } else {
      UnluckyConcat(Act(s, a[0]), a[1..], b);
      Seqs.TailConcat(a, b);
    }
  }

  /** m rounds from a state, and what they add to its log. */
  lemma {:induction false} Rounds(s: State, a: string, b: string, m: nat) returns (after: seq<Action>)
    requires BetweenRounds(s, a, b) && Messages.Upper(b) == b
    ensures var t := Perform(s, after);
            && AllUnlucky(s, after) && BetweenRounds(t, a, b)
            && |s.log| <= |t.log| && Starving([a, b], t.log[|s.log|..], m, b)
  {
    if m == 0 {
      after := [];
      assert s.log[|s.log|..] == [];
    } else {
      var first := Rounds(s, a, b, m - 1);
      var t := Perform(s, first);
      RoundEffect(t, a, b);
      StarvingRound(a, b, t.log[|s.log|..], m - 1, NextReading(t));
      after := first + Round(t, b);
      PerformConcat(s, first, Round(t, b));
      UnluckyConcat(s, first, Round(t, b));
      assert (t.log + RoundEvents(b, NextReading(t)))[|s.log|..] == t.log[|s.log|..] + RoundEvents(b, NextReading(t));
    }
  }

  /** Given one address and finding another, the loop registers and sends what it has queued. */
  lemma TwoAddresses(a: string, b: string) returns (before: seq<Action>)
    requires Messages.Upper(a) == a != "" && Messages.Upper(b) == b && a != b
    ensures BetweenRounds(Perform(Initial(Some(a), false), before), a, b)
  {
    var s0 := Initial(Some(a), false);
    var found, registered := Found(b), Registered(Messages.Registration(0, 0), true, 0.0);
    var s1 := Act(s0, found);
    assert s1.addresses == [a] + [b];
    var s2 := Act(s1, registered);
    QueueAllState(Announce(s1, 0, true), Configuration(false));
    BridgePublication.PerformTwo(s0, found, registered);
    BridgePublication.DrainEmpties(s2);
    before := [found, registered] + BridgePublication.Drain(s2);
    PerformConcat(s0, [found, registered], BridgePublication.Drain(s2));
  }

  /**
   The schedule with one drop per retry does happen, for as long as one likes: given
   one address and finding another, a run can retry any number of times, each retry
   failing, and never try the first again.
  */
  lemma {:induction false} OneOfTwoNeverTried(a: string, b: string, m: nat)
    requires Messages.Upper(a) == a != "" && Messages.Upper(b) == b && a != b
    ensures exists before, after ::
              var s := Perform(Initial(Some(a), false), before);
              var t := Perform(s, after);
              && s.addresses == [a, b] && s.addressIndex == 0 && AllUnlucky(s, after)
              && |s.log| <= |t.log| && DropsBeforeRetries(s.addresses, 0, t.log[|s.log|..], 1)
              && |Retries(t.log[|s.log|..])| == m && a !in Retries(t.log[|s.log|..])
  {
    var before := TwoAddresses(a, b);
    var after := Rounds(Perform(Initial(Some(a), false), before), a, b, m);
  }
}
