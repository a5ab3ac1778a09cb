/**
 Turning btclient's terminal output into lines: `BtClientPty.lines` and the
 escape-sequence expression `ANSI_RE` of duet5-hogp-bridge.py.

 A control sequence is ESC, '[', parameter bytes, intermediate bytes and one
 final byte (section 5.4 of ECMA-48). The three character classes are disjoint,
 so the expression has at most one match at any position and its search never
 has to backtrack.
*/
module Framing {
  import opened Wrappers
  import Seqs

  const ESC: char := '\U{001B}'

  predicate IsParameter(c: char) {
    '0' <= c <= '9' || c == ';' || c == '?'
  }

  predicate IsIntermediate(c: char) {
    ' ' <= c <= '/'
  }

  predicate IsFinal(c: char) {
    '@' <= c <= '~'
  }

  /** Length of the longest prefix of s whose characters all satisfy p. */
  function Span(s: string, p: char -> bool): (n: nat)
    ensures n <= |s|
    ensures forall i | 0 <= i < n :: p(s[i])
    ensures n < |s| ==> !p(s[n])
  {
    if s == "" || !p(s[0]) then 0
    else
      var n := Span(s[1..], p);
      assert forall i | 1 <= i < n + 1 :: s[i] == s[1..][i - 1];
      n + 1
  }

  lemma SpanUnique(s: string, p: char -> bool, n: nat)
    requires n <= |s|
    requires forall i | 0 <= i < n :: p(s[i])
    requires n < |s| ==> !p(s[n])
    ensures Span(s, p) == n
  {
  }

  /**
   Length of what completes a control sequence after "ESC [": parameter bytes, then
   intermediate bytes, then one final byte; 0 when s does not start that way.
   intermediates says that an intermediate byte has been read.
  */
  function CsiTail(s: string, intermediates: bool): (n: nat)
    ensures n <= |s|
  {
    if s == "" then 0
    else if IsIntermediate(s[0]) || (IsParameter(s[0]) && !intermediates) then
      var n := CsiTail(s[1..], IsIntermediate(s[0]));
      if n == 0 then 0 else n + 1
    else if IsFinal(s[0]) then 1 else 0
  }

  /** Length of the control sequence at the head of s, or 0 when there is none. */
  function CsiLength(s: string): (n: nat)
    ensures n <= |s| && n != 1 && n != 2
  {
    if |s| >= 2 && s[0] == ESC && s[1] == '[' && CsiTail(s[2..], false) > 0 then CsiTail(s[2..], false) + 2 else 0
  }

  lemma {:induction false} CsiTailPlain(s: string, intermediates: bool)
    ensures forall i | 0 <= i < CsiTail(s, intermediates) :: s[i] != ESC && s[i] != '\n'
  {
    if s == "" {
    } else {
      CsiTailPlain(s[1..], IsIntermediate(s[0]));
      forall i | 0 <= i < CsiTail(s, intermediates)
        ensures s[i] != ESC && s[i] != '\n'
      {
        if i > 0 {
          assert s[i] == s[1..][i - 1];
        }
      }
    }
  }

  /** A control sequence holds no ESC but its first character, and no newline. */
  lemma CsiPlain(s: string)
    requires CsiLength(s) > 0
    ensures s[0] == ESC && forall i | 1 <= i < CsiLength(s) :: s[i] != ESC && s[i] != '\n'
  {
    CsiTailPlain(s[2..], false);
    assert forall i | 2 <= i < CsiLength(s) :: s[i] == s[2..][i - 2];
  }

  /** Text with every control sequence removed, scanning from the left as re.sub does. */
  function Strip(s: string): string
    decreases |s|
  {
    if s == "" then ""
    else if CsiLength(s) > 0 then Strip(s[CsiLength(s)..])
    else [s[0]] + Strip(s[1..])
  }

  /** Length of the first unit of that scan: one control sequence, or one other character. */
  function Unit(s: string): (k: nat)
    requires s != ""
    ensures 0 < k <= |s|
  {
    if CsiLength(s) > 0 then CsiLength(s) else 1
  }

  /** Going on from offset i by the length of the unit there, one comes to offset n. */
  predicate Reaches(units: nat -> nat, i: nat, n: nat)
    decreases n - i
  {
    i == n || (i < n && units(i) > 0 && Reaches(units, i + units(i), n))
  }

  /** The length of the unit at each offset of s. */
  function UnitsOf(s: string): nat -> nat {
    (i: nat) => if i < |s| then Unit(s[i..]) else 0
  }

  /** Offset n of s lies between two units: cutting there cuts no control sequence. */
  predicate Boundary(s: string, n: nat)
    requires n <= |s|
  {
    Reaches(UnitsOf(s), 0, n)
  }

  function Count(s: string, c: char): nat {
    if s == "" then 0 else (if s[0] == c then 1 else 0) + Count(s[1..], c)
  }

  lemma {:induction false} CountConcat(a: string, b: string, c: char)
    ensures Count(a + b, c) == Count(a, c) + Count(b, c)
  {
    if a == "" {
      assert a + b == b;
    } else {
      CountConcat(a[1..], b, c);
      assert (a + b)[1..] == a[1..] + b;
    }
  }

  lemma {:induction false} CountAbsent(s: string, c: char)
    requires forall i | 0 <= i < |s| :: s[i] != c
    ensures Count(s, c) == 0
  {
    if s == "" {
    } else {
      CountAbsent(s[1..], c);
    }
  }

  // ----- Stripping and cutting -----

  lemma {:induction false} CsiTailLocal(s: string, intermediates: bool, n: nat)
    requires n <= |s|
    ensures var k := CsiTail(s, intermediates); CsiTail(s[..n], intermediates) == if 0 < k <= n then k else 0
  {
    if n == 0 {
    } else {
      CsiTailLocal(s[1..], IsIntermediate(s[0]), n - 1);
      Seqs.TakeDrop(s, 1, n);
    }
  }

  /** Whether a control sequence starts s is decided by its own characters alone. */
  lemma CsiLocal(s: string, n: nat)
    requires n <= |s|
    ensures CsiLength(s[..n]) == if 0 < CsiLength(s) <= n then CsiLength(s) else 0
  {
    if n >= 2 {
      CsiTailLocal(s[2..], false, n - 2);
      Seqs.TakeDrop(s, 2, n);
    }
  }

  /** What is left of the first unit. */
  function Shown(s: string): string
    requires s != ""
  {
    if CsiLength(s) > 0 then "" else [s[0]]
  }

  lemma StripUnit(s: string)
    requires s != ""
    ensures Strip(s) == Shown(s) + Strip(s[Unit(s)..])
  {
  }

  lemma {:induction false} ReachesShift(units: nat -> nat, i: nat, m: nat, n: nat)
    requires m <= n && Reaches(units, i, m)
    ensures Reaches(units, i, n) <==> Reaches(units, m, n)
    decreases m - i
  {
    if i == m {
    } else {
      ReachesShift(units, i + units(i), m, n);
    }
  }

  /** Going on from offset i is the same where the units are the same, m places on. */
  lemma {:induction false} ReachesSame(units: nat -> nat, m: nat, tail: nat -> nat, i: nat, n: nat)
    requires forall j: nat :: tail(j) == units(m + j)
    ensures Reaches(units, m + i, m + n) <==> Reaches(tail, i, n)
    decreases n - i
  {
    if i >= n || tail(i) == 0 {
    } else {
      ReachesSame(units, m, tail, i + tail(i), n);
    }
  }

  lemma UnitsOfTail(s: string, m: nat)
    requires m <= |s|
    ensures forall j: nat :: UnitsOf(s[m..])(j) == UnitsOf(s)(m + j)
  {
    forall j: nat
      ensures UnitsOf(s[m..])(j) == UnitsOf(s)(m + j)
    {
      if m + j < |s| {
        Seqs.DropDrop(s, m, j);
        assert UnitsOf(s)(m + j) == Unit(s[m + j..]) == Unit(s[m..][j..]) == UnitsOf(s[m..])(j);
      }
    }
  }

  lemma BoundaryShift(s: string, m: nat, n: nat)
    requires m + n <= |s| && Boundary(s, m)
    ensures Boundary(s, m + n) <==> Boundary(s[m..], n)
  {
    UnitsOfTail(s, m);
    ReachesTail(UnitsOf(s), m, UnitsOf(s[m..]), n);
  }

  lemma ReachesTail(units: nat -> nat, m: nat, tail: nat -> nat, n: nat)
    requires Reaches(units, 0, m) && forall j: nat :: tail(j) == units(m + j)
    ensures Reaches(units, 0, m + n) <==> Reaches(tail, 0, n)
  {
    ReachesShift(units, 0, m, m + n);
    ReachesSame(units, m, tail, 0, n);
  }

  lemma BoundaryUnit(s: string, n: nat)
    requires s != "" && 0 < n <= |s|
    ensures Boundary(s, n) <==> Unit(s) <= n && Boundary(s[Unit(s)..], n - Unit(s))
  {
    var k := Unit(s);
    assert s[0..] == s;
    FirstUnit(UnitsOf(s), n);
    FirstUnit(UnitsOf(s), k);
    if k <= n {
      BoundaryShift(s, k, n - k);
    }
  }

  lemma FirstUnit(units: nat -> nat, n: nat)
    requires n > 0 && units(0) > 0
    ensures Reaches(units, 0, n) <==> units(0) <= n && Reaches(units, units(0), n)
  {
  }

  /** Units are found the same way in a prefix that ends after them. */
  lemma StripPrefixUnit(s: string, n: nat)
    requires s != "" && Unit(s) <= n <= |s|
    ensures Strip(s[..n]) == Shown(s) + Strip(s[Unit(s)..][..n - Unit(s)])
  {
    CsiLocal(s, n);
    assert Unit(s[..n]) == Unit(s) && Shown(s[..n]) == Shown(s);
    Seqs.TakeDrop(s, Unit(s), n);
    StripUnit(s[..n]);
  }

  /** A cut behind the first unit splits the text if it splits what follows that unit. */
  lemma StripStep(s: string, k: nat, n: nat)
    requires s != "" && k == Unit(s) <= n <= |s|
    requires Strip(s[k..]) == Strip(s[k..][..n - k]) + Strip(s[k..][n - k..])
    ensures Strip(s) == Strip(s[..n]) + Strip(s[n..])
  {
    var shown, middle, right := Shown(s), Strip(s[k..][..n - k]), Strip(s[n..]);
    Seqs.DropDrop(s, k, n - k);
    StripUnit(s);
    assert Strip(s) == shown + (middle + right);
    StripPrefixUnit(s, n);
    assert Strip(s[..n]) == shown + middle;
    Seqs.Assoc(shown, middle, right);
  }

  lemma {:induction false} StripAtBoundary(s: string, n: nat)
    requires n <= |s| && Boundary(s, n)
    ensures Strip(s) == Strip(s[..n]) + Strip(s[n..])
    decreases |s|
  {
    if n == 0 {
      assert s[n..] == s;
    } else {
      BoundaryUnit(s, n);
      StripAtBoundary(s[Unit(s)..], n - Unit(s));
      StripStep(s, Unit(s), n);
    }
  }

  // ----- Cutting inside a control sequence -----

  /** The ESC characters that are left of the first unit: one, or none. */
  function ShownEscs(s: string): nat
    requires s != ""
  {
    if CsiLength(s) == 0 && s[0] == ESC then 1 else 0
  }

  /** The ESC characters that are left of a text. */
  function Escs(s: string): nat
    decreases |s|
  {
    if s == "" then 0 else ShownEscs(s) + Escs(s[Unit(s)..])
  }

  lemma {:induction false} EscsCounts(s: string)
    ensures Escs(s) == Count(Strip(s), ESC)
    decreases |s|
  {
    if s == "" {
    } else {
      EscsCounts(s[Unit(s)..]);
      StripUnit(s);
      CountConcat(Shown(s), Strip(s[Unit(s)..]), ESC);
    }
  }

  lemma {:induction false} EscsPlain(s: string, n: nat)
    requires n <= |s| && forall i | 0 <= i < n :: s[i] != ESC
    ensures Escs(s) == Escs(s[n..])
  {
    if n > 0 {
      EscsPlain(s[1..], n - 1);
      Seqs.DropDrop(s, 1, n - 1);
    } else {
      assert s[n..] == s;
    }
  }

  lemma EscsPrefixUnit(s: string, n: nat)
    requires s != "" && Unit(s) <= n <= |s|
    ensures Escs(s[..n]) == ShownEscs(s) + Escs(s[Unit(s)..][..n - Unit(s)])
  {
    CsiLocal(s, n);
    assert Unit(s[..n]) == Unit(s) && ShownEscs(s[..n]) == ShownEscs(s);
    Seqs.TakeDrop(s, Unit(s), n);
  }

  /** The cut sequence shows its ESC in the first part, and nothing else of either part has one. */
  lemma EscsCut(s: string, n: nat)
    requires 0 < n < CsiLength(s)
    ensures Escs(s[..n]) == 1 && Escs(s[n..]) == Escs(s[CsiLength(s)..])
  {
    var k := CsiLength(s);
    CsiPlain(s);
    CsiLocal(s, n);
    EscsPlain(s[..n][1..], n - 1);
    assert s[..n][1..][n - 1..] == "";
    assert forall i | 0 <= i < k - n :: s[n..][i] == s[n + i];
    EscsPlain(s[n..], k - n);
    Seqs.DropDrop(s, n, k - n);
  }

  lemma {:induction false} EscsInside(s: string, n: nat)
    requires n <= |s| && !Boundary(s, n)
    ensures Escs(s) + 1 == Escs(s[..n]) + Escs(s[n..])
    decreases |s|
  {
    var k := Unit(s);
    BoundaryUnit(s, n);
    if k <= n {
      EscsPrefixUnit(s, n);
      EscsInside(s[k..], n - k);
      Seqs.DropDrop(s, k, n - k);
    } else {
      EscsCut(s, n);
    }
  }

  /** A cut inside a control sequence leaves that sequence in the output, with its ESC. */
  lemma StripInsideSequence(s: string, n: nat)
    requires n <= |s| && !Boundary(s, n)
    ensures Count(Strip(s), ESC) + 1 == Count(Strip(s[..n]), ESC) + Count(Strip(s[n..]), ESC)
  {
    EscsInside(s, n);
    EscsCounts(s);
    EscsCounts(s[..n]);
    EscsCounts(s[n..]);
  }

  lemma BoundarySplit(a: string, b: string, n: nat)
    requires Boundary(a + b, |a|) && n <= |b|
    ensures Boundary(a + b, |a| + n) <==> Boundary(b, n)
  {
    Seqs.SplitConcat(a, b);
    BoundaryShift(a + b, |a|, n);
  }

  /** Removing control sequences never removes or adds a newline. */
  lemma {:induction false} StripKeepsNewlines(s: string)
    ensures Count(Strip(s), '\n') == Count(s, '\n')
    decreases |s|
  {
    if s == "" {
    } else {
      var k := Unit(s);
      StripKeepsNewlines(s[k..]);
      assert s == s[..k] + s[k..];
      CountConcat(s[..k], s[k..], '\n');
      if CsiLength(s) > 0 {
        CsiPlain(s);
        CountAbsent(s[..k], '\n');
      }
    }
  }

  // ----- Carriage returns -----

  function DropReturns(s: string): (t: string)
    ensures '\r' !in t
  {
    if s == "" then "" else (if s[0] == '\r' then "" else [s[0]]) + DropReturns(s[1..])
  }

  lemma {:induction false} DropReturnsConcat(a: string, b: string)
    ensures DropReturns(a + b) == DropReturns(a) + DropReturns(b)
  {
    if a == "" {
      assert a + b == b;
    } else {
      DropReturnsConcat(a[1..], b);
      Seqs.TailConcat(a, b);
      Seqs.Assoc(if a[0] == '\r' then "" else [a[0]], DropReturns(a[1..]), DropReturns(b));
    }
  }

  lemma {:induction false} DropReturnsCount(s: string, c: char)
    requires c != '\r'
    ensures Count(DropReturns(s), c) == Count(s, c)
  {
    if s == "" {
    } else {
      DropReturnsCount(s[1..], c);
      CountConcat(if s[0] == '\r' then "" else [s[0]], DropReturns(s[1..]), c);
    }
  }

  /** What one read contributes to the buffer. */
  function Sanitise(chunk: string): string {
    DropReturns(Strip(chunk))
  }

  // ----- Chunks -----

  function SanitiseAll(chunks: seq<string>): string {
    if chunks == [] then "" else Sanitise(chunks[0]) + SanitiseAll(chunks[1..])
  }

  /** Offset at which chunk i starts in the whole stream. */
  function Offset(chunks: seq<string>, i: nat): (n: nat)
    requires i <= |chunks|
    ensures n <= |Seqs.Flatten(chunks)|
  {
    Seqs.FlattenConcat(chunks[..i], chunks[i..]);
    assert chunks[..i] + chunks[i..] == chunks;
    |Seqs.Flatten(chunks[..i])|
  }

  /** No chunk boundary falls inside a control sequence of the stream. */
  ghost predicate CleanCuts(chunks: seq<string>) {
    forall i: nat | i <= |chunks| :: Boundary(Seqs.Flatten(chunks), Offset(chunks, i))
  }

  lemma OffsetTail(chunks: seq<string>, i: nat)
    requires chunks != [] && i < |chunks|
    ensures Offset(chunks, 0) == 0 && Offset(chunks, i + 1) == |chunks[0]| + Offset(chunks[1..], i)
  {
    assert chunks[..i + 1][1..] == chunks[1..][..i];
  }

  lemma BoundaryTail(chunks: seq<string>, i: nat)
    requires chunks != [] && i < |chunks| && Boundary(Seqs.Flatten(chunks), |chunks[0]|)
    ensures Boundary(Seqs.Flatten(chunks), Offset(chunks, i + 1))
       <==> Boundary(Seqs.Flatten(chunks[1..]), Offset(chunks[1..], i))
  {
    OffsetTail(chunks, i);
    BoundaryBehind(Seqs.Flatten(chunks), chunks[0], Seqs.Flatten(chunks[1..]),
                   Offset(chunks, i + 1), Offset(chunks[1..], i));
  }

  lemma BoundaryBehind(s: string, a: string, b: string, m: nat, n: nat)
    requires s == a + b && Boundary(s, |a|) && n <= |b| && m == |a| + n
    ensures Boundary(s, m) <==> Boundary(b, n)
  {
    BoundarySplit(a, b, n);
  }

  lemma CleanCutsUnfold(chunks: seq<string>)
    requires chunks != []
    ensures CleanCuts(chunks)
       <==> Boundary(Seqs.Flatten(chunks), |chunks[0]|) && CleanCuts(chunks[1..])
  {
    OffsetTail(chunks, 0);
    assert Offset(chunks[1..], 0) == 0;
    if Boundary(Seqs.Flatten(chunks), |chunks[0]|) {
      forall i: nat | i < |chunks|
        ensures Boundary(Seqs.Flatten(chunks), Offset(chunks, i + 1))
           <==> Boundary(Seqs.Flatten(chunks[1..]), Offset(chunks[1..], i))
      {
        BoundaryTail(chunks, i);
      }
      if CleanCuts(chunks[1..]) {
        forall i: nat | i <= |chunks|
          ensures Boundary(Seqs.Flatten(chunks), Offset(chunks, i))
        {
          if i > 0 {
            assert Boundary(Seqs.Flatten(chunks[1..]), Offset(chunks[1..], i - 1));
          }
        }
      }
      if CleanCuts(chunks) {
        forall i: nat | i <= |chunks[1..]|
          ensures Boundary(Seqs.Flatten(chunks[1..]), Offset(chunks[1..], i))
        {
          assert Boundary(Seqs.Flatten(chunks), Offset(chunks, i + 1));
        }
      }
    } else {
      assert Offset(chunks, 1) == |chunks[0]|;
    }
  }

  lemma {:induction false} SanitiseAllEsc(chunks: seq<string>)
    ensures Count(SanitiseAll(chunks), ESC) >= Count(Sanitise(Seqs.Flatten(chunks)), ESC)
    ensures CleanCuts(chunks) ==> SanitiseAll(chunks) == Sanitise(Seqs.Flatten(chunks))
    ensures !CleanCuts(chunks) ==> Count(SanitiseAll(chunks), ESC) > Count(Sanitise(Seqs.Flatten(chunks)), ESC)
  {
    if chunks == [] {
      assert Boundary(Seqs.Flatten(chunks), 0);
      forall i: nat | i <= |chunks|
        ensures Boundary(Seqs.Flatten(chunks), Offset(chunks, i))
      {
        assert Offset(chunks, i) == 0;
      }
    } else {
      var s, rest := Seqs.Flatten(chunks), chunks[1..];
      var n := |chunks[0]|;
      SanitiseAllEsc(rest);
      CleanCutsUnfold(chunks);
      assert s[..n] == chunks[0] && s[n..] == Seqs.Flatten(rest);
      CountConcat(Sanitise(chunks[0]), SanitiseAll(rest), ESC);
      DropReturnsCount(Strip(s), ESC);
      DropReturnsCount(Strip(chunks[0]), ESC);
      DropReturnsCount(Strip(Seqs.Flatten(rest)), ESC);
      if Boundary(s, n) {
        StripAtBoundary(s, n);
        DropReturnsConcat(Strip(chunks[0]), Strip(Seqs.Flatten(rest)));
        CountConcat(Strip(chunks[0]), Strip(Seqs.Flatten(rest)), ESC);
      } else {
        StripInsideSequence(s, n);
      }
    }
  }

  // ----- Lines -----

  function PrependTo(c: char, parts: seq<string>): seq<string>
    requires parts != []
  {
    [[c] + parts[0]] + parts[1..]
  }

  /** Python's s.split(c): always at least one part. */
  function Split(s: string, c: char): (parts: seq<string>)
    ensures |parts| == Count(s, c) + 1
    ensures forall i | 0 <= i < |parts| :: c !in parts[i]
  {
    if s == "" then [""]
    else if s[0] == c then [""] + Split(s[1..], c)
    else PrependTo(s[0], Split(s[1..], c))
  }

  function Join(parts: seq<string>, c: char): string
    requires parts != []
  {
    if |parts| == 1 then parts[0] else parts[0] + [c] + Join(parts[1..], c)
  }

  lemma {:induction false} JoinSplit(s: string, c: char)
    ensures Join(Split(s, c), c) == s
  {
    if s == "" {
    } else {
      JoinSplit(s[1..], c);
      var rest := Split(s[1..], c);
      if s[0] == c {
        assert Split(s, c)[1..] == rest;
      } else {
        assert Split(s, c)[1..] == rest[1..];
      }
    }
  }

  lemma {:induction false} InJoin(parts: seq<string>, c: char, i: nat, d: char)
    requires i < |parts| && d in parts[i]
    ensures d in Join(parts, c)
  {
    if |parts| > 1 && i > 0 {
      InJoin(parts[1..], c, i - 1, d);
    }
  }

  /** Parts hold no character but those of the text. */
  lemma SplitAbsent(s: string, c: char, d: char)
    requires d !in s
    ensures forall i | 0 <= i < |Split(s, c)| :: d !in Split(s, c)[i]
  {
    JoinSplit(s, c);
    forall i | 0 <= i < |Split(s, c)|
      ensures d !in Split(s, c)[i]
    {
      if d in Split(s, c)[i] {
        InJoin(Split(s, c), c, i, d);
      }
    }
  }

  /** A text without c is one part, and so is what comes before the first c. */
  lemma {:induction false} SplitItem(item: string, rest: string, c: char)
    requires c !in item
    ensures Split(item, c) == [item]
    ensures Split(item + [c] + rest, c) == [item] + Split(rest, c)
  {
    var s := item + [c] + rest;
    if item == "" {
      assert s == [c] + rest && s[1..] == rest;
    } else {
      SplitItem(item[1..], rest, c);
      assert item[0] != c;
      Seqs.Assoc(item, [c], rest);
      Seqs.TailConcat(item, [c] + rest);
      Seqs.Assoc(item[1..], [c], rest);
      Seqs.Uncons(item);
      assert ([item[1..]] + Split(rest, c))[1..] == Split(rest, c);
    }
  }

  /** The unfinished last part of a split, and the finished ones before it. */
  function Last(parts: seq<string>): string
    requires parts != []
  {
    parts[|parts| - 1]
  }

  function Front(parts: seq<string>): seq<string>
    requires parts != []
  {
    parts[..|parts| - 1]
  }

  lemma PrependFront(c: char, q: seq<string>, r: seq<string>)
    requires |q| > 1
    ensures PrependTo(c, Front(q) + r) == Front(PrependTo(c, q)) + r
    ensures Last(PrependTo(c, q)) == Last(q)
  {
    assert (Front(q) + r)[1..] == q[1..|q| - 1] + r;
  }

  lemma {:induction false} SplitAppend(a: string, b: string, c: char)
    ensures Split(a + b, c) == Front(Split(a, c)) + Split(Last(Split(a, c)) + b, c)
  {
    if a == "" {
      assert a + b == b;
    } else {
      var q := Split(a[1..], c);
      SplitAppend(a[1..], b, c);
      Seqs.TailConcat(a, b);
      if a[0] == c {
        Seqs.Assoc([""], Front(q), Split(Last(q) + b, c));
        assert Front([""] + q) == [""] + Front(q);
      } else if |q| > 1 {
        PrependFront(a[0], q, Split(Last(q) + b, c));
      } else {
        Seqs.Assoc([a[0]], q[0], b);
        SplitCons(a[0], q[0] + b, c);
        NothingInFront(q, Split(q[0] + b, c));
        NothingInFront(Split(a, c), Split([a[0]] + q[0] + b, c));
      }
    }
  }

  lemma SplitCons(d: char, s: string, c: char)
    requires d != c
    ensures Split([d] + s, c) == PrependTo(d, Split(s, c))
  {
    assert ([d] + s)[1..] == s;
  }

  lemma NothingInFront(parts: seq<string>, more: seq<string>)
    requires |parts| == 1
    ensures Front(parts) + more == more && Last(parts) == parts[0]
  {
  }

  datatype Framed = Framed(lines: seq<string>, buffer: string)

  /** One call of lines(): the complete lines, and what stays buffered. */
  function Feed(buffer: string, chunk: string): Framed {
    var parts := Split(buffer + Sanitise(chunk), '\n');
    Framed(Front(parts), Last(parts))
  }

  function FeedAll(buffer: string, chunks: seq<string>): Framed
    decreases |chunks|
  {
    if chunks == [] then Framed([], buffer)
    else
      var first := Feed(buffer, chunks[0]);
      var rest := FeedAll(first.buffer, chunks[1..]);
      Framed(first.lines + rest.lines, rest.buffer)
  }

  lemma {:induction false} FeedAllSplits(buffer: string, chunks: seq<string>)
    requires '\n' !in buffer
    ensures var f := FeedAll(buffer, chunks);
            f.lines + [f.buffer] == Split(buffer + SanitiseAll(chunks), '\n')
    decreases |chunks|
  {
    if chunks == [] {
      SplitItem(buffer, "", '\n');
      assert buffer + SanitiseAll(chunks) == buffer;
    } else {
      var first := Feed(buffer, chunks[0]);
      var rest := SanitiseAll(chunks[1..]);
      FeedAllSplits(first.buffer, chunks[1..]);
      SplitAppend(buffer + Sanitise(chunks[0]), rest, '\n');
      Seqs.Assoc(buffer, Sanitise(chunks[0]), rest);
      var f := FeedAll(first.buffer, chunks[1..]);
      Seqs.Assoc(first.lines, f.lines, [f.buffer]);
    }
  }

  /**
   Chunk-invariant framing, exactly: the lines delivered and the text still
   buffered are those of the sanitised whole stream if and only if no read cut a
   control sequence.
  */
  lemma FramingExact(chunks: seq<string>)
    ensures var f := FeedAll("", chunks);
            f.lines + [f.buffer] == Split(Sanitise(Seqs.Flatten(chunks)), '\n') <==> CleanCuts(chunks)
  {
    var f := FeedAll("", chunks);
    FeedAllSplits("", chunks);
    assert "" + SanitiseAll(chunks) == SanitiseAll(chunks);
    SanitiseAllEsc(chunks);
    JoinSplit(SanitiseAll(chunks), '\n');
    JoinSplit(Sanitise(Seqs.Flatten(chunks)), '\n');
  }

  /** Reads that do cut one exist, and show it: ESC "[m" read as ESC and "[m" stays in the buffer. */
  lemma CutSequenceShows()
    ensures var chunks := [[ESC], "[m"];
            && !CleanCuts(chunks)
            && FeedAll("", chunks) == Framed([], [ESC, '[', 'm'])
            && Sanitise(Seqs.Flatten(chunks)) == ""
  {
    var chunks := [[ESC], "[m"];
    var whole := [ESC, '[', 'm'];
    assert chunks[1..] == ["[m"] && chunks[1..][1..] == [];
    assert Seqs.Flatten(chunks[1..]) == "[m" + Seqs.Flatten<char>([]);
    assert Seqs.Flatten(chunks) == whole;
    OneSequence();
    assert Sanitise([ESC]) == [ESC] && Sanitise("[m") == "[m" by {
      ShortPlain();
    }
    assert SanitiseAll(chunks[1..]) == "[m" + "";
    assert SanitiseAll(chunks) == whole;
    FeedAllSplits("", chunks);
    SplitItem(whole, "", '\n');
    assert "" + SanitiseAll(chunks) == whole;
    var f := FeedAll("", chunks);
    assert |f.lines + [f.buffer]| == 1;
    assert (f.lines + [f.buffer])[0] == f.buffer;
    FramingExact(chunks);
    SplitItem("", "", '\n');
  }

  lemma OneSequence()
    ensures Sanitise([ESC, '[', 'm']) == ""
  {
    var s := [ESC, '[', 'm'];
    assert s[2..] == "m";
    assert CsiTail("m", false) == 1;
    assert s[2..][1..] == "" && s[3..] == "";
    assert CsiLength(s) == 3;
    assert Strip(s) == Strip(s[3..]);
    assert Strip("") == "";
  }

  lemma ShortPlain()
    ensures Sanitise([ESC]) == [ESC] && Sanitise("[m") == "[m"
  {
    assert Strip("m") == "m" + Strip("");
    assert Strip("[m") == "[" + Strip("m");
    assert [ESC][1..] == "";
    assert Strip([ESC]) == [ESC] + Strip("");
    assert DropReturns([ESC]) == [ESC] + DropReturns("");
    assert "[m"[1..] == "m" && "m"[1..] == "";
    assert DropReturns("m") == "m" + DropReturns("");
    assert DropReturns("[m") == "[" + DropReturns("m");
  }

  lemma {:induction false} SanitiseAllNewlines(chunks: seq<string>)
    ensures Count(SanitiseAll(chunks), '\n') == Count(Seqs.Flatten(chunks), '\n')
  {
    if chunks == [] {
    } else {
      SanitiseAllNewlines(chunks[1..]);
      StripKeepsNewlines(chunks[0]);
      DropReturnsCount(Strip(chunks[0]), '\n');
      CountConcat(Sanitise(chunks[0]), SanitiseAll(chunks[1..]), '\n');
      CountConcat(chunks[0], Seqs.Flatten(chunks[1..]), '\n');
    }
  }

  /** However the stream is cut, one line comes out per newline that went in, and none stays behind. */
  lemma LineCount(chunks: seq<string>)
    ensures var f := FeedAll("", chunks);
            |f.lines| == Count(Seqs.Flatten(chunks), '\n') && '\n' !in f.buffer
            && forall i | 0 <= i < |f.lines| :: '\n' !in f.lines[i]
  {
    var f := FeedAll("", chunks);
    FeedAllSplits("", chunks);
    SanitiseAllNewlines(chunks);
    var parts := Split("" + SanitiseAll(chunks), '\n');
    assert "" + SanitiseAll(chunks) == SanitiseAll(chunks);
    assert parts == f.lines + [f.buffer];
    assert f.buffer == parts[|f.lines|];
    assert forall i | 0 <= i < |f.lines| :: f.lines[i] == parts[i];
  }

  // ----- The pseudo-terminal client -----

  /** btclient's pseudo-terminal: None stands for a read that would block. */
  class BtClientPty {
    var buffer: string

    ghost predicate Valid()
      reads this
    {
      '\n' !in buffer && '\r' !in buffer
    }

    constructor ()
      ensures Valid() && buffer == ""
    {
      buffer := "";
    }

    method Lines(chunk: Option<string>) returns (parts: seq<string>)
      requires Valid()
      modifies this
      ensures Valid()
      ensures Framed(parts, buffer) == Feed(old(buffer), if chunk.Some? then chunk.value else "")
      ensures forall l | l in parts :: '\n' !in l && '\r' !in l
    {
      if chunk.None? || chunk.value == "" {
        SplitItem(buffer, "", '\n');
        assert buffer + Sanitise("") == buffer;
        return [];
      }
      buffer := buffer + Sanitise(chunk.value);
      SplitAbsent(buffer, '\n', '\r');
      parts := Split(buffer, '\n');
      buffer := parts[|parts| - 1];
      parts := parts[..|parts| - 1];
    }

    /** Reading a whole series of chunks is one pass over the stream they make up. */
    method Drain(chunks: seq<string>) returns (all: seq<string>)
      requires buffer == ""
      modifies this
      ensures Valid() && Framed(all, buffer) == FeedAll("", chunks)
    {
      all := [];
      for i := 0 to |chunks|
        invariant Valid()
        invariant FeedAll("", chunks) ==
                  Framed(all + FeedAll(buffer, chunks[i..]).lines, FeedAll(buffer, chunks[i..]).buffer)
      {
        assert chunks[i..][1..] == chunks[i + 1..];
        ghost var rest := FeedAll(Feed(buffer, chunks[i]).buffer, chunks[i + 1..]);
        var part := Lines(Some(chunks[i]));
        Seqs.Assoc(all, part, rest.lines);
        all := all + part;
      }
      assert chunks[|chunks|..] == [];
    }
  }
}
