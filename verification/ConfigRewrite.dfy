/**
 install-live-bridge.sh's edit of btadapterd.conf, a list of lines: a file that
 names the filter library has the old library's file name replaced by the
 hotfix's (sed), and any other gets a preload line (awk).
*/
module ConfigRewrite {
  import Seqs

  const NEEDLE := "libduet5-gatt-filter"
  const OLD := "libduet5-gatt-filter.so"
  const NEW := "libduet5-gatt-filter-hotfix.so"
  const VARIABLE := "env LD_PRELOAD=/usr/local/duet-bt-debug/"
  const PRELOAD := VARIABLE + NEW
  const EXEC := "exec "

  // ----- sed: s|libduet5-gatt-filter\.so|libduet5-gatt-filter-hotfix.so|g -----

  predicate Contains(s: string, p: string) {
    p <= s || (s != "" && Contains(s[1..], p))
  }

  /** Every occurrence from the left, searching on behind each replacement. */
  function Replace(s: string): string {
    if OLD <= s then NEW + Replace(s[|OLD|..])
    else if s == "" then ""
    else [s[0]] + Replace(s[1..])
  }

  /** In this text every 'l' is followed by a letter other than 'i', so it holds no beginning of a name. */
  predicate Inert(r: string) {
    forall i | 0 <= i < |r| && r[i] == 'l' :: i + 1 < |r| && r[i + 1] != 'i'
  }

  lemma OldInert()
    ensures "li" <= OLD && Inert(OLD[1..])
  {
  }

  lemma NeedleInert()
    ensures "li" <= NEEDLE && Inert(NEEDLE[1..])
  {
  }

  lemma NewInert()
    ensures "li" <= NEW && Inert(NEW[1..])
  {
  }

  lemma VariableInert()
    ensures Inert(VARIABLE)
  {
  }

  lemma NamesBegin()
    ensures NEEDLE <= OLD && NEEDLE <= NEW
    ensures forall rest :: !(OLD <= NEW + rest)
  {
    forall rest: string
      ensures !(OLD <= NEW + rest)
    {
      assert (NEW + rest)[20] == NEW[20] && OLD[20] != NEW[20];
    }
  }

  lemma PrefixCons(p: string, c: char, s: string)
    requires p != ""
    ensures p <= [c] + s <==> p[0] == c && p[1..] <= s
  {
    Seqs.Uncons(p);
  }

  /** Where the old name does not start, the first character is kept and the rest decides. */
  lemma PrefixStep(p: string, t: string)
    requires p != "" && t != "" && !(OLD <= t)
    requires p[1..] <= Replace(t[1..]) <==> p[1..] <= t[1..]
    ensures p <= Replace(t) <==> p <= t
  {
    Seqs.Uncons(t);
    PrefixCons(p, t[0], t[1..]);
    PrefixCons(p, t[0], Replace(t[1..]));
  }

  /** An occurrence of the old name begins, before and after, as no inert text does. */
  lemma OccurrenceBegins(t: string)
    requires OLD <= t
    ensures "li" <= t && "li" <= Replace(t)
  {
    OldInert();
    NewInert();
  }

  lemma NotInert(t: string, r: string)
    requires "li" <= t && Inert(r) && r != ""
    ensures !(r <= t)
  {
    assert t[0] == 'l' && t[1] == 'i';
    if r[0] == 'l' {
      assert r[1] != 'i';
    }
  }

  /** Replacing neither makes nor breaks inert text at the start of a text. */
  lemma {:induction false} InertKept(t: string, r: string)
    requires Inert(r)
    ensures r <= Replace(t) <==> r <= t
    decreases |r|
  {
    if r == "" {
    } else if OLD <= t {
      OccurrenceBegins(t);
      NotInert(t, r);
      NotInert(Replace(t), r);
    } else if t != "" {
      InertKept(t[1..], r[1..]);
      PrefixStep(r, t);
    }
  }

  /** Nor a name, where the old name does not start. */
  lemma NameKept(s: string, p: string)
    requires p != "" && Inert(p[1..])
    requires s != "" && !(OLD <= s)
    ensures p <= Replace(s) <==> p <= s
  {
    InertKept(s[1..], p[1..]);
    PrefixStep(p, s);
  }

  /** The old name does not start in inert text, whatever follows. */
  lemma {:induction false} NothingBefore(a: string, s: string)
    requires !Contains(s, OLD) && Inert(a)
    ensures !Contains(a + s, OLD)
  {
    if a == "" {
      assert a + s == s;
    } else {
      Seqs.TailConcat(a, s);
      NothingBefore(a[1..], s);
      OldInert();
      if a[0] == 'l' {
        assert (a + s)[1] == a[1];
      }
    }
  }

  /** Nor inside the new one. */
  lemma NothingInNew(rest: string)
    requires !Contains(rest, OLD)
    ensures !Contains(NEW + rest, OLD)
  {
    NewInert();
    NothingBefore(NEW[1..], rest);
    NamesBegin();
    Seqs.TailConcat(NEW, rest);
  }

  /** What sed leaves does not contain the old name: the replacement makes no new match. */
  lemma {:induction false} NothingLeft(s: string)
    ensures !Contains(Replace(s), OLD)
    decreases |s|
  {
    if OLD <= s {
      NothingLeft(s[|OLD|..]);
      NothingInNew(Replace(s[|OLD|..]));
    } else if s != "" {
      NothingLeft(s[1..]);
      OldInert();
      NameKept(s, OLD);
    }
  }

  lemma {:induction false} NothingToReplace(s: string)
    requires !Contains(s, OLD)
    ensures Replace(s) == s
  {
    if s == "" {
    } else {
      NothingToReplace(s[1..]);
    }
  }

  /** The old name does not start before its first occurrence: it does not overlap itself. */
  lemma NotYet(a: string, b: string)
    requires a != "" && !Contains(a, OLD)
    ensures !(OLD <= a + OLD + b)
  {
    var s := a + OLD + b;
    if |a| >= |OLD| {
      assert s[..|OLD|] == a[..|OLD|];
    } else {
      OldInert();
      assert s[|a|..] == OLD + b;
      assert s[|a|] == OLD[0] && s[|a| + 1] == OLD[1];
      assert OLD[1..][|a| - 1] == OLD[|a|];
      if OLD[|a|] == 'l' {
        assert OLD[1..][|a|] == OLD[|a| + 1];
      }
    }
  }

  /** Up to the first occurrence nothing changes, there the new name stands for the old, and sed goes on behind it. */
  lemma {:induction false} ReplaceFirst(a: string, b: string)
    requires !Contains(a, OLD)
    ensures Replace(a + OLD + b) == a + NEW + Replace(b)
  {
    if a == "" {
      ReplaceAtOnce(b);
      assert a + OLD + b == OLD + b && a + NEW + Replace(b) == NEW + Replace(b);
    } else {
      ReplaceFirst(a[1..], b);
      NotYet(a, b);
      Regroup(a, OLD, b);
      Regroup(a, NEW, Replace(b));
      ReplaceLater(a[0], a[1..] + OLD + b);
    }
  }

  lemma Regroup(a: string, b: string, c: string)
    requires a != ""
    ensures a + b + c == [a[0]] + (a[1..] + b + c)
  {
  }

  lemma ReplaceAtOnce(b: string)
    ensures Replace(OLD + b) == NEW + Replace(b)
  {
    assert (OLD + b)[|OLD|..] == b;
  }

  lemma ReplaceLater(c: char, s: string)
    requires !(OLD <= [c] + s)
    ensures Replace([c] + s) == [c] + Replace(s)
  {
    assert ([c] + s)[1..] == s;
  }

  /** grep's answer does not change. */
  lemma {:induction false} NeedleKept(s: string)
    ensures Contains(Replace(s), NEEDLE) <==> Contains(s, NEEDLE)
    decreases |s|
  {
    NamesBegin();
    if OLD <= s {
    } else if s != "" {
      NeedleKept(s[1..]);
      NeedleInert();
      NameKept(s, NEEDLE);
    }
  }

  lemma {:induction false} OldNamesNeedle(s: string)
    ensures Contains(s, OLD) || Contains(s, NEW) ==> Contains(s, NEEDLE)
  {
    NamesBegin();
    if s == "" {
    } else {
      OldNamesNeedle(s[1..]);
    }
  }

  lemma {:induction false} NewAppears(s: string)
    requires Contains(s, OLD)
    ensures Contains(Replace(s), NEW)
    decreases |s|
  {
    if OLD <= s {
    } else {
      NewAppears(s[1..]);
    }
  }

  // ----- The file -----

  predicate Names(lines: seq<string>) {
    exists i | 0 <= i < |lines| :: Contains(lines[i], NEEDLE)
  }

  function ReplaceAll(lines: seq<string>): (r: seq<string>)
    ensures |r| == |lines| && forall i | 0 <= i < |r| :: r[i] == Replace(lines[i])
  {
    if lines == [] then [] else [Replace(lines[0])] + ReplaceAll(lines[1..])
  }

  /** The first line awk's /^exec / matches, or the number of lines when none does. */
  function FirstExec(lines: seq<string>): (i: nat)
    ensures i <= |lines|
    ensures forall j | 0 <= j < i :: !(EXEC <= lines[j])
    ensures i < |lines| ==> EXEC <= lines[i]
  {
    if lines == [] || EXEC <= lines[0] then 0 else 1 + FirstExec(lines[1..])
  }

  /** The preload line before the first exec line, or at the end. */
  function WithPreload(lines: seq<string>): seq<string> {
    lines[..FirstExec(lines)] + [PRELOAD] + lines[FirstExec(lines)..]
  }

  function Rewrite(lines: seq<string>): seq<string> {
    if Names(lines) then ReplaceAll(lines) else WithPreload(lines)
  }

  lemma {:induction false} FirstExecUnique(lines: seq<string>, i: nat)
    requires i <= |lines|
    requires forall j | 0 <= j < i :: !(EXEC <= lines[j])
    requires i < |lines| ==> EXEC <= lines[i]
    ensures FirstExec(lines) == i
  {
  }

  /** The awk program: its pattern rules run line by line, then its END rule. */
  method InsertPreload(lines: seq<string>) returns (out: seq<string>)
    ensures out == WithPreload(lines)
  {
    out := [];
    var done := false;
    for i := 0 to |lines|
      invariant done ==> FirstExec(lines) < i && out == WithPreload(lines)[..i + 1]
      invariant !done ==> out == lines[..i] && forall j | 0 <= j < i :: !(EXEC <= lines[j])
    {
      if EXEC <= lines[i] && !done {
        FirstExecUnique(lines, i);
        out := out + [PRELOAD];
        done := true;
      }
      out := out + [lines[i]];
    }
    if !done {
      FirstExecUnique(lines, |lines|);
      out := out + [PRELOAD];
    }
  }

  /** grep -q */
  method Grep(lines: seq<string>, p: string) returns (found: bool)
    ensures found <==> exists i | 0 <= i < |lines| :: Contains(lines[i], p)
  {
    found := false;
    for i := 0 to |lines|
      invariant found <==> exists j | 0 <= j < i :: Contains(lines[j], p)
    {
      if Contains(lines[i], p) {
        found := true;
      }
    }
  }

  /** sed over the lines. */
  method Substitute(lines: seq<string>) returns (out: seq<string>)
    ensures out == ReplaceAll(lines)
  {
    out := [];
    for i := 0 to |lines|
      invariant |out| == i && forall j | 0 <= j < i :: out[j] == Replace(lines[j])
    {
      out := out + [Replace(lines[i])];
    }
  }

  /** The installer's if: grep -q, then sed or awk. */
  method Install(conf: seq<string>) returns (runtime: seq<string>)
    ensures runtime == Rewrite(conf)
  {
    var found := Grep(conf, NEEDLE);
    if found {
      runtime := Substitute(conf);
    } else {
      runtime := InsertPreload(conf);
    }
  }

  lemma {:induction false} ContainsBehind(a: string, s: string, p: string)
    requires p <= s
    ensures Contains(a + s, p)
  {
    if a == "" {
      assert a + s == s;
    } else {
      ContainsBehind(a[1..], s, p);
      Seqs.TailConcat(a, s);
    }
  }

  lemma PreloadNames()
    ensures Contains(PRELOAD, NEEDLE) && Contains(PRELOAD, NEW) && !Contains(PRELOAD, OLD)
  {
    NamesBegin();
    ContainsBehind(VARIABLE, NEW, NEEDLE);
    ContainsBehind(VARIABLE, NEW, NEW);
    assert NEW + "" == NEW;
    NothingInNew("");
    VariableInert();
    NothingBefore(VARIABLE, NEW);
  }

  lemma AlreadyReplaced(out: seq<string>)
    requires Names(out) && forall j | 0 <= j < |out| :: !Contains(out[j], OLD)
    ensures Rewrite(out) == out
  {
    forall j | 0 <= j < |out|
      ensures Replace(out[j]) == out[j]
    {
      NothingToReplace(out[j]);
    }
    assert ReplaceAll(out) == out;
  }

  /** Whichever branch was taken, the result names the filter. */
  lemma NamedAfterwards(lines: seq<string>)
    ensures Names(Rewrite(lines))
  {
    var out := Rewrite(lines);
    if Names(lines) {
      var i :| 0 <= i < |lines| && Contains(lines[i], NEEDLE);
      NeedleKept(lines[i]);
      assert Contains(out[i], NEEDLE);
    } else {
      PreloadNames();
      assert out[FirstExec(lines)] == PRELOAD;
    }
  }

  /**
   Installing again changes nothing: what sed wrote has nothing left to replace and
   is still recognised by grep, and so is a file with the preload line.
  */
  lemma RewriteIdempotent(lines: seq<string>)
    ensures Rewrite(Rewrite(lines)) == Rewrite(lines)
  {
    NamedAfterwards(lines);
    OldGone(lines);
    AlreadyReplaced(Rewrite(lines));
  }

  /** A file that does not name the filter gets the preload line before its first exec line, and all else is kept. */
  lemma PreloadPlaced(lines: seq<string>)
    requires !Names(lines)
    ensures var out, i := Rewrite(lines), FirstExec(lines);
            && |out| == |lines| + 1 && out[i] == PRELOAD
            && out[..i] + out[i + 1..] == lines
            && (forall j | 0 <= j <= i :: !(EXEC <= out[j]))
            && (i < |lines| ==> EXEC <= out[i + 1])
  {
    PreloadNotExec();
    Placed(lines, FirstExec(lines), PRELOAD, EXEC);
  }

  lemma Placed(lines: seq<string>, i: nat, l: string, exec: string)
    requires i <= |lines| && !(exec <= l) && forall j | 0 <= j < i :: !(exec <= lines[j])
    requires i < |lines| ==> exec <= lines[i]
    ensures var out := lines[..i] + [l] + lines[i..];
            && |out| == |lines| + 1 && out[i] == l && out[..i] + out[i + 1..] == lines
            && (forall j | 0 <= j <= i :: !(exec <= out[j]))
            && (i < |lines| ==> exec <= out[i + 1])
  {
    Inserted(lines, i, l);
  }

  lemma PreloadNotExec()
    ensures !(EXEC <= PRELOAD)
  {
    assert PRELOAD[1] != EXEC[1];
  }

  lemma Inserted(lines: seq<string>, i: nat, l: string)
    requires i <= |lines|
    ensures var out := lines[..i] + [l] + lines[i..];
            && |out| == |lines| + 1 && out[i] == l && out[..i] + out[i + 1..] == lines
            && (forall j | 0 <= j < i :: out[j] == lines[j])
            && (i < |lines| ==> out[i + 1] == lines[i])
  {
    var out := lines[..i] + [l] + lines[i..];
    assert out[..i] == lines[..i] && out[i + 1..] == lines[i..];
  }

  /** Afterwards no line loads the old filter. */
  lemma OldGone(lines: seq<string>)
    ensures forall i | 0 <= i < |Rewrite(lines)| :: !Contains(Rewrite(lines)[i], OLD)
  {
    PreloadNames();
    var out := Rewrite(lines);
    forall i | 0 <= i < |out|
      ensures !Contains(out[i], OLD)
    {
      if Names(lines) {
        NothingLeft(lines[i]);
      } else if out[i] != PRELOAD {
        assert out[i] in lines;
        OldNamesNeedle(out[i]);
      }
    }
  }

  predicate NamesFile(lines: seq<string>, p: string) {
    exists i | 0 <= i < |lines| :: Contains(lines[i], p)
  }

  lemma LineHotfix(s: string)
    ensures Contains(Replace(s), NEW) <==> Contains(s, OLD) || Contains(s, NEW)
  {
    if Contains(s, OLD) {
      NewAppears(s);
    } else {
      NothingToReplace(s);
    }
  }

  /** The hotfix is named afterwards, unless the file named the filter but neither library by its file name. */
  lemma HotfixNamed(lines: seq<string>)
    ensures NamesFile(Rewrite(lines), NEW) <==> !Names(lines) || NamesFile(lines, OLD) || NamesFile(lines, NEW)
  {
    var out := Rewrite(lines);
    if Names(lines) {
      forall i | 0 <= i < |lines|
        ensures Contains(out[i], NEW) <==> Contains(lines[i], OLD) || Contains(lines[i], NEW)
      {
        LineHotfix(lines[i]);
      }
    } else {
      PreloadNames();
      assert out[FirstExec(lines)] == PRELOAD;
    }
  }
}
