/**
 What reading the terminal removes and what it keeps, in terms of the characters
 alone: the escape-sequence expression by its character ranges, carriage returns,
 and the lines that come out.
*/
module TerminalText {
  import opened Framing
  import Seqs

  // ----- The expression -----

  /** q is "ESC [", then characters of p, then of i, then f, in the ranges of the expression. */
  predicate HasParts(q: string, p: string, i: string, f: char) {
    && q == "\U{001B}[" + (p + (i + [f]))
    && (forall k | 0 <= k < |p| :: p[k] in "0123456789;?")
    && (forall k | 0 <= k < |i| :: ' ' <= i[k] <= '/')
    && '@' <= f <= '~'
  }

  ghost predicate IsSequence(q: string) {
    exists p, i, f :: HasParts(q, p, i, f)
  }

  lemma {:induction false} IntermediatesTail(i: string, f: char, rest: string, intermediates: bool)
    requires (forall k | 0 <= k < |i| :: ' ' <= i[k] <= '/') && '@' <= f <= '~'
    ensures CsiTail((i + [f]) + rest, intermediates) == |i| + 1
  {
    var s := (i + [f]) + rest;
    if i == "" {
      assert s[0] == f;
    } else {
      assert s[0] == i[0] && s[1..] == (i[1..] + [f]) + rest;
      IntermediatesTail(i[1..], f, rest, true);
    }
  }

  lemma {:induction false} ParametersTail(p: string, i: string, f: char, rest: string)
    requires forall k | 0 <= k < |p| :: p[k] in "0123456789;?"
    requires (forall k | 0 <= k < |i| :: ' ' <= i[k] <= '/') && '@' <= f <= '~'
    ensures CsiTail((p + (i + [f])) + rest, false) == |p| + |i| + 1
  {
    var s := (p + (i + [f])) + rest;
    if p == "" {
      assert p + (i + [f]) == i + [f];
      IntermediatesTail(i, f, rest, false);
    } else {
      assert s[0] == p[0] && s[1..] == (p[1..] + (i + [f])) + rest;
      assert IsParameter(p[0]) && !IsIntermediate(p[0]);
      ParametersTail(p[1..], i, f, rest);
    }
  }

  lemma {:induction false} TailParts(s: string, intermediates: bool) returns (p: string, i: string, f: char)
    requires CsiTail(s, intermediates) > 0
    ensures s[..CsiTail(s, intermediates)] == p + (i + [f]) && (intermediates ==> p == "")
    ensures (forall k | 0 <= k < |p| :: p[k] in "0123456789;?")
            && (forall k | 0 <= k < |i| :: ' ' <= i[k] <= '/') && '@' <= f <= '~'
  {
    var n := CsiTail(s, intermediates);
    if IsIntermediate(s[0]) {
      p, i, f := TailParts(s[1..], true);
      i := [s[0]] + i;
      assert s[..n] == [s[0]] + s[1..][..n - 1];
    } else if IsParameter(s[0]) && !intermediates {
      p, i, f := TailParts(s[1..], false);
      p := [s[0]] + p;
      assert s[..n] == [s[0]] + s[1..][..n - 1];
    } else {
      p, i, f := "", "", s[0];
    }
  }

  lemma SequenceFound(q: string, rest: string)
    requires IsSequence(q)
    ensures CsiLength(q + rest) == |q| > 0
  {
    var p, i, f :| HasParts(q, p, i, f);
    var tail := p + (i + [f]);
    assert (q + rest)[0] == ESC && (q + rest)[1] == '[' && (q + rest)[2..] == tail + rest;
    ParametersTail(p, i, f, rest);
  }

  /** The expression matches the first n characters of s, and no other number, exactly if they are in its ranges. */
  lemma SequenceIff(s: string, n: nat)
    requires n <= |s|
    ensures IsSequence(s[..n]) <==> n > 0 && CsiLength(s) == n
  {
    if IsSequence(s[..n]) {
      SequenceFound(s[..n], s[n..]);
      assert s[..n] + s[n..] == s;
    }
    if n > 0 && CsiLength(s) == n {
      var p, i, f := TailParts(s[2..], false);
      Seqs.TakeDrop(s, 2, n);
      assert s[..n] == [s[0], s[1]] + s[..n][2..];
      assert HasParts(s[..n], p, i, f);
    }
  }

  /**
   t is what remains of s when, from the left, every sequence is removed and every
   character at which none starts is kept.
  */
  ghost predicate Remains(s: string, t: string)
    decreases |s|
  {
    if s == "" then t == ""
    else if exists n | 0 < n <= |s| :: IsSequence(s[..n]) then
      exists n | 0 < n <= |s| :: IsSequence(s[..n]) && Remains(s[n..], t)
    else t != "" && t[0] == s[0] && Remains(s[1..], t[1..])
  }

  /** Strip leaves exactly that: each sequence vanishes, and nothing else does. */
  lemma {:induction false} StripRemains(s: string, t: string)
    ensures Remains(s, t) <==> t == Strip(s)
    decreases |s|
  {
    if s == "" {
    } else {
      forall n | 0 < n <= |s|
        ensures IsSequence(s[..n]) <==> CsiLength(s) == n
      {
        SequenceIff(s, n);
      }
      if CsiLength(s) > 0 {
        StripRemains(s[CsiLength(s)..], t);
      } else {
        if t != "" {
          StripRemains(s[1..], t[1..]);
        }
        assert t == Strip(s) <==> t != "" && t[0] == s[0] && t[1..] == Strip(s[1..]);
      }
    }
  }

  // ----- Carriage returns -----

  /** What is left is the text between the carriage returns, put together. */
  lemma {:induction false} ReturnsDropped(s: string)
    ensures DropReturns(s) == Seqs.Flatten(Split(s, '\r'))
  {
    if s == "" {
      assert Split(s, '\r')[1..] == [];
    } else {
      ReturnsDropped(s[1..]);
      var rest := Split(s[1..], '\r');
      if s[0] == '\r' {
        assert Split(s, '\r')[1..] == rest;
      } else {
        assert Split(s, '\r')[1..] == rest[1..];
        Seqs.Assoc([s[0]], rest[0], Seqs.Flatten(rest[1..]));
      }
    }
  }

  function StripAll(chunks: seq<string>): string {
    if chunks == [] then "" else Strip(chunks[0]) + StripAll(chunks[1..])
  }

  lemma {:induction false} SanitiseAllDrops(chunks: seq<string>)
    ensures SanitiseAll(chunks) == DropReturns(StripAll(chunks))
  {
    if chunks == [] {
    } else {
      SanitiseAllDrops(chunks[1..]);
      DropReturnsConcat(Strip(chunks[0]), StripAll(chunks[1..]));
    }
  }

  /**
   For every chunking: no carriage return is delivered or stays behind, and the lines,
   joined by newlines, are what lies between the carriage returns of the stripped reads.
  */
  lemma NoReturns(chunks: seq<string>)
    ensures var f := FeedAll("", chunks);
            && '\r' !in f.buffer && (forall l | l in f.lines :: '\r' !in l)
            && Join(f.lines + [f.buffer], '\n') == Seqs.Flatten(Split(StripAll(chunks), '\r'))
  {
    var f := FeedAll("", chunks);
    var parts := f.lines + [f.buffer];
    FeedAllSplits("", chunks);
    assert "" + SanitiseAll(chunks) == SanitiseAll(chunks);
    SanitiseAllDrops(chunks);
    ReturnsDropped(StripAll(chunks));
    JoinSplit(SanitiseAll(chunks), '\n');
    SplitAbsent(SanitiseAll(chunks), '\n', '\r');
    assert parts[|f.lines|] == f.buffer;
    forall l | l in f.lines
      ensures '\r' !in l
    {
      var i :| 0 <= i < |f.lines| && f.lines[i] == l;
      assert parts[i] == l;
    }
  }

  // ----- What a terminal shows -----

  /** A character shown, or a control sequence. */
  datatype Piece = Text(c: char) | Control(q: string) {
    ghost predicate Valid() {
      match this
      case Text(c) => c != '\U{001B}'
      case Control(q) => IsSequence(q)
    }
  }

  function Stream(pieces: seq<Piece>): string {
    if pieces == [] then ""
    else (if pieces[0].Text? then [pieces[0].c] else pieces[0].q) + Stream(pieces[1..])
  }

  /** The characters shown but carriage returns. */
  function Visible(pieces: seq<Piece>): string {
    if pieces == [] then ""
    else (if pieces[0].Text? && pieces[0].c != '\r' then [pieces[0].c] else "") + Visible(pieces[1..])
  }

  lemma {:induction false} SanitiseVisible(pieces: seq<Piece>)
    requires forall p | p in pieces :: p.Valid()
    ensures Sanitise(Stream(pieces)) == Visible(pieces)
  {
    if pieces == [] {
    } else {
      var rest := Stream(pieces[1..]);
      SanitiseVisible(pieces[1..]);
      assert pieces[0] in pieces;
      if pieces[0].Control? {
        SequenceFound(pieces[0].q, rest);
        Seqs.SplitConcat(pieces[0].q, rest);
      } else {
        var s := [pieces[0].c] + rest;
        assert s[0] != ESC && s[1..] == rest;
        assert Strip(s) == [s[0]] + Strip(rest);
        assert ([s[0]] + Strip(rest))[1..] == Strip(rest);
      }
    }
  }

  /** Whatever decorates them, the characters shown come out line by line, if no read cuts a control sequence. */
  lemma DecoratedLines(pieces: seq<Piece>, chunks: seq<string>)
    requires (forall p | p in pieces :: p.Valid()) && Seqs.Flatten(chunks) == Stream(pieces) && CleanCuts(chunks)
    ensures var f := FeedAll("", chunks); f.lines + [f.buffer] == Split(Visible(pieces), '\n')
  {
    SanitiseVisible(pieces);
    FramingExact(chunks);
  }

  /** Characters of which neither terminal nor framing makes anything. */
  predicate Plain(s: string) {
    forall i | 0 <= i < |s| :: s[i] != '\U{001B}' && s[i] != '\r' && s[i] != '\n'
  }

  lemma PlainConcat(a: string, b: string)
    requires Plain(a) && Plain(b)
    ensures Plain(a + b)
  {
  }

  /** Lines as a pseudo-terminal ends them. */
  function Ended(lines: seq<string>): string {
    if lines == [] then "" else lines[0] + ("\r\n" + Ended(lines[1..]))
  }

  lemma {:induction false} StripPlain(s: string)
    requires ESC !in s
    ensures Strip(s) == s
  {
    if s == "" {
    } else {
      StripPlain(s[1..]);
    }
  }

  lemma {:induction false} DropPlain(s: string)
    requires '\r' !in s
    ensures DropReturns(s) == s
  {
    if s == "" {
    } else {
      DropPlain(s[1..]);
    }
  }

  lemma {:induction false} StripAllPlain(chunks: seq<string>)
    requires ESC !in Seqs.Flatten(chunks)
    ensures StripAll(chunks) == Seqs.Flatten(chunks)
  {
    if chunks == [] {
    } else {
      assert ESC !in chunks[0] && ESC !in Seqs.Flatten(chunks[1..]);
      StripPlain(chunks[0]);
      StripAllPlain(chunks[1..]);
    }
  }

  lemma {:induction false} EndedSplits(lines: seq<string>, rest: string)
    requires (forall l | l in lines :: Plain(l)) && Plain(rest)
    ensures ESC !in Ended(lines) + rest
    ensures Split(DropReturns(Ended(lines) + rest), '\n') == lines + [rest]
  {
    if lines == [] {
      assert Ended(lines) + rest == rest;
      DropPlain(rest);
      SplitItem(rest, "", '\n');
    } else {
      var more := Ended(lines[1..]) + rest;
      EndedSplits(lines[1..], rest);
      assert lines[0] in lines;
      Seqs.Assoc("\r\n", Ended(lines[1..]), rest);
      Seqs.Assoc(lines[0], "\r\n" + Ended(lines[1..]), rest);
      DropEnded(lines[0], more);
      SplitItem(lines[0], DropReturns(more), '\n');
      Seqs.Uncons(lines);
      Seqs.Assoc([lines[0]], lines[1..], [rest]);
    }
  }

  lemma DropEnded(line: string, more: string)
    requires '\r' !in line
    ensures DropReturns(line + ("\r\n" + more)) == line + "\n" + DropReturns(more)
  {
    DropReturnsConcat(line, "\r\n" + more);
    DropReturnsConcat("\r\n", more);
    DropPlain(line);
    assert "\r\n"[1..] == "\n" && "\n"[1..] == "";
    assert DropReturns("\r\n") == "" + DropReturns("\n");
    assert DropReturns("\n") == "\n" + DropReturns("");
    assert DropReturns("\r\n") == "\n";
    Seqs.Assoc(line, "\n", DropReturns(more));
  }

  /** Lines that a pseudo-terminal ends come out as they are, however the stream is cut into reads. */
  lemma TerminalLines(lines: seq<string>, rest: string, chunks: seq<string>)
    requires (forall l | l in lines :: Plain(l)) && Plain(rest)
    requires Seqs.Flatten(chunks) == Ended(lines) + rest
    ensures FeedAll("", chunks) == Framed(lines, rest)
  {
    EndedSplits(lines, rest);
    StripAllPlain(chunks);
    SanitiseAllDrops(chunks);
    FeedAllSplits("", chunks);
    assert "" + SanitiseAll(chunks) == SanitiseAll(chunks);
    var f := FeedAll("", chunks);
    var a, b := f.lines + [f.buffer], lines + [rest];
    assert f.lines == a[..|a| - 1] && f.buffer == a[|a| - 1];
    assert lines == b[..|b| - 1] && rest == b[|b| - 1];
  }
}
