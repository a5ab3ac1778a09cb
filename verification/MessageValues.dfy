/**
 What a notification's value text means, for every text: it is items between
 commas, each blank or a word with white space around it, and it is a value
 exactly when every word is a number that a byte holds.
*/
module MessageValues {
  import opened Messages
  import opened MessageForms
  import opened Wrappers
  import Bytes
  import Decimal
  import Framing
  import Seqs

  type byte = Bytes.byte

  /** White space, perhaps none. */
  predicate White(w: string) {
    forall k | 0 <= k < |w| :: IsSpace(w[k])
  }

  datatype Item = Blank(space: string) | Word(before: string, word: string, after: string) {
    predicate Valid() {
      match this
      case Blank(space) => White(space)
      case Word(before, word, after) =>
        && White(before) && White(after) && word != "" && ',' !in word
        && !IsSpace(word[0]) && !IsSpace(word[|word| - 1])
    }

    function Text(): string {
      match this
      case Blank(space) => space
      case Word(before, word, after) => before + (word + after)
    }
  }

  /** An optional sign and digits. */
  predicate Numeral(s: string) {
    Digits(s) || (s != "" && s[0] in "+-" && Digits(s[1..]))
  }

  function NumeralValue(s: string): int
    requires Numeral(s)
  {
    if s[0] == '-' then
      var n: int := Decimal.Value(s[1..]);
      -n
    else Decimal.Value(if s[0] == '+' then s[1..] else s)
  }

  /** int() takes exactly the numerals. */
  lemma ParseIntIff(s: string, n: int)
    ensures ParseInt(s) == Some(n) <==> Numeral(s) && n == NumeralValue(s)
  {
    DigitsMeans(s);
    if s != "" {
      DigitsMeans(s[1..]);
    }
  }

  predicate IsByte(i: Item) {
    i.Word? ==> Numeral(i.word) && 0 <= NumeralValue(i.word) < 256
  }

  predicate AllBytes(items: seq<Item>) {
    forall i | i in items :: IsByte(i)
  }

  function ByteOf(i: Item): (b: seq<byte>)
    requires IsByte(i)
  {
    if i.Word? then [NumeralValue(i.word)] else []
  }

  lemma AllBytesCons(items: seq<Item>)
    requires items != []
    ensures AllBytes(items) <==> IsByte(items[0]) && AllBytes(items[1..])
  {
    if IsByte(items[0]) && AllBytes(items[1..]) {
      forall i | i in items
        ensures IsByte(i)
      {
        assert i == items[0] || i in items[1..];
      }
    }
  }

  /** The bytes the words of these items stand for. */
  function Values(items: seq<Item>): seq<byte>
    requires AllBytes(items)
  {
    if items == [] then []
    else
      AllBytesCons(items);
      ByteOf(items[0]) + Values(items[1..])
  }

  function Texts(items: seq<Item>): (t: seq<string>)
    ensures |t| == |items| && forall k | 0 <= k < |items| :: t[k] == items[k].Text()
  {
    seq(|items|, k requires 0 <= k < |items| => items[k].Text())
  }

  // ----- Stripping -----

  lemma {:induction false} StripLeftWhite(w: string, s: string)
    requires forall k | 0 <= k < |w| :: IsSpace(w[k])
    ensures StripLeft(w + s) == StripLeft(s)
  {
    if w == "" {
      assert w + s == s;
    } else {
      StripLeftWhite(w[1..], s);
      Seqs.TailConcat(w, s);
    }
  }

  lemma {:induction false} StripRightWhite(s: string, w: string)
    requires forall k | 0 <= k < |w| :: IsSpace(w[k])
    ensures StripRight(s + w) == StripRight(s)
    decreases |w|
  {
    if w == "" {
      assert s + w == s;
    } else {
      var t := s + w;
      assert t[|t| - 1] == w[|w| - 1] && t[..|t| - 1] == s + w[..|w| - 1];
      StripRightWhite(s, w[..|w| - 1]);
    }
  }

  lemma StripText(i: Item)
    requires i.Valid()
    ensures Strip(i.Text()) == if i.Word? then i.word else ""
    ensures ',' !in i.Text()
  {
    match i
    case Blank(space) =>
      assert space + "" == space;
      StripLeftWhite(space, "");
    case Word(before, word, after) =>
      StripLeftWhite(before, word + after);
      assert (word + after)[0] == word[0];
      StripRightWhite(word, after);
  }

  // ----- Items -----

  lemma ParseText(i: Item, rest: seq<string>)
    requires i.Valid()
    ensures ParseItems([i.Text()] + rest) ==
            if IsByte(i) && ParseItems(rest).Some? then Some(ByteOf(i) + ParseItems(rest).value) else None
  {
    StripText(i);
    assert ([i.Text()] + rest)[1..] == rest;
    if i.Blank? {
      assert ParseItems(rest).Some? ==> ByteOf(i) + ParseItems(rest).value == ParseItems(rest).value;
    } else if ParseInt(i.word).Some? {
      ParseIntIff(i.word, ParseInt(i.word).value);
    } else if Numeral(i.word) {
      ParseIntIff(i.word, NumeralValue(i.word));
    }
  }

  lemma {:induction false} ParseTexts(items: seq<Item>)
    requires forall i | i in items :: i.Valid()
    ensures ParseItems(Texts(items)) == if AllBytes(items) then Some(Values(items)) else None
  {
    if items == [] {
    } else {
      var i, rest := items[0], items[1..];
      assert i in items && forall j | j in rest :: j in items;
      assert Texts(items) == [i.Text()] + Texts(rest);
      AllBytesCons(items);
      ParseTexts(rest);
      ParseText(i, Texts(rest));
    }
  }

  /** Lists of items that differ only in the white space around them. */
  predicate SameStripped(xs: seq<string>, ys: seq<string>) {
    |xs| == |ys| && forall i | 0 <= i < |xs| :: Strip(xs[i]) == Strip(ys[i])
  }

  lemma {:induction false} SameItems(xs: seq<string>, ys: seq<string>)
    requires SameStripped(xs, ys)
    ensures ParseItems(xs) == ParseItems(ys)
  {
    if xs == [] {
    } else {
      SameItems(xs[1..], ys[1..]);
    }
  }

  lemma {:induction false} LeftStripItems(raw: string)
    ensures ParseItems(Framing.Split(StripLeft(raw), ',')) == ParseItems(Framing.Split(raw, ','))
  {
    if raw != "" && IsSpace(raw[0]) {
      LeftStripItems(raw[1..]);
      var q := Framing.Split(raw[1..], ',');
      StripLeftWhite([raw[0]], q[0]);
      SameItems(Framing.Split(raw, ','), q);
    }
  }

  lemma LastItemSpace(r: string, c: char)
    requires IsSpace(c)
    ensures ParseItems(Framing.Split(r + [c], ',')) == ParseItems(Framing.Split(r, ','))
  {
    var q := Framing.Split(r, ',');
    var last := Framing.Last(q);
    Framing.SplitAppend(r, [c], ',');
    Framing.SplitItem(last + [c], "", ',');
    StripSpaceBehind(last, c);
    SameItems(Framing.Split(r + [c], ','), q);
  }

  lemma {:induction false} StripSpaceBehind(s: string, c: char)
    requires IsSpace(c)
    ensures Strip(s + [c]) == Strip(s)
  {
    if s == "" {
      assert s + [c] == [c] && [c][1..] == "";
    } else if IsSpace(s[0]) {
      StripSpaceBehind(s[1..], c);
      Seqs.TailConcat(s, [c]);
    } else {
      StripRightWhite(s, [c]);
    }
  }

  lemma {:induction false} RightStripItems(raw: string)
    ensures ParseItems(Framing.Split(StripRight(raw), ',')) == ParseItems(Framing.Split(raw, ','))
    decreases |raw|
  {
    if raw != "" && IsSpace(raw[|raw| - 1]) {
      RightStripItems(raw[..|raw| - 1]);
      LastItemSpace(raw[..|raw| - 1], raw[|raw| - 1]);
      assert raw == raw[..|raw| - 1] + [raw[|raw| - 1]];
    }
  }

  lemma {:induction false} SplitJoin(parts: seq<string>, c: char)
    requires parts != [] && forall p | p in parts :: c !in p
    ensures Framing.Split(Framing.Join(parts, c), c) == parts
  {
    if |parts| == 1 {
      Framing.SplitItem(parts[0], "", c);
    } else {
      SplitJoin(parts[1..], c);
      assert parts[0] in parts;
      Framing.SplitItem(parts[0], Framing.Join(parts[1..], c), c);
    }
  }

  /**
   A value text, of any items: its value is what the numbers among its words say, in
   order, if every word is a number from 0 to 255, and otherwise there is none.
  */
  lemma ParseValueMeans(items: seq<Item>)
    requires items != [] && forall i | i in items :: i.Valid()
    ensures var value := ParseValue(Framing.Join(Texts(items), ','));
            value == if AllBytes(items) then Some(Values(items)) else None
  {
    var raw := Framing.Join(Texts(items), ',');
    forall p | p in Texts(items)
      ensures ',' !in p
    {
      var k :| 0 <= k < |items| && Texts(items)[k] == p;
      assert items[k] in items;
      StripText(items[k]);
    }
    SplitJoin(Texts(items), ',');
    LeftStripItems(raw);
    RightStripItems(StripLeft(raw));
    ParseTexts(items);
  }

  /** Every text is of that kind. */
  lemma EveryText(raw: string) returns (items: seq<Item>)
    ensures items != [] && (forall i | i in items :: i.Valid()) && raw == Framing.Join(Texts(items), ',')
  {
    Framing.JoinSplit(raw, ',');
    items := ItemsOf(Framing.Split(raw, ','));
  }

  lemma {:induction false} ItemsOf(parts: seq<string>) returns (items: seq<Item>)
    requires forall k | 0 <= k < |parts| :: ',' !in parts[k]
    ensures (forall i | i in items :: i.Valid()) && Texts(items) == parts
  {
    if parts == [] {
      items := [];
    } else {
      var rest := ItemsOf(parts[1..]);
      var i := ItemOf(parts[0]);
      items := [i] + rest;
      assert Texts(items) == [i.Text()] + Texts(rest);
    }
  }

  lemma SpaceBefore(c: char, i: Item) returns (j: Item)
    requires IsSpace(c) && i.Valid()
    ensures j.Valid() && j.Text() == [c] + i.Text()
  {
    match i
    case Blank(space) => j := Blank([c] + space);
    case Word(before, word, after) =>
      j := Word([c] + before, word, after);
      Seqs.Assoc([c], before, word + after);
  }

  lemma SpaceBehind(i: Item, c: char) returns (j: Item)
    requires IsSpace(c) && i.Valid()
    ensures j.Valid() && j.Text() == i.Text() + [c]
  {
    match i
    case Blank(space) => j := Blank(space + [c]);
    case Word(before, word, after) =>
      j := Word(before, word, after + [c]);
      Seqs.Assoc(before, word + after, [c]);
      Seqs.Assoc(word, after, [c]);
  }

  lemma {:induction false} ItemOf(s: string) returns (i: Item)
    requires ',' !in s
    ensures i.Valid() && i.Text() == s
    decreases |s|
  {
    if s == "" {
      i := Blank(s);
    } else if IsSpace(s[0]) {
      i := ItemOf(s[1..]);
      i := SpaceBefore(s[0], i);
      Seqs.Uncons(s);
    } else if IsSpace(s[|s| - 1]) {
      i := ItemOf(s[..|s| - 1]);
      i := SpaceBehind(i, s[|s| - 1]);
    } else {
      i := Word("", s, "");
      assert "" + (s + "") == s;
    }
  }
}
