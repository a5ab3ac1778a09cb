/**
 Short items of a HID report descriptor: section 6.2.2.2 of the USB Device Class
 Definition for HID 1.11. The header byte holds the tag in its top four bits, the
 type in the next two and a length code in the last two; 0xFE announces a long
 item instead.
*/
module ShortItems {
  import opened Bytes
  import Seqs

  const MAIN: nat := 0
  const GLOBAL: nat := 1
  const LOCAL: nat := 2

  datatype RawItem = Item(kind: nat, tag: nat, data: seq<byte>) {
    predicate Valid() {
      && kind < 4 && tag < 16
      && (|data| == 0 || |data| == 1 || |data| == 2 || |data| == 4)
      && !(kind == 3 && tag == 15 && |data| == 2)
    }
  }

  type Item = i: RawItem | i.Valid() witness Item(MAIN, 12, [])

  const LONG_ITEM: byte := 0xFE

  function LengthCode(n: nat): nat {
    if n == 4 then 3 else n
  }

  function CodeLength(code: nat): nat {
    if code == 3 then 4 else code
  }

  function Header(i: Item): (h: byte)
    ensures h != LONG_ITEM
  {
    i.tag * 16 + i.kind * 4 + LengthCode(|i.data|)
  }

  function PrintItem(i: Item): (b: seq<byte>)
    ensures |b| == 1 + |i.data|
  {
    [Header(i)] + i.data
  }

  function Print(items: seq<Item>): seq<byte> {
    if items == [] then [] else PrintItem(items[0]) + Print(items[1..])
  }

  /** A parser's answer; both failures carry the items before them and the offset of the bad header. */
  datatype Parse =
    | Parsed(items: seq<Item>)
    | Incomplete(items: seq<Item>, offset: nat)
    | LongItem(items: seq<Item>, offset: nat)
  {
    /** The answer for a text that has item i in front. */
    function After(i: Item): Parse {
      match this
      case Parsed(items) => Parsed([i] + items)
      case Incomplete(items, offset) => Incomplete([i] + items, 1 + |i.data| + offset)
      case LongItem(items, offset) => LongItem([i] + items, 1 + |i.data| + offset)
    }
  }

  function DataLength(header: byte): nat {
    CodeLength(header % 4)
  }

  function ItemOf(header: byte, data: seq<byte>): (i: Item)
    requires header != LONG_ITEM && |data| == DataLength(header)
    ensures Header(i) == header && i.data == data
  {
    assert header == header / 16 * 16 + header / 4 % 4 * 4 + header % 4;
    Item(header / 4 % 4, header / 16, data)
  }

  function ParseBytes(b: seq<byte>): Parse
    decreases |b|
  {
    if b == [] then Parsed([])
    else if b[0] == LONG_ITEM then LongItem([], 0)
    else
      var n := 1 + DataLength(b[0]);
      if |b| < n then Incomplete([], 0)
      else ParseBytes(b[n..]).After(ItemOf(b[0], b[1..n]))
  }

  // ----- Round trips -----

  lemma ItemOfHeader(i: Item)
    ensures DataLength(Header(i)) == |i.data| && ItemOf(Header(i), i.data) == i
  {
    assert Header(i) / 16 == i.tag && Header(i) / 4 % 4 == i.kind && Header(i) % 4 == LengthCode(|i.data|);
  }

  /** One printed item in front is read back, whatever follows. */
  lemma ParseItem(i: Item, rest: seq<byte>)
    ensures ParseBytes(PrintItem(i) + rest) == ParseBytes(rest).After(i)
  {
    var b := PrintItem(i) + rest;
    ItemOfHeader(i);
    var n := 1 + |i.data|;
    assert b[0] == Header(i) && b[1..n] == i.data && b[n..] == rest;
  }

  lemma {:induction false} ParsePrint(items: seq<Item>)
    ensures ParseBytes(Print(items)) == Parsed(items)
  {
    if items == [] {
    } else {
      ParsePrint(items[1..]);
      ParseItem(items[0], Print(items[1..]));
      Seqs.Uncons(items);
    }
  }

  lemma {:induction false} PrintConcat(a: seq<Item>, b: seq<Item>)
    ensures Print(a + b) == Print(a) + Print(b)
  {
    if a == [] {
      assert a + b == b;
    } else {
      PrintConcat(a[1..], b);
      Seqs.TailConcat(a, b);
      Seqs.Assoc(PrintItem(a[0]), Print(a[1..]), Print(b));
    }
  }

  /** The answer's items are what was there, up to the offset it reports or to the end. */
  predicate Accounts(p: Parse, b: seq<byte>) {
    match p
    case Parsed(items) => Print(items) == b
    case Incomplete(items, offset) => offset < |b| && Print(items) == b[..offset]
    case LongItem(items, offset) => offset < |b| && Print(items) == b[..offset] && b[offset] == LONG_ITEM
  }

  lemma AccountsAfter(i: Item, p: Parse, rest: seq<byte>)
    requires Accounts(p, rest)
    ensures Accounts(p.After(i), PrintItem(i) + rest)
  {
    var b := PrintItem(i) + rest;
    assert ([i] + p.items)[1..] == p.items;
    if !p.Parsed? {
      assert b[..|PrintItem(i)| + p.offset] == PrintItem(i) + rest[..p.offset];
    }
  }

  lemma {:induction false} PrintParse(b: seq<byte>)
    ensures Accounts(ParseBytes(b), b)
    decreases |b|
  {
    if b == [] {
    } else if b[0] != LONG_ITEM && |b| >= 1 + DataLength(b[0]) {
      var n := 1 + DataLength(b[0]);
      var i := ItemOf(b[0], b[1..n]);
      PrintParse(b[n..]);
      AccountsAfter(i, ParseBytes(b[n..]), b[n..]);
      assert PrintItem(i) == b[..n];
      assert b == b[..n] + b[n..];
    }
  }

  // ----- Cutting a descriptor -----

  /** Offset of item i in the printed descriptor. */
  function Start(items: seq<Item>, i: nat): (n: nat)
    requires i <= |items|
    ensures n <= |Print(items)|
  {
    PrintConcat(items[..i], items[i..]);
    assert items[..i] + items[i..] == items;
    |Print(items[..i])|
  }

  lemma {:induction false} ParseBefore(items: seq<Item>, rest: seq<byte>)
    ensures ParseBytes(Print(items) + rest) == Prepend(items, ParseBytes(rest))
  {
    if items == [] {
      assert Print(items) + rest == rest;
      PrependNothing(ParseBytes(rest));
    } else {
      ParseBefore(items[1..], rest);
      ParseItem(items[0], Print(items[1..]) + rest);
      Seqs.Assoc(PrintItem(items[0]), Print(items[1..]), rest);
    }
  }

  function Prepend(items: seq<Item>, p: Parse): Parse {
    if items == [] then p else Prepend(items[1..], p).After(items[0])
  }

  lemma PrependNothing(p: Parse)
    ensures Prepend([], p) == p
  {
  }

  lemma {:induction false} PrependAll(items: seq<Item>)
    ensures Prepend(items, Parsed([])) == Parsed(items)
    ensures Prepend(items, Incomplete([], 0)) == Incomplete(items, |Print(items)|)
  {
    if items == [] {
    } else {
      PrependAll(items[1..]);
      Seqs.Uncons(items);
    }
  }

  lemma CutItem(i: Item, r: nat)
    requires 0 < r <= |i.data|
    ensures ParseBytes(PrintItem(i)[..r]) == Incomplete([], 0)
  {
    ItemOfHeader(i);
  }

  lemma CutText(items: seq<Item>, i: nat, r: nat)
    requires i < |items| && r <= |items[i].data|
    ensures Start(items, i) + r <= |Print(items)|
    ensures Print(items)[..Start(items, i) + r] == Print(items[..i]) + PrintItem(items[i])[..r]
  {
    var head, tail := items[..i], items[i..];
    PrintConcat(head, tail);
    assert head + tail == items;
    CutBehind(Print(head), PrintItem(items[i]), Print(tail[1..]), r);
  }

  lemma CutBehind(head: seq<byte>, item: seq<byte>, rest: seq<byte>, r: nat)
    requires r <= |item|
    ensures (head + (item + rest))[..|head| + r] == head + item[..r]
  {
  }

  /** Cutting r bytes into item i leaves the items before it, and an error at its header unless r is 0. */
  lemma CutInside(items: seq<Item>, i: nat, r: nat)
    requires i < |items| && r <= |items[i].data|
    ensures Start(items, i) + r <= |Print(items)|
    ensures ParseBytes(Print(items)[..Start(items, i) + r]) ==
            if r == 0 then Parsed(items[..i]) else Incomplete(items[..i], Start(items, i))
  {
    CutText(items, i, r);
    ParseBefore(items[..i], PrintItem(items[i])[..r]);
    PrependAll(items[..i]);
    if r > 0 {
      CutItem(items[i], r);
    } else {
      assert PrintItem(items[i])[..0] == [];
    }
  }

  /** The item that holds offset n, and how far into it n lies. */
  lemma {:induction false} Locate(items: seq<Item>, n: nat) returns (i: nat, r: nat)
    requires n < |Print(items)|
    ensures i < |items| && r <= |items[i].data| && n == Start(items, i) + r
  {
    if n <= |items[0].data| {
      i, r := 0, n;
      assert items[..0] == [];
    } else {
      var j;
      j, r := Locate(items[1..], n - 1 - |items[0].data|);
      i := j + 1;
      assert items[..i][1..] == items[1..][..j];
    }
  }

  /** Offset n starts an item, or ends the descriptor. */
  ghost predicate IsItemBoundary(items: seq<Item>, n: nat) {
    exists i: nat | i <= |items| :: n == Start(items, i)
  }

  lemma StartMonotone(items: seq<Item>, i: nat, j: nat)
    requires i < j <= |items|
    ensures Start(items, i) + 1 + |items[i].data| <= Start(items, j)
  {
    assert items[..j] == items[..i] + items[i..j];
    PrintConcat(items[..i], items[i..j]);
    assert items[i..j][0] == items[i];
  }

  /**
   A printed descriptor cut at n parses exactly when n is an item boundary, and
   then to the items before n; otherwise the error is at the header of the item
   the cut went through.
  */
  lemma CutParses(items: seq<Item>, n: nat)
    requires n <= |Print(items)|
    ensures ParseBytes(Print(items)[..n]).Parsed? <==> IsItemBoundary(items, n)
    ensures !IsItemBoundary(items, n) ==>
              exists i: nat | i < |items| ::
                Start(items, i) < n <= Start(items, i) + |items[i].data|
                && ParseBytes(Print(items)[..n]) == Incomplete(items[..i], Start(items, i))
  {
    if n == |Print(items)| {
      assert Print(items)[..n] == Print(items) && items[..|items|] == items;
      ParsePrint(items);
      assert n == Start(items, |items|);
    } else {
      var i, r := Locate(items, n);
      CutInside(items, i, r);
      forall j: nat | j <= |items| && n == Start(items, j)
        ensures r == 0
      {
        if j < i {
          StartMonotone(items, j, i);
        } else if i < j {
          StartMonotone(items, i, j);
        }
      }
    }
  }
}
