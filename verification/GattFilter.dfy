/**
 The two libraries preloaded into btadapterd that decide which GATT clients may
 open a connection: duet5-gatt-filter.c and its successor
 duet5-gatt-filter-rpa-hotfix.c. Both read the id the bridge has published.
*/
module GattFilter {
  import opened Bytes
  import opened Wrappers
  import Decimal
  import Framing
  import Seqs

  // ----- Reading the published id -----

  const INT_LIMIT: int := 0x8000_0000
  const LONG_LIMIT: int := 0x8000_0000_0000_0000

  /** The digits at the head of s, as strtol converts them: no digits give 0. */
  function LeadingNumber(s: string): nat {
    Decimal.Value(s[..Framing.Span(s, Decimal.IsDigit)])
  }

  /** isspace in the C locale. */
  predicate IsSpace(c: char) {
    c == ' ' || '\t' <= c <= '\r'
  }

  function SkipSpace(s: string): string {
    if s != "" && IsSpace(s[0]) then SkipSpace(s[1..]) else s
  }

  /** strtol(s, NULL, 10), saturating at the ends of a 64-bit long. */
  function Strtol(s: string): (n: int)
    ensures -LONG_LIMIT <= n < LONG_LIMIT
  {
    Signed(SkipSpace(s))
  }

  function Signed(t: string): (n: int)
    ensures -LONG_LIMIT <= n < LONG_LIMIT
  {
    if "-" <= t then
      var m := LeadingNumber(t[1..]);
      if m > LONG_LIMIT then -LONG_LIMIT else -(m as int)
    else
      var m := LeadingNumber(if "+" <= t then t[1..] else t);
      if m >= LONG_LIMIT then LONG_LIMIT - 1 else m
  }

  /** The (int) conversion of a long. */
  function ToInt(n: int): (i: int)
    ensures -INT_LIMIT <= i < INT_LIMIT
  {
    var m := n % (2 * INT_LIMIT);
    if m >= INT_LIMIT then m - 2 * INT_LIMIT else m
  }

  /** bridge_client_id(): at most 31 characters of the id file; -1 without a file or without content. */
  function BridgeClientId(file: Option<string>): (id: int)
    ensures -INT_LIMIT <= id < INT_LIMIT
  {
    if file.None? || file.value == "" then -1
    else ToInt(Strtol(if |file.value| > 31 then file.value[..31] else file.value))
  }

  // ----- The decisions -----

  const NATIVE: set<byte> := {43, 45, 46, 48, 50}

  predicate IsNative(client: byte) {
    client in NATIVE
  }

  /** The keyboard's identity address; None is a null pointer. */
  predicate IsLegacyAddress(a: Option<seq<byte>>) {
    a.Some? && |a.value| >= 4 && a.value[0] == 0xcc && a.value[1] == 0x59 && a.value[2] == 0x35 && a.value[3] == 0x9f
  }

  /** (uint8_t)allowed */
  function Low(allowed: int): byte {
    allowed % 256
  }

  /** duet5_open9 of duet5-gatt-filter.c returns without opening. */
  predicate OldBlocks(allowed: int, client: byte, a: Option<seq<byte>>) {
    IsLegacyAddress(a) && (allowed < 0 || client != Low(allowed))
  }

  /** duet5_open9 of duet5-gatt-filter-rpa-hotfix.c returns without opening. */
  method HotfixOpen(file: Option<string>, client: byte, a: Option<seq<byte>>) returns (block: bool)
    ensures block <==> HotfixBlocks(BridgeClientId(file), client, a)
  {
    var allowed := BridgeClientId(file);
    block := allowed >= 0 && client != Low(allowed) && IsNative(client);
    if IsLegacyAddress(a) && (allowed < 0 || client != Low(allowed)) {
      block := true;
    }
  }

  /** With a bridge id known, the other natives are blocked everywhere, and all others on the legacy address. */
  predicate HotfixBlocks(allowed: int, client: byte, a: Option<seq<byte>>) {
    if allowed < 0 then IsLegacyAddress(a)
    else client != Low(allowed) && (IsNative(client) || IsLegacyAddress(a))
  }

  // ----- Published ids are read back -----

  lemma {:induction false} PrintLength(n: nat, k: nat, bound: nat)
    requires k >= 1 && n < bound && bound == Power10(k)
    ensures |Decimal.Print(n)| <= k
  {
    if n < 10 {
    } else {
      assert k > 1;
      assert n / 10 < Power10(k - 1);
      PrintLength(n / 10, k - 1, Power10(k - 1));
    }
  }

  function Power10(k: nat): nat {
    if k == 0 then 1 else 10 * Power10(k - 1)
  }

  lemma PublishedLength(n: nat)
    requires n <= INT_LIMIT
    ensures |Decimal.Print(n)| <= 10
  {
    assert Power10(5) == 100_000;
    assert Power10(10) == 10_000_000_000;
    PrintLength(n, 10, Power10(10));
  }

  lemma LeadingPrinted(n: nat)
    ensures LeadingNumber(Decimal.Print(n)) == n
  {
    var s := Decimal.Print(n);
    Framing.SpanUnique(s, Decimal.IsDigit, |s|);
    assert s[..|s|] == s;
    Decimal.RoundTrip(n);
  }

  lemma DigitsNotSpace(s: string)
    requires s != "" && Decimal.AllDigits(s)
    ensures SkipSpace(s) == s && !("-" <= s) && !("+" <= s)
  {
    assert Decimal.IsDigit(s[0]);
  }

  lemma StrtolNatural(n: nat)
    requires n < LONG_LIMIT
    ensures Strtol(Decimal.Print(n)) == n
  {
    LeadingPrinted(n);
    DigitsNotSpace(Decimal.Print(n));
  }

  lemma StrtolNegative(n: nat)
    requires 0 < n <= LONG_LIMIT
    ensures Strtol("-" + Decimal.Print(n)) == -(n as int)
  {
    var s := "-" + Decimal.Print(n);
    LeadingPrinted(n);
    assert s[1..] == Decimal.Print(n);
    assert SkipSpace(s) == s;
  }

  lemma ToIntKeeps(c: int)
    requires -INT_LIMIT <= c < INT_LIMIT
    ensures ToInt(c) == c
  {
    if c < 0 {
      assert c % (2 * INT_LIMIT) == c + 2 * INT_LIMIT;
    }
  }

  /** Every id a C int can hold is read back as it was published, and no other id is. */
  lemma PublishedIdRead(c: int)
    ensures BridgeClientId(Some(Decimal.PrintInt(c))) == c <==> -INT_LIMIT <= c < INT_LIMIT
  {
    if -INT_LIMIT <= c < INT_LIMIT {
      ToIntKeeps(c);
      if c < 0 {
        PublishedLength(-c);
        StrtolNegative(-c);
      } else {
        PublishedLength(c);
        StrtolNatural(c);
      }
    }
  }

  /**
   The bridge's own connection requests pass the hotfix filter on every address if
   and only if its id is not negative; the low byte of the id is what the filter sees.
  */
  lemma BridgePasses(c: int)
    requires -INT_LIMIT <= c < INT_LIMIT
    ensures (forall a :: !HotfixBlocks(BridgeClientId(Some(Decimal.PrintInt(c))), Low(c), a)) <==> c >= 0
  {
    PublishedIdRead(c);
    var legacy: Option<seq<byte>> := Some([0xcc, 0x59, 0x35, 0x9f]);
    assert IsLegacyAddress(legacy);
    if c < 0 {
      assert HotfixBlocks(c, Low(c), legacy);
    }
  }

  /**
   The hotfix blocks whatever the old filter blocked, and otherwise exactly the other
   natives, once an id is known; the two filters agree on every open if and only if
   none is.
  */
  lemma HotfixRefinesOld(allowed: int)
    ensures forall client, a :: HotfixBlocks(allowed, client, a) <==>
              OldBlocks(allowed, client, a) || (allowed >= 0 && client in NATIVE && client != Low(allowed))
    ensures (forall client, a :: HotfixBlocks(allowed, client, a) <==> OldBlocks(allowed, client, a)) <==> allowed < 0
  {
    var other: byte := if Low(allowed) == 43 then 45 else 43;
    var nowhere: Option<seq<byte>> := None;
    if allowed >= 0 {
      assert HotfixBlocks(allowed, other, nowhere) && !OldBlocks(allowed, other, nowhere);
    }
  }

  // ----- Opens that must go through -----

  /** The first four bytes of the keyboard's identity address. */
  predicate StartsLegacy(a: Option<seq<byte>>) {
    a.Some? && [0xcc, 0x59, 0x35, 0x9f] <= a.value
  }

  /**
   Without a file, or with an empty one, exactly the legacy address is blocked, and for
   every client. Whatever the file says, a client that is not one of the five natives is
   never blocked on another address, and neither is anybody at all while no id is known.
  */
  lemma OnlyLegacyBlocked(file: Option<string>, client: byte, a: Option<seq<byte>>)
    ensures file.None? || file.value == "" ==>
              (HotfixBlocks(BridgeClientId(file), client, a) <==> StartsLegacy(a))
    ensures HotfixBlocks(BridgeClientId(file), client, a) && !StartsLegacy(a) ==>
              client in [43, 45, 46, 48, 50] && BridgeClientId(file) >= 0
  {
    LegacyStarts(a);
  }

  lemma LegacyStarts(a: Option<seq<byte>>)
    ensures IsLegacyAddress(a) <==> StartsLegacy(a)
  {
    var four: seq<byte> := [0xcc, 0x59, 0x35, 0x9f];
    if a.Some? && |a.value| >= 4 {
      assert a.value[..4] == [a.value[0], a.value[1], a.value[2], a.value[3]];
      assert four <= a.value <==> a.value[..4] == four;
    }
  }

  /** While the file holds an id of one byte, that client passes everywhere and every other native passes nowhere. */
  lemma SmallIdPasses(c: byte, client: byte, a: Option<seq<byte>>)
    ensures var allowed := BridgeClientId(Some(Decimal.PrintInt(c)));
            && !HotfixBlocks(allowed, c, a)
            && (client in [43, 45, 46, 48, 50] && client != c ==> HotfixBlocks(allowed, client, a))
  {
    PublishedIdRead(c);
    SmallLow(c);
  }

  lemma SmallLow(c: byte)
    ensures Low(c) == c
  {
  }

  // ----- What strtol makes of any text -----

  predicate CSpaces(s: string) {
    forall i | 0 <= i < |s| :: s[i] in " \t\n\U{000B}\U{000C}\r"
  }

  lemma {:induction false} SkipSpaces(space: string, rest: string)
    requires CSpaces(space) && (rest == "" || !CSpaces(rest[..1]))
    ensures SkipSpace(space + rest) == rest
  {
    if space == "" {
      assert space + rest == rest;
    } else {
      SkipSpaces(space[1..], rest);
      Seqs.TailConcat(space, rest);
    }
  }

  function Clamp(n: int): int {
    if n < -LONG_LIMIT then -LONG_LIMIT else if n >= LONG_LIMIT then LONG_LIMIT - 1 else n
  }

  lemma LeadingDigits(digits: string, rest: string)
    requires Decimal.AllDigits(digits) && (rest == "" || !Decimal.IsDigit(rest[0]))
    ensures LeadingNumber(digits + rest) == Decimal.Value(digits)
  {
    Framing.SpanUnique(digits + rest, Decimal.IsDigit, |digits|);
    Seqs.SplitConcat(digits, rest);
  }

  lemma UnsignedReads(digits: string, rest: string)
    requires digits != "" && Decimal.AllDigits(digits) && (rest == "" || !Decimal.IsDigit(rest[0]))
    ensures Signed(digits + rest) == Clamp(Decimal.Value(digits))
  {
    assert Decimal.IsDigit(digits[0]) && (digits + rest)[0] == digits[0];
    LeadingDigits(digits, rest);
  }

  lemma MinusReads(digits: string, rest: string)
    requires Decimal.AllDigits(digits) && (rest == "" || !Decimal.IsDigit(rest[0]))
    ensures Signed("-" + (digits + rest)) == Clamp(-(Decimal.Value(digits) as int))
  {
    LeadingDigits(digits, rest);
    Seqs.SplitConcat("-", digits + rest);
  }

  lemma PlusReads(digits: string, rest: string)
    requires Decimal.AllDigits(digits) && (rest == "" || !Decimal.IsDigit(rest[0]))
    ensures Signed("+" + (digits + rest)) == Clamp(Decimal.Value(digits))
  {
    var t := "+" + (digits + rest);
    LeadingDigits(digits, rest);
    Seqs.SplitConcat("+", digits + rest);
    assert t[0] == '+' && !("-" <= t);
  }

  function SignedValue(sign: string, digits: string): int
    requires Decimal.AllDigits(digits)
  {
    if sign == "-" then -(Decimal.Value(digits) as int) else Decimal.Value(digits)
  }

  /** White space, an optional sign and digits are read as their number, saturated; what follows is ignored. */
  lemma StrtolReads(space: string, sign: string, digits: string, rest: string)
    requires CSpaces(space) && sign in ["", "-", "+"]
    requires digits != "" && Decimal.AllDigits(digits) && (rest == "" || !Decimal.IsDigit(rest[0]))
    ensures Strtol(space + (sign + (digits + rest))) ==
            Clamp(SignedValue(sign, digits))
  {
    var t := sign + (digits + rest);
    SignNotSpace(sign, digits, rest);
    SkipSpaces(space, t);
    if sign == "" {
      assert t == digits + rest;
      UnsignedReads(digits, rest);
    } else if sign == "-" {
      MinusReads(digits, rest);
    } else {
      PlusReads(digits, rest);
    }
  }

  lemma SignNotSpace(sign: string, digits: string, rest: string)
    requires sign in ["", "-", "+"] && digits != "" && Decimal.IsDigit(digits[0])
    ensures var t := sign + (digits + rest); t != "" && !CSpaces(t[..1])
  {
    var t := sign + (digits + rest);
    assert t[..1][0] == if sign == "" then digits[0] else sign[0];
  }

  /** A file of up to 31 characters is read in full; a number that no C int holds is taken modulo two to the 32. */
  lemma FileRead(space: string, sign: string, digits: string, rest: string)
    requires CSpaces(space) && sign in ["", "-", "+"]
    requires digits != "" && Decimal.AllDigits(digits) && (rest == "" || !Decimal.IsDigit(rest[0]))
    requires |space + (sign + (digits + rest))| <= 31
    ensures var c := BridgeClientId(Some(space + (sign + (digits + rest))));
            var n := Clamp(SignedValue(sign, digits));
            -0x8000_0000 <= c < 0x8000_0000 && (c - n) % 0x1_0000_0000 == 0
  {
    var t := space + (sign + (digits + rest));
    assert |t| == |space| + |sign| + |digits| + |rest|;
    StrtolReads(space, sign, digits, rest);
    WholeRead(t);
  }

  lemma WholeRead(t: string)
    requires 0 < |t| <= 31
    ensures (BridgeClientId(Some(t)) - Strtol(t)) % 0x1_0000_0000 == 0
  {
    ToIntWraps(Strtol(t));
  }

  lemma ToIntWraps(n: int)
    ensures (ToInt(n) - n) % 0x1_0000_0000 == 0
  {
    assert ToInt(n) - n == -0x1_0000_0000 * (n / 0x1_0000_0000)
           || ToInt(n) - n == -0x1_0000_0000 * (n / 0x1_0000_0000 + 1);
  }

  /** Of a longer file, the first 31 characters count. */
  lemma FileCut(file: string)
    requires |file| > 31
    ensures BridgeClientId(Some(file)) == BridgeClientId(Some(file[..31]))
  {
    assert file[..31][..31] == file[..31];
  }
}
