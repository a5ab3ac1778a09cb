/** Bytes and the fixed-width little-endian fields of C structures and struct.pack. */
module Bytes {
  type byte = x: int | 0 <= x < 256

  function Zeros(n: nat): (z: seq<byte>)
    ensures |z| == n && forall i | 0 <= i < n :: z[i] == 0
  {
    seq(n, i => 0)
  }

  /** struct.pack's "<n>s": cut to n bytes, or filled with zeros. */
  function Pack(s: seq<byte>, n: nat): (p: seq<byte>)
    ensures |p| == n && forall i | 0 <= i < n :: p[i] == if i < |s| then s[i] else 0
  {
    if |s| >= n then s[..n] else s + Zeros(n - |s|)
  }

  function Le16(n: nat): (b: seq<byte>)
    requires n < 0x1_0000
    ensures |b| == 2
  {
    [n % 256, n / 256]
  }

  function Le32(n: nat): (b: seq<byte>)
    requires n < 0x1_0000_0000
    ensures |b| == 4
  {
    Le16(n % 0x1_0000) + Le16(n / 0x1_0000)
  }

  /** The unsigned little-endian number in a field of none, one, two or four bytes. */
  function FromLe(b: seq<byte>): nat
    requires |b| == 0 || |b| == 1 || |b| == 2 || |b| == 4
  {
    if |b| == 0 then 0
    else if |b| == 1 then b[0]
    else if |b| == 2 then b[0] as int + 256 * b[1] as int
    else b[0] as int + 256 * b[1] as int + 0x1_0000 * b[2] as int + 0x100_0000 * b[3] as int
  }

  /** The bytes of a text of ASCII characters. */
  function Ascii(s: string): (b: seq<byte>)
    requires forall i | 0 <= i < |s| :: s[i] < '\U{0080}'
    ensures |b| == |s| && forall i | 0 <= i < |s| :: b[i] == s[i] as int
  {
    seq(|s|, i requires 0 <= i < |s| => s[i] as int)
  }

  lemma FromLe16(n: nat)
    requires n < 0x1_0000
    ensures FromLe(Le16(n)) == n
  {
  }

  lemma FromLe32(n: nat)
    requires n < 0x1_0000_0000
    ensures FromLe(Le32(n)) == n
  {
    var low, high := n % 0x1_0000, n / 0x1_0000;
    FromLe16(low);
    FromLe16(high);
    assert Le32(n) == [low % 256, low / 256, high % 256, high / 256];
  }

  /** Packing keeps the leading bytes, so packed data of a known length can be read back. */
  lemma PackPrefix(s: seq<byte>, n: nat)
    requires |s| <= n
    ensures Pack(s, n)[..|s|] == s
  {
  }
}
