/**
 The write() that duet5-uhid-preload.c interposes: a create event that carries
 the truncated report map goes out with the repaired one instead, and every
 other write goes out as it came.
*/
module UhidShim {
  import opened Bytes
  import opened UhidCodec
  import opened Wrappers
  import ReportMap
  import Seqs

  /** The three tests the C code makes on the bytes of an event. */
  predicate CarriesTruncatedMap(e: seq<byte>) {
    && |e| == UHID_EVENT_SIZE
    && EventType(e) == UHID_CREATE2
    && RdSize(e) == |ReportMap.TRUNCATED|
    && ReportMap.TRUNCATED <= e[RD_DATA_OFFSET..]
  }

  /** An event with another descriptor in its descriptor field, and nothing left of the old one. */
  function WithDescriptor(e: seq<byte>, d: seq<byte>): (r: seq<byte>)
    requires |e| == UHID_EVENT_SIZE && |d| <= UHID_DATA_MAX
    ensures |r| == UHID_EVENT_SIZE
  {
    e[..RD_SIZE_OFFSET] + Le16(|d|) + e[RD_SIZE_OFFSET + 2..RD_DATA_OFFSET] + Pack(d, UHID_DATA_MAX)
  }

  /** The bytes that reach the real write(). */
  function Rewrite(e: seq<byte>): (r: seq<byte>)
    ensures |r| == |e|
  {
    if CarriesTruncatedMap(e) then
      ReportMap.RepairedLength();
      WithDescriptor(e, ReportMap.REPAIRED)
    else e
  }

  /** write() on the caller's buffer, which it only reads. */
  method Write(event: array<byte>) returns (written: array<byte>)
    ensures written[..] == Rewrite(event[..])
  {
    if event.Length != UHID_EVENT_SIZE {
      return event;
    }
    var matches := TestEvent(event, ReportMap.TRUNCATED) by {
      ReportMap.TruncatedLength();
    }
    if !matches {
      return event;
    }
    written := Repair(event, ReportMap.REPAIRED) by {
      ReportMap.RepairedLength();
    }
  }

  /** The comparisons of write(), against any map that fits the descriptor field. */
  method TestEvent(event: array<byte>, cut: seq<byte>) returns (matches: bool)
    requires event.Length == UHID_EVENT_SIZE && |cut| <= UHID_DATA_MAX
    ensures matches <==> EventType(event[..]) == UHID_CREATE2 && RdSize(event[..]) == |cut|
                         && cut <= event[..][RD_DATA_OFFSET..]
  {
    ghost var e := event[..];
    var eventType := FromLe(event[..4]);
    var reportSize := FromLe(event[RD_SIZE_OFFSET..RD_SIZE_OFFSET + 2]);
    assert event[..4] == e[..4];
    assert event[RD_SIZE_OFFSET..RD_SIZE_OFFSET + 2] == e[RD_SIZE_OFFSET..RD_SIZE_OFFSET + 2];
    assert e[RD_DATA_OFFSET..][..|cut|] == event[RD_DATA_OFFSET..RD_DATA_OFFSET + |cut|];
    matches := eventType == UHID_CREATE2 && reportSize == |cut|
               && event[RD_DATA_OFFSET..RD_DATA_OFFSET + |cut|] == cut;
  }

  /** The edited copy: the size field, the cleared descriptor field, then the descriptor. */
  method Repair(event: array<byte>, d: seq<byte>) returns (written: array<byte>)
    requires event.Length == UHID_EVENT_SIZE && |d| <= UHID_DATA_MAX
    ensures fresh(written) && written[..] == WithDescriptor(event[..], d)
  {
    written := new byte[UHID_EVENT_SIZE];
    forall i | 0 <= i < UHID_EVENT_SIZE {
      written[i] := event[i];
    }
    ghost var e := event[..];
    assert written[..] == e;
    assert written[..RD_SIZE_OFFSET] == e[..RD_SIZE_OFFSET];
    assert written[RD_SIZE_OFFSET + 2..] == e[RD_SIZE_OFFSET + 2..];
    CopyInto(written, RD_SIZE_OFFSET, Le16(|d|));
    ClearDescriptor(written);
    ghost var cleared := written[..];
    assert written[..RD_DATA_OFFSET] == cleared[..RD_DATA_OFFSET];
    assert written[RD_DATA_OFFSET + |d|..] == cleared[RD_DATA_OFFSET + |d|..];
    CopyInto(written, RD_DATA_OFFSET, d);
    Edited(e, cleared, d);
  }

  /** memset over the descriptor field. */
  method ClearDescriptor(a: array<byte>)
    requires a.Length == UHID_EVENT_SIZE
    modifies a
    ensures a[..] == old(a[..RD_DATA_OFFSET]) + Zeros(UHID_DATA_MAX)
  {
    forall i | RD_DATA_OFFSET <= i < RD_DATA_OFFSET + UHID_DATA_MAX {
      a[i] := 0;
    }
  }

  lemma Edited(e: seq<byte>, cleared: seq<byte>, d: seq<byte>)
    requires |e| == UHID_EVENT_SIZE && |d| <= UHID_DATA_MAX
    requires var sized := e[..RD_SIZE_OFFSET] + Le16(|d|) + e[RD_SIZE_OFFSET + 2..];
             cleared == sized[..RD_DATA_OFFSET] + Zeros(UHID_DATA_MAX)
    ensures cleared[..RD_DATA_OFFSET] + d + cleared[RD_DATA_OFFSET + |d|..] == WithDescriptor(e, d)
  {
    var head := e[..RD_SIZE_OFFSET] + Le16(|d|) + e[RD_SIZE_OFFSET + 2..RD_DATA_OFFSET];
    assert cleared[..RD_DATA_OFFSET] == head;
    assert cleared[RD_DATA_OFFSET + |d|..] == Zeros(UHID_DATA_MAX - |d|);
    assert Pack(d, UHID_DATA_MAX) == d + Zeros(UHID_DATA_MAX - |d|);
    Seqs.Assoc(head, d, Zeros(UHID_DATA_MAX - |d|));
  }

  /** memcpy into part of an array. */
  method CopyInto(a: array<byte>, at: nat, bytes: seq<byte>)
    requires at + |bytes| <= a.Length
    modifies a
    ensures a[..] == old(a[..at]) + bytes + old(a[at + |bytes|..])
  {
    forall i | 0 <= i < |bytes| {
      a[at + i] := bytes[i];
    }
  }

  /** Rewriting a create event is creating the event with the repaired descriptor, or no change at all. */
  lemma RewriteCommutes(h: Header, d: seq<byte>)
    requires h.Valid() && |d| <= UHID_DATA_MAX
    ensures |ReportMap.REPAIRED| <= UHID_DATA_MAX
    ensures Rewrite(Create2(h, d)) == Create2(h, if d == ReportMap.TRUNCATED then ReportMap.REPAIRED else d)
  {
    var e := Create2(h, d);
    var cut, repaired := ReportMap.TRUNCATED, ReportMap.REPAIRED;
    Create2Fields(h, d);
    Create2RoundTrip(h, d);
    Layout(Le32(UHID_CREATE2), Names(h), Le16(|d|), Numbers(h), Pack(d, UHID_DATA_MAX));
    FromLe32(UHID_CREATE2);
    PackPrefix(d, UHID_DATA_MAX);
    ReportMap.RepairedLength();
    ReportMap.TruncatedLength();
    if d == cut {
      assert cut <= e[RD_DATA_OFFSET..];
      Create2Fields(h, repaired);
      Reassemble(Le32(UHID_CREATE2), Names(h), Le16(|repaired|), Numbers(h), Pack(repaired, UHID_DATA_MAX));
    } else if |d| == |cut| {
      assert e[RD_DATA_OFFSET..][..|cut|] == d;
    }
  }

  lemma Reassemble(t: seq<byte>, n: seq<byte>, s: seq<byte>, m: seq<byte>, d: seq<byte>)
    ensures t + n + s + m + d == t + (n + s + m + d)
  {
  }

  lemma DescriptorSize(e: seq<byte>, d: seq<byte>)
    requires |e| == UHID_EVENT_SIZE && |d| <= UHID_DATA_MAX
    ensures RdSize(WithDescriptor(e, d)) == |d|
  {
    assert WithDescriptor(e, d)[RD_SIZE_OFFSET..RD_SIZE_OFFSET + 2] == Le16(|d|);
    FromLe16(|d|);
  }

  lemma RewrittenSize(e: seq<byte>)
    requires CarriesTruncatedMap(e)
    ensures RdSize(Rewrite(e)) == 640
  {
    ReportMap.RepairedLength();
    DescriptorSize(e, ReportMap.REPAIRED);
  }

  /** A second pass changes nothing, and neither does the first on any event that is not a create event. */
  lemma RewriteIdempotent(e: seq<byte>)
    ensures Rewrite(Rewrite(e)) == Rewrite(e)
    ensures |e| == UHID_EVENT_SIZE && EventType(e) != UHID_CREATE2 ==> Rewrite(e) == e
    ensures |e| != UHID_EVENT_SIZE ==> Rewrite(e) == e
  {
    if CarriesTruncatedMap(e) {
      RewrittenSize(e);
      ReportMap.TruncatedLength();
    }
  }

  /** create_uhid's own event, which always carries 640 bytes, passes through untouched and whole. */
  lemma RewriteKeepsBridge(d: seq<byte>)
    ensures CreateUhid(d).Some? <==> |d| == 640
    ensures CreateUhid(d).Some? ==>
              var e := CreateUhid(d).value;
              var c := DecodeCreate2(e);
              && Rewrite(e) == e
              && c.Some? && SameDevice(c.value.header, BRIDGE) && c.value.descriptor == d
  {
    if |d| == 640 {
      ReportMap.TruncatedLength();
      RewriteCommutes(BRIDGE, d);
      Create2RoundTrip(BRIDGE, d);
    }
  }

  /** Input reports pass through the shim untouched. */
  lemma RewriteKeepsInput(r: InputReport)
    requires |r.value| < 0xFFFF
    ensures Rewrite(SendInput(r).value) == SendInput(r).value
  {
    SendInputDecodes(r);
  }

  /** What the kernel is asked to create after the shim: the same device, with the repaired map where it matters. */
  lemma RewriteDecodes(h: Header, d: seq<byte>)
    requires h.Valid() && |d| <= UHID_DATA_MAX
    ensures var c := DecodeCreate2(Rewrite(Create2(h, d)));
            && c.Some? && SameDevice(c.value.header, h)
            && c.value.descriptor == if d == ReportMap.TRUNCATED then ReportMap.REPAIRED else d
  {
    RewriteCommutes(h, d);
    Create2RoundTrip(h, if d == ReportMap.TRUNCATED then ReportMap.REPAIRED else d);
  }
}
