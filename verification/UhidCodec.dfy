/**
 The UHID events duet5-hogp-bridge.py writes to /dev/uhid, as struct.pack lays
 them out, and how they are read back.
*/
module UhidCodec {
  import opened Bytes
  import opened Wrappers
  import Seqs

  const UHID_CREATE2: nat := 11
  const UHID_INPUT2: nat := 12
  const UHID_DATA_MAX: nat := 4096
  const UHID_EVENT_SIZE: nat := 4376
  const RD_SIZE_OFFSET: nat := 260
  const RD_DATA_OFFSET: nat := 280

  /** uhid_event; None stands for its ValueError. */
  function Event(eventType: nat, payload: seq<byte>): (e: Option<seq<byte>>)
    requires eventType < 0x1_0000_0000
    ensures e.Some? <==> |payload| <= UHID_EVENT_SIZE - 4
    ensures e.Some? ==>
              && |e.value| == UHID_EVENT_SIZE
              && EventType(e.value) == eventType && payload <= e.value[4..]
  {
    if |payload| > UHID_EVENT_SIZE - 4 then None
    else
      var e := Le32(eventType) + Pack(payload, UHID_EVENT_SIZE - 4);
      assert e[..4] == Le32(eventType) && e[4..] == Pack(payload, UHID_EVENT_SIZE - 4);
      FromLe32(eventType);
      Some(e)
  }

  // ----- UHID_CREATE2 -----

  /** The fields of a create event around its report descriptor. */
  datatype Header = Header(
    name: seq<byte>, phys: seq<byte>, uniq: seq<byte>,
    bus: nat, vendor: nat, product: nat, version: nat, country: nat)
  {
    predicate Valid() {
      && bus < 0x1_0000 && vendor < 0x1_0000_0000 && product < 0x1_0000_0000
      && version < 0x1_0000_0000 && country < 0x1_0000_0000
    }
  }

  /** The names, bytes 4 to 260 of the event. */
  function Names(h: Header): (b: seq<byte>)
    ensures |b| == 256
  {
    Pack(h.name, 128) + Pack(h.phys, 64) + Pack(h.uniq, 64)
  }

  /** The numbers after the descriptor's length, bytes 262 to 280. */
  function Numbers(h: Header): (b: seq<byte>)
    requires h.Valid()
    ensures |b| == 18
  {
    Le16(h.bus) + Le32(h.vendor) + Le32(h.product) + Le32(h.version) + Le32(h.country)
  }

  /** create_uhid's event, for a descriptor of any length the field can hold. */
  function Create2(h: Header, descriptor: seq<byte>): (e: seq<byte>)
    requires h.Valid() && |descriptor| <= UHID_DATA_MAX
    ensures |e| == UHID_EVENT_SIZE
  {
    var payload := Names(h) + Le16(|descriptor|) + Numbers(h) + Pack(descriptor, UHID_DATA_MAX);
    Event(UHID_CREATE2, payload).value
  }

  /** The device create_uhid asks for. */
  const BRIDGE: Header := Header(
    Ascii("Duet 5 KB Bluetooth bridge"), Ascii("duet-bt-bridge"), Ascii("privacy-address-redacted"),
    0x0005, 0, 0, 0x0111, 0)

  /** create_uhid: only a 640-byte descriptor is accepted; None stands for its RuntimeError. */
  function CreateUhid(descriptor: seq<byte>): Option<seq<byte>> {
    if |descriptor| != 640 then None else Some(Create2(BRIDGE, descriptor))
  }

  /** What a reader makes of a create event, field by field. */
  datatype Create = Create(header: Header, descriptor: seq<byte>)

  function EventType(e: seq<byte>): nat
    requires |e| >= 4
  {
    FromLe(e[..4])
  }

  function RdSize(e: seq<byte>): nat
    requires |e| == UHID_EVENT_SIZE
  {
    FromLe(e[RD_SIZE_OFFSET..RD_SIZE_OFFSET + 2])
  }

  function Min(a: nat, b: nat): nat {
    if a < b then a else b
  }

  /** struct uhid_create2_req behind the event's type, each field at its offset. */
  function DecodeHeader(e: seq<byte>): Header
    requires |e| == UHID_EVENT_SIZE
  {
    Header(e[4..132], e[132..196], e[196..260],
           FromLe(e[262..264]), FromLe(e[264..268]), FromLe(e[268..272]), FromLe(e[272..276]), FromLe(e[276..280]))
  }

  function DecodeCreate2(e: seq<byte>): Option<Create> {
    if |e| != UHID_EVENT_SIZE || EventType(e) != UHID_CREATE2 then None
    else Some(Create(DecodeHeader(e), e[RD_DATA_OFFSET..][..Min(RdSize(e), UHID_DATA_MAX)]))
  }

  /** A field of n bytes that holds s, cut to the field or with zeros behind it. */
  predicate Holds(field: seq<byte>, s: seq<byte>, n: nat) {
    |field| == n && forall i | 0 <= i < n :: field[i] == if i < |s| then s[i] else 0
  }

  /** The same device, its names as their fields hold them. */
  predicate SameDevice(d: Header, h: Header) {
    && Holds(d.name, h.name, 128) && Holds(d.phys, h.phys, 64) && Holds(d.uniq, h.uniq, 64)
    && d.bus == h.bus && d.vendor == h.vendor && d.product == h.product
    && d.version == h.version && d.country == h.country
  }

  /** The five fields of an event with the create layout, by offset. */
  lemma Layout(t: seq<byte>, names: seq<byte>, size: seq<byte>, numbers: seq<byte>, data: seq<byte>)
    requires |t| == 4 && |names| == 256 && |size| == 2 && |numbers| == 18 && |data| == UHID_DATA_MAX
    ensures var e := t + (names + size + numbers + data);
            && |e| == UHID_EVENT_SIZE && e[..4] == t && e[4..260] == names && e[260..262] == size
            && e[262..280] == numbers && e[280..] == data && e[..260] == t + names
  {
  }

  /** The event as the concatenation of its fields. */
  lemma Create2Fields(h: Header, d: seq<byte>)
    requires h.Valid() && |d| <= UHID_DATA_MAX
    ensures Create2(h, d) ==
            Le32(UHID_CREATE2) + (Names(h) + Le16(|d|) + Numbers(h) + Pack(d, UHID_DATA_MAX))
  {
    var payload := Names(h) + Le16(|d|) + Numbers(h) + Pack(d, UHID_DATA_MAX);
    assert Pack(payload, UHID_EVENT_SIZE - 4) == payload;
  }

  lemma NamesLayout(e: seq<byte>, h: Header)
    requires |e| == UHID_EVENT_SIZE && e[4..260] == Names(h)
    ensures Holds(e[4..132], h.name, 128) && Holds(e[132..196], h.phys, 64) && Holds(e[196..260], h.uniq, 64)
  {
    var b := e[4..260];
    assert e[4..132] == b[..128] && e[132..196] == b[128..192] && e[196..260] == b[192..];
    assert b[..128] == Pack(h.name, 128) && b[128..192] == Pack(h.phys, 64) && b[192..] == Pack(h.uniq, 64);
  }

  lemma FiveFields(a: seq<byte>, b: seq<byte>, c: seq<byte>, d: seq<byte>, f: seq<byte>)
    requires |a| == 2 && |b| == |c| == |d| == |f| == 4
    ensures var e := a + b + c + d + f;
            e[0..2] == a && e[2..6] == b && e[6..10] == c && e[10..14] == d && e[14..18] == f
  {
  }

  lemma NumbersLayout(e: seq<byte>, h: Header)
    requires h.Valid() && |e| == UHID_EVENT_SIZE && e[262..280] == Numbers(h)
    ensures e[262..264] == Le16(h.bus) && e[264..268] == Le32(h.vendor) && e[268..272] == Le32(h.product)
    ensures e[272..276] == Le32(h.version) && e[276..280] == Le32(h.country)
  {
    FiveFields(Le16(h.bus), Le32(h.vendor), Le32(h.product), Le32(h.version), Le32(h.country));
    Seqs.Slice(e, 262, 280, 0, 2);
    Seqs.Slice(e, 262, 280, 2, 6);
    Seqs.Slice(e, 262, 280, 6, 10);
    Seqs.Slice(e, 262, 280, 10, 14);
    Seqs.Slice(e, 262, 280, 14, 18);
  }

  /** The header read at the offsets of the structure is the header that was written. */
  lemma HeaderRoundTrip(e: seq<byte>, h: Header)
    requires h.Valid() && |e| == UHID_EVENT_SIZE && e[4..260] == Names(h) && e[262..280] == Numbers(h)
    ensures SameDevice(DecodeHeader(e), h)
  {
    NamesLayout(e, h);
    NumbersLayout(e, h);
    FromLe16(h.bus);
    FromLe32(h.vendor);
    FromLe32(h.product);
    FromLe32(h.version);
    FromLe32(h.country);
  }

  /**
   A create event is read back whole: its five numbers, its three names padded with
   zeros, and the descriptor without its padding.
  */
  lemma Create2RoundTrip(h: Header, d: seq<byte>)
    requires h.Valid() && |d| <= UHID_DATA_MAX
    ensures var c := DecodeCreate2(Create2(h, d));
            c.Some? && SameDevice(c.value.header, h) && c.value.descriptor == d
    ensures RdSize(Create2(h, d)) == |d|
  {
    Create2Fields(h, d);
    Layout(Le32(UHID_CREATE2), Names(h), Le16(|d|), Numbers(h), Pack(d, UHID_DATA_MAX));
    HeaderRoundTrip(Create2(h, d), h);
    FromLe32(UHID_CREATE2);
    FromLe16(|d|);
    PackPrefix(d, UHID_DATA_MAX);
  }

  lemma BridgeNumbers()
    ensures BRIDGE.Valid() && Le32(UHID_CREATE2) == [11, 0, 0, 0]
    ensures Le16(640) == [0x80, 0x02]
    ensures Numbers(BRIDGE) == [0x05, 0x00, 0, 0, 0, 0, 0, 0, 0, 0, 0x11, 0x01, 0, 0, 0, 0, 0, 0]
  {
    assert Le32(0x0111) == [0x11, 0x01, 0, 0] && Le32(0) == [0, 0, 0, 0] && Le16(5) == [5, 0];
  }

  /** The bytes of the bridge's own event around its names: little-endian, in the order of the structure. */
  lemma BridgeBytes(d: seq<byte>)
    requires |d| == 640
    ensures var e := Create2(BRIDGE, d);
            && e[..4] == [11, 0, 0, 0] && e[260..262] == [0x80, 0x02]
            && e[262..280] == [0x05, 0x00, 0, 0, 0, 0, 0, 0, 0, 0, 0x11, 0x01, 0, 0, 0, 0, 0, 0]
            && e[280..920] == d && forall i | 920 <= i < 4376 :: e[i] == 0
  {
    var e := Create2(BRIDGE, d);
    var data := Pack(d, UHID_DATA_MAX);
    BridgeNumbers();
    Create2Fields(BRIDGE, d);
    Layout(Le32(UHID_CREATE2), Names(BRIDGE), Le16(|d|), Numbers(BRIDGE), data);
    assert e[280..] == data;
    PackPrefix(d, UHID_DATA_MAX);
    Seqs.Slice(e, 280, UHID_EVENT_SIZE, 0, 640);
    assert e[280..UHID_EVENT_SIZE] == data;
    forall i | 920 <= i < 4376
      ensures e[i] == 0
    {
      assert e[i] == e[280..][i - 280];
    }
  }

  // ----- UHID_INPUT2 -----

  datatype InputReport = InputReport(reportId: byte, value: seq<byte>)

  /** send_input; None stands for struct.error, when the length does not fit its 16-bit field. */
  function SendInput(r: InputReport): (e: Option<seq<byte>>)
    ensures e.Some? <==> |r.value| < 0xFFFF
    ensures e.Some? ==> |e.value| == UHID_EVENT_SIZE
  {
    var data := [r.reportId] + r.value;
    if |data| >= 0x1_0000 then None
    else Event(UHID_INPUT2, Le16(|data|) + Pack(data, UHID_DATA_MAX))
  }

  /** A reader takes at most the 4096 bytes the field holds, whatever the length says. */
  function DecodeInput2(e: seq<byte>): Option<InputReport> {
    if |e| != UHID_EVENT_SIZE || EventType(e) != UHID_INPUT2 || FromLe(e[4..6]) == 0 then None
    else
      var data := e[6..6 + Min(FromLe(e[4..6]), UHID_DATA_MAX)];
      Some(InputReport(data[0], data[1..]))
  }

  lemma SendInputDecodes(r: InputReport)
    requires |r.value| < 0xFFFF
    ensures DecodeInput2(SendInput(r).value) ==
            Some(InputReport(r.reportId, r.value[..Min(|r.value|, UHID_DATA_MAX - 1)]))
  {
    var data := [r.reportId] + r.value;
    var t, size := Le32(UHID_INPUT2), Le16(|data|);
    var field := Pack(data, UHID_DATA_MAX);
    var n := Min(|data|, UHID_DATA_MAX);
    InputLayout(t, size, field, n);
    FromLe32(UHID_INPUT2);
    FromLe16(|data|);
    assert field[..n] == data[..n];
    assert data[..n][0] == r.reportId;
    assert data[..n][1..] == r.value[..n - 1];
  }

  /** The fields of an event with the input layout, by offset, and the first n bytes of its data. */
  lemma InputLayout(t: seq<byte>, size: seq<byte>, field: seq<byte>, n: nat)
    requires |t| == 4 && |size| == 2 && |field| == UHID_DATA_MAX && n <= UHID_DATA_MAX
    ensures var e := t + Pack(size + field, UHID_EVENT_SIZE - 4);
            |e| == UHID_EVENT_SIZE && e[..4] == t && e[4..6] == size && e[6..6 + n] == field[..n]
  {
    var rest := Zeros(UHID_EVENT_SIZE - 6 - UHID_DATA_MAX);
    var e := t + Pack(size + field, UHID_EVENT_SIZE - 4);
    assert e == t + ((size + field) + rest);
  }

  /** An input event byte by byte: type, length and report id in front of the value, zeros behind it. */
  lemma SendInputBytes(r: InputReport)
    requires |r.value| < UHID_DATA_MAX
    ensures var e := SendInput(r).value;
            && e[..4] == [12, 0, 0, 0] && e[4] as int + 256 * e[5] as int == |r.value| + 1
            && e[6] == r.reportId && e[7..7 + |r.value|] == r.value
            && forall i | 7 + |r.value| <= i < UHID_EVENT_SIZE :: e[i] == 0
  {
    var data := [r.reportId] + r.value;
    var e := SendInput(r).value;
    var payload := Le16(|data|) + Pack(data, UHID_DATA_MAX);
    assert e == Le32(UHID_INPUT2) + Pack(payload, UHID_EVENT_SIZE - 4);
    assert e[..4] == Le32(UHID_INPUT2) == [12, 0, 0, 0];
    assert forall i | 6 <= i < 6 + UHID_DATA_MAX :: e[i] == payload[i - 4] == Pack(data, UHID_DATA_MAX)[i - 6];
  }

  /** Input events survive the codec exactly when the report fits its field beside its id. */
  lemma SendInputRoundTrip(r: InputReport)
    ensures SendInput(r).Some? && DecodeInput2(SendInput(r).value) == Some(r) <==> |r.value| <= UHID_DATA_MAX - 1
  {
    if |r.value| < 0xFFFF {
      SendInputDecodes(r);
      var n := Min(|r.value|, UHID_DATA_MAX - 1);
      assert |r.value[..n]| == n;
      if |r.value| <= UHID_DATA_MAX - 1 {
        assert r.value[..n] == r.value;
      }
    }
  }
}
