/**
 The Duet 5 keyboard's report maps: the 512 bytes GATT delivers, the 640-byte
 repair of duet5-uhid-preload.c and the 719-byte repair of patch 0001, all cut
 from one family, and what section 6.2.2 of the USB Device Class Definition for
 HID 1.11 makes of them.

 Every member of the family is 272 bytes of keyboard, mouse and vendor
 collections and the touchpad's heading, some number of 79-byte contact
 collections, and a 52-byte tail.
*/
module ReportMap {
  import opened Bytes
  import opened ShortItems
  import Seqs

  // ----- Items by name: sections 6.2.2.4, 6.2.2.7 and 6.2.2.8 -----

  const INPUT: nat := 8
  const OUTPUT: nat := 9
  const COLLECTION: nat := 10
  const FEATURE: nat := 11
  const END_COLLECTION: nat := 12

  const REPORT_SIZE: nat := 7
  const REPORT_ID: nat := 8
  const REPORT_COUNT: nat := 9
  const PUSH: nat := 10
  const POP: nat := 11

  type Data = d: seq<byte> | |d| == 1 || |d| == 2 || |d| == 4 witness [0]

  function Input(d: Data): Item { Item(MAIN, INPUT, d) }
  function Output(d: Data): Item { Item(MAIN, OUTPUT, d) }
  function Feature(d: Data): Item { Item(MAIN, FEATURE, d) }
  function Collection(d: Data): Item { Item(MAIN, COLLECTION, d) }
  function EndCollection(): Item { Item(MAIN, END_COLLECTION, []) }
  function UsagePage(d: Data): Item { Item(GLOBAL, 0, d) }
  function LogicalMinimum(d: Data): Item { Item(GLOBAL, 1, d) }
  function LogicalMaximum(d: Data): Item { Item(GLOBAL, 2, d) }
  function PhysicalMinimum(d: Data): Item { Item(GLOBAL, 3, d) }
  function PhysicalMaximum(d: Data): Item { Item(GLOBAL, 4, d) }
  function UnitExponent(d: Data): Item { Item(GLOBAL, 5, d) }
  function Unit(d: Data): Item { Item(GLOBAL, 6, d) }
  function ReportSize(d: Data): Item { Item(GLOBAL, REPORT_SIZE, d) }
  function ReportId(d: Data): Item { Item(GLOBAL, REPORT_ID, d) }
  function ReportCount(d: Data): Item { Item(GLOBAL, REPORT_COUNT, d) }
  function Usage(d: Data): Item { Item(LOCAL, 0, d) }
  function UsageMinimum(d: Data): Item { Item(LOCAL, 1, d) }
  function UsageMaximum(d: Data): Item { Item(LOCAL, 2, d) }

  // ----- The interpreter -----

  datatype Globals = Globals(size: nat, count: nat, reportId: nat)

  /** One report: its kind (the tag of the main items that add to it) and its Report ID. */
  datatype Query = Query(tag: nat, reportId: nat)

  /**
   Where the interpreter is: offset counts the bytes of the items read, depth the
   open collections, and bits the queried report's length so far. ok turns false
   at an End Collection or a Pop that has nothing to close.
  */
  datatype State = State(offset: nat, globals: Globals, stack: seq<Globals>, depth: nat, ok: bool, bits: nat)

  const START := State(0, Globals(0, 0, 0), [], 0, true, 0)

  function StepMain(q: Query, s: State, tag: nat): State {
    if tag == INPUT || tag == OUTPUT || tag == FEATURE then
      s.(bits := s.bits + if q == Query(tag, s.globals.reportId) then s.globals.size * s.globals.count else 0)
    else if tag == COLLECTION then s.(depth := s.depth + 1)
    else if tag == END_COLLECTION then
      if s.depth == 0 then s.(ok := false) else s.(depth := s.depth - 1)
    else s
  }

  function StepGlobal(s: State, tag: nat, value: nat): State {
    if tag == REPORT_SIZE then s.(globals := s.globals.(size := value))
    else if tag == REPORT_COUNT then s.(globals := s.globals.(count := value))
    else if tag == REPORT_ID then s.(globals := s.globals.(reportId := value))
    else if tag == PUSH then s.(stack := [s.globals] + s.stack)
    else if tag == POP then
      if s.stack == [] then s.(ok := false) else s.(globals := s.stack[0], stack := s.stack[1..])
    else s
  }

  function Step(q: Query, s: State, i: Item): State {
    var t := s.(offset := s.offset + 1 + |i.data|);
    if !s.ok then t
    else if i.kind == MAIN then StepMain(q, t, i.tag)
    else if i.kind == GLOBAL then StepGlobal(t, i.tag, FromLe(i.data))
    else t
  }

  /** The state after the first n items. */
  function RunTo(q: Query, s: State, items: seq<Item>, n: nat): State
    requires n <= |items|
    decreases n
  {
    if n == 0 then s else Step(q, RunTo(q, s, items, n - 1), items[n - 1])
  }

  function Run(q: Query, s: State, items: seq<Item>): State {
    RunTo(q, s, items, |items|)
  }

  lemma {:induction false} RunConcat(q: Query, s: State, a: seq<Item>, b: seq<Item>, n: nat)
    requires n <= |b|
    ensures RunTo(q, s, a + b, |a| + n) == RunTo(q, Run(q, s, a), b, n)
  {
    if n == 0 {
      RunPrefix(q, s, a, b, |a|);
    } else {
      RunConcat(q, s, a, b, n - 1);
    }
  }

  lemma {:induction false} RunPrefix(q: Query, s: State, a: seq<Item>, b: seq<Item>, n: nat)
    requires n <= |a|
    ensures RunTo(q, s, a + b, n) == RunTo(q, s, a, n)
  {
    if n == 0 {
    } else {
      RunPrefix(q, s, a, b, n - 1);
    }
  }

  lemma {:induction false} OffsetIsLength(q: Query, s: State, items: seq<Item>, n: nat)
    requires n <= |items|
    ensures RunTo(q, s, items, n).offset == s.offset + |Print(items[..n])|
  {
    if n == 0 {
    } else {
      OffsetIsLength(q, s, items, n - 1);
      assert items[..n] == items[..n - 1] + [items[n - 1]];
      PrintConcat(items[..n - 1], [items[n - 1]]);
      assert Print([items[n - 1]]) == PrintItem(items[n - 1]) + Print([]);
    }
  }

  // ----- The items of the map -----

  const KEY_MODIFIERS: seq<Item> := [
    UsagePage([0x01]), Usage([0x06]), Collection([0x01]), ReportId([0x01]), LogicalMinimum([0x00]),
    LogicalMaximum([0x01]), UsagePage([0x07]), UsageMinimum([0xE0, 0x00]), UsageMaximum([0xE7, 0x00]),
    ReportSize([0x01]), ReportCount([0x08]), Input([0x02])
  ]

  const KEY_CODES: seq<Item> := [
    UsagePage([0x07]), UsageMinimum([0x00]), UsageMaximum([0x91, 0x00]), LogicalMinimum([0x00, 0x00]),
    LogicalMaximum([0xFF, 0x00]), ReportSize([0x08]), ReportCount([0x0A]), Input([0x00])
  ]

  const CONSUMER_FEATURE: seq<Item> := [
    UsagePage([0x0C]), Usage([0xC0, 0x02]), Collection([0x02]), UsageMinimum([0xC1, 0x02]),
    UsageMaximum([0xC6, 0x02]), ReportCount([0x06]), Feature([0x03]), EndCollection()
  ]

  const LEDS: seq<Item> := [
    UsagePage([0x08]), ReportSize([0x01]), ReportCount([0x03]), UsageMinimum([0x01]), UsageMaximum([0x03]),
    LogicalMaximum([0x01]), Output([0x02]), ReportCount([0x05]), Output([0x01]), EndCollection()
  ]

  const MOUSE_HEAD: seq<Item> := [
    UsagePage([0x01]), Usage([0x02]), Collection([0x01]), ReportId([0x02]), Usage([0x01]), Collection([0x00])
  ]

  const MOUSE_BUTTONS: seq<Item> := [
    UsagePage([0x09]), UsageMinimum([0x01]), UsageMaximum([0x08]), LogicalMinimum([0x00]),
    LogicalMaximum([0x01]), ReportCount([0x08]), ReportSize([0x01]), Input([0x02])
  ]

  const MOUSE_MOTION: seq<Item> := [
    UsagePage([0x01]), LogicalMinimum([0x01, 0xF8]), LogicalMaximum([0xFF, 0x07]), ReportSize([0x0C]),
    ReportCount([0x02]), Usage([0x30]), Usage([0x31]), Input([0x06])
  ]

  const MOUSE_WHEELS: seq<Item> := [
    LogicalMinimum([0x81]), LogicalMaximum([0x7F]), ReportSize([0x08]), ReportCount([0x01]), Usage([0x38]),
    Input([0x06]), UsagePage([0x0C]), Usage([0x38, 0x02]), ReportCount([0x01]), Input([0x06]),
    EndCollection(), EndCollection()
  ]

  const CONSUMER: seq<Item> := [
    UsagePage([0x0C]), Usage([0x01]), Collection([0x01]), ReportId([0x03]), UsageMinimum([0x00]),
    UsageMaximum([0x3C, 0x02]), LogicalMinimum([0x00]), LogicalMaximum([0x3C, 0x02]), ReportCount([0x01]),
    ReportSize([0x18]), Input([0x00]), EndCollection()
  ]

  const SYSTEM_HEAD: seq<Item> := [
    UsagePage([0x01]), Usage([0x80]), Collection([0x01]), ReportId([0x04]), Usage([0x81, 0x00]),
    Usage([0x82, 0x00]), Usage([0x83, 0x00])
  ]

  const SYSTEM_KEYS: seq<Item> := [
    LogicalMinimum([0x00]), LogicalMaximum([0x01]), ReportSize([0x01]), ReportCount([0x03]), Input([0x02]),
    ReportCount([0x05]), Input([0x01]), EndCollection()
  ]

  const VENDOR_A1: seq<Item> := [
    UsagePage([0xA1, 0xFF]), Usage([0x11]), Collection([0x01]), ReportId([0x54]), Usage([0x11]),
    ReportSize([0x08]), ReportCount([0x01]), Feature([0x02]), EndCollection()
  ]

  const VENDOR_A8: seq<Item> := [
    UsagePage([0xA8, 0xFF]), Usage([0x18]), Collection([0x01]), ReportId([0xC4]), Usage([0x11]),
    ReportSize([0x08]), ReportCount([0x01]), Feature([0x02]), EndCollection()
  ]

  const VENDOR_00: seq<Item> := [
    UsagePage([0x00, 0xFF]), Usage([0x01]), Collection([0x01]), LogicalMaximum([0xFF]), ReportSize([0x08]),
    ReportCount([0x14]), ReportId([0x05]), Usage([0x01]), Feature([0x02]), EndCollection()
  ]

  const TOUCH_HEAD: seq<Item> := [
    UsagePage([0x0D]), Usage([0x05]), Collection([0x01]), ReportId([0x06])
  ]

  const CONTACT_SWITCHES: seq<Item> := [
    UsagePage([0x0D]), Usage([0x22]), Collection([0x02]), LogicalMinimum([0x00]), LogicalMaximum([0x01]),
    Usage([0x47]), Usage([0x42]), ReportCount([0x02]), ReportSize([0x01]), Input([0x02])
  ]

  const CONTACT_ID: seq<Item> := [
    ReportCount([0x01]), ReportSize([0x04]), LogicalMaximum([0x0F]), Usage([0x51]), Input([0x02]),
    ReportSize([0x01]), ReportCount([0x02]), Input([0x03])
  ]

  const CONTACT_X: seq<Item> := [
    UsagePage([0x01]), LogicalMinimum([0x00]), LogicalMaximum([0x83, 0x0C]), ReportSize([0x0C]),
    UnitExponent([0x0E]), Unit([0x13]), Usage([0x30]), PhysicalMinimum([0x00]),
    PhysicalMaximum([0x90, 0x01]), ReportCount([0x01]), Input([0x02])
  ]

  const CONTACT_Y: seq<Item> := [
    PhysicalMaximum([0xEB, 0x00]), LogicalMaximum([0x5C, 0x07]), Usage([0x31]), Input([0x02]),
    UsagePage([0x0D]), LogicalMinimum([0x00]), LogicalMaximum([0x64]), ReportCount([0x03]), EndCollection()
  ]

  const SCAN_TIME: seq<Item> := [
    UsagePage([0x0D]), UnitExponent([0x0C]), Unit([0x01, 0x10]), PhysicalMaximum([0xFF, 0xFF, 0x00, 0x00]),
    LogicalMaximum([0xFF, 0xFF, 0x00, 0x00]), ReportSize([0x10]), ReportCount([0x01]), Usage([0x56]),
    Input([0x02])
  ]

  const CONTACT_COUNT: seq<Item> := [
    Usage([0x54]), LogicalMaximum([0x7F]), ReportCount([0x01]), ReportSize([0x08]), Input([0x02])
  ]

  const BUTTON: seq<Item> := [
    UsagePage([0x09]), Usage([0x01]), LogicalMaximum([0x01]), ReportSize([0x01]), ReportCount([0x01]),
    Input([0x02]), ReportCount([0x07]), Input([0x03]), EndCollection()
  ]

  // ----- What each row of items does -----

  /** n bits if the queried report is this one. */
  function Field(q: Query, tag: nat, reportId: nat, n: nat): nat {
    if q == Query(tag, reportId) then n else 0
  }

  lemma KeyModifiersRow(q: Query, s: State)
    requires s.ok
    ensures Run(q, s, KEY_MODIFIERS) ==
            s.(offset := s.offset + 26,
                globals := s.globals.(size := 1, count := 8, reportId := 1), depth := s.depth + 1,
                bits := s.bits + Field(q, INPUT, 1, 8))
  {
    assert RunTo(q, s, KEY_MODIFIERS, 6) == s.(offset := s.offset + 12,
                                               globals := s.globals.(reportId := 1), depth := s.depth + 1);
  }

  lemma KeyCodesRow(q: Query, s: State)
    requires s.ok
    ensures Run(q, s, KEY_CODES) ==
            s.(offset := s.offset + 19, globals := s.globals.(size := 8, count := 10),
                bits := s.bits + Field(q, INPUT, s.globals.reportId, 80))
  {
    assert RunTo(q, s, KEY_CODES, 6) == s.(offset := s.offset + 15, globals := s.globals.(size := 8));
  }

  lemma ConsumerFeatureRow(q: Query, s: State)
    requires s.ok && s.globals.size == 8
    ensures Run(q, s, CONSUMER_FEATURE) ==
            s.(offset := s.offset + 18, globals := s.globals.(count := 6),
                bits := s.bits + Field(q, FEATURE, s.globals.reportId, 48))
  {
    assert RunTo(q, s, CONSUMER_FEATURE, 6) == s.(offset := s.offset + 15,
                                                  globals := s.globals.(count := 6), depth := s.depth + 1);
  }

  lemma LedsRow(q: Query, s: State)
    requires s.ok && s.depth >= 1
    ensures Run(q, s, LEDS) ==
            s.(offset := s.offset + 19, globals := s.globals.(size := 1, count := 5), depth := s.depth - 1,
                bits := s.bits + Field(q, OUTPUT, s.globals.reportId, 8))
  {
    assert RunTo(q, s, LEDS, 6) == s.(offset := s.offset + 12, globals := s.globals.(size := 1, count := 3));
  }

  lemma MouseHeadRow(q: Query, s: State)
    requires s.ok
    ensures Run(q, s, MOUSE_HEAD) ==
            s.(offset := s.offset + 12, globals := s.globals.(reportId := 2), depth := s.depth + 2)
  {
    assert RunTo(q, s, MOUSE_HEAD, 6) == s.(offset := s.offset + 12,
                                            globals := s.globals.(reportId := 2), depth := s.depth + 2);
  }

  lemma MouseButtonsRow(q: Query, s: State)
    requires s.ok
    ensures Run(q, s, MOUSE_BUTTONS) ==
            s.(offset := s.offset + 16, globals := s.globals.(size := 1, count := 8),
                bits := s.bits + Field(q, INPUT, s.globals.reportId, 8))
  {
    assert RunTo(q, s, MOUSE_BUTTONS, 6) == s.(offset := s.offset + 12, globals := s.globals.(count := 8));
  }

  lemma MouseMotionRow(q: Query, s: State)
    requires s.ok
    ensures Run(q, s, MOUSE_MOTION) ==
            s.(offset := s.offset + 18, globals := s.globals.(size := 12, count := 2),
                bits := s.bits + Field(q, INPUT, s.globals.reportId, 24))
  {
    assert RunTo(q, s, MOUSE_MOTION, 6) == s.(offset := s.offset + 14, globals := s.globals.(size := 12, count := 2));
  }

  lemma MouseWheelsRow(q: Query, s: State)
    requires s.ok && s.depth >= 2
    ensures Run(q, s, MOUSE_WHEELS) ==
            s.(offset := s.offset + 23, globals := s.globals.(size := 8, count := 1), depth := s.depth - 2,
                bits := s.bits + Field(q, INPUT, s.globals.reportId, 16))
  {
    assert RunTo(q, s, MOUSE_WHEELS, 6) == s.(offset := s.offset + 12, globals := s.globals.(size := 8, count := 1),
        bits := s.bits + Field(q, INPUT, s.globals.reportId, 8));
  }

  lemma ConsumerRow(q: Query, s: State)
    requires s.ok
    ensures Run(q, s, CONSUMER) ==
            s.(offset := s.offset + 25, globals := s.globals.(size := 24, count := 1, reportId := 3),
                bits := s.bits + Field(q, INPUT, 3, 24))
  {
    assert RunTo(q, s, CONSUMER, 6) == s.(offset := s.offset + 13,
                                          globals := s.globals.(reportId := 3), depth := s.depth + 1);
  }

  lemma SystemHeadRow(q: Query, s: State)
    requires s.ok
    ensures Run(q, s, SYSTEM_HEAD) ==
            s.(offset := s.offset + 17, globals := s.globals.(reportId := 4), depth := s.depth + 1)
  {
    assert RunTo(q, s, SYSTEM_HEAD, 6) == s.(offset := s.offset + 14,
                                             globals := s.globals.(reportId := 4), depth := s.depth + 1);
  }

  lemma SystemKeysRow(q: Query, s: State)
    requires s.ok && s.depth >= 1
    ensures Run(q, s, SYSTEM_KEYS) ==
            s.(offset := s.offset + 15, globals := s.globals.(size := 1, count := 5), depth := s.depth - 1,
                bits := s.bits + Field(q, INPUT, s.globals.reportId, 8))
  {
    assert RunTo(q, s, SYSTEM_KEYS, 6) == s.(offset := s.offset + 12, globals := s.globals.(size := 1, count := 5),
        bits := s.bits + Field(q, INPUT, s.globals.reportId, 3));
  }

  lemma VendorA1Row(q: Query, s: State)
    requires s.ok
    ensures Run(q, s, VENDOR_A1) ==
            s.(offset := s.offset + 18, globals := s.globals.(size := 8, count := 1, reportId := 84),
                bits := s.bits + Field(q, FEATURE, 84, 8))
  {
    assert RunTo(q, s, VENDOR_A1, 6) == s.(offset := s.offset + 13,
                                           globals := s.globals.(size := 8, reportId := 84), depth := s.depth + 1);
  }

  lemma VendorA8Row(q: Query, s: State)
    requires s.ok
    ensures Run(q, s, VENDOR_A8) ==
            s.(offset := s.offset + 18, globals := s.globals.(size := 8, count := 1, reportId := 196),
                bits := s.bits + Field(q, FEATURE, 196, 8))
  {
    assert RunTo(q, s, VENDOR_A8, 6) == s.(offset := s.offset + 13,
                                           globals := s.globals.(size := 8, reportId := 196), depth := s.depth + 1);
  }

  lemma Vendor00Row(q: Query, s: State)
    requires s.ok
    ensures Run(q, s, VENDOR_00) ==
            s.(offset := s.offset + 20, globals := s.globals.(size := 8, count := 20, reportId := 5),
                bits := s.bits + Field(q, FEATURE, 5, 160))
  {
    assert RunTo(q, s, VENDOR_00, 6) == s.(offset := s.offset + 13,
                                           globals := s.globals.(size := 8, count := 20), depth := s.depth + 1);
  }

  lemma TouchHeadRow(q: Query, s: State)
    requires s.ok
    ensures Run(q, s, TOUCH_HEAD) ==
            s.(offset := s.offset + 8, globals := s.globals.(reportId := 6), depth := s.depth + 1)
  {
    assert RunTo(q, s, TOUCH_HEAD, 4) == s.(offset := s.offset + 8,
                                            globals := s.globals.(reportId := 6), depth := s.depth + 1);
  }

  lemma ContactSwitchesRow(q: Query, s: State)
    requires s.ok
    ensures Run(q, s, CONTACT_SWITCHES) ==
            s.(offset := s.offset + 20, globals := s.globals.(size := 1, count := 2), depth := s.depth + 1,
                bits := s.bits + Field(q, INPUT, s.globals.reportId, 2))
  {
    assert RunTo(q, s, CONTACT_SWITCHES, 6) == s.(offset := s.offset + 12, depth := s.depth + 1);
  }

  lemma ContactIdRow(q: Query, s: State)
    requires s.ok
    ensures Run(q, s, CONTACT_ID) ==
            s.(offset := s.offset + 16, globals := s.globals.(size := 1, count := 2),
                bits := s.bits + Field(q, INPUT, s.globals.reportId, 6))
  {
    assert RunTo(q, s, CONTACT_ID, 6) == s.(offset := s.offset + 12, globals := s.globals.(size := 1, count := 1),
        bits := s.bits + Field(q, INPUT, s.globals.reportId, 4));
  }

  lemma ContactXRow(q: Query, s: State)
    requires s.ok
    ensures Run(q, s, CONTACT_X) ==
            s.(offset := s.offset + 24, globals := s.globals.(size := 12, count := 1),
                bits := s.bits + Field(q, INPUT, s.globals.reportId, 12))
  {
    assert RunTo(q, s, CONTACT_X, 6) == s.(offset := s.offset + 13, globals := s.globals.(size := 12));
  }

  lemma ContactYRow(q: Query, s: State)
    requires s.ok && s.depth >= 1 && s.globals.size == 12 && s.globals.count == 1
    ensures Run(q, s, CONTACT_Y) ==
            s.(offset := s.offset + 19, globals := s.globals.(count := 3), depth := s.depth - 1,
                bits := s.bits + Field(q, INPUT, s.globals.reportId, 12))
  {
    assert RunTo(q, s, CONTACT_Y, 6) == s.(offset := s.offset + 14,
                                           bits := s.bits + Field(q, INPUT, s.globals.reportId, 12));
  }

  lemma ScanTimeRow(q: Query, s: State)
    requires s.ok
    ensures Run(q, s, SCAN_TIME) ==
            s.(offset := s.offset + 25, globals := s.globals.(size := 16, count := 1),
                bits := s.bits + Field(q, INPUT, s.globals.reportId, 16))
  {
    assert RunTo(q, s, SCAN_TIME, 6) == s.(offset := s.offset + 19, globals := s.globals.(size := 16));
  }

  lemma ContactCountRow(q: Query, s: State)
    requires s.ok
    ensures Run(q, s, CONTACT_COUNT) ==
            s.(offset := s.offset + 10, globals := s.globals.(size := 8, count := 1),
                bits := s.bits + Field(q, INPUT, s.globals.reportId, 8))
  {
    assert RunTo(q, s, CONTACT_COUNT, 5) == s.(offset := s.offset + 10, globals := s.globals.(size := 8, count := 1),
        bits := s.bits + Field(q, INPUT, s.globals.reportId, 8));
  }

  lemma ButtonRow(q: Query, s: State)
    requires s.ok && s.depth >= 1
    ensures Run(q, s, BUTTON) ==
            s.(offset := s.offset + 17, globals := s.globals.(size := 1, count := 7), depth := s.depth - 1,
                bits := s.bits + Field(q, INPUT, s.globals.reportId, 8))
  {
    assert RunTo(q, s, BUTTON, 6) == s.(offset := s.offset + 12, globals := s.globals.(size := 1, count := 1),
        bits := s.bits + Field(q, INPUT, s.globals.reportId, 1));
  }

  // ----- The family of maps -----

  const KEYBOARD := KEY_MODIFIERS + KEY_CODES + CONSUMER_FEATURE + LEDS
  const MOUSE := MOUSE_HEAD + MOUSE_BUTTONS + MOUSE_MOTION + MOUSE_WHEELS
  const CONTROLS := CONSUMER + SYSTEM_HEAD + SYSTEM_KEYS
  const VENDOR := VENDOR_A1 + VENDOR_A8 + VENDOR_00
  const PREFIX := KEYBOARD + MOUSE + CONTROLS + VENDOR + TOUCH_HEAD
  const CONTACT := CONTACT_SWITCHES + CONTACT_ID + CONTACT_X + CONTACT_Y
  const TAIL := SCAN_TIME + CONTACT_COUNT + BUTTON

  function Repeat(items: seq<Item>, k: nat): seq<Item> {
    if k == 0 then [] else Repeat(items, k - 1) + items
  }

  function Contacts(k: nat): seq<Item> {
    Repeat(CONTACT, k)
  }

  function Map(k: nat): seq<Item> {
    PREFIX + Contacts(k) + TAIL
  }

  function MapBytes(k: nat): seq<byte> {
    Print(Map(k))
  }

  /** How many contacts GATT delivers whole. */
  const WHOLE: nat := 3

  /** The 512 bytes GATT delivers: three contacts, and the fourth cut inside its second item. */
  const TRUNCATED: seq<byte> := Print(PREFIX + Contacts(WHOLE)) + [0x05, 0x0D, 0x09]

  /** The 640-byte map of the UHID bridge and shim. */
  const REPAIRED: seq<byte> := MapBytes(4)

  /** What patch 0001 appends: the rest of the fourth contact, a fifth, and the tail. */
  const RESIDUAL: seq<byte> := [0x22] + Print(CONTACT[2..]) + Print(CONTACT) + Print(TAIL)

  lemma RunThen(q: Query, s: State, a: seq<Item>, b: seq<Item>)
    ensures Run(q, s, a + b) == Run(q, Run(q, s, a), b)
  {
    RunConcat(q, s, a, b, |b|);
  }

  lemma KeyboardEffect(q: Query, s: State)
    requires s.ok
    ensures Run(q, s, KEYBOARD) ==
            s.(offset := s.offset + 82, globals := Globals(1, 5, 1),
               bits := s.bits + Field(q, INPUT, 1, 88) + Field(q, FEATURE, 1, 48) + Field(q, OUTPUT, 1, 8))
  {
    var s1 := Run(q, s, KEY_MODIFIERS);
    var s2 := Run(q, s1, KEY_CODES);
    var s3 := Run(q, s2, CONSUMER_FEATURE);
    KeyModifiersRow(q, s);
    KeyCodesRow(q, s1);
    ConsumerFeatureRow(q, s2);
    LedsRow(q, s3);
    RunThen(q, s, KEY_MODIFIERS, KEY_CODES);
    RunThen(q, s, KEY_MODIFIERS + KEY_CODES, CONSUMER_FEATURE);
    RunThen(q, s, KEY_MODIFIERS + KEY_CODES + CONSUMER_FEATURE, LEDS);
  }

  lemma MouseEffect(q: Query, s: State)
    requires s.ok
    ensures Run(q, s, MOUSE) ==
            s.(offset := s.offset + 69, globals := Globals(8, 1, 2), bits := s.bits + Field(q, INPUT, 2, 48))
  {
    var s1 := Run(q, s, MOUSE_HEAD);
    var s2 := Run(q, s1, MOUSE_BUTTONS);
    var s3 := Run(q, s2, MOUSE_MOTION);
    MouseHeadRow(q, s);
    MouseButtonsRow(q, s1);
    MouseMotionRow(q, s2);
    MouseWheelsRow(q, s3);
    RunThen(q, s, MOUSE_HEAD, MOUSE_BUTTONS);
    RunThen(q, s, MOUSE_HEAD + MOUSE_BUTTONS, MOUSE_MOTION);
    RunThen(q, s, MOUSE_HEAD + MOUSE_BUTTONS + MOUSE_MOTION, MOUSE_WHEELS);
  }

  lemma ControlsEffect(q: Query, s: State)
    requires s.ok
    ensures Run(q, s, CONTROLS) ==
            s.(offset := s.offset + 57, globals := Globals(1, 5, 4),
               bits := s.bits + Field(q, INPUT, 3, 24) + Field(q, INPUT, 4, 8))
  {
    var s1 := Run(q, s, CONSUMER);
    var s2 := Run(q, s1, SYSTEM_HEAD);
    ConsumerRow(q, s);
    SystemHeadRow(q, s1);
    SystemKeysRow(q, s2);
    RunThen(q, s, CONSUMER, SYSTEM_HEAD);
    RunThen(q, s, CONSUMER + SYSTEM_HEAD, SYSTEM_KEYS);
  }

  lemma VendorEffect(q: Query, s: State)
    requires s.ok
    ensures Run(q, s, VENDOR) ==
            s.(offset := s.offset + 56, globals := Globals(8, 20, 5),
               bits := s.bits + Field(q, FEATURE, 0x54, 8) + Field(q, FEATURE, 0xC4, 8) + Field(q, FEATURE, 5, 160))
  {
    var s1 := Run(q, s, VENDOR_A1);
    var s2 := Run(q, s1, VENDOR_A8);
    VendorA1Row(q, s);
    VendorA8Row(q, s1);
    Vendor00Row(q, s2);
    RunThen(q, s, VENDOR_A1, VENDOR_A8);
    RunThen(q, s, VENDOR_A1 + VENDOR_A8, VENDOR_00);
  }

  /** Length in bits of each report of the map with k contacts; 0 for reports it does not have. */
  function ReportBits(q: Query, k: nat): nat {
    FixedBits(q) + Field(q, INPUT, 6, 32 * k + 32)
  }

  function FixedBits(q: Query): nat {
    match q
    case Query(8, 1) => 88
    case Query(8, 2) => 48
    case Query(8, 3) => 24
    case Query(8, 4) => 8
    case Query(9, 1) => 8
    case Query(11, 1) => 48
    case Query(11, 5) => 160
    case Query(11, 0x54) => 8
    case Query(11, 0xC4) => 8
    case _ => 0
  }

  lemma PrefixEffect(q: Query)
    ensures Run(q, START, PREFIX) == State(272, Globals(8, 20, 6), [], 1, true, FixedBits(q))
  {
    var s1 := Run(q, START, KEYBOARD);
    var s2 := Run(q, s1, MOUSE);
    var s3 := Run(q, s2, CONTROLS);
    var s4 := Run(q, s3, VENDOR);
    KeyboardEffect(q, START);
    MouseEffect(q, s1);
    ControlsEffect(q, s2);
    VendorEffect(q, s3);
    TouchHeadRow(q, s4);
    RunThen(q, START, KEYBOARD, MOUSE);
    RunThen(q, START, KEYBOARD + MOUSE, CONTROLS);
    RunThen(q, START, KEYBOARD + MOUSE + CONTROLS, VENDOR);
    RunThen(q, START, KEYBOARD + MOUSE + CONTROLS + VENDOR, TOUCH_HEAD);
  }

  lemma ContactEffect(q: Query, s: State)
    requires s.ok
    ensures Run(q, s, CONTACT) ==
            s.(offset := s.offset + 79, globals := Globals(12, 3, s.globals.reportId),
               bits := s.bits + Field(q, INPUT, s.globals.reportId, 32))
  {
    var s1 := Run(q, s, CONTACT_SWITCHES);
    var s2 := Run(q, s1, CONTACT_ID);
    var s3 := Run(q, s2, CONTACT_X);
    ContactSwitchesRow(q, s);
    ContactIdRow(q, s1);
    ContactXRow(q, s2);
    ContactYRow(q, s3);
    RunThen(q, s, CONTACT_SWITCHES, CONTACT_ID);
    RunThen(q, s, CONTACT_SWITCHES + CONTACT_ID, CONTACT_X);
    RunThen(q, s, CONTACT_SWITCHES + CONTACT_ID + CONTACT_X, CONTACT_Y);
  }

  lemma {:induction false} ContactsEffect(q: Query, s: State, k: nat)
    requires s.ok && s.globals.reportId == 6
    ensures var e := Run(q, s, Contacts(k));
            e == s.(offset := s.offset + 79 * k, globals := e.globals, bits := s.bits + Field(q, INPUT, 6, 32 * k))
            && e.globals.reportId == 6
  {
    if k == 0 {
    } else {
      ContactsEffect(q, s, k - 1);
      ContactEffect(q, Run(q, s, Contacts(k - 1)));
      RunThen(q, s, Contacts(k - 1), CONTACT);
    }
  }

  lemma TailEffect(q: Query, s: State)
    requires s.ok && s.depth >= 1
    ensures Run(q, s, TAIL) ==
            s.(offset := s.offset + 52, globals := Globals(1, 7, s.globals.reportId), depth := s.depth - 1,
               bits := s.bits + Field(q, INPUT, s.globals.reportId, 32))
  {
    var s1 := Run(q, s, SCAN_TIME);
    var s2 := Run(q, s1, CONTACT_COUNT);
    ScanTimeRow(q, s);
    ContactCountRow(q, s1);
    ButtonRow(q, s2);
    RunThen(q, s, SCAN_TIME, CONTACT_COUNT);
    RunThen(q, s, SCAN_TIME + CONTACT_COUNT, BUTTON);
  }

  lemma PrintedLength(q: Query, s: State, items: seq<Item>)
    ensures |Print(items)| == Run(q, s, items).offset - s.offset
  {
    OffsetIsLength(q, s, items, |items|);
    assert items[..|items|] == items;
  }

  lemma PartLengths(k: nat)
    ensures |Print(PREFIX)| == 272 && |Print(CONTACT)| == 79 && |Print(TAIL)| == 52
    ensures |Print(PREFIX + Contacts(k))| == 272 + 79 * k
  {
    var q := Query(INPUT, 6);
    var s := START.(depth := 1, globals := Globals(0, 0, 6));
    PrefixEffect(q);
    ContactEffect(q, s);
    ContactsEffect(q, s, k);
    TailEffect(q, s);
    PrintedLength(q, START, PREFIX);
    PrintedLength(q, s, CONTACT);
    PrintedLength(q, s, Contacts(k));
    PrintedLength(q, s, TAIL);
    PrintConcat(PREFIX, Contacts(k));
  }

  /**
   Every map of the family is well formed: 324 + 79k bytes, no incomplete item, no
   collection closed too early at any of its items or left open at its end, Report
   ID 6 with 32k + 32 input bits, and every other report with a length that does not
   depend on k.
  */
  lemma MapFamily(k: nat, q: Query)
    ensures |MapBytes(k)| == 324 + 79 * k
    ensures ParseBytes(MapBytes(k)) == Parsed(Map(k))
    ensures var e := Run(q, START, Map(k));
            e.ok && e.depth == 0 && e.stack == [] && e.bits == ReportBits(q, k)
    ensures forall n | 0 <= n <= |Map(k)| :: RunTo(q, START, Map(k), n).ok
  {
    MapInterpreted(k, q);
    PrintedLength(q, START, Map(k));
    ParsePrint(Map(k));
    forall n | 0 <= n <= |Map(k)|
      ensures RunTo(q, START, Map(k), n).ok
    {
      NeverBelowZero(q, START, Map(k), n);
    }
  }

  lemma MapInterpreted(k: nat, q: Query)
    ensures Run(q, START, Map(k)).offset == 324 + 79 * k
    ensures var e := Run(q, START, Map(k));
            e.ok && e.depth == 0 && e.stack == [] && e.bits == ReportBits(q, k)
  {
    var s1 := Run(q, START, PREFIX);
    var s2 := Run(q, s1, Contacts(k));
    PrefixEffect(q);
    ContactsEffect(q, s1, k);
    TailEffect(q, s2);
    RunThen(q, START, PREFIX, Contacts(k));
    RunThen(q, START, PREFIX + Contacts(k), TAIL);
  }

  lemma MapLength(k: nat)
    ensures |MapBytes(k)| == 324 + 79 * k
  {
    PartLengths(k);
    PrintConcat(PREFIX + Contacts(k), TAIL);
  }

  /** A collection is never closed below the outermost level: ok, once false, stays false. */
  lemma {:induction false} NeverBelowZero(q: Query, s: State, items: seq<Item>, n: nat)
    requires n <= |items| && Run(q, s, items).ok
    ensures RunTo(q, s, items, n).ok
    decreases |items| - n
  {
    if n == |items| {
    } else {
      NeverBelowZero(q, s, items, n + 1);
    }
  }

  // ----- Truncation and repair -----

  lemma ContactHead()
    ensures |CONTACT| > 2 && CONTACT[0] == UsagePage([0x0D]) && CONTACT[1] == Usage([0x22])
    ensures Print(CONTACT) == [0x05, 0x0D, 0x09, 0x22] + Print(CONTACT[2..])
  {
    var rest := CONTACT[2..];
    assert CONTACT[0] == CONTACT_SWITCHES[0] && CONTACT[1] == CONTACT_SWITCHES[1];
    assert CONTACT == [CONTACT[0], CONTACT[1]] + rest;
    PrintConcat([CONTACT[0], CONTACT[1]], rest);
    PrintPair(CONTACT[0], CONTACT[1]);
    assert PrintItem(UsagePage([0x0D])) == [0x05, 0x0D] && PrintItem(Usage([0x22])) == [0x09, 0x22];
  }

  lemma PrintPair(i: Item, j: Item)
    ensures Print([i, j]) == PrintItem(i) + PrintItem(j)
  {
    assert [i, j][1..] == [j];
    assert Print([j]) == PrintItem(j) + Print([]);
  }

  lemma TailHead()
    ensures |Print(TAIL)| > 2 && Print(TAIL)[2] == 0x55
  {
    assert TAIL[0] == SCAN_TIME[0] && TAIL[1] == SCAN_TIME[1];
    assert Print(TAIL) == PrintItem(TAIL[0]) + (PrintItem(TAIL[1]) + Print(TAIL[1..][1..]));
  }

  lemma {:induction false} RepeatSplit(items: seq<Item>, m: nat, n: nat)
    ensures Repeat(items, m + n) == Repeat(items, m) + Repeat(items, n)
  {
    if n == 0 {
      assert Repeat(items, m) + [] == Repeat(items, m);
    } else {
      RepeatSplit(items, m, n - 1);
      Seqs.Assoc(Repeat(items, m), Repeat(items, n - 1), items);
    }
  }

  lemma Regroup(p: seq<Item>, a: seq<Item>, c: seq<Item>, b: seq<Item>, t: seq<Item>)
    ensures p + (a + (c + b)) + t == (p + a) + (c + (b + t))
    ensures Print(p + (a + (c + b)) + t) == Print(p + a) + (Print(c) + Print(b + t))
  {
    Seqs.Assoc(p, a, c + b);
    Seqs.Assoc(p + a, c + b, t);
    Seqs.Assoc(c, b, t);
    PrintConcat(p + a, c + (b + t));
    PrintConcat(c, b + t);
  }

  lemma OneContact()
    ensures Contacts(1) == CONTACT
  {
    assert Repeat(CONTACT, 1) == Repeat(CONTACT, 0) + CONTACT;
  }

  lemma RepeatAround(items: seq<Item>, m: nat, n: nat)
    ensures Repeat(items, m + 1 + n) == Repeat(items, m) + (items + Repeat(items, n))
  {
    RepeatSplit(items, m + 1, n);
    Seqs.Assoc(Repeat(items, m), items, Repeat(items, n));
  }

  lemma ContactsAround(m: nat, k: nat)
    requires m < k
    ensures Contacts(k) == Contacts(m) + (CONTACT + Contacts(k - m - 1))
  {
    RepeatAround(CONTACT, m, k - m - 1);
  }

  /** A map with k contacts, opened at the start of contact m. */
  lemma ContactAt(p: seq<Item>, t: seq<Item>, m: nat, k: nat)
    requires m < k
    ensures Print(p + Contacts(k) + t) == Print(p + Contacts(m)) + (Print(CONTACT) + Print(Contacts(k - m - 1) + t))
  {
    ContactsAround(m, k);
    Regroup(p, Contacts(m), CONTACT, Contacts(k - m - 1), t);
  }

  /** The map with k >= 4 contacts, opened at the start of its fourth. */
  lemma FourthContact(k: nat)
    requires k >= 4
    ensures MapBytes(k) == Print(PREFIX + Contacts(WHOLE)) + (Print(CONTACT) + Print(Contacts(k - 4) + TAIL))
  {
    ContactAt(PREFIX, TAIL, 3, k);
  }

  /** Where a text that starts h, d continues with c = d + x, its prefix h + d is followed by x. */
  lemma Extends(h: seq<byte>, d: seq<byte>, x: seq<byte>, c: seq<byte>, r: seq<byte>)
    requires c == d + x
    ensures h + (c + r) == (h + d) + (x + r)
  {
  }

  lemma TruncatedIsPrefix(k: nat)
    requires k >= 4
    ensures TRUNCATED <= MapBytes(k)
  {
    var cut: seq<byte> := [0x05, 0x0D, 0x09];
    var x := [0x22] + Print(CONTACT[2..]);
    ContactHead();
    assert Print(CONTACT) == cut + x;
    FourthContact(k);
    Extends(Print(PREFIX + Contacts(WHOLE)), cut, x, Print(CONTACT), Print(Contacts(k - 4) + TAIL));
  }

  /** With three contacts the tail starts where the fourth contact would, and differs in its third byte. */
  lemma ThreeContactsDiffer()
    ensures |MapBytes(3)| > 511 && MapBytes(3)[511] == 0x55
    ensures |TRUNCATED| == 512 && TRUNCATED[511] == 0x09
  {
    var head := Print(PREFIX + Contacts(WHOLE));
    PartLengths(3);
    TailHead();
    PrintConcat(PREFIX + Contacts(WHOLE), TAIL);
    assert MapBytes(3) == head + Print(TAIL);
  }

  lemma PrefixByLength(t: seq<byte>, m: seq<byte>, k: nat)
    requires |t| == 512 && |m| == 324 + 79 * k
    requires k >= 4 ==> t <= m
    requires k == 3 ==> m[511] != t[511]
    ensures t <= m <==> k >= 4
  {
  }

  /** Of the whole family, exactly the maps with at least four contacts start with the truncated map. */
  lemma TruncatedPrefix(k: nat)
    ensures TRUNCATED <= MapBytes(k) <==> k >= 4
  {
    MapLength(k);
    ThreeContactsDiffer();
    if k >= 4 {
      TruncatedIsPrefix(k);
    }
    PrefixByLength(TRUNCATED, MapBytes(k), k);
  }

  /** The delivered map stops inside an item whose header is its last byte. */
  lemma TruncatedIncomplete()
    ensures ParseBytes(TRUNCATED) == Incomplete(PREFIX + Contacts(WHOLE) + [UsagePage([0x0D])], 511)
  {
    var head := PREFIX + Contacts(WHOLE);
    PartLengths(3);
    PrintConcat(head, [UsagePage([0x0D])]);
    assert PrintItem(UsagePage([0x0D])) == [0x05, 0x0D];
    assert Print([UsagePage([0x0D])]) == [0x05, 0x0D] + Print([]);
    assert TRUNCATED == Print(head + [UsagePage([0x0D])]) + [0x09];
    ParseBefore(head + [UsagePage([0x0D])], [0x09]);
    assert ParseBytes([0x09]) == Incomplete([], 0);
    PrependAll(head + [UsagePage([0x0D])]);
  }

  /** Appending the residual to the delivered map gives the family's five-contact map. */
  lemma ResidualCompletes()
    ensures |RESIDUAL| == 207 && TRUNCATED + RESIDUAL == MapBytes(5)
  {
    var cut: seq<byte> := [0x05, 0x0D, 0x09];
    var x := [0x22] + Print(CONTACT[2..]);
    ContactHead();
    assert Print(CONTACT) == cut + x;
    FourthContact(5);
    OneContact();
    PrintConcat(CONTACT, TAIL);
    Extends(Print(PREFIX + Contacts(WHOLE)), cut, x, Print(CONTACT), Print(CONTACT) + Print(TAIL));
    Seqs.Assoc(x, Print(CONTACT), Print(TAIL));
    PartLengths(3);
  }

  lemma RepairedLength()
    ensures |REPAIRED| == 640
  {
    MapLength(4);
  }

  lemma TruncatedLength()
    ensures |TRUNCATED| == 512
  {
    PartLengths(3);
  }
}
