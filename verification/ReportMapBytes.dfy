/**
 The maps byte by byte, as the C tables of duet5-uhid-preload.c write them, one row
 for each row of items of ReportMap: what the items are taken to mean there is
 checked here against the bytes they come from.
*/
module ReportMapBytes {
  import opened Bytes
  import opened ReportMap
  import opened ShortItems
  import Seqs

  /** The items print, one by one, to these bytes. */
  predicate Spelt(items: seq<Item>, bytes: seq<seq<byte>>) {
    |items| == |bytes| && forall i | 0 <= i < |items| :: PrintItem(items[i]) == bytes[i]
  }

  predicate SpeltBetween(items: seq<Item>, bytes: seq<seq<byte>>, from: nat, to: nat) {
    to <= |items| == |bytes| && forall i | from <= i < to :: PrintItem(items[i]) == bytes[i]
  }

  lemma SpeltConcat(a: seq<Item>, x: seq<seq<byte>>, b: seq<Item>, y: seq<seq<byte>>)
    requires Spelt(a, x) && Spelt(b, y)
    ensures Spelt(a + b, x + y)
  {
  }

  lemma {:induction false} SpeltPrint(items: seq<Item>, bytes: seq<seq<byte>>)
    requires Spelt(items, bytes)
    ensures Print(items) == Seqs.Flatten(bytes)
  {
    if items == [] {
    } else {
      SpeltPrint(items[1..], bytes[1..]);
    }
  }

  // ----- The rows -----

  const KEY_MODIFIERS_BYTES: seq<seq<byte>> := [
    [0x05, 0x01], [0x09, 0x06], [0xA1, 0x01], [0x85, 0x01], [0x15, 0x00], [0x25, 0x01], [0x05, 0x07],
    [0x1A, 0xE0, 0x00], [0x2A, 0xE7, 0x00], [0x75, 0x01], [0x95, 0x08], [0x81, 0x02]
  ]

  const KEY_CODES_BYTES: seq<seq<byte>> := [
    [0x05, 0x07], [0x19, 0x00], [0x2A, 0x91, 0x00], [0x16, 0x00, 0x00], [0x26, 0xFF, 0x00], [0x75, 0x08],
    [0x95, 0x0A], [0x81, 0x00]
  ]

  const CONSUMER_FEATURE_BYTES: seq<seq<byte>> := [
    [0x05, 0x0C], [0x0A, 0xC0, 0x02], [0xA1, 0x02], [0x1A, 0xC1, 0x02], [0x2A, 0xC6, 0x02], [0x95, 0x06],
    [0xB1, 0x03], [0xC0]
  ]

  const LEDS_BYTES: seq<seq<byte>> := [
    [0x05, 0x08], [0x75, 0x01], [0x95, 0x03], [0x19, 0x01], [0x29, 0x03], [0x25, 0x01], [0x91, 0x02],
    [0x95, 0x05], [0x91, 0x01], [0xC0]
  ]

  const MOUSE_HEAD_BYTES: seq<seq<byte>> := [
    [0x05, 0x01], [0x09, 0x02], [0xA1, 0x01], [0x85, 0x02], [0x09, 0x01], [0xA1, 0x00]
  ]

  const MOUSE_BUTTONS_BYTES: seq<seq<byte>> := [
    [0x05, 0x09], [0x19, 0x01], [0x29, 0x08], [0x15, 0x00], [0x25, 0x01], [0x95, 0x08], [0x75, 0x01],
    [0x81, 0x02]
  ]

  const MOUSE_MOTION_BYTES: seq<seq<byte>> := [
    [0x05, 0x01], [0x16, 0x01, 0xF8], [0x26, 0xFF, 0x07], [0x75, 0x0C], [0x95, 0x02], [0x09, 0x30],
    [0x09, 0x31], [0x81, 0x06]
  ]

  const MOUSE_WHEELS_BYTES: seq<seq<byte>> := [
    [0x15, 0x81], [0x25, 0x7F], [0x75, 0x08], [0x95, 0x01], [0x09, 0x38], [0x81, 0x06], [0x05, 0x0C],
    [0x0A, 0x38, 0x02], [0x95, 0x01], [0x81, 0x06], [0xC0], [0xC0]
  ]

  const CONSUMER_BYTES: seq<seq<byte>> := [
    [0x05, 0x0C], [0x09, 0x01], [0xA1, 0x01], [0x85, 0x03], [0x19, 0x00], [0x2A, 0x3C, 0x02], [0x15, 0x00],
    [0x26, 0x3C, 0x02], [0x95, 0x01], [0x75, 0x18], [0x81, 0x00], [0xC0]
  ]

  const SYSTEM_HEAD_BYTES: seq<seq<byte>> := [
    [0x05, 0x01], [0x09, 0x80], [0xA1, 0x01], [0x85, 0x04], [0x0A, 0x81, 0x00], [0x0A, 0x82, 0x00],
    [0x0A, 0x83, 0x00]
  ]

  const SYSTEM_KEYS_BYTES: seq<seq<byte>> := [
    [0x15, 0x00], [0x25, 0x01], [0x75, 0x01], [0x95, 0x03], [0x81, 0x02], [0x95, 0x05], [0x81, 0x01], [0xC0]
  ]

  const VENDOR_A1_BYTES: seq<seq<byte>> := [
    [0x06, 0xA1, 0xFF], [0x09, 0x11], [0xA1, 0x01], [0x85, 0x54], [0x09, 0x11], [0x75, 0x08], [0x95, 0x01],
    [0xB1, 0x02], [0xC0]
  ]

  const VENDOR_A8_BYTES: seq<seq<byte>> := [
    [0x06, 0xA8, 0xFF], [0x09, 0x18], [0xA1, 0x01], [0x85, 0xC4], [0x09, 0x11], [0x75, 0x08], [0x95, 0x01],
    [0xB1, 0x02], [0xC0]
  ]

  const VENDOR_00_BYTES: seq<seq<byte>> := [
    [0x06, 0x00, 0xFF], [0x09, 0x01], [0xA1, 0x01], [0x25, 0xFF], [0x75, 0x08], [0x95, 0x14], [0x85, 0x05],
    [0x09, 0x01], [0xB1, 0x02], [0xC0]
  ]

  const TOUCH_HEAD_BYTES: seq<seq<byte>> := [
    [0x05, 0x0D], [0x09, 0x05], [0xA1, 0x01], [0x85, 0x06]
  ]

  const CONTACT_SWITCHES_BYTES: seq<seq<byte>> := [
    [0x05, 0x0D], [0x09, 0x22], [0xA1, 0x02], [0x15, 0x00], [0x25, 0x01], [0x09, 0x47], [0x09, 0x42],
    [0x95, 0x02], [0x75, 0x01], [0x81, 0x02]
  ]

  const CONTACT_ID_BYTES: seq<seq<byte>> := [
    [0x95, 0x01], [0x75, 0x04], [0x25, 0x0F], [0x09, 0x51], [0x81, 0x02], [0x75, 0x01], [0x95, 0x02],
    [0x81, 0x03]
  ]

  const CONTACT_X_BYTES: seq<seq<byte>> := [
    [0x05, 0x01], [0x15, 0x00], [0x26, 0x83, 0x0C], [0x75, 0x0C], [0x55, 0x0E], [0x65, 0x13], [0x09, 0x30],
    [0x35, 0x00], [0x46, 0x90, 0x01], [0x95, 0x01], [0x81, 0x02]
  ]

  const CONTACT_Y_BYTES: seq<seq<byte>> := [
    [0x46, 0xEB, 0x00], [0x26, 0x5C, 0x07], [0x09, 0x31], [0x81, 0x02], [0x05, 0x0D], [0x15, 0x00],
    [0x25, 0x64], [0x95, 0x03], [0xC0]
  ]

  const SCAN_TIME_BYTES: seq<seq<byte>> := [
    [0x05, 0x0D], [0x55, 0x0C], [0x66, 0x01, 0x10], [0x47, 0xFF, 0xFF, 0x00, 0x00],
    [0x27, 0xFF, 0xFF, 0x00, 0x00], [0x75, 0x10], [0x95, 0x01], [0x09, 0x56], [0x81, 0x02]
  ]

  const CONTACT_COUNT_BYTES: seq<seq<byte>> := [
    [0x09, 0x54], [0x25, 0x7F], [0x95, 0x01], [0x75, 0x08], [0x81, 0x02]
  ]

  const BUTTON_BYTES: seq<seq<byte>> := [
    [0x05, 0x09], [0x09, 0x01], [0x25, 0x01], [0x75, 0x01], [0x95, 0x01], [0x81, 0x02], [0x95, 0x07],
    [0x81, 0x03], [0xC0]
  ]

  lemma KeyModifiersStart()
    ensures SpeltBetween(KEY_MODIFIERS, KEY_MODIFIERS_BYTES, 0, 6)
  {
  }

  lemma KeyModifiersRest()
    ensures SpeltBetween(KEY_MODIFIERS, KEY_MODIFIERS_BYTES, 6, 12)
  {
  }

  lemma KeyModifiersSpelt()
    ensures Spelt(KEY_MODIFIERS, KEY_MODIFIERS_BYTES)
  {
    KeyModifiersStart();
    KeyModifiersRest();
  }

  lemma KeyCodesSpelt()
    ensures Spelt(KEY_CODES, KEY_CODES_BYTES)
  {
  }

  lemma ConsumerFeatureSpelt()
    ensures Spelt(CONSUMER_FEATURE, CONSUMER_FEATURE_BYTES)
  {
  }

  lemma LedsSpelt()
    ensures Spelt(LEDS, LEDS_BYTES)
  {
  }

  lemma MouseHeadSpelt()
    ensures Spelt(MOUSE_HEAD, MOUSE_HEAD_BYTES)
  {
  }

  lemma MouseButtonsSpelt()
    ensures Spelt(MOUSE_BUTTONS, MOUSE_BUTTONS_BYTES)
  {
  }

  lemma MouseMotionSpelt()
    ensures Spelt(MOUSE_MOTION, MOUSE_MOTION_BYTES)
  {
  }

  lemma MouseWheelsStart()
    ensures SpeltBetween(MOUSE_WHEELS, MOUSE_WHEELS_BYTES, 0, 6)
  {
  }

  lemma MouseWheelsRest()
    ensures SpeltBetween(MOUSE_WHEELS, MOUSE_WHEELS_BYTES, 6, 12)
  {
  }

  lemma MouseWheelsSpelt()
    ensures Spelt(MOUSE_WHEELS, MOUSE_WHEELS_BYTES)
  {
    MouseWheelsStart();
    MouseWheelsRest();
  }

  lemma ConsumerStart()
    ensures SpeltBetween(CONSUMER, CONSUMER_BYTES, 0, 6)
  {
  }

  lemma ConsumerRest()
    ensures SpeltBetween(CONSUMER, CONSUMER_BYTES, 6, 12)
  {
  }

  lemma ConsumerSpelt()
    ensures Spelt(CONSUMER, CONSUMER_BYTES)
  {
    ConsumerStart();
    ConsumerRest();
  }

  lemma SystemHeadSpelt()
    ensures Spelt(SYSTEM_HEAD, SYSTEM_HEAD_BYTES)
  {
  }

  lemma SystemKeysSpelt()
    ensures Spelt(SYSTEM_KEYS, SYSTEM_KEYS_BYTES)
  {
  }

  lemma VendorA1Spelt()
    ensures Spelt(VENDOR_A1, VENDOR_A1_BYTES)
  {
  }

  lemma VendorA8Spelt()
    ensures Spelt(VENDOR_A8, VENDOR_A8_BYTES)
  {
  }

  lemma Vendor00Spelt()
    ensures Spelt(VENDOR_00, VENDOR_00_BYTES)
  {
  }

  lemma TouchHeadSpelt()
    ensures Spelt(TOUCH_HEAD, TOUCH_HEAD_BYTES)
  {
  }

  lemma ContactSwitchesSpelt()
    ensures Spelt(CONTACT_SWITCHES, CONTACT_SWITCHES_BYTES)
  {
  }

  lemma ContactIdSpelt()
    ensures Spelt(CONTACT_ID, CONTACT_ID_BYTES)
  {
  }

  lemma ContactXStart()
    ensures SpeltBetween(CONTACT_X, CONTACT_X_BYTES, 0, 6)
  {
  }

  lemma ContactXRest()
    ensures SpeltBetween(CONTACT_X, CONTACT_X_BYTES, 6, 11)
  {
  }

  lemma ContactXSpelt()
    ensures Spelt(CONTACT_X, CONTACT_X_BYTES)
  {
    ContactXStart();
    ContactXRest();
  }

  lemma ContactYSpelt()
    ensures Spelt(CONTACT_Y, CONTACT_Y_BYTES)
  {
  }

  lemma ScanTimeSpelt()
    ensures Spelt(SCAN_TIME, SCAN_TIME_BYTES)
  {
  }

  lemma ContactCountSpelt()
    ensures Spelt(CONTACT_COUNT, CONTACT_COUNT_BYTES)
  {
  }

  lemma ButtonSpelt()
    ensures Spelt(BUTTON, BUTTON_BYTES)
  {
  }

  // ----- The maps -----

  const KEYBOARD_BYTES: seq<seq<byte>> := KEY_MODIFIERS_BYTES + KEY_CODES_BYTES + CONSUMER_FEATURE_BYTES + LEDS_BYTES
  const MOUSE_BYTES: seq<seq<byte>> := MOUSE_HEAD_BYTES + MOUSE_BUTTONS_BYTES + MOUSE_MOTION_BYTES + MOUSE_WHEELS_BYTES
  const CONTROLS_BYTES: seq<seq<byte>> := CONSUMER_BYTES + SYSTEM_HEAD_BYTES + SYSTEM_KEYS_BYTES
  const VENDOR_BYTES: seq<seq<byte>> := VENDOR_A1_BYTES + VENDOR_A8_BYTES + VENDOR_00_BYTES
  const CONTACT_BYTES: seq<seq<byte>> := CONTACT_SWITCHES_BYTES + CONTACT_ID_BYTES + CONTACT_X_BYTES + CONTACT_Y_BYTES
  const TAIL_BYTES: seq<seq<byte>> := SCAN_TIME_BYTES + CONTACT_COUNT_BYTES + BUTTON_BYTES
  const PREFIX_BYTES: seq<seq<byte>> := KEYBOARD_BYTES + MOUSE_BYTES + CONTROLS_BYTES + VENDOR_BYTES + TOUCH_HEAD_BYTES

  lemma KeyboardSpelt()
    ensures Spelt(KEYBOARD, KEYBOARD_BYTES)
  {
    KeyModifiersSpelt();
    KeyCodesSpelt();
    ConsumerFeatureSpelt();
    LedsSpelt();
    SpeltConcat(KEY_MODIFIERS, KEY_MODIFIERS_BYTES, KEY_CODES, KEY_CODES_BYTES);
    SpeltConcat(KEY_MODIFIERS + KEY_CODES,
                KEY_MODIFIERS_BYTES + KEY_CODES_BYTES, CONSUMER_FEATURE, CONSUMER_FEATURE_BYTES);
    SpeltConcat(KEY_MODIFIERS + KEY_CODES + CONSUMER_FEATURE,
                KEY_MODIFIERS_BYTES + KEY_CODES_BYTES + CONSUMER_FEATURE_BYTES, LEDS, LEDS_BYTES);
  }

  lemma MouseSpelt()
    ensures Spelt(MOUSE, MOUSE_BYTES)
  {
    MouseHeadSpelt();
    MouseButtonsSpelt();
    MouseMotionSpelt();
    MouseWheelsSpelt();
    SpeltConcat(MOUSE_HEAD, MOUSE_HEAD_BYTES, MOUSE_BUTTONS, MOUSE_BUTTONS_BYTES);
    SpeltConcat(MOUSE_HEAD + MOUSE_BUTTONS,
                MOUSE_HEAD_BYTES + MOUSE_BUTTONS_BYTES, MOUSE_MOTION, MOUSE_MOTION_BYTES);
    SpeltConcat(MOUSE_HEAD + MOUSE_BUTTONS + MOUSE_MOTION,
                MOUSE_HEAD_BYTES + MOUSE_BUTTONS_BYTES + MOUSE_MOTION_BYTES, MOUSE_WHEELS, MOUSE_WHEELS_BYTES);
  }

  lemma ControlsSpelt()
    ensures Spelt(CONTROLS, CONTROLS_BYTES)
  {
    ConsumerSpelt();
    SystemHeadSpelt();
    SystemKeysSpelt();
    SpeltConcat(CONSUMER, CONSUMER_BYTES, SYSTEM_HEAD, SYSTEM_HEAD_BYTES);
    SpeltConcat(CONSUMER + SYSTEM_HEAD, CONSUMER_BYTES + SYSTEM_HEAD_BYTES, SYSTEM_KEYS, SYSTEM_KEYS_BYTES);
  }

  lemma VendorSpelt()
    ensures Spelt(VENDOR, VENDOR_BYTES)
  {
    VendorA1Spelt();
    VendorA8Spelt();
    Vendor00Spelt();
    SpeltConcat(VENDOR_A1, VENDOR_A1_BYTES, VENDOR_A8, VENDOR_A8_BYTES);
    SpeltConcat(VENDOR_A1 + VENDOR_A8, VENDOR_A1_BYTES + VENDOR_A8_BYTES, VENDOR_00, VENDOR_00_BYTES);
  }

  lemma ContactSpelt()
    ensures Spelt(CONTACT, CONTACT_BYTES)
  {
    ContactSwitchesSpelt();
    ContactIdSpelt();
    ContactXSpelt();
    ContactYSpelt();
    SpeltConcat(CONTACT_SWITCHES, CONTACT_SWITCHES_BYTES, CONTACT_ID, CONTACT_ID_BYTES);
    SpeltConcat(CONTACT_SWITCHES + CONTACT_ID,
                CONTACT_SWITCHES_BYTES + CONTACT_ID_BYTES, CONTACT_X, CONTACT_X_BYTES);
    SpeltConcat(CONTACT_SWITCHES + CONTACT_ID + CONTACT_X,
                CONTACT_SWITCHES_BYTES + CONTACT_ID_BYTES + CONTACT_X_BYTES, CONTACT_Y, CONTACT_Y_BYTES);
  }

  lemma TailSpelt()
    ensures Spelt(TAIL, TAIL_BYTES)
  {
    ScanTimeSpelt();
    ContactCountSpelt();
    ButtonSpelt();
    SpeltConcat(SCAN_TIME, SCAN_TIME_BYTES, CONTACT_COUNT, CONTACT_COUNT_BYTES);
    SpeltConcat(SCAN_TIME + CONTACT_COUNT, SCAN_TIME_BYTES + CONTACT_COUNT_BYTES, BUTTON, BUTTON_BYTES);
  }

  lemma PrefixSpelt()
    ensures Spelt(PREFIX, PREFIX_BYTES)
  {
    KeyboardSpelt();
    MouseSpelt();
    ControlsSpelt();
    VendorSpelt();
    TouchHeadSpelt();
    SpeltConcat(KEYBOARD, KEYBOARD_BYTES, MOUSE, MOUSE_BYTES);
    SpeltConcat(KEYBOARD + MOUSE, KEYBOARD_BYTES + MOUSE_BYTES, CONTROLS, CONTROLS_BYTES);
    SpeltConcat(KEYBOARD + MOUSE + CONTROLS, KEYBOARD_BYTES + MOUSE_BYTES + CONTROLS_BYTES, VENDOR, VENDOR_BYTES);
    SpeltConcat(KEYBOARD + MOUSE + CONTROLS + VENDOR,
                KEYBOARD_BYTES + MOUSE_BYTES + CONTROLS_BYTES + VENDOR_BYTES, TOUCH_HEAD, TOUCH_HEAD_BYTES);
  }

  lemma PartsSpelt()
    ensures Print(PREFIX) == Seqs.Flatten(PREFIX_BYTES) && Print(CONTACT) == Seqs.Flatten(CONTACT_BYTES)
    ensures Print(TAIL) == Seqs.Flatten(TAIL_BYTES)
  {
    PrefixSpelt();
    ContactSpelt();
    TailSpelt();
    SpeltPrint(PREFIX, PREFIX_BYTES);
    SpeltPrint(CONTACT, CONTACT_BYTES);
    SpeltPrint(TAIL, TAIL_BYTES);
  }

  function Times(b: seq<byte>, k: nat): seq<byte> {
    if k == 0 then [] else Times(b, k - 1) + b
  }

  lemma {:induction false} RepeatPrint(items: seq<Item>, k: nat)
    ensures Print(Repeat(items, k)) == Times(Print(items), k)
  {
    if k == 0 {
    } else {
      RepeatPrint(items, k - 1);
      PrintConcat(Repeat(items, k - 1), items);
    }
  }

  /** The map with k contacts: 272 bytes, 79 for each contact and 52 at the end, as the tables write them. */
  lemma FamilySpelt(k: nat)
    ensures MapBytes(k) ==
            Seqs.Flatten(PREFIX_BYTES) + Times(Seqs.Flatten(CONTACT_BYTES), k) + Seqs.Flatten(TAIL_BYTES)
  {
    PartsSpelt();
    RepeatPrint(CONTACT, k);
    PrintConcat(PREFIX, Contacts(k));
    PrintConcat(PREFIX + Contacts(k), TAIL);
  }

  lemma TruncatedSpelt()
    ensures TRUNCATED == Seqs.Flatten(PREFIX_BYTES) + Times(Seqs.Flatten(CONTACT_BYTES), 3) + [0x05, 0x0D, 0x09]
  {
    PartsSpelt();
    RepeatPrint(CONTACT, WHOLE);
    PrintConcat(PREFIX, Contacts(WHOLE));
  }

  lemma ResidualSpelt()
    ensures [0x05, 0x0D, 0x09] + RESIDUAL ==
            Seqs.Flatten(CONTACT_BYTES) + (Seqs.Flatten(CONTACT_BYTES) + Seqs.Flatten(TAIL_BYTES))
  {
    PartsSpelt();
    ResidualParts();
  }

  lemma ResidualParts()
    ensures [0x05, 0x0D, 0x09] + RESIDUAL == Print(CONTACT) + (Print(CONTACT) + Print(TAIL))
  {
    ContactHead();
    Completes([0x05, 0x0D, 0x09], [0x22], Print(CONTACT[2..]), Print(CONTACT), Print(TAIL));
  }

  lemma Completes(d: seq<byte>, x: seq<byte>, y: seq<byte>, c: seq<byte>, t: seq<byte>)
    requires c == (d + x) + y
    ensures d + (x + y + c + t) == c + (c + t)
  {
  }

  /** The truncated and the repaired table, and what patch 0001 appends to complete the one. */
  lemma TablesSpelt()
    ensures TRUNCATED == Seqs.Flatten(PREFIX_BYTES) + Times(Seqs.Flatten(CONTACT_BYTES), 3) + [0x05, 0x0D, 0x09]
    ensures REPAIRED ==
            Seqs.Flatten(PREFIX_BYTES) + Times(Seqs.Flatten(CONTACT_BYTES), 4) + Seqs.Flatten(TAIL_BYTES)
    ensures [0x05, 0x0D, 0x09] + RESIDUAL ==
            Seqs.Flatten(CONTACT_BYTES) + (Seqs.Flatten(CONTACT_BYTES) + Seqs.Flatten(TAIL_BYTES))
  {
    TruncatedSpelt();
    FamilySpelt(4);
    ResidualSpelt();
  }
}
