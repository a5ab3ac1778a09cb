/**
 The lines btclient prints, and the four searches duet5-hogp-bridge.py runs on
 each of them. Every repetition in those expressions is followed by a character
 outside its own class, so at a given position each has at most one match and
 `re.search` returns the leftmost position that has one.
*/
module Messages {
  import opened Wrappers
  import Bytes
  import Decimal
  import Framing
  import Seqs

  type byte = Bytes.byte

  // ----- Pieces of the expressions -----

  /** [0-9A-Fa-f:] */
  predicate IsAddressChar(c: char) {
    '0' <= c <= '9' || 'A' <= c <= 'F' || 'a' <= c <= 'f' || c == ':'
  }

  /** The ASCII characters that \s matches and str.strip() removes. */
  predicate IsSpace(c: char) {
    c == ' ' || '\t' <= c <= '\r' || '\U{001C}' <= c <= '\U{001F}'
  }

  const ADDRESS_LENGTH: nat := 17

  predicate IsAddress(s: string) {
    |s| == ADDRESS_LENGTH && forall i | 0 <= i < |s| :: IsAddressChar(s[i])
  }

  function UpperChar(c: char): char {
    if 'a' <= c <= 'z' then (c as int - 32) as char else c
  }

  function Upper(s: string): (u: string)
    ensures |u| == |s| && forall i | 0 <= i < |s| :: u[i] == UpperChar(s[i])
  {
    seq(|s|, i requires 0 <= i < |s| => UpperChar(s[i]))
  }

  /** What follows literal text lit at the head of s. */
  function AfterLiteral(s: string, lit: string): Option<string> {
    if lit <= s then Some(s[|lit|..]) else None
  }

  /** A matched value and the text after it. */
  datatype Match<+T> = Match(value: T, rest: string)

  function AddressAt(s: string): (m: Option<Match<string>>)
    ensures m.Some? ==> IsAddress(m.value.value) && s == m.value.value + m.value.rest
  {
    if |s| >= ADDRESS_LENGTH && IsAddress(s[..ADDRESS_LENGTH]) then
      Some(Match(s[..ADDRESS_LENGTH], s[ADDRESS_LENGTH..]))
    else None
  }

  /** \d+ */
  function NumberAt(s: string): Option<Match<nat>> {
    var n := Framing.Span(s, Decimal.IsDigit);
    if n > 0 then Some(Match(Decimal.Value(s[..n]), s[n..])) else None
  }

  /** -?\d+ */
  function IntegerAt(s: string): Option<Match<int>> {
    if "-" <= s then
      match NumberAt(s[1..])
      case Some(Match(n, rest)) =>
        var m: int := n;
        Some(Match(-m, rest))
      case None => None
    else
      match NumberAt(s)
      case Some(Match(n, rest)) => Some(Match(n, rest))
      case None => None
  }

  // ----- The four expressions, anchored at the head of s -----

  /** DEVICE_RE: a bracketed address, white space, and the keyboard's name. */
  function DeviceAt(s: string): Option<string> {
    match AfterLiteral(s, "[")
    case None => None
    case Some(t) =>
      match AddressAt(t)
      case None => None
      case Some(Match(addr, u)) =>
        match AfterLiteral(u, "]")
        case None => None
        case Some(v) =>
          var n := Framing.Span(v, IsSpace);
          if n > 0 && "Duet 5 KB" <= v[n..] then Some(addr) else None
  }

  datatype Registration = Registration(status: nat, clientId: int)

  const REGISTERED_HEAD := "GATT Client registered status = "
  const CONNECTION_HEAD := "GATT Client connection state = "

  /** What REGISTERED_RE and CONNECTION_RE begin with: a text of their own, a status, a client id. */
  function StatusAt(s: string, head: string): Option<Match<(nat, int)>> {
    match AfterLiteral(s, head)
    case None => None
    case Some(t) =>
      match NumberAt(t)
      case None => None
      case Some(Match(status, u)) =>
        match AfterLiteral(u, ", client_id = ")
        case None => None
        case Some(v) =>
          match IntegerAt(v)
          case None => None
          case Some(Match(clientId, w)) => Some(Match((status, clientId), w))
  }

  /** REGISTERED_RE */
  function RegistrationAt(s: string): Option<Registration> {
    match StatusAt(s, REGISTERED_HEAD)
    case None => None
    case Some(Match((status, clientId), _)) => Some(Registration(status, clientId))
  }

  datatype Connection = Connection(status: nat, clientId: int, connected: bool, peer: string)

  /** "true" or "false" */
  function FlagAt(s: string): Option<Match<bool>> {
    if "true" <= s then Some(Match(true, s[4..]))
    else if "false" <= s then Some(Match(false, s[5..]))
    else None
  }

  /** The end of CONNECTION_RE: the flag and the address. */
  function LinkAt(s: string): Option<(bool, string)> {
    match AfterLiteral(s, ", connected = ")
    case None => None
    case Some(x) =>
      match FlagAt(x)
      case None => None
      case Some(Match(connected, y)) =>
        match AfterLiteral(y, ", addr = ")
        case None => None
        case Some(z) =>
          match AddressAt(z)
          case None => None
          case Some(Match(peer, _)) => Some((connected, peer))
  }

  /** CONNECTION_RE */
  function ConnectionAt(s: string): Option<Connection> {
    match StatusAt(s, CONNECTION_HEAD)
    case None => None
    case Some(Match((status, clientId), w)) =>
      match LinkAt(w)
      case None => None
      case Some((connected, peer)) => Some(Connection(status, clientId, connected, peer))
  }

  datatype Notification = Notification(peer: string, handle: nat, raw: string)

  const NOTIFY_HEAD := "GATT Notification: addr = "
  const NOTIFY_HANDLE := ", handle = "
  const NOTIFY_VALUE := ", value = ["

  predicate NotBracket(c: char) {
    c != ']'
  }

  /** The end of NOTIFY_RE: the bracketed value. */
  function RawValueAt(s: string): Option<string> {
    match AfterLiteral(s, NOTIFY_VALUE)
    case None => None
    case Some(x) =>
      var n := Framing.Span(x, NotBracket);
      if n < |x| then Some(x[..n]) else None
  }

  /** What follows the address in NOTIFY_RE: the handle and the value. */
  function HandleAt(s: string): Option<(nat, string)> {
    match AfterLiteral(s, NOTIFY_HANDLE)
    case None => None
    case Some(v) =>
      match NumberAt(v)
      case None => None
      case Some(Match(handle, w)) =>
        match RawValueAt(w)
        case None => None
        case Some(raw) => Some((handle, raw))
  }

  /** NOTIFY_RE */
  function NotificationAt(s: string): Option<Notification> {
    match AfterLiteral(s, NOTIFY_HEAD)
    case None => None
    case Some(t) =>
      match AddressAt(t)
      case None => None
      case Some(Match(peer, u)) =>
        match HandleAt(u)
        case None => None
        case Some((handle, raw)) => Some(Notification(peer, handle, raw))
  }

  /** re.search: the first position at which the expression matches. */
  function Search<T>(s: string, at: string -> Option<T>): Option<T>
    decreases |s|
  {
    if at(s).Some? then at(s)
    else if s == "" then None
    else Search(s[1..], at)
  }

  /** What the four searches find in one line. */
  datatype Line = Line(
    device: Option<string>,
    registration: Option<Registration>,
    connection: Option<Connection>,
    notification: Option<Notification>)

  const NOTHING := Line(None, None, None, None)

  function Scan(line: string): Line {
    Line(Search(line, DeviceAt), Search(line, RegistrationAt),
         Search(line, ConnectionAt), Search(line, NotificationAt))
  }

  // ----- Notification values -----

  function StripLeft(s: string): string {
    if s != "" && IsSpace(s[0]) then StripLeft(s[1..]) else s
  }

  function StripRight(s: string): string {
    if s != "" && IsSpace(s[|s| - 1]) then StripRight(s[..|s| - 1]) else s
  }

  /** str.strip() */
  function Strip(s: string): string {
    StripRight(StripLeft(s))
  }

  /** int(s) for optionally signed decimal digits; None is ValueError. */
  function ParseInt(s: string): Option<int> {
    if s != "" && Decimal.AllDigits(s) then Some(Decimal.Value(s))
    else if |s| > 1 && s[0] == '-' && Decimal.AllDigits(s[1..]) then
      var m: int := Decimal.Value(s[1..]);
      Some(-m)
    else if |s| > 1 && s[0] == '+' && Decimal.AllDigits(s[1..]) then Some(Decimal.Value(s[1..]))
    else None
  }

  /** bytes(int(item.strip()) for item in items if item.strip()); None is ValueError. */
  function ParseItems(items: seq<string>): Option<seq<byte>> {
    if items == [] then Some([])
    else if Strip(items[0]) == "" then ParseItems(items[1..])
    else
      match (ParseInt(Strip(items[0])), ParseItems(items[1..]))
      case (Some(n), Some(rest)) => if 0 <= n < 256 then Some([n] + rest) else None
      case _ => None
  }

  function ParseValue(raw: string): Option<seq<byte>> {
    ParseItems(Framing.Split(Strip(raw), ','))
  }

  // ----- What btclient prints for a notification -----

  datatype Report = Report(peer: string, handle: nat, value: seq<byte>)

  function PrintValue(value: seq<byte>): string {
    if value == [] then ""
    else if |value| == 1 then Decimal.Print(value[0])
    else Decimal.Print(value[0]) + ", " + PrintValue(value[1..])
  }

  function PrintReport(r: Report): string {
    NOTIFY_HEAD + r.peer + NOTIFY_HANDLE + Decimal.Print(r.handle) + NOTIFY_VALUE + PrintValue(r.value) + "]"
  }

  // ----- Reading values back -----

  predicate Clean(s: string) {
    s != "" && !IsSpace(s[0]) && !IsSpace(s[|s| - 1])
  }

  lemma StripClean(s: string)
    requires Clean(s)
    ensures Strip(s) == s && Strip(" " + s) == s
  {
    assert (" " + s)[1..] == s;
    assert StripLeft(" " + s) == StripLeft(s);
  }

  lemma PrintedNumberClean(n: nat)
    ensures Clean(Decimal.Print(n)) && ',' !in Decimal.Print(n)
  {
    var s := Decimal.Print(n);
    assert Decimal.IsDigit(s[0]) && Decimal.IsDigit(s[|s| - 1]);
  }

  lemma ParseItemsCons(n: byte, lead: string, items: seq<string>)
    requires lead == "" || lead == " "
    requires ParseItems(items).Some?
    ensures ParseItems([lead + Decimal.Print(n)] + items) == Some([n] + ParseItems(items).value)
  {
    var all := [lead + Decimal.Print(n)] + items;
    PrintedNumberClean(n);
    StripClean(Decimal.Print(n));
    Decimal.RoundTrip(n);
    assert lead == "" ==> lead + Decimal.Print(n) == Decimal.Print(n);
    assert all[1..] == items;
  }

  lemma PrintValueCons(value: seq<byte>, lead: string)
    requires |value| > 1
    ensures lead + PrintValue(value) ==
            (lead + Decimal.Print(value[0])) + [','] + (" " + PrintValue(value[1..]))
  {
    SplitSeparator(lead, Decimal.Print(value[0]), PrintValue(value[1..]));
  }

  lemma SplitSeparator(lead: string, item: string, rest: string)
    ensures lead + (item + ", " + rest) == (lead + item) + [','] + (" " + rest)
  {
    assert ", " == [','] + " ";
  }

  /** The items of a printed value, each possibly led by the separator's space. */
  lemma {:induction false} ParsePrintedItems(value: seq<byte>, lead: string)
    requires value != [] && (lead == "" || lead == " ")
    ensures ParseItems(Framing.Split(lead + PrintValue(value), ',')) == Some(value)
    decreases |value|
  {
    var item := lead + Decimal.Print(value[0]);
    PrintedNumberClean(value[0]);
    if |value| == 1 {
      Framing.SplitItem(item, "", ',');
      ParseItemsCons(value[0], lead, []);
      assert [item] + [] == [item] && value == [value[0]] + [];
    } else {
      var rest := " " + PrintValue(value[1..]);
      PrintValueCons(value, lead);
      Framing.SplitItem(item, rest, ',');
      ParsePrintedItems(value[1..], " ");
      ParseItemsCons(value[0], lead, Framing.Split(rest, ','));
      Seqs.Uncons(value);
    }
  }

  lemma {:induction false} PrintedValueClean(value: seq<byte>)
    requires value != []
    ensures Clean(PrintValue(value))
  {
    PrintedNumberClean(value[0]);
    if |value| == 1 {
    } else {
      PrintedValueClean(value[1..]);
    }
  }

  lemma ParsePrintedValue(value: seq<byte>)
    ensures ParseValue(PrintValue(value)) == Some(value)
  {
    if value == [] {
      assert Strip("") == "";
      assert Framing.Split("", ',') == [""];
      assert ParseItems([""]) == ParseItems([""][1..]);
    } else {
      PrintedValueClean(value);
      StripClean(PrintValue(value));
      assert "" + PrintValue(value) == PrintValue(value);
      ParsePrintedItems(value, "");
    }
  }

  // ----- Reading whole lines back -----

  lemma AfterLiteralConcat(lit: string, rest: string)
    ensures AfterLiteral(lit + rest, lit) == Some(rest)
  {
    Seqs.SplitConcat(lit, rest);
  }

  lemma AddressAtConcat(addr: string, rest: string)
    requires IsAddress(addr)
    ensures AddressAt(addr + rest) == Some(Match(addr, rest))
  {
    Seqs.SplitConcat(addr, rest);
  }

  lemma SpanConcat(a: string, b: string, p: char -> bool)
    requires forall i | 0 <= i < |a| :: p(a[i])
    requires b == "" || !p(b[0])
    ensures Framing.Span(a + b, p) == |a|
  {
    Framing.SpanUnique(a + b, p, |a|);
  }

  lemma NumberAtPrinted(n: nat, rest: string)
    requires rest == "" || !Decimal.IsDigit(rest[0])
    ensures NumberAt(Decimal.Print(n) + rest) == Some(Match(n, rest))
  {
    SpanConcat(Decimal.Print(n), rest, Decimal.IsDigit);
    Seqs.SplitConcat(Decimal.Print(n), rest);
    Decimal.RoundTrip(n);
  }

  /** Digits, commas and spaces. */
  predicate IsListChar(c: char) {
    Decimal.IsDigit(c) || c == ',' || c == ' '
  }

  lemma {:induction false} PrintValueChars(value: seq<byte>)
    ensures forall i | 0 <= i < |PrintValue(value)| :: IsListChar(PrintValue(value)[i])
  {
    if |value| > 1 {
      PrintValueChars(value[1..]);
      var d := Decimal.Print(value[0]);
      assert forall i | 0 <= i < |d| :: Decimal.IsDigit(d[i]);
    } else if |value| == 1 {
      var d := Decimal.Print(value[0]);
      assert forall i | 0 <= i < |d| :: Decimal.IsDigit(d[i]);
    }
  }

  lemma RawValueAtPrinted(v: string)
    requires forall i | 0 <= i < |v| :: IsListChar(v[i])
    ensures RawValueAt(NOTIFY_VALUE + (v + "]")) == Some(v)
  {
    var x := v + "]";
    SpanConcat(v, "]", NotBracket);
    AfterLiteralConcat(NOTIFY_VALUE, x);
    assert x[..|v|] == v;
  }

  /** The printed line, bracketed to the right as the searches read it. */
  lemma PrintReportParts(r: Report)
    ensures PrintReport(r) ==
            NOTIFY_HEAD + (r.peer + (NOTIFY_HANDLE + (Decimal.Print(r.handle)
                         + (NOTIFY_VALUE + (PrintValue(r.value) + "]")))))
  {
    var n, v := Decimal.Print(r.handle), PrintValue(r.value);
    Seqs.Assoc(NOTIFY_HEAD + r.peer + NOTIFY_HANDLE + n + NOTIFY_VALUE, v, "]");
    Seqs.Assoc(NOTIFY_HEAD + r.peer + NOTIFY_HANDLE + n, NOTIFY_VALUE, v + "]");
    Seqs.Assoc(NOTIFY_HEAD + r.peer + NOTIFY_HANDLE, n, NOTIFY_VALUE + (v + "]"));
    Seqs.Assoc(NOTIFY_HEAD + r.peer, NOTIFY_HANDLE, n + (NOTIFY_VALUE + (v + "]")));
    Seqs.Assoc(NOTIFY_HEAD, r.peer, NOTIFY_HANDLE + (n + (NOTIFY_VALUE + (v + "]"))));
  }

  lemma NotificationAtPrinted(r: Report)
    requires IsAddress(r.peer)
    ensures NotificationAt(PrintReport(r)) == Some(Notification(r.peer, r.handle, PrintValue(r.value)))
  {
    var w := NOTIFY_VALUE + (PrintValue(r.value) + "]");
    var n := Decimal.Print(r.handle) + w;
    var u := NOTIFY_HANDLE + n;
    PrintReportParts(r);
    PrintValueChars(r.value);
    RawValueAtPrinted(PrintValue(r.value));
    NumberAtPrinted(r.handle, w);
    AfterLiteralConcat(NOTIFY_HANDLE, n);
    AddressAtConcat(r.peer, u);
    AfterLiteralConcat(NOTIFY_HEAD, r.peer + u);
  }

  lemma {:induction false} SearchNone<T>(s: string, at: string -> Option<T>)
    requires forall i | 0 <= i <= |s| :: at(s[i..]).None?
    ensures Search(s, at).None?
  {
    assert s[0..] == s;
    if s != "" {
      forall i | 0 <= i <= |s[1..]|
        ensures at(s[1..][i..]).None?
      {
        Seqs.DropDrop(s, 1, i);
      }
      SearchNone(s[1..], at);
    }
  }

  lemma LiteralChars()
    ensures |REGISTERED_HEAD| > 5 && REGISTERED_HEAD[0] == 'G' && REGISTERED_HEAD[5] == 'C'
    ensures |CONNECTION_HEAD| > 5 && CONNECTION_HEAD[0] == 'G' && CONNECTION_HEAD[5] == 'C'
    ensures |NOTIFY_HEAD| > 20 && NOTIFY_HEAD[0] == 'G' && NOTIFY_HEAD[5] == 'N'
  {
  }

  lemma LiteralsPlain()
    ensures PlainChars(NOTIFY_HEAD[1..]) && PlainChars(NOTIFY_HANDLE) && PlainChars(NOTIFY_VALUE)
  {
  }

  lemma RegistrationHead(s: string)
    requires RegistrationAt(s).Some?
    ensures REGISTERED_HEAD <= s
  {
  }

  lemma ConnectionHead(s: string)
    requires ConnectionAt(s).Some?
    ensures CONNECTION_HEAD <= s
  {
  }

  lemma NotClientHead(s: string)
    requires |s| <= 5 || s[0] != 'G' || s[5] != 'C'
    ensures RegistrationAt(s).None? && ConnectionAt(s).None?
  {
    LiteralChars();
    if RegistrationAt(s).Some? {
      RegistrationHead(s);
    }
    if ConnectionAt(s).Some? {
      ConnectionHead(s);
    }
  }

  lemma DeviceHead(s: string)
    requires DeviceAt(s).Some?
    ensures |s| > 19 && s[18] == ']'
  {
    assert "[" <= s;
    var t := s[1..];
    assert AddressAt(t).Some?;
    var u := t[ADDRESS_LENGTH..];
    assert "]" <= u;
    assert u[0] == t[17] == s[18];
    assert Framing.Span(u[1..], IsSpace) > 0;
  }

  predicate PlainChars(s: string) {
    forall i | 0 <= i < |s| :: s[i] != 'G' && s[i] != ']'
  }

  predicate EndsOnly(s: string) {
    s != "" && s[|s| - 1] == ']' && PlainChars(s[..|s| - 1])
  }

  lemma EndsConcat(a: string, b: string)
    requires PlainChars(a) && EndsOnly(b)
    ensures EndsOnly(a + b)
  {
    assert (a + b)[..|a + b| - 1] == a + b[..|b| - 1];
  }

  lemma PlainPieces(r: Report)
    requires IsAddress(r.peer)
    ensures PlainChars(r.peer) && PlainChars(Decimal.Print(r.handle)) && PlainChars(PrintValue(r.value))
  {
    var n := Decimal.Print(r.handle);
    PrintValueChars(r.value);
    assert forall i | 0 <= i < |n| :: Decimal.IsDigit(n[i]);
  }

  /** A printed report holds one 'G', at its head, and one ']', at its end. */
  lemma PrintReportChars(r: Report)
    requires IsAddress(r.peer)
    ensures var s := PrintReport(r);
            |s| > 20 && s[0] == 'G' && s[5] == 'N' && EndsOnly(s[1..])
  {
    var a := NOTIFY_VALUE + (PrintValue(r.value) + "]");
    var b := NOTIFY_HANDLE + (Decimal.Print(r.handle) + a);
    PlainPieces(r);
    LiteralsPlain();
    LiteralChars();
    PrintReportParts(r);
    EndsConcat(PrintValue(r.value), "]");
    EndsConcat(NOTIFY_VALUE, PrintValue(r.value) + "]");
    EndsConcat(Decimal.Print(r.handle), a);
    EndsConcat(NOTIFY_HANDLE, Decimal.Print(r.handle) + a);
    EndsConcat(r.peer, b);
    EndsConcat(NOTIFY_HEAD[1..], r.peer + b);
    Seqs.TailConcat(NOTIFY_HEAD, r.peer + b);
  }

  lemma EndsOnlyTail(s: string)
    requires |s| > 1 && EndsOnly(s[1..])
    ensures forall j | 1 <= j < |s| :: s[j] != 'G'
  {
    var t := s[1..];
    forall j | 1 <= j < |s|
      ensures s[j] != 'G'
    {
      assert s[j] == t[j - 1];
      assert j < |s| - 1 ==> t[..|t| - 1][j - 1] == t[j - 1];
    }
  }

  lemma NoClientMessage(s: string)
    requires |s| > 20 && s[5] == 'N' && EndsOnly(s[1..])
    ensures Search(s, RegistrationAt).None? && Search(s, ConnectionAt).None?
  {
    EndsOnlyTail(s);
    forall i | 0 <= i <= |s|
      ensures RegistrationAt(s[i..]).None? && ConnectionAt(s[i..]).None?
    {
      assert i < |s| ==> s[i..][0] == s[i];
      NotClientHead(s[i..]);
    }
    SearchNone(s, RegistrationAt);
    SearchNone(s, ConnectionAt);
  }

  lemma NoDevice(s: string)
    requires |s| > 20 && s[0] == 'G' && EndsOnly(s[1..])
    ensures Search(s, DeviceAt).None?
  {
    assert forall j | 1 <= j < |s| - 1 :: s[j] == s[1..][..|s| - 2][j - 1] && s[j] != ']';
    forall i | 0 <= i <= |s|
      ensures DeviceAt(s[i..]).None?
    {
      assert i + 19 < |s| ==> s[i..][18] == s[i + 18];
      if DeviceAt(s[i..]).Some? {
        DeviceHead(s[i..]);
      }
    }
    SearchNone(s, DeviceAt);
  }

  /** A printed report is found by the notification search, in full, and by no other search. */
  lemma ScanPrinted(r: Report)
    requires IsAddress(r.peer)
    ensures Scan(PrintReport(r)) ==
            NOTHING.(notification := Some(Notification(r.peer, r.handle, PrintValue(r.value))))
  {
    PrintReportChars(r);
    NotificationAtPrinted(r);
    NoClientMessage(PrintReport(r));
    NoDevice(PrintReport(r));
  }

  lemma PrintReportNoNewline(r: Report)
    requires IsAddress(r.peer)
    ensures '\n' !in PrintReport(r)
  {
    var n, v := Decimal.Print(r.handle), PrintValue(r.value);
    PrintValueChars(r.value);
    assert forall i | 0 <= i < |n| :: Decimal.IsDigit(n[i]);
    assert '\n' !in NOTIFY_HEAD && '\n' !in NOTIFY_HANDLE && '\n' !in NOTIFY_VALUE;
  }
}
