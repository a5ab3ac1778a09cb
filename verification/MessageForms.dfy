/**
 The four expressions of duet5-hogp-bridge.py as forms a text may have, and the
 lines btclient prints for each of them: what the anchored matchers of Messages
 accept is exactly the text of that form, and what is printed is found.
*/
module MessageForms {
  import opened Messages
  import opened TerminalText
  import opened Wrappers
  import Decimal
  import Framing
  import Seqs

  // ----- Characters -----

  lemma CharacterClasses(c: char)
    ensures IsAddressChar(c) <==> c in "0123456789ABCDEFabcdef:"
    ensures Decimal.IsDigit(c) <==> c in "0123456789"
    ensures IsSpace(c) <==> c in " \t\n\U{000B}\U{000C}\r\U{001C}\U{001D}\U{001E}\U{001F}"
  {
  }

  /** str.upper() on the characters of an address. */
  lemma UpperAddress()
    ensures Upper("0123456789ABCDEFabcdef:") == "0123456789ABCDEFABCDEF:"
  {
  }

  predicate Digits(d: string) {
    d != "" && forall k | 0 <= k < |d| :: d[k] in "0123456789"
  }

  /** Whatever follows a number: not another digit. */
  predicate NoDigit(rest: string) {
    rest == "" || rest[0] !in "0123456789"
  }

  predicate Integer(m: string) {
    Digits(m) || (m != "" && m[0] == '-' && Digits(m[1..]))
  }

  function IntegerValue(m: string): int
    requires Integer(m)
  {
    if m[0] == '-' then
      var n: int := Decimal.Value(m[1..]);
      -n
    else Decimal.Value(m)
  }

  predicate Address(a: string) {
    |a| == 17 && forall k | 0 <= k < 17 :: a[k] in "0123456789ABCDEFabcdef:"
  }

  predicate Spaces(w: string) {
    w != "" && forall k | 0 <= k < |w| :: w[k] in " \t\n\U{000B}\U{000C}\r\U{001C}\U{001D}\U{001E}\U{001F}"
  }

  lemma AddressMeans(a: string)
    ensures Address(a) <==> IsAddress(a)
  {
    if Address(a) {
      forall k | 0 <= k < |a|
        ensures IsAddressChar(a[k])
      {
        CharacterClasses(a[k]);
      }
    }
    if IsAddress(a) {
      forall k | 0 <= k < 17
        ensures a[k] in "0123456789ABCDEFabcdef:"
      {
        CharacterClasses(a[k]);
      }
    }
  }

  lemma DigitsMeans(d: string)
    ensures Digits(d) <==> d != "" && Decimal.AllDigits(d)
  {
  }

  // ----- The pieces, both ways -----

  lemma LiteralIff(s: string, lit: string, t: string)
    ensures AfterLiteral(s, lit) == Some(t) <==> s == lit + t
  {
    if s == lit + t {
      AfterLiteralConcat(lit, t);
    }
  }

  lemma DigitsAt(d: string, rest: string)
    requires Digits(d) && NoDigit(rest)
    ensures NumberAt(d + rest) == Some(Match(Decimal.Value(d), rest))
  {
    SpanConcat(d, rest, Decimal.IsDigit);
    Seqs.SplitConcat(d, rest);
  }

  lemma NumberForm(s: string) returns (d: string, rest: string)
    requires NumberAt(s).Some?
    ensures s == d + rest && Digits(d) && NoDigit(rest) && NumberAt(s) == Some(Match(Decimal.Value(d), rest))
  {
    var n := Framing.Span(s, Decimal.IsDigit);
    d, rest := s[..n], s[n..];
  }

  lemma IntegerTextAt(m: string, rest: string)
    requires Integer(m) && NoDigit(rest)
    ensures IntegerAt(m + rest) == Some(Match(IntegerValue(m), rest))
  {
    if m[0] == '-' {
      DigitsAt(m[1..], rest);
      Seqs.TailConcat(m, rest);
    } else {
      DigitsAt(m, rest);
    }
  }

  lemma IntegerForm(s: string) returns (m: string, rest: string)
    requires IntegerAt(s).Some?
    ensures s == m + rest && Integer(m) && NoDigit(rest) && IntegerAt(s) == Some(Match(IntegerValue(m), rest))
  {
    if "-" <= s {
      var d;
      d, rest := NumberForm(s[1..]);
      m := "-" + d;
      Seqs.Uncons(s);
      Seqs.Assoc("-", d, rest);
      assert m[0] == '-' && m[1..] == d;
    } else {
      m, rest := NumberForm(s);
    }
  }

  // ----- Registrations -----

  predicate StatusForm(s: string, head: string, d: string, m: string, rest: string) {
    s == head + (d + (", client_id = " + (m + rest))) && Digits(d) && Integer(m) && NoDigit(rest)
  }

  lemma StatusFits(s: string, head: string, d: string, m: string, rest: string)
    requires StatusForm(s, head, d, m, rest)
    ensures StatusAt(s, head) == Some(Match((Decimal.Value(d), IntegerValue(m)), rest))
  {
    var v := m + rest;
    var u := ", client_id = " + v;
    AfterLiteralConcat(head, d + u);
    DigitsAt(d, u);
    AfterLiteralConcat(", client_id = ", v);
    IntegerTextAt(m, rest);
  }

  lemma StatusForms(s: string, head: string) returns (d: string, m: string, rest: string)
    requires StatusAt(s, head).Some?
    ensures StatusForm(s, head, d, m, rest)
    ensures StatusAt(s, head) == Some(Match((Decimal.Value(d), IntegerValue(m)), rest))
  {
    var t := AfterLiteral(s, head).value;
    LiteralIff(s, head, t);
    var u;
    d, u := NumberForm(t);
    var v := AfterLiteral(u, ", client_id = ").value;
    LiteralIff(u, ", client_id = ", v);
    m, rest := IntegerForm(v);
  }

  predicate RegistrationForm(s: string, d: string, m: string, rest: string, r: Registration) {
    && StatusForm(s, "GATT Client registered status = ", d, m, rest)
    && r == Registration(Decimal.Value(d), IntegerValue(m))
  }

  /** The registration expression matches exactly the texts of its form, and reads status and id off them. */
  lemma RegistrationIff(s: string, r: Registration)
    ensures RegistrationAt(s) == Some(r) <==> exists d, m, rest :: RegistrationForm(s, d, m, rest, r)
  {
    if RegistrationAt(s) == Some(r) {
      var d, m, rest := StatusForms(s, REGISTERED_HEAD);
      assert RegistrationForm(s, d, m, rest, r);
    } else if d, m, rest :| RegistrationForm(s, d, m, rest, r) {
      StatusFits(s, REGISTERED_HEAD, d, m, rest);
    }
  }

  // ----- Connections -----

  function FlagText(connected: bool): string {
    if connected then "true" else "false"
  }

  predicate LinkForm(s: string, connected: bool, a: string, rest: string) {
    s == ", connected = " + (FlagText(connected) + (", addr = " + (a + rest))) && Address(a)
  }

  lemma FlagIff(s: string, connected: bool, rest: string)
    ensures FlagAt(s) == Some(Match(connected, rest)) <==> s == FlagText(connected) + rest
  {
    if s == FlagText(connected) + rest {
      Seqs.SplitConcat(FlagText(connected), rest);
      assert "true" <= s ==> s[0] == 't';
      assert "false" <= s ==> s[0] == 'f';
    }
  }

  lemma AddressIff(s: string, a: string, rest: string)
    ensures AddressAt(s) == Some(Match(a, rest)) <==> s == a + rest && Address(a)
  {
    AddressMeans(a);
    if s == a + rest && Address(a) {
      AddressAtConcat(a, rest);
    }
  }

  lemma LinkFits(s: string, connected: bool, a: string, rest: string)
    requires LinkForm(s, connected, a, rest)
    ensures LinkAt(s) == Some((connected, a)) && NoDigit(s)
  {
    var y := ", addr = " + (a + rest);
    AfterLiteralConcat(", connected = ", FlagText(connected) + y);
    FlagIff(FlagText(connected) + y, connected, y);
    AfterLiteralConcat(", addr = ", a + rest);
    AddressIff(a + rest, a, rest);
  }

  lemma LinkForms(s: string) returns (rest: string)
    requires LinkAt(s).Some?
    ensures LinkForm(s, LinkAt(s).value.0, LinkAt(s).value.1, rest)
  {
    var x := AfterLiteral(s, ", connected = ").value;
    var connected, y := FlagAt(x).value.value, FlagAt(x).value.rest;
    FlagIff(x, connected, y);
    var z := AfterLiteral(y, ", addr = ").value;
    var a := AddressAt(z).value.value;
    rest := AddressAt(z).value.rest;
    AddressIff(z, a, rest);
  }

  predicate ConnectionForm(s: string, d: string, m: string, w: string, rest: string, c: Connection) {
    && StatusForm(s, "GATT Client connection state = ", d, m, w) && LinkForm(w, c.connected, c.peer, rest)
    && c.status == Decimal.Value(d) && c.clientId == IntegerValue(m)
  }

  lemma ConnectionFits(s: string, d: string, m: string, w: string, rest: string, c: Connection)
    requires ConnectionForm(s, d, m, w, rest, c)
    ensures ConnectionAt(s) == Some(c)
  {
    LinkFits(w, c.connected, c.peer, rest);
    StatusFits(s, CONNECTION_HEAD, d, m, w);
  }

  /** The connection expression matches exactly the texts of its form, and reads its four values off them. */
  lemma ConnectionIff(s: string, c: Connection)
    ensures ConnectionAt(s) == Some(c) <==> exists d, m, w, rest :: ConnectionForm(s, d, m, w, rest, c)
  {
    if ConnectionAt(s) == Some(c) {
      var d, m, w := StatusForms(s, CONNECTION_HEAD);
      var rest := LinkForms(w);
      assert ConnectionForm(s, d, m, w, rest, c);
    } else if d, m, w, rest :| ConnectionForm(s, d, m, w, rest, c) {
      ConnectionFits(s, d, m, w, rest, c);
    }
  }

  // ----- Devices -----

  predicate DeviceForm(s: string, a: string, w: string, rest: string) {
    s == "[" + (a + ("]" + (w + ("Duet 5 KB" + rest)))) && Address(a) && Spaces(w)
  }

  lemma DeviceFits(s: string, a: string, w: string, rest: string)
    requires DeviceForm(s, a, w, rest)
    ensures DeviceAt(s) == Some(a)
  {
    var name := "Duet 5 KB" + rest;
    AfterLiteralConcat("[", a + ("]" + (w + name)));
    AddressIff(a + ("]" + (w + name)), a, "]" + (w + name));
    AfterLiteralConcat("]", w + name);
    forall k | 0 <= k < |w|
      ensures IsSpace(w[k])
    {
      CharacterClasses(w[k]);
    }
    assert name[0] == 'D';
    SpanConcat(w, name, IsSpace);
    Seqs.SplitConcat(w, name);
  }

  lemma DeviceForms(s: string) returns (w: string, rest: string)
    requires DeviceAt(s).Some?
    ensures DeviceForm(s, DeviceAt(s).value, w, rest)
  {
    var t := AfterLiteral(s, "[").value;
    LiteralIff(s, "[", t);
    var a, u := AddressAt(t).value.value, AddressAt(t).value.rest;
    AddressIff(t, a, u);
    var v := AfterLiteral(u, "]").value;
    LiteralIff(u, "]", v);
    w, rest := NameForms(v);
  }

  /** White space, then the keyboard's name. */
  lemma NameForms(v: string) returns (w: string, rest: string)
    requires var n := Framing.Span(v, IsSpace); n > 0 && "Duet 5 KB" <= v[n..]
    ensures v == w + ("Duet 5 KB" + rest) && Spaces(w)
  {
    var n := Framing.Span(v, IsSpace);
    w, rest := v[..n], v[n..][|"Duet 5 KB"|..];
    forall k | 0 <= k < |w|
      ensures w[k] in " \t\n\U{000B}\U{000C}\r\U{001C}\U{001D}\U{001E}\U{001F}"
    {
      CharacterClasses(w[k]);
    }
    assert v[n..] == "Duet 5 KB" + rest;
    assert v == w + v[n..];
  }

  /** The device expression matches exactly the texts of its form. */
  lemma DeviceIff(s: string, a: string)
    ensures DeviceAt(s) == Some(a) <==> exists w, rest :: DeviceForm(s, a, w, rest)
  {
    if DeviceAt(s) == Some(a) {
      var w, rest := DeviceForms(s);
    }
    if w, rest :| DeviceForm(s, a, w, rest) {
      DeviceFits(s, a, w, rest);
    }
  }

  // ----- Notifications -----

  lemma RawFits(raw: string, rest: string)
    requires ']' !in raw
    ensures RawValueAt(", value = [" + (raw + ("]" + rest))) == Some(raw)
  {
    var x := raw + ("]" + rest);
    AfterLiteralConcat(", value = [", x);
    SpanConcat(raw, "]" + rest, NotBracket);
    Seqs.SplitConcat(raw, "]" + rest);
  }

  lemma RawForms(s: string) returns (rest: string)
    requires RawValueAt(s).Some?
    ensures s == ", value = [" + (RawValueAt(s).value + ("]" + rest)) && ']' !in RawValueAt(s).value
  {
    var x := AfterLiteral(s, NOTIFY_VALUE).value;
    var n := Framing.Span(x, NotBracket);
    LiteralIff(s, ", value = [", x);
    Seqs.SplitAt(x, n);
    rest := x[n + 1..];
  }

  predicate HandleForm(s: string, d: string, raw: string, rest: string) {
    s == ", handle = " + (d + (", value = [" + (raw + ("]" + rest)))) && Digits(d) && ']' !in raw
  }

  lemma HandleFits(s: string, d: string, raw: string, rest: string)
    requires HandleForm(s, d, raw, rest)
    ensures HandleAt(s) == Some((Decimal.Value(d), raw))
  {
    var w := ", value = [" + (raw + ("]" + rest));
    AfterLiteralConcat(", handle = ", d + w);
    DigitsAt(d, w);
    RawFits(raw, rest);
  }

  lemma HandleForms(s: string) returns (d: string, rest: string)
    requires HandleAt(s).Some?
    ensures HandleForm(s, d, HandleAt(s).value.1, rest) && HandleAt(s).value.0 == Decimal.Value(d)
  {
    var v := AfterLiteral(s, NOTIFY_HANDLE).value;
    LiteralIff(s, ", handle = ", v);
    var w;
    d, w := NumberForm(v);
    rest := RawForms(w);
  }

  predicate NotificationForm(s: string, u: string, d: string, rest: string, n: Notification) {
    && s == "GATT Notification: addr = " + (n.peer + u) && Address(n.peer)
    && HandleForm(u, d, n.raw, rest) && n.handle == Decimal.Value(d)
  }

  lemma NotificationFits(s: string, u: string, d: string, rest: string, n: Notification)
    requires NotificationForm(s, u, d, rest, n)
    ensures NotificationAt(s) == Some(n)
  {
    AfterLiteralConcat("GATT Notification: addr = ", n.peer + u);
    AddressIff(n.peer + u, n.peer, u);
    HandleFits(u, d, n.raw, rest);
  }

  lemma NotificationForms(s: string) returns (u: string, d: string, rest: string)
    requires NotificationAt(s).Some?
    ensures NotificationForm(s, u, d, rest, NotificationAt(s).value)
  {
    var t := AfterLiteral(s, NOTIFY_HEAD).value;
    LiteralIff(s, "GATT Notification: addr = ", t);
    var a := AddressAt(t).value.value;
    u := AddressAt(t).value.rest;
    AddressIff(t, a, u);
    d, rest := HandleForms(u);
  }

  /** The notification expression matches exactly the texts of its form, and reads its three values off them. */
  lemma NotificationIff(s: string, n: Notification)
    ensures NotificationAt(s) == Some(n) <==> exists u, d, rest :: NotificationForm(s, u, d, rest, n)
  {
    if NotificationAt(s) == Some(n) {
      var u, d, rest := NotificationForms(s);
    } else if u, d, rest :| NotificationForm(s, u, d, rest, n) {
      NotificationFits(s, u, d, rest, n);
    }
  }

  // ----- Searching -----

  /** re.search finds the match at the first position that has one, and nothing if none has. */
  lemma {:induction false} SearchFirst<T>(s: string, at: string -> Option<T>)
    ensures Search(s, at).None? <==> forall i | 0 <= i <= |s| :: at(s[i..]).None?
    ensures Search(s, at).Some? ==>
              exists i | 0 <= i <= |s| ::
                Search(s, at) == at(s[i..]) && forall j | 0 <= j < i :: at(s[j..]).None?
    decreases |s|
  {
    assert s[0..] == s;
    if at(s).Some? || s == "" {
    } else {
      SearchFirst(s[1..], at);
      forall i | 0 <= i <= |s[1..]|
        ensures s[1..][i..] == s[i + 1..]
      {
        Seqs.DropDrop(s, 1, i);
      }
      if Search(s[1..], at).Some? {
        var i :| 0 <= i <= |s[1..]| && Search(s[1..], at) == at(s[1..][i..])
                 && forall j | 0 <= j < i :: at(s[1..][j..]).None?;
        forall j | 0 <= j < i + 1
          ensures at(s[j..]).None?
        {
          if j > 0 {
            assert at(s[1..][j - 1..]).None?;
          }
        }
        assert Search(s, at) == at(s[i + 1..]);
      } else {
        forall i | 0 <= i <= |s|
          ensures at(s[i..]).None?
        {
          if i > 0 {
            assert at(s[1..][i - 1..]).None?;
          }
        }
      }
    }
  }

  lemma {:induction false} SearchBehind<T>(p: string, s: string, at: string -> Option<T>)
    requires forall i | 0 <= i < |p| :: at((p + s)[i..]).None?
    ensures Search(p + s, at) == Search(s, at)
    decreases |p|
  {
    if p == "" {
      assert p + s == s;
    } else {
      assert (p + s)[0..] == p + s;
      Seqs.TailConcat(p, s);
      forall i | 0 <= i < |p[1..]|
        ensures at((p[1..] + s)[i..]).None?
      {
        Seqs.DropDrop(p + s, 1, i);
      }
      SearchBehind(p[1..], s, at);
    }
  }

  predicate NoneAt(s: string) {
    DeviceAt(s).None? && RegistrationAt(s).None? && ConnectionAt(s).None? && NotificationAt(s).None?
  }

  /** No expression matches where p stands in front of s. */
  predicate Silent(p: string, s: string) {
    forall i | 0 <= i < |p| :: NoneAt((p + s)[i..])
  }

  lemma ScanBehind(p: string, s: string)
    requires Silent(p, s)
    ensures Scan(p + s) == Scan(s)
  {
    SearchBehind(p, s, DeviceAt);
    SearchBehind(p, s, RegistrationAt);
    SearchBehind(p, s, ConnectionAt);
    SearchBehind(p, s, NotificationAt);
  }

  predicate NoHead(c: char) {
    c != '[' && c != 'G'
  }

  lemma NoHeadNone(s: string)
    requires s == "" || NoHead(s[0])
    ensures NoneAt(s)
  {
    LiteralChars();
  }

  /** A prompt in which no expression can start is such a prefix, of any line. */
  lemma PromptSilent(p: string, s: string)
    requires forall i | 0 <= i < |p| :: NoHead(p[i])
    ensures Silent(p, s)
  {
    forall i | 0 <= i < |p|
      ensures NoneAt((p + s)[i..])
    {
      NoHeadNone((p + s)[i..]);
    }
  }

  /** Where only the head of a line can start a match, the searches find what matches there. */
  lemma ScanHead(s: string)
    requires forall i | 1 <= i < |s| :: NoHead(s[i])
    ensures Scan(s) == Line(DeviceAt(s), RegistrationAt(s), ConnectionAt(s), NotificationAt(s))
  {
    SearchHead(s, DeviceAt);
    SearchHead(s, RegistrationAt);
    SearchHead(s, ConnectionAt);
    SearchHead(s, NotificationAt);
  }

  lemma SearchHead<T>(s: string, at: string -> Option<T>)
    requires forall i | 1 <= i < |s| :: NoHead(s[i])
    requires forall t: string | t == "" || NoHead(t[0]) :: at(t).None?
    ensures Search(s, at) == at(s)
  {
    forall i | 1 <= i <= |s|
      ensures at(s[i..]).None?
    {
      assert s[i..] == "" || NoHead(s[i..][0]);
    }
    if s != "" {
      forall i | 0 <= i <= |s[1..]|
        ensures at(s[1..][i..]).None?
      {
        Seqs.DropDrop(s, 1, i);
      }
      SearchNone(s[1..], at);
    }
  }

  // ----- Printed lines -----

  function PrintDevice(peer: string, space: string): string {
    "[" + (peer + ("]" + (space + "Duet 5 KB")))
  }

  function PrintRegistration(r: Registration): string {
    "GATT Client registered status = " + (Decimal.Print(r.status) + (", client_id = " + Decimal.PrintInt(r.clientId)))
  }

  function PrintLink(connected: bool, peer: string): string {
    ", connected = " + ((if connected then "true" else "false") + (", addr = " + peer))
  }

  function PrintConnection(c: Connection): string {
    "GATT Client connection state = " + (Decimal.Print(c.status)
      + (", client_id = " + (Decimal.PrintInt(c.clientId) + PrintLink(c.connected, c.peer))))
  }

  lemma PrintedDigits(n: nat)
    ensures Digits(Decimal.Print(n)) && Decimal.Value(Decimal.Print(n)) == n
    ensures Headless(Decimal.Print(n))
  {
    Decimal.RoundTrip(n);
    DigitsMeans(Decimal.Print(n));
  }

  lemma PrintedInteger(n: int)
    ensures Integer(Decimal.PrintInt(n)) && IntegerValue(Decimal.PrintInt(n)) == n
    ensures Headless(Decimal.PrintInt(n))
  {
    PrintedDigits(if n < 0 then -n else n);
    if n < 0 {
      assert Decimal.PrintInt(n)[1..] == Decimal.Print(-n);
    }
  }

  /** No character of s can head a match. */
  predicate Headless(s: string) {
    forall i | 0 <= i < |s| :: NoHead(s[i])
  }

  lemma HeadlessConcat(a: string, b: string)
    ensures Headless(a) && Headless(b) ==> Headless(a + b)
  {
  }

  lemma HeadlessRegistered()
    ensures Headless(REGISTERED_HEAD[1..])
  {
  }

  lemma HeadlessConnection()
    ensures Headless(CONNECTION_HEAD[1..])
  {
  }

  lemma HeadlessLiterals()
    ensures Headless(", client_id = ") && Headless(", connected = ") && Headless(", addr = ")
    ensures Headless("true") && Headless("false") && Headless("]") && Headless("Duet 5 KB")
  {
  }

  lemma RegistrationPrinted(r: Registration)
    ensures RegistrationAt(PrintRegistration(r)) == Some(r) && Headless(PrintRegistration(r)[1..])
  {
    var d, m := Decimal.Print(r.status), Decimal.PrintInt(r.clientId);
    var rest := d + (", client_id = " + m);
    PrintedDigits(r.status);
    PrintedInteger(r.clientId);
    assert m + "" == m;
    StatusFits(PrintRegistration(r), REGISTERED_HEAD, d, m, "");
    HeadlessRegistered();
    HeadlessLiterals();
    HeadlessConcat(", client_id = ", m);
    HeadlessConcat(d, ", client_id = " + m);
    HeadlessConcat(REGISTERED_HEAD[1..], rest);
    Seqs.TailConcat(REGISTERED_HEAD, rest);
  }

  /** A printed registration is found with its status and client id, and nothing else, behind any silent prompt. */
  lemma ScanRegistration(prompt: string, r: Registration)
    requires Silent(prompt, PrintRegistration(r))
    ensures Scan(prompt + PrintRegistration(r)) == NOTHING.(registration := Some(r))
  {
    var s := PrintRegistration(r);
    RegistrationPrinted(r);
    OnlyHead(s);
    RegistrationHead(s);
    RegistrationOnly(s);
    ScanBehind(prompt, s);
  }

  lemma OnlyHead(s: string)
    requires s != "" && Headless(s[1..])
    ensures Scan(s) == Line(DeviceAt(s), RegistrationAt(s), ConnectionAt(s), NotificationAt(s))
  {
    forall i | 1 <= i < |s|
      ensures NoHead(s[i])
    {
      assert s[i] == s[1..][i - 1];
    }
    ScanHead(s);
  }

  lemma TwelfthChars()
    ensures |REGISTERED_HEAD| > 12 && REGISTERED_HEAD[12] == 'r'
    ensures |CONNECTION_HEAD| > 12 && CONNECTION_HEAD[12] == 'c'
  {
  }

  lemma RegistrationOnly(s: string)
    requires REGISTERED_HEAD <= s
    ensures DeviceAt(s).None? && ConnectionAt(s).None? && NotificationAt(s).None?
  {
    LiteralChars();
    TwelfthChars();
    if ConnectionAt(s).Some? {
      ConnectionHead(s);
    }
  }

  lemma ConnectionOnly(s: string)
    requires CONNECTION_HEAD <= s
    ensures DeviceAt(s).None? && RegistrationAt(s).None? && NotificationAt(s).None?
  {
    LiteralChars();
    TwelfthChars();
    if RegistrationAt(s).Some? {
      RegistrationHead(s);
    }
  }

  /** A printed callback is found with its four values, and nothing else is, behind any silent prompt. */
  lemma ScanConnection(prompt: string, c: Connection)
    requires IsAddress(c.peer) && Silent(prompt, PrintConnection(c))
    ensures Scan(prompt + PrintConnection(c)) == NOTHING.(connection := Some(c))
  {
    var s := PrintConnection(c);
    ConnectionPrinted(c);
    OnlyHead(s);
    ConnectionHead(s);
    ConnectionOnly(s);
    ScanBehind(prompt, s);
  }

  lemma ConnectionPrinted(c: Connection)
    requires IsAddress(c.peer)
    ensures ConnectionAt(PrintConnection(c)) == Some(c) && Headless(PrintConnection(c)[1..])
  {
    var d, m, w := Decimal.Print(c.status), Decimal.PrintInt(c.clientId), PrintLink(c.connected, c.peer);
    PrintedDigits(c.status);
    PrintedInteger(c.clientId);
    AddressMeans(c.peer);
    LinkPrinted(c.connected, c.peer);
    LinkFits(w, c.connected, c.peer, "");
    ConnectionFits(PrintConnection(c), d, m, w, "", c);
    ConnectionHeadless(d, m, w);
  }

  lemma ConnectionHeadless(d: string, m: string, w: string)
    requires Headless(d) && Headless(m) && Headless(w)
    ensures Headless((CONNECTION_HEAD + (d + (", client_id = " + (m + w))))[1..])
  {
    var rest := d + (", client_id = " + (m + w));
    HeadlessConnection();
    HeadlessLiterals();
    HeadlessConcat(m, w);
    HeadlessConcat(", client_id = ", m + w);
    HeadlessConcat(d, ", client_id = " + (m + w));
    HeadlessConcat(CONNECTION_HEAD[1..], rest);
    Seqs.TailConcat(CONNECTION_HEAD, rest);
  }

  lemma LinkPrinted(connected: bool, peer: string)
    requires Address(peer)
    ensures LinkForm(PrintLink(connected, peer), connected, peer, "") && Headless(PrintLink(connected, peer))
  {
    assert peer + "" == peer;
    LinkHeadless(connected, peer);
  }

  lemma LinkHeadless(connected: bool, peer: string)
    requires Headless(peer)
    ensures Headless(PrintLink(connected, peer))
  {
    HeadlessLiterals();
    HeadlessConcat(", addr = ", peer);
    HeadlessConcat(FlagText(connected), ", addr = " + peer);
    HeadlessConcat(", connected = ", FlagText(connected) + (", addr = " + peer));
  }

  lemma DeviceHeadless(peer: string, space: string)
    requires Headless(peer) && Headless(space)
    ensures Headless(PrintDevice(peer, space)[1..])
  {
    HeadlessLiterals();
    HeadlessConcat(space, "Duet 5 KB");
    HeadlessConcat("]", space + "Duet 5 KB");
    HeadlessConcat(peer, "]" + (space + "Duet 5 KB"));
    Seqs.SplitConcat("[", peer + ("]" + (space + "Duet 5 KB")));
  }

  lemma DeviceText(peer: string, space: string)
    requires Address(peer) && Spaces(space)
    ensures DeviceForm(PrintDevice(peer, space), peer, space, "")
  {
    assert "Duet 5 KB" + "" == "Duet 5 KB";
  }

  lemma SpacesHeadless(w: string)
    requires Spaces(w)
    ensures Headless(w)
  {
  }

  lemma DevicePrinted(peer: string, space: string)
    requires Address(peer) && Spaces(space)
    ensures DeviceAt(PrintDevice(peer, space)) == Some(peer) && Headless(PrintDevice(peer, space)[1..])
  {
    DeviceText(peer, space);
    DeviceFits(PrintDevice(peer, space), peer, space, "");
    SpacesHeadless(space);
    DeviceHeadless(peer, space);
  }

  /** A printed device is found with its address, and nothing else is, behind any silent prompt. */
  lemma ScanDevice(prompt: string, peer: string, space: string)
    requires IsAddress(peer) && Spaces(space) && Silent(prompt, PrintDevice(peer, space))
    ensures Scan(prompt + PrintDevice(peer, space)) == NOTHING.(device := Some(peer))
  {
    var s := PrintDevice(peer, space);
    AddressMeans(peer);
    DevicePrinted(peer, space);
    OnlyHead(s);
    LiteralChars();
    ScanBehind(prompt, s);
  }

  /** The same of a printed notification. */
  lemma ScanNotification(prompt: string, r: Report)
    requires IsAddress(r.peer) && Silent(prompt, PrintReport(r))
    ensures Scan(prompt + PrintReport(r)) ==
            NOTHING.(notification := Some(Notification(r.peer, r.handle, PrintValue(r.value))))
  {
    ScanPrinted(r);
    ScanBehind(prompt, PrintReport(r));
  }

  // ----- Printed lines on a terminal -----

  lemma PlainHeads()
    ensures Plain(REGISTERED_HEAD) && Plain(CONNECTION_HEAD)
  {
  }

  lemma PlainLiterals()
    ensures Plain(", client_id = ") && Plain(", connected = ") && Plain(", addr = ") && Plain("true") && Plain("false")
  {
  }

  lemma PlainInteger(n: int)
    ensures Plain(Decimal.PrintInt(n))
  {
    var d := Decimal.Print(if n < 0 then -n else n);
    assert forall i | 0 <= i < |d| :: Decimal.IsDigit(d[i]);
  }

  lemma PlainRegistration(r: Registration)
    ensures Plain(PrintRegistration(r))
  {
    PlainHeads();
    PlainLiterals();
    PlainInteger(r.status);
    PlainInteger(r.clientId);
    PlainConcat(", client_id = ", Decimal.PrintInt(r.clientId));
    PlainConcat(Decimal.Print(r.status), ", client_id = " + Decimal.PrintInt(r.clientId));
  }

  lemma PlainLink(connected: bool, peer: string)
    requires IsAddress(peer)
    ensures Plain(PrintLink(connected, peer))
  {
    PlainLiterals();
    assert Plain(peer);
    PlainConcat(", addr = ", peer);
    PlainConcat(FlagText(connected), ", addr = " + peer);
  }

  lemma PlainConnection(c: Connection)
    requires IsAddress(c.peer)
    ensures Plain(PrintConnection(c))
  {
    var w := PrintLink(c.connected, c.peer);
    PlainHeads();
    PlainLiterals();
    PlainInteger(c.status);
    PlainInteger(c.clientId);
    PlainLink(c.connected, c.peer);
    PlainConcat(Decimal.PrintInt(c.clientId), w);
    PlainConcat(", client_id = ", Decimal.PrintInt(c.clientId) + w);
    PlainConcat(Decimal.Print(c.status), ", client_id = " + (Decimal.PrintInt(c.clientId) + w));
  }

  lemma PlainDevice(peer: string, space: string)
    requires IsAddress(peer) && '\n' !in space
    ensures '\n' !in PrintDevice(peer, space)
  {
    assert '\n' !in "Duet 5 KB";
  }
}
