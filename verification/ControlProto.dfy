/** The control plane on the tunnel: one JSON object per line. Text is a sequence of Unicode scalar
    values; the JSON is the flat object of strings and integers that `Msg` encodes to. */
module ControlProto {
  import opened Basics

  /** Go's `int`. */
  type Int64 = n: int | -0x8000_0000_0000_0000 <= n < 0x8000_0000_0000_0000

  datatype Msg = Msg(t: string, hostname: string, haID: Int64, reason: string)

  const BLANK: Msg := Msg("", "", 0, "")

  // ------------------------------------------------------------- strings (section 7 of RFC 8259)

  function HexDigit(n: nat): char
    requires n < 16
  {
    "0123456789abcdef"[n]
  }

  function HexValue(c: char): Option<nat> {
    if '0' <= c <= '9' then Some(c as int - '0' as int)
    else if 'a' <= c <= 'f' then Some(c as int - 'a' as int + 10)
    else if 'A' <= c <= 'F' then Some(c as int - 'A' as int + 10)
    else None
  }

  function Hex4(n: nat): (h: string)
    requires n < 0x1_0000
    ensures |h| == 4
  {
    var a := n / 0x10;
    var b := a / 0x10;
    var c := b / 0x10;
    [HexDigit(c), HexDigit(b % 0x10), HexDigit(a % 0x10), HexDigit(n % 0x10)]
  }

  /** What Go's encoder escapes: the two JSON must-escapes, control characters, the HTML-sensitive
      three, and the two line separators. */
  predicate ByCode(c: char) {
    c < ' ' || c == '<' || c == '>' || c == '&' || c == '\U{2028}' || c == '\U{2029}'
  }

  function EscapeChar(c: char): string {
    if c == '\"' then "\\\"" else if c == '\\' then "\\\\"
    else if c == '\U{0008}' then "\\b" else if c == '\U{000C}' then "\\f"
    else if c == '\n' then "\\n" else if c == '\r' then "\\r" else if c == '\t' then "\\t"
    else if ByCode(c) then "\\u" + Hex4(c as int)
    else [c]
  }

  function Escape(s: string): string {
    if s == "" then "" else EscapeChar(s[0]) + Escape(s[1..])
  }

  function Quote(s: string): string { "\"" + Escape(s) + "\"" }

  function ParseHex4(s: string): Option<nat>
    requires |s| >= 4
  {
    match (HexValue(s[0]), HexValue(s[1]), HexValue(s[2]), HexValue(s[3]))
    case (Some(a), Some(b), Some(c), Some(d)) => Some(0x1000 * a + 0x100 * b + 0x10 * c + d)
    case _ => None
  }

  /** A lone surrogate code reads as the replacement character. */
  function CodeChar(n: nat): char {
    if n < 0xD800 || 0xE000 <= n < 0x1_0000 then n as char else '\U{FFFD}'
  }

  /** One character of a string body, and how much text it took. */
  function ParseChar(s: string): (r: Option<(char, nat)>)
    ensures r.Some? ==> 0 < r.value.1 <= |s|
  {
    if s == "" || s[0] < ' ' || s[0] == '\"' then None
    else if s[0] != '\\' then Some((s[0], 1))
    else if |s| < 2 then None
    else match s[1]
      case '\"' => Some(('\"', 2))
      case '\\' => Some(('\\', 2))
      case '/' => Some(('/', 2))
      case 'b' => Some(('\U{0008}', 2))
      case 'f' => Some(('\U{000C}', 2))
      case 'n' => Some(('\n', 2))
      case 'r' => Some(('\r', 2))
      case 't' => Some(('\t', 2))
      case 'u' =>
        if |s| < 6 then None
        else (match ParseHex4(s[2..6]) case Some(n) => Some((CodeChar(n), 6)) case None => None)
      case _ => None
  }

  /** The rest of a string body up to its closing quote, and the text after it. */
  function ParseBody(s: string): (r: Option<(string, string)>)
    ensures r.Some? ==> |r.value.1| < |s|
    decreases |s|
  {
    if s != "" && s[0] == '\"' then Some(("", s[1..]))
    else match ParseChar(s)
      case None => None
      case Some((c, k)) =>
        (match ParseBody(s[k..]) case None => None case Some((rest, after)) => Some(([c] + rest, after)))
  }

  function ParseString(s: string): (r: Option<(string, string)>)
    ensures r.Some? ==> |r.value.1| < |s|
  {
    if s != "" && s[0] == '\"' then ParseBody(s[1..]) else None
  }

  // ------------------------------------------------------------- integers

  function Digits(n: nat): (d: string)
    ensures d != ""
  {
    if n < 10 then ["0123456789"[n]] else Digits(n / 10) + ["0123456789"[n % 10]]
  }

  function IntText(n: int): string { if n < 0 then "-" + Digits(-n) else Digits(n) }

  function ParseDigits(s: string, n: nat): (r: (nat, string))
    ensures |r.1| <= |s|
    decreases |s|
  {
    if s != "" && IsDigit(s[0]) then ParseDigits(s[1..], 10 * n + (s[0] as int - '0' as int)) else (n, s)
  }

  /** No leading zeros, and at least one digit. */
  function ParseNat(s: string): (r: Option<(nat, string)>)
    ensures r.Some? ==> |r.value.1| < |s|
  {
    if s == "" || !IsDigit(s[0]) then None
    else if s[0] == '0' && |s| > 1 && IsDigit(s[1]) then None
    else Some(ParseDigits(s[1..], s[0] as int - '0' as int))
  }

  function ParseInt(s: string): (r: Option<(int, string)>)
    ensures r.Some? ==> |r.value.1| < |s|
  {
    if s != "" && s[0] == '-'
    then (match ParseNat(s[1..]) case None => None case Some((n, rest)) => Some((-(n as int), rest)))
    else (match ParseNat(s) case None => None case Some((n, rest)) => Some((n, rest)))
  }

  // ------------------------------------------------------------- objects

  datatype Value = Str(s: string) | Num(n: int)

  /** A member `"key":value`, and the text after it. */
  function ParseMember(s: string): (r: Option<(string, Value, string)>)
    ensures r.Some? ==> |r.value.2| < |s|
  {
    match ParseString(s)
    case None => None
    case Some((key, rest)) =>
      if rest == "" || rest[0] != ':' then None
      else if |rest| > 1 && rest[1] == '\"'
      then (match ParseString(rest[1..]) case None => None case Some((v, after)) => Some((key, Str(v), after)))
      else (match ParseInt(rest[1..]) case None => None case Some((n, after)) => Some((key, Num(n), after)))
  }

  /** Store a member: a known key must have its own type, an unknown key is ignored. */
  function Store(m: Msg, key: string, v: Value): Option<Msg> {
    if key == "t" then (if v.Str? then Some(m.(t := v.s)) else None)
    else if key == "hostname" then (if v.Str? then Some(m.(hostname := v.s)) else None)
    else if key == "ha_id" then
      (if v.Num? && -0x8000_0000_0000_0000 <= v.n < 0x8000_0000_0000_0000 then Some(m.(haID := v.n)) else None)
    else if key == "reason" then (if v.Str? then Some(m.(reason := v.s)) else None)
    else Some(m)
  }

  /** The members from here to the end of the object, which must end the text. */
  function ParseMembers(s: string, m: Msg): Option<Msg>
    decreases |s|
  {
    match ParseMember(s)
    case None => None
    case Some((key, v, rest)) =>
      (match Store(m, key, v)
       case None => None
       case Some(m') =>
         if rest == "}" then Some(m')
         else if rest != "" && rest[0] == ',' then ParseMembers(rest[1..], m')
         else None)
  }

  function Unmarshal(line: string): Option<Msg> {
    if line == "{}" then Some(BLANK)
    else if line != "" && line[0] == '{' then ParseMembers(line[1..], BLANK)
    else None
  }

  /** The encoder, last part first: empty fields are omitted. */
  function ReasonPart(m: Msg): string {
    if m.reason == "" then "}" else "," + (Quote("reason") + (":" + (Quote(m.reason) + "}")))
  }

  function HaPart(m: Msg): string {
    if m.haID == 0 then ReasonPart(m) else "," + (Quote("ha_id") + (":" + (IntText(m.haID) + ReasonPart(m))))
  }

  function HostPart(m: Msg): string {
    if m.hostname == "" then HaPart(m) else "," + (Quote("hostname") + (":" + (Quote(m.hostname) + HaPart(m))))
  }

  function Marshal(m: Msg): string {
    "{" + (Quote("t") + (":" + (Quote(m.t) + HostPart(m))))
  }

  // ------------------------------------------------------------- the line stream

  datatype Error = Eof | Malformed | MissingT

  datatype Result = Ok(msg: Msg) | Err(error: Error)

  function Decode(line: string): Result {
    match Unmarshal(line)
    case None => Err(Malformed)
    case Some(m) => if m.t == "" then Err(MissingT) else Ok(m)
  }

  /** The position of the first newline, or the length of the text. */
  function LineEnd(s: string): (k: nat)
    ensures k <= |s|
  {
    if s == "" || s[0] == '\n' then 0 else 1 + LineEnd(s[1..])
  }

  /** `Read` on the text still unread: its answer, and what is left. The line decoder is a parameter
      so that framing can be reasoned about apart from JSON. */
  function ReadFrom(s: string, decode: string -> Result): (Result, string) {
    var k := LineEnd(s);
    if k == |s| then (Err(Eof), "") else (decode(s[..k]), s[k + 1..])
  }

  /** The control stream: the writer appends at one end, the reader consumes at the other. */
  class ControlStream {
    var unread: string

    constructor ()
      ensures unread == ""
    {
      unread := "";
    }

    method Write(m: Msg)
      modifies this
      ensures unread == old(unread) + Marshal(m) + "\n"
    {
      unread := unread + Marshal(m) + "\n";
    }

    method Read() returns (r: Result)
      modifies this
      ensures (r, unread) == ReadFrom(old(unread), Decode)
    {
      var k := 0;
      while k < |unread| && unread[k] != '\n'
        invariant 0 <= k <= |unread| && LineEnd(unread) == k + LineEnd(unread[k..])
      {
        assert unread[k..][1..] == unread[k + 1..];
        k := k + 1;
      }
      if k == |unread| {
        unread := "";
        return Err(Eof);
      }
      var line := unread[..k];
      unread := unread[k + 1..];
      r := Decode(line);
    }
  }

  // ------------------------------------------------------------- round trips

  lemma HexRoundTrip(n: nat)
    requires n < 0x1_0000
    ensures ParseHex4(Hex4(n)) == Some(n)
  {
    var a := n / 0x10;
    var b := a / 0x10;
    var c := b / 0x10;
    HexDigitValue(c);
    HexDigitValue(b % 0x10);
    HexDigitValue(a % 0x10);
    HexDigitValue(n % 0x10);
  }

  lemma HexDigitValue(n: nat)
    requires n < 16
    ensures HexValue(HexDigit(n)) == Some(n) && HexDigit(n) != '\n'
  {
  }

  lemma CodeRoundTrip(n: nat, tail: string)
    requires n < 0xD800
    ensures ParseChar("\\u" + Hex4(n) + tail) == Some((n as char, 6))
  {
    var text := "\\u" + Hex4(n) + tail;
    HexRoundTrip(n);
    assert text[0] == '\\' && text[1] == 'u';
    assert text[2..6] == Hex4(n);
  }

  lemma ShortRoundTrip(c: char, tail: string)
    requires |EscapeChar(c)| == 2
    ensures ParseChar(EscapeChar(c) + tail) == Some((c, 2))
  {
    var e := EscapeChar(c);
    var text := e + tail;
    assert text[0] == e[0] == '\\';
    assert text[1] == e[1];
  }

  lemma PlainRoundTrip(c: char, tail: string)
    requires EscapeChar(c) == [c]
    ensures ParseChar([c] + tail) == Some((c, 1)) && c != '\"'
  {
  }

  lemma CharRoundTrip(c: char, tail: string)
    ensures ParseChar(EscapeChar(c) + tail) == Some((c, |EscapeChar(c)|))
    ensures (EscapeChar(c) + tail)[0] != '\"'
  {
    EscapeForms(c);
    assert (EscapeChar(c) + tail)[0] == EscapeChar(c)[0];
    if |EscapeChar(c)| == 6 {
      CodeRoundTrip(c as int, tail);
    } else if |EscapeChar(c)| == 2 {
      ShortRoundTrip(c, tail);
    } else {
      PlainRoundTrip(c, tail);
    }
  }

  lemma EscapeForms(c: char)
    ensures |EscapeChar(c)| == 6 ==> EscapeChar(c) == "\\u" + Hex4(c as int) && (c as int) < 0xD800
    ensures |EscapeChar(c)| == 2 ==> EscapeChar(c)[0] == '\\'
    ensures |EscapeChar(c)| == 6 || |EscapeChar(c)| == 2 || (EscapeChar(c) == [c] && c != '\"')
  {
  }

  lemma BodyStep(text: string, c: char, k: nat, s: string, after: string)
    requires text != "" && text[0] != '\"' && ParseChar(text) == Some((c, k)) && ParseBody(text[k..]) == Some((s, after))
    ensures ParseBody(text) == Some(([c] + s, after))
  {
  }

  lemma BodyCons(c: char, rest: string, s: string, after: string)
    requires ParseBody(rest) == Some((s, after))
    ensures ParseBody(EscapeChar(c) + rest) == Some(([c] + s, after))
  {
    var e := EscapeChar(c);
    CharRoundTrip(c, rest);
    assert (e + rest)[|e|..] == rest;
    BodyStep(e + rest, c, |e|, s, after);
  }

  lemma EscapeCons(s: string, tail: string)
    requires s != ""
    ensures Escape(s) + tail == EscapeChar(s[0]) + (Escape(s[1..]) + tail)
  {
  }

  /** `tail` is a string body's closing quote and what follows it. */
  lemma {:induction false} BodyRoundTrip(s: string, tail: string, after: string)
    requires ParseBody(tail) == Some(("", after))
    ensures ParseBody(Escape(s) + tail) == Some((s, after))
    decreases |s|
  {
    if s == "" {
      assert Escape(s) + tail == tail;
    } else {
      BodyRoundTrip(s[1..], tail, after);
      EscapeCons(s, tail);
      BodyCons(s[0], Escape(s[1..]) + tail, s[1..], after);
      assert [s[0]] + s[1..] == s;
    }
  }

  lemma BodyEnd(after: string)
    ensures ParseBody("\"" + after) == Some(("", after))
  {
    assert ("\"" + after)[1..] == after;
  }

  lemma StringRoundTrip(s: string, after: string)
    ensures ParseString(Quote(s) + after) == Some((s, after))
  {
    var text := Quote(s) + after;
    assert text[1..] == Escape(s) + ("\"" + after);
    BodyEnd(after);
    BodyRoundTrip(s, "\"" + after, after);
  }

  lemma {:induction false} DigitsRoundTrip(n: nat, after: string)
    ensures ParseDigits(Digits(n) + after, 0) == ParseDigits(after, n)
    ensures IsDigit(Digits(n)[0]) && (Digits(n)[0] == '0' ==> n == 0)
    decreases n
  {
    var d := "0123456789"[n % 10];
    assert d as int - '0' as int == n % 10;
    if n < 10 {
      assert (Digits(n) + after)[1..] == after;
    } else {
      var rest := [d] + after;
      assert Digits(n) + after == Digits(n / 10) + rest;
      DigitsRoundTrip(n / 10, rest);
      assert rest[1..] == after;
    }
  }

  predicate EndsNumber(after: string) { after == "" || !IsDigit(after[0]) }

  predicate LeadingZero(s: string) { |s| > 1 && s[0] == '0' && IsDigit(s[1]) }

  lemma ParseNatOf(text: string, n: nat, after: string)
    requires text != "" && IsDigit(text[0]) && !LeadingZero(text) && ParseDigits(text, 0) == (n, after)
    ensures ParseNat(text) == Some((n, after))
  {
  }

  lemma NoLeadingZero(n: nat, after: string)
    requires EndsNumber(after)
    ensures !LeadingZero(Digits(n) + after)
  {
    DigitsRoundTrip(n, after);
    if n == 0 {
      assert Digits(n) + after == ["0123456789"[0]] + after;
    }
  }

  lemma NatRoundTrip(n: nat, after: string)
    requires EndsNumber(after)
    ensures ParseNat(Digits(n) + after) == Some((n, after))
  {
    DigitsRoundTrip(n, after);
    NoLeadingZero(n, after);
    ParseNatOf(Digits(n) + after, n, after);
  }

  lemma SignOf(text: string, n: nat, after: string)
    requires text != ""
    ensures IsDigit(text[0]) && ParseNat(text) == Some((n, after)) ==> ParseInt(text) == Some((n, after))
    ensures text[0] == '-' && ParseNat(text[1..]) == Some((n, after)) ==> ParseInt(text) == Some((-(n as int), after))
  {
  }

  lemma FirstDigit(n: nat, after: string)
    ensures IsDigit((Digits(n) + after)[0])
  {
    DigitsRoundTrip(n, after);
  }

  lemma IntRoundTrip(n: int, after: string)
    requires EndsNumber(after)
    ensures ParseInt(IntText(n) + after) == Some((n, after))
    ensures (IntText(n) + after)[0] != '\"'
  {
    var k: nat := if n < 0 then -n else n;
    var digits := Digits(k) + after;
    NatRoundTrip(k, after);
    FirstDigit(k, after);
    if n < 0 {
      assert IntText(n) + after == "-" + digits;
      assert ("-" + digits)[1..] == digits;
      SignOf("-" + digits, k, after);
    } else {
      SignOf(digits, k, after);
    }
  }

  lemma StringMember(key: string, v: string, after: string)
    ensures ParseMember(Quote(key) + (":" + (Quote(v) + after))) == Some((key, Str(v), after))
  {
    var rest := ":" + (Quote(v) + after);
    StringRoundTrip(key, rest);
    assert rest[1..] == Quote(v) + after;
    StringRoundTrip(v, after);
  }

  lemma IntMember(key: string, n: int, after: string)
    requires EndsNumber(after)
    ensures ParseMember(Quote(key) + (":" + (IntText(n) + after))) == Some((key, Num(n), after))
  {
    var rest := ":" + (IntText(n) + after);
    StringRoundTrip(key, rest);
    assert rest[1..] == IntText(n) + after;
    IntRoundTrip(n, after);
  }

  /** What is left of an object parses to the message once the earlier fields are stored. */
  ghost predicate Finishes(tail: string, before: Msg, m: Msg) {
    if tail == "}" then before == m else tail != "" && tail[0] == ',' && ParseMembers(tail[1..], before) == Some(m)
  }

  lemma FinishMembers(s: string, key: string, v: Value, tail: string, before: Msg, m: Msg)
    requires ParseMember(s) == Some((key, v, tail))
    requires Store(before, key, v).Some? && Finishes(tail, Store(before, key, v).value, m)
    ensures ParseMembers(s, before) == Some(m)
  {
  }

  lemma ReasonFinishes(m: Msg)
    ensures Finishes(ReasonPart(m), m.(reason := ""), m) && EndsNumber(ReasonPart(m))
  {
    if m.reason != "" {
      var s := Quote("reason") + (":" + (Quote(m.reason) + "}"));
      StringMember("reason", m.reason, "}");
      FinishMembers(s, "reason", Str(m.reason), "}", m.(reason := ""), m);
      assert ("," + s)[1..] == s;
    }
  }

  lemma HaFinishes(m: Msg)
    ensures Finishes(HaPart(m), m.(haID := 0, reason := ""), m)
  {
    ReasonFinishes(m);
    if m.haID != 0 {
      var s := Quote("ha_id") + (":" + (IntText(m.haID) + ReasonPart(m)));
      IntMember("ha_id", m.haID, ReasonPart(m));
      FinishMembers(s, "ha_id", Num(m.haID), ReasonPart(m), m.(haID := 0, reason := ""), m);
      assert ("," + s)[1..] == s;
    }
  }

  lemma HostFinishes(m: Msg)
    ensures Finishes(HostPart(m), Msg(m.t, "", 0, ""), m)
  {
    HaFinishes(m);
    if m.hostname != "" {
      var s := Quote("hostname") + (":" + (Quote(m.hostname) + HaPart(m)));
      StringMember("hostname", m.hostname, HaPart(m));
      FinishMembers(s, "hostname", Str(m.hostname), HaPart(m), Msg(m.t, "", 0, ""), m);
      assert ("," + s)[1..] == s;
    }
  }

  /** Every message survives its own encoding, omitted fields included. */
  lemma MarshalRoundTrip(m: Msg)
    ensures Unmarshal(Marshal(m)) == Some(m)
  {
    var s := Quote("t") + (":" + (Quote(m.t) + HostPart(m)));
    FieldsParse(m);
    assert Marshal(m)[1..] == s;
    assert s[0] == '\"';
    assert Marshal(m)[1] != "{}"[1];
  }

  // ------------------------------------------------------------- the text itself

  /** A character that stands for itself. */
  predicate Plain(c: char) { !ByCode(c) && c != '\"' && c != '\\' }

  lemma {:induction false} PlainText(s: string)
    requires forall i | 0 <= i < |s| :: Plain(s[i])
    ensures Escape(s) == s
    decreases |s|
  {
    if s != "" {
      PlainText(s[1..]);
      assert [s[0]] + s[1..] == s;
    }
  }

  ghost predicate AllPlain(s: string) { forall i | 0 <= i < |s| :: Plain(s[i]) }

  function Key(key: string): string { "\"" + key + "\":" }

  /** `,"key":value` and the rest of the object. */
  function Field(key: string, value: string, rest: string): string { "," + (Key(key) + (value + rest)) }

  lemma KeysArePlain()
    ensures AllPlain("t") && AllPlain("hostname") && AllPlain("ha_id") && AllPlain("reason")
  {
  }

  lemma KeyText(key: string, rest: string)
    requires AllPlain(key)
    ensures Quote(key) + (":" + rest) == Key(key) + rest
  {
    PlainText(key);
  }

  lemma FieldText(key: string, value: string, rest: string)
    requires AllPlain(key)
    ensures "," + (Quote(key) + (":" + (value + rest))) == Field(key, value, rest)
  {
    KeyText(key, value + rest);
  }

  /** The encoded text of a message: the type always, the other fields in this order and under these names
      unless they are empty or zero. */
  lemma MarshalText(m: Msg)
    ensures var reason := if m.reason == "" then "}" else Field("reason", Quote(m.reason), "}");
            var haID := if m.haID == 0 then reason else Field("ha_id", IntText(m.haID), reason);
            var hostname := if m.hostname == "" then haID else Field("hostname", Quote(m.hostname), haID);
            Marshal(m) == "{" + (Key("t") + (Quote(m.t) + hostname))
  {
    KeysArePlain();
    FieldText("reason", Quote(m.reason), "}");
    FieldText("ha_id", IntText(m.haID), ReasonPart(m));
    FieldText("hostname", Quote(m.hostname), HaPart(m));
    KeyText("t", Quote(m.t) + HostPart(m));
  }

  /** How each character that may not stand for itself is written (section 7 of RFC 8259): the seven with
      a short form... */
  lemma EscapeShort()
    ensures EscapeChar('\"') == "\\\"" && EscapeChar('\\') == "\\\\" && EscapeChar('\n') == "\\n"
    ensures EscapeChar('\r') == "\\r" && EscapeChar('\t') == "\\t"
    ensures EscapeChar('\U{0008}') == "\\b" && EscapeChar('\U{000C}') == "\\f"
  {
  }

  /** ...and any other by its code in four hexadecimal digits. These are the characters written so. */
  lemma EscapeTable(c: char)
    ensures EscapeChar(c) == [c] <==>
              !(c < '\U{0020}' || c == '\"' || c == '\\' || c == '<' || c == '>' || c == '&' || c == '\U{2028}' || c == '\U{2029}')
    ensures |EscapeChar(c)| == 1 ==> EscapeChar(c) == [c]
    ensures |EscapeChar(c)| > 2 ==> EscapeChar(c) == "\\u" + Hex4(c as int) && (c as int) < 0xD800
    ensures |EscapeChar(c)| > 2 ==> HexNumber(Hex4(c as int)) == c as int
  {
    EscapeForms(c);
    if |EscapeChar(c)| > 2 {
      HexDenotes(c as int);
    }
  }

  lemma Hex4Lower(n: nat, i: nat)
    requires n < 0x1_0000 && i < 4
    ensures '0' <= Hex4(n)[i] <= '9' || 'a' <= Hex4(n)[i] <= 'f'
  {
    var a := n / 0x10;
    var b := a / 0x10;
    HexDigitLower(b / 0x10);
    HexDigitLower(b % 0x10);
    HexDigitLower(a % 0x10);
    HexDigitLower(n % 0x10);
  }

  lemma HexDigitLower(d: nat)
    requires d < 16
    ensures '0' <= HexDigit(d) <= '9' || 'a' <= HexDigit(d) <= 'f'
  {
  }

  /** The number that hexadecimal digits denote. */
  ghost function HexNumber(h: string): nat {
    if h == "" then 0 else 16 * HexNumber(h[..|h| - 1]) + match HexValue(h[|h| - 1]) case Some(d) => d case None => 0
  }

  lemma HexStep(h: string, d: nat)
    requires d < 16
    ensures HexNumber(h + [HexDigit(d)]) == 16 * HexNumber(h) + d
  {
    HexDigitValue(d);
    assert (h + [HexDigit(d)])[..|h|] == h;
  }

  lemma HexDenotes(n: nat)
    requires n < 0x1_0000
    ensures HexNumber(Hex4(n)) == n
  {
    var a := n / 0x10;
    var b := a / 0x10;
    var c := b / 0x10;
    HexStep("", c);
    HexStep("" + [HexDigit(c)], b % 0x10);
    HexStep("" + [HexDigit(c)] + [HexDigit(b % 0x10)], a % 0x10);
    HexStep("" + [HexDigit(c)] + [HexDigit(b % 0x10)] + [HexDigit(a % 0x10)], n % 0x10);
    assert Hex4(n) == "" + [HexDigit(c)] + [HexDigit(b % 0x10)] + [HexDigit(a % 0x10)] + [HexDigit(n % 0x10)];
  }

  /** An integer is written in decimal, with a minus sign when negative and no leading zero. */
  lemma IntDenotes(n: int)
    ensures n >= 0 ==> IsNumber(IntText(n)) && Decimal(IntText(n)) == n
    ensures n < 0 ==> IntText(n)[0] == '-' && IsNumber(IntText(n)[1..]) && Decimal(IntText(n)[1..]) == -n
    ensures !LeadingZero(IntText(n))
  {
    var k: nat := if n < 0 then -n else n;
    DigitsDenote(k);
    NoLeadingZero(k, "");
    assert Digits(k) + "" == Digits(k);
    if n < 0 {
      assert IntText(n)[1..] == Digits(k);
    }
  }

  lemma DigitChar(k: nat)
    requires k < 10
    ensures IsDigit("0123456789"[k]) && DigitOf("0123456789"[k]) == k
  {
  }

  lemma {:induction false} DigitsDenote(n: nat)
    ensures IsNumber(Digits(n)) && Decimal(Digits(n)) == n
    decreases n
  {
    DigitChar(n % 10);
    var p := if n < 10 then "" else Digits(n / 10);
    if n >= 10 {
      DigitsDenote(n / 10);
    }
    DecimalStep(p, "0123456789"[n % 10]);
    assert Digits(n) == p + ["0123456789"[n % 10]];
  }

  /** A member with an unknown key is skipped, whatever its value. */
  lemma UnknownKeyIgnored(m: Msg, key: string, v: string)
    requires key != "t" && key != "hostname" && key != "ha_id" && key != "reason"
    ensures Unmarshal("{" + (Quote(key) + (":" + (Quote(v) + ("," + Marshal(m)[1..]))))) == Some(m)
  {
    var rest := Marshal(m)[1..];
    var s := Quote(key) + (":" + (Quote(v) + ("," + rest)));
    FieldsParse(m);
    StringMember(key, v, "," + rest);
    assert ("," + rest)[1..] == rest;
    FinishMembers(s, key, Str(v), "," + rest, BLANK, m);
    assert ("{" + s)[1..] == s;
    assert s[0] == '\"' && ("{" + s)[1] != "{}"[1];
  }

  lemma FieldsParse(m: Msg)
    ensures ParseMembers(Marshal(m)[1..], BLANK) == Some(m)
  {
    var s := Quote("t") + (":" + (Quote(m.t) + HostPart(m)));
    HostFinishes(m);
    StringMember("t", m.t, HostPart(m));
    FinishMembers(s, "t", Str(m.t), HostPart(m), BLANK, m);
    assert Marshal(m)[1..] == s;
  }

  /** A known key with a value of the wrong type, or a number that is not a Go int, spoils the message
      wherever it stands. */
  lemma WrongTypeRejected(key: string, v: string, n: int, rest: string, before: Msg)
    requires EndsNumber(rest)
    ensures key == "ha_id" ==> ParseMembers(Quote(key) + (":" + (Quote(v) + rest)), before) == None
    ensures key == "t" || key == "hostname" || key == "reason" ==>
              ParseMembers(Quote(key) + (":" + (IntText(n) + rest)), before) == None
    ensures key == "ha_id" && !(-0x8000_0000_0000_0000 <= n < 0x8000_0000_0000_0000) ==>
              ParseMembers(Quote(key) + (":" + (IntText(n) + rest)), before) == None
  {
    StringMember(key, v, rest);
    IntMember(key, n, rest);
  }

  // ------------------------------------------------------------- framing

  ghost predicate OneLine(s: string) { '\n' !in s }

  lemma Hex4OneLine(n: nat)
    requires n < 0x1_0000
    ensures OneLine(Hex4(n))
  {
    var a := n / 0x10;
    var b := a / 0x10;
    HexDigitValue(b / 0x10);
    HexDigitValue(b % 0x10);
    HexDigitValue(a % 0x10);
    HexDigitValue(n % 0x10);
  }

  lemma CharOneLine(c: char)
    ensures OneLine(EscapeChar(c))
  {
    if ByCode(c) {
      Hex4OneLine(c as int);
    }
  }

  lemma {:induction false} EscapeOneLine(s: string)
    ensures OneLine(Escape(s))
    decreases |s|
  {
    if s != "" {
      EscapeOneLine(s[1..]);
      var c := s[0];
      CharOneLine(c);
    }
  }

  lemma {:induction false} DigitsOneLine(n: nat)
    ensures OneLine(Digits(n))
    decreases n
  {
    if n >= 10 {
      DigitsOneLine(n / 10);
    }
  }

  lemma IntOneLine(n: int)
    ensures OneLine(IntText(n))
  {
    DigitsOneLine(if n < 0 then -n else n);
  }

  lemma QuoteOneLine(s: string)
    ensures OneLine(Quote(s))
  {
    EscapeOneLine(s);
  }

  lemma MemberOneLine(key: string, value: string, tail: string)
    requires OneLine(value) && OneLine(tail)
    ensures OneLine("," + (Quote(key) + (":" + (value + tail))))
  {
    QuoteOneLine(key);
  }

  /** An encoded message never contains a raw newline. */
  lemma MarshalOneLine(m: Msg)
    ensures OneLine(Marshal(m))
  {
    QuoteOneLine(m.reason);
    MemberOneLine("reason", Quote(m.reason), "}");
    IntOneLine(m.haID);
    MemberOneLine("ha_id", IntText(m.haID), ReasonPart(m));
    QuoteOneLine(m.hostname);
    MemberOneLine("hostname", Quote(m.hostname), HaPart(m));
    QuoteOneLine(m.t);
    MemberOneLine("t", Quote(m.t), HostPart(m));
    var s := Quote("t") + (":" + (Quote(m.t) + HostPart(m)));
    assert ("," + s)[1..] == s;
  }

  lemma {:induction false} LineEndAt(line: string, rest: string)
    requires OneLine(line)
    ensures LineEnd(line + ("\n" + rest)) == |line|
    decreases |line|
  {
    var s := line + ("\n" + rest);
    if line != "" {
      assert s[0] == line[0] && line[0] in line;
      assert s[1..] == line[1..] + ("\n" + rest);
      LineEndAt(line[1..], rest);
    }
  }

  /** Everything written, in order. */
  function WriteAll(ms: seq<Msg>, encode: Msg -> string): string {
    if ms == [] then "" else encode(ms[0]) + ("\n" + WriteAll(ms[1..], encode))
  }

  /** Reading until the first error, which is returned with what came before it. */
  function ReadAll(s: string, decode: string -> Result): (seq<Msg>, Error)
    decreases |s|
  {
    match ReadFrom(s, decode)
    case (Err(e), _) => ([], e)
    case (Ok(m), rest) => var (ms, e) := ReadAll(rest, decode); ([m] + ms, e)
  }

  lemma ReadLine(line: string, rest: string, decode: string -> Result)
    requires OneLine(line)
    ensures ReadFrom(line + ("\n" + rest), decode) == (decode(line), rest)
  {
    LineEndAt(line, rest);
    var s := line + ("\n" + rest);
    assert s[..|line|] == line;
    assert s[|line| + 1..] == rest;
  }

  /** Line framing carries any encoding that stays on one line. */
  lemma {:induction false} FramingRoundTrip(ms: seq<Msg>, encode: Msg -> string, decode: string -> Result)
    requires forall i | 0 <= i < |ms| :: OneLine(encode(ms[i])) && decode(encode(ms[i])) == Ok(ms[i])
    ensures ReadAll(WriteAll(ms, encode), decode) == (ms, Eof)
    decreases |ms|
  {
    if ms != [] {
      var rest := WriteAll(ms[1..], encode);
      ReadLine(encode(ms[0]), rest, decode);
      FramingRoundTrip(ms[1..], encode, decode);
      assert [ms[0]] + ms[1..] == ms;
    }
  }

  /** Any list of messages reads back exactly, and then the stream is at its end, when each has a
      type; an empty type is the one thing about a written message that the reader rejects. */
  lemma StreamRoundTrip(ms: seq<Msg>)
    ensures forall i | 0 <= i < |ms| :: Decode(Marshal(ms[i])) == if ms[i].t == "" then Err(MissingT) else Ok(ms[i])
    ensures (forall i | 0 <= i < |ms| :: ms[i].t != "") ==> ReadAll(WriteAll(ms, Marshal), Decode) == (ms, Eof)
  {
    forall i | 0 <= i < |ms|
      ensures OneLine(Marshal(ms[i]))
      ensures Decode(Marshal(ms[i])) == if ms[i].t == "" then Err(MissingT) else Ok(ms[i])
    {
      MarshalOneLine(ms[i]);
      MarshalRoundTrip(ms[i]);
    }
    if forall i | 0 <= i < |ms| :: ms[i].t != "" {
      FramingRoundTrip(ms, Marshal, Decode);
    }
  }
}
