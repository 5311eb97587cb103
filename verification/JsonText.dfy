/** Which lines the control protocol's reader accepts, and as what: exactly the flat objects of strings
    (section 7 of RFC 8259) and integers, member by member. The grammar is stated as texts; the reader is
    proved to accept every such text with its meaning, and nothing else. */
module JsonText {
  import opened Basics
  import opened ControlProto

  // ------------------------------------------------------------- strings

  /** A way to write one character: itself, a backslash and a letter, or four hexadecimal digits (with
      their values). */
  datatype Piece = Raw(c: char) | Short(c: char) | Code(h: string, ds: seq<nat>)

  predicate IsHex(c: char, d: nat) { d < 16 && (c == "0123456789abcdef"[d] || c == "0123456789ABCDEF"[d]) }

  function ShortMeans(c: char): Option<char> {
    match c
    case '\"' => Some('\"')
    case '\\' => Some('\\')
    case '/' => Some('/')
    case 'b' => Some('\U{0008}')
    case 'f' => Some('\U{000C}')
    case 'n' => Some('\U{000A}')
    case 'r' => Some('\U{000D}')
    case 't' => Some('\U{0009}')
    case _ => None
  }

  function CodeOf(ds: seq<nat>): nat
    requires |ds| == 4
  {
    4096 * ds[0] + 256 * ds[1] + 16 * ds[2] + ds[3]
  }

  predicate PieceOk(p: Piece) {
    match p
    case Raw(c) => c >= '\U{0020}' && c != '\"' && c != '\\'
    case Short(c) => ShortMeans(c).Some?
    case Code(h, ds) => |h| == 4 && |ds| == 4 && IsHex(h[0], ds[0]) && IsHex(h[1], ds[1]) && IsHex(h[2], ds[2]) && IsHex(h[3], ds[3])
  }

  function PieceText(p: Piece): string {
    match p
    case Raw(c) => [c]
    case Short(c) => "\\" + [c]
    case Code(h, _) => "\\u" + h
  }

  /** A code in the surrogate range stands for no character and reads as the replacement character. */
  function PieceMeans(p: Piece): char
    requires PieceOk(p)
  {
    match p
    case Raw(c) => c
    case Short(c) => ShortMeans(c).value
    case Code(_, ds) => var n := CodeOf(ds); if 0xD800 <= n < 0xE000 then '\U{FFFD}' else n as char
  }

  lemma HexValueIff(c: char, d: nat)
    ensures HexValue(c) == Some(d) <==> IsHex(c, d)
  {
  }

  lemma CodeIff(h: string, ds: seq<nat>)
    requires |h| == 4 && |ds| == 4
    ensures PieceOk(Code(h, ds)) <==> HexValue(h[0]) == Some(ds[0]) && HexValue(h[1]) == Some(ds[1])
                                      && HexValue(h[2]) == Some(ds[2]) && HexValue(h[3]) == Some(ds[3])
  {
    HexValueIff(h[0], ds[0]);
    HexValueIff(h[1], ds[1]);
    HexValueIff(h[2], ds[2]);
    HexValueIff(h[3], ds[3]);
  }

  lemma CodeAccepted(h: string, ds: seq<nat>, tail: string)
    requires PieceOk(Code(h, ds))
    ensures ParseChar("\\u" + h + tail) == Some((PieceMeans(Code(h, ds)), 6))
  {
    var text := "\\u" + h + tail;
    HexAccepted(h, ds);
    assert text[0] == '\\' && text[1] == 'u';
    assert text[2..6] == h;
  }

  lemma HexAccepted(h: string, ds: seq<nat>)
    requires PieceOk(Code(h, ds))
    ensures ParseHex4(h) == Some(CodeOf(ds)) && CodeOf(ds) < 0x1_0000
    ensures CodeChar(CodeOf(ds)) == PieceMeans(Code(h, ds))
  {
    CodeIff(h, ds);
  }

  lemma PieceAccepted(p: Piece, tail: string)
    requires PieceOk(p)
    ensures ParseChar(PieceText(p) + tail) == Some((PieceMeans(p), |PieceText(p)|))
    ensures (PieceText(p) + tail)[0] != '\"'
  {
    match p
    case Raw(_) =>
    case Short(c) =>
      var text := "\\" + [c] + tail;
      assert text[0] == '\\' && text[1] == c;
    case Code(h, ds) => CodeAccepted(h, ds, tail);
  }

  lemma CodeFound(s: string) returns (p: Piece)
    requires |s| >= 6 && s[0] == '\\' && s[1] == 'u' && ParseHex4(s[2..6]).Some?
    ensures PieceOk(p) && s[..6] == PieceText(p) && PieceMeans(p) == CodeChar(ParseHex4(s[2..6]).value)
  {
    var h := s[2..6];
    var ds := [HexValue(h[0]).value, HexValue(h[1]).value, HexValue(h[2]).value, HexValue(h[3]).value];
    p := Code(h, ds);
    CodeIff(h, ds);
    assert s[..6] == "\\u" + h;
  }

  lemma PieceFound(s: string) returns (p: Piece)
    requires ParseChar(s).Some?
    ensures PieceOk(p) && s[..ParseChar(s).value.1] == PieceText(p) && ParseChar(s).value.0 == PieceMeans(p)
  {
    if s[0] != '\\' {
      p := Raw(s[0]);
      assert s[..1] == [s[0]];
    } else if s[1] == 'u' {
      p := CodeFound(s);
    } else {
      p := Short(s[1]);
      assert s[..2] == "\\" + [s[1]];
    }
  }

  function BodyText(ps: seq<Piece>): string {
    if ps == [] then "" else PieceText(ps[0]) + BodyText(ps[1..])
  }

  ghost predicate BodyOk(ps: seq<Piece>) { forall i | 0 <= i < |ps| :: PieceOk(ps[i]) }

  ghost function BodyMeans(ps: seq<Piece>): string
    requires BodyOk(ps)
  {
    if ps == [] then "" else [PieceMeans(ps[0])] + BodyMeans(ps[1..])
  }

  lemma BodyCons(ps: seq<Piece>, tail: string)
    requires ps != []
    ensures BodyText(ps) + tail == PieceText(ps[0]) + (BodyText(ps[1..]) + tail)
  {
  }

  lemma PieceFirst(p: Piece, rest: string, v: string, after: string)
    requires PieceOk(p) && ParseBody(rest) == Some((v, after))
    ensures ParseBody(PieceText(p) + rest) == Some(([PieceMeans(p)] + v, after))
  {
    var e := PieceText(p);
    PieceAccepted(p, rest);
    assert (e + rest)[|e|..] == rest;
    BodyStep(e + rest, PieceMeans(p), |e|, v, after);
  }

  lemma {:induction false} BodyAccepted(ps: seq<Piece>, tail: string, after: string)
    requires BodyOk(ps) && ParseBody(tail) == Some(("", after))
    ensures ParseBody(BodyText(ps) + tail) == Some((BodyMeans(ps), after))
    decreases |ps|
  {
    if ps == [] {
      assert BodyText(ps) + tail == tail;
    } else {
      BodyAccepted(ps[1..], tail, after);
      BodyCons(ps, tail);
      PieceFirst(ps[0], BodyText(ps[1..]) + tail, BodyMeans(ps[1..]), after);
    }
  }

  lemma BodyCase(s: string)
    requires ParseBody(s).Some? && s[0] != '\"'
    ensures ParseChar(s).Some?
    ensures var (c, k) := ParseChar(s).value;
            && ParseBody(s[k..]).Some? && ParseBody(s).value == ([c] + ParseBody(s[k..]).value.0, ParseBody(s[k..]).value.1)
  {
  }

  /** A piece put before pieces that make up the rest. */
  lemma PieceBefore(s: string, k: nat, p: Piece, ps: seq<Piece>, tail: string)
    requires k <= |s| && s[..k] == PieceText(p) && s[k..] == BodyText(ps) + tail && PieceOk(p) && BodyOk(ps)
    ensures BodyOk([p] + ps) && s == BodyText([p] + ps) + tail && BodyMeans([p] + ps) == [PieceMeans(p)] + BodyMeans(ps)
  {
    BodyCons([p] + ps, tail);
    assert ([p] + ps)[1..] == ps;
    assert s == s[..k] + s[k..];
  }

  lemma BodyEmpty(s: string)
    requires s != "" && s[0] == '\"'
    ensures s == BodyText([]) + ("\"" + s[1..]) && ParseBody(s) == Some(("", s[1..]))
  {
    assert s == "\"" + s[1..];
  }

  lemma {:induction false} BodyFound(s: string) returns (ps: seq<Piece>)
    requires ParseBody(s).Some?
    ensures BodyOk(ps) && s == BodyText(ps) + ("\"" + ParseBody(s).value.1) && ParseBody(s).value.0 == BodyMeans(ps)
    decreases |s|
  {
    if s[0] == '\"' {
      ps := [];
      BodyEmpty(s);
    } else {
      BodyCase(s);
      var k := ParseChar(s).value.1;
      var p := PieceFound(s);
      var rest := BodyFound(s[k..]);
      PieceBefore(s, k, p, rest, "\"" + ParseBody(s).value.1);
      ps := [p] + rest;
    }
  }

  function StringText(ps: seq<Piece>): string { "\"" + (BodyText(ps) + "\"") }

  lemma StringParts(ps: seq<Piece>, after: string)
    ensures StringText(ps) + after == "\"" + (BodyText(ps) + ("\"" + after))
  {
  }

  lemma ParseQuoted(body: string)
    ensures ParseString("\"" + body) == ParseBody(body)
  {
    assert ("\"" + body)[1..] == body;
  }

  lemma StringAccepted(ps: seq<Piece>, after: string)
    requires BodyOk(ps)
    ensures ParseString(StringText(ps) + after) == Some((BodyMeans(ps), after))
  {
    BodyEnd(after);
    BodyAccepted(ps, "\"" + after, after);
    StringParts(ps, after);
    ParseQuoted(BodyText(ps) + ("\"" + after));
  }

  lemma StringFound(s: string) returns (ps: seq<Piece>)
    requires ParseString(s).Some?
    ensures BodyOk(ps) && s == StringText(ps) + ParseString(s).value.1 && ParseString(s).value.0 == BodyMeans(ps)
  {
    ps := BodyFound(s[1..]);
    StringParts(ps, ParseString(s).value.1);
    assert s == "\"" + s[1..];
  }

  // ------------------------------------------------------------- integers

  /** Digits without a leading zero, and perhaps a minus sign. */
  ghost predicate Writes(t: string, n: int) {
    || (IsNumber(t) && !LeadingZero(t) && n == Decimal(t))
    || (t != "" && t[0] == '-' && IsNumber(t[1..]) && !LeadingZero(t[1..]) && n == -(Decimal(t[1..]) as int))
  }

  lemma {:induction false} DigitsAccepted(d: string, n: nat, after: string)
    requires (forall i | 0 <= i < |d| :: IsDigit(d[i])) && EndsNumber(after)
    ensures ParseDigits(d + after, n) == (DecimalFrom(n, d), after)
    decreases |d|
  {
    if d == "" {
      assert d + after == after;
    } else {
      DigitsAccepted(d[1..], 10 * n + DigitOf(d[0]), after);
      DecimalFront(n, d);
      assert (d + after)[1..] == d[1..] + after;
    }
  }

  lemma {:induction false} DigitsFound(s: string, n: nat) returns (d: string)
    ensures (forall i | 0 <= i < |d| :: IsDigit(d[i])) && EndsNumber(ParseDigits(s, n).1)
    ensures s == d + ParseDigits(s, n).1 && ParseDigits(s, n).0 == DecimalFrom(n, d)
    decreases |s|
  {
    if s != "" && IsDigit(s[0]) {
      var rest := DigitsFound(s[1..], 10 * n + DigitOf(s[0]));
      d := [s[0]] + rest;
      DecimalFront(n, d);
      assert d[1..] == rest && s == [s[0]] + s[1..];
    } else {
      d := "";
    }
  }

  lemma NatAccepted(t: string, after: string)
    requires IsNumber(t) && !LeadingZero(t) && EndsNumber(after)
    ensures ParseNat(t + after) == Some((Decimal(t), after))
  {
    DigitsAccepted(t, 0, after);
    assert (t + after)[0] == t[0];
    assert !LeadingZero(t + after) by {
      if |t| > 1 {
        assert (t + after)[1] == t[1];
      }
    }
    ParseNatOf(t + after, Decimal(t), after);
  }

  lemma NatFound(s: string) returns (t: string)
    requires ParseNat(s).Some?
    ensures IsNumber(t) && !LeadingZero(t) && s == t + ParseNat(s).value.1
    ensures ParseNat(s).value.0 == Decimal(t) && EndsNumber(ParseNat(s).value.1)
  {
    t := DigitsFound(s, 0);
    assert ParseDigits(s, 0) == ParseDigits(s[1..], DigitOf(s[0]));
    assert t != "" && (|t| > 1 ==> t[1] == s[1]) && t[0] == s[0];
  }

  lemma IntAccepted(t: string, n: int, after: string)
    requires Writes(t, n) && EndsNumber(after)
    ensures ParseInt(t + after) == Some((n, after)) && t != "" && (t + after)[0] != '\"'
  {
    assert (t + after)[0] == t[0];
    if IsNumber(t) {
      NatAccepted(t, after);
      SignOf(t + after, Decimal(t), after);
    } else {
      NatAccepted(t[1..], after);
      assert (t + after)[1..] == t[1..] + after;
      SignOf(t + after, Decimal(t[1..]), after);
    }
  }

  lemma IntFound(s: string) returns (t: string)
    requires ParseInt(s).Some?
    ensures Writes(t, ParseInt(s).value.0) && s == t + ParseInt(s).value.1 && EndsNumber(ParseInt(s).value.1)
  {
    if s != "" && s[0] == '-' {
      var d := NatFound(s[1..]);
      t := "-" + d;
      assert t[1..] == d && s == "-" + s[1..];
    } else {
      t := NatFound(s);
    }
  }

  // ------------------------------------------------------------- objects

  datatype Written = Text(ps: seq<Piece>) | Int(t: string, n: int)

  datatype Member = Member(key: seq<Piece>, value: Written)

  ghost predicate MemberOk(m: Member) {
    BodyOk(m.key) && match m.value case Text(ps) => BodyOk(ps) case Int(t, n) => Writes(t, n)
  }

  function ValueText(v: Written): string {
    match v
    case Text(ps) => StringText(ps)
    case Int(t, _) => t
  }

  function MemberText(m: Member): string { StringText(m.key) + (":" + ValueText(m.value)) }

  ghost function ValueMeans(v: Written): Value
    requires v.Text? ==> BodyOk(v.ps)
  {
    match v
    case Text(ps) => Str(BodyMeans(ps))
    case Int(_, n) => Num(n)
  }

  lemma MemberAccepted(m: Member, after: string)
    requires MemberOk(m) && EndsNumber(after)
    ensures ParseMember(MemberText(m) + after) == Some((BodyMeans(m.key), ValueMeans(m.value), after))
  {
    var v := ValueText(m.value) + after;
    var rest := ":" + v;
    MemberParts(m, after);
    StringAccepted(m.key, rest);
    assert rest[1..] == v;
    match m.value
    case Text(ps) => StringAccepted(ps, after); assert v[0] == '\"';
    case Int(t, n) => IntAccepted(t, n, after);
  }

  lemma MemberFound(s: string) returns (m: Member)
    requires ParseMember(s).Some?
    ensures MemberOk(m) && s == MemberText(m) + ParseMember(s).value.2
    ensures ParseMember(s).value.0 == BodyMeans(m.key) && ParseMember(s).value.1 == ValueMeans(m.value)
  {
    var key := StringFound(s);
    var rest := ParseString(s).value.1;
    assert rest == ":" + rest[1..];
    var value: Written;
    if |rest| > 1 && rest[1] == '\"' {
      var ps := StringFound(rest[1..]);
      value := Text(ps);
    } else {
      var t := IntFound(rest[1..]);
      value := Int(t, ParseInt(rest[1..]).value.0);
    }
    m := Member(key, value);
    MemberParts(m, ParseMember(s).value.2);
  }

  lemma MemberParts(m: Member, after: string)
    ensures MemberText(m) + after == StringText(m.key) + (":" + (ValueText(m.value) + after))
  {
  }

  /** The members, separated by commas, and the closing brace. */
  function MembersText(ms: seq<Member>): string
    requires ms != []
  {
    MemberText(ms[0]) + if |ms| == 1 then "}" else "," + MembersText(ms[1..])
  }

  function ObjectText(ms: seq<Member>): string { if ms == [] then "{}" else "{" + MembersText(ms) }

  ghost predicate MembersOk(ms: seq<Member>) { forall i | 0 <= i < |ms| :: MemberOk(ms[i]) }

  /** The message after the members are stored in order, if each can be. */
  ghost function Stored(ms: seq<Member>, m: Msg): Option<Msg>
    requires MembersOk(ms)
  {
    if ms == [] then Some(m)
    else match Store(m, BodyMeans(ms[0].key), ValueMeans(ms[0].value))
      case None => None
      case Some(m') => Stored(ms[1..], m')
  }

  lemma {:induction false} MembersAccepted(ms: seq<Member>, m: Msg)
    requires MembersOk(ms) && ms != []
    ensures ParseMembers(MembersText(ms), m) == Stored(ms, m)
    decreases |ms|
  {
    if |ms| == 1 {
      MemberAccepted(ms[0], "}");
      assert ms[1..] == [];
    } else {
      var after := "," + MembersText(ms[1..]);
      MemberAccepted(ms[0], after);
      assert after[1..] == MembersText(ms[1..]) && after[0] == ',';
      match Store(m, BodyMeans(ms[0].key), ValueMeans(ms[0].value))
      case None =>
      case Some(m') => MembersAccepted(ms[1..], m');
    }
  }

  lemma MembersCase(s: string, m: Msg)
    requires ParseMembers(s, m).Some?
    ensures ParseMember(s).Some?
    ensures var (key, v, rest) := ParseMember(s).value;
            && Store(m, key, v).Some?
            && (if rest == "}" then ParseMembers(s, m) == Store(m, key, v)
                else rest != "" && rest[0] == ',' && ParseMembers(s, m) == ParseMembers(rest[1..], Store(m, key, v).value))
  {
  }

  lemma {:induction false} MembersFound(s: string, m: Msg) returns (ms: seq<Member>)
    requires ParseMembers(s, m).Some?
    ensures ms != [] && MembersOk(ms) && s == MembersText(ms) && Stored(ms, m) == ParseMembers(s, m)
    decreases |s|
  {
    MembersCase(s, m);
    var (key, v, rest) := ParseMember(s).value;
    var first := MemberFound(s);
    if rest == "}" {
      ms := [first];
      assert ms[1..] == [];
    } else {
      var others := MembersFound(rest[1..], Store(m, key, v).value);
      ms := [first] + others;
      assert ms[1..] == others && rest == "," + rest[1..];
    }
  }

  /** The reader takes a line for a message if and only if the line is the text of a flat object whose
      members, stored in order, make that message. */
  lemma UnmarshalIff(line: string, m: Msg)
    ensures Unmarshal(line) == Some(m) <==>
              exists ms :: MembersOk(ms) && line == ObjectText(ms) && Stored(ms, BLANK) == Some(m)
  {
    if Unmarshal(line) == Some(m) {
      var ms: seq<Member> := [];
      if line != "{}" {
        ms := MembersFound(line[1..], BLANK);
        assert line == "{" + line[1..];
      }
      assert MembersOk(ms) && line == ObjectText(ms) && Stored(ms, BLANK) == Some(m);
    }
    if ms :| MembersOk(ms) && line == ObjectText(ms) && Stored(ms, BLANK) == Some(m) {
      if ms != [] {
        MembersAccepted(ms, BLANK);
        ObjectRead(ms);
      }
    }
  }

  lemma ObjectRead(ms: seq<Member>)
    requires ms != []
    ensures Unmarshal(ObjectText(ms)) == ParseMembers(MembersText(ms), BLANK)
  {
    var line := ObjectText(ms);
    assert line[0] == '{' && line[1..] == MembersText(ms);
    assert MembersText(ms)[0] == '\"';
    assert line[1] != "{}"[1];
  }

  /** What a line reads as: a message with a type; otherwise one of two errors, by whether it is such an
      object at all. */
  lemma DecodeAnswers(line: string)
    ensures Decode(line) == Err(Malformed) <==> Unmarshal(line) == None
    ensures Decode(line) == Err(MissingT) <==> Unmarshal(line).Some? && Unmarshal(line).value.t == ""
    ensures forall m :: Decode(line) == Ok(m) <==> Unmarshal(line) == Some(m) && m.t != ""
  {
  }
}
