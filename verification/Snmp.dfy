/** The two readers of the kernel's UDP counters (`parseCounters` for edge and load generator,
    `parseUDPSNMP` for the UI), and the wrapping per-interval differences. */
module Snmp {
  import opened Basics

  // ------------------------------------------------------------- text

  predicate IsSpace(c: char) { c == ' ' || c == '\t' || c == '\n' || c == '\r' || c == '\U{000B}' || c == '\U{000C}' }

  function Word(cur: string): seq<string> { if cur == "" then [] else [cur] }

  /** `strings.Fields`, with `cur` the word being read. */
  function FieldsFrom(s: string, cur: string): seq<string>
    decreases |s|
  {
    if s == "" then Word(cur)
    else if IsSpace(s[0]) then Word(cur) + FieldsFrom(s[1..], "")
    else FieldsFrom(s[1..], cur + [s[0]])
  }

  function Fields(s: string): seq<string> { FieldsFrom(s, "") }

  predicate IsUdp(line: string) { "Udp:" <= line }

  lemma {:induction false} FieldsNonempty(s: string, cur: string)
    requires cur != ""
    ensures FieldsFrom(s, cur) != []
    decreases |s|
  {
    if s != "" && !IsSpace(s[0]) {
      FieldsNonempty(s[1..], cur + [s[0]]);
    }
  }

  lemma UdpHasFields(line: string)
    requires IsUdp(line)
    ensures Fields(line) != []
  {
    assert line[0] == "Udp:"[0] == 'U';
    assert "" + [line[0]] == [line[0]];
    FieldsNonempty(line[1..], [line[0]]);
  }

  /** `strconv.ParseUint(s, 10, 64)`: overflow is noticed at the digit that causes it. */
  datatype Num = Good(n: nat) | BadSyntax | OutOfRange

  function ParseFrom(s: string, n: nat): Num {
    if s == "" then Good(n)
    else if !('0' <= s[0] <= '9') then BadSyntax
    else
      var m := 10 * n + (s[0] as int - '0' as int);
      if m >= WORD then OutOfRange else ParseFrom(s[1..], m)
  }

  function ParseUint(s: string): Num { if s == "" then BadSyntax else ParseFrom(s, 0) }

  /** The value ParseUint returns beside its error. */
  function Value(r: Num): nat {
    match r
    case Good(n) => n
    case BadSyntax => 0
    case OutOfRange => WORD - 1
  }

  // ------------------------------------------------------------- what each reader looks up

  function Width(hdr: seq<string>, fs: seq<string>): nat { if |hdr| < |fs| then |hdr| else |fs| }

  /** The last well-formed value under `name` among columns 1..k-1; malformed ones are skipped. */
  function Skipping(hdr: seq<string>, fs: seq<string>, name: string, k: nat): nat
    requires k <= Width(hdr, fs)
  {
    if k <= 1 then 0
    else if hdr[k - 1] == name && ParseUint(fs[k - 1]).Good? then ParseUint(fs[k - 1]).n
    else Skipping(hdr, fs, name, k - 1)
  }

  /** The last value under `name`, malformed or not. */
  function Trusting(hdr: seq<string>, fs: seq<string>, name: string, k: nat): nat
    requires k <= Width(hdr, fs)
  {
    if k <= 1 then 0
    else if hdr[k - 1] == name then Value(ParseUint(fs[k - 1]))
    else Trusting(hdr, fs, name, k - 1)
  }

  /** The fields of the `Udp:` lines, in order. */
  function UdpRows(lines: seq<string>): seq<seq<string>> {
    if lines == [] then []
    else
      var rest := UdpRows(lines[..|lines| - 1]);
      if IsUdp(lines[|lines| - 1]) then rest + [Fields(lines[|lines| - 1])] else rest
  }

  datatype Counters = Counters(inDatagrams: nat, noPorts: nat, inErrors: nat, outDatagrams: nat,
                               rcvbufErrors: nat, sndbufErrors: nat, inCsumErrors: nat)

  const NO_COUNTERS: Counters := Counters(0, 0, 0, 0, 0, 0, 0)

  datatype UICounters = UICounters(inn: nat, out: nat, rcv: nat, snd: nat)

  function Get(m: map<string, nat>, name: string): nat { if name in m then m[name] else 0 }

  lemma RowsStep(lines: seq<string>, i: nat)
    requires i < |lines|
    ensures UdpRows(lines[..i + 1]) == UdpRows(lines[..i]) + if IsUdp(lines[i]) then [Fields(lines[i])] else []
    ensures IsUdp(lines[i]) ==> Fields(lines[i]) != []
  {
    assert lines[..i + 1][..i] == lines[..i];
    if IsUdp(lines[i]) {
      UdpHasFields(lines[i]);
    }
  }

  lemma {:induction false} RowsGrow(lines: seq<string>, i: nat)
    requires i <= |lines|
    ensures UdpRows(lines[..i]) <= UdpRows(lines)
    decreases |lines| - i
  {
    if i == |lines| {
      assert lines[..i] == lines;
    } else {
      RowsGrow(lines, i + 1);
      RowsStep(lines, i);
    }
  }

  method ColumnsSkipping(hdr: seq<string>, fs: seq<string>) returns (values: map<string, nat>)
    ensures forall name :: Get(values, name) == Skipping(hdr, fs, name, Width(hdr, fs))
  {
    values := map[];
    var i := 1;
    while i < |fs| && i < |hdr|
      invariant 1 <= i && (i <= Width(hdr, fs) || i == 1)
      invariant forall name :: Get(values, name) == if i <= Width(hdr, fs) then Skipping(hdr, fs, name, i) else 0
    {
      var n := ParseUint(fs[i]);
      if n.Good? {
        values := values[hdr[i] := n.n];
      }
      i := i + 1;
    }
  }

  method ColumnsTrusting(hdr: seq<string>, fs: seq<string>) returns (vals: map<string, nat>)
    ensures forall name :: Get(vals, name) == Trusting(hdr, fs, name, Width(hdr, fs))
  {
    vals := map[];
    var i := 1;
    while i < |fs| && i < |hdr|
      invariant 1 <= i && (i <= Width(hdr, fs) || i == 1)
      invariant forall name :: Get(vals, name) == if i <= Width(hdr, fs) then Trusting(hdr, fs, name, i) else 0
    {
      vals := vals[hdr[i] := Value(ParseUint(fs[i]))];
      i := i + 1;
    }
  }

  function EdgeCounters(h: seq<string>, f: seq<string>): Counters {
    var w := Width(h, f);
    Counters(Skipping(h, f, "InDatagrams", w), Skipping(h, f, "NoPorts", w), Skipping(h, f, "InErrors", w),
             Skipping(h, f, "OutDatagrams", w), Skipping(h, f, "RcvbufErrors", w),
             Skipping(h, f, "SndbufErrors", w), Skipping(h, f, "InCsumErrors", w))
  }

  method ReadRow(header: seq<string>, fields: seq<string>) returns (c: Counters)
    ensures c == EdgeCounters(header, fields)
  {
    var v := ColumnsSkipping(header, fields);
    c := Counters(Get(v, "InDatagrams"), Get(v, "NoPorts"), Get(v, "InErrors"), Get(v, "OutDatagrams"),
                  Get(v, "RcvbufErrors"), Get(v, "SndbufErrors"), Get(v, "InCsumErrors"));
  }

  function UIReading(h: seq<string>, f: seq<string>): UICounters {
    var w := Width(h, f);
    UICounters(Trusting(h, f, "InDatagrams", w), Trusting(h, f, "OutDatagrams", w),
               Trusting(h, f, "RcvbufErrors", w), Trusting(h, f, "SndbufErrors", w))
  }

  /** Succeeds exactly on two or more `Udp:` lines: the first names the columns of the second. */
  method ParseCounters(lines: seq<string>) returns (c: Counters, ok: bool)
    ensures ok <==> |UdpRows(lines)| >= 2
    ensures ok ==> c == EdgeCounters(UdpRows(lines)[0], UdpRows(lines)[1])
  {
    var header: seq<string> := [];
    var i := 0;
    while i < |lines|
      invariant 0 <= i <= |lines|
      invariant UdpRows(lines[..i]) == if header == [] then [] else [header]
    {
      RowsStep(lines, i);
      if IsUdp(lines[i]) {
        var fields := Fields(lines[i]);
        if header == [] {
          header := fields;
        } else {
          RowsGrow(lines, i + 1);
          c := ReadRow(header, fields);
          return c, true;
        }
      }
      i := i + 1;
    }
    assert lines[..i] == lines;
    return NO_COUNTERS, false;
  }

  method ParseUDPSNMP(lines: seq<string>) returns (c: UICounters, ok: bool)
    ensures ok <==> |UdpRows(lines)| >= 2
    ensures ok ==> c == UIReading(UdpRows(lines)[0], UdpRows(lines)[1])
  {
    var hdr: seq<string> := [];
    var i := 0;
    while i < |lines|
      invariant 0 <= i <= |lines|
      invariant UdpRows(lines[..i]) == if hdr == [] then [] else [hdr]
    {
      RowsStep(lines, i);
      if IsUdp(lines[i]) {
        var fields := Fields(lines[i]);
        if hdr == [] {
          hdr := fields;
        } else {
          RowsGrow(lines, i + 1);
          var v := ColumnsTrusting(hdr, fields);
          return UICounters(Get(v, "InDatagrams"), Get(v, "OutDatagrams"), Get(v, "RcvbufErrors"), Get(v, "SndbufErrors")), true;
        }
      }
      i := i + 1;
    }
    assert lines[..i] == lines;
    return UICounters(0, 0, 0, 0), false;
  }

  // ------------------------------------------------------------- agreement

  ghost predicate WellFormed(hdr: seq<string>, fs: seq<string>, k: nat)
    requires k <= Width(hdr, fs)
  {
    forall i | 1 <= i < k :: ParseUint(fs[i]).Good?
  }

  /** On well-formed values the readers see the same numbers, whatever the columns repeat or lack. */
  lemma {:induction false} ReadersAgree(hdr: seq<string>, fs: seq<string>, name: string, k: nat)
    requires k <= Width(hdr, fs) && WellFormed(hdr, fs, k)
    ensures Skipping(hdr, fs, name, k) == Trusting(hdr, fs, name, k)
    decreases k
  {
    if k > 1 && hdr[k - 1] != name {
      ReadersAgree(hdr, fs, name, k - 1);
    }
  }

  /** So both parsers return the same four counters on any lines whose value row is well-formed. */
  lemma ParsersAgree(lines: seq<string>)
    requires |UdpRows(lines)| >= 2
    requires var h, f := UdpRows(lines)[0], UdpRows(lines)[1]; WellFormed(h, f, Width(h, f))
    ensures var c, u := EdgeCounters(UdpRows(lines)[0], UdpRows(lines)[1]), UIReading(UdpRows(lines)[0], UdpRows(lines)[1]);
            u == UICounters(c.inDatagrams, c.outDatagrams, c.rcvbufErrors, c.sndbufErrors)
  {
    var h, f := UdpRows(lines)[0], UdpRows(lines)[1];
    ReadersAgree(h, f, "InDatagrams", Width(h, f));
    ReadersAgree(h, f, "OutDatagrams", Width(h, f));
    ReadersAgree(h, f, "RcvbufErrors", Width(h, f));
    ReadersAgree(h, f, "SndbufErrors", Width(h, f));
  }

  /** The last column called `name` among 1..k-1, or 0 when there is none. */
  function LastColumn(hdr: seq<string>, name: string, k: nat): (i: nat)
    requires k <= |hdr|
    ensures i < k || i == 0
    ensures i > 0 ==> hdr[i] == name
    ensures forall j | i < j < k :: hdr[j] != name
  {
    if k <= 1 then 0 else if hdr[k - 1] == name then k - 1 else LastColumn(hdr, name, k - 1)
  }

  /** When the readers agree on a column: it is absent, its last occurrence is well-formed, or what one
      reader makes of that malformed occurrence (0, or the maximum for a number that does not fit)
      happens to be the last well-formed value before it (0 if there is none). */
  ghost predicate Agreeable(hdr: seq<string>, fs: seq<string>, name: string, k: nat)
    requires k <= Width(hdr, fs)
  {
    var i := LastColumn(hdr, name, k);
    i > 0 ==>
      match ParseUint(fs[i])
      case Good(_) => true
      case BadSyntax => Skipping(hdr, fs, name, i) == 0
      case OutOfRange => Skipping(hdr, fs, name, i) == WORD - 1
  }

  /** The readers agree on a column if and only if that holds, whatever the header repeats or lacks. */
  lemma {:induction false} ReadersAgreeIff(hdr: seq<string>, fs: seq<string>, name: string, k: nat)
    requires k <= Width(hdr, fs)
    ensures Skipping(hdr, fs, name, k) == Trusting(hdr, fs, name, k) <==> Agreeable(hdr, fs, name, k)
    decreases k
  {
    if k > 1 && hdr[k - 1] != name {
      ReadersAgreeIff(hdr, fs, name, k - 1);
    }
  }

  /** And so for the parsers: on any lines both accept, the four counters are the same if and only if
      each of the four columns is agreeable. */
  lemma ParsersAgreeIff(lines: seq<string>)
    requires |UdpRows(lines)| >= 2
    ensures var h, f := UdpRows(lines)[0], UdpRows(lines)[1];
            var c, u, w := EdgeCounters(h, f), UIReading(h, f), Width(h, f);
            u == UICounters(c.inDatagrams, c.outDatagrams, c.rcvbufErrors, c.sndbufErrors) <==>
              && Agreeable(h, f, "InDatagrams", w) && Agreeable(h, f, "OutDatagrams", w)
              && Agreeable(h, f, "RcvbufErrors", w) && Agreeable(h, f, "SndbufErrors", w)
  {
    var h, f := UdpRows(lines)[0], UdpRows(lines)[1];
    ReadersAgreeIff(h, f, "InDatagrams", Width(h, f));
    ReadersAgreeIff(h, f, "OutDatagrams", Width(h, f));
    ReadersAgreeIff(h, f, "RcvbufErrors", Width(h, f));
    ReadersAgreeIff(h, f, "SndbufErrors", Width(h, f));
  }

  /** Two ways to disagree: a number that does not fit, and a repeated column spoilt by its second value. */
  lemma ReadersDiffer(name: string, big: string, spoilt: string)
    requires ParseUint(big).OutOfRange? && ParseUint(spoilt).BadSyntax?
    ensures !Agreeable(["Udp:", name], ["Udp:", big], name, 2)
    ensures !Agreeable(["Udp:", name, name], ["Udp:", "5", spoilt], name, 3)
  {
    var hdr, fs := ["Udp:", name, name], ["Udp:", "5", spoilt];
    assert ParseUint("5") == Good(5) by {
      assert "5"[1..] == "";
    }
    assert Skipping(hdr, fs, name, 2) == 5;
  }

  // ------------------------------------------------------------- what the numbers are

  /** What ParseUint reads, from the middle of a number. */
  lemma {:induction false} ParsedFrom(s: string, n: nat)
    requires n < WORD
    ensures ParseFrom(s, n).Good? <==> (forall i | 0 <= i < |s| :: IsDigit(s[i])) && DecimalFrom(n, s) < WORD
    ensures ParseFrom(s, n).Good? ==> ParseFrom(s, n).n == DecimalFrom(n, s)
    ensures (forall i | 0 <= i < |s| :: IsDigit(s[i])) && DecimalFrom(n, s) >= WORD ==> ParseFrom(s, n) == OutOfRange
    decreases |s|
  {
    if s != "" && IsDigit(s[0]) {
      var m := 10 * n + DigitOf(s[0]);
      DecimalFront(n, s);
      DecimalGrows(m, s[1..]);
      assert forall i | 0 <= i < |s[1..]| :: s[1..][i] == s[i + 1];
      assert (forall i | 0 <= i < |s| :: IsDigit(s[i])) <==> (forall i | 0 <= i < |s[1..]| :: IsDigit(s[1..][i])) by {
        assert forall i | 1 <= i < |s| :: s[i] == s[1..][i - 1];
      }
      if m < WORD {
        ParsedFrom(s[1..], m);
      }
    }
  }

  /** A text is read as the decimal number it denotes, if it is one and that fits 64 bits; one that does
      not fit is out of range, and nothing else is good. */
  lemma NumberRead(s: string)
    ensures ParseUint(s).Good? <==> IsNumber(s) && Decimal(s) < WORD
    ensures ParseUint(s).Good? ==> ParseUint(s).n == Decimal(s)
    ensures IsNumber(s) && Decimal(s) >= WORD ==> ParseUint(s) == OutOfRange
  {
    if s != "" {
      ParsedFrom(s, 0);
    }
  }

  /** A column that is named once, at i, is read from there by both. */
  lemma {:induction false} ColumnRead(hdr: seq<string>, fs: seq<string>, i: nat, k: nat)
    requires 1 <= i < k <= Width(hdr, fs) && ParseUint(fs[i]).Good?
    requires forall j | i < j < k :: hdr[j] != hdr[i]
    ensures Skipping(hdr, fs, hdr[i], k) == Trusting(hdr, fs, hdr[i], k) == Decimal(fs[i])
    decreases k
  {
    if k - 1 > i {
      ColumnRead(hdr, fs, i, k - 1);
    } else {
      NumberRead(fs[i]);
    }
  }

  // ------------------------------------------------------------- the kernel's two lines

  /** Words with the same blanks between any two. */
  function Joined(ws: seq<string>, sep: string): string
    requires ws != []
  {
    if |ws| == 1 then ws[0] else Joined(ws[..|ws| - 1], sep) + (sep + ws[|ws| - 1])
  }

  /** White space: space, tab, line feed, vertical tab, form feed and carriage return. */
  predicate IsBlank(c: char) { c == ' ' || '\U{0009}' <= c <= '\U{000D}' }

  ghost predicate IsGap(sep: string) { sep != "" && forall i | 0 <= i < |sep| :: IsBlank(sep[i]) }

  ghost predicate IsWord(w: string) { w != "" && forall i | 0 <= i < |w| :: !IsBlank(w[i]) }

  lemma {:induction false} ReadWord(w: string, cur: string)
    requires forall i | 0 <= i < |w| :: !IsBlank(w[i])
    ensures FieldsFrom(w, cur) == Word(cur + w)
    decreases |w|
  {
    if w == "" {
      assert cur + w == cur;
    } else {
      ReadWord(w[1..], cur + [w[0]]);
      assert cur + [w[0]] + w[1..] == cur + w;
    }
  }

  lemma {:induction false} SkipGap(sep: string, w: string)
    requires (forall i | 0 <= i < |sep| :: IsBlank(sep[i])) && IsWord(w)
    ensures FieldsFrom(sep + w, "") == [w]
    decreases |sep|
  {
    if sep == "" {
      assert sep + w == w;
      ReadWord(w, "");
      assert "" + w == w;
    } else {
      var t := sep + w;
      assert t[0] == sep[0] && t[1..] == sep[1..] + w;
      SkipGap(sep[1..], w);
      assert Word("") + [w] == [w];
    }
  }

  /** A last word, after a gap, is a field of its own. */
  lemma {:induction false} LastWord(s: string, sep: string, w: string, cur: string)
    requires IsGap(sep) && IsWord(w)
    ensures FieldsFrom(s + (sep + w), cur) == FieldsFrom(s, cur) + [w]
    decreases |s|
  {
    var t := s + (sep + w);
    if s == "" {
      assert t[0] == sep[0] && t[1..] == sep[1..] + w;
      SkipGap(sep[1..], w);
    } else {
      assert t[0] == s[0] && t[1..] == s[1..] + (sep + w);
      LastWord(s[1..], sep, w, if IsSpace(s[0]) then "" else cur + [s[0]]);
    }
  }

  lemma {:induction false} FieldsOfJoined(ws: seq<string>, sep: string)
    requires ws != [] && IsGap(sep) && forall i | 0 <= i < |ws| :: IsWord(ws[i])
    ensures Fields(Joined(ws, sep)) == ws
    decreases |ws|
  {
    if |ws| == 1 {
      ReadWord(ws[0], "");
      assert "" + ws[0] == ws[0];
    } else {
      var p := ws[..|ws| - 1];
      FieldsOfJoined(p, sep);
      LastWord(Joined(p, sep), sep, ws[|ws| - 1], "");
      assert ws == p + [ws[|ws| - 1]];
    }
  }

  lemma {:induction false} JoinedStarts(ws: seq<string>, sep: string)
    requires ws != []
    ensures ws[0] <= Joined(ws, sep)
    decreases |ws|
  {
    if |ws| > 1 {
      JoinedStarts(ws[..|ws| - 1], sep);
    }
  }

  lemma NumbersAreWords(w: string)
    requires IsNumber(w)
    ensures IsWord(w)
  {
    forall i | 0 <= i < |w| ensures !IsBlank(w[i]) {
      assert IsDigit(w[i]);
    }
  }

  const UDP: string := "Udp:"

  /** The kernel's columns. */
  function Header(): (h: seq<string>)
    ensures |h| == 8
  {
    [UDP, "InDatagrams", "NoPorts", "InErrors", "OutDatagrams", "RcvbufErrors", "SndbufErrors", "InCsumErrors"]
  }

  lemma HeaderWords()
    ensures forall i | 0 <= i < 8 :: IsWord(Header()[i])
    ensures forall i, j | 0 <= i < j < 8 :: Header()[i] != Header()[j]
  {
    var h := Header();
    assert IsWord(h[0]) && IsWord(h[1]) && IsWord(h[2]) && IsWord(h[3]);
    assert IsWord(h[4]) && IsWord(h[5]) && IsWord(h[6]) && IsWord(h[7]);
    assert |h[0]| == 4 && |h[1]| == 11 && |h[2]| == 7 && |h[3]| == 8;
    assert |h[4]| == 12 && |h[5]| == 12 && |h[6]| == 12 && |h[7]| == 12;
    assert h[4][0] == 'O' && h[5][0] == 'R' && h[6][0] == 'S' && h[7][0] == 'I';
  }

  lemma RowsOfTwo(a: seq<string>, b: seq<string>, sep: string)
    requires a != [] && b != [] && a[0] == UDP && b[0] == UDP && IsGap(sep)
    requires (forall i | 0 <= i < |a| :: IsWord(a[i])) && (forall i | 0 <= i < |b| :: IsWord(b[i]))
    ensures UdpRows([Joined(a, sep), Joined(b, sep)]) == [a, b]
  {
    var x, y := Joined(a, sep), Joined(b, sep);
    RowOf([], a, sep);
    RowOf([x], b, sep);
    assert [] + [x] == [x];
    assert [x] + [y] == [x, y];
  }

  lemma RowOf(lines: seq<string>, ws: seq<string>, sep: string)
    requires ws != [] && ws[0] == UDP && IsGap(sep) && forall i | 0 <= i < |ws| :: IsWord(ws[i])
    ensures UdpRows(lines + [Joined(ws, sep)]) == UdpRows(lines) + [ws]
  {
    FieldsOfJoined(ws, sep);
    JoinedStarts(ws, sep);
    assert (lines + [Joined(ws, sep)])[..|lines|] == lines;
  }

  lemma ValueWords(vs: seq<string>)
    requires |vs| == 7 && forall i | 0 <= i < 7 :: IsNumber(vs[i])
    ensures forall i | 0 <= i < 8 :: IsWord(([UDP] + vs)[i])
  {
    HeaderWords();
    forall i | 0 <= i < 8 ensures IsWord(([UDP] + vs)[i]) {
      if i == 0 {
        assert ([UDP] + vs)[0] == Header()[0];
      } else {
        NumbersAreWords(vs[i - 1]);
      }
    }
  }

  /** The column i of the kernel's row. */
  lemma KernelColumn(vs: seq<string>, i: nat)
    requires |vs| == 7 && 1 <= i <= 7 && forall j | 0 <= j < 7 :: IsNumber(vs[j]) && Decimal(vs[j]) < WORD
    ensures Skipping(Header(), [UDP] + vs, Header()[i], 8) == Trusting(Header(), [UDP] + vs, Header()[i], 8) == Decimal(vs[i - 1])
  {
    HeaderWords();
    NumberRead(vs[i - 1]);
    ColumnRead(Header(), [UDP] + vs, i, 8);
  }

  lemma EdgeKernel(vs: seq<string>)
    requires |vs| == 7 && forall i | 0 <= i < 7 :: IsNumber(vs[i]) && Decimal(vs[i]) < WORD
    ensures EdgeCounters(Header(), [UDP] + vs)
         == Counters(Decimal(vs[0]), Decimal(vs[1]), Decimal(vs[2]), Decimal(vs[3]), Decimal(vs[4]), Decimal(vs[5]), Decimal(vs[6]))
  {
    KernelColumn(vs, 1);
    KernelColumn(vs, 2);
    KernelColumn(vs, 3);
    KernelColumn(vs, 4);
    KernelColumn(vs, 5);
    KernelColumn(vs, 6);
    KernelColumn(vs, 7);
  }

  lemma UIKernel(vs: seq<string>)
    requires |vs| == 7 && forall i | 0 <= i < 7 :: IsNumber(vs[i]) && Decimal(vs[i]) < WORD
    ensures UIReading(Header(), [UDP] + vs) == UICounters(Decimal(vs[0]), Decimal(vs[3]), Decimal(vs[4]), Decimal(vs[5]))
  {
    KernelColumn(vs, 1);
    KernelColumn(vs, 4);
    KernelColumn(vs, 5);
    KernelColumn(vs, 6);
  }

  lemma KernelRows(vs: seq<string>, sep: string)
    requires |vs| == 7 && IsGap(sep) && forall i | 0 <= i < 7 :: IsNumber(vs[i])
    ensures UdpRows([Joined(Header(), sep), Joined([UDP] + vs, sep)]) == [Header(), [UDP] + vs]
  {
    HeaderWords();
    ValueWords(vs);
    RowsOfTwo(Header(), [UDP] + vs, sep);
  }

  /** End to end on the text the kernel prints, whatever the white space: both parsers return, each under
      its own name, the decimal numbers of the second line. */
  lemma KernelRead(vs: seq<string>, sep: string)
    requires |vs| == 7 && IsGap(sep) && forall i | 0 <= i < 7 :: IsNumber(vs[i]) && Decimal(vs[i]) < WORD
    ensures ReadAs(UdpRows([Joined(Header(), sep), Joined([UDP] + vs, sep)]), vs)
  {
    KernelRows(vs, sep);
    EdgeKernel(vs);
    UIKernel(vs);
  }

  ghost predicate ReadAs(rows: seq<seq<string>>, vs: seq<string>)
    requires |vs| == 7
  {
    && |rows| == 2
    && EdgeCounters(rows[0], rows[1])
       == Counters(Decimal(vs[0]), Decimal(vs[1]), Decimal(vs[2]), Decimal(vs[3]), Decimal(vs[4]), Decimal(vs[5]), Decimal(vs[6]))
    && UIReading(rows[0], rows[1]) == UICounters(Decimal(vs[0]), Decimal(vs[3]), Decimal(vs[4]), Decimal(vs[5]))
  }

  // ------------------------------------------------------------- interval differences

  function Minus(a: nat, b: nat): nat { (a - b) % WORD }

  function Plus(a: nat, b: nat): nat { (a + b) % WORD }

  function Sub(c: Counters, prev: Counters): Counters {
    Counters(Minus(c.inDatagrams, prev.inDatagrams), Minus(c.noPorts, prev.noPorts), Minus(c.inErrors, prev.inErrors),
             Minus(c.outDatagrams, prev.outDatagrams), Minus(c.rcvbufErrors, prev.rcvbufErrors),
             Minus(c.sndbufErrors, prev.sndbufErrors), Minus(c.inCsumErrors, prev.inCsumErrors))
  }

  function Add(c: Counters, d: Counters): Counters {
    Counters(Plus(c.inDatagrams, d.inDatagrams), Plus(c.noPorts, d.noPorts), Plus(c.inErrors, d.inErrors),
             Plus(c.outDatagrams, d.outDatagrams), Plus(c.rcvbufErrors, d.rcvbufErrors),
             Plus(c.sndbufErrors, d.sndbufErrors), Plus(c.inCsumErrors, d.inCsumErrors))
  }

  /** The sum of the differences between successive samples, in wrapping arithmetic. */
  function SumOfDeltas(samples: seq<Counters>): Counters {
    if |samples| <= 1 then NO_COUNTERS
    else Add(SumOfDeltas(samples[..|samples| - 1]), Sub(samples[|samples| - 1], samples[|samples| - 2]))
  }

  /** The seven fields. */
  datatype Field = InDatagrams | NoPorts | InErrors | OutDatagrams | RcvbufErrors | SndbufErrors | InCsumErrors

  function Of(c: Counters, x: Field): nat {
    match x
    case InDatagrams => c.inDatagrams
    case NoPorts => c.noPorts
    case InErrors => c.inErrors
    case OutDatagrams => c.outDatagrams
    case RcvbufErrors => c.rcvbufErrors
    case SndbufErrors => c.sndbufErrors
    case InCsumErrors => c.inCsumErrors
  }

  lemma Fieldwise(c: Counters, d: Counters, x: Field)
    ensures Of(Sub(c, d), x) == Minus(Of(c, x), Of(d, x))
    ensures Of(Add(c, d), x) == Plus(Of(c, x), Of(d, x))
  {
  }

  lemma WrapAdd(a: nat, b: nat, c: nat)
    ensures Plus((b - a) % WORD, Minus(c, b)) == (c - a) % WORD
  {
    var x, y := b - a, c - b;
    var q, r := x / WORD, y / WORD;
    assert x == q * WORD + x % WORD && y == r * WORD + y % WORD;
    assert c - a == (q + r) * WORD + (x % WORD + y % WORD);
  }

  /** A delta, in each field: the counter's own increase when it did not wrap, and always what takes the
      earlier sample to the later one modulo 2^64. */
  lemma DeltaMeans(c: Counters, prev: Counters, x: Field)
    requires Of(c, x) < WORD && Of(prev, x) < WORD
    ensures Of(prev, x) <= Of(c, x) ==> Of(Sub(c, prev), x) == Of(c, x) - Of(prev, x)
    ensures (Of(prev, x) + Of(Sub(c, prev), x)) % WORD == Of(c, x)
  {
    Fieldwise(c, prev, x);
    MinusMeans(Of(c, x), Of(prev, x));
  }

  lemma MinusMeans(a: nat, b: nat)
    requires a < WORD && b < WORD
    ensures b <= a ==> Minus(a, b) == a - b
    ensures (b + Minus(a, b)) % WORD == a
  {
    var d, m := a - b, Minus(a, b);
    var q := d / WORD;
    assert d == q * WORD + m && 0 <= m < WORD;
    assert q == if b <= a then 0 else -1;
  }

  /** Summed deltas over any samples are, in each field, last minus first modulo 2^64. */
  lemma {:induction false} DeltasTelescope(samples: seq<Counters>, x: Field)
    requires samples != []
    ensures Of(SumOfDeltas(samples), x) == (Of(samples[|samples| - 1], x) - Of(samples[0], x)) % WORD
    decreases |samples|
  {
    if |samples| > 1 {
      var p, last := samples[..|samples| - 1], samples[|samples| - 1];
      DeltasTelescope(p, x);
      Fieldwise(last, p[|p| - 1], x);
      Fieldwise(SumOfDeltas(p), Sub(last, p[|p| - 1]), x);
      WrapAdd(Of(samples[0], x), Of(p[|p| - 1], x), Of(last, x));
    }
  }
}
