/** JSON documents as text: every spelling of every string, any whitespace in every legal place.

    `Text` prints a document without consulting the scanner. Strings may be spelled in any of the
    ways of section 7 of RFC 8259 (`json_escape` picks one of them). */
module JsonText {
  import opened Common
  import opened Seqs
  import opened Json

  // ---------------------------------------------------------------------------
  // Strings
  // ---------------------------------------------------------------------------

  datatype Spelling = AsIs | Short | Unicode(upper: bool)
  datatype Glyph = Glyph(c: char, how: Spelling)
  type Token = seq<Glyph>

  function ShortName(c: char): Option<char> {
    if c == '"' then Some('"')
    else if c == '\\' then Some('\\')
    else if c == '/' then Some('/')
    else if c as int == 8 then Some('b')
    else if c as int == 12 then Some('f')
    else if c == '\n' then Some('n')
    else if c == '\r' then Some('r')
    else if c == '\t' then Some('t')
    else None
  }

  predicate GlyphOk(g: Glyph) {
    match g.how
    case AsIs => g.c != '"' && g.c != '\\'
    case Short => ShortName(g.c).Some?
    case Unicode(_) => true
  }

  function Digit(d: nat, upper: bool): char
    requires d < 16
  {
    (if upper then "0123456789ABCDEF" else "0123456789abcdef")[d]
  }

  /** Four hex digits. */
  function HexText(n: nat, upper: bool): string
    requires n < 0x1_0000
  {
    [Digit(n / 16 / 16 / 16, upper), Digit(n / 16 / 16 % 16, upper), Digit(n / 16 % 16, upper), Digit(n % 16, upper)]
  }

  /** `\uXXXX`, or a surrogate pair beyond the basic plane. */
  function UnicodeText(c: char, upper: bool): string {
    var n := c as int;
    if n < 0x1_0000 then "\\u" + HexText(n, upper)
    else HalvesJoin(n);
         "\\u" + HexText(HighHalf(n), upper) + "\\u" + HexText(LowHalf(n), upper)
  }

  function GlyphText(g: Glyph): string
    requires GlyphOk(g)
  {
    match g.how
    case AsIs => [g.c]
    case Short => ['\\', ShortName(g.c).value]
    case Unicode(upper) => UnicodeText(g.c, upper)
  }

  ghost predicate TokenOk(t: Token) {
    forall g <- t :: GlyphOk(g)
  }

  /** The body of a string and its closing quote. */
  function Inside(t: Token): string
    requires TokenOk(t)
  {
    if t == [] then "\"" else GlyphText(t[0]) + Inside(t[1..])
  }

  function Quoted(t: Token): string
    requires TokenOk(t)
  {
    "\"" + Inside(t)
  }

  function Value(t: Token): string {
    if t == [] then [] else [t[0].c] + Value(t[1..])
  }

  lemma DigitRead(d: nat, upper: bool)
    requires d < 16
    ensures HexValue(Digit(d, upper)) == Some(d)
  {
  }

  lemma HexRead(n: nat, upper: bool, t: string)
    requires n < 0x1_0000
    ensures Hex4(HexText(n, upper) + t) == Some(n) && (HexText(n, upper) + t)[4..] == t
  {
    var n1, n2, n3 := n / 16, n / 16 / 16, n / 16 / 16 / 16;
    DigitRead(n3, upper);
    DigitRead(n2 % 16, upper);
    DigitRead(n1 % 16, upper);
    DigitRead(n % 16, upper);
    HexDigits(HexText(n, upper) + t, n3, n2 % 16, n1 % 16, n % 16);
  }

  lemma HexDigits(x: string, a: nat, b: nat, c: nat, d: nat)
    requires |x| >= 4
    requires HexValue(x[0]) == Some(a) && HexValue(x[1]) == Some(b) && HexValue(x[2]) == Some(c) && HexValue(x[3]) == Some(d)
    ensures Hex4(x) == Some(((a * 16 + b) * 16 + c) * 16 + d)
  {
  }

  function HighHalf(n: nat): nat
    requires 0x1_0000 <= n < 0x11_0000
  {
    0xD800 + (n - 0x1_0000) / 0x400
  }

  function LowHalf(n: nat): nat
    requires 0x1_0000 <= n < 0x11_0000
  {
    0xDC00 + (n - 0x1_0000) % 0x400
  }

  lemma HalvesJoin(n: nat)
    requires 0x1_0000 <= n < 0x11_0000
    ensures 0xD800 <= HighHalf(n) < 0xDC00 && 0xDC00 <= LowHalf(n) < 0xE000
    ensures 0x10000 + (HighHalf(n) - 0xD800) * 0x400 + (LowHalf(n) - 0xDC00) == n
  {
  }

  lemma PairEscape(r: string, hi: nat, lo: nat)
    requires Hex4(r) == Some(hi) && 0xD800 <= hi < 0xDC00
    requires |r| >= 10 && r[4] == '\\' && r[5] == 'u' && Hex4(r[6..]) == Some(lo) && 0xDC00 <= lo < 0xE000
    ensures UnicodeEscape(r) == Some(((0x10000 + (hi - 0xD800) * 0x400 + (lo - 0xDC00)) as char, r[10..]))
  {
  }

  lemma PairSplit(high: string, low: string, t: string)
    requires |high| == 4 && |low| == 4
    ensures var x := high + ("\\u" + (low + t));
            |x| >= 10 && x[4] == '\\' && x[5] == 'u' && x[6..] == low + t && x[10..] == t
  {
    var x := high + ("\\u" + (low + t));
    assert x[6..][4..] == t;
  }

  lemma PairRead(n: nat, upper: bool, t: string)
    requires 0x1_0000 <= n < 0x11_0000
    ensures HighHalf(n) < 0x1_0000 && LowHalf(n) < 0x1_0000
    ensures UnicodeEscape(HexText(HighHalf(n), upper) + ("\\u" + (HexText(LowHalf(n), upper) + t))) == Some((n as char, t))
  {
    HalvesJoin(n);
    var high, low := HexText(HighHalf(n), upper), HexText(LowHalf(n), upper);
    HexRead(HighHalf(n), upper, "\\u" + (low + t));
    HexRead(LowHalf(n), upper, t);
    PairSplit(high, low, t);
    PairEscape(high + ("\\u" + (low + t)), HighHalf(n), LowHalf(n));
  }

  lemma UnicodeRead(c: char, upper: bool, t: string)
    ensures var x := UnicodeText(c, upper) + t;
            |x| >= 2 && x[0] == '\\' && x[1] == 'u' && UnicodeEscape(x[2..]) == Some((c, t))
  {
    var n := c as int;
    if n < 0x1_0000 {
      BasicRead(c, upper, t);
      EscapeSplit(HexText(n, upper), t);
    } else {
      PairRead(n, upper, t);
      Assoc("\\u" + HexText(HighHalf(n), upper) + "\\u", HexText(LowHalf(n), upper), t);
      EscapeSplit(HexText(HighHalf(n), upper), "\\u" + (HexText(LowHalf(n), upper) + t));
      assert UnicodeText(c, upper) + t == ("\\u" + HexText(HighHalf(n), upper)) + ("\\u" + (HexText(LowHalf(n), upper) + t));
    }
  }

  lemma EscapeSplit(h: string, rest: string)
    ensures var x := ("\\u" + h) + rest; |x| >= 2 && x[0] == '\\' && x[1] == 'u' && x[2..] == h + rest
  {
  }

  lemma BasicRead(c: char, upper: bool, t: string)
    requires c as int < 0x1_0000
    ensures UnicodeEscape(HexText(c as int, upper) + t) == Some((c, t))
  {
    HexRead(c as int, upper, t);
  }

  lemma GlyphRead(g: Glyph, t: string)
    requires GlyphOk(g)
    ensures var x := GlyphText(g) + t; x != [] && x[0] != '"' && NextChar(x) == Some((g.c, t))
  {
    match g.how
    case AsIs =>
    case Short =>
      assert (GlyphText(g) + t)[2..] == t;
    case Unicode(upper) =>
      UnicodeRead(g.c, upper, t);
  }

  /** Reading any spelling of a string gives the string back and stops right after it. */
  lemma {:induction false} InsideRead(t: Token, rest: string)
    requires TokenOk(t)
    ensures Body(Inside(t) + rest) == Some((Value(t), rest))
  {
    if t != [] {
      var x := Inside(t[1..]) + rest;
      Assoc(GlyphText(t[0]), Inside(t[1..]), rest);
      GlyphRead(t[0], x);
      InsideRead(t[1..], rest);
    }
  }

  lemma StrOfBody(x: string)
    ensures Str("\"" + x) == Body(x)
  {
    assert ("\"" + x)[1..] == x;
  }

  lemma QuotedRead(t: Token, rest: string)
    requires TokenOk(t)
    ensures Str(Quoted(t) + rest) == Some((Value(t), rest))
  {
    Assoc("\"", Inside(t), rest);
    StrOfBody(Inside(t) + rest);
    InsideRead(t, rest);
  }

  /** The spelling `json_escape` picks. */
  function EscapeHow(c: char): Spelling {
    if c == '"' || c == '\\' || c == '\n' || c == '\r' || c == '\t' then Short
    else if c as int < 0x20 then Unicode(false)
    else AsIs
  }

  function Escaped(s: string): (t: Token)
    ensures TokenOk(t) && |t| == |s|
  {
    if s == [] then [] else [Glyph(s[0], EscapeHow(s[0]))] + Escaped(s[1..])
  }

  lemma EscapeCharText(c: char)
    ensures GlyphText(Glyph(c, EscapeHow(c))) == EscapeChar(c)
  {
    if EscapeHow(c).Unicode? {
      var n := c as int;
      assert n / 16 < 16 && n / 16 / 16 == 0;
      assert HexText(n, false) == "00" + [Digit(n / 16, false), Digit(n % 16, false)];
    }
  }

  /** `json_escape` between quotes is a legal spelling of its argument. */
  lemma {:induction false} EscapeSpells(s: string)
    ensures Value(Escaped(s)) == s && Inside(Escaped(s)) == Escape(s) + "\""
    ensures Quoted(Escaped(s)) == Quote(s)
  {
    if s != [] {
      EscapeCharText(s[0]);
      EscapeSpells(s[1..]);
      Assoc(EscapeChar(s[0]), Escape(s[1..]), "\"");
    }
    Assoc("\"", Escape(s), "\"");
  }

  lemma EscapeRoundTrip(s: string, rest: string)
    ensures Str(Quote(s) + rest) == Some((s, rest))
  {
    EscapeSpells(s);
    QuotedRead(Escaped(s), rest);
  }

  // ---------------------------------------------------------------------------
  // Documents
  // ---------------------------------------------------------------------------

  datatype Doc = Text(t: Token) | Scalar(raw: string) | Object(ms: Members) | Array(es: Elems)
  datatype Members =
    | NoMembers(gap: string)
    | Member(beforeKey: string, key: Token, afterKey: string, beforeValue: string, value: Doc, afterValue: string,
             rest: Members)
  datatype Elems =
    | NoElems(gap: string)
    | Elem(before: string, value: Doc, after: string, rest: Elems)

  ghost predicate Blank(w: string) {
    forall c <- w :: IsWs(c)
  }

  /** A number or literal: nothing in it that ends a scalar or opens another kind of value. */
  ghost predicate ScalarOk(raw: string) {
    raw != [] && raw[0] != '{' && raw[0] != '[' && forall c <- raw :: c != '"' && !EndsScalar(c)
  }

  ghost predicate DocOk(v: Doc) {
    match v
    case Text(t) => TokenOk(t)
    case Scalar(raw) => ScalarOk(raw)
    case Object(ms) => MembersOk(ms)
    case Array(es) => ElemsOk(es)
  }

  ghost predicate MembersOk(ms: Members) {
    match ms
    case NoMembers(gap) => Blank(gap)
    case Member(a, key, b, c, value, d, rest) =>
      Blank(a) && TokenOk(key) && Blank(b) && Blank(c) && DocOk(value) && Blank(d) && MembersOk(rest)
  }

  ghost predicate ElemsOk(es: Elems) {
    match es
    case NoElems(gap) => Blank(gap)
    case Elem(a, value, b, rest) => Blank(a) && DocOk(value) && Blank(b) && ElemsOk(rest)
  }

  ghost function Print(v: Doc): string
    requires DocOk(v)
    decreases v, 0
  {
    match v
    case Text(t) => Quoted(t)
    case Scalar(raw) => raw
    case Object(ms) => "{" + PrintMembers(ms)
    case Array(es) => "[" + PrintElems(es)
  }

  ghost function PrintMembers(ms: Members): string
    requires MembersOk(ms)
    decreases ms, 0
  {
    match ms
    case NoMembers(gap) => gap + "}"
    case Member(a, key, b, c, value, d, rest) => a + (Quoted(key) + (b + (":" + (c + (Print(value) + (d + MembersTail(rest)))))))
  }

  ghost function MembersTail(ms: Members): string
    requires MembersOk(ms)
    decreases ms, 1
  {
    if ms.NoMembers? then PrintMembers(ms) else "," + PrintMembers(ms)
  }

  ghost function PrintElems(es: Elems): string
    requires ElemsOk(es)
    decreases es, 0
  {
    match es
    case NoElems(gap) => gap + "]"
    case Elem(a, value, b, rest) => a + (Print(value) + (b + ElemsTail(rest)))
  }

  ghost function ElemsTail(es: Elems): string
    requires ElemsOk(es)
    decreases es, 1
  {
    if es.NoElems? then PrintElems(es) else "," + PrintElems(es)
  }

  /** What may follow a value. */
  ghost predicate Ends(t: string) {
    t == [] || EndsScalar(t[0])
  }

  // ---------------------------------------------------------------------------
  // Skipping a value
  // ---------------------------------------------------------------------------

  lemma {:induction false} SkipBlank(w: string, t: string)
    requires Blank(w)
    ensures SkipWs(w + t) == SkipWs(t)
  {
    if w != [] {
      assert (w + t)[1..] == w[1..] + t;
      SkipBlank(w[1..], t);
    } else {
      assert w + t == t;
    }
  }

  lemma {:induction false} ScalarStops(raw: string, t: string)
    requires forall c <- raw :: !EndsScalar(c)
    requires Ends(t)
    ensures ScalarRest(raw + t) == t
  {
    if raw != [] {
      assert (raw + t)[1..] == raw[1..] + t;
      ScalarStops(raw[1..], t);
    } else {
      assert raw + t == t;
    }
  }

  /** A value starts with a character that is no blank, comma or closing bracket. */
  lemma PrintStarts(v: Doc)
    requires DocOk(v)
    ensures Print(v) != [] && !EndsScalar(Print(v)[0])
    ensures Print(v)[0] == '"' <==> v.Text?
    ensures Print(v)[0] == '{' <==> v.Object?
    ensures Print(v)[0] == '[' <==> v.Array?
  {
    if v.Scalar? {
      assert v.raw[0] in v.raw;
    }
  }

  lemma SkipStarts(v: Doc, t: string)
    requires DocOk(v)
    ensures SkipWs(Print(v) + t) == Print(v) + t
  {
    PrintStarts(v);
  }

  /** `skip_value` consumes exactly the printed value. */
  lemma {:induction false} SkipPrint(v: Doc, t: string)
    requires DocOk(v) && Ends(t)
    ensures Skip(Print(v) + t) == Some(t)
    decreases v, 0
  {
    SkipStarts(v, t);
    PrintStarts(v);
    match v
    case Text(tok) => QuotedRead(tok, t);
    case Scalar(raw) => ScalarStops(raw, t);
    case Object(ms) =>
      assert (Print(v) + t)[1..] == PrintMembers(ms) + t;
      SkipPrintMembers(ms, t);
    case Array(es) =>
      assert (Print(v) + t)[1..] == PrintElems(es) + t;
      SkipPrintElems(es, t);
  }

  // The text of a list, seen from its first entry.

  ghost function AfterMember(ms: Members, t: string): string
    requires MembersOk(ms) && ms.Member?
  {
    ms.afterValue + (MembersTail(ms.rest) + t)
  }

  ghost function FromValue(ms: Members, t: string): string
    requires MembersOk(ms) && ms.Member?
  {
    Print(ms.value) + AfterMember(ms, t)
  }

  ghost function FromColon(ms: Members, t: string): string
    requires MembersOk(ms) && ms.Member?
  {
    ":" + (ms.beforeValue + FromValue(ms, t))
  }

  lemma MembersText(ms: Members, t: string)
    requires MembersOk(ms) && ms.Member?
    ensures PrintMembers(ms) + t == ms.beforeKey + (Quoted(ms.key) + (ms.afterKey + FromColon(ms, t)))
  {
    var tail := MembersTail(ms.rest);
    var x1 := ms.afterValue + tail;
    var x2 := Print(ms.value) + x1;
    var x3 := ms.beforeValue + x2;
    var x4 := ":" + x3;
    var x5 := ms.afterKey + x4;
    var x6 := Quoted(ms.key) + x5;
    Assoc(ms.afterValue, tail, t);
    Assoc(Print(ms.value), x1, t);
    Assoc(ms.beforeValue, x2, t);
    Assoc(":", x3, t);
    Assoc(ms.afterKey, x4, t);
    Assoc(Quoted(ms.key), x5, t);
    Assoc(ms.beforeKey, x6, t);
  }

  ghost function AfterElem(es: Elems, t: string): string
    requires ElemsOk(es) && es.Elem?
  {
    es.after + (ElemsTail(es.rest) + t)
  }

  lemma ElemsText(es: Elems, t: string)
    requires ElemsOk(es) && es.Elem?
    ensures PrintElems(es) + t == es.before + (Print(es.value) + AfterElem(es, t))
  {
    var tail := ElemsTail(es.rest);
    Assoc(es.after, tail, t);
    Assoc(Print(es.value), es.after + tail, t);
    Assoc(es.before, Print(es.value) + (es.after + tail), t);
  }

  lemma BlankEnds(w: string, x: string)
    requires Blank(w) && x != [] && EndsScalar(x[0])
    ensures w + x != [] && EndsScalar((w + x)[0])
  {
    if w != [] {
      assert w[0] in w;
    }
  }

  lemma AfterMemberEnds(ms: Members, t: string)
    requires MembersOk(ms) && ms.Member?
    ensures Ends(AfterMember(ms, t))
  {
    if ms.rest.NoMembers? {
      BlankEnds(ms.rest.gap, "}");
      assert PrintMembers(ms.rest) == ms.rest.gap + "}";
    }
    var tail := MembersTail(ms.rest);
    assert tail != [] && EndsScalar(tail[0]);
    assert (tail + t)[0] == tail[0];
    BlankEnds(ms.afterValue, tail + t);
  }

  lemma AfterElemEnds(es: Elems, t: string)
    requires ElemsOk(es) && es.Elem?
    ensures Ends(AfterElem(es, t))
  {
    if es.rest.NoElems? {
      BlankEnds(es.rest.gap, "]");
      assert PrintElems(es.rest) == es.rest.gap + "]";
    }
    var tail := ElemsTail(es.rest);
    assert tail != [] && EndsScalar(tail[0]);
    assert (tail + t)[0] == tail[0];
    BlankEnds(es.after, tail + t);
  }

  lemma QuotedStarts(t: Token, rest: string)
    requires TokenOk(t)
    ensures var x := Quoted(t) + rest; x != [] && x[0] == '"' && SkipWs(x) == x
  {
  }

  /** One member read: its key, the colon and its value. */
  lemma MemberRead(ms: Members, t: string)
    requires MembersOk(ms) && ms.Member?
    ensures var r := SkipWs(PrintMembers(ms) + t);
            && r == Quoted(ms.key) + (ms.afterKey + FromColon(ms, t))
            && r[0] == '"'
            && Str(r) == Some((Value(ms.key), ms.afterKey + FromColon(ms, t)))
            && SkipWs(ms.afterKey + FromColon(ms, t)) == FromColon(ms, t)
            && FromColon(ms, t)[1..] == ms.beforeValue + FromValue(ms, t)
            && SkipWs(FromColon(ms, t)[1..]) == FromValue(ms, t)
  {
    MembersText(ms, t);
    var r := Quoted(ms.key) + (ms.afterKey + FromColon(ms, t));
    SkipBlank(ms.beforeKey, r);
    QuotedStarts(ms.key, ms.afterKey + FromColon(ms, t));
    QuotedRead(ms.key, ms.afterKey + FromColon(ms, t));
    SkipBlank(ms.afterKey, FromColon(ms, t));
    SkipBlank(ms.beforeValue, FromValue(ms, t));
    SkipStarts(ms.value, AfterMember(ms, t));
  }

  lemma KeyPrint(ms: Members, t: string)
    requires MembersOk(ms) && ms.Member?
    ensures var r := SkipWs(PrintMembers(ms) + t);
            r != [] && r[0] == '"' && Key(r) == Some((Value(ms.key), ms.beforeValue + FromValue(ms, t)))
  {
    MemberRead(ms, t);
  }

  lemma ElemRead(es: Elems, t: string)
    requires ElemsOk(es) && es.Elem?
    ensures var r := SkipWs(PrintElems(es) + t);
            r == Print(es.value) + AfterElem(es, t) && r[0] != ']' && r[0] != ','
  {
    ElemsText(es, t);
    SkipBlank(es.before, Print(es.value) + AfterElem(es, t));
    SkipStarts(es.value, AfterElem(es, t));
    PrintStarts(es.value);
  }

  lemma ClosingRead(gap: string, close: char, t: string)
    requires Blank(gap) && !IsWs(close)
    ensures SkipWs((gap + [close]) + t) == [close] + t
  {
    Assoc(gap, [close], t);
    SkipBlank(gap, [close] + t);
  }

  lemma SkipsBlanks(w: string, r: string)
    requires Blank(w)
    ensures Skip(w + r) == Skip(r) && SkipMembers(w + r) == SkipMembers(r) && SkipElems(w + r) == SkipElems(r)
  {
    SkipBlank(w, r);
  }

  lemma {:induction false} SkipPrintMembers(ms: Members, t: string)
    requires MembersOk(ms)
    ensures SkipMembers(PrintMembers(ms) + t) == Some(t)
    decreases ms, 1
  {
    match ms
    case NoMembers(gap) =>
      ClosingRead(gap, '}', t);
    case Member(a, key, b, c, value, d, rest) =>
      KeyPrint(ms, t);
      SkipsBlanks(c, FromValue(ms, t));
      AfterMemberEnds(ms, t);
      SkipPrint(value, AfterMember(ms, t));
      SkipsBlanks(d, MembersTail(rest) + t);
      SkipMembersTail(rest, t);
  }

  lemma {:induction false} SkipMembersTail(ms: Members, t: string)
    requires MembersOk(ms)
    ensures SkipMembers(MembersTail(ms) + t) == Some(t)
    decreases ms, 2
  {
    SkipPrintMembers(ms, t);
    if ms.Member? {
      assert (MembersTail(ms) + t)[1..] == PrintMembers(ms) + t;
    }
  }

  lemma {:induction false} SkipPrintElems(es: Elems, t: string)
    requires ElemsOk(es)
    ensures SkipElems(PrintElems(es) + t) == Some(t)
    decreases es, 1
  {
    match es
    case NoElems(gap) =>
      ClosingRead(gap, ']', t);
    case Elem(a, value, b, rest) =>
      ElemRead(es, t);
      AfterElemEnds(es, t);
      SkipPrint(value, AfterElem(es, t));
      SkipsBlanks(b, ElemsTail(rest) + t);
      SkipElemsTail(rest, t);
  }

  lemma {:induction false} SkipElemsTail(es: Elems, t: string)
    requires ElemsOk(es)
    ensures SkipElems(ElemsTail(es) + t) == Some(t)
    decreases es, 2
  {
    SkipPrintElems(es, t);
    if es.Elem? {
      assert (ElemsTail(es) + t)[1..] == PrintElems(es) + t;
    }
  }

  // ---------------------------------------------------------------------------
  // Malformed strings
  // ---------------------------------------------------------------------------

  /** Without a closing quote there is no string. */
  lemma {:induction false} UnclosedFails(r: string)
    requires forall c <- r :: c != '"'
    ensures Body(r).None?
    decreases |r|
  {
    if r != [] {
      assert r[0] in r;
      if NextChar(r).Some? {
        var k := NextSuffix(r);
        assert forall c <- r[k..] :: c in r;
        UnclosedFails(r[k..]);
      }
    }
  }

  lemma NextSuffix(r: string) returns (k: nat)
    requires r != [] && r[0] != '"' && NextChar(r).Some?
    ensures 1 <= k <= |r| && NextChar(r).value.1 == r[k..]
  {
    k := |r| - |NextChar(r).value.1|;
    if r[0] == '\\' && r[1] == 'u' {
      var t := r[2..];
      assert t[4..] == r[6..];
      if |t| >= 10 { assert t[10..] == r[12..]; }
    }
  }

  /** Half a surrogate pair, or a low half first, is not a character. */
  lemma LoneSurrogateFails(n: nat, upper: bool, t: string)
    requires 0xD800 <= n < 0xE000
    requires n < 0xDC00 ==> |t| < 2 || t[0] != '\\' || t[1] != 'u'
    ensures UnicodeEscape(HexText(n, upper) + t).None?
  {
    HexRead(n, upper, t);
    var x := HexText(n, upper) + t;
    if |t| >= 2 { assert x[4] == t[0] && x[5] == t[1]; }
  }
}
