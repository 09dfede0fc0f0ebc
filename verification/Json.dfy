/** The JSON field scanner and escaper of common/json.rs, on code points.

    The functions read the rest of the input; `Scan` in JsonScan.dfy is the cursor that moves over it
    in place. */
module Json {
  import opened Common
  import opened Seqs

  // ---------------------------------------------------------------------------
  // Escaping
  // ---------------------------------------------------------------------------

  function HexDigit(d: nat): char
    requires d < 16
  {
    "0123456789abcdef"[d]
  }

  function EscapeChar(c: char): string {
    if c == '"' then "\\\""
    else if c == '\\' then "\\\\"
    else if c == '\n' then "\\n"
    else if c == '\r' then "\\r"
    else if c == '\t' then "\\t"
    else if c as int < 0x20 then "\\u00" + [HexDigit(c as int / 16), HexDigit(c as int % 16)]
    else [c]
  }

  function Escape(s: string): string {
    if s == [] then [] else EscapeChar(s[0]) + Escape(s[1..])
  }

  function Quote(s: string): string {
    "\"" + Escape(s) + "\""
  }

  // ---------------------------------------------------------------------------
  // Scanning
  // ---------------------------------------------------------------------------

  predicate IsWs(c: char) {
    c == ' ' || c == '\t' || c == '\n' || c == '\r'
  }

  function SkipWs(r: string): (r': string)
    ensures |r'| <= |r|
  {
    if r != [] && IsWs(r[0]) then SkipWs(r[1..]) else r
  }

  function HexValue(c: char): Option<nat> {
    if '0' <= c <= '9' then Some(c as int - '0' as int)
    else if 'a' <= c <= 'f' then Some(c as int - 'a' as int + 10)
    else if 'A' <= c <= 'F' then Some(c as int - 'A' as int + 10)
    else None
  }

  /** Exactly four hex digits. */
  function Hex4(r: string): (v: Option<nat>)
    ensures v.Some? ==> |r| >= 4 && v.value < 0x1_0000
  {
    if |r| < 4 then None
    else
      var a, b, c, d := HexValue(r[0]), HexValue(r[1]), HexValue(r[2]), HexValue(r[3]);
      if a.None? || b.None? || c.None? || d.None? then None
      else HexValueBound(r[0]); HexValueBound(r[1]); HexValueBound(r[2]); HexValueBound(r[3]);
           Some(((a.value * 16 + b.value) * 16 + c.value) * 16 + d.value)
  }

  lemma HexValueBound(c: char)
    ensures HexValue(c).Some? ==> HexValue(c).value < 16
  {
  }

  predicate IsScalarValue(cp: nat) {
    cp < 0xD800 || 0xE000 <= cp < 0x11_0000
  }

  /** The code point after `\u`, and what follows it; a high surrogate needs its low half. */
  function UnicodeEscape(r: string): (v: Option<(char, string)>)
    ensures v.Some? ==> |v.value.1| < |r|
  {
    var hi := Hex4(r);
    if hi.None? then None
    else if 0xD800 <= hi.value < 0xDC00 then
      if |r| < 6 || r[4] != '\\' || r[5] != 'u' then None
      else
        var lo := Hex4(r[6..]);
        if lo.None? || !(0xDC00 <= lo.value < 0xE000) then None
        else Some(((0x10000 + (hi.value - 0xD800) * 0x400 + (lo.value - 0xDC00)) as char, r[10..]))
    else if IsScalarValue(hi.value) then Some((hi.value as char, r[4..]))
    else None
  }

  function SimpleEscape(e: char): Option<char> {
    if e == '"' then Some('"')
    else if e == '\\' then Some('\\')
    else if e == '/' then Some('/')
    else if e == 'b' then Some(8 as char)
    else if e == 'f' then Some(12 as char)
    else if e == 'n' then Some('\n')
    else if e == 'r' then Some('\r')
    else if e == 't' then Some('\t')
    else None
  }

  /** One (possibly escaped) character of a string body, and what follows it. */
  function NextChar(r: string): (v: Option<(char, string)>)
    requires r != [] && r[0] != '"'
    ensures v.Some? ==> |v.value.1| < |r|
  {
    if r[0] != '\\' then Some((r[0], r[1..]))
    else if |r| < 2 then None
    else if r[1] == 'u' then UnicodeEscape(r[2..])
    else if SimpleEscape(r[1]).Some? then Some((SimpleEscape(r[1]).value, r[2..]))
    else None
  }

  /** The decoded rest of a string, and what follows its closing quote. */
  function Body(r: string): (v: Option<(string, string)>)
    ensures v.Some? ==> |v.value.1| < |r|
    decreases |r|
  {
    if r == [] then None
    else if r[0] == '"' then Some(([], r[1..]))
    else
      var c := NextChar(r);
      if c.None? then None
      else
        var rest := Body(c.value.1);
        if rest.None? then None else Some(([c.value.0] + rest.value.0, rest.value.1))
  }

  function Str(r: string): (v: Option<(string, string)>)
    ensures v.Some? ==> |v.value.1| < |r|
  {
    if r == [] || r[0] != '"' then None else Body(r[1..])
  }

  /** A string, a colon, and what follows them. */
  function Key(r: string): (v: Option<(string, string)>)
    ensures v.Some? ==> |v.value.1| < |r|
  {
    var k := Str(r);
    if k.None? then None
    else
      var c := SkipWs(k.value.1);
      if c == [] || c[0] != ':' then None else Some((k.value.0, c[1..]))
  }

  predicate EndsScalar(c: char) {
    c == ',' || c == '}' || c == ']' || IsWs(c)
  }

  function ScalarRest(r: string): (r': string)
    ensures |r'| <= |r|
  {
    if r != [] && !EndsScalar(r[0]) then ScalarRest(r[1..]) else r
  }

  /** What follows one value. */
  function Skip(r0: string): (v: Option<string>)
    ensures v.Some? ==> |v.value| < |r0|
    decreases |r0|, 2
  {
    var r := SkipWs(r0);
    if r == [] then None
    else if r[0] == '"' then
      var s := Str(r);
      if s.None? then None else Some(s.value.1)
    else if r[0] == '{' then SkipMembers(r[1..])
    else if r[0] == '[' then SkipElems(r[1..])
    else if |ScalarRest(r)| == |r| then None
    else Some(ScalarRest(r))
  }

  function SkipMembers(r0: string): (v: Option<string>)
    ensures v.Some? ==> |v.value| < |r0|
    decreases |r0|, 1
  {
    var r := SkipWs(r0);
    if r == [] then None
    else if r[0] == '}' then Some(r[1..])
    else if r[0] == ',' then SkipMembers(r[1..])
    else
      var k := Key(r);
      if k.None? then None
      else
        var v := Skip(k.value.1);
        if v.None? then None else SkipMembers(v.value)
  }

  function SkipElems(r0: string): (v: Option<string>)
    ensures v.Some? ==> |v.value| < |r0|
    decreases |r0|, 3
  {
    var r := SkipWs(r0);
    if r == [] then None
    else if r[0] == ']' then Some(r[1..])
    else if r[0] == ',' then SkipElems(r[1..])
    else
      var v := Skip(r);
      if v.None? then None else SkipElems(v.value)
  }

  /** The text from the value of the first `"key" :` token on. */
  function Find(r: string, key: string): Option<string>
    decreases |r|
  {
    if r == [] then None
    else if r[0] != '"' then Find(r[1..], key)
    else
      var s := Str(r);
      if s.None? then None
      else
        var c := SkipWs(s.value.1);
        if c != [] && c[0] == ':' && s.value.0 == key then Some(SkipWs(c[1..]))
        else Find(c, key)
  }

  datatype Kind = KStr | KScalar | KObject | KArray | KNull

  function KindOf(first: char, raw: string): Kind {
    if first == '"' then KStr
    else if first == '{' then KObject
    else if first == '[' then KArray
    else if first == 'n' && raw == "null" then KNull
    else KScalar
  }

  /** Kind, text and start of the value of the first `key`. */
  datatype Span = Span(kind: Kind, raw: string, start: string)

  function SpanOf(blob: string, key: string): Option<Span> {
    var r := Find(blob, key);
    if r.None? || r.value == [] then None
    else
      var v := Skip(r.value);
      if v.None? then None
      else
        var raw := r.value[..|r.value| - |v.value|];
        Some(Span(KindOf(r.value[0], raw), raw, r.value))
  }

  function JsonStr(blob: string, key: string): Option<string> {
    var s := SpanOf(blob, key);
    if s.None? then None
    else match s.value.kind
      case KStr => (var t := Str(s.value.start); if t.None? then None else Some(t.value.0))
      case KScalar => Some(s.value.raw)
      case _ => None
  }

  const OBJECT_CAP: nat := 64
  const ARRAY_CAP: nat := 32

  function Put(out: map<string, string>, k: string, v: string): map<string, string> {
    if k != "" && |out| < OBJECT_CAP then out[k := v] else out
  }

  /** The text a map entry gets for a value: strings decoded once, null as the empty text. */
  function EntryText(r: string, raw: string): Option<string> {
    if r != [] && r[0] == '"' then
      var t := Str(r);
      if t.None? then None else Some(t.value.0)
    else if raw == "null" then Some("")
    else Some(raw)
  }

  /** One member of an object: its key, its text (none for a container) and what follows. */
  datatype Field = Field(key: string, text: Option<string>, rest: string)

  function FieldValue(key: string, v: string): (f: Option<Field>)
    ensures f.Some? ==> |f.value.rest| < |v|
  {
    var e := Skip(v);
    if v == [] || e.None? then None
    else if v[0] == '{' || v[0] == '[' then Some(Field(key, None, e.value))
    else
      var text := EntryText(v, v[..|v| - |e.value|]);
      if text.None? then None else Some(Field(key, text, e.value))
  }

  function ReadField(r: string): (f: Option<Field>)
    ensures f.Some? ==> |f.value.rest| < |r|
  {
    var k := Key(r);
    if k.None? then None else FieldValue(k.value.0, SkipWs(k.value.1))
  }

  function Record(out: map<string, string>, f: Field): map<string, string> {
    if f.text.None? then out else Put(out, f.key, f.text.value)
  }

  function ObjEntries(r0: string, out: map<string, string>): map<string, string>
    decreases |r0|
  {
    var r := SkipWs(r0);
    if r == [] || r[0] == '}' then out
    else if r[0] == ',' then ObjEntries(r[1..], out)
    else
      var f := ReadField(r);
      if f.None? then out else ObjEntries(f.value.rest, Record(out, f.value))
  }

  function JsonObj(blob: string, key: string): map<string, string> {
    var s := SpanOf(blob, key);
    if s.None? || s.value.kind != KObject then map[] else ObjEntries(s.value.start[1..], map[])
  }

  function ArrEntries(r0: string, room: nat): seq<string>
    decreases |r0|
  {
    var r := SkipWs(r0);
    if r == [] || r[0] == ']' then []
    else if r[0] == ',' then ArrEntries(r[1..], room)
    else
      var e := Skip(r);
      if e.None? then []
      else
        var raw := r[..|r| - |e.value|];
        if room <= 1 then [raw] else [raw] + ArrEntries(e.value, room - 1)
  }

  function JsonArr(blob: string, key: string): seq<string> {
    var s := SpanOf(blob, key);
    if s.None? || s.value.kind != KArray then [] else ArrEntries(s.value.start[1..], ARRAY_CAP)
  }
}
