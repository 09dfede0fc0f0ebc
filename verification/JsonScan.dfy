/** The cursor of common/json.rs and the accessors built on it, proved to compute the functions of
    module `Json` on the rest of the input. */
module JsonScan {
  import opened Common
  import opened Seqs
  import J = Json
  import opened Json

  lemma Next(b: string, i: nat)
    requires i < |b|
    ensures b[i..] != [] && b[i..][0] == b[i] && b[i..][1..] == b[i + 1..]
  {
  }

  class Scan {
    const b: string
    var i: nat

    ghost predicate Valid()
      reads this
    {
      i <= |b|
    }

    ghost function Rest(): string
      requires Valid()
      reads this
    {
      b[i..]
    }

    constructor (text: string, start: nat)
      requires start <= |text|
      ensures b == text && i == start && Valid()
    {
      b, i := text, start;
    }

    method SkipWs()
      requires Valid()
      modifies this
      ensures Valid() && i >= old(i) && Rest() == J.SkipWs(old(Rest()))
    {
      while i < |b| && IsWs(b[i])
        invariant Valid() && i >= old(i) && J.SkipWs(Rest()) == J.SkipWs(old(Rest()))
      {
        Next(b, i);
        i := i + 1;
      }
      if i < |b| { Next(b, i); }
    }

    method Hex4() returns (v: Option<nat>)
      requires Valid()
      modifies this
      ensures Valid() && i >= old(i) && v == J.Hex4(old(Rest()))
      ensures v.Some? ==> i == old(i) + 4
    {
      if i + 4 > |b| {
        return None;
      }
      ghost var r := Rest();
      var k, n := 0, 0;
      while k < 4
        invariant 0 <= k <= 4 && i == old(i) + k && r == b[old(i)..] && old(i) + 4 <= |b|
        invariant forall j | 0 <= j < k :: HexValue(r[j]).Some?
        invariant n == HexPrefix(r, k)
      {
        assert r[k] == b[i];
        var d := HexValue(b[i]);
        if d.None? {
          HexStops(r, k);
          return None;
        }
        n := n * 16 + d.value;
        i := i + 1;
        k := k + 1;
      }
      HexAll(r);
      return Some(n);
    }

    method String() returns (s: Option<string>)
      requires Valid()
      modifies this
      ensures Valid() && i >= old(i)
      ensures s.Some? <==> Str(old(Rest())).Some?
      ensures s.Some? ==> s.value == Str(old(Rest())).value.0 && Rest() == Str(old(Rest())).value.1
    {
      if i == |b| || b[i] != '"' {
        return None;
      }
      Next(b, i);
      i := i + 1;
      ghost var start := Rest();
      var out := "";
      while true
        invariant Valid() && i > old(i)
        invariant BodyGoes(start, out, Rest())
        decreases |b| - i
      {
        if i == |b| {
          return None;
        }
        Next(b, i);
        var c := b[i];
        if c == '"' {
          i := i + 1;
          return Some(out);
        }
        ghost var here := Rest();
        var x := Char();
        if x.None? {
          return None;
        }
        BodyStep(start, out, here);
        out := out + [x.value];
      }
    }

    /** One character of a string body, escaped or not. */
    method Char() returns (x: Option<char>)
      requires Valid() && Rest() != [] && Rest()[0] != '"'
      modifies this
      ensures Valid() && i >= old(i)
      ensures x.Some? <==> NextChar(old(Rest())).Some?
      ensures x.Some? ==> x.value == NextChar(old(Rest())).value.0 && Rest() == NextChar(old(Rest())).value.1 && i > old(i)
    {
      Next(b, i);
      var c := b[i];
      i := i + 1;
      if c != '\\' {
        return Some(c);
      }
      if i == |b| {
        return None;
      }
      Next(b, i);
      var e := b[i];
      i := i + 1;
      assert Rest() == old(Rest())[2..];
      if e == 'u' {
        x := Unicode();
      } else {
        x := SimpleEscape(e);
      }
    }

    method Unicode() returns (x: Option<char>)
      requires Valid()
      modifies this
      ensures Valid() && i >= old(i)
      ensures x.Some? <==> UnicodeEscape(old(Rest())).Some?
      ensures x.Some? ==> x.value == UnicodeEscape(old(Rest())).value.0 && Rest() == UnicodeEscape(old(Rest())).value.1
    {
      ghost var r := Rest();
      var hi := Hex4();
      if hi.None? {
        return None;
      }
      var cp := hi.value;
      assert r[4..] == Rest();
      if 0xD800 <= hi.value < 0xDC00 {
        if i == |b| || b[i] != '\\' {
          return None;
        }
        i := i + 1;
        if i == |b| || b[i] != 'u' {
          return None;
        }
        i := i + 1;
        assert r[6..] == Rest();
        var lo := Hex4();
        if lo.None? || !(0xDC00 <= lo.value < 0xE000) {
          return None;
        }
        assert r[10..] == Rest();
        cp := 0x10000 + (hi.value - 0xD800) * 0x400 + (lo.value - 0xDC00);
      }
      if !IsScalarValue(cp) {
        return None;
      }
      return Some(cp as char);
    }

    /** Past one value; on a malformed one the cursor stops somewhere after its start. */
    method SkipValue() returns (ok: bool)
      requires Valid()
      modifies this
      ensures Valid() && i >= old(i) && Done(ok, Skip(old(Rest())), Rest())
      ensures ok ==> i > old(i)
      decreases |b| - i, 1
    {
      SkipWs();
      if i == |b| {
        return false;
      }
      Next(b, i);
      if b[i] == '"' {
        var s := String();
        return s.Some?;
      }
      if b[i] == '{' {
        i := i + 1;
        ok := SkipObject();
        return;
      }
      if b[i] == '[' {
        i := i + 1;
        ok := SkipArray();
        return;
      }
      var start := i;
      ghost var r := Rest();
      while i < |b| && !EndsScalar(b[i])
        invariant Valid() && i >= start && ScalarRest(Rest()) == ScalarRest(r)
      {
        Next(b, i);
        i := i + 1;
      }
      if i < |b| { Next(b, i); }
      return i != start;
    }

    /** A key and its colon. */
    method ReadKey() returns (k: Option<string>)
      requires Valid()
      modifies this
      ensures Valid() && i >= old(i)
      ensures k.Some? <==> Key(old(Rest())).Some?
      ensures k.Some? ==> i > old(i) && Key(old(Rest())).value == (k.value, Rest())
    {
      k := String();
      if k.None? {
        return;
      }
      SkipWs();
      if i == |b| || b[i] != ':' {
        return None;
      }
      Next(b, i);
      i := i + 1;
    }

    /** One turn of the loop over an object's members: a comma, a member or the closing brace. */
    method MemberTurn() returns (turn: Turn)
      requires Valid()
      modifies this
      ensures Valid() && i >= old(i)
      ensures turn == Closed ==> SkipMembers(old(Rest())) == Some(Rest())
      ensures turn == Broken ==> SkipMembers(old(Rest())).None?
      ensures turn == Again ==> i > old(i) && SkipMembers(Rest()) == SkipMembers(old(Rest()))
      decreases |b| - i, 2
    {
      SkipWs();
      if i == |b| {
        return Broken;
      }
      Next(b, i);
      if b[i] == '}' {
        i := i + 1;
        return Closed;
      }
      if b[i] == ',' {
        i := i + 1;
        return Again;
      }
      var k := ReadKey();
      if k.None? {
        return Broken;
      }
      var ok := SkipValue();
      return if ok then Again else Broken;
    }

    /** The loop of an object, after its opening brace. */
    method SkipObject() returns (ok: bool)
      requires Valid()
      modifies this
      ensures Valid() && i >= old(i) && Done(ok, SkipMembers(old(Rest())), Rest())
      decreases |b| - i, 3
    {
      var turn := Again;
      while turn == Again
        invariant Valid() && i >= old(i)
        invariant turn == Again ==> SkipMembers(Rest()) == SkipMembers(old(Rest()))
        invariant turn == Closed ==> SkipMembers(old(Rest())) == Some(Rest())
        invariant turn == Broken ==> SkipMembers(old(Rest())).None?
        decreases |b| - i, turn == Again
      {
        turn := MemberTurn();
      }
      return turn == Closed;
    }

    method ElemTurn() returns (turn: Turn)
      requires Valid()
      modifies this
      ensures Valid() && i >= old(i)
      ensures turn == Closed ==> SkipElems(old(Rest())) == Some(Rest())
      ensures turn == Broken ==> SkipElems(old(Rest())).None?
      ensures turn == Again ==> i > old(i) && SkipElems(Rest()) == SkipElems(old(Rest()))
      decreases |b| - i, 2
    {
      SkipWs();
      if i == |b| {
        return Broken;
      }
      Next(b, i);
      if b[i] == ']' {
        i := i + 1;
        return Closed;
      }
      if b[i] == ',' {
        i := i + 1;
        return Again;
      }
      var ok := SkipValue();
      return if ok then Again else Broken;
    }

    /** The loop of an array, after its opening bracket. */
    method SkipArray() returns (ok: bool)
      requires Valid()
      modifies this
      ensures Valid() && i >= old(i) && Done(ok, SkipElems(old(Rest())), Rest())
      decreases |b| - i, 3
    {
      var turn := Again;
      while turn == Again
        invariant Valid() && i >= old(i)
        invariant turn == Again ==> SkipElems(Rest()) == SkipElems(old(Rest()))
        invariant turn == Closed ==> SkipElems(old(Rest())) == Some(Rest())
        invariant turn == Broken ==> SkipElems(old(Rest())).None?
        decreases |b| - i, turn == Again
      {
        turn := ElemTurn();
      }
      return turn == Closed;
    }
  }

  datatype Turn = Again | Closed | Broken

  /** A call succeeds exactly when the function does, and then stands where its rest begins. */
  ghost predicate Done(ok: bool, v: Option<string>, rest: string) {
    (ok <==> v.Some?) && (ok ==> rest == v.value)
  }

  // ---------------------------------------------------------------------------
  // Accessors
  // ---------------------------------------------------------------------------

  lemma FindToken(r: string, key: string)
    requires r != [] && r[0] == '"' && Str(r).Some?
    ensures var c := J.SkipWs(Str(r).value.1);
            Find(r, key) == if c != [] && c[0] == ':' && Str(r).value.0 == key then Some(J.SkipWs(c[1..])) else Find(c, key)
  {
  }

  /** One turn of the key scan: a string token, with its colon if it has one, or any other character. */
  method FindTurn(sc: Scan, key: string) returns (turn: Turn)
    requires sc.Valid() && sc.i < |sc.b|
    modifies sc
    ensures sc.Valid() && (turn == Again ==> sc.i > old(sc.i))
    ensures turn == Closed ==> Find(old(sc.Rest()), key) == Some(sc.Rest())
    ensures turn == Broken ==> Find(old(sc.Rest()), key).None?
    ensures turn == Again ==> Find(sc.Rest(), key) == Find(old(sc.Rest()), key)
  {
    Next(sc.b, sc.i);
    if sc.b[sc.i] != '"' {
      sc.i := sc.i + 1;
      return Again;
    }
    ghost var r := sc.Rest();
    var text := sc.String();
    if text.None? {
      return Broken;
    }
    FindToken(r, key);
    sc.SkipWs();
    if sc.i < |sc.b| && sc.b[sc.i] == ':' && text.value == key {
      Next(sc.b, sc.i);
      sc.i := sc.i + 1;
      sc.SkipWs();
      return Closed;
    }
    return Again;
  }

  method FindValueStart(blob: string, key: string) returns (start: Option<nat>)
    ensures start.Some? <==> Find(blob, key).Some?
    ensures start.Some? ==> start.value <= |blob| && blob[start.value..] == Find(blob, key).value
  {
    var sc := new Scan(blob, 0);
    assert blob[0..] == blob;
    while sc.i < |blob|
      invariant sc.b == blob && sc.Valid() && Find(sc.Rest(), key) == Find(blob, key)
      decreases |blob| - sc.i
    {
      var turn := FindTurn(sc, key);
      if turn != Again {
        return if turn == Closed then Some(sc.i) else None;
      }
    }
    return None;
  }

  method FindSpan(blob: string, key: string) returns (s: Option<(Kind, nat, nat)>)
    ensures s.Some? <==> SpanOf(blob, key).Some?
    ensures s.Some? ==> s.value.1 < s.value.2 <= |blob|
                        && SpanOf(blob, key).value == Span(s.value.0, blob[s.value.1..s.value.2], blob[s.value.1..])
  {
    var start := FindValueStart(blob, key);
    if start.None? || start.value == |blob| {
      return None;
    }
    var sc := new Scan(blob, start.value);
    var ok := sc.SkipValue();
    if !ok {
      return None;
    }
    ghost var r := blob[start.value..];
    assert r[..|r| - |sc.Rest()|] == blob[start.value..sc.i];
    Next(blob, start.value);
    return Some((KindOf(blob[start.value], blob[start.value..sc.i]), start.value, sc.i));
  }

  method ReadStr(blob: string, key: string) returns (s: Option<string>)
    ensures s == JsonStr(blob, key)
  {
    var span := FindSpan(blob, key);
    if span.None? {
      return None;
    }
    var (kind, start, end) := span.value;
    if kind == KStr {
      var sc := new Scan(blob, start);
      s := sc.String();
      return;
    }
    return if kind == KScalar then Some(blob[start..end]) else None;
  }

  lemma ObjFieldStep(r: string, out: map<string, string>)
    requires r != [] && !IsWs(r[0]) && r[0] != '}' && r[0] != ','
    ensures var f := ReadField(r);
            ObjEntries(r, out) == if f.None? then out else ObjEntries(f.value.rest, Record(out, f.value))
  {
  }

  lemma ObjWs(r: string, out: map<string, string>)
    ensures ObjEntries(J.SkipWs(r), out) == ObjEntries(r, out)
    ensures J.SkipWs(r) != [] ==> !IsWs(J.SkipWs(r)[0])
  {
    WsTwice(r);
  }

  lemma {:induction false} WsTwice(r: string)
    ensures J.SkipWs(J.SkipWs(r)) == J.SkipWs(r) && (J.SkipWs(r) != [] ==> !IsWs(J.SkipWs(r)[0]))
  {
    if r != [] && IsWs(r[0]) { WsTwice(r[1..]); }
  }

  /** One turn of the loop of `json_obj`. */
  method ObjTurn(sc: Scan, out: map<string, string>) returns (turn: Turn, out': map<string, string>)
    requires sc.Valid()
    modifies sc
    ensures sc.Valid() && sc.i >= old(sc.i)
    ensures turn == Again ==> sc.i > old(sc.i) && ObjEntries(old(sc.Rest()), out) == ObjEntries(sc.Rest(), out')
    ensures turn != Again ==> ObjEntries(old(sc.Rest()), out) == out'
  {
    out' := out;
    ObjWs(sc.Rest(), out);
    sc.SkipWs();
    if sc.i == |sc.b| || sc.b[sc.i] == '}' {
      return Closed, out';
    }
    Next(sc.b, sc.i);
    if sc.b[sc.i] == ',' {
      sc.i := sc.i + 1;
      return Again, out';
    }
    ghost var here := sc.Rest();
    ObjFieldStep(here, out);
    var f := ReadMember(sc);
    if f.None? {
      return Broken, out';
    }
    if f.value.1.Some? && f.value.0 != "" && |out| < OBJECT_CAP {
      out' := out[f.value.0 := f.value.1.value];
    }
    turn := Again;
  }

  method ReadObj(blob: string, key: string) returns (out: map<string, string>)
    ensures out == JsonObj(blob, key)
  {
    out := map[];
    var span := FindSpan(blob, key);
    if span.None? || span.value.0 != KObject {
      return;
    }
    var start := span.value.1;
    var sc := new Scan(blob, start + 1);
    Next(blob, start);
    ghost var goal := ObjEntries(sc.Rest(), map[]);
    assert goal == JsonObj(blob, key);
    var turn := Again;
    while turn == Again
      invariant sc.b == blob && sc.Valid()
      invariant if turn == Again then ObjEntries(sc.Rest(), out) == goal else out == goal
      decreases |blob| - sc.i, turn == Again
    {
      turn, out := ObjTurn(sc, out);
    }
  }

  /** One member: its key and its text, none for a container. */
  method ReadMember(sc: Scan) returns (f: Option<(string, Option<string>)>)
    requires sc.Valid()
    modifies sc
    ensures sc.Valid() && sc.i >= old(sc.i)
    ensures f.Some? <==> ReadField(old(sc.Rest())).Some?
    ensures f.Some? ==> sc.i > old(sc.i) && ReadField(old(sc.Rest())).value == Field(f.value.0, f.value.1, sc.Rest())
  {
    var k := sc.ReadKey();
    if k.None? {
      return None;
    }
    sc.SkipWs();
    if sc.i == |sc.b| {
      return None;
    }
    var start := sc.i;
    var first := sc.b[start];
    ghost var v := sc.Rest();
    Next(sc.b, start);
    var ok := sc.SkipValue();
    if !ok {
      return None;
    }
    if first == '{' || first == '[' {
      return Some((k.value, None));
    }
    var raw := sc.b[start..sc.i];
    assert v[..|v| - |sc.Rest()|] == raw;
    if first == '"' {
      var inner := new Scan(sc.b, start);
      var t := inner.String();
      return if t.None? then None else Some((k.value, t));
    }
    return Some((k.value, Some(if raw == "null" then "" else raw)));
  }

  /** One turn of the loop of `json_arr_objects`: the element read, if there was one. */
  method ArrTurn(sc: Scan, ghost room: nat) returns (turn: Turn, elem: seq<string>)
    requires sc.Valid() && room >= 1
    modifies sc
    ensures sc.Valid() && sc.i >= old(sc.i) && |elem| <= 1
    ensures turn != Again ==> elem == [] && ArrEntries(old(sc.Rest()), room) == []
    ensures turn == Again ==> sc.i > old(sc.i)
    ensures turn == Again && room == |elem| ==> ArrEntries(old(sc.Rest()), room) == elem
    ensures turn == Again && room > |elem| ==> ArrEntries(old(sc.Rest()), room) == elem + ArrEntries(sc.Rest(), room - |elem|)
  {
    sc.SkipWs();
    if sc.i == |sc.b| || sc.b[sc.i] == ']' {
      return Closed, [];
    }
    Next(sc.b, sc.i);
    if sc.b[sc.i] == ',' {
      sc.i := sc.i + 1;
      return Again, [];
    }
    var start := sc.i;
    ghost var r := sc.Rest();
    var ok := sc.SkipValue();
    if !ok {
      return Broken, [];
    }
    assert r[..|r| - |sc.Rest()|] == sc.b[start..sc.i];
    return Again, [sc.b[start..sc.i]];
  }

  /** `out` and what the rest will still give make up the goal. */
  ghost predicate ArrGoes(goal: seq<string>, out: seq<string>, rest: string, cap: nat, turn: Turn) {
    |out| <= cap && if turn == Again && |out| < cap then out + ArrEntries(rest, cap - |out|) == goal else out == goal
  }

  lemma ArrGoesOn(goal: seq<string>, out: seq<string>, elem: seq<string>, here: string, rest: string, cap: nat, turn: Turn)
    requires |out| < cap && ArrGoes(goal, out, here, cap, Again) && |elem| <= 1
    requires turn != Again ==> elem == [] && ArrEntries(here, cap - |out|) == []
    requires turn == Again && cap - |out| == |elem| ==> ArrEntries(here, cap - |out|) == elem
    requires turn == Again && cap - |out| > |elem| ==> ArrEntries(here, cap - |out|) == elem + ArrEntries(rest, cap - |out| - |elem|)
    ensures ArrGoes(goal, out + elem, rest, cap, turn)
  {
    if turn == Again && |out + elem| < cap {
      Assoc(out, elem, ArrEntries(rest, cap - |out| - |elem|));
    }
  }

  method ArrLoop(sc: Scan, cap: nat) returns (out: seq<string>)
    requires sc.Valid() && cap >= 1
    modifies sc
    ensures out == ArrEntries(old(sc.Rest()), cap)
  {
    out := [];
    var turn := Again;
    ghost var goal := ArrEntries(sc.Rest(), cap);
    while turn == Again && |out| < cap
      invariant sc.Valid() && ArrGoes(goal, out, sc.Rest(), cap, turn)
      decreases |sc.b| - sc.i, turn == Again
    {
      ghost var here := sc.Rest();
      var elem;
      turn, elem := ArrTurn(sc, cap - |out|);
      ArrGoesOn(goal, out, elem, here, sc.Rest(), cap, turn);
      out := out + elem;
    }
  }

  method ReadArr(blob: string, key: string) returns (out: seq<string>)
    ensures out == JsonArr(blob, key)
  {
    out := [];
    var span := FindSpan(blob, key);
    if span.Some? && span.value.0 == KArray {
      var start := span.value.1;
      var sc := new Scan(blob, start + 1);
      Next(blob, start);
      out := ArrLoop(sc, ARRAY_CAP);
    }
  }

  method JsonEscape(s: string) returns (o: string)
    ensures o == Escape(s)
  {
    o := "";
    var k := 0;
    while k < |s|
      invariant k <= |s| && o + Escape(s[k..]) == Escape(s)
    {
      Next(s, k);
      o := o + EscapeChar(s[k]);
      k := k + 1;
    }
  }

  // ---------------------------------------------------------------------------
  // Loop steps
  // ---------------------------------------------------------------------------

  function HexPrefix(r: string, k: nat): nat
    requires k <= |r| && forall j | 0 <= j < k :: HexValue(r[j]).Some?
  {
    if k == 0 then 0 else HexPrefix(r, k - 1) * 16 + HexValue(r[k - 1]).value
  }

  lemma HexAll(r: string)
    requires |r| >= 4 && forall j | 0 <= j < 4 :: HexValue(r[j]).Some?
    ensures J.Hex4(r) == Some(HexPrefix(r, 4))
  {
    assert HexPrefix(r, 1) == HexValue(r[0]).value;
    assert HexPrefix(r, 2) == HexValue(r[0]).value * 16 + HexValue(r[1]).value;
    assert HexPrefix(r, 3) == (HexValue(r[0]).value * 16 + HexValue(r[1]).value) * 16 + HexValue(r[2]).value;
  }

  lemma HexStops(r: string, k: nat)
    requires |r| >= 4 && k < 4 && HexValue(r[k]).None?
    ensures J.Hex4(r).None?
  {
    assert k == 0 || k == 1 || k == 2 || k == 3;
  }

  /** `out` is what has been decoded between `start` and `rest`. */
  ghost predicate BodyGoes(start: string, out: string, rest: string) {
    var all, tail := Body(start), Body(rest);
    && (all.Some? <==> tail.Some?)
    && (all.Some? ==> all.value.0 == out + tail.value.0 && all.value.1 == tail.value.1)
  }

  lemma BodyStep(start: string, out: string, rest: string)
    requires BodyGoes(start, out, rest) && rest != [] && rest[0] != '"' && NextChar(rest).Some?
    ensures BodyGoes(start, out + [NextChar(rest).value.0], NextChar(rest).value.1)
  {
  }
}
