/** What the field accessors of common/json.rs return on a document, in terms of the document. */
module JsonLookup {
  import opened Common
  import opened Seqs
  import opened Json
  import opened JsonText

  // ---------------------------------------------------------------------------
  // Lookup is the first member with that key, in pre-order
  // ---------------------------------------------------------------------------

  function Lookup(v: Doc, key: string): Option<Doc>
    decreases v, 0
  {
    match v
    case Object(ms) => LookupMembers(ms, key)
    case Array(es) => LookupElems(es, key)
    case _ => None
  }

  function LookupMembers(ms: Members, key: string): Option<Doc>
    decreases ms, 0
  {
    match ms
    case NoMembers(_) => None
    case Member(_, k, _, _, value, _, rest) =>
      if Value(k) == key then Some(value)
      else
        var inner := Lookup(value, key);
        if inner.Some? then inner else LookupMembers(rest, key)
  }

  function LookupElems(es: Elems, key: string): Option<Doc>
    decreases es, 0
  {
    match es
    case NoElems(_) => None
    case Elem(_, value, _, rest) =>
      var inner := Lookup(value, key);
      if inner.Some? then inner else LookupElems(rest, key)
  }

  /** What may follow a value in a document. */
  ghost predicate Follows(t: string) {
    Ends(t) && (SkipWs(t) != [] ==> SkipWs(t)[0] != ':')
  }

  /** The scan of `text` finds `found`, or goes on with `t` when there is nothing to find. */
  ghost predicate Finds(text: string, t: string, key: string, found: Option<Doc>) {
    match found
    case None => Find(text, key) == Find(t, key)
    case Some(v) => DocOk(v) && exists u | Ends(u) :: Find(text, key) == Some(Print(v) + u)
  }

  lemma {:induction false} FindPast(w: string, t: string, key: string)
    requires forall c <- w :: c != '"'
    ensures Find(w + t, key) == Find(t, key)
  {
    if w != [] {
      assert w[0] in w && forall c <- w[1..] :: c in w;
      assert (w + t)[1..] == w[1..] + t;
      FindPast(w[1..], t, key);
    } else {
      assert w + t == t;
    }
  }

  lemma {:induction false} FindSkipsWs(t: string, key: string)
    ensures Find(SkipWs(t), key) == Find(t, key)
  {
    if t != [] && IsWs(t[0]) {
      FindSkipsWs(t[1..], key);
    }
  }

  lemma FindText(tok: Token, t: string, key: string)
    requires TokenOk(tok) && Follows(t)
    ensures Find(Quoted(tok) + t, key) == Find(t, key)
  {
    QuotedStarts(tok, t);
    QuotedRead(tok, t);
    FindSkipsWs(t, key);
  }

  lemma AfterMemberFollows(ms: Members, t: string)
    requires MembersOk(ms) && ms.Member?
    ensures Follows(AfterMember(ms, t))
  {
    AfterMemberEnds(ms, t);
    SkipBlank(ms.afterValue, MembersTail(ms.rest) + t);
    if ms.rest.NoMembers? {
      assert PrintMembers(ms.rest) == ms.rest.gap + "}";
      ClosingRead(ms.rest.gap, '}', t);
    }
  }

  lemma AfterElemFollows(es: Elems, t: string)
    requires ElemsOk(es) && es.Elem?
    ensures Follows(AfterElem(es, t))
  {
    AfterElemEnds(es, t);
    SkipBlank(es.after, ElemsTail(es.rest) + t);
    if es.rest.NoElems? {
      assert PrintElems(es.rest) == es.rest.gap + "]";
      ClosingRead(es.rest.gap, ']', t);
    }
  }

  /** The scan goes on unchanged past a prefix without quotes. */
  lemma FindsPast(w: string, text: string, t: string, key: string, found: Option<Doc>)
    requires (forall c <- w :: c != '"') && Finds(text, t, key, found)
    ensures Finds(w + text, t, key, found)
  {
    FindPast(w, text, key);
  }

  lemma {:induction false} FindPrint(v: Doc, t: string, key: string)
    requires DocOk(v) && Follows(t)
    ensures Finds(Print(v) + t, t, key, Lookup(v, key))
    decreases v, 0
  {
    match v
    case Text(tok) => FindText(tok, t, key);
    case Scalar(raw) => FindPast(raw, t, key);
    case Object(ms) =>
      FindMembers(ms, t, key);
      FindsPast("{", PrintMembers(ms) + t, t, key, Lookup(v, key));
      Assoc("{", PrintMembers(ms), t);
    case Array(es) =>
      FindElems(es, t, key);
      FindsPast("[", PrintElems(es) + t, t, key, Lookup(v, key));
      Assoc("[", PrintElems(es), t);
  }

  /** At a key: found there, or the scan goes on inside the value. */
  lemma FindAtKey(ms: Members, t: string, key: string)
    requires MembersOk(ms) && ms.Member?
    ensures Find(PrintMembers(ms) + t, key)
         == if Value(ms.key) == key then Some(FromValue(ms, t)) else Find(FromValue(ms, t), key)
  {
    MemberRead(ms, t);
    FindSkipsWs(PrintMembers(ms) + t, key);
    FindPast(ms.beforeValue, FromValue(ms, t), key);
  }

  lemma {:induction false} FindMembers(ms: Members, t: string, key: string)
    requires MembersOk(ms)
    ensures Finds(PrintMembers(ms) + t, t, key, LookupMembers(ms, key))
    decreases ms, 1
  {
    match ms
    case NoMembers(gap) =>
      FindPast(gap + "}", t, key);
    case Member(a, k, b, c, value, d, rest) =>
      FindAtKey(ms, t, key);
      AfterMemberFollows(ms, t);
      if Value(k) == key {
        assert Ends(AfterMember(ms, t));
      } else {
        FindPrint(value, AfterMember(ms, t), key);
        if Lookup(value, key).None? {
          FindMembersTail(rest, t, key);
          FindsPast(d, MembersTail(rest) + t, t, key, LookupMembers(rest, key));
        }
      }
  }

  lemma {:induction false} FindMembersTail(ms: Members, t: string, key: string)
    requires MembersOk(ms)
    ensures Finds(MembersTail(ms) + t, t, key, LookupMembers(ms, key))
    decreases ms, 2
  {
    FindMembers(ms, t, key);
    if ms.Member? {
      FindsPast(",", PrintMembers(ms) + t, t, key, LookupMembers(ms, key));
      Assoc(",", PrintMembers(ms), t);
    }
  }

  lemma {:induction false} FindElems(es: Elems, t: string, key: string)
    requires ElemsOk(es)
    ensures Finds(PrintElems(es) + t, t, key, LookupElems(es, key))
    decreases es, 1
  {
    match es
    case NoElems(gap) =>
      FindPast(gap + "]", t, key);
    case Elem(a, value, b, rest) =>
      ElemsText(es, t);
      AfterElemFollows(es, t);
      FindPast(a, Print(value) + AfterElem(es, t), key);
      FindPrint(value, AfterElem(es, t), key);
      if Lookup(value, key).None? {
        FindElemsTail(rest, t, key);
        FindsPast(b, ElemsTail(rest) + t, t, key, LookupElems(rest, key));
      }
  }

  lemma {:induction false} FindElemsTail(es: Elems, t: string, key: string)
    requires ElemsOk(es)
    ensures Finds(ElemsTail(es) + t, t, key, LookupElems(es, key))
    decreases es, 2
  {
    FindElems(es, t, key);
    if es.Elem? {
      FindsPast(",", PrintElems(es) + t, t, key, LookupElems(es, key));
      Assoc(",", PrintElems(es), t);
    }
  }

  // ---------------------------------------------------------------------------
  // The accessors
  // ---------------------------------------------------------------------------

  function KindOfDoc(v: Doc): Kind {
    match v
    case Text(_) => KStr
    case Scalar(raw) => if raw == "null" then KNull else KScalar
    case Object(_) => KObject
    case Array(_) => KArray
  }

  lemma RawText(v: Doc, u: string)
    requires DocOk(v) && Ends(u)
    ensures var x := Print(v) + u; Skip(x) == Some(u) && x[..|x| - |u|] == Print(v)
  {
    SkipPrint(v, u);
  }

  /** A found value has the kind, the exact text and the start of the document's value. */
  lemma SpanPrint(v: Doc, key: string)
    requires DocOk(v)
    ensures var found, s := Lookup(v, key), SpanOf(Print(v), key);
            && (found.None? <==> s.None?)
            && (found.Some? ==> DocOk(found.value) && s.value.kind == KindOfDoc(found.value) && s.value.raw == Print(found.value)
                                && exists u | Ends(u) :: s.value.start == Print(found.value) + u)
  {
    FindPrint(v, "", key);
    assert Print(v) + "" == Print(v);
    var found := Lookup(v, key);
    if found.Some? {
      var u :| Ends(u) && Find(Print(v), key) == Some(Print(found.value) + u);
      RawText(found.value, u);
      PrintStarts(found.value);
    }
  }

  /** `json_str`: the decoded string or the scalar's text; nothing for null and containers. */
  lemma JsonStrPrint(v: Doc, key: string)
    requires DocOk(v)
    ensures JsonStr(Print(v), key) ==
            match Lookup(v, key)
            case Some(Text(t)) => Some(Value(t))
            case Some(Scalar(raw)) => if raw == "null" then None else Some(raw)
            case _ => None
  {
    SpanPrint(v, key);
    var found := Lookup(v, key);
    if found.Some? && found.value.Text? {
      var s := SpanOf(Print(v), key).value;
      var u :| Ends(u) && s.start == Print(found.value) + u;
      QuotedRead(found.value.t, u);
    }
  }

  /** The entries a flat map can hold: non-empty keys with a string or scalar value. */
  function Entry(key: Token, value: Doc): seq<(string, string)> {
    if Value(key) == "" || FieldText(value).None? then [] else [(Value(key), FieldText(value).value)]
  }

  function Entries(ms: Members): seq<(string, string)> {
    match ms
    case NoMembers(_) => []
    case Member(_, key, _, _, value, _, rest) => Entry(key, value) + Entries(rest)
  }

  /** Entries put one after another, the later of two equal keys winning, until the map is full. */
  function Filled(out: map<string, string>, es: seq<(string, string)>): map<string, string>
    decreases |es|
  {
    if es == [] then out else Filled(Put(out, es[0].0, es[0].1), es[1..])
  }

  lemma ObjEntriesBlank(w: string, r: string, out: map<string, string>)
    requires Blank(w)
    ensures ObjEntries(w + r, out) == ObjEntries(r, out)
  {
    SkipBlank(w, r);
  }

  lemma EntriesComma(r: string, out: map<string, string>, room: nat)
    ensures ObjEntries("," + r, out) == ObjEntries(r, out) && ArrEntries("," + r, room) == ArrEntries(r, room)
  {
    assert ("," + r)[1..] == r;
  }

  function FieldText(v: Doc): Option<string> {
    match v
    case Text(t) => Some(Value(t))
    case Scalar(raw) => Some(if raw == "null" then "" else raw)
    case _ => None
  }

  lemma FieldValuePrint(key: string, v: Doc, u: string)
    requires DocOk(v) && Ends(u)
    ensures FieldValue(key, Print(v) + u) == Some(Field(key, FieldText(v), u))
  {
    PrintStarts(v);
    RawText(v, u);
    if v.Text? {
      QuotedRead(v.t, u);
    }
  }

  lemma ReadFieldPrint(ms: Members, t: string)
    requires MembersOk(ms) && ms.Member?
    ensures ReadField(SkipWs(PrintMembers(ms) + t)) == Some(Field(Value(ms.key), FieldText(ms.value), AfterMember(ms, t)))
  {
    KeyPrint(ms, t);
    SkipBlank(ms.beforeValue, FromValue(ms, t));
    SkipStarts(ms.value, AfterMember(ms, t));
    AfterMemberEnds(ms, t);
    FieldValuePrint(Value(ms.key), ms.value, AfterMember(ms, t));
  }

  lemma ObjEntriesStep(ms: Members, t: string, out: map<string, string>)
    requires MembersOk(ms) && ms.Member?
    ensures ObjEntries(PrintMembers(ms) + t, out)
         == ObjEntries(AfterMember(ms, t), Filled(out, Entry(ms.key, ms.value)))
  {
    KeyPrint(ms, t);
    ReadFieldPrint(ms, t);
    EntryFilled(ms.key, ms.value, AfterMember(ms, t), out);
  }

  lemma EntryFilled(key: Token, v: Doc, u: string, out: map<string, string>)
    ensures Record(out, Field(Value(key), FieldText(v), u)) == Filled(out, Entry(key, v))
  {
    var es := Entry(key, v);
    if es != [] {
      assert es[1..] == [];
    }
  }

  lemma {:induction false} FilledConcat(out: map<string, string>, a: seq<(string, string)>, b: seq<(string, string)>)
    ensures Filled(out, a + b) == Filled(Filled(out, a), b)
    decreases |a|
  {
    if a == [] {
      assert a + b == b;
    } else {
      assert (a + b)[1..] == a[1..] + b;
      FilledConcat(Put(out, a[0].0, a[0].1), a[1..], b);
    }
  }

  lemma {:induction false} ObjEntriesPrint(ms: Members, t: string, out: map<string, string>)
    requires MembersOk(ms)
    ensures ObjEntries(PrintMembers(ms) + t, out) == Filled(out, Entries(ms))
    ensures ObjEntries(MembersTail(ms) + t, out) == Filled(out, Entries(ms))
  {
    match ms
    case NoMembers(gap) =>
      ClosingRead(gap, '}', t);
    case Member(_, key, _, _, value, d, rest) =>
      var out' := Filled(out, Entry(key, value));
      ObjEntriesStep(ms, t, out);
      ObjEntriesBlank(d, MembersTail(rest) + t, out');
      ObjEntriesPrint(rest, t, out');
      FilledConcat(out, Entry(key, value), Entries(rest));
      Assoc(",", PrintMembers(ms), t);
      EntriesComma(PrintMembers(ms) + t, out, 0);
  }

  lemma ObjectAt(ms: Members, u: string, start: string, out: map<string, string>)
    requires MembersOk(ms) && start == Print(Object(ms)) + u
    ensures start != [] && ObjEntries(start[1..], out) == Filled(out, Entries(ms))
  {
    assert start[1..] == PrintMembers(ms) + u;
    ObjEntriesPrint(ms, u, out);
  }

  /** `json_obj`: the flat entries of the object found, nothing for any other value. */
  lemma JsonObjPrint(v: Doc, key: string)
    requires DocOk(v)
    ensures JsonObj(Print(v), key) ==
            match Lookup(v, key)
            case Some(Object(ms)) => Filled(map[], Entries(ms))
            case _ => map[]
  {
    SpanPrint(v, key);
    var found := Lookup(v, key);
    if found.Some? && found.value.Object? {
      var s := SpanOf(Print(v), key).value;
      var u :| Ends(u) && s.start == Print(found.value) + u;
      ObjectAt(found.value.ms, u, s.start, map[]);
    }
  }

  ghost predicate DistinctKeys(es: seq<(string, string)>) {
    forall i, j :: 0 <= i < j < |es| ==> es[i].0 != es[j].0
  }

  /** With distinct keys the map holds exactly the first 64 entries. */
  lemma JsonObjFirst64(v: Doc, key: string, ms: Members)
    requires DocOk(v) && Lookup(v, key) == Some(Object(ms)) && DistinctKeys(Entries(ms))
    ensures var es, r := Entries(ms), JsonObj(Print(v), key);
            Holds(r, Take(es, 64))
  {
    JsonObjPrint(v, key);
    EntriesNamed(ms);
    assert Entries(ms)[0..] == Entries(ms);
    FilledFirst(Entries(ms), 0, map[], Filled(map[], Entries(ms)));
  }

  lemma {:induction false} EntriesNamed(ms: Members)
    ensures forall e <- Entries(ms) :: e.0 != ""
  {
    if ms.Member? {
      EntriesNamed(ms.rest);
    }
  }

  /** The map holds exactly these entries. */
  ghost predicate Holds(r: map<string, string>, es: seq<(string, string)>) {
    && |r| == |es|
    && (forall e <- es :: e.0 in r && r[e.0] == e.1)
    && (forall k <- r :: (k, r[k]) in es)
  }

  lemma {:induction false} FilledFull(out: map<string, string>, es: seq<(string, string)>)
    requires |out| >= 64 || es == []
    ensures Filled(out, es) == out
    decreases |es|
  {
    if es != [] {
      FilledFull(out, es[1..]);
    }
  }

  lemma HoldsPut(out: map<string, string>, done: seq<(string, string)>, e: (string, string))
    requires Holds(out, done) && |done| < 64 && e.0 != "" && forall d <- done :: d.0 != e.0
    ensures Holds(Put(out, e.0, e.1), done + [e])
  {
    var out' := Put(out, e.0, e.1);
    assert e.0 !in out;
    assert out' == out[e.0 := e.1] && out'.Keys == out.Keys + {e.0};
    HoldsMore(out, done, e);
  }

  lemma HoldsMore(out: map<string, string>, done: seq<(string, string)>, e: (string, string))
    requires Holds(out, done) && e.0 !in out
    ensures Holds(out[e.0 := e.1], done + [e])
  {
    var out', all := out[e.0 := e.1], done + [e];
    assert |all| == |done| + 1 && |out'| == |out| + 1;
    assert forall d <- done :: d in all;
    assert e in all;
    forall k <- out' ensures (k, out'[k]) in all {
      if k == e.0 { assert (k, out'[k]) == e; } else { assert (k, out[k]) in done; }
    }
  }

  lemma HoldsOneMore(all: seq<(string, string)>, i: nat, out: map<string, string>)
    requires DistinctKeys(all) && i < |all| && i < 64 && all[i].0 != "" && Holds(out, all[..i])
    ensures Holds(Put(out, all[i].0, all[i].1), all[..i + 1])
  {
    assert all[..i + 1] == all[..i] + [all[i]];
    HoldsPut(out, all[..i], all[i]);
  }

  lemma {:induction false} FilledFirst(all: seq<(string, string)>, i: nat, out: map<string, string>, r: map<string, string>)
    requires DistinctKeys(all) && forall e <- all :: e.0 != ""
    requires i <= |all| && i <= 64 && Holds(out, all[..i]) && r == Filled(out, all[i..])
    ensures Holds(r, Take(all, 64))
    decreases |all| - i
  {
    if i == |all| || i == 64 {
      FilledFull(out, all[i..]);
      assert r == out;
      assert Take(all, 64) == all[..i];
    } else {
      HoldsOneMore(all, i, out);
      assert all[i..][1..] == all[i + 1..];
      FilledFirst(all, i + 1, Put(out, all[i].0, all[i].1), r);
    }
  }

  /** The printed elements. */
  ghost function Texts(es: Elems): seq<string>
    requires ElemsOk(es)
  {
    match es
    case NoElems(_) => []
    case Elem(_, value, _, rest) => [Print(value)] + Texts(rest)
  }

  lemma ArrEntriesBlank(w: string, r: string, room: nat)
    requires Blank(w)
    ensures ArrEntries(w + r, room) == ArrEntries(r, room)
  {
    SkipBlank(w, r);
  }

  lemma ArrEntriesStep(es: Elems, t: string, room: nat)
    requires ElemsOk(es) && es.Elem?
    ensures ArrEntries(PrintElems(es) + t, room)
         == [Print(es.value)] + if room <= 1 then [] else ArrEntries(AfterElem(es, t), room - 1)
  {
    ElemRead(es, t);
    AfterElemEnds(es, t);
    RawText(es.value, AfterElem(es, t));
  }

  lemma {:induction false} ArrEntriesPrint(es: Elems, t: string, room: nat)
    requires ElemsOk(es) && room >= 1
    ensures ArrEntries(PrintElems(es) + t, room) == Take(Texts(es), room)
    decreases es, 0
  {
    match es
    case NoElems(gap) =>
      ClosingRead(gap, ']', t);
    case Elem(_, value, b, rest) =>
      ArrEntriesStep(es, t, room);
      TakeCons(Print(value), Texts(rest), room);
      if room > 1 {
        AfterElemRead(es, t, room - 1);
        ArrEntriesPrint(rest, t, room - 1);
      }
  }

  lemma AfterElemRead(es: Elems, t: string, room: nat)
    requires ElemsOk(es) && es.Elem?
    ensures ArrEntries(AfterElem(es, t), room) == ArrEntries(PrintElems(es.rest) + t, room)
  {
    ArrEntriesBlank(es.after, ElemsTail(es.rest) + t, room);
    ElemsTailRead(es.rest, t, room);
  }

  lemma ElemsTailRead(es: Elems, t: string, room: nat)
    requires ElemsOk(es)
    ensures ArrEntries(ElemsTail(es) + t, room) == ArrEntries(PrintElems(es) + t, room)
  {
    if es.Elem? {
      Assoc(",", PrintElems(es), t);
      EntriesComma(PrintElems(es) + t, map[], room);
    }
  }

  lemma ArrayAt(es: Elems, u: string, start: string, cap: nat)
    requires ElemsOk(es) && start == Print(Array(es)) + u && cap >= 1
    ensures start != [] && ArrEntries(start[1..], cap) == Take(Texts(es), cap)
  {
    assert start[1..] == PrintElems(es) + u;
    ArrEntriesPrint(es, u, cap);
  }

  /** `json_arr_objects`: the exact text of the first 32 elements. */
  lemma JsonArrPrint(v: Doc, key: string)
    requires DocOk(v)
    ensures match Lookup(v, key)
            case Some(Array(es)) =>
              ElemsOk(es) && JsonArr(Print(v), key) == Take(Texts(es), 32)
            case _ => JsonArr(Print(v), key) == []
  {
    SpanPrint(v, key);
    var found := Lookup(v, key);
    if found.Some? && found.value.Array? {
      var s := SpanOf(Print(v), key).value;
      var u :| Ends(u) && s.start == Print(found.value) + u;
      ArrayAt(found.value.es, u, s.start, ARRAY_CAP);
    }
  }

  /** While there is room a later entry of a key wins; a full map takes nothing more. */
  lemma LaterEntryWins(es: seq<(string, string)>, k: string, x: string)
    requires k != ""
    ensures var before, after := Filled(map[], es), Filled(map[], es + [(k, x)]);
            if |before| < 64 then k in after && after[k] == x && forall j <- before | j != k :: j in after && after[j] == before[j]
            else after == before
  {
    FilledConcat(map[], es, [(k, x)]);
    var out := Filled(map[], es);
    assert [(k, x)][1..] == [];
    assert Filled(out, [(k, x)]) == Put(out, k, x);
  }
}
