/** The filter scanner and the parse loop of lan-server/src/lobby_filter.rs, in place, against module
    `LobbyFilter`. */
module FilterScan {
  import opened Common
  import opened Seqs
  import F = LobbyFilter
  import opened LobbyFilter

  lemma Next(s: string, i: nat)
    requires i < |s|
    ensures s[i..] != [] && s[i..][0] == s[i] && s[i..][1..] == s[i + 1..]
  {
  }

  class Scanner {
    const s: string
    var i: nat

    ghost predicate Valid()
      reads this
    {
      i <= |s|
    }

    ghost function Rest(): string
      requires Valid()
      reads this
    {
      s[i..]
    }

    constructor (text: string)
      ensures s == text && i == 0 && Valid()
    {
      s, i := text, 0;
    }

    method SkipWs()
      requires Valid()
      modifies this
      ensures Valid() && i >= old(i) && Rest() == F.SkipWs(old(Rest()))
    {
      while i < |s| && IsWs(s[i])
        invariant Valid() && i >= old(i) && F.SkipWs(Rest()) == F.SkipWs(old(Rest()))
      {
        Next(s, i);
        i := i + 1;
      }
      if i < |s| { Next(s, i); }
    }

    method TakeBare() returns (w: Option<string>)
      requires Valid()
      modifies this
      ensures Valid() && i >= old(i)
      ensures w.None? <==> F.TakeBare(old(Rest())).None?
      ensures w.Some? ==> i > old(i) && F.TakeBare(old(Rest())) == Some((w.value, Rest()))
      ensures w.None? ==> Rest() == []
    {
      SkipWs();
      var start := i;
      var word := TakeWord();
      if start == i {
        return None;
      }
      return Some(word);
    }

    /** The loop over a word, with the cursor at its start. */
    method TakeWord() returns (w: string)
      requires Valid()
      modifies this
      ensures Valid() && i == old(i) + |w| && Word(old(Rest())) == (w, Rest())
    {
      var start := i;
      ghost var r := Rest();
      assert s[start..i] == [];
      while i < |s| && !IsWs(s[i])
        invariant Valid() && start <= i && WordGoes(r, s[start..i], Rest())
      {
        Next(s, i);
        WordStep(r, s[start..i], Rest());
        assert s[start..i + 1] == s[start..i] + [s[i]];
        i := i + 1;
      }
      if i < |s| { Next(s, i); }
      assert s[start..i] + [] == s[start..i];
      return s[start..i];
    }

    /** The loop over a quoted value, after its opening quote. */
    method TakeQuoted() returns (w: Option<string>)
      requires Valid()
      modifies this
      ensures Valid() && i >= old(i)
      ensures w.None? <==> Quoted(old(Rest())).None?
      ensures w.Some? ==> i > old(i) && Quoted(old(Rest())) == Some((w.value, Rest()))
    {
      var out := "";
      ghost var start := Rest();
      while i < |s|
        invariant Valid() && i >= old(i) && QuotedGoes(start, out, Rest())
        decreases |s| - i
      {
        Next(s, i);
        var c := s[i];
        if c == '\'' && !(i + 1 < |s| && s[i + 1] == '\'') {
          i := i + 1;
          assert out + [] == out;
          return Some(out);
        }
        ghost var here := Rest();
        if c == '\'' {
          assert here[2..] == s[i + 2..];
          i := i + 2;
        } else {
          i := i + 1;
        }
        QuotedStep(start, out, here, Rest());
        out := out + [c];
      }
      return None;
    }

    method TakeValue() returns (w: Option<string>)
      requires Valid()
      modifies this
      ensures Valid() && i >= old(i)
      ensures w.None? <==> F.TakeValue(old(Rest())).None?
      ensures w.Some? ==> i > old(i) && F.TakeValue(old(Rest())) == Some((w.value, Rest()))
    {
      SkipWs();
      if i < |s| && s[i] == '\'' {
        Next(s, i);
        i := i + 1;
        w := TakeQuoted();
      } else {
        if i < |s| { Next(s, i); }
        w := TakeBare();
      }
    }

    /** A key, an operator and a value. */
    method TakeClause() returns (t: Option<(string, Op, string)>)
      requires Valid()
      modifies this
      ensures Valid() && i >= old(i)
      ensures t.None? <==> TakeTriple(old(Rest())).None?
      ensures t.Some? ==> i > old(i) && TakeTriple(old(Rest())) == Some(Triple(t.value.0, t.value.1, t.value.2, Rest()))
    {
      var key := TakeBare();
      if key.None? || key.value == "or" {
        return None;
      }
      var op := TakeBare();
      if op.None? || ParseOp(op.value).None? {
        return None;
      }
      var value := TakeValue();
      if value.None? {
        return None;
      }
      return Some((key.value, ParseOp(op.value).value, value.value));
    }
  }

  ghost predicate WordGoes(r: string, done: string, rest: string) {
    Word(r).0 == done + Word(rest).0 && Word(r).1 == Word(rest).1
  }

  lemma WordStep(r: string, done: string, rest: string)
    requires WordGoes(r, done, rest) && rest != [] && !IsWs(rest[0])
    ensures WordGoes(r, done + [rest[0]], rest[1..])
  {
    Assoc(done, [rest[0]], Word(rest[1..]).0);
  }

  ghost predicate QuotedGoes(start: string, out: string, rest: string) {
    var all, tail := Quoted(start), Quoted(rest);
    && (all.Some? <==> tail.Some?)
    && (all.Some? ==> all.value.0 == out + tail.value.0 && all.value.1 == tail.value.1)
  }

  lemma QuotedStep(start: string, out: string, here: string, rest: string)
    requires QuotedGoes(start, out, here) && here != []
    requires if here[0] == '\'' then |here| > 1 && here[1] == '\'' && rest == here[2..] else rest == here[1..]
    ensures QuotedGoes(start, out + [here[0]], rest)
  {
    if Quoted(rest).Some? {
      Assoc(out, [here[0]], Quoted(rest).value.0);
    }
  }

  lemma PlusAssoc(a: Filter, b: Filter, c: Filter)
    ensures Plus(Plus(a, b), c) == Plus(a, Plus(b, c))
  {
    Assoc(a.clauses, b.clauses, c.clauses);
    Assoc(a.unsupported, b.unsupported, c.unsupported);
  }

  lemma PlusNone(a: Filter)
    ensures Plus(a, Filter([], [])) == a && Plus(Filter([], []), a) == a
  {
  }

  lemma JudgeIgnoresRest(num: NumberParser, t: Triple, raw: string)
    ensures Judge(num, t, raw) == Judge(num, t.(rest := ""), raw)
  {
  }

  /** One turn of the parse loop, with the cursor at a clause: what it adds, and whether an `and` follows. */
  method ParseTurn(num: NumberParser, sc: Scanner) returns (add: Filter, more: bool)
    requires sc.Valid() && sc.Rest() != [] && F.SkipWs(sc.Rest()) == sc.Rest()
    modifies sc
    ensures sc.Valid() && sc.i >= old(sc.i)
    ensures more ==> sc.i > old(sc.i)
    ensures ParseClause(num, old(sc.Rest())) == if more then Plus(add, Parse(num, sc.Rest())) else add
  {
    var start := sc.i;
    ghost var r := sc.Rest();
    var t := sc.TakeClause();
    if t.None? {
      return Filter([], [sc.s[start..]]), false;
    }
    var raw := sc.s[start..sc.i];
    assert raw == r[..|r| - |sc.Rest()|];
    ghost var triple := Triple(t.value.0, t.value.1, t.value.2, sc.Rest());
    JudgeIgnoresRest(num, triple, raw);
    assert ParseClause(num, r) == ParseRest(num, r, triple);
    add := Judge(num, Triple(t.value.0, t.value.1, t.value.2, ""), raw);
    add, more := JoinTurn(num, sc, add, sc.s[start..], triple);
  }

  /** What follows a clause: nothing, an `and`, or something else. */
  method JoinTurn(num: NumberParser, sc: Scanner, one: Filter, r: string, ghost t: Triple) returns (add: Filter, more: bool)
    requires sc.Valid() && sc.Rest() == t.rest && |t.rest| < |r| && one == Judge(num, t, r[..|r| - |t.rest|])
    modifies sc
    ensures sc.Valid() && sc.i >= old(sc.i)
    ensures ParseRest(num, r, t) == if more then Plus(add, Parse(num, sc.Rest())) else add
  {
    add, more := one, false;
    var join := sc.TakeBare();
    if join.None? {
      return;
    }
    if join.value != "and" {
      add := Plus(one, Filter([], [r]));
      return;
    }
    more := true;
  }

  method ParseFilter(num: NumberParser, text: string) returns (f: Filter)
    ensures f == Parse(num, text)
  {
    var sc := new Scanner(text);
    f := Filter([], []);
    assert text[0..] == text;
    PlusNone(Parse(num, text));
    var more := true;
    while more
      invariant sc.s == text && sc.Valid()
      invariant Parse(num, text) == if more then Plus(f, Parse(num, sc.Rest())) else f
      decreases |text| - sc.i, more
    {
      sc.SkipWs();
      if sc.i == |text| {
        PlusNone(f);
        more := false;
      } else {
        Next(text, sc.i);
        ghost var r := sc.Rest();
        var add;
        add, more := ParseTurn(num, sc);
        if more { PlusAssoc(f, add, Parse(num, sc.Rest())); }
        f := Plus(f, add);
      }
    }
  }
}
