/** Printing filters, and what parsing the print gives back. */
module FilterPrint {
  import opened Common
  import opened Seqs
  import opened LobbyFilter

  // ---------------------------------------------------------------------------
  // The printer
  // ---------------------------------------------------------------------------

  function KeyText(key: Key): string {
    match key
    case StringKey(n) => STRING_PREFIX + Decimal(n)
    case NumberKey(n) => NUMBER_PREFIX + Decimal(n)
    case MemberCount => "lobby/memberCount"
    case MaxMemberCount => "lobby/maxMemberCount"
    case MemberCountRemaining => "lobby/memberCountRemaining"
    case MembershipLock => "lobby/membershipLock"
    case AmOwner => "lobby/amOwner"
    case AmMember => "lobby/amMember"
    case AmServer => "lobby/amServer"
    case LobbyId => "lobbyId"
  }

  function OpText(op: Op): string {
    match op
    case Eq => "eq"
    case Ne => "ne"
    case Le => "le"
    case Lt => "lt"
    case Ge => "ge"
    case Gt => "gt"
  }

  function Twice(c: char): string {
    if c == '\'' then ['\'', '\''] else [c]
  }

  function Doubled(v: string): string {
    if v == [] then [] else Twice(v[0]) + Doubled(v[1..])
  }

  function PrintClause(c: Clause): string {
    KeyText(c.key) + (" " + (OpText(c.op) + (" '" + (Doubled(c.value) + "'"))))
  }

  function Print(cs: seq<Clause>): string {
    if cs == [] then ""
    else if |cs| == 1 then PrintClause(cs[0])
    else PrintClause(cs[0]) + (" and " + Print(cs[1..]))
  }

  predicate KeyOk(key: Key) {
    (key.StringKey? || key.NumberKey?) ==> 1 <= key.n <= 30
  }

  // ---------------------------------------------------------------------------
  // Reading tokens back
  // ---------------------------------------------------------------------------

  ghost predicate Solid(w: string) {
    w != [] && forall c <- w :: !IsWs(c)
  }

  ghost predicate Breaks(t: string) {
    t == [] || t[0] == ' '
  }

  lemma {:induction false} WordRead(w: string, t: string)
    requires (forall c <- w :: !IsWs(c)) && Breaks(t)
    ensures Word(w + t) == (w, t)
  {
    if w == [] {
      assert w + t == t;
    } else {
      assert w[0] in w && (w + t)[1..] == w[1..] + t;
      WordRead(w[1..], t);
      assert [w[0]] + w[1..] == w;
    }
  }

  lemma BareRead(w: string, t: string)
    requires Solid(w) && Breaks(t)
    ensures TakeBare(w + t) == Some((w, t)) && TakeBare(" " + (w + t)) == Some((w, t))
  {
    assert w[0] in w && (w + t)[0] == w[0];
    assert (" " + (w + t))[1..] == w + t;
    WordRead(w, t);
  }

  /** One character of a quoted value. */
  lemma QuotedStep(c: char, rest: string)
    requires rest != []
    ensures c != '\'' ==> Quoted([c] + rest) == Pushed(c, Quoted(rest))
    ensures Quoted(['\'', '\''] + rest) == Pushed('\'', Quoted(rest))
  {
    assert ([c] + rest)[1..] == rest;
    assert (['\'', '\''] + rest)[2..] == rest;
  }

  function Pushed(c: char, w: Option<(string, string)>): Option<(string, string)> {
    if w.None? then None else Some(([c] + w.value.0, w.value.1))
  }

  lemma QuotedEnd(tail: string)
    requires tail != [] && tail[0] == '\'' && Breaks(tail[1..])
    ensures Quoted(tail) == Some(([], tail[1..]))
  {
  }

  lemma {:induction false} QuotedRead(v: string, tail: string)
    requires tail != [] && tail[0] == '\'' && Breaks(tail[1..])
    ensures Quoted(Doubled(v) + tail) == Some((v, tail[1..]))
  {
    if v == [] {
      QuotedEnd(tail);
      assert Doubled(v) + tail == tail;
    } else {
      var rest := Doubled(v[1..]) + tail;
      Assoc(Twice(v[0]), Doubled(v[1..]), tail);
      QuotedStep(v[0], rest);
      QuotedRead(v[1..], tail);
      assert [v[0]] + v[1..] == v;
    }
  }

  lemma ValueRead(v: string, t: string)
    requires Breaks(t)
    ensures TakeValue(" '" + (Doubled(v) + ("'" + t))) == Some((v, t))
  {
    OpensQuote(Doubled(v) + ("'" + t));
    assert ("'" + t)[1..] == t;
    QuotedRead(v, "'" + t);
  }

  lemma OpensQuote(body: string)
    ensures TakeValue(" '" + body) == Quoted(body)
  {
    var x := " '" + body;
    assert x[0] == ' ' && x[1] == '\'';
    assert x[1..] == ['\''] + body;
    assert SkipWs(x[1..]) == x[1..];
    assert SkipWs(x) == x[1..];
    assert x[1..][1..] == body;
  }

  // ---------------------------------------------------------------------------
  // Reading keys and operators back
  // ---------------------------------------------------------------------------

  lemma {:induction false} DecimalRead(n: nat)
    ensures Decimal(n) != [] && (forall c <- Decimal(n) :: IsDigit(c)) && DigitsValue(Decimal(n)) == n
  {
    var d := Decimal(n);
    if n >= 10 {
      DecimalRead(n / 10);
      assert d[..|d| - 1] == Decimal(n / 10);
    } else {
      assert d[..0] == [];
    }
  }

  lemma NumberedRead(prefix: string, n: nat)
    requires 1 <= n <= 30
    ensures Numbered(prefix + Decimal(n), prefix) == Some(n)
  {
    var tok, d := prefix + Decimal(n), Decimal(n);
    DecimalRead(n);
    assert tok[..|prefix|] == prefix && tok[|prefix|..] == d;
    assert d[0] in d;
  }

  lemma KeyRead(key: Key)
    requires KeyOk(key)
    ensures ParseKey(KeyText(key)) == Some(key)
  {
    match key
    case StringKey(n) => NumberedRead(STRING_PREFIX, n);
    case NumberKey(n) =>
      NumberedRead(NUMBER_PREFIX, n);
      assert KeyText(key)[0] == 'n' && STRING_PREFIX[0] == 's';
      assert !HasPrefix(KeyText(key), STRING_PREFIX);
    case _ =>
      assert KeyText(key)[0] == 'l' && STRING_PREFIX[0] == 's' && NUMBER_PREFIX[0] == 'n';
      assert !HasPrefix(KeyText(key), STRING_PREFIX) && !HasPrefix(KeyText(key), NUMBER_PREFIX);
  }

  lemma KeySolid(key: Key)
    ensures Solid(KeyText(key)) && KeyText(key)[0] != 'o'
  {
    match key
    case StringKey(n) => DecimalRead(n);
    case NumberKey(n) => DecimalRead(n);
    case _ => NamedSolid(key);
  }

  lemma NamedSolid(key: Key)
    requires !key.StringKey? && !key.NumberKey?
    ensures Solid(KeyText(key)) && KeyText(key)[0] == 'l'
  {
    if key == MemberCount || key == MaxMemberCount || key == MemberCountRemaining { CountSolid(key); }
  }

  lemma CountSolid(key: Key)
    requires key == MemberCount || key == MaxMemberCount || key == MemberCountRemaining
    ensures Solid(KeyText(key)) && KeyText(key)[0] == 'l'
  {
  }

  lemma OpRead(op: Op)
    ensures Solid(OpText(op)) && ParseOp(OpText(op)) == Some(op)
  {
  }

  lemma TripleRead(c: Clause, t: string)
    requires Breaks(t)
    ensures TakeTriple(PrintClause(c) + t) == Some(Triple(KeyText(c.key), c.op, c.value, t))
  {
    var value := " '" + (Doubled(c.value) + ("'" + t));
    var op := " " + (OpText(c.op) + value);
    PrintedText(c, t);
    KeySolid(c.key);
    BareRead(KeyText(c.key), op);
    OpRead(c.op);
    BareRead(OpText(c.op), value);
    ValueRead(c.value, t);
  }

  lemma PrintedText(c: Clause, t: string)
    ensures PrintClause(c) + t == KeyText(c.key) + (" " + (OpText(c.op) + (" '" + (Doubled(c.value) + ("'" + t)))))
  {
    var q := Doubled(c.value) + "'";
    Assoc(Doubled(c.value), "'", t);
    Assoc(" '", q, t);
    Assoc(OpText(c.op), " '" + q, t);
    Assoc(" ", OpText(c.op) + (" '" + q), t);
    Assoc(KeyText(c.key), " " + (OpText(c.op) + (" '" + q)), t);
  }

  // ---------------------------------------------------------------------------
  // Reading filters back
  // ---------------------------------------------------------------------------

  ghost predicate Kept(num: NumberParser, cs: seq<Clause>) {
    forall c <- cs :: KeyOk(c.key) && Supported(num, c)
  }

  lemma ParseOne(num: NumberParser, c: Clause, t: string)
    requires Breaks(t) && KeyOk(c.key) && Supported(num, c)
    ensures Parse(num, PrintClause(c) + t)
         == var j := TakeBare(t);
            if j.None? then Filter([c], [])
            else if j.value.0 != "and" then Filter([c], [PrintClause(c) + t])
            else Plus(Filter([c], []), Parse(num, j.value.1))
  {
    var r := PrintClause(c) + t;
    var triple := Triple(KeyText(c.key), c.op, c.value, t);
    TripleRead(c, t);
    PrintStarts(c, t);
    assert Parse(num, r) == ParseRest(num, r, triple);
    RestRead(num, c, t, r);
  }

  lemma RestRead(num: NumberParser, c: Clause, t: string, r: string)
    requires KeyOk(c.key) && Supported(num, c) && |t| < |r|
    ensures ParseRest(num, r, Triple(KeyText(c.key), c.op, c.value, t))
         == var j := TakeBare(t);
            if j.None? then Filter([c], [])
            else if j.value.0 != "and" then Filter([c], [r])
            else Plus(Filter([c], []), Parse(num, j.value.1))
  {
    JudgePrint(num, c, t, r[..|r| - |t|]);
  }

  lemma JudgePrint(num: NumberParser, c: Clause, t: string, raw: string)
    requires KeyOk(c.key) && Supported(num, c)
    ensures Judge(num, Triple(KeyText(c.key), c.op, c.value, t), raw) == Filter([c], [])
  {
    KeyRead(c.key);
  }

  lemma PrintStarts(c: Clause, t: string)
    ensures PrintClause(c) + t != [] && SkipWs(PrintClause(c) + t) == PrintClause(c) + t
  {
    PrintedText(c, t);
    KeySolid(c.key);
    assert (PrintClause(c) + t)[0] == KeyText(c.key)[0] && KeyText(c.key)[0] in KeyText(c.key);
  }

  lemma AndRead(num: NumberParser, rest: string)
    ensures Breaks(" and " + rest) && TakeBare(" and " + rest) == Some(("and", " " + rest))
    ensures Parse(num, " " + rest) == Parse(num, rest)
  {
    assert " and " + rest == " " + ("and" + (" " + rest));
    BareRead("and", " " + rest);
    BlankSkipped(rest);
  }

  lemma BlankSkipped(r: string)
    ensures SkipWs(" " + r) == SkipWs(r)
  {
    assert (" " + r)[1..] == r;
  }

  /** Printing supported clauses and parsing the print gives exactly those clauses. */
  lemma {:induction false} ParsePrint(num: NumberParser, cs: seq<Clause>)
    requires Kept(num, cs)
    ensures Parse(num, Print(cs)) == Filter(cs, [])
  {
    if cs != [] {
      assert cs[0] in cs;
      if |cs| == 1 {
        ParseLast(num, cs[0]);
        assert cs == [cs[0]];
      } else {
        ParsePrint(num, cs[1..]);
        ParseFront(num, cs[0], Print(cs[1..]), cs[1..]);
        assert [cs[0]] + cs[1..] == cs;
      }
    }
  }

  lemma ParseFront(num: NumberParser, c: Clause, text: string, rest: seq<Clause>)
    requires KeyOk(c.key) && Supported(num, c) && Parse(num, text) == Filter(rest, [])
    ensures Parse(num, PrintClause(c) + (" and " + text)) == Filter([c] + rest, [])
  {
    ParseMore(num, c, text);
  }

  lemma ParseLast(num: NumberParser, c: Clause)
    requires KeyOk(c.key) && Supported(num, c)
    ensures Parse(num, PrintClause(c)) == Filter([c], [])
  {
    ParseOne(num, c, "");
    assert PrintClause(c) + "" == PrintClause(c);
  }

  lemma ParseMore(num: NumberParser, c: Clause, rest: string)
    requires KeyOk(c.key) && Supported(num, c)
    ensures Parse(num, PrintClause(c) + (" and " + rest)) == Plus(Filter([c], []), Parse(num, rest))
  {
    AndRead(num, rest);
    ParseOne(num, c, " and " + rest);
  }

  lemma NumberedOk(tok: string, prefix: string)
    ensures Numbered(tok, prefix).Some? ==> 1 <= Numbered(tok, prefix).value <= 30
  {
  }

  lemma JudgeKept(num: NumberParser, t: Triple, raw: string)
    ensures Kept(num, Judge(num, t, raw).clauses)
  {
    NumberedOk(t.key, STRING_PREFIX);
    NumberedOk(t.key, NUMBER_PREFIX);
  }

  lemma RestKeeps(num: NumberParser, r: string, t: Triple)
    requires |t.rest| < |r|
    requires var j := TakeBare(t.rest); j.Some? && j.value.0 == "and" ==> Kept(num, Parse(num, j.value.1).clauses)
    ensures Kept(num, ParseRest(num, r, t).clauses)
  {
    JudgeKept(num, t, r[..|r| - |t.rest|]);
  }

  /** Whatever the text, the clauses kept are supported ones. */
  lemma {:induction false} ParseKeeps(num: NumberParser, r0: string)
    ensures Kept(num, Parse(num, r0).clauses)
    decreases |r0|
  {
    var r := SkipWs(r0);
    if r != [] && TakeTriple(r).Some? {
      var t := TakeTriple(r).value;
      var j := TakeBare(t.rest);
      if j.Some? && j.value.0 == "and" {
        ParseKeeps(num, j.value.1);
      }
      RestKeeps(num, r, t);
    }
  }

  /** Print of a parse is a normal form: it parses to the same clauses, with nothing unsupported. */
  lemma NormalForm(num: NumberParser, r: string)
    ensures Parse(num, Print(Parse(num, r).clauses)) == Filter(Parse(num, r).clauses, [])
    ensures Parse(num, r).unsupported == [] ==> Parse(num, Print(Parse(num, r).clauses)) == Parse(num, r)
  {
    ParseKeeps(num, r);
    ParsePrint(num, Parse(num, r).clauses);
  }

  // ---------------------------------------------------------------------------
  // Meaning
  // ---------------------------------------------------------------------------

  const SOMEWHERE: Lobby := Lobby("", 0.0, 0.0, "", map n: nat | 1 <= n <= 30 :: "", map[], "", None, false, false)

  /** The clauses kept are exactly those that no lobby can make fail to evaluate. */
  lemma SupportedExact(num: NumberParser, c: Clause)
    requires KeyOk(c.key)
    ensures Supported(num, c) <==> forall l :: Eval(num, c, l).Some?
  {
    if !Supported(num, c) {
      assert Eval(num, c, SOMEWHERE).None?;
    }
  }

  lemma {:induction false} PrintConcat(a: seq<Clause>, b: seq<Clause>)
    requires a != [] && b != []
    ensures Print(a + b) == Print(a) + (" and " + Print(b))
  {
    assert (a + b)[0] == a[0];
    if |a| == 1 {
      assert (a + b)[1..] == b;
    } else {
      assert (a + b)[1..] == a[1..] + b;
      PrintConcat(a[1..], b);
      Assoc(" and ", Print(a[1..]), " and " + Print(b));
      Assoc(PrintClause(a[0]), " and " + Print(a[1..]), " and " + Print(b));
    }
  }

  /** Two printed filters joined by `and` match a lobby exactly when both do. */
  lemma Conjunction(num: NumberParser, a: seq<Clause>, b: seq<Clause>, l: Lobby)
    requires Kept(num, a) && Kept(num, b) && a != [] && b != []
    ensures Matches(num, Parse(num, Print(a) + (" and " + Print(b))), l)
       <==> Matches(num, Parse(num, Print(a)), l) && Matches(num, Parse(num, Print(b)), l)
  {
    PrintConcat(a, b);
    ParsePrint(num, a);
    ParsePrint(num, b);
    ParsePrint(num, a + b);
    assert forall c :: c in a + b <==> c in a || c in b;
  }

  // ---------------------------------------------------------------------------
  // What a clause means
  // ---------------------------------------------------------------------------

  predicate Compares(x: real, op: Op, v: real) {
    && (op == Eq ==> x == v) && (op == Ne ==> x != v)
    && (op == Lt ==> x < v) && (op == Le ==> x <= v)
    && (op == Gt ==> x > v) && (op == Ge ==> x >= v)
  }

  /** Equal up to the case of letters. */
  predicate SameLetter(a: char, b: char) {
    || a == b
    || ('A' <= a <= 'Z' && b as int == a as int + 32)
    || ('A' <= b <= 'Z' && a as int == b as int + 32)
  }

  /** `key op value`, said of a lobby. */
  ghost predicate Means(num: NumberParser, c: Clause, l: Lobby) {
    match c.key
    case NumberKey(n) => n in l.numbers && num(c.value).Some? && Compares(l.numbers[n], c.op, num(c.value).value)
    case MemberCount => num(c.value).Some? && Compares(l.members, c.op, num(c.value).value)
    case MaxMemberCount => num(c.value).Some? && Compares(l.maxPlayers, c.op, num(c.value).value)
    case MemberCountRemaining => num(c.value).Some? && Compares(l.maxPlayers - l.members, c.op, num(c.value).value)
    case StringKey(n) => n in l.strings && (c.op == Eq <==> l.strings[n] == c.value)
    case LobbyId => c.op == Eq <==> l.id == c.value
    case MembershipLock =>
      c.op == Eq <==> |l.lock| == |c.value| && forall i | 0 <= i < |l.lock| :: SameLetter(l.lock[i], c.value[i])
    case AmOwner => c.op == Eq <==> ((c.value == "true") == (l.owner != "" && l.viewer == Some(l.owner)))
    case AmMember => c.op == Eq <==> ((c.value == "true") == l.viewerIsMember)
    case AmServer => c.op == Eq <==> ((c.value == "true") == l.hasServer)
  }

  lemma CaseMeans(a: string, b: string)
    ensures SameIgnoringCase(a, b) <==> |a| == |b| && forall i | 0 <= i < |a| :: SameLetter(a[i], b[i])
  {
    forall x: char, y: char ensures Lower(x) == Lower(y) <==> SameLetter(x, y) {
      LetterMeans(x, y);
    }
  }

  lemma LetterMeans(x: char, y: char)
    ensures Lower(x) == Lower(y) <==> SameLetter(x, y)
  {
  }

  lemma EvalMeans(num: NumberParser, c: Clause, l: Lobby)
    requires Supported(num, c)
    ensures Eval(num, c, l) == Some(true) <==> Means(num, c, l)
  {
    if c.key.MembershipLock? { CaseMeans(l.lock, c.value); }
  }

  /** A filter of one clause matches exactly the lobbies that the clause is true of. */
  lemma ClauseMeaning(num: NumberParser, c: Clause, l: Lobby)
    requires KeyOk(c.key) && Supported(num, c)
    ensures Matches(num, Parse(num, PrintClause(c)), l) <==> Means(num, c, l)
  {
    ParseLast(num, c);
    EvalMeans(num, c, l);
    assert forall x <- [c] :: x == c;
    assert c in [c];
  }

  /** Nothing matches a filter with an unsupported part; nothing is asked by an empty one. */
  lemma FailsClosed(num: NumberParser, text: string, l: Lobby)
    ensures Parse(num, text).unsupported != [] ==> !Matches(num, Parse(num, text), l)
    ensures SkipWs(text) == [] ==> Matches(num, Parse(num, text), l)
  {
  }

  /** The other names of three keys. */
  lemma KeyAliases()
    ensures ParseKey("lobby/currentMemberCount") == Some(MemberCount)
    ensures ParseKey("lobby/lobbyId") == Some(LobbyId) && ParseKey("LobbyId") == Some(LobbyId)
  {
    assert "lobby/currentMemberCount"[0] == 'l' && "lobby/lobbyId"[0] == 'l' && "LobbyId"[0] == 'L';
    assert STRING_PREFIX[0] == 's' && NUMBER_PREFIX[0] == 'n';
  }

  /** A number may carry one plus sign. */
  lemma PlusSign(d: string)
    requires d == [] || d[0] != '+'
    ensures ParseU32("+" + d) == ParseU32(d)
  {
    assert ("+" + d)[1..] == d;
  }

  /** A disjunction is reported, not evaluated. */
  lemma OrIsReported(num: NumberParser, c: Clause, rest: string)
    requires KeyOk(c.key) && Supported(num, c)
    ensures Parse(num, PrintClause(c) + (" or " + rest)).unsupported != []
  {
    assert " or " + rest == " " + ("or" + (" " + rest));
    BareRead("or", " " + rest);
    ParseOne(num, c, " or " + rest);
  }
}
