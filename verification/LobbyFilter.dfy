/** The FindLobbies filter of lan-server/src/lobby_filter.rs: scanner, parser and evaluator, on the rest
    of the input. Number parsing is a parameter, a partial function from text to reals. */
module LobbyFilter {
  import opened Common
  import opened Seqs

  type NumberParser = string -> Option<real>

  datatype Key =
    | StringKey(n: nat) | NumberKey(n: nat)
    | MemberCount | MaxMemberCount | MemberCountRemaining | MembershipLock
    | AmOwner | AmMember | AmServer | LobbyId
  datatype Op = Eq | Ne | Le | Lt | Ge | Gt
  datatype Clause = Clause(key: Key, op: Op, value: string)
  datatype Filter = Filter(clauses: seq<Clause>, unsupported: seq<string>)

  // ---------------------------------------------------------------------------
  // Tokens
  // ---------------------------------------------------------------------------

  predicate IsWs(c: char) {
    c == ' ' || c == '\t' || c == '\n' || c as int == 12 || c == '\r'
  }

  function SkipWs(r: string): (r': string)
    ensures |r'| <= |r| && (r' != [] ==> !IsWs(r'[0]))
  {
    if r != [] && IsWs(r[0]) then SkipWs(r[1..]) else r
  }

  /** The characters up to the next blank, and what follows them. */
  function Word(r: string): (w: (string, string))
    ensures |w.1| <= |r| && (w.0 != [] ==> |w.1| < |r|)
  {
    if r == [] || IsWs(r[0]) then ([], r) else var w := Word(r[1..]); ([r[0]] + w.0, w.1)
  }

  function TakeBare(r: string): (w: Option<(string, string)>)
    ensures w.Some? ==> w.value.0 != [] && |w.value.1| < |r|
    ensures w.None? <==> SkipWs(r) == []
  {
    var w := Word(SkipWs(r));
    if w.0 == [] then None else Some(w)
  }

  /** The rest of a quoted value, two quotes standing for one. */
  function Quoted(r: string): (w: Option<(string, string)>)
    ensures w.Some? ==> |w.value.1| < |r|
    decreases |r|
  {
    if r == [] then None
    else if r[0] == '\'' && (|r| == 1 || r[1] != '\'') then Some(([], r[1..]))
    else
      var w := Quoted(if r[0] == '\'' then r[2..] else r[1..]);
      if w.None? then None else Some(([r[0]] + w.value.0, w.value.1))
  }

  function TakeValue(r0: string): (w: Option<(string, string)>)
    ensures w.Some? ==> |w.value.1| < |r0|
  {
    var r := SkipWs(r0);
    if r != [] && r[0] == '\'' then Quoted(r[1..]) else TakeBare(r)
  }

  // ---------------------------------------------------------------------------
  // Keys and operators
  // ---------------------------------------------------------------------------

  function DigitsValue(s: string): nat
    requires forall c <- s :: IsDigit(c)
  {
    if s == [] then 0
    else
      assert s[|s| - 1] in s && IsDigit(s[|s| - 1]);
      DigitsValue(s[..|s| - 1]) * 10 + (s[|s| - 1] as int - '0' as int)
  }

  /** An unsigned 32-bit number: digits, with an optional plus sign. */
  function ParseU32(s: string): Option<nat> {
    var d := if s != [] && s[0] == '+' then s[1..] else s;
    if d == [] || exists c <- d :: !IsDigit(c) then None
    else if DigitsValue(d) < 0x1_0000_0000 then Some(DigitsValue(d)) else None
  }

  predicate HasPrefix(s: string, p: string) {
    |p| <= |s| && s[..|p|] == p
  }

  function Numbered(tok: string, prefix: string): Option<nat> {
    if !HasPrefix(tok, prefix) then None
    else
      var n := ParseU32(tok[|prefix|..]);
      if n.Some? && 1 <= n.value <= 30 then n else None
  }

  const STRING_PREFIX: string := "string_key"
  const NUMBER_PREFIX: string := "number_key"

  function ParseKey(tok: string): Option<Key> {
    if Numbered(tok, STRING_PREFIX).Some? then Some(StringKey(Numbered(tok, STRING_PREFIX).value))
    else if Numbered(tok, NUMBER_PREFIX).Some? then Some(NumberKey(Numbered(tok, NUMBER_PREFIX).value))
    else if tok == "lobby/memberCount" || tok == "lobby/currentMemberCount" then Some(MemberCount)
    else if tok == "lobby/maxMemberCount" then Some(MaxMemberCount)
    else if tok == "lobby/memberCountRemaining" then Some(MemberCountRemaining)
    else if tok == "lobby/membershipLock" then Some(MembershipLock)
    else if tok == "lobby/amOwner" then Some(AmOwner)
    else if tok == "lobby/amMember" then Some(AmMember)
    else if tok == "lobby/amServer" then Some(AmServer)
    else if tok == "lobbyId" || tok == "lobby/lobbyId" || tok == "LobbyId" then Some(LobbyId)
    else None
  }

  function ParseOp(tok: string): Option<Op> {
    if tok == "eq" then Some(Eq)
    else if tok == "ne" then Some(Ne)
    else if tok == "le" then Some(Le)
    else if tok == "lt" then Some(Lt)
    else if tok == "ge" then Some(Ge)
    else if tok == "gt" then Some(Gt)
    else None
  }

  function ParseBool(s: string): Option<bool> {
    if s == "true" then Some(true) else if s == "false" then Some(false) else None
  }

  predicate Supported(num: NumberParser, c: Clause) {
    match c.key
    case StringKey(_) => c.op == Eq || c.op == Ne
    case LobbyId => c.op == Eq || c.op == Ne
    case MembershipLock => c.op == Eq || c.op == Ne
    case AmOwner => (c.op == Eq || c.op == Ne) && ParseBool(c.value).Some?
    case AmMember => (c.op == Eq || c.op == Ne) && ParseBool(c.value).Some?
    case AmServer => (c.op == Eq || c.op == Ne) && ParseBool(c.value).Some?
    case _ => num(c.value).Some?
  }

  // ---------------------------------------------------------------------------
  // Parsing
  // ---------------------------------------------------------------------------

  /** A key, an operator and a value, and what follows them. */
  datatype Triple = Triple(key: string, op: Op, value: string, rest: string)

  function TakeTriple(r: string): (t: Option<Triple>)
    ensures t.Some? ==> |t.value.rest| < |r|
  {
    var k := TakeBare(r);
    if k.None? || k.value.0 == "or" then None
    else
      var o := TakeBare(k.value.1);
      if o.None? || ParseOp(o.value.0).None? then None
      else
        var v := TakeValue(o.value.1);
        if v.None? then None
        else Some(Triple(k.value.0, ParseOp(o.value.0).value, v.value.0, v.value.1))
  }

  function Judge(num: NumberParser, t: Triple, raw: string): Filter {
    var key := ParseKey(t.key);
    if key.Some? && Supported(num, Clause(key.value, t.op, t.value))
    then Filter([Clause(key.value, t.op, t.value)], [])
    else Filter([], [raw])
  }

  function Plus(a: Filter, b: Filter): Filter {
    Filter(a.clauses + b.clauses, a.unsupported + b.unsupported)
  }

  function Parse(num: NumberParser, r: string): Filter
    decreases |r|, 2
  {
    if SkipWs(r) == [] then Filter([], []) else ParseClause(num, SkipWs(r))
  }

  function ParseClause(num: NumberParser, r: string): Filter
    requires r != []
    decreases |r|, 1
  {
    if TakeTriple(r).None? then Filter([], [r]) else ParseRest(num, r, TakeTriple(r).value)
  }

  /** The clause read from `r`, and the rest of the filter after an `and`. */
  function ParseRest(num: NumberParser, r: string, t: Triple): Filter
    requires |t.rest| < |r|
    decreases |r|, 0
  {
    var one := Judge(num, t, r[..|r| - |t.rest|]);
    var j := TakeBare(t.rest);
    if j.None? then one
    else if j.value.0 != "and" then Plus(one, Filter([], [r]))
    else Plus(one, Parse(num, j.value.1))
  }

  // ---------------------------------------------------------------------------
  // Evaluation
  // ---------------------------------------------------------------------------

  datatype Lobby = Lobby(id: string, maxPlayers: real, members: real, lock: string, strings: map<nat, string>,
                         numbers: map<nat, real>, owner: string, viewer: Option<string>, viewerIsMember: bool,
                         hasServer: bool)

  function CmpNum(a: real, b: real, op: Op): bool {
    match op
    case Eq => a == b
    case Ne => a != b
    case Le => a <= b
    case Lt => a < b
    case Ge => a >= b
    case Gt => a > b
  }

  function Lower(c: char): char {
    if 'A' <= c <= 'Z' then (c as int + 32) as char else c
  }

  predicate SameIgnoringCase(a: string, b: string) {
    |a| == |b| && forall i | 0 <= i < |a| :: Lower(a[i]) == Lower(b[i])
  }

  /** Equality or inequality; no other operator. */
  function Equality(op: Op, same: bool): Option<bool> {
    if op == Eq then Some(same) else if op == Ne then Some(!same) else None
  }

  function EvalNumber(num: NumberParser, c: Clause, stored: Option<real>): Option<bool> {
    if num(c.value).None? then None
    else if stored.None? then Some(false)
    else Some(CmpNum(stored.value, num(c.value).value, c.op))
  }

  function EvalBool(c: Clause, fact: bool): Option<bool> {
    if ParseBool(c.value).None? then None else Equality(c.op, fact == ParseBool(c.value).value)
  }

  predicate IsOwner(l: Lobby) {
    l.viewer.Some? && l.viewer.value != "" && l.viewer.value == l.owner
  }

  function NumberOf(l: Lobby, key: Key): Option<real> {
    match key
    case NumberKey(n) => if n in l.numbers then Some(l.numbers[n]) else None
    case MemberCount => Some(l.members)
    case MaxMemberCount => Some(l.maxPlayers)
    case MemberCountRemaining => Some(l.maxPlayers - l.members)
    case _ => None
  }

  /** None is an evaluation error. */
  function Eval(num: NumberParser, c: Clause, l: Lobby): Option<bool> {
    match c.key
    case StringKey(n) => if n !in l.strings then Some(false) else Equality(c.op, l.strings[n] == c.value)
    case MembershipLock => Equality(c.op, SameIgnoringCase(l.lock, c.value))
    case AmOwner => EvalBool(c, IsOwner(l))
    case AmMember => EvalBool(c, l.viewerIsMember)
    case AmServer => EvalBool(c, l.hasServer)
    case LobbyId => Equality(c.op, l.id == c.value)
    case _ => EvalNumber(num, c, NumberOf(l, c.key))
  }

  /** Fails closed on anything unsupported. */
  predicate Matches(num: NumberParser, f: Filter, l: Lobby) {
    f.unsupported == [] && forall c <- f.clauses :: Eval(num, c, l) == Some(true)
  }
}
