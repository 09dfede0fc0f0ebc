/** Ordering and truncation of FindLobbies: lan-server/src/lobby_filter.rs and main.rs. */
module LobbySort {
  import opened Common
  import opened Seqs
  import S = Seqs
  import opened LobbyFilter

  datatype Ordering = Less | Equal | Greater

  function Reversed(o: Ordering): Ordering {
    match o
    case Less => Greater
    case Equal => Equal
    case Greater => Less
  }

  // ---------------------------------------------------------------------------
  // The comparison
  // ---------------------------------------------------------------------------

  datatype SortSpec = SortSpec(key: Key, desc: bool, distance: Option<real>)

  function CmpReal(x: real, y: real): Ordering {
    if x < y then Less else if x == y then Equal else Greater
  }

  function Distance(spec: SortSpec, x: real): real {
    if spec.distance.None? then x
    else if x < spec.distance.value then spec.distance.value - x else x - spec.distance.value
  }

  /** Missing values last, in both directions. */
  function CmpSpec(a: Lobby, b: Lobby, spec: SortSpec): Ordering {
    match (NumberOf(a, spec.key), NumberOf(b, spec.key))
    case (None, None) => Equal
    case (None, Some(_)) => Greater
    case (Some(_), None) => Less
    case (Some(x), Some(y)) =>
      var o := CmpReal(Distance(spec, x), Distance(spec, y));
      if spec.desc then Reversed(o) else o
  }

  function CmpLobbies(a: Lobby, b: Lobby, specs: seq<SortSpec>): Ordering {
    if specs == [] then Equal
    else if CmpSpec(a, b, specs[0]) != Equal then CmpSpec(a, b, specs[0])
    else CmpLobbies(a, b, specs[1..])
  }

  datatype Row = Row(lobby: Lobby, created: real)

  /** The sort string, then the newest first. */
  function CmpTwo(a: Row, b: Row, specs: seq<SortSpec>): Ordering {
    var o := CmpLobbies(a.lobby, b.lobby, specs);
    if o != Equal then o else CmpReal(b.created, a.created)
  }

  function CmpRows(specs: seq<SortSpec>): (Row, Row) -> Ordering {
    (a: Row, b: Row) => CmpTwo(a, b, specs)
  }

  /** A total preorder, as a comparison: swapping reverses, ties compare alike, and it is transitive. */
  ghost predicate TotalPreorder<T(!new)>(cmp: (T, T) -> Ordering) {
    && (forall a, b :: cmp(b, a) == Reversed(cmp(a, b)))
    && (forall a, b, c :: cmp(a, b) != Greater && cmp(b, c) != Greater ==> cmp(a, c) != Greater)
    && (forall a, b, c :: cmp(a, b) == Equal ==> cmp(a, c) == cmp(b, c))
  }

  lemma SpecLaws(a: Lobby, b: Lobby, c: Lobby, spec: SortSpec)
    ensures CmpSpec(b, a, spec) == Reversed(CmpSpec(a, b, spec))
    ensures CmpSpec(a, b, spec) != Greater && CmpSpec(b, c, spec) != Greater ==> CmpSpec(a, c, spec) != Greater
    ensures CmpSpec(a, b, spec) == Equal ==> CmpSpec(a, c, spec) == CmpSpec(b, c, spec)
    ensures CmpSpec(b, c, spec) == Equal ==> CmpSpec(a, c, spec) == CmpSpec(a, b, spec)
  {
  }

  /** `cmp_lobbies` is a total preorder for every list of specs, distances and descending keys included. */
  lemma {:induction false} LobbyLaws(a: Lobby, b: Lobby, c: Lobby, specs: seq<SortSpec>)
    ensures CmpLobbies(b, a, specs) == Reversed(CmpLobbies(a, b, specs))
    ensures CmpLobbies(a, b, specs) != Greater && CmpLobbies(b, c, specs) != Greater ==> CmpLobbies(a, c, specs) != Greater
    ensures CmpLobbies(a, b, specs) == Equal ==> CmpLobbies(a, c, specs) == CmpLobbies(b, c, specs)
    ensures CmpLobbies(b, c, specs) == Equal ==> CmpLobbies(a, c, specs) == CmpLobbies(a, b, specs)
  {
    if specs != [] {
      SpecLaws(a, b, c, specs[0]);
      LobbyLaws(a, b, c, specs[1..]);
    }
  }

  lemma RowLaws(a: Row, b: Row, c: Row, specs: seq<SortSpec>)
    ensures CmpTwo(b, a, specs) == Reversed(CmpTwo(a, b, specs))
    ensures CmpTwo(a, b, specs) != Greater && CmpTwo(b, c, specs) != Greater ==> CmpTwo(a, c, specs) != Greater
    ensures CmpTwo(a, b, specs) == Equal ==> CmpTwo(a, c, specs) == CmpTwo(b, c, specs)
  {
    LobbyLaws(a.lobby, b.lobby, c.lobby, specs);
    LobbyLaws(a.lobby, c.lobby, b.lobby, specs);
    LobbyLaws(b.lobby, c.lobby, a.lobby, specs);
  }

  lemma RowsPreorder(specs: seq<SortSpec>)
    ensures TotalPreorder(CmpRows(specs))
  {
    var cmp := CmpRows(specs);
    forall a, b, c
      ensures cmp(b, a) == Reversed(cmp(a, b))
      ensures cmp(a, b) != Greater && cmp(b, c) != Greater ==> cmp(a, c) != Greater
      ensures cmp(a, b) == Equal ==> cmp(a, c) == cmp(b, c)
    {
      RowLaws(a, b, c, specs);
    }
  }

  // ---------------------------------------------------------------------------
  // Any sort gives the same result, up to ties
  // ---------------------------------------------------------------------------

  ghost predicate SortedBy<T>(cmp: (T, T) -> Ordering, s: seq<T>) {
    forall i, j | 0 <= i < j < |s| :: cmp(s[i], s[j]) != Greater
  }

  lemma WithoutMultiset<T>(s: seq<T>, i: nat)
    requires i < |s|
    ensures multiset(Without(s, i)) == multiset(s) - multiset{s[i]}
  {
    SplitAt(s, i);
  }

  lemma WithoutFilter<T>(p: T -> bool, s: seq<T>, i: nat)
    requires i < |s|
    ensures |S.Filter(p, s)| == |S.Filter(p, Without(s, i))| + |Keep(p, s[i])|
  {
    FilterSplit(p, s, i);
    FilterConcat(p, s[..i], s[i + 1..]);
  }

  lemma {:induction false} FilterPermuted<T>(p: T -> bool, a: seq<T>, b: seq<T>)
    requires multiset(a) == multiset(b)
    ensures |S.Filter(p, a)| == |S.Filter(p, b)|
  {
    if a == [] {
      assert |multiset(b)| == 0;
    } else {
      assert a[0] in multiset(b);
      var i :| 0 <= i < |b| && b[i] == a[0];
      WithoutMultiset(a, 0);
      WithoutMultiset(b, i);
      WithoutFilter(p, a, 0);
      WithoutFilter(p, b, i);
      FilterPermuted(p, Without(a, 0), Without(b, i));
    }
  }

  lemma {:induction false} FilterPrefix<T>(p: T -> bool, s: seq<T>, n: nat)
    requires n <= |s| && forall i | 0 <= i < n :: p(s[i])
    ensures |S.Filter(p, s)| >= n
  {
    assert s == s[..n] + s[n..];
    FilterConcat(p, s[..n], s[n..]);
    FilterAll(p, s[..n]);
  }

  lemma {:induction false} FilterLength<T>(p: T -> bool, s: seq<T>)
    ensures |S.Filter(p, s)| <= |s|
  {
    if s != [] { FilterLength(p, s[1..]); }
  }

  lemma FilterSuffixOut<T>(p: T -> bool, s: seq<T>, n: nat)
    requires n <= |s| && forall i | n <= i < |s| :: !p(s[i])
    ensures |S.Filter(p, s)| <= n
  {
    assert s == s[..n] + s[n..];
    FilterConcat(p, s[..n], s[n..]);
    FilterNone(p, s[n..]);
    FilterLength(p, s[..n]);
  }

  lemma NotLess<T(!new)>(cmp: (T, T) -> Ordering, a: seq<T>, b: seq<T>, i: nat)
    requires TotalPreorder(cmp) && SortedBy(cmp, a) && SortedBy(cmp, b) && multiset(a) == multiset(b)
    requires i < |a| && |a| == |b|
    ensures cmp(a[i], b[i]) != Less
  {
    if cmp(a[i], b[i]) == Less {
      var p := x => cmp(x, b[i]) == Less;
      forall k | 0 <= k <= i ensures p(a[k]) {
        if k < i { assert cmp(a[k], a[i]) != Greater; } else { assert a[k] == a[i]; }
        BelowTrans(cmp, a[k], a[i], b[i]);
      }
      forall k | i <= k < |b| ensures !p(b[k]) {
        if i < k { assert cmp(b[i], b[k]) != Greater; }
        NotBelow(cmp, b[i], b[k], i == k);
      }
      FilterPrefix(p, a, i + 1);
      FilterSuffixOut(p, b, i);
      FilterPermuted(p, a, b);
    }
  }

  lemma BelowTrans<T(!new)>(cmp: (T, T) -> Ordering, x: T, y: T, z: T)
    requires TotalPreorder(cmp) && (x == y || cmp(x, y) != Greater) && cmp(y, z) == Less
    ensures cmp(x, z) == Less
  {
    if x != y {
      assert cmp(x, z) != Greater;
      assert cmp(z, y) == Reversed(cmp(y, z));
    }
  }

  lemma NotBelow<T(!new)>(cmp: (T, T) -> Ordering, x: T, y: T, same: bool)
    requires TotalPreorder(cmp) && (if same then x == y else cmp(x, y) != Greater)
    ensures cmp(y, x) != Less
  {
    assert cmp(y, x) == Reversed(cmp(x, y));
    assert cmp(x, x) == Reversed(cmp(x, x));
  }

  /** Two sorted arrangements of the same rows differ only by exchanging ties. */
  lemma SortedUpToTies<T(!new)>(cmp: (T, T) -> Ordering, a: seq<T>, b: seq<T>)
    requires TotalPreorder(cmp) && SortedBy(cmp, a) && SortedBy(cmp, b) && multiset(a) == multiset(b)
    ensures |a| == |b| && forall i | 0 <= i < |a| :: cmp(a[i], b[i]) == Equal
  {
    assert |a| == |multiset(a)| && |b| == |multiset(b)|;
    forall i | 0 <= i < |a| ensures cmp(a[i], b[i]) == Equal {
      NotLess(cmp, a, b, i);
      NotLess(cmp, b, a, i);
      assert cmp(b[i], a[i]) == Reversed(cmp(a[i], b[i]));
    }
  }

  // ---------------------------------------------------------------------------
  // Find
  // ---------------------------------------------------------------------------

  predicate Hit(num: NumberParser, filter: Filter, friends: bool, row: Row) {
    !friends && Matches(num, filter, row.lobby)
  }

  /** How many rows a request gets: a positive count, up to 1000, or all of them. */
  function Wanted(count: Option<int>, found: nat): nat {
    if count.Some? && count.value > 0
    then (var c := if count.value <= 1000 then count.value else 1000; if c < found then c else found)
    else found
  }

  /** Puts a row behind everything that does not come after it. */
  method InsertRow(specs: seq<SortSpec>, rows: seq<Row>, row: Row) returns (out: seq<Row>)
    requires SortedBy(CmpRows(specs), rows)
    ensures multiset(out) == multiset(rows) + multiset{row} && SortedBy(CmpRows(specs), out)
  {
    var cmp := CmpRows(specs);
    var k := 0;
    while k < |rows| && cmp(rows[k], row) != Greater
      invariant k <= |rows| && forall j | 0 <= j < k :: cmp(rows[j], row) != Greater
    {
      k := k + 1;
    }
    RowsPreorder(specs);
    Inserted(cmp, rows, k, row);
    InsertedMultiset(rows, k, row);
    out := rows[..k] + [row] + rows[k..];
  }

  lemma InsertedMultiset<T>(s: seq<T>, k: nat, x: T)
    requires k <= |s|
    ensures multiset(s[..k] + [x] + s[k..]) == multiset(s) + multiset{x}
  {
    assert s == s[..k] + s[k..];
  }

  method SortRows(specs: seq<SortSpec>, rows: seq<Row>) returns (out: seq<Row>)
    ensures multiset(out) == multiset(rows) && SortedBy(CmpRows(specs), out)
  {
    out := [];
    var i := 0;
    while i < |rows|
      invariant i <= |rows| && multiset(out) == multiset(rows[..i]) && SortedBy(CmpRows(specs), out)
    {
      out := InsertRow(specs, out, rows[i]);
      assert rows[..i + 1] == rows[..i] + [rows[i]];
      i := i + 1;
    }
    assert rows[..i] == rows;
  }

  lemma Inserted<T(!new)>(cmp: (T, T) -> Ordering, s: seq<T>, k: nat, x: T)
    requires TotalPreorder(cmp) && SortedBy(cmp, s) && k <= |s|
    requires forall j | 0 <= j < k :: cmp(s[j], x) != Greater
    requires k < |s| ==> cmp(s[k], x) == Greater
    ensures SortedBy(cmp, s[..k] + [x] + s[k..])
  {
    var t := s[..k] + [x] + s[k..];
    forall j | k <= j < |s| ensures cmp(x, s[j]) != Greater {
      assert cmp(x, s[k]) == Reversed(cmp(s[k], x));
      if k < j { assert cmp(s[k], s[j]) != Greater; }
    }
    forall i, j | 0 <= i < j < |t| ensures cmp(t[i], t[j]) != Greater {
      var a, b := if i < k then i else i - 1, if j <= k then j else j - 1;
      assert i < k ==> t[i] == s[a];
      assert j > k ==> t[j] == s[b];
    }
  }

  /** All matching rows, sorted. */
  ghost predicate IsArranged(p: Row -> bool, specs: seq<SortSpec>, rows: seq<Row>, all: seq<Row>) {
    multiset(all) == multiset(S.Filter(p, rows)) && SortedBy(CmpRows(specs), all)
  }

  /** `out` is the wanted number of first rows of some sorted arrangement of the matching ones. */
  ghost predicate Answers(p: Row -> bool, specs: seq<SortSpec>, count: Option<int>, rows: seq<Row>, out: seq<Row>) {
    exists all | IsArranged(p, specs, rows, all) :: out == all[..Wanted(count, |all|)]
  }

  /** The matching rows, sorted and cut to the count asked for. */
  method Find(num: NumberParser, filter: Filter, friends: bool, specs: seq<SortSpec>, count: Option<int>, rows: seq<Row>)
    returns (out: seq<Row>)
    ensures Answers(row => Hit(num, filter, friends, row), specs, count, rows, out)
  {
    var hits := [];
    ghost var p := row => Hit(num, filter, friends, row);
    var i := 0;
    while i < |rows|
      invariant i <= |rows| && hits == S.Filter(p, rows[..i])
    {
      FilterSnoc(p, rows[..i + 1]);
      assert rows[..i + 1][..i] == rows[..i];
      if Hit(num, filter, friends, rows[i]) {
        hits := hits + [rows[i]];
      }
      i := i + 1;
    }
    assert rows[..i] == rows;
    out := SortRows(specs, hits);
    ghost var all := out;
    if count.Some? && count.value > 0 {
      var c := if count.value <= 1000 then count.value else 1000;
      if c < |out| {
        out := out[..c];
      }
    }
    assert all[..|all|] == all;
    assert IsArranged(p, specs, rows, all) && out == all[..Wanted(count, |all|)];
  }

  lemma {:induction false} FilterMultiset<T>(p: T -> bool, s: seq<T>)
    ensures multiset(S.Filter(p, s)) <= multiset(s)
    ensures forall x :: multiset(S.Filter(p, s))[x] == if p(x) then multiset(s)[x] else 0
  {
    if s != [] {
      FilterMultiset(p, s[1..]);
      assert s == [s[0]] + s[1..];
    }
  }

  lemma SameHits<T>(p: T -> bool, a: seq<T>, b: seq<T>)
    requires multiset(a) == multiset(b)
    ensures multiset(S.Filter(p, a)) == multiset(S.Filter(p, b))
  {
    FilterMultiset(p, a);
    FilterMultiset(p, b);
  }

  lemma ArrangementsTie(p: Row -> bool, specs: seq<SortSpec>, rows1: seq<Row>, rows2: seq<Row>, all1: seq<Row>, all2: seq<Row>)
    requires multiset(rows1) == multiset(rows2) && IsArranged(p, specs, rows1, all1) && IsArranged(p, specs, rows2, all2)
    ensures |all1| == |all2| && forall i | 0 <= i < |all1| :: CmpRows(specs)(all1[i], all2[i]) == Equal
  {
    RowsPreorder(specs);
    SameHits(p, rows1, rows2);
    SortedUpToTies(CmpRows(specs), all1, all2);
  }

  /** The answer does not depend on the order the map gives the rows in, except for ties. */
  lemma TopRows(p: Row -> bool, specs: seq<SortSpec>, count: Option<int>, rows1: seq<Row>, rows2: seq<Row>,
                out1: seq<Row>, out2: seq<Row>)
    requires multiset(rows1) == multiset(rows2) && Answers(p, specs, count, rows1, out1) && Answers(p, specs, count, rows2, out2)
    ensures |out1| == |out2| && forall i | 0 <= i < |out1| :: CmpRows(specs)(out1[i], out2[i]) == Equal
  {
    var all1 :| IsArranged(p, specs, rows1, all1) && out1 == all1[..Wanted(count, |all1|)];
    var all2 :| IsArranged(p, specs, rows2, all2) && out2 == all2[..Wanted(count, |all2|)];
    ArrangementsTie(p, specs, rows1, rows2, all1, all2);
  }

  /** An answer is sorted, holds as many matching rows as asked for, and no matching row that it leaves out
      comes before one that it has. */
  lemma AnswerIsTop(p: Row -> bool, specs: seq<SortSpec>, count: Option<int>, rows: seq<Row>, out: seq<Row>)
    requires Answers(p, specs, count, rows, out)
    ensures var hits := multiset(S.Filter(p, rows));
            && SortedBy(CmpRows(specs), out) && |out| == Wanted(count, |hits|) && multiset(out) <= hits
            && forall x, y | x in out && y in hits - multiset(out) :: CmpRows(specs)(x, y) != Greater
  {
    var all :| IsArranged(p, specs, rows, all) && out == all[..Wanted(count, |all|)];
    assert |all| == |multiset(all)|;
    PrefixIsTop(CmpRows(specs), all, |out|);
  }

  lemma RestOf<T>(all: seq<T>, n: nat)
    requires n <= |all|
    ensures multiset(all[..n]) <= multiset(all) && multiset(all) - multiset(all[..n]) == multiset(all[n..])
  {
    assert all == all[..n] + all[n..];
  }

  lemma PrefixIsTop<T(!new)>(cmp: (T, T) -> Ordering, all: seq<T>, n: nat)
    requires SortedBy(cmp, all) && n <= |all|
    ensures SortedBy(cmp, all[..n]) && multiset(all[..n]) <= multiset(all)
    ensures forall x, y | x in all[..n] && y in multiset(all) - multiset(all[..n]) :: cmp(x, y) != Greater
  {
    RestOf(all, n);
    forall x, y | x in all[..n] && y in multiset(all[n..]) ensures cmp(x, y) != Greater {
      var i :| 0 <= i < n && all[i] == x;
      var j :| n <= j < |all| && all[j] == y;
    }
  }

  // ---------------------------------------------------------------------------
  // Directions
  // ---------------------------------------------------------------------------

  /** Further from or nearer to a target, or larger and smaller. */
  function Rank(spec: SortSpec, x: real): real {
    if spec.distance == None then x
    else if x - spec.distance.value >= 0.0 then x - spec.distance.value else -(x - spec.distance.value)
  }

  /** By one key: smaller first, larger first when descending, a missing value after any other. */
  predicate Earlier(a: Lobby, b: Lobby, spec: SortSpec) {
    var x, y := NumberOf(a, spec.key), NumberOf(b, spec.key);
    x.Some? && (y.Some? ==> if spec.desc then Rank(spec, x.value) > Rank(spec, y.value)
                                          else Rank(spec, x.value) < Rank(spec, y.value))
  }

  /** By the keys in turn, and then the newer lobby first. */
  predicate Precedes(a: Row, b: Row, specs: seq<SortSpec>) {
    if specs == [] then a.created > b.created
    else
      || Earlier(a.lobby, b.lobby, specs[0])
      || (!Earlier(b.lobby, a.lobby, specs[0]) && Precedes(a, b, specs[1..]))
  }

  lemma EarlierIs(a: Lobby, b: Lobby, spec: SortSpec)
    ensures CmpSpec(a, b, spec) == Less <==> Earlier(a, b, spec)
    ensures CmpSpec(a, b, spec) == Greater <==> Earlier(b, a, spec)
  {
  }

  lemma {:induction false} PrecedesIs(a: Row, b: Row, specs: seq<SortSpec>)
    ensures CmpTwo(a, b, specs) == Less <==> Precedes(a, b, specs)
  {
    if specs != [] {
      EarlierIs(a.lobby, b.lobby, specs[0]);
      PrecedesIs(a, b, specs[1..]);
    }
  }

  /** In an answer no row stands behind one that it precedes. */
  lemma AnswerDirection(p: Row -> bool, specs: seq<SortSpec>, count: Option<int>, rows: seq<Row>, out: seq<Row>)
    requires Answers(p, specs, count, rows, out)
    ensures forall i, j | 0 <= i < j < |out| :: !Precedes(out[j], out[i], specs)
  {
    AnswerIsTop(p, specs, count, rows, out);
    RowsPreorder(specs);
    forall i, j | 0 <= i < j < |out| ensures !Precedes(out[j], out[i], specs) {
      PrecedesIs(out[j], out[i], specs);
      assert CmpRows(specs)(out[i], out[j]) != Greater;
      assert CmpRows(specs)(out[j], out[i]) == Reversed(CmpRows(specs)(out[i], out[j]));
    }
  }

  /** A positive count is the most that is returned, and never more than 1000 are. */
  lemma CountMeans(count: Option<int>, found: nat)
    ensures var n := Wanted(count, found);
            if count.Some? && count.value > 0
            then n <= count.value && n <= 1000 && n <= found && (n == count.value || n == 1000 || n == found)
            else n == found
  {
  }

  /** A request with a friends filter finds nothing. */
  lemma FriendsFindNothing(num: NumberParser, filter: Filter, row: Row)
    ensures !Hit(num, filter, true, row) && (Hit(num, filter, false, row) <==> Matches(num, filter, row.lobby))
  {
  }
}
