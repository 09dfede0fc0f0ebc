/** The loops of `changed_keys`, `diff_lobby` and `apply_refresh`, in place, against module `LobbyMirror`.
    Hash maps are walked in an arbitrary order. */
module LobbyRefresh {
  import opened Common
  import opened LobbyMirror

  // ---------------------------------------------------------------------------
  // Sorting keys
  // ---------------------------------------------------------------------------

  /** The order of strings. */
  predicate Below(a: string, b: string) {
    b != [] && (a == [] || a[0] < b[0] || (a[0] == b[0] && Below(a[1..], b[1..])))
  }

  lemma {:induction false} BelowTrans(a: string, b: string, c: string)
    requires Below(a, b) && Below(b, c)
    ensures Below(a, c)
  {
    if a != [] && a[0] == b[0] == c[0] { BelowTrans(a[1..], b[1..], c[1..]); }
  }

  lemma {:induction false} BelowTotal(a: string, b: string)
    ensures Below(a, b) || a == b || Below(b, a)
  {
    if a != [] && b != [] && a[0] == b[0] {
      BelowTotal(a[1..], b[1..]);
      assert a == [a[0]] + a[1..] && b == [b[0]] + b[1..];
    }
  }

  lemma {:induction false} BelowStrict(a: string)
    ensures !Below(a, a)
  {
    if a != [] { BelowStrict(a[1..]); }
  }

  ghost predicate Ascending(s: seq<string>) {
    forall i, j | 0 <= i < j < |s| :: Below(s[i], s[j])
  }

  lemma Spliced(keys: seq<string>, i: nat, k: string)
    requires Ascending(keys) && i <= |keys| && (forall j | 0 <= j < i :: Below(keys[j], k))
    requires i < |keys| ==> Below(k, keys[i])
    ensures Ascending(keys[..i] + [k] + keys[i..])
  {
    forall j | i <= j < |keys| ensures Below(k, keys[j]) {
      if i < j { BelowTrans(k, keys[i], keys[j]); }
    }
    var out := keys[..i] + [k] + keys[i..];
    forall a, b | 0 <= a < b < |out| ensures Below(out[a], out[b]) {
      assert a < i ==> out[a] == keys[a];
      assert b > i ==> out[b] == keys[b - 1];
      assert a > i ==> out[a] == keys[a - 1];
      assert b < i ==> out[b] == keys[b];
    }
  }

  /** A key goes to its place, unless it is there already. */
  method InsertKey(keys: seq<string>, k: string) returns (out: seq<string>)
    requires Ascending(keys)
    ensures Ascending(out) && forall x :: x in out <==> x in keys || x == k
  {
    var i := 0;
    while i < |keys| && Below(keys[i], k)
      invariant i <= |keys| && forall j | 0 <= j < i :: Below(keys[j], k)
    {
      i := i + 1;
    }
    if i < |keys| && keys[i] == k {
      return keys;
    }
    if i < |keys| { BelowTotal(keys[i], k); }
    Spliced(keys, i, k);
    assert keys == keys[..i] + keys[i..];
    out := keys[..i] + [k] + keys[i..];
  }

  method SortKeys(keys: seq<string>) returns (out: seq<string>)
    ensures Ascending(out) && forall x :: x in out <==> x in keys
  {
    out := [];
    var i := 0;
    while i < |keys|
      invariant i <= |keys| && Ascending(out) && forall x :: x in out <==> x in keys[..i]
    {
      out := InsertKey(out, keys[i]);
      assert keys[..i + 1] == keys[..i] + [keys[i]];
      i := i + 1;
    }
    assert keys[..i] == keys;
  }

  /** There is one ascending list of a set of keys. */
  lemma {:induction false} AscendingUnique(a: seq<string>, b: seq<string>)
    requires Ascending(a) && Ascending(b) && forall x :: x in a <==> x in b
    ensures a == b
    decreases |a|
  {
    if a != [] {
      assert a[0] in a && a[0] in b;
      assert b[0] in b && b[0] in a;
      SameFirst(a, b);
      forall x ensures x in a[1..] <==> x in b[1..] {
        InTail(a, x);
        InTail(b, x);
      }
      AscendingUnique(a[1..], b[1..]);
      assert a == [a[0]] + a[1..] && b == [b[0]] + b[1..];
    } else if b != [] {
      HasSome(b);
      assert false;
    }
  }

  lemma HasSome(a: seq<string>)
    requires a != []
    ensures exists x :: x in a
  {
    assert a[0] in a;
  }

  lemma InTail(a: seq<string>, x: string)
    requires Ascending(a) && a != []
    ensures x in a[1..] <==> x in a && x != a[0]
  {
    BelowStrict(a[0]);
    assert a == [a[0]] + a[1..];
    if x in a[1..] {
      var i :| 0 <= i < |a| - 1 && a[1..][i] == x;
      assert a[i + 1] == x;
    }
  }

  lemma SameFirst(a: seq<string>, b: seq<string>)
    requires Ascending(a) && Ascending(b) && a != [] && b != [] && a[0] in b && b[0] in a
    ensures a[0] == b[0]
  {
    var i :| 0 <= i < |b| && b[i] == a[0];
    var j :| 0 <= j < |a| && a[j] == b[0];
    if i > 0 && j > 0 {
      BelowTrans(a[0], a[j], b[i]);
      BelowStrict(a[0]);
    }
  }

  // ---------------------------------------------------------------------------
  // The diff
  // ---------------------------------------------------------------------------

  /** Every differing key, once and in order; `AscendingUnique` says that this fixes the list. */
  method ChangedKeyList(before: Props, after: Props) returns (keys: seq<string>)
    ensures (set k <- keys) == ChangedKeys(before, after)
    ensures Ascending(keys)
  {
    var found := DifferingKeys(before, after);
    keys := SortKeys(found);
  }

  /** The two loops over the maps. */
  method DifferingKeys(before: Props, after: Props) returns (keys: seq<string>)
    ensures (set k <- keys) == ChangedKeys(before, after)
  {
    keys := [];
    var todo := after.Keys;
    while todo != {}
      invariant todo <= after.Keys
      invariant forall k :: k in keys <==> k in after && k !in todo && (k !in before || before[k] != after[k])
      decreases |todo|
    {
      var k :| k in todo;
      if !(k in before && before[k] == after[k]) {
        keys := keys + [k];
      }
      todo := todo - {k};
    }
    todo := before.Keys;
    while todo != {}
      invariant todo <= before.Keys
      invariant forall k :: k in keys <==> (k in after && (k !in before || before[k] != after[k]))
                                           || (k in before && k !in todo && k !in after)
      decreases |todo|
    {
      var k :| k in todo;
      if k !in after {
        keys := keys + [k];
      }
      todo := todo - {k};
    }
  }

  method DiffRow(before: Lobby, after: Lobby, eid: string) returns (u: Option<MemberUpdate>)
    ensures u == RowUpdate(before, after, eid)
  {
    var keys := ChangedKeyList(Row(before, eid), Row(after, eid));
    ghost var changed := set k <- keys;
    assert keys != [] ==> keys[0] in changed;
    if eid in before.memberProps && keys == [] {
      return None;
    }
    return Some(MemberUpdate(eid !in before.memberProps, set k <- keys));
  }

  /** The updates of the rows no longer in `todo`. */
  ghost predicate Collected(f: string -> Option<MemberUpdate>, rows: set<string>, todo: set<string>,
                            updates: map<string, MemberUpdate>) {
    && todo <= rows
    && (forall eid :: eid in updates <==> eid in rows && eid !in todo && f(eid).Some?)
    && (forall eid <- updates :: f(eid) == Some(updates[eid]))
  }

  method DiffRows(before: Lobby, after: Lobby) returns (updates: map<string, MemberUpdate>)
    ensures updates == MemberUpdates(before, after)
  {
    ghost var f := eid => RowUpdate(before, after, eid);
    updates := map[];
    var todo := after.memberProps.Keys;
    while todo != {}
      invariant Collected(f, after.memberProps.Keys, todo, updates)
      decreases |todo|
    {
      var eid :| eid in todo;
      var u := DiffRow(before, after, eid);
      assert u == f(eid);
      if u.Some? {
        updates := updates[eid := u.value];
      }
      todo := todo - {eid};
    }
    CollectedAll(before, after, updates);
  }

  lemma CollectedAll(before: Lobby, after: Lobby, updates: map<string, MemberUpdate>)
    requires Collected(eid => RowUpdate(before, after, eid), after.memberProps.Keys, {}, updates)
    ensures updates == MemberUpdates(before, after)
  {
  }

  method DiffLobby(before: Lobby, after: Lobby) returns (d: Delta)
    ensures d == Diff(before, after)
  {
    var lobbyKeys := ChangedKeyList(before.props, after.props);
    var searchKeys := ChangedKeyList(before.search, after.search);
    var updates := DiffRows(before, after);
    d := Delta(before.hasOwner != after.hasOwner || before.owner != after.owner,
               before.maxPlayers != after.maxPlayers, before.accessPolicy != after.accessPolicy,
               before.membershipLock != after.membershipLock, (set k <- searchKeys), (set k <- lobbyKeys), updates);
  }

  /** Local entries fill the gaps of a row. */
  method FillGaps(row: Props, local: Props) returns (r: Props)
    ensures r == local + row
  {
    r := row;
    var todo := local.Keys;
    while todo != {}
      invariant todo <= local.Keys && r.Keys == row.Keys + (local.Keys - todo)
      invariant forall k <- r :: r[k] == if k in row then row[k] else local[k]
      decreases |todo|
    {
      var k :| k in todo;
      if k !in r {
        r := r[k := local[k]];
      }
      todo := todo - {k};
    }
  }

  function FilledRow(pass: RowPass, got: map<string, Props>, local: map<string, Props>, eid: string): Props
    requires eid in local
  {
    pass(local[eid] + RowOr(got, eid), eid)
  }

  /** The local rows no longer in `todo` are merged, the rest is as the broker sent it. */
  ghost predicate Filling(pass: RowPass, got: map<string, Props>, local: map<string, Props>, todo: set<string>,
                          rows: map<string, Props>) {
    && todo <= local.Keys && rows.Keys == got.Keys + (local.Keys - todo)
    && (forall eid <- local.Keys - todo :: rows[eid] == FilledRow(pass, got, local, eid))
    && (forall eid <- rows | eid in todo || eid !in local :: eid in got && rows[eid] == got[eid])
  }

  lemma FillingStep(pass: RowPass, got: map<string, Props>, local: map<string, Props>, todo: set<string>,
                    rows: map<string, Props>, eid: string)
    requires Filling(pass, got, local, todo, rows) && eid in todo
    ensures Filling(pass, got, local, todo - {eid}, rows[eid := pass(local[eid] + RowOr(rows, eid), eid)])
  {
    assert RowOr(rows, eid) == RowOr(got, eid);
  }

  /** The first loop of the merge: local rows into the broker's. */
  method FillRows(pass: RowPass, got: map<string, Props>, local: map<string, Props>) returns (rows: map<string, Props>)
    ensures Filling(pass, got, local, {}, rows)
  {
    rows := got;
    var todo := local.Keys;
    while todo != {}
      invariant Filling(pass, got, local, todo, rows)
      decreases |todo|
    {
      var eid :| eid in todo;
      var filled := FillGaps(RowOr(rows, eid), local[eid]);
      FillingStep(pass, got, local, todo, rows, eid);
      rows := rows[eid := pass(filled, eid)];
      todo := todo - {eid};
    }
  }

  /** The second loop: the same pass over every row. */
  method PassRows(pass: RowPass, rows: map<string, Props>) returns (r: map<string, Props>)
    ensures r == map eid | eid in rows :: pass(rows[eid], eid)
  {
    r := rows;
    var todo := rows.Keys;
    while todo != {}
      invariant todo <= rows.Keys && r.Keys == rows.Keys
      invariant forall eid <- r :: r[eid] == if eid in todo then rows[eid] else pass(rows[eid], eid)
      decreases |todo|
    {
      var eid :| eid in todo;
      r := r[eid := pass(r[eid], eid)];
      todo := todo - {eid};
    }
  }

  method MergeRows(got: map<string, Props>, local: map<string, Props>) returns (rows: map<string, Props>)
    ensures rows == MergedRows(got, local)
  {
    var filled := FillRows(EnsureRow, got, local);
    rows := PassRows(EnsureRow, filled);
    forall mp: Props, eid ensures EnsureRow(EnsureRow(mp, eid), eid) == EnsureRow(mp, eid) {
      EnsureRowTwice(mp, eid);
    }
    MergedIs(EnsureRow, got, local, filled);
  }

  /** For a pass that is idempotent, the two loops are one. */
  lemma MergedIs(pass: RowPass, got: map<string, Props>, local: map<string, Props>, filled: map<string, Props>)
    requires Filling(pass, got, local, {}, filled)
    requires forall mp: Props, eid :: pass(pass(mp, eid), eid) == pass(mp, eid)
    ensures (map eid | eid in filled :: pass(filled[eid], eid)) == MergedBy(pass, got, local)
  {
    forall eid <- filled ensures pass(filled[eid], eid) == pass(RowOr(local, eid) + RowOr(got, eid), eid) {
      if eid in local {
        assert eid in local.Keys - {};
        assert filled[eid] == FilledRow(pass, got, local, eid);
      } else {
        assert map[] + got[eid] == got[eid];
      }
    }
  }

  class LobbyHandle {
    var lobby: Lobby
    var announced: set<string>

    constructor (l: Lobby)
      ensures lobby == l && announced == {}
    {
      lobby, announced := l, {};
    }

    /** Applies one answer: who left among those announced, whether the lobby is gone, and what changed. */
    method ApplyRefresh(resp: Response) returns (departed: set<string>, gone: bool, delta: Delta)
      modifies this`lobby
      ensures lobby == Refreshed(old(lobby), resp)
      ensures delta == if resp.Fresh? then Diff(old(lobby), lobby) else NO_CHANGE
      ensures gone <==> resp.Refused?
      ensures departed == if resp.Fresh? then announced - (set k <- lobby.members :: k.id) else {}
    {
      departed, gone, delta := {}, resp.Refused?, NO_CHANGE;
      if resp.Fresh? {
        var got := resp.lobby;
        var rows := MergeRows(got.memberProps, lobby.memberProps);
        var before := lobby;
        lobby := lobby.(hasOwner := got.hasOwner, owner := got.owner, maxPlayers := got.maxPlayers,
                        accessPolicy := got.accessPolicy, membershipLock := got.membershipLock,
                        props := got.props, search := got.search, connection := got.connection);
        if !(got.members == [] && lobby.members != []) {
          lobby := lobby.(members := got.members, memberProps := rows);
        }
        departed := announced - (set k <- lobby.members :: k.id);
        delta := DiffLobby(before, lobby);
      }
    }
  }
}
