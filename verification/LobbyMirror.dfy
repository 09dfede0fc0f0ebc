/** The lobby view of playfab-mp-shim/src/lib.rs and the deltas that announce its changes.

    `At` reads one field of a lobby; a delta covers a set of fields. A title that re-reads exactly the
    covered fields keeps a mirror of the lobby. */
module LobbyMirror {
  import opened Common
  import opened Seqs

  type Props = map<string, string>

  datatype EntityKey = EntityKey(id: string, kind: string)

  /** The fields an Updated diffs, the roster and the connection string. */
  datatype Lobby = Lobby(hasOwner: bool, owner: EntityKey, maxPlayers: int, accessPolicy: int, membershipLock: int,
                         props: Props, search: Props, memberProps: map<string, Props>, members: seq<EntityKey>,
                         connection: string)

  datatype MemberUpdate = MemberUpdate(connection: bool, keys: set<string>)
  datatype Delta = Delta(owner: bool, maxPlayers: bool, accessPolicy: bool, membershipLock: bool,
                         searchKeys: set<string>, lobbyKeys: set<string>, members: map<string, MemberUpdate>)

  // ---------------------------------------------------------------------------
  // Fields
  // ---------------------------------------------------------------------------

  datatype Field = OwnerF | MaxF | AccessF | LockF | PropF(k: string) | SearchF(k: string) | RowF(eid: string)
                 | RowPropF(eid: string, k: string)
  datatype Reading = Owner(has: bool, key: EntityKey) | Number(n: int) | Text(s: string) | Present | Absent

  function Entry(m: Props, k: string): Reading {
    if k in m then Text(m[k]) else Absent
  }

  function At(l: Lobby, f: Field): Reading {
    match f
    case OwnerF => Owner(l.hasOwner, l.owner)
    case MaxF => Number(l.maxPlayers)
    case AccessF => Number(l.accessPolicy)
    case LockF => Number(l.membershipLock)
    case PropF(k) => Entry(l.props, k)
    case SearchF(k) => Entry(l.search, k)
    case RowF(eid) => if eid in l.memberProps then Present else Absent
    case RowPropF(eid, k) => if eid in l.memberProps then Entry(l.memberProps[eid], k) else Absent
  }

  /** The fields that a delta tells the title to re-read. */
  predicate Covers(d: Delta, f: Field) {
    match f
    case OwnerF => d.owner
    case MaxF => d.maxPlayers
    case AccessF => d.accessPolicy
    case LockF => d.membershipLock
    case PropF(k) => k in d.lobbyKeys
    case SearchF(k) => k in d.searchKeys
    case RowF(eid) => eid in d.members && d.members[eid].connection
    case RowPropF(eid, k) => eid in d.members && k in d.members[eid].keys
  }

  // ---------------------------------------------------------------------------
  // The diff
  // ---------------------------------------------------------------------------

  function ChangedKeys(before: Props, after: Props): set<string> {
    (set k | k in after && (k !in before || before[k] != after[k])) + (set k | k in before && k !in after)
  }

  function Row(l: Lobby, eid: string): Props {
    if eid in l.memberProps then l.memberProps[eid] else map[]
  }

  /** A new member is announced even without keys, a known one only for a difference. */
  function RowUpdate(before: Lobby, after: Lobby, eid: string): Option<MemberUpdate> {
    var keys := ChangedKeys(Row(before, eid), Row(after, eid));
    if eid in before.memberProps && keys == {} then None else Some(MemberUpdate(eid !in before.memberProps, keys))
  }

  function MemberUpdates(before: Lobby, after: Lobby): map<string, MemberUpdate> {
    map eid | eid in after.memberProps && RowUpdate(before, after, eid).Some? :: RowUpdate(before, after, eid).value
  }

  function Diff(before: Lobby, after: Lobby): Delta {
    Delta(before.hasOwner != after.hasOwner || before.owner != after.owner,
          before.maxPlayers != after.maxPlayers,
          before.accessPolicy != after.accessPolicy,
          before.membershipLock != after.membershipLock,
          ChangedKeys(before.search, after.search),
          ChangedKeys(before.props, after.props),
          MemberUpdates(before, after))
  }

  predicate IsEmpty(d: Delta) {
    !d.owner && !d.maxPlayers && !d.accessPolicy && !d.membershipLock && d.searchKeys == {} && d.lobbyKeys == {}
    && d.members == map[]
  }

  /** `changed_keys` is exactly the set of keys whose readings differ. */
  lemma ChangedExact(before: Props, after: Props, k: string)
    ensures k in ChangedKeys(before, after) <==> Entry(before, k) != Entry(after, k)
  {
  }

  predicate RowGone(before: Lobby, after: Lobby, f: Field) {
    (f.RowF? || f.RowPropF?) && f.eid in before.memberProps && f.eid !in after.memberProps
  }

  /** A delta covers exactly the fields that differ, rows that are gone excepted. */
  lemma DiffCovers(before: Lobby, after: Lobby, f: Field)
    ensures Covers(Diff(before, after), f) <==> At(before, f) != At(after, f) && !RowGone(before, after, f)
  {
    match f
    case PropF(k) => ChangedExact(before.props, after.props, k);
    case SearchF(k) => ChangedExact(before.search, after.search, k);
    case RowPropF(eid, k) =>
      if eid in after.memberProps {
        ChangedExact(Row(before, eid), after.memberProps[eid], k);
      }
    case _ =>
  }

  predicate RowsKept(before: Lobby, after: Lobby) {
    before.memberProps.Keys <= after.memberProps.Keys
  }

  /** Ignoring removed rows is harmless exactly when there are none. */
  lemma DiffExact(before: Lobby, after: Lobby)
    ensures (forall f :: Covers(Diff(before, after), f) <==> At(before, f) != At(after, f)) <==> RowsKept(before, after)
  {
    forall f ensures Covers(Diff(before, after), f) <==> At(before, f) != At(after, f) && !RowGone(before, after, f) {
      DiffCovers(before, after, f);
    }
    if !RowsKept(before, after) {
      var eid :| eid in before.memberProps && eid !in after.memberProps;
      assert At(before, RowF(eid)) != At(after, RowF(eid)) && RowGone(before, after, RowF(eid));
    }
  }

  /** Nothing is announced exactly when nothing differs. */
  lemma EmptyExact(before: Lobby, after: Lobby)
    requires RowsKept(before, after)
    ensures IsEmpty(Diff(before, after)) <==> forall f :: At(before, f) == At(after, f)
  {
    var d := Diff(before, after);
    DiffExact(before, after);
    if IsEmpty(d) {
      forall f ensures !Covers(d, f) {
      }
    } else {
      if d.searchKeys != {} {
        var k :| k in d.searchKeys;
        assert Covers(d, SearchF(k));
      } else if d.lobbyKeys != {} {
        var k :| k in d.lobbyKeys;
        assert Covers(d, PropF(k));
      } else if d.members != map[] {
        var eid :| eid in d.members;
        if d.members[eid].connection {
          assert Covers(d, RowF(eid));
        } else {
          var k :| k in d.members[eid].keys;
          assert Covers(d, RowPropF(eid, k));
        }
      } else {
        assert Covers(d, OwnerF) || Covers(d, MaxF) || Covers(d, AccessF) || Covers(d, LockF);
      }
    }
  }

  // ---------------------------------------------------------------------------
  // A refresh from the broker
  // ---------------------------------------------------------------------------

  function Hash(s: string): bv64 {
    if s == [] then 2166136261
    else (Hash(s[..|s| - 1]) ^ (s[|s| - 1] as bv64)) * 16777619
  }

  function AccountId(eid: string): string {
    if Numeric(eid) then eid else if Hash(eid) == 0 then "1" else Decimal(Hash(eid) as nat)
  }

  const PLATFORM: string := "member_platform"
  const ACCOUNT: string := "member_platform_account_id"
  const USER_NAME: string := "member_platform_user_name"

  /** A member row with the three entries the title cannot do without. */
  function EnsureRow(mp: Props, eid: string): (r: Props)
    ensures mp.Keys <= r.Keys
    ensures PLATFORM in r && r[PLATFORM] != "" && r[PLATFORM] != "1"
    ensures ACCOUNT in r && Numeric(r[ACCOUNT])
    ensures USER_NAME in r
    ensures forall k <- mp | k != PLATFORM && k != ACCOUNT :: r[k] == mp[k]
  {
    var mp1 := if PLATFORM !in mp || mp[PLATFORM] == "" || mp[PLATFORM] == "1" then mp[PLATFORM := "Steam"] else mp;
    var account := if ACCOUNT in mp1 && Numeric(mp1[ACCOUNT]) then mp1[ACCOUNT] else AccountId(eid);
    var mp2 := mp1[ACCOUNT := account];
    if USER_NAME in mp2 then mp2 else mp2[USER_NAME := "LAN"]
  }

  /** A second pass over a row changes nothing. */
  lemma EnsureRowTwice(mp: Props, eid: string)
    ensures EnsureRow(EnsureRow(mp, eid), eid) == EnsureRow(mp, eid)
  {
    var r := EnsureRow(mp, eid);
    assert r[ACCOUNT := r[ACCOUNT]] == r;
  }

  type RowPass = (Props, string) -> Props

  function RowOr(rows: map<string, Props>, eid: string): Props {
    if eid in rows then rows[eid] else map[]
  }

  /** The broker's rows, local entries filling gaps only, each row then given the pass. */
  function MergedBy(pass: RowPass, got: map<string, Props>, local: map<string, Props>): map<string, Props> {
    map eid | eid in got.Keys + local.Keys :: pass(RowOr(local, eid) + RowOr(got, eid), eid)
  }

  function MergedRows(got: map<string, Props>, local: map<string, Props>): map<string, Props> {
    MergedBy(EnsureRow, got, local)
  }

  datatype Response = NoResponse | Refused | Unreadable | Fresh(lobby: Lobby)

  function Refreshed(l: Lobby, resp: Response): Lobby {
    if !resp.Fresh? then l
    else
      var got := resp.lobby;
      var rows := MergedRows(got.memberProps, l.memberProps);
      var l' := l.(hasOwner := got.hasOwner, owner := got.owner, maxPlayers := got.maxPlayers,
                   accessPolicy := got.accessPolicy, membershipLock := got.membershipLock,
                   props := got.props, search := got.search, connection := got.connection);
      if got.members == [] && l.members != [] then l' else l'.(members := got.members, memberProps := rows)
  }

  /** A refresh never removes a member row, nor a key of a row. */
  lemma RefreshKeepsRows(l: Lobby, resp: Response)
    ensures RowsKept(l, Refreshed(l, resp))
    ensures forall eid <- l.memberProps :: l.memberProps[eid].Keys <= Refreshed(l, resp).memberProps[eid].Keys
  {
  }

  // ---------------------------------------------------------------------------
  // A local update
  // ---------------------------------------------------------------------------

  datatype RowEdit = RowEdit(eid: string, sets: Props, deletes: set<string>)
  datatype Edit = Edit(owner: Option<EntityKey>, maxPlayers: Option<int>, accessPolicy: Option<int>,
                       membershipLock: Option<int>, search: Props, searchDeletes: set<string>, props: Props,
                       propDeletes: set<string>, row: Option<RowEdit>)

  function Or<T>(x: Option<T>, otherwise: T): T {
    if x.Some? then x.value else otherwise
  }

  function Posted(l: Lobby, e: Edit): Lobby {
    var l' := l.(hasOwner := l.hasOwner || e.owner.Some?, owner := Or(e.owner, l.owner),
                 maxPlayers := Or(e.maxPlayers, l.maxPlayers), accessPolicy := Or(e.accessPolicy, l.accessPolicy),
                 membershipLock := Or(e.membershipLock, l.membershipLock),
                 search := (l.search + e.search) - e.searchDeletes, props := (l.props + e.props) - e.propDeletes);
    if e.row.None? || e.row.value.eid == "" || (e.row.value.sets == map[] && e.row.value.deletes == {}) then l'
    else
      var row := e.row.value;
      l'.(memberProps := l.memberProps[row.eid := EnsureRow((Row(l, row.eid) + row.sets) - row.deletes, row.eid)])
  }

  lemma PostKeepsRows(l: Lobby, e: Edit)
    ensures RowsKept(l, Posted(l, e))
  {
  }

  // ---------------------------------------------------------------------------
  // The title's mirror, over every history
  // ---------------------------------------------------------------------------

  /** The lobby, the title's mirror, the Updated changes queued for it, the echoes of posts not yet
      answered, and the fields whose echo was dropped with a refused post. */
  datatype State = State(lobby: Lobby, lockKnown: bool, mirror: Field -> Reading, queue: seq<Delta>, jobs: seq<Delta>,
                         lost: iset<Field>)

  datatype Event = Refresh(resp: Response) | Post(edit: Edit) | PostDone(k: nat, accepted: bool) | Show

  const NO_CHANGE: Delta := Delta(false, false, false, false, {}, {}, map[])

  function Emitted(lockKnown: bool, d: Delta): seq<Delta> {
    var d' := if lockKnown then d else d.(membershipLock := true);
    if IsEmpty(d') then [] else [d']
  }

  ghost function Emit(s: State, d: Delta): State {
    s.(queue := s.queue + Emitted(s.lockKnown, d), lockKnown := s.lockKnown || Emitted(s.lockKnown, d) != [])
  }

  ghost function Reread(mirror: Field -> Reading, l: Lobby, d: Delta): Field -> Reading {
    f => if Covers(d, f) then At(l, f) else mirror(f)
  }

  ghost function Step(s: State, ev: Event): State {
    match ev
    case Refresh(resp) =>
      var l := Refreshed(s.lobby, resp);
      if resp.Refused? then s else Emit(s.(lobby := l), if resp.Fresh? then Diff(s.lobby, l) else NO_CHANGE)
    case Post(edit) =>
      var l := Posted(s.lobby, edit);
      s.(lobby := l, jobs := s.jobs + [Diff(s.lobby, l)])
    case PostDone(k, accepted) =>
      if k >= |s.jobs| then s
      else
        var d, s' := s.jobs[k], s.(jobs := s.jobs[..k] + s.jobs[k + 1..]);
        if !accepted then s'.(lost := s.lost + iset f | Covers(d, f))
        else if IsEmpty(d) then s'
        else Emit(s', d)
    case Show =>
      if s.queue == [] then s
      else
        var d := s.queue[0];
        s.(queue := s.queue[1..], mirror := Reread(s.mirror, s.lobby, d), lost := iset f | f in s.lost && !Covers(d, f))
  }

  ghost predicate Announced(ds: seq<Delta>, f: Field) {
    exists d <- ds :: Covers(d, f)
  }

  /** A field the title has wrong is announced by a change still to come, or lost its echo. */
  ghost predicate Agrees(s: State) {
    forall f :: At(s.lobby, f) == s.mirror(f) || Announced(s.queue, f) || Announced(s.jobs, f) || f in s.lost
  }

  lemma EmitAgrees(s: State, l: Lobby, d: Delta, f: Field)
    requires At(l, f) == s.mirror(f) || Announced(s.queue, f) || Announced(s.jobs, f) || f in s.lost || Covers(d, f)
    ensures var s' := Emit(s.(lobby := l), d);
            At(l, f) == s'.mirror(f) || Announced(s'.queue, f) || Announced(s'.jobs, f) || f in s'.lost
  {
    var more := Emitted(s.lockKnown, d);
    forall x <- s.queue ensures x in s.queue + more {
    }
    if Covers(d, f) {
      assert more != [] && Covers(more[0], f) && more[0] in s.queue + more;
    }
  }

  lemma RefreshAgrees(s: State, resp: Response)
    requires Agrees(s)
    ensures Agrees(Step(s, Refresh(resp)))
  {
    var l := Refreshed(s.lobby, resp);
    var d := if resp.Fresh? then Diff(s.lobby, l) else NO_CHANGE;
    RefreshKeepsRows(s.lobby, resp);
    DiffExact(s.lobby, l);
    if !resp.Refused? {
      forall f ensures At(l, f) == s.mirror(f) || Announced(Emit(s.(lobby := l), d).queue, f)
                       || Announced(s.jobs, f) || f in s.lost {
        EmitAgrees(s, l, d, f);
      }
    }
  }

  lemma PostAgrees(s: State, edit: Edit)
    requires Agrees(s)
    ensures Agrees(Step(s, Post(edit)))
  {
    var l := Posted(s.lobby, edit);
    PostKeepsRows(s.lobby, edit);
    DiffExact(s.lobby, l);
    var d := Diff(s.lobby, l);
    var jobs := s.jobs + [d];
    assert d in jobs && forall x <- s.jobs :: x in jobs;
  }

  lemma PostDoneAgrees(s: State, k: nat, accepted: bool)
    requires Agrees(s)
    ensures Agrees(Step(s, PostDone(k, accepted)))
  {
    if k < |s.jobs| {
      var d, jobs := s.jobs[k], s.jobs[..k] + s.jobs[k + 1..];
      var s1, s' := s.(jobs := jobs), Step(s, PostDone(k, accepted));
      forall f ensures At(s'.lobby, f) == s'.mirror(f) || Announced(s'.queue, f) || Announced(s'.jobs, f) || f in s'.lost {
        if Announced(s.jobs, f) && !Covers(d, f) {
          var x :| x in s.jobs && Covers(x, f);
          assert x in jobs;
        }
        if accepted && !IsEmpty(d) {
          EmitAgrees(s1, s.lobby, d, f);
        }
      }
    }
  }

  lemma ShowAgrees(s: State)
    requires Agrees(s)
    ensures Agrees(Step(s, Show))
  {
    if s.queue != [] {
      var s' := Step(s, Show);
      forall f ensures At(s'.lobby, f) == s'.mirror(f) || Announced(s'.queue, f) || Announced(s'.jobs, f) || f in s'.lost {
        if Announced(s.queue, f) && !Covers(s.queue[0], f) {
          var x :| x in s.queue && Covers(x, f);
          assert x in s'.queue;
        }
      }
    }
  }

  /** A mirror read in full when the lobby handle completes. */
  ghost function Init(l: Lobby, lockKnown: bool): State {
    State(l, lockKnown, f => At(l, f), [], [], iset{})
  }

  ghost function Run(l: Lobby, lockKnown: bool, es: seq<Event>): State {
    Fold(Step, Init(l, lockKnown), es)
  }

  /** Over every interleaving of refreshes, local posts, their answers and the title's reading. */
  lemma {:induction false} MirrorAgrees(l: Lobby, lockKnown: bool, es: seq<Event>)
    ensures Agrees(Run(l, lockKnown, es))
  {
    if es != [] {
      var n := |es| - 1;
      MirrorAgrees(l, lockKnown, es[..n]);
      var s := Run(l, lockKnown, es[..n]);
      match es[n]
      case Refresh(resp) => RefreshAgrees(s, resp);
      case Post(edit) => PostAgrees(s, edit);
      case PostDone(k, accepted) => PostDoneAgrees(s, k, accepted);
      case Show => ShowAgrees(s);
    }
  }

  ghost predicate NoRefusedPost(es: seq<Event>) {
    forall ev <- es :: ev.PostDone? ==> ev.accepted
  }

  lemma {:induction false} NothingLost(l: Lobby, lockKnown: bool, es: seq<Event>)
    requires NoRefusedPost(es)
    ensures Run(l, lockKnown, es).lost == iset{}
  {
    if es != [] {
      var n := |es| - 1;
      assert es[n] in es;
      NothingLost(l, lockKnown, es[..n]);
    }
  }

  /** Once everything announced has been read, and unless a post was refused, the mirror is the lobby. */
  lemma MirrorEqualsLobby(l: Lobby, lockKnown: bool, es: seq<Event>)
    ensures var s := Run(l, lockKnown, es);
            s.queue == [] && s.jobs == [] && NoRefusedPost(es) ==> forall f :: s.mirror(f) == At(s.lobby, f)
  {
    MirrorAgrees(l, lockKnown, es);
    if NoRefusedPost(es) {
      NothingLost(l, lockKnown, es);
    }
  }

  lemma RefreshCovers(l: Lobby, resp: Response, f: Field)
    ensures Covers(Diff(l, Refreshed(l, resp)), f) <==> At(l, f) != At(Refreshed(l, resp), f)
  {
    RefreshKeepsRows(l, resp);
    DiffExact(l, Refreshed(l, resp));
  }

  lemma EmittedCovers(lockKnown: bool, d: Delta, f: Field)
    requires lockKnown || !f.LockF?
    ensures Emitted(lockKnown, d) == [] ==> !Covers(d, f)
    ensures Emitted(lockKnown, d) != [] ==> (Covers(Emitted(lockKnown, d)[0], f) <==> Covers(d, f))
  {
  }

  /** After a refused post, the next refresh puts a field right exactly when what it brings differs from
      the local value, or is what the title already had. */
  lemma NextPollCorrects(s: State, got: Lobby, f: Field)
    requires s.queue == [] && (s.lockKnown || !f.LockF?)
    ensures var l := Refreshed(s.lobby, Fresh(got));
            var s' := Step(Step(s, Refresh(Fresh(got))), Show);
            s'.mirror(f) == At(s'.lobby, f) <==> At(l, f) != At(s.lobby, f) || s.mirror(f) == At(l, f)
  {
    var l := Refreshed(s.lobby, Fresh(got));
    var d := Diff(s.lobby, l);
    var s1 := Step(s, Refresh(Fresh(got)));
    RefreshCovers(s.lobby, Fresh(got), f);
    EmittedCovers(s.lockKnown, d, f);
    assert s1.queue == Emitted(s.lockKnown, d);
  }

  /** The title has the size of the lobby wrong, and no change on its way says so. */
  ghost predicate Behind(s: State, size: int) {
    && s.lobby.maxPlayers == size && s.mirror(MaxF) != Number(size)
    && !Announced(s.queue, MaxF) && !Announced(s.jobs, MaxF)
  }

  /** Nobody gives the lobby another size. */
  predicate LeavesSize(ev: Event, size: int) {
    match ev
    case Refresh(resp) => resp.Fresh? ==> resp.lobby.maxPlayers == size
    case Post(edit) => edit.maxPlayers.Some? ==> edit.maxPlayers.value == size
    case _ => true
  }

  lemma BehindEmits(s: State, d: Delta, size: int)
    requires Behind(s, size) && !Covers(d, MaxF)
    ensures Behind(Emit(s, d), size)
  {
    var more := Emitted(s.lockKnown, d);
    forall x <- s.queue + more ensures !Covers(x, MaxF) {
      assert x in s.queue || x in more;
    }
  }

  lemma BehindStep(s: State, ev: Event, size: int)
    requires Behind(s, size) && LeavesSize(ev, size)
    ensures Behind(Step(s, ev), size)
  {
    match ev
    case Refresh(resp) =>
      var l := Refreshed(s.lobby, resp);
      if !resp.Refused? {
        BehindEmits(s.(lobby := l), if resp.Fresh? then Diff(s.lobby, l) else NO_CHANGE, size);
      }
    case PostDone(k, accepted) =>
      if k < |s.jobs| {
        assert s.jobs[k] in s.jobs;
        BehindEmits(s.(jobs := s.jobs[..k] + s.jobs[k + 1..]), s.jobs[k], size);
      }
    case _ =>
  }

  lemma {:induction false} BehindStays(s: State, es: seq<Event>, size: int)
    requires Behind(s, size) && forall ev <- es :: LeavesSize(ev, size)
    ensures Behind(Fold(Step, s, es), size)
  {
    if es != [] {
      var n := |es| - 1;
      assert es[n] in es;
      BehindStays(s, es[..n], size);
      BehindStep(Fold(Step, s, es[..n]), es[n], size);
    }
  }

  /** A post of a new size that the service applied although its answer was lost: whatever refreshes,
      posts and reading follow, the title stays behind until somebody gives the lobby another size. */
  lemma LostEchoStays(l: Lobby, size: int, es: seq<Event>)
    requires l.maxPlayers != size && forall ev <- es :: LeavesSize(ev, size)
    ensures var edit := Edit(None, Some(size), None, None, map[], {}, map[], {}, None);
            Behind(Run(l, true, [Post(edit), PostDone(0, false)] + es), size)
  {
    var edit := Edit(None, Some(size), None, None, map[], {}, map[], {}, None);
    var s1 := Step(Init(l, true), Post(edit));
    var s2 := Step(s1, PostDone(0, false));
    FoldSnoc(Step, Init(l, true), [], Post(edit));
    FoldSnoc(Step, Init(l, true), [Post(edit)], PostDone(0, false));
    assert [] + [Post(edit)] == [Post(edit)] && [Post(edit)] + [PostDone(0, false)] == [Post(edit), PostDone(0, false)];
    FoldConcat(Step, Init(l, true), [Post(edit), PostDone(0, false)], es);
    BehindStays(s2, es, size);
  }

  // ---------------------------------------------------------------------------
  // What the lobby reads after a refresh, and after a local post
  // ---------------------------------------------------------------------------

  /** The fields that a refresh takes from the broker's answer as they are. */
  predicate FromBroker(f: Field) {
    !f.RowF? && !f.RowPropF?
  }

  /** After a refresh the lobby reads as the broker's answer does. */
  lemma RefreshReads(l: Lobby, got: Lobby, f: Field)
    requires FromBroker(f)
    ensures At(Refreshed(l, Fresh(got)), f) == At(got, f) && Refreshed(l, Fresh(got)).connection == got.connection
  {
  }

  /** An answer without members is not taken for a roster while the lobby has one. */
  predicate TakesRoster(l: Lobby, got: Lobby) {
    got.members != [] || l.members == []
  }

  /** Member rows: the broker's entry where it has one, the local one otherwise; the three entries the
      title needs are completed. Without a roster nothing changes. */
  lemma RefreshReadsRows(l: Lobby, got: Lobby, eid: string, k: string)
    ensures var l' := Refreshed(l, Fresh(got));
            var theirs, ours := At(got, RowPropF(eid, k)), At(l, RowPropF(eid, k));
            if !TakesRoster(l, got) then
              l'.members == l.members && At(l', RowPropF(eid, k)) == ours && At(l', RowF(eid)) == At(l, RowF(eid))
            else
              && l'.members == got.members
              && (At(l', RowF(eid)) == Present <==> At(got, RowF(eid)) == Present || At(l, RowF(eid)) == Present)
              && (k != PLATFORM && k != ACCOUNT && k != USER_NAME ==>
                    At(l', RowPropF(eid, k)) == if theirs != Absent then theirs else ours)
  {
    if TakesRoster(l, got) {
      TakenRow(l, got, eid, k);
      if k != PLATFORM && k != ACCOUNT && k != USER_NAME { RowReading(l, got, Refreshed(l, Fresh(got)), eid, k); }
    } else {
      KeptRows(l, got);
    }
  }

  lemma RowReading(l: Lobby, got: Lobby, l': Lobby, eid: string, k: string)
    requires eid in l'.memberProps <==> eid in l.memberProps || eid in got.memberProps
    requires eid in l'.memberProps ==>
               Entry(l'.memberProps[eid], k) == Entry(RowOr(l.memberProps, eid) + RowOr(got.memberProps, eid), k)
    ensures var theirs, ours := At(got, RowPropF(eid, k)), At(l, RowPropF(eid, k));
            At(l', RowPropF(eid, k)) == if theirs != Absent then theirs else ours
  {
  }

  lemma KeptRows(l: Lobby, got: Lobby)
    requires !TakesRoster(l, got)
    ensures var l' := Refreshed(l, Fresh(got)); l'.members == l.members && l'.memberProps == l.memberProps
  {
  }

  lemma TakenRow(l: Lobby, got: Lobby, eid: string, k: string)
    requires TakesRoster(l, got)
    ensures var l', row := Refreshed(l, Fresh(got)), RowOr(l.memberProps, eid) + RowOr(got.memberProps, eid);
            && l'.members == got.members
            && (eid in l'.memberProps <==> eid in l.memberProps || eid in got.memberProps)
            && (eid in l'.memberProps ==> l'.memberProps[eid] == EnsureRow(row, eid))
            && (k != PLATFORM && k != ACCOUNT && k != USER_NAME && eid in l'.memberProps ==>
                  Entry(l'.memberProps[eid], k) == Entry(row, k))
  {
    EnsureRowReads(RowOr(l.memberProps, eid) + RowOr(got.memberProps, eid), eid, k);
  }

  /** Completing a row touches its three entries only, and a good entry not at all. */
  lemma EnsureRowReads(mp: Props, eid: string, k: string)
    ensures k != PLATFORM && k != ACCOUNT && k != USER_NAME ==> Entry(EnsureRow(mp, eid), k) == Entry(mp, k)
    ensures PLATFORM in mp && mp[PLATFORM] != "" && mp[PLATFORM] != "1" ==> EnsureRow(mp, eid)[PLATFORM] == mp[PLATFORM]
    ensures ACCOUNT in mp && Numeric(mp[ACCOUNT]) ==> EnsureRow(mp, eid)[ACCOUNT] == mp[ACCOUNT]
    ensures !(ACCOUNT in mp && Numeric(mp[ACCOUNT])) && Numeric(eid) ==> EnsureRow(mp, eid)[ACCOUNT] == eid
    ensures EnsureRow(mp, eid)[USER_NAME] == if USER_NAME in mp then mp[USER_NAME] else "LAN"
    ensures !(PLATFORM in mp && mp[PLATFORM] != "" && mp[PLATFORM] != "1") ==> EnsureRow(mp, eid)[PLATFORM] == "Steam"
  {
  }

  /** What a key of a property bag reads after sets and deletes: a delete wins. */
  function Edited(before: Reading, sets: Props, deletes: set<string>, k: string): Reading {
    if k in deletes then Absent else if k in sets then Text(sets[k]) else before
  }

  lemma EditedEntry(m: Props, sets: Props, deletes: set<string>, k: string)
    ensures Entry((m + sets) - deletes, k) == Edited(Entry(m, k), sets, deletes, k)
  {
  }

  /** After a local post the lobby reads as the edit says, and as before where it says nothing. */
  lemma PostReads(l: Lobby, e: Edit, k: string)
    ensures var l' := Posted(l, e);
            && At(l', OwnerF) == (if e.owner.Some? then Owner(true, e.owner.value) else At(l, OwnerF))
            && At(l', MaxF) == Number(Or(e.maxPlayers, l.maxPlayers))
            && At(l', AccessF) == Number(Or(e.accessPolicy, l.accessPolicy))
            && At(l', LockF) == Number(Or(e.membershipLock, l.membershipLock))
            && At(l', SearchF(k)) == Edited(At(l, SearchF(k)), e.search, e.searchDeletes, k)
            && At(l', PropF(k)) == Edited(At(l, PropF(k)), e.props, e.propDeletes, k)
  {
    PostedFields(l, e);
    EditedEntry(l.search, e.search, e.searchDeletes, k);
    EditedEntry(l.props, e.props, e.propDeletes, k);
  }

  lemma PostedFields(l: Lobby, e: Edit)
    ensures var l' := Posted(l, e);
            && l'.hasOwner == (l.hasOwner || e.owner.Some?) && l'.owner == Or(e.owner, l.owner)
            && l'.maxPlayers == Or(e.maxPlayers, l.maxPlayers) && l'.accessPolicy == Or(e.accessPolicy, l.accessPolicy)
            && l'.membershipLock == Or(e.membershipLock, l.membershipLock)
            && l'.search == (l.search + e.search) - e.searchDeletes && l'.props == (l.props + e.props) - e.propDeletes
  {
  }

  lemma PostReadsRows(l: Lobby, e: Edit, eid: string, k: string)
    requires k != PLATFORM && k != ACCOUNT && k != USER_NAME
    ensures var l', mine := Posted(l, e), e.row.Some? && e.row.value.eid == eid && eid != "";
            At(l', RowPropF(eid, k)) == if mine then Edited(At(l, RowPropF(eid, k)), e.row.value.sets, e.row.value.deletes, k)
                                        else At(l, RowPropF(eid, k))
  {
    if e.row.Some? && e.row.value.eid == eid && eid != "" {
      EditedEntry(Row(l, eid), e.row.value.sets, e.row.value.deletes, k);
      EnsureRowReads((Row(l, eid) + e.row.value.sets) - e.row.value.deletes, eid, k);
    }
  }

  // ---------------------------------------------------------------------------
  // The title sees what the broker said
  // ---------------------------------------------------------------------------

  /** Neither a local post nor another lobby from the broker. */
  predicate LeavesLobby(ev: Event) {
    !ev.Post? && (ev.Refresh? ==> !ev.resp.Fresh?)
  }

  lemma {:induction false} LobbyStays(s: State, es: seq<Event>)
    requires forall ev <- es :: LeavesLobby(ev)
    ensures Fold(Step, s, es).lobby == s.lobby
  {
    if es != [] {
      assert es[|es| - 1] in es;
      LobbyStays(s, es[..|es| - 1]);
    }
  }

  /** Over every history: after a refresh, once everything announced has been read and no post came in
      between or was refused, the title reads what the broker answered. */
  lemma MirrorEqualsBroker(l: Lobby, lockKnown: bool, before: seq<Event>, got: Lobby, after: seq<Event>, f: Field)
    requires FromBroker(f) && forall ev <- after :: LeavesLobby(ev)
    ensures var es := before + [Refresh(Fresh(got))] + after;
            var s := Run(l, lockKnown, es);
            s.queue == [] && s.jobs == [] && NoRefusedPost(es) ==> s.mirror(f) == At(got, f)
  {
    var es := before + [Refresh(Fresh(got))];
    var s := Run(l, lockKnown, before);
    FoldSnoc(Step, Init(l, lockKnown), before, Refresh(Fresh(got)));
    FoldConcat(Step, Init(l, lockKnown), es, after);
    LobbyStays(Step(s, Refresh(Fresh(got))), after);
    RefreshReads(s.lobby, got, f);
    MirrorEqualsLobby(l, lockKnown, es + after);
  }

  // ---------------------------------------------------------------------------
  // The membership lock is always told first
  // ---------------------------------------------------------------------------

  /** Nothing has been announced before the lock is known. */
  lemma {:induction false} UntoldIsEmpty(l: Lobby, es: seq<Event>)
    ensures !Run(l, false, es).lockKnown ==> Run(l, false, es).queue == []
  {
    if es != [] {
      UntoldIsEmpty(l, es[..|es| - 1]);
    }
  }

  /** Over every history, the first change announced tells the membership lock, changed or not. */
  lemma LockToldFirst(l: Lobby, es: seq<Event>, ev: Event)
    requires !Run(l, false, es).lockKnown
    ensures var t := Step(Run(l, false, es), ev);
            && (t.lockKnown <==> t.queue != [])
            && (t.queue != [] ==> Covers(t.queue[0], LockF) && |t.queue| == 1)
  {
    UntoldIsEmpty(l, es);
  }

  // ---------------------------------------------------------------------------
  // Account numbers
  // ---------------------------------------------------------------------------

  lemma HashedOnce(h: bv64, x: bv64)
    requires h == 2166136261 && x == 97
    ensures (h ^ x) * 16777619 == 36342608335481132
  {
  }

  lemma HashOfA()
    ensures Hash(['a']) == 36342608335481132
  {
    var s := ['a'];
    assert s[..|s| - 1] == [];
    assert s[|s| - 1] as bv64 == 97;
    HashedOnce(Hash(s[..|s| - 1]), s[|s| - 1] as bv64);
  }

  /** The account number made up for the entity "a": 64-bit arithmetic with wrap-around. */
  lemma AccountOfA()
    ensures Hash(['a']) == 36342608335481132 && AccountId(['a']) == Decimal(Hash(['a']) as nat)
  {
    HashOfA();
    assert !IsDigit(['a'][0]);
  }
}
