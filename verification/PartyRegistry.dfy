/** The party registry of the LAN broker, lan-server/src/main.rs: joins and leaves guarded by a sequence
    number, polls that keep a member alive, and a sweep after thirty seconds of silence. */
module PartyRegistry {
  import opened Seqs

  const TTL: real := 30.0

  datatype Member = Member(ip: string, port: nat, seen: real, seqno: nat)
  type Net = map<string, Member>
  type Registry = map<string, Net>

  datatype Request =
    | Join(net: string, entity: string, ip: string, port: nat, seqno: nat, now: real)
    | Leave(net: string, entity: string, seqno: nat, now: real)
    | Peers(net: string, entity: string, now: real)

  function NetOf(reg: Registry, net: string): Net {
    if net in reg then reg[net] else map[]
  }

  function Swept(net: Net, now: real): Net {
    map e | e in net && now - net[e].seen <= TTL :: net[e]
  }

  /** A join of a known member: an older one only shows it is alive. */
  function Rejoined(m: Member, r: Request): Member
    requires r.Join?
  {
    if r.seqno != 0 && m.seqno > r.seqno then m.(seen := r.now)
    else Member(r.ip, r.port, r.now, if m.seqno > r.seqno then m.seqno else r.seqno)
  }

  function JoinNet(net0: Net, r: Request, cap: int): Net
    requires r.Join?
  {
    var net := Swept(net0, r.now);
    if r.entity in net then net[r.entity := Rejoined(net[r.entity], r)]
    else if |net| >= cap then net
    else net[r.entity := Member(r.ip, r.port, r.now, r.seqno)]
  }

  function LeaveNet(net: Net, r: Request): Net
    requires r.Leave?
  {
    if r.entity in net && r.seqno != 0 && net[r.entity].seqno > r.seqno then net else net - {r.entity}
  }

  function PeersNet(net: Net, r: Request): Net
    requires r.Peers?
  {
    Swept(if r.entity != "" && r.entity in net then net[r.entity := net[r.entity].(seen := r.now)] else net, r.now)
  }

  function Handle(reg: Registry, r: Request, cap: int): Registry {
    match r
    case Join(n, _, _, _, _, _) => reg[n := JoinNet(NetOf(reg, n), r, cap)]
    case Leave(n, _, _, _) => if n in reg then reg[n := LeaveNet(reg[n], r)] else reg
    case Peers(n, _, _) => if n in reg then reg[n := PeersNet(reg[n], r)] else reg
  }

  ghost function RunFrom(reg: Registry, rs: seq<Request>, cap: int): Registry {
    Fold((reg, r) => Handle(reg, r, cap), reg, rs)
  }

  // ---------------------------------------------------------------------------
  // The handler, in place
  // ---------------------------------------------------------------------------

  class Broker {
    var party: map<string, map<string, Member>>
    const cap: int

    constructor (cap: int)
      ensures party == map[] && this.cap == cap
    {
      this.party, this.cap := map[], cap;
    }

    method Join(r: Request) returns (joined: bool)
      requires r.Join?
      modifies this
      ensures party == Handle(old(party), r, cap)
      ensures joined <==> r.entity in NetOf(party, r.net)
    {
      var net := Swept(if r.net in party then party[r.net] else map[], r.now);
      party := party[r.net := net];
      var newMember := r.entity !in net;
      if newMember && |net| >= cap {
        return false;
      }
      if newMember {
        net := net[r.entity := Member(r.ip, r.port, r.now, r.seqno)];
      } else {
        var m := net[r.entity];
        if r.seqno != 0 && m.seqno > r.seqno {
          net := net[r.entity := m.(seen := r.now)];
        } else {
          net := net[r.entity := Member(r.ip, r.port, r.now, if m.seqno > r.seqno then m.seqno else r.seqno)];
        }
      }
      party := party[r.net := net];
      return true;
    }

    method Leave(r: Request)
      requires r.Leave?
      modifies this
      ensures party == Handle(old(party), r, cap)
    {
      if r.net in party {
        var net := party[r.net];
        var have := if r.entity in net then net[r.entity].seqno else 0;
        if !(r.seqno != 0 && have > r.seqno) {
          party := party[r.net := net - {r.entity}];
        } else {
          assert old(party)[r.net := net] == old(party);
        }
      }
    }

    method Peers(r: Request) returns (members: Net)
      requires r.Peers?
      modifies this
      ensures party == Handle(old(party), r, cap) && members == NetOf(party, r.net)
    {
      if r.net !in party {
        return map[];
      }
      members := party[r.net];
      if r.entity != "" && r.entity in members {
        members := members[r.entity := members[r.entity].(seen := r.now)];
      }
      members := Swept(members, r.now);
      party := party[r.net := members];
    }
  }

  // ---------------------------------------------------------------------------
  // The cap
  // ---------------------------------------------------------------------------

  ghost predicate WithinCap(reg: Registry, cap: int) {
    forall n <- reg :: |reg[n]| <= cap
  }

  lemma SweptSize(net: Net, now: real)
    ensures |Swept(net, now)| <= |net| && Swept(net, now).Keys <= net.Keys
  {
    SubsetSize(Swept(net, now).Keys, net.Keys);
  }

  lemma JoinWithin(net: Net, r: Request, cap: int)
    requires r.Join? && |net| <= cap
    ensures |JoinNet(net, r, cap)| <= cap
  {
    SweptSize(net, r.now);
    var s := Swept(net, r.now);
    assert r.entity in s ==> JoinNet(net, r, cap).Keys == s.Keys;
  }

  lemma {:induction false} CapHolds(rs: seq<Request>, cap: int)
    requires cap >= 0
    ensures WithinCap(RunFrom(map[], rs, cap), cap)
  {
    if rs != [] {
      var k := |rs| - 1;
      var reg, r := RunFrom(map[], rs[..k], cap), rs[k];
      CapHolds(rs[..k], cap);
      match r
      case Join(n, _, _, _, _, _) => JoinWithin(NetOf(reg, n), r, cap);
      case Leave(n, e, _, _) =>
        if n in reg { SubsetSize((reg[n] - {e}).Keys, reg[n].Keys); }
      case Peers(n, e, now) =>
        if n in reg {
          var net := if e != "" && e in reg[n] then reg[n][e := reg[n][e].(seen := now)] else reg[n];
          assert net.Keys == reg[n].Keys;
          SweptSize(net, now);
        }
    }
  }

  // ---------------------------------------------------------------------------
  // A member that keeps calling stays
  // ---------------------------------------------------------------------------

  /** A request that shows `entity` is alive in `net`. */
  predicate Touches(r: Request, net: string, entity: string) {
    !r.Leave? && r.net == net && r.entity == entity
  }

  /** When `entity` was last heard of. */
  function LastHeard(rs: seq<Request>, net: string, entity: string, start: real): real {
    if rs == [] then start
    else
      var r := rs[|rs| - 1];
      if Touches(r, net, entity) then r.now else LastHeard(rs[..|rs| - 1], net, entity, start)
  }

  /** No request comes more than thirty seconds after `entity` was last heard of, unless it is its own
      poll, and a leave of `entity` is older than its registration. */
  ghost predicate KeepsCalling(rs: seq<Request>, net: string, entity: string, start: real, seqno: nat) {
    forall i | 0 <= i < |rs| ::
      && (rs[i].net == net ==>
            rs[i].now - LastHeard(rs[..i], net, entity, start) <= TTL || (rs[i].Peers? && rs[i].entity == entity))
      && (rs[i].Leave? && rs[i].net == net && rs[i].entity == entity ==> 0 < rs[i].seqno < seqno)
  }

  ghost predicate Registered(reg: Registry, net: string, entity: string, seen: real, seqno: nat) {
    net in reg && entity in reg[net] && reg[net][entity].seen == seen && reg[net][entity].seqno >= seqno
  }

  lemma HandleKeeps(reg: Registry, r: Request, cap: int, net: string, entity: string, seen: real, seqno: nat)
    requires Registered(reg, net, entity, seen, seqno) && entity != ""
    requires r.net == net ==> r.now - seen <= TTL || (r.Peers? && r.entity == entity)
    requires r.Leave? && r.net == net && r.entity == entity ==> 0 < r.seqno < seqno
    ensures Registered(Handle(reg, r, cap), net, entity, if Touches(r, net, entity) then r.now else seen, seqno)
  {
  }

  /** Whatever the other requests, their order and their clocks: a member whose joins and polls are at most
      thirty seconds apart is never swept, and no leave older than its registration removes it. */
  lemma {:induction false} LiveMemberStays(reg: Registry, rs: seq<Request>, cap: int, net: string, entity: string,
                                           start: real, seqno: nat)
    requires Registered(reg, net, entity, start, seqno) && entity != ""
    requires KeepsCalling(rs, net, entity, start, seqno)
    ensures Registered(RunFrom(reg, rs, cap), net, entity, LastHeard(rs, net, entity, start), seqno)
  {
    if rs != [] {
      var k := |rs| - 1;
      assert forall i | 0 <= i < k :: rs[..k][..i] == rs[..i];
      LiveMemberStays(reg, rs[..k], cap, net, entity, start, seqno);
      HandleKeeps(RunFrom(reg, rs[..k], cap), rs[k], cap, net, entity, LastHeard(rs[..k], net, entity, start), seqno);
    }
  }

  /** A request of another member removes a silent one exactly when more than thirty seconds have passed. */
  lemma SweepExact(reg: Registry, r: Request, cap: int, entity: string)
    requires r.net in reg && entity in reg[r.net] && !r.Leave? && r.entity != entity
    ensures entity in Handle(reg, r, cap)[r.net] <==> r.now - reg[r.net][entity].seen <= TTL
  {
  }

  /** A member's row as any later request of somebody else finds it: gone after thirty seconds, else the same. */
  ghost predicate Untouched(net: Net, net': Net, entity: string, swept: bool, now: real) {
    if entity in net && (!swept || now - net[entity].seen <= TTL)
    then entity in net' && net'[entity] == net[entity]
    else entity !in net'
  }

  /** A leave removes its member exactly unless it is tagged and older than the registration; nobody else. */
  lemma LeaveExact(reg: Registry, r: Request, cap: int, entity: string)
    requires r.Leave? && r.net in reg
    ensures var net, net' := reg[r.net], Handle(reg, r, cap)[r.net];
            if entity != r.entity then Untouched(net, net', entity, false, r.now)
            else entity in net' <==> entity in net && 0 < r.seqno < net[entity].seqno
  {
  }

  /** A join registers its member exactly if it is known or there is room; the newest address stays. */
  lemma JoinExact(reg: Registry, r: Request, cap: int, entity: string)
    requires r.Join?
    ensures var net, net' := NetOf(reg, r.net), NetOf(Handle(reg, r, cap), r.net);
            var live := Swept(net, r.now);
            if entity != r.entity then Untouched(net, net', entity, true, r.now)
            else
              && (entity in net' <==> entity in live || |live| < cap)
              && (entity in net' ==> net'[entity].seen == r.now)
              && (entity in net' && entity !in live ==> Holds(net'[entity], r))
              && (entity in live && (r.seqno == 0 || r.seqno >= live[entity].seqno) ==>
                    net'[entity].ip == r.ip && net'[entity].port == r.port)
              && (entity in live && 0 < r.seqno < live[entity].seqno ==>
                    net'[entity].ip == live[entity].ip && net'[entity].port == live[entity].port)
              && (entity in live ==> net'[entity].seqno >= live[entity].seqno && net'[entity].seqno >= r.seqno)
  {
  }

  /** A poll keeps its caller, whatever its age, and sweeps the others. */
  lemma PeersExact(reg: Registry, r: Request, cap: int, entity: string)
    requires r.Peers? && r.net in reg
    ensures var net, net' := reg[r.net], Handle(reg, r, cap)[r.net];
            if entity != r.entity || entity == "" then Untouched(net, net', entity, true, r.now)
            else (entity in net' <==> entity in net) && (entity in net ==> net'[entity] == net[entity].(seen := r.now))
  {
  }

  /** Other networks are left alone. */
  lemma OtherNets(reg: Registry, r: Request, cap: int, net: string)
    requires net != r.net
    ensures NetOf(Handle(reg, r, cap), net) == NetOf(reg, net)
  {
  }

  // ---------------------------------------------------------------------------
  // Joins arrive in any order
  // ---------------------------------------------------------------------------

  predicate IsFor(r: Request, net: string, entity: string) {
    r.Join? && r.net == net && r.entity == entity
  }

  function Names(rs: seq<Request>, net: string): set<string> {
    set r <- rs | r.net == net :: r.entity
  }

  ghost predicate TagsApart(rs: seq<Request>) {
    forall r, q | r in rs && q in rs && r.Join? && IsFor(q, r.net, r.entity) && r.seqno == q.seqno :: r == q
  }

  /** Joins only, tagged apart, within one lifetime, and with room for everyone. */
  ghost predicate TaggedJoins(rs: seq<Request>, cap: int) {
    && (forall r <- rs :: r.Join? && r.seqno > 0)
    && TagsApart(rs)
    && (forall r, q | r in rs && q in rs :: r.now - q.now <= TTL)
    && (forall n :: |Names(rs, n)| <= cap)
  }

  ghost predicate Holds(m: Member, r: Request) {
    r.Join? && m.ip == r.ip && m.port == r.port && m.seqno == r.seqno
  }

  /** Every row comes from a join of that member, and was refreshed by one of the joins. */
  ghost predicate RowsFrom(reg: Registry, rs: seq<Request>) {
    forall n, e | n in reg && e in reg[n] ::
      && (exists r <- rs :: IsFor(r, n, e) && Holds(reg[n][e], r))
      && (exists r <- rs :: r.now == reg[n][e].seen)
  }

  /** No join is newer than its member's row. */
  ghost predicate RowsNewest(reg: Registry, rs: seq<Request>) {
    forall r <- rs | r.Join? :: r.net in reg && r.entity in reg[r.net] && reg[r.net][r.entity].seqno >= r.seqno
  }

  lemma NothingExpires(reg: Registry, rs: seq<Request>, r: Request)
    requires RowsFrom(reg, rs) && r.Join? && forall q <- rs :: r.now - q.now <= TTL
    ensures Swept(NetOf(reg, r.net), r.now) == NetOf(reg, r.net)
  {
    var net := NetOf(reg, r.net);
    forall e <- net ensures r.now - net[e].seen <= TTL {
      assert r.net in reg && e in reg[r.net];
    }
  }

  lemma RoomForAll(reg: Registry, rs: seq<Request>, r: Request, cap: int)
    requires RowsFrom(reg, rs) && r.Join? && |Names(rs + [r], r.net)| <= cap && r.entity !in NetOf(reg, r.net)
    ensures |NetOf(reg, r.net)| < cap
  {
    var net, names := NetOf(reg, r.net), Names(rs + [r], r.net);
    forall e <- net ensures e in names {
      assert r.net in reg && e in reg[r.net];
      var q :| q in rs && IsFor(q, r.net, e);
      assert q in rs + [r];
    }
    assert r in rs + [r] && r.entity in names;
    SubsetSize(net.Keys + {r.entity}, names);
  }

  /** What a join makes of its member's row. */
  lemma RejoinHolds(reg: Registry, rs: seq<Request>, r: Request, m: Member)
    requires RowsFrom(reg, rs) && r.Join? && r.seqno > 0
    requires m == if r.entity in NetOf(reg, r.net) then Rejoined(reg[r.net][r.entity], r) else Member(r.ip, r.port, r.now, r.seqno)
    ensures m.seen == r.now && m.seqno >= r.seqno
    ensures Holds(m, r) || exists q <- rs :: IsFor(q, r.net, r.entity) && Holds(m, q)
  {
    if r.entity in NetOf(reg, r.net) {
      var q :| q in rs && IsFor(q, r.net, r.entity) && Holds(reg[r.net][r.entity], q);
      assert Holds(m, r) || Holds(m, q);
    }
  }

  lemma JoinIs(reg: Registry, rs: seq<Request>, r: Request, cap: int) returns (m: Member)
    requires RowsFrom(reg, rs) && r.Join? && (forall q <- rs :: r.now - q.now <= TTL) && |Names(rs + [r], r.net)| <= cap
    ensures Handle(reg, r, cap) == reg[r.net := NetOf(reg, r.net)[r.entity := m]]
    ensures m == if r.entity in NetOf(reg, r.net) then Rejoined(reg[r.net][r.entity], r) else Member(r.ip, r.port, r.now, r.seqno)
  {
    NothingExpires(reg, rs, r);
    if r.entity !in NetOf(reg, r.net) { RoomForAll(reg, rs, r, cap); }
    m := if r.entity in NetOf(reg, r.net) then Rejoined(reg[r.net][r.entity], r) else Member(r.ip, r.port, r.now, r.seqno);
  }

  lemma RowsGrow(reg: Registry, reg': Registry, rs: seq<Request>, r: Request, m: Member)
    requires RowsFrom(reg, rs) && r.Join? && reg' == reg[r.net := NetOf(reg, r.net)[r.entity := m]] && m.seen == r.now
    requires Holds(m, r) || exists q <- rs :: IsFor(q, r.net, r.entity) && Holds(m, q)
    ensures RowsFrom(reg', rs + [r])
  {
    var all := rs + [r];
    assert r in all && forall q <- rs :: q in all;
    forall n, e | n in reg' && e in reg'[n]
      ensures exists q <- all :: IsFor(q, n, e) && Holds(reg'[n][e], q)
      ensures exists q <- all :: q.now == reg'[n][e].seen
    {
      if n == r.net && e == r.entity {
        assert reg'[n][e] == m;
        if Holds(m, r) { assert IsFor(r, n, e); }
      } else {
        assert n in reg && e in reg[n] && reg'[n][e] == reg[n][e];
      }
    }
  }

  lemma NewestGrow(reg: Registry, reg': Registry, rs: seq<Request>, r: Request, m: Member)
    requires RowsNewest(reg, rs) && r.Join? && reg' == reg[r.net := NetOf(reg, r.net)[r.entity := m]] && m.seqno >= r.seqno
    requires r.entity in NetOf(reg, r.net) ==> m.seqno >= reg[r.net][r.entity].seqno
    ensures RowsNewest(reg', rs + [r])
  {
  }

  lemma {:induction false} NewestJoinWins(rs: seq<Request>, cap: int)
    requires TaggedJoins(rs, cap)
    ensures RowsFrom(RunFrom(map[], rs, cap), rs) && RowsNewest(RunFrom(map[], rs, cap), rs)
  {
    if rs != [] {
      var before, r := rs[..|rs| - 1], rs[|rs| - 1];
      assert rs == before + [r];
      PrefixTagged(before, r, cap);
      NewestJoinWins(before, cap);
      var reg := RunFrom(map[], before, cap);
      var m := JoinIs(reg, before, r, cap);
      RejoinHolds(reg, before, r, m);
      RowsGrow(reg, Handle(reg, r, cap), before, r, m);
      NewestGrow(reg, Handle(reg, r, cap), before, r, m);
    }
  }

  lemma PrefixTagged(before: seq<Request>, r: Request, cap: int)
    requires TaggedJoins(before + [r], cap)
    ensures TaggedJoins(before, cap) && r.Join? && r.seqno > 0 && (forall q <- before :: r.now - q.now <= TTL)
    ensures |Names(before + [r], r.net)| <= cap
  {
    var all := before + [r];
    assert r in all && forall q <- before :: q in all;
    forall n ensures |Names(before, n)| <= cap {
      SubsetSize(Names(before, n), Names(all, n));
    }
  }

  predicate Has(reg: Registry, n: string, e: string) {
    n in reg && e in reg[n]
  }

  predicate SameRow(a: Registry, b: Registry, n: string, e: string) {
    && Has(a, n, e) && Has(b, n, e)
    && a[n][e].ip == b[n][e].ip && a[n][e].port == b[n][e].port && a[n][e].seqno == b[n][e].seqno
  }

  /** What joins may be is a matter of which they are, not of their order. */
  lemma TaggedPermuted(rs: seq<Request>, qs: seq<Request>, cap: int)
    requires TaggedJoins(rs, cap) && multiset(rs) == multiset(qs)
    ensures TaggedJoins(qs, cap)
  {
    forall r ensures r in rs <==> r in qs {
      SameMembers(rs, qs, r);
    }
    forall n ensures |Names(qs, n)| <= cap {
      assert Names(qs, n) == Names(rs, n);
    }
  }

  /** The same tagged joins in any other order leave every member at the same address. */
  lemma OrderDoesNotMatter(rs: seq<Request>, qs: seq<Request>, cap: int)
    requires TaggedJoins(rs, cap) && multiset(rs) == multiset(qs)
    ensures var a, b := RunFrom(map[], rs, cap), RunFrom(map[], qs, cap);
            forall n, e | Has(a, n, e) || Has(b, n, e) :: SameRow(a, b, n, e)
  {
    var a, b := RunFrom(map[], rs, cap), RunFrom(map[], qs, cap);
    TaggedPermuted(rs, qs, cap);
    NewestJoinWins(rs, cap);
    NewestJoinWins(qs, cap);
    forall n, e | Has(a, n, e) || Has(b, n, e) ensures SameRow(a, b, n, e) {
      if Has(a, n, e) {
        OneWay(a, b, rs, qs, n, e);
      } else {
        OneWay(b, a, qs, rs, n, e);
      }
    }
  }

  lemma OneWay(a: Registry, b: Registry, rs: seq<Request>, qs: seq<Request>, n: string, e: string)
    requires RowsFrom(a, rs) && RowsNewest(a, rs) && RowsFrom(b, qs) && RowsNewest(b, qs)
    requires multiset(rs) == multiset(qs) && TagsApart(rs) && Has(a, n, e)
    ensures SameRow(a, b, n, e)
  {
    var r := RowSource(a, rs, n, e);
    SameMembers(rs, qs, r);
    assert Has(b, n, e);
    var q := RowSource(b, qs, n, e);
    SameMembers(rs, qs, q);
    assert r.seqno <= q.seqno <= r.seqno;
  }

  lemma RowSource(reg: Registry, rs: seq<Request>, n: string, e: string) returns (r: Request)
    requires RowsFrom(reg, rs) && Has(reg, n, e)
    ensures r in rs && IsFor(r, n, e) && Holds(reg[n][e], r)
  {
    r :| r in rs && IsFor(r, n, e) && Holds(reg[n][e], r);
  }

  lemma SameMembers(rs: seq<Request>, qs: seq<Request>, r: Request)
    requires multiset(rs) == multiset(qs)
    ensures r in rs <==> r in qs
  {
    assert r in rs <==> r in multiset(rs);
    assert r in qs <==> r in multiset(qs);
  }
}
