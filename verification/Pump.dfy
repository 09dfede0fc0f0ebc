/** The Party state-change queue (party-shim/src/lib.rs): `queue_sc`, the Start drain, Finish. */
module Pump {
  import opened Seqs
  import opened SerialNumbers

  type NetId = nat
  type Entity = string

  const BATCH_CAP: nat := 32
  const PENDING_CAP: nat := 128
  const LEDGER_TYPES: nat := 32

  /** A state change: type 10 for a network, type 12 and type 21 for a remote of a network, or
      another control completion. */
  datatype Change =
    | LocalEndpoint(net: NetId)
    | RemoteEndpoint(net: NetId, ent: Entity)
    | Message(net: NetId, ent: Entity, payload: Bytes, recvOptions: u32)
    | Other(ty: nat)

  function Type(c: Change): nat {
    match c
    case LocalEndpoint(_) => 10
    case RemoteEndpoint(_, _) => 12
    case Message(_, _, _, _) => 21
    case Other(ty) => ty
  }

  predicate Is21(c: Change) {
    c.Message?
  }

  predicate IsControl(c: Change) {
    !c.Message?
  }

  /** Counts per type (types of 32 and above are not counted), and drain counters. */
  datatype Ledger = Ledger(
    queued: multiset<nat>, handed: multiset<nat>, reclaimed: multiset<nat>,
    batches: nat, lastBatch: nat, lastReclaimed: nat, deferred21: nat, capHits: nat, dropped: nat)

  datatype PumpState = PumpState(pending: seq<Change>, inFlight: seq<Change>, outstanding: bool, ledger: Ledger)

  const NEW_LEDGER := Ledger(multiset{}, multiset{}, multiset{}, 0, 0, 0, 0, 0, 0)
  const NEW_PUMP := PumpState([], [], false, NEW_LEDGER)

  function OneType(c: Change): multiset<nat> {
    if Type(c) < LEDGER_TYPES then multiset{Type(c)} else multiset{}
  }

  function Types(cs: seq<Change>): multiset<nat> {
    if cs == [] then multiset{} else OneType(cs[0]) + Types(cs[1..])
  }

  lemma SumAssoc(a: multiset<nat>, b: multiset<nat>, c: multiset<nat>)
    ensures (a + b) + c == a + (b + c)
    ensures a + b == b + a
  {
  }

  lemma {:induction false} TypesConcat(a: seq<Change>, b: seq<Change>)
    ensures Types(a + b) == Types(a) + Types(b)
  {
    if a == [] {
      assert a + b == b;
    } else {
      var c := a + b;
      calc {
        Types(c);
        OneType(c[0]) + Types(c[1..]);
        { assert c[1..] == a[1..] + b; }
        OneType(a[0]) + Types(a[1..] + b);
        { TypesConcat(a[1..], b); }
        OneType(a[0]) + (Types(a[1..]) + Types(b));
        { SumAssoc(OneType(a[0]), Types(a[1..]), Types(b)); }
        Types(a) + Types(b);
      }
    }
  }

  lemma TypesOne(c: Change)
    ensures Types([c]) == OneType(c)
  {
    assert [c][1..] == [];
  }

  // ---------------------------------------------------------------------------
  // queue_sc
  // ---------------------------------------------------------------------------

  predicate DroppedAtCap(p: PumpState, c: Change) {
    c.Message? && |p.pending| >= PENDING_CAP
  }

  function QueueStep(p: PumpState, c: Change): PumpState {
    if DroppedAtCap(p, c) then p.(ledger := p.ledger.(dropped := p.ledger.dropped + 1))
    else p.(pending := p.pending + [c], ledger := p.ledger.(queued := p.ledger.queued + OneType(c)))
  }

  // ---------------------------------------------------------------------------
  // The Start drain
  // ---------------------------------------------------------------------------

  datatype Batched = Batched(batch: seq<Change>, deferred: seq<Change>, rest: seq<Change>, capHit: bool)

  /** Drain with `room` places left in the batch; `hold` defers messages. A type 12 ends the batch. */
  function DrainQueue(pending: seq<Change>, room: nat, hold: bool): Batched {
    if pending == [] then Batched([], [], [], false)
    else if room == 0 then Batched([], [], pending, true)
    else if pending[0].Message? && hold then
      var d := DrainQueue(pending[1..], room, hold);
      d.(deferred := [pending[0]] + d.deferred)
    else if pending[0].RemoteEndpoint? then Batched([pending[0]], [], pending[1..], false)
    else
      var d := DrainQueue(pending[1..], room - 1, hold);
      d.(batch := [pending[0]] + d.batch)
  }

  function StartLedger(l: Ledger, d: Batched): Ledger {
    l.(handed := l.handed + Types(d.batch),
       capHits := l.capHits + (if d.capHit then 1 else 0),
       deferred21 := l.deferred21 + |d.deferred|,
       batches := l.batches + (if d.batch != [] then 1 else 0),
       lastBatch := |d.batch|)
  }

  function StartStep(p: PumpState, hold: bool): PumpState {
    if p.outstanding then p
    else
      var d := DrainQueue(p.pending, BATCH_CAP, hold);
      PumpState(Left(d), d.batch, d.batch != [], StartLedger(p.ledger, d))
  }

  function Left(d: Batched): seq<Change> {
    d.deferred + d.rest
  }

  function FinishLedger(l: Ledger, seen: seq<Change>): Ledger {
    l.(lastReclaimed := |seen|, reclaimed := l.reclaimed + Types(seen))
  }

  function Seen(returned: seq<Change>): seq<Change> {
    if |returned| <= 64 then returned else returned[..64]
  }

  /** Finish with the changes the title returned; at most 64 are looked at. */
  function FinishStep(p: PumpState, returned: seq<Change>): PumpState {
    if returned == [] then p
    else PumpState(p.pending, [], false, FinishLedger(p.ledger, Seen(returned)))
  }

  // ---------------------------------------------------------------------------
  // What one drain does
  // ---------------------------------------------------------------------------

  /** At most `room` changes, and at most one type 12, which is last. */
  lemma {:induction false} BatchShape(pending: seq<Change>, room: nat, hold: bool)
    ensures var b := DrainQueue(pending, room, hold).batch;
            && |b| <= room
            && (forall i :: 0 <= i < |b| - 1 ==> !b[i].RemoteEndpoint?)
            && (hold ==> forall c :: c in b ==> !c.Message?)
  {
    if pending != [] && room > 0 {
      if pending[0].Message? && hold {
        BatchShape(pending[1..], room, hold);
      } else if !pending[0].RemoteEndpoint? {
        BatchShape(pending[1..], room - 1, hold);
        var b, b' := DrainQueue(pending, room, hold).batch, DrainQueue(pending[1..], room - 1, hold).batch;
        assert forall i :: 1 <= i < |b| ==> b[i] == b'[i - 1];
      }
    }
  }

  /** Selecting messages, or selecting control changes: batch then left-overs is queue order. */
  ghost predicate KeepsOrder(p: Change -> bool, pending: seq<Change>, d: Batched) {
    Filter(p, d.batch) + Filter(p, Left(d)) == Filter(p, pending)
  }

  lemma MessagesInOrderWhenHeld(pending: seq<Change>, d: Batched, d': Batched, c: Change)
    requires pending != [] && c == pending[0] && c.Message?
    requires KeepsOrder(Is21, pending[1..], d') && d == d'.(deferred := [c] + d'.deferred)
    requires forall x :: x in d'.batch ==> !x.Message?
    ensures KeepsOrder(Is21, pending, d)
  {
    FilterNone(Is21, d'.batch);
    Assoc([c], d'.deferred, d'.rest);
    assert ([c] + Left(d'))[1..] == Left(d');
    assert [] + Filter(Is21, Left(d')) == Filter(Is21, Left(d'));
    assert [] + Filter(Is21, Left(d)) == Filter(Is21, Left(d));
  }

  lemma ControlInOrderWhenHeld(pending: seq<Change>, d: Batched, d': Batched, c: Change)
    requires pending != [] && c == pending[0] && c.Message?
    requires KeepsOrder(IsControl, pending[1..], d') && d == d'.(deferred := [c] + d'.deferred)
    ensures KeepsOrder(IsControl, pending, d)
  {
    Assoc([c], d'.deferred, d'.rest);
    assert ([c] + Left(d'))[1..] == Left(d');
    assert [] + Filter(IsControl, Left(d')) == Filter(IsControl, Left(d'));
    assert [] + Filter(IsControl, pending[1..]) == Filter(IsControl, pending[1..]);
  }

  lemma InOrderWhenHanded(p: Change -> bool, pending: seq<Change>, d: Batched, d': Batched, c: Change)
    requires pending != [] && c == pending[0]
    requires KeepsOrder(p, pending[1..], d') && d == d'.(batch := [c] + d'.batch)
    ensures KeepsOrder(p, pending, d)
  {
    assert ([c] + d'.batch)[1..] == d'.batch;
    Assoc(Keep(p, c), Filter(p, d'.batch), Filter(p, Left(d')));
  }

  lemma InOrderAtStop(p: Change -> bool, pending: seq<Change>)
    requires pending != []
    ensures KeepsOrder(p, pending, Batched([pending[0]], [], pending[1..], false))
  {
    FilterOne(p, pending[0]);
    assert [] + pending[1..] == pending[1..];
  }

  lemma InOrderEmpty(p: Change -> bool, pending: seq<Change>, capHit: bool)
    ensures KeepsOrder(p, pending, Batched([], [], pending, capHit))
  {
    assert [] + pending == pending;
    assert [] + Filter(p, pending) == Filter(p, pending);
  }

  /** The messages, and separately the control changes, leave in queue order; nothing is lost. */
  lemma {:induction false} DrainKeepsOrder(pending: seq<Change>, room: nat, hold: bool)
    ensures KeepsOrder(Is21, pending, DrainQueue(pending, room, hold))
    ensures KeepsOrder(IsControl, pending, DrainQueue(pending, room, hold))
  {
    if pending == [] || room == 0 {
      InOrderEmpty(Is21, pending, pending != []);
      InOrderEmpty(IsControl, pending, pending != []);
    } else if pending[0].Message? && hold {
      var d' := DrainQueue(pending[1..], room, hold);
      DrainKeepsOrder(pending[1..], room, hold);
      BatchShape(pending[1..], room, hold);
      MessagesInOrderWhenHeld(pending, DrainQueue(pending, room, hold), d', pending[0]);
      ControlInOrderWhenHeld(pending, DrainQueue(pending, room, hold), d', pending[0]);
    } else if pending[0].RemoteEndpoint? {
      InOrderAtStop(Is21, pending);
      InOrderAtStop(IsControl, pending);
    } else {
      var d' := DrainQueue(pending[1..], room - 1, hold);
      DrainKeepsOrder(pending[1..], room - 1, hold);
      InOrderWhenHanded(Is21, pending, DrainQueue(pending, room, hold), d', pending[0]);
      InOrderWhenHanded(IsControl, pending, DrainQueue(pending, room, hold), d', pending[0]);
    }
  }

  ghost predicate KeepsTypes(pending: seq<Change>, d: Batched) {
    Types(d.batch) + Types(Left(d)) == Types(pending)
  }

  lemma TypesWhenHeld(pending: seq<Change>, d: Batched, d': Batched)
    requires pending != [] && KeepsTypes(pending[1..], d') && d == d'.(deferred := [pending[0]] + d'.deferred)
    ensures KeepsTypes(pending, d)
  {
    var c := pending[0];
    calc {
      Types(d.batch) + Types(Left(d));
      { Assoc([c], d'.deferred, d'.rest); }
      Types(d'.batch) + Types([c] + Left(d'));
      { TypesConcat([c], Left(d')); TypesOne(c); }
      Types(d'.batch) + (OneType(c) + Types(Left(d')));
      { SumAssoc(OneType(c), Types(d'.batch), Types(Left(d'))); SumAssoc(Types(d'.batch), OneType(c), Types(Left(d'))); }
      OneType(c) + (Types(d'.batch) + Types(Left(d')));
      Types(pending);
    }
  }

  lemma TypesWhenHanded(pending: seq<Change>, d: Batched, d': Batched)
    requires pending != [] && KeepsTypes(pending[1..], d') && d == d'.(batch := [pending[0]] + d'.batch)
    ensures KeepsTypes(pending, d)
  {
    var c := pending[0];
    calc {
      Types(d.batch) + Types(Left(d));
      { TypesConcat([c], d'.batch); TypesOne(c); }
      (OneType(c) + Types(d'.batch)) + Types(Left(d'));
      { SumAssoc(OneType(c), Types(d'.batch), Types(Left(d'))); }
      OneType(c) + (Types(d'.batch) + Types(Left(d')));
      Types(pending);
    }
  }

  /** Per type, what was pending is handed out or still pending. */
  lemma {:induction false} DrainKeepsTypes(pending: seq<Change>, room: nat, hold: bool)
    ensures KeepsTypes(pending, DrainQueue(pending, room, hold))
  {
    var d := DrainQueue(pending, room, hold);
    if pending == [] || room == 0 {
      assert Left(d) == pending;
      assert multiset{} + Types(pending) == Types(pending);
    } else if pending[0].Message? && hold {
      DrainKeepsTypes(pending[1..], room, hold);
      TypesWhenHeld(pending, d, DrainQueue(pending[1..], room, hold));
    } else if pending[0].RemoteEndpoint? {
      assert Left(d) == pending[1..];
      TypesOne(pending[0]);
    } else {
      DrainKeepsTypes(pending[1..], room - 1, hold);
      TypesWhenHanded(pending, d, DrainQueue(pending[1..], room - 1, hold));
    }
  }

  // ---------------------------------------------------------------------------
  // The handshake gate carried by queue order
  // ---------------------------------------------------------------------------

  type Peer = (NetId, Entity)

  function Announces(c: Change): set<Peer> {
    if c.RemoteEndpoint? then {(c.net, c.ent)} else {}
  }

  function Announced(cs: seq<Change>): set<Peer> {
    if cs == [] then {} else Announces(cs[0]) + Announced(cs[1..])
  }

  /** Every message in the queue comes from a peer that is known, or announced earlier in it. */
  ghost predicate Gated(q: seq<Change>, known: set<Peer>) {
    q == [] || ((q[0].Message? ==> (q[0].net, q[0].ent) in known) && Gated(q[1..], known + Announces(q[0])))
  }

  lemma {:induction false} AnnouncedConcat(a: seq<Change>, b: seq<Change>)
    ensures Announced(a + b) == Announced(a) + Announced(b)
  {
    if a == [] {
      assert a + b == b;
    } else {
      AnnouncedConcat(a[1..], b);
      assert (a + b)[1..] == a[1..] + b;
    }
  }

  lemma {:induction false} GatedAppend(q: seq<Change>, known: set<Peer>, c: Change)
    requires Gated(q, known)
    requires c.Message? ==> (c.net, c.ent) in known + Announced(q)
    ensures Gated(q + [c], known)
  {
    if q == [] {
      assert q + [c] == [c];
      assert [c][1..] == [];
      assert Gated([c][1..], known + Announces(c));
    } else {
      GatedAppend(q[1..], known + Announces(q[0]), c);
      assert (q + [c])[1..] == q[1..] + [c];
    }
  }

  /** Only known peers' messages are handed out, the batch's type 12 counts for the rest, and no
      announcement is lost. */
  ghost predicate KeepsGate(pending: seq<Change>, d: Batched, known: set<Peer>) {
    && (forall c :: c in d.batch && c.Message? ==> (c.net, c.ent) in known)
    && Gated(Left(d), known + Announced(d.batch))
    && Announced(d.batch) + Announced(Left(d)) == Announced(pending)
  }

  lemma GateWhenHeld(pending: seq<Change>, d: Batched, d': Batched, known: set<Peer>)
    requires pending != [] && pending[0].Message? && (pending[0].net, pending[0].ent) in known
    requires KeepsGate(pending[1..], d', known) && d == d'.(deferred := [pending[0]] + d'.deferred)
    ensures KeepsGate(pending, d, known)
  {
    var c := pending[0];
    Assoc([c], d'.deferred, d'.rest);
    assert Left(d)[1..] == Left(d') && Left(d)[0] == c;
    var k := known + Announced(d.batch);
    assert k + Announces(c) == k;
    assert Announced(Left(d)) == Announced(Left(d'));
    assert Announced(pending) == Announced(pending[1..]);
  }

  lemma GateWhenHanded(pending: seq<Change>, d: Batched, d': Batched, known: set<Peer>)
    requires pending != [] && !pending[0].RemoteEndpoint?
    requires pending[0].Message? ==> (pending[0].net, pending[0].ent) in known
    requires KeepsGate(pending[1..], d', known) && d == d'.(batch := [pending[0]] + d'.batch)
    ensures KeepsGate(pending, d, known)
  {
    assert d.batch[1..] == d'.batch;
    assert Announced(d.batch) == Announced(d'.batch);
    assert Announced(pending) == Announced(pending[1..]);
  }

  lemma GateAtStop(pending: seq<Change>, known: set<Peer>)
    requires pending != [] && pending[0].RemoteEndpoint? && Gated(pending, known)
    ensures KeepsGate(pending, Batched([pending[0]], [], pending[1..], false), known)
  {
    var c := pending[0];
    assert [c][1..] == [];
    assert Announced([c]) == Announces(c);
    assert [] + pending[1..] == pending[1..];
  }

  lemma {:induction false} DrainGated(pending: seq<Change>, room: nat, hold: bool, known: set<Peer>)
    requires Gated(pending, known)
    ensures KeepsGate(pending, DrainQueue(pending, room, hold), known)
  {
    var d := DrainQueue(pending, room, hold);
    if pending == [] || room == 0 {
      assert Left(d) == pending;
      assert known + Announced([]) == known;
    } else if pending[0].RemoteEndpoint? {
      GateAtStop(pending, known);
    } else {
      assert known + Announces(pending[0]) == known;
      if pending[0].Message? && hold {
        DrainGated(pending[1..], room, hold, known);
        GateWhenHeld(pending, d, DrainQueue(pending[1..], room, hold), known);
      } else {
        DrainGated(pending[1..], room - 1, hold, known);
        GateWhenHanded(pending, d, DrainQueue(pending[1..], room - 1, hold), known);
      }
    }
  }

  // ---------------------------------------------------------------------------
  // Exactly what leaves
  // ---------------------------------------------------------------------------

  /** The room there is, all of the list, or up to its first type 12, whichever is least. */
  function Cut(cs: seq<Change>, room: nat): (n: nat)
    ensures n <= |cs| && n <= room
    ensures forall i | 0 <= i < n - 1 :: !cs[i].RemoteEndpoint?
    ensures n == |cs| || n == room || (n > 0 && cs[n - 1].RemoteEndpoint?)
  {
    if cs == [] || room == 0 then 0 else if cs[0].RemoteEndpoint? then 1 else 1 + Cut(cs[1..], room - 1)
  }

  /** One more at the front. */
  lemma CutCons(c: Change, cs: seq<Change>, room: nat)
    requires room > 0
    ensures var n := Cut([c] + cs, room);
            n == if c.RemoteEndpoint? then 1 else 1 + Cut(cs, room - 1)
  {
    assert ([c] + cs)[1..] == cs;
  }

  lemma FrontCons(c: Change, cs: seq<Change>, n: nat)
    requires 1 <= n <= |cs| + 1
    ensures ([c] + cs)[..n] == [c] + cs[..n - 1] && ([c] + cs)[n..] == cs[n - 1..]
  {
  }

  /** Without a hold a Start hands out the front of the queue, up to the first type 12 or the room. */
  lemma {:induction false} DrainPlain(pending: seq<Change>, room: nat)
    ensures var d, n := DrainQueue(pending, room, false), Cut(pending, room);
            d.batch == pending[..n] && d.rest == pending[n..] && d.deferred == []
  {
    if pending != [] && room > 0 {
      var c, rest := pending[0], pending[1..];
      assert pending == [c] + rest;
      CutCons(c, rest, room);
      FrontCons(c, rest, Cut(pending, room));
      if !c.RemoteEndpoint? {
        DrainPlain(rest, room - 1);
      } else {
        assert rest[..0] == [] && rest[0..] == rest;
      }
    }
  }

  /** How the batch of a held drain grows by the change in front. */
  lemma HeldFront(pending: seq<Change>, room: nat)
    requires pending != [] && room > 0
    ensures var c, b := pending[0], DrainQueue(pending, room, true).batch;
            b == if c.Message? then DrainQueue(pending[1..], room, true).batch
                 else if c.RemoteEndpoint? then [c]
                 else [c] + DrainQueue(pending[1..], room - 1, true).batch
  {
  }

  lemma HeldCut(c: Change, cs: seq<Change>, room: nat, batch: seq<Change>)
    requires room > 0 && !c.Message? && (!c.RemoteEndpoint? ==> batch == cs[..Cut(cs, room - 1)])
    ensures (if c.RemoteEndpoint? then [c] else [c] + batch) == ([c] + cs)[..Cut([c] + cs, room)]
  {
    CutCons(c, cs, room);
    FrontCons(c, cs, Cut([c] + cs, room));
    if c.RemoteEndpoint? { assert [c] + cs[..0] == [c]; }
  }

  /** With a hold it hands out the front of the other changes; no type 21 leaves. */
  lemma {:induction false} DrainHeld(pending: seq<Change>, room: nat)
    ensures var cs := Filter(IsControl, pending); DrainQueue(pending, room, true).batch == cs[..Cut(cs, room)]
  {
    if pending != [] && room > 0 {
      var c, rest := pending[0], pending[1..];
      var cs := Filter(IsControl, rest);
      HeldFront(pending, room);
      if c.Message? {
        DrainHeld(rest, room);
        assert [] + cs == cs;
      } else {
        if !c.RemoteEndpoint? { DrainHeld(rest, room - 1); }
        HeldCut(c, cs, room, DrainQueue(rest, room - 1, true).batch);
      }
    }
  }
}
