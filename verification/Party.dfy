/** The Party handle: networks, remotes, receive gates and the state-change pump
    (party-shim/src/lib.rs).

    `World` is the value of a handle; the step functions say what each operation does to it, and
    class `Handle` performs the operations in place. */
module Party {
  import opened Common
  import opened SerialNumbers
  import opened Reliable
  import opened Pump
  import opened Seqs

  const RX_CAP: nat := 128
  const REMOTE_CAP: nat := 8
  const HOLD_TIMEOUT_MS: nat := 10_000

  /** An inbound message datagram, as queued for a remote. */
  datatype Frame = Frame(ent: Entity, seqNo: u32, msg: Msg)

  datatype Addr = Addr(ip: string, port: nat)

  datatype Network = Network(
    listed: bool,              // in the handle's network list
    connected: bool,           // connect_completed
    hasLocal: bool,            // local_endpoint set
    type10: bool, type12: bool,
    remotes: map<Entity, ReceiverState>,
    addrs: map<Entity, Addr>,  // where each remote was last heard of
    pendingRx: seq<Frame>,
    holdStart: Option<nat>)

  const NEW_NETWORK := Network(true, false, false, false, false, map[], map[], [], None)

  datatype World = World(pump: PumpState, nets: map<NetId, Network>)

  const NEW_WORLD := World(NEW_PUMP, map[])

  // ---------------------------------------------------------------------------
  // Delivery to the title
  // ---------------------------------------------------------------------------

  /** `recv_opts_for`: only the guaranteed and sequential bits are reported. */
  function ToChange(id: NetId, ent: Entity, m: Msg): Change {
    Message(id, ent, m.payload, m.options % 4)
  }

  function DeliverAll(p: PumpState, id: NetId, ent: Entity, msgs: seq<Msg>): PumpState
    decreases |msgs|
  {
    if msgs == [] then p
    else DeliverAll(QueueStep(p, ToChange(id, ent, msgs[0])), id, ent, msgs[1..])
  }

  function SetRemote(n: Network, ent: Entity, r: ReceiverState): Network {
    n.(remotes := n.remotes[ent := r])
  }

  function DeliverStep(w: World, id: NetId, f: Frame, now: u64): World
    requires id in w.nets && f.ent in w.nets[id].remotes
  {
    var n := w.nets[id];
    var (r, o) := OnMessageStep(n.remotes[f.ent], f.seqNo, f.msg, now);
    World(DeliverAll(w.pump, id, f.ent, Out(o)), w.nets[id := SetRemote(n, f.ent, r)])
  }

  predicate Ready(n: Network) {
    n.hasLocal && n.type12
  }

  predicate CanFlush(n: Network) {
    Ready(n) && n.pendingRx != [] && n.pendingRx[0].ent in n.remotes
  }

  function PopFront(w: World, id: NetId): World
    requires id in w.nets && w.nets[id].pendingRx != []
  {
    var n := w.nets[id];
    w.(nets := w.nets[id := n.(pendingRx := n.pendingRx[1..])])
  }

  function FlushStep(w: World, id: NetId, now: u64): World
    requires id in w.nets
    decreases |w.nets[id].pendingRx|
  {
    if CanFlush(w.nets[id])
    then FlushStep(DeliverStep(PopFront(w, id), id, w.nets[id].pendingRx[0], now), id, now)
    else w
  }

  function Buffered(n: Network, f: Frame): Network {
    n.(pendingRx := (if |n.pendingRx| >= RX_CAP then n.pendingRx[1..] else n.pendingRx) + [f])
  }

  /** `recv_udp` for one message datagram. */
  function ReceiveStep(w: World, id: NetId, f: Frame, now: u64): World
    requires id in w.nets
  {
    var n := w.nets[id];
    if !(f.ent in n.remotes && Ready(n)) then w.(nets := w.nets[id := Buffered(n, f)])
    else if n.pendingRx != [] then
      FlushStep(w.(nets := w.nets[id := n.(pendingRx := n.pendingRx + [f])]), id, now)
    else DeliverStep(w, id, f, now)
  }

  // ---------------------------------------------------------------------------
  // Announcing remotes, and the other operations
  // ---------------------------------------------------------------------------

  /** Past the gates that hold for new and known remotes alike. */
  predicate MayHear(n: Network, ent: Entity, isLocal: bool) {
    ent != "" && n.connected && !isLocal && n.hasLocal && n.type10
  }

  predicate MayAnnounce(n: Network, ent: Entity, isLocal: bool, isMember: bool) {
    MayHear(n, ent, isLocal) && ent !in n.remotes && isMember && |n.remotes| < REMOTE_CAP
  }

  /** A known remote moves to any address with a real port. */
  predicate Moves(n: Network, ent: Entity, addr: Addr, isLocal: bool) {
    MayHear(n, ent, isLocal) && ent in n.remotes && addr.port != 0
  }

  function SetAddr(n: Network, ent: Entity, addr: Addr): Network {
    n.(addrs := n.addrs[ent := addr])
  }

  /** `ensure_remote`; `isLocal` is `eid == local_ent`, `isMember` the game's member-list answer. */
  function AnnounceStep(w: World, id: NetId, ent: Entity, addr: Addr, isLocal: bool, isMember: bool): World
    requires id in w.nets
  {
    var n := w.nets[id];
    if MayAnnounce(n, ent, isLocal, isMember) then
      World(QueueStep(w.pump, RemoteEndpoint(id, ent)), w.nets[id := SetAddr(SetRemote(n, ent, NEW_RECEIVER), ent, addr)])
    else if Moves(n, ent, addr, isLocal) then w.(nets := w.nets[id := SetAddr(n, ent, addr)])
    else w
  }

  function CreateNetworkStep(w: World, id: NetId): World {
    World(QueueStep(w.pump, Other(2)), w.nets[id := NEW_NETWORK])
  }

  function ConnectStep(w: World, id: NetId): World
    requires id in w.nets
  {
    if w.nets[id].connected then w
    else World(QueueStep(w.pump, Other(3)), w.nets[id := w.nets[id].(connected := true)])
  }

  function AuthenticateStep(w: World, id: NetId): World
    requires id in w.nets
  {
    World(QueueStep(w.pump, Other(4)), w.nets[id := w.nets[id].(listed := true)])
  }

  function CreateEndpointStep(w: World, id: NetId, now: u64): World
    requires id in w.nets
  {
    FlushStep(World(QueueStep(w.pump, LocalEndpoint(id)), w.nets[id := w.nets[id].(hasLocal := true)]), id, now)
  }

  function LeaveStep(w: World, id: NetId): World
    requires id in w.nets
  {
    var n := w.nets[id];
    var n' := if n.listed
              then n.(listed := false, connected := false, remotes := map e | e in n.remotes :: NEW_RECEIVER)
              else n;
    World(QueueStep(w.pump, Other(19)), w.nets[id := n'])
  }

  // ---------------------------------------------------------------------------
  // Start and Finish
  // ---------------------------------------------------------------------------

  predicate Waiting(n: Network) {
    n.listed && n.type10 && !n.type12 && n.remotes != map[]
  }

  function HoldSince(n: Network, now: nat): nat {
    if n.holdStart.Some? then n.holdStart.value else now
  }

  function HeldFor(n: Network, now: nat): nat {
    if now >= HoldSince(n, now) then now - HoldSince(n, now) else 0
  }

  function NoteHold(n: Network, now: nat): Network {
    if !n.listed then n
    else if Waiting(n) then n.(holdStart := Some(HoldSince(n, now)))
    else n.(holdStart := None)
  }

  predicate Holds(n: Network, now: nat) {
    Waiting(n) && HeldFor(n, now) < HOLD_TIMEOUT_MS
  }

  predicate Overdue(n: Network, now: nat) {
    Waiting(n) && HeldFor(n, now) >= HOLD_TIMEOUT_MS
  }

  predicate AnyHolds(nets: map<NetId, Network>, ids: set<NetId>, now: nat) {
    exists id :: id in ids && id in nets && Holds(nets[id], now)
  }

  predicate AnyOverdue(nets: map<NetId, Network>, ids: set<NetId>, now: nat) {
    exists id :: id in ids && id in nets && Overdue(nets[id], now)
  }

  /** Messages are deferred while some type 12 is owed, unless one has been owed for too long. */
  predicate Defers(nets: map<NetId, Network>, now: nat) {
    AnyHolds(nets, nets.Keys, now) && !AnyOverdue(nets, nets.Keys, now)
  }

  lemma OneMoreNetwork(nets: map<NetId, Network>, ids: set<NetId>, id: NetId, now: nat)
    requires id in nets
    ensures AnyHolds(nets, ids + {id}, now) <==> AnyHolds(nets, ids, now) || Holds(nets[id], now)
    ensures AnyOverdue(nets, ids + {id}, now) <==> AnyOverdue(nets, ids, now) || Overdue(nets[id], now)
  {
    var more := ids + {id};
    assert id in more;
    if AnyHolds(nets, ids, now) {
      var x :| x in ids && x in nets && Holds(nets[x], now);
      assert x in more;
    }
    if AnyOverdue(nets, ids, now) {
      var x :| x in ids && x in nets && Overdue(nets[x], now);
      assert x in more;
    }
  }

  /** No network among `ids` has held longer than `oldest`, and one has held that long. */
  ghost predicate OldestHold(nets: map<NetId, Network>, ids: set<NetId>, now: nat, oldest: nat) {
    && (forall id | id in ids && id in nets && Waiting(nets[id]) :: HeldFor(nets[id], now) <= oldest)
    && (oldest == 0 || exists id :: id in ids && id in nets && Waiting(nets[id]) && HeldFor(nets[id], now) == oldest)
  }

  /** What `note_type12_hold` reports about the networks `ids`. */
  ghost predicate HoldReport(nets: map<NetId, Network>, ids: set<NetId>, now: nat, holding: bool, timedOut: bool, oldest: nat) {
    (holding <==> AnyHolds(nets, ids, now)) && (timedOut <==> AnyOverdue(nets, ids, now)) && OldestHold(nets, ids, now, oldest)
  }

  function Later(a: nat, b: nat): nat {
    if b > a then b else a
  }

  function HeldNow(n: Network, now: nat): nat {
    if Waiting(n) then HeldFor(n, now) else 0
  }

  lemma OldestStep(nets: map<NetId, Network>, ids: set<NetId>, id: NetId, now: nat, oldest: nat)
    requires id in nets && OldestHold(nets, ids, now, oldest)
    ensures OldestHold(nets, ids + {id}, now, Later(oldest, HeldNow(nets[id], now)))
  {
    var more := ids + {id};
    assert id in more;
    if oldest != 0 {
      var x :| x in ids && x in nets && Waiting(nets[x]) && HeldFor(nets[x], now) == oldest;
      assert x in more;
    }
  }

  lemma HoldReportStep(nets: map<NetId, Network>, ids: set<NetId>, id: NetId, now: nat, holding: bool, timedOut: bool, oldest: nat)
    requires id in nets && HoldReport(nets, ids, now, holding, timedOut, oldest)
    ensures HoldReport(nets, ids + {id}, now, holding || Holds(nets[id], now), timedOut || Overdue(nets[id], now),
                       Later(oldest, HeldNow(nets[id], now)))
  {
    OneMoreNetwork(nets, ids, id, now);
    OldestStep(nets, ids, id, now, oldest);
  }

  function NoteAll(nets: map<NetId, Network>, now: nat): map<NetId, Network> {
    map id | id in nets :: NoteHold(nets[id], now)
  }

  ghost predicate NotedOutside(before: map<NetId, Network>, cur: map<NetId, Network>, rest: set<NetId>, now: nat) {
    && rest <= before.Keys && cur.Keys == before.Keys
    && forall id :: id in before ==> cur[id] == if id in rest then before[id] else NoteHold(before[id], now)
  }

  lemma NotedStep(before: map<NetId, Network>, cur: map<NetId, Network>, rest: set<NetId>, id: NetId, now: nat)
    requires NotedOutside(before, cur, rest, now) && id in rest
    ensures cur[id] == before[id]
    ensures NotedOutside(before, cur[id := NoteHold(before[id], now)], rest - {id}, now)
  {
    assert cur[id := NoteHold(before[id], now)].Keys == cur.Keys;
  }

  lemma NotedDone(before: map<NetId, Network>, cur: map<NetId, Network>, now: nat)
    requires NotedOutside(before, cur, {}, now)
    ensures cur == NoteAll(before, now)
  {
  }

  /** The loop of `note_type12_hold`, with the networks `rest` still to visit. */
  ghost predicate Noting(before: map<NetId, Network>, cur: map<NetId, Network>, rest: set<NetId>, now: nat,
                         holding: bool, timedOut: bool, oldest: nat) {
    NotedOutside(before, cur, rest, now) && HoldReport(before, before.Keys - rest, now, holding, timedOut, oldest)
  }

  lemma NotingStarts(before: map<NetId, Network>, now: nat)
    ensures Noting(before, before, before.Keys, now, false, false, 0)
  {
    assert before.Keys - before.Keys == {};
  }

  lemma NotingStep(before: map<NetId, Network>, cur: map<NetId, Network>, rest: set<NetId>, id: NetId, now: nat,
                   holding: bool, timedOut: bool, oldest: nat)
    requires Noting(before, cur, rest, now, holding, timedOut, oldest) && id in rest
    ensures id in cur && Noting(before, cur[id := NoteHold(cur[id], now)], rest - {id}, now, holding || Holds(cur[id], now),
                                timedOut || Overdue(cur[id], now), Later(oldest, HeldNow(cur[id], now)))
  {
    NotedStep(before, cur, rest, id, now);
    HoldReportStep(before, before.Keys - rest, id, now, holding, timedOut, oldest);
    assert before.Keys - (rest - {id}) == before.Keys - rest + {id};
  }

  lemma NotingDone(before: map<NetId, Network>, cur: map<NetId, Network>, now: nat, holding: bool, timedOut: bool, oldest: nat)
    requires Noting(before, cur, {}, now, holding, timedOut, oldest)
    ensures cur == NoteAll(before, now) && HoldReport(before, before.Keys, now, holding, timedOut, oldest)
  {
    assert before.Keys - {} == before.Keys;
    NotedDone(before, cur, now);
  }

  function StartWorld(w: World, now: nat): World {
    if w.pump.outstanding then w
    else World(StartStep(w.pump, Defers(w.nets, now)),
               NoteAll(w.nets, now))
  }

  function Finishes10(c: Change): set<NetId> {
    if c.LocalEndpoint? then {c.net} else {}
  }

  function Finishes12(c: Change): set<NetId> {
    if c.RemoteEndpoint? then {c.net} else {}
  }

  /** The networks whose type 10, or some type 12, is among the returned changes. */
  function Finished10(cs: seq<Change>): set<NetId> {
    if cs == [] then {} else Finishes10(cs[0]) + Finished10(cs[1..])
  }

  function Finished12(cs: seq<Change>): set<NetId> {
    if cs == [] then {} else Finishes12(cs[0]) + Finished12(cs[1..])
  }

  /** The delivered flags a returned batch sets. */
  function Flags(n: Network, t10: bool, t12: bool): Network {
    n.(type10 := n.type10 || t10, type12 := n.type12 || t12)
  }

  function FlagAll(nets: map<NetId, Network>, t10: set<NetId>, t12: set<NetId>): map<NetId, Network> {
    map id | id in nets :: Flags(nets[id], id in t10, id in t12)
  }

  function FinishWorld(w: World, returned: seq<Change>): World {
    if returned == [] then w
    else
      var t10, t12 := Finished10(Seen(returned)), Finished12(Seen(returned));
      World(FinishStep(w.pump, returned), FlagAll(w.nets, t10, t12))
  }

  // ---------------------------------------------------------------------------
  // The handle, in place
  // ---------------------------------------------------------------------------

  lemma CombineHanded(batch: seq<Change>, deferred: seq<Change>, c: Change, d: Batched)
    ensures Combine(batch, deferred, d.(batch := [c] + d.batch)) == Combine(batch + [c], deferred, d)
  {
    Assoc(batch, [c], d.batch);
  }

  lemma CombineDeferred(batch: seq<Change>, deferred: seq<Change>, c: Change, d: Batched)
    ensures Combine(batch, deferred, d.(deferred := [c] + d.deferred)) == Combine(batch, deferred + [c], d)
  {
    Assoc(deferred, [c], d.deferred);
  }

  lemma CombineDone(batch: seq<Change>, deferred: seq<Change>, rest: seq<Change>, capHit: bool)
    ensures Combine(batch, deferred, Batched([], [], rest, capHit)) == Batched(batch, deferred, rest, capHit)
  {
    assert batch + [] == batch && deferred + [] == deferred;
  }

  lemma CombineNone(d: Batched)
    ensures Combine([], [], d) == d
  {
    assert [] + d.batch == d.batch && [] + d.deferred == d.deferred;
  }

  /** A drain that has produced `batch` and `deferred` so far and still has `d` to come. */
  function Combine(batch: seq<Change>, deferred: seq<Change>, d: Batched): Batched {
    Batched(batch + d.batch, deferred + d.deferred, d.rest, d.capHit)
  }

  /** The loop state of a drain of `goal`. */
  ghost predicate Draining(goal: Batched, batch: seq<Change>, deferred: seq<Change>, pending: seq<Change>, hold: bool) {
    && |batch| <= BATCH_CAP
    && (forall q :: q in batch ==> !q.RemoteEndpoint?)
    && Combine(batch, deferred, DrainQueue(pending, BATCH_CAP - |batch|, hold)) == goal
  }

  lemma DrainingStarts(pending: seq<Change>, hold: bool) returns (goal: Batched)
    ensures goal == DrainQueue(pending, BATCH_CAP, hold) && Draining(goal, [], [], pending, hold)
  {
    goal := DrainQueue(pending, BATCH_CAP, hold);
    CombineNone(goal);
  }

  lemma DrainingFull(goal: Batched, batch: seq<Change>, deferred: seq<Change>, pending: seq<Change>, hold: bool)
    requires Draining(goal, batch, deferred, pending, hold) && pending != [] && |batch| >= BATCH_CAP
    ensures goal == Batched(batch, deferred, pending, true)
  {
    CombineDone(batch, deferred, pending, true);
  }

  lemma DrainingEnds(goal: Batched, batch: seq<Change>, deferred: seq<Change>, hold: bool)
    requires Draining(goal, batch, deferred, [], hold)
    ensures goal == Batched(batch, deferred, [], false)
  {
    CombineDone(batch, deferred, [], false);
  }

  lemma DrainingDefers(goal: Batched, batch: seq<Change>, deferred: seq<Change>, pending: seq<Change>, hold: bool)
    requires Draining(goal, batch, deferred, pending, hold) && pending != [] && |batch| < BATCH_CAP
    requires pending[0].Message? && hold
    ensures Draining(goal, batch, deferred + [pending[0]], pending[1..], hold)
  {
    CombineDeferred(batch, deferred, pending[0], DrainQueue(pending[1..], BATCH_CAP - |batch|, hold));
  }

  lemma DrainingHands(goal: Batched, batch: seq<Change>, deferred: seq<Change>, pending: seq<Change>, hold: bool)
    requires Draining(goal, batch, deferred, pending, hold) && pending != [] && |batch| < BATCH_CAP
    requires !pending[0].RemoteEndpoint? && !(pending[0].Message? && hold)
    ensures Draining(goal, batch + [pending[0]], deferred, pending[1..], hold)
  {
    CombineHanded(batch, deferred, pending[0], DrainQueue(pending[1..], BATCH_CAP - |batch| - 1, hold));
  }

  lemma DrainingStops(goal: Batched, batch: seq<Change>, deferred: seq<Change>, pending: seq<Change>, hold: bool)
    requires Draining(goal, batch, deferred, pending, hold) && pending != [] && |batch| < BATCH_CAP
    requires pending[0].RemoteEndpoint?
    ensures goal == Batched(batch + [pending[0]], deferred, pending[1..], false)
  {
    CombineHanded(batch, deferred, pending[0], Batched([], [], pending[1..], false));
    CombineDone(batch + [pending[0]], deferred, pending[1..], false);
    assert [pending[0]] + [] == [pending[0]];
  }

  lemma LedgerClosed(l: Ledger, l1: Ledger, l2: Ledger, d: Batched)
    requires l1 == l.(handed := l.handed + Types(d.batch), capHits := l.capHits + (if d.capHit then 1 else 0))
    requires l2 == l1.(deferred21 := l1.deferred21 + |d.deferred|,
                       batches := l1.batches + (if d.batch != [] then 1 else 0),
                       lastBatch := |d.batch|)
    ensures l2 == StartLedger(l, d)
  {
  }

  /** What has been counted of the changes returned, with `left` still to look at. */
  ghost predicate Reclaimed(seen: seq<Change>, left: seq<Change>, back: multiset<nat>, t10: set<NetId>, t12: set<NetId>) {
    back + Types(left) == Types(seen) && t10 + Finished10(left) == Finished10(seen)
    && t12 + Finished12(left) == Finished12(seen)
  }

  lemma ReclaimedStep(seen: seq<Change>, left: seq<Change>, back: multiset<nat>, t10: set<NetId>, t12: set<NetId>)
    requires left != [] && Reclaimed(seen, left, back, t10, t12)
    ensures Reclaimed(seen, left[1..], back + OneType(left[0]), t10 + Finishes10(left[0]), t12 + Finishes12(left[0]))
  {
    SumAssoc(back, OneType(left[0]), Types(left[1..]));
  }

  class Handle {
    var pending: seq<Change>
    var inFlight: seq<Change>
    var batchOutstanding: bool
    var ledger: Ledger
    var networks: map<NetId, Network>

    ghost function State(): World reads this {
      World(PumpState(pending, inFlight, batchOutstanding, ledger), networks)
    }

    constructor ()
      ensures State() == NEW_WORLD
    {
      pending, inFlight, batchOutstanding, ledger, networks := [], [], false, NEW_LEDGER, map[];
    }

    /** `pending_cap_drop`: counts the drop when the queue is at its cap. */
    method PendingCapDrop() returns (drop: bool)
      modifies this`ledger
      ensures drop <==> |pending| >= Pump.PENDING_CAP
      ensures ledger == if drop then old(ledger).(dropped := old(ledger).dropped + 1) else old(ledger)
    {
      drop := |pending| >= Pump.PENDING_CAP;
      if drop {
        ledger := ledger.(dropped := ledger.dropped + 1);
      }
    }

    method QueueSc(c: Change)
      modifies this`pending, this`ledger
      ensures State() == old(State()).(pump := QueueStep(old(State()).pump, c))
    {
      if c.Message? {
        var drop := PendingCapDrop();
        if drop {
          return;
        }
      }
      if Type(c) < LEDGER_TYPES {
        ledger := ledger.(queued := ledger.queued + multiset{Type(c)});
      }
      pending := pending + [c];
    }

    /** Checks the cap before building the change; `QueueSc` then finds room. */
    method DeliverType21(id: NetId, ent: Entity, m: Msg)
      modifies this`pending, this`ledger
      ensures State() == old(State()).(pump := QueueStep(old(State()).pump, ToChange(id, ent, m)))
    {
      var drop := PendingCapDrop();
      if drop {
        return;
      }
      QueueSc(ToChange(id, ent, m));
    }

    method DeliverReliable(id: NetId, f: Frame, now: u64)
      requires id in networks && f.ent in networks[id].remotes
      modifies this`pending, this`ledger, this`networks
      ensures State() == DeliverStep(old(State()), id, f, now)
    {
      var n := networks[id];
      var (r, o) := OnMessageStep(n.remotes[f.ent], f.seqNo, f.msg, now);
      networks := networks[id := SetRemote(n, f.ent, r)];
      var msgs := Out(o);
      ghost var goal := DeliverAll(State().pump, id, f.ent, msgs);
      while msgs != []
        invariant networks == old(networks)[id := SetRemote(n, f.ent, r)]
        invariant inFlight == old(inFlight) && batchOutstanding == old(batchOutstanding)
        invariant DeliverAll(State().pump, id, f.ent, msgs) == goal
        decreases |msgs|
      {
        DeliverType21(id, f.ent, msgs[0]);
        msgs := msgs[1..];
      }
    }

    method FlushPendingRx(id: NetId, now: u64)
      requires id in networks
      modifies this`pending, this`ledger, this`networks
      ensures State() == FlushStep(old(State()), id, now)
    {
      while true
        invariant id in networks
        invariant inFlight == old(inFlight) && batchOutstanding == old(batchOutstanding)
        invariant FlushStep(State(), id, now) == FlushStep(old(State()), id, now)
        decreases |networks[id].pendingRx|
      {
        var n := networks[id];
        if !n.hasLocal || !n.type12 {
          break;
        }
        if n.pendingRx == [] {
          break;
        }
        var f := n.pendingRx[0];
        if f.ent !in n.remotes {
          break;
        }
        networks := networks[id := n.(pendingRx := n.pendingRx[1..])];
        DeliverReliable(id, f, now);
      }
    }

    method RecvMessage(id: NetId, f: Frame, now: u64)
      requires id in networks
      modifies this`pending, this`ledger, this`networks
      ensures State() == ReceiveStep(old(State()), id, f, now)
    {
      var n := networks[id];
      if f.ent !in n.remotes || !n.hasLocal || !n.type12 {
        var rx := n.pendingRx;
        if |rx| >= RX_CAP {
          rx := rx[1..];
        }
        networks := networks[id := n.(pendingRx := rx + [f])];
        return;
      }
      if n.pendingRx != [] {
        networks := networks[id := n.(pendingRx := n.pendingRx + [f])];
        FlushPendingRx(id, now);
        return;
      }
      DeliverReliable(id, f, now);
    }

    method EnsureRemote(id: NetId, ent: Entity, addr: Addr, isLocal: bool, isMember: bool) returns (created: bool)
      requires id in networks
      modifies this`pending, this`ledger, this`networks
      ensures State() == AnnounceStep(old(State()), id, ent, addr, isLocal, isMember)
      ensures created <==> MayAnnounce(old(networks)[id], ent, isLocal, isMember)
    {
      created := false;
      var n := networks[id];
      if ent == "" || !n.connected || isLocal || !n.hasLocal || !n.type10 {
        return;
      }
      if ent in n.remotes {
        if addr.port != 0 {
          networks := networks[id := SetAddr(n, ent, addr)];
        }
        return;
      }
      if !isMember || |n.remotes| >= REMOTE_CAP {
        return;
      }
      networks := networks[id := SetAddr(SetRemote(n, ent, NEW_RECEIVER), ent, addr)];
      QueueSc(RemoteEndpoint(id, ent));
      created := true;
    }

    /** One turn of the drain of `goal`. */
    method DrainTurn(hold: bool, deferred: seq<Change>, ghost goal: Batched, ghost base: multiset<nat>)
        returns (deferred': seq<Change>, done: bool)
      requires pending != [] && Draining(goal, inFlight, deferred, pending, hold)
      requires ledger.handed == base + Types(inFlight)
      modifies this`pending, this`inFlight, this`ledger
      ensures !done ==> Draining(goal, inFlight, deferred', pending, hold) && |pending| < |old(pending)|
      ensures done ==> inFlight == goal.batch && deferred' == goal.deferred && pending == goal.rest
      ensures ledger == old(ledger).(
                handed := base + Types(inFlight),
                capHits := old(ledger).capHits + (if done && goal.capHit then 1 else 0))
    {
      var c := pending[0];
      deferred', done := deferred, false;
      if |inFlight| >= BATCH_CAP {
        DrainingFull(goal, inFlight, deferred, pending, hold);
        ledger := ledger.(capHits := ledger.capHits + 1);
        done := true;
        return;
      }
      var has12 := exists q :: q in inFlight && q.RemoteEndpoint?;
      if c.Message? && (has12 || hold) {
        DrainingDefers(goal, inFlight, deferred, pending, hold);
        pending := pending[1..];
        deferred' := deferred + [c];
        return;
      }
      if c.RemoteEndpoint? {
        DrainingStops(goal, inFlight, deferred, pending, hold);
        done := true;
      } else {
        DrainingHands(goal, inFlight, deferred, pending, hold);
      }
      pending := pending[1..];
      HandOut(c, base);
    }

    /** The `while let Some(p) = h.pending.pop_front()` loop. */
    method DrainLoop(hold: bool) returns (deferred: seq<Change>, ghost d: Batched)
      requires inFlight == []
      modifies this`pending, this`inFlight, this`ledger
      ensures d == DrainQueue(old(pending), BATCH_CAP, hold)
      ensures inFlight == d.batch && deferred == d.deferred && pending == d.rest
      ensures ledger == old(ledger).(
                handed := old(ledger).handed + Types(d.batch),
                capHits := old(ledger).capHits + (if d.capHit then 1 else 0))
    {
      deferred := [];
      d := DrainingStarts(pending, hold);
      assert ledger.handed == ledger.handed + Types([]);
      while pending != []
        invariant Draining(d, inFlight, deferred, pending, hold)
        invariant ledger == old(ledger).(handed := old(ledger).handed + Types(inFlight))
        decreases |pending|
      {
        var done;
        deferred, done := DrainTurn(hold, deferred, d, old(ledger).handed);
        if done {
          return;
        }
      }
      DrainingEnds(d, inFlight, deferred, hold);
    }

    method HandOut(c: Change, ghost base: multiset<nat>)
      requires ledger.handed == base + Types(inFlight)
      modifies this`inFlight, this`ledger
      ensures inFlight == old(inFlight) + [c]
      ensures ledger == old(ledger).(handed := base + Types(inFlight))
    {
      TypesConcat(inFlight, [c]);
      TypesOne(c);
      SumAssoc(base, Types(inFlight), OneType(c));
      if Type(c) < LEDGER_TYPES {
        ledger := ledger.(handed := ledger.handed + multiset{Type(c)});
      } else {
        assert ledger.handed + OneType(c) == ledger.handed;
      }
      inFlight := inFlight + [c];
    }

    /** Puts the deferred messages back at the front, last one first. */
    method Requeue(deferred: seq<Change>)
      modifies this`pending, this`ledger
      ensures pending == deferred + old(pending)
      ensures ledger == old(ledger).(deferred21 := old(ledger).deferred21 + |deferred|)
    {
      var i := |deferred|;
      assert deferred[i..] + pending == pending;
      while i > 0
        invariant 0 <= i <= |deferred| && pending == deferred[i..] + old(pending)
        invariant ledger == old(ledger)
      {
        i := i - 1;
        assert deferred[i..] == [deferred[i]] + deferred[i + 1..];
        Assoc([deferred[i]], deferred[i + 1..], old(pending));
        pending := [deferred[i]] + pending;
      }
      assert deferred[0..] == deferred;
      ledger := ledger.(deferred21 := ledger.deferred21 + |deferred|);
    }

    static method NoteOne(n: Network, now: nat) returns (n': Network, holds: bool, late: bool, held: nat)
      ensures n' == NoteHold(n, now) && (holds <==> Holds(n, now)) && (late <==> Overdue(n, now))
      ensures held == HeldNow(n, now)
    {
      n', holds, late, held := n, false, false, 0;
      if n.listed {
        if !(n.type10 && !n.type12 && n.remotes != map[]) {
          n' := n.(holdStart := None);
        } else {
          var start := if n.holdStart.Some? then n.holdStart.value else now;
          n' := n.(holdStart := Some(start));
          held := if now >= start then now - start else 0;
          late := held >= HOLD_TIMEOUT_MS;
          holds := !late;
        }
      }
    }

    /** `note_type12_hold`: stamps each hold, and says whether one stands, whether one is overdue and for
        how long the oldest has been there. */
    method NoteType12Hold(now: nat) returns (holding: bool, timedOut: bool, oldest: nat)
      modifies this`networks
      ensures networks == NoteAll(old(networks), now)
      ensures HoldReport(old(networks), old(networks).Keys, now, holding, timedOut, oldest)
    {
      holding, timedOut, oldest := false, false, 0;
      ghost var before := networks;
      var rest := networks.Keys;
      NotingStarts(before, now);
      while rest != {}
        invariant Noting(before, networks, rest, now, holding, timedOut, oldest)
        decreases |rest|
      {
        var id :| id in rest;
        NotingStep(before, networks, rest, id, now, holding, timedOut, oldest);
        var n, holds, late, held := NoteOne(networks[id], now);
        rest := rest - {id};
        networks := networks[id := n];
        holding, timedOut, oldest := holding || holds, timedOut || late, Later(oldest, held);
      }
      NotingDone(before, networks, now, holding, timedOut, oldest);
    }

    /** Requeues what was deferred and closes the batch. */
    method CloseBatch(deferred: seq<Change>)
      modifies this`pending, this`ledger, this`batchOutstanding
      ensures pending == deferred + old(pending) && batchOutstanding == (inFlight != [])
      ensures ledger == old(ledger).(
                deferred21 := old(ledger).deferred21 + |deferred|,
                batches := old(ledger).batches + (if inFlight != [] then 1 else 0),
                lastBatch := |inFlight|)
    {
      Requeue(deferred);
      if inFlight != [] {
        ledger := ledger.(batches := ledger.batches + 1);
      }
      ledger := ledger.(lastBatch := |inFlight|);
      batchOutstanding := inFlight != [];
    }

    /** Builds a new batch when none is outstanding. */
    method BuildBatch(hold: bool) returns (ghost d: Batched)
      requires !batchOutstanding
      modifies this`pending, this`inFlight, this`ledger, this`batchOutstanding
      ensures d == DrainQueue(old(pending), BATCH_CAP, hold)
      ensures pending == Left(d) && inFlight == d.batch && batchOutstanding == (d.batch != [])
      ensures ledger == StartLedger(old(ledger), d)
    {
      inFlight := [];
      var deferred;
      deferred, d := DrainLoop(hold);
      ghost var l1 := ledger;
      CloseBatch(deferred);
      LedgerClosed(old(ledger), l1, ledger, d);
    }

    /** A second Start before Finish re-returns the outstanding batch unchanged. */
    method StartProcessing(now: nat) returns (batch: seq<Change>)
      modifies this
      ensures State() == StartWorld(old(State()), now)
      ensures batch == inFlight
    {
      if !batchOutstanding {
        var holding, timedOut, oldest := NoteType12Hold(now);
        ghost var d := BuildBatch(holding && !timedOut);
      }
      batch := inFlight;
    }

    /** Counts what the title returned and which networks' type 10 and type 12 are among it. */
    static method Reclaim(seen: seq<Change>) returns (back: multiset<nat>, t10: set<NetId>, t12: set<NetId>)
      ensures back == Types(seen) && t10 == Finished10(seen) && t12 == Finished12(seen)
    {
      back, t10, t12 := multiset{}, {}, {};
      var left := seen;
      while left != []
        invariant Reclaimed(seen, left, back, t10, t12)
        decreases |left|
      {
        var c := left[0];
        ReclaimedStep(seen, left, back, t10, t12);
        if Type(c) < LEDGER_TYPES {
          back := back + multiset{Type(c)};
        }
        if c.LocalEndpoint? {
          t10 := t10 + {c.net};
        }
        if c.RemoteEndpoint? {
          t12 := t12 + {c.net};
        }
        left := left[1..];
      }
    }

    /** Sets the delivered flags of the networks whose changes came back. */
    method ApplyFlags(t10: set<NetId>, t12: set<NetId>)
      modifies this`networks
      ensures networks == FlagAll(old(networks), t10, t12)
    {
      networks := map id | id in networks ::
        networks[id].(type10 := networks[id].type10 || id in t10, type12 := networks[id].type12 || id in t12);
    }

    method FinishProcessing(changes: seq<Change>)
      modifies this
      ensures State() == FinishWorld(old(State()), changes)
    {
      if changes == [] {
        return;
      }
      var seen := if |changes| <= 64 then changes else changes[..64];
      var back, t10, t12 := Reclaim(seen);
      ApplyFlags(t10, t12);
      inFlight := [];
      batchOutstanding := false;
      ledger := ledger.(lastReclaimed := |seen|, reclaimed := ledger.reclaimed + back);
      assert ledger == FinishLedger(old(ledger), Seen(changes));
    }
  }
}
