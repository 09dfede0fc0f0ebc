/** What the handshake of module `Handshake` brings about: exactly what every operation queues and
    announces, when a network is open, where a received frame goes, and what a Start hands out. */
module HandshakeProgress {
  import opened Common
  import opened SerialNumbers
  import opened Reliable
  import opened Pump
  import opened Party
  import opened Handshake
  import opened Conservation
  import opened Seqs

  // ---------------------------------------------------------------------------
  // The control changes of each operation
  // ---------------------------------------------------------------------------

  predicate Queues(e: Event) {
    !e.Start? && !e.Finish?
  }

  ghost predicate Announces12(s: Session, e: Event) {
    e.Announce? && e.id in s.w.nets && MayAnnounce(s.w.nets[e.id], e.ent, e.isLocal, e.isMember)
  }

  /** Types 2, 3, 4, 10, 12 and 19, each for its own operation. */
  ghost function ControlOf(s: Session, e: Event): seq<Change> {
    match e
    case CreateNetwork(id) => if id in s.w.nets then [] else [Other(2)]
    case Connect(id) => if id in s.w.nets && !s.w.nets[id].connected then [Other(3)] else []
    case Authenticate(id) => if id in s.w.nets then [Other(4)] else []
    case CreateEndpoint(id, _) => if id in s.w.nets then [LocalEndpoint(id)] else []
    case Announce(id, ent, _, _, _) => if Announces12(s, e) then [RemoteEndpoint(id, ent)] else []
    case Leave(id) => if id in s.w.nets then [Other(19)] else []
    case _ => []
  }

  function Controls(cs: seq<Change>): seq<Change> {
    Filter(IsControl, cs)
  }

  /** Control changes are never dropped. */
  lemma QueueControls(p: PumpState, c: Change)
    ensures Controls(QueueStep(p, c).pending) == Controls(p.pending) + Keep(IsControl, c)
  {
    FilterConcat(IsControl, p.pending, [c]);
    FilterOne(IsControl, c);
    assert Controls(p.pending) + [] == Controls(p.pending);
  }

  lemma {:induction false} DeliverAllControls(p: PumpState, id: NetId, ent: Entity, msgs: seq<Msg>)
    ensures Controls(DeliverAll(p, id, ent, msgs).pending) == Controls(p.pending)
    decreases |msgs|
  {
    if msgs != [] {
      var c := ToChange(id, ent, msgs[0]);
      QueueControls(p, c);
      DeliverAllControls(QueueStep(p, c), id, ent, msgs[1..]);
    }
  }

  /** What a delivery leaves of a network: everything but receivers and parked frames. */
  predicate SameShape(n: Network, n': Network) {
    && n'.listed == n.listed && n'.connected == n.connected && n'.hasLocal == n.hasLocal
    && n'.type10 == n.type10 && n'.type12 == n.type12 && n'.holdStart == n.holdStart
    && n'.remotes.Keys == n.remotes.Keys
  }

  ghost predicate SameShapes(nets: map<NetId, Network>, nets': map<NetId, Network>) {
    nets'.Keys == nets.Keys && forall x <- nets :: SameShape(nets[x], nets'[x])
  }

  lemma {:induction false} FlushControls(w: World, id: NetId, now: u64)
    requires id in w.nets
    ensures var w' := FlushStep(w, id, now);
            Controls(w'.pump.pending) == Controls(w.pump.pending) && SameShapes(w.nets, w'.nets)
    decreases |w.nets[id].pendingRx|
  {
    if CanFlush(w.nets[id]) {
      var f, w1 := w.nets[id].pendingRx[0], PopFront(w, id);
      var w2 := DeliverStep(w1, id, f, now);
      PopShapes(w, id);
      DeliverControls(w1, id, f, now);
      FlushControls(w2, id, now);
      ShapesTrans(w.nets, w1.nets, w2.nets);
      ShapesTrans(w.nets, w2.nets, FlushStep(w2, id, now).nets);
    }
  }

  lemma PopShapes(w: World, id: NetId)
    requires id in w.nets && w.nets[id].pendingRx != []
    ensures PopFront(w, id).pump == w.pump && SameShapes(w.nets, PopFront(w, id).nets)
  {
  }

  lemma ShapesTrans(a: map<NetId, Network>, b: map<NetId, Network>, c: map<NetId, Network>)
    requires SameShapes(a, b) && SameShapes(b, c)
    ensures SameShapes(a, c)
  {
  }

  lemma DeliverControls(w: World, id: NetId, f: Frame, now: u64)
    requires id in w.nets && f.ent in w.nets[id].remotes
    ensures var w' := DeliverStep(w, id, f, now);
            && Controls(w'.pump.pending) == Controls(w.pump.pending) && SameShapes(w.nets, w'.nets)
            && w'.nets[id].pendingRx == w.nets[id].pendingRx
  {
    DeliverAllControls(w.pump, id, f.ent, Out(OnMessageStep(w.nets[id].remotes[f.ent], f.seqNo, f.msg, now).1));
    var n := w.nets[id];
    var r := OnMessageStep(n.remotes[f.ent], f.seqNo, f.msg, now).0;
    assert n.remotes[f.ent := r].Keys == n.remotes.Keys;
  }

  lemma ReceiveControls(w: World, id: NetId, f: Frame, now: u64)
    requires id in w.nets
    ensures var w' := ReceiveStep(w, id, f, now);
            Controls(w'.pump.pending) == Controls(w.pump.pending) && SameShapes(w.nets, w'.nets)
  {
    var n := w.nets[id];
    if f.ent in n.remotes && Ready(n) {
      if n.pendingRx != [] {
        FlushControls(w.(nets := w.nets[id := n.(pendingRx := n.pendingRx + [f])]), id, now);
      } else {
        DeliverControls(w, id, f, now);
      }
    }
  }

  /** An operation queues exactly its own control changes. */
  lemma StepControls(s: Session, e: Event)
    requires Queues(e)
    ensures Controls(Step(s, e).w.pump.pending) == Controls(s.w.pump.pending) + ControlOf(s, e)
  {
    var p := s.w.pump;
    assert Controls(p.pending) + [] == Controls(p.pending);
    match e
    case CreateNetwork(id) => QueueControls(p, Other(2));
    case Connect(id) => QueueControls(p, Other(3));
    case Authenticate(id) => QueueControls(p, Other(4));
    case CreateEndpoint(id, now) =>
      QueueControls(p, LocalEndpoint(id));
      if id in s.w.nets {
        FlushControls(World(QueueStep(p, LocalEndpoint(id)), s.w.nets[id := s.w.nets[id].(hasLocal := true)]), id, now);
      }
    case Announce(id, ent, _, _, _) => QueueControls(p, RemoteEndpoint(id, ent));
    case Receive(id, f, now) => if id in s.w.nets { ReceiveControls(s.w, id, f, now); }
    case Flush(id, now) => if id in s.w.nets { FlushControls(s.w, id, now); }
    case Leave(id) => QueueControls(p, Other(19));
  }

  // ---------------------------------------------------------------------------
  // What an operation makes of the networks
  // ---------------------------------------------------------------------------

  /** How network `x` may change: its flags not at all, its endpoint and its remotes by their operations. */
  ghost predicate Moved(s: Session, e: Event, x: NetId, n: Network, n': Network) {
    && n'.type10 == n.type10 && n'.type12 == n.type12 && n'.holdStart == n.holdStart
    && (n'.hasLocal <==> n.hasLocal || (e.CreateEndpoint? && e.id == x))
    && n'.remotes.Keys == n.remotes.Keys + (if Announces12(s, e) && e.id == x then {e.ent} else {})
  }

  predicate Blank(n: Network) {
    !n.type10 && !n.type12 && !n.hasLocal && n.remotes == map[]
  }

  ghost predicate NetsMoved(s: Session, e: Event, nets': map<NetId, Network>) {
    && s.w.nets.Keys <= nets'.Keys
    && (forall x <- s.w.nets :: Moved(s, e, x, s.w.nets[x], nets'[x]))
    && (forall x <- nets' :: x in s.w.nets || Blank(nets'[x]))
  }

  lemma ShapesMoved(s: Session, e: Event, nets': map<NetId, Network>)
    requires SameShapes(s.w.nets, nets') && !e.CreateEndpoint? && !Announces12(s, e)
    ensures NetsMoved(s, e, nets')
  {
  }

  lemma EndpointMoved(s: Session, id: NetId, now: u64)
    requires id in s.w.nets
    ensures NetsMoved(s, CreateEndpoint(id, now), CreateEndpointStep(s.w, id, now).nets)
  {
    var nets := s.w.nets[id := s.w.nets[id].(hasLocal := true)];
    FlushControls(World(QueueStep(s.w.pump, LocalEndpoint(id)), nets), id, now);
    var nets' := CreateEndpointStep(s.w, id, now).nets;
    assert SameShapes(nets, nets');
    forall x <- s.w.nets ensures Moved(s, CreateEndpoint(id, now), x, s.w.nets[x], nets'[x]) {
      assert SameShape(nets[x], nets'[x]);
    }
  }

  lemma AnnounceMoved(s: Session, id: NetId, ent: Entity, addr: Addr, isLocal: bool, isMember: bool)
    requires id in s.w.nets
    ensures var e := Announce(id, ent, addr, isLocal, isMember);
            NetsMoved(s, e, AnnounceStep(s.w, id, ent, addr, isLocal, isMember).nets)
  {
  }

  lemma LeaveMoved(s: Session, id: NetId)
    requires id in s.w.nets
    ensures NetsMoved(s, Leave(id), LeaveStep(s.w, id).nets)
  {
  }

  lemma PlainMoved(s: Session, e: Event)
    requires e.CreateNetwork? || e.Connect? || e.Authenticate?
    ensures NetsMoved(s, e, Step(s, e).w.nets)
  {
  }

  lemma StepMoves(s: Session, e: Event)
    requires Queues(e)
    ensures NetsMoved(s, e, Step(s, e).w.nets)
  {
    match e
    case CreateEndpoint(id, now) => if id in s.w.nets { EndpointMoved(s, id, now); }
    case Receive(id, f, now) => if id in s.w.nets { ReceiveMoved(s, id, f, now); }
    case Flush(id, now) => if id in s.w.nets { FlushMoved(s, id, now); }
    case Announce(id, ent, addr, isLocal, isMember) =>
      if id in s.w.nets { AnnounceMoved(s, id, ent, addr, isLocal, isMember); }
    case Leave(id) => if id in s.w.nets { LeaveMoved(s, id); }
    case _ => PlainMoved(s, e);
  }

  lemma ReceiveMoved(s: Session, id: NetId, f: Frame, now: u64)
    requires id in s.w.nets
    ensures NetsMoved(s, Receive(id, f, now), ReceiveStep(s.w, id, f, now).nets)
  {
    ReceiveControls(s.w, id, f, now);
    ShapesMoved(s, Receive(id, f, now), ReceiveStep(s.w, id, f, now).nets);
  }

  lemma FlushMoved(s: Session, id: NetId, now: u64)
    requires id in s.w.nets
    ensures NetsMoved(s, Flush(id, now), FlushStep(s.w, id, now).nets)
  {
    FlushControls(s.w, id, now);
    ShapesMoved(s, Flush(id, now), FlushStep(s.w, id, now).nets);
  }

  // ---------------------------------------------------------------------------
  // The delivered flags are exactly what came back
  // ---------------------------------------------------------------------------

  /** Every type 10 and type 12 in the list is for one of these networks. */
  ghost predicate ForNets(cs: seq<Change>, ids: set<NetId>) {
    forall c <- cs | c.LocalEndpoint? || c.RemoteEndpoint? :: c.net in ids
  }

  /** Some remote of the network has had its type 12 returned. */
  ghost predicate PeerBack(back12: set<Peer>, id: NetId) {
    exists ent :: (id, ent) in back12
  }

  ghost predicate FlagsOk(nets: map<NetId, Network>, back10: set<NetId>, back12: set<Peer>) {
    && back10 <= nets.Keys && (forall p <- back12 :: p.0 in nets)
    && forall id <- nets :: (nets[id].type10 <==> id in back10) && (nets[id].type12 <==> PeerBack(back12, id))
  }

  ghost predicate FlagsInv(s: Session) {
    && ForNets(s.w.pump.pending, s.w.nets.Keys) && ForNets(s.w.pump.inFlight, s.w.nets.Keys)
    && FlagsOk(s.w.nets, s.back10, s.back12)
  }

  lemma ControlsForNets(cs: seq<Change>, ids: set<NetId>)
    ensures ForNets(cs, ids) <==> ForNets(Controls(cs), ids)
  {
    forall c ensures c in Controls(cs) <==> c in cs && IsControl(c) {
      FilterMember(IsControl, cs, c);
    }
  }

  lemma FlagsMoved(s: Session, e: Event, nets': map<NetId, Network>)
    requires FlagsOk(s.w.nets, s.back10, s.back12) && NetsMoved(s, e, nets')
    ensures FlagsOk(nets', s.back10, s.back12)
  {
  }

  lemma QueueKeepsFlags(s: Session, e: Event)
    requires FlagsInv(s) && Queues(e)
    ensures FlagsInv(Step(s, e))
  {
    var t := Step(s, e);
    StepMoves(s, e);
    FlagsMoved(s, e, t.w.nets);
    StepControls(s, e);
    ControlsForNets(s.w.pump.pending, s.w.nets.Keys);
    ControlsForNets(t.w.pump.pending, t.w.nets.Keys);
    assert ForNets(ControlOf(s, e), t.w.nets.Keys);
    StepInFlight(s, e);
  }

  lemma StepInFlight(s: Session, e: Event)
    requires Queues(e)
    ensures var t := Step(s, e);
            t.w.pump.inFlight == s.w.pump.inFlight && t.back10 == s.back10 && t.back12 == s.back12
  {
    var added := StepGrows(s, e);
  }

  lemma DrainForNets(pending: seq<Change>, room: nat, hold: bool, ids: set<NetId>)
    requires ForNets(pending, ids)
    ensures var d := DrainQueue(pending, room, hold); ForNets(d.batch, ids) && ForNets(Left(d), ids)
  {
    var d := DrainQueue(pending, room, hold);
    DrainKeepsOrder(pending, room, hold);
    ControlsForNets(pending, ids);
    ControlsForNets(d.batch, ids);
    ControlsForNets(Left(d), ids);
    var all := Controls(d.batch) + Controls(Left(d));
    assert forall c <- Controls(d.batch) :: c in all;
    assert forall c <- Controls(Left(d)) :: c in all;
  }

  lemma NotedFlags(nets: map<NetId, Network>, now: nat, back10: set<NetId>, back12: set<Peer>)
    requires FlagsOk(nets, back10, back12)
    ensures FlagsOk(NoteAll(nets, now), back10, back12)
  {
  }

  lemma StartKeepsFlags(s: Session, clock: nat)
    requires FlagsInv(s)
    ensures FlagsInv(Step(s, Start(clock)))
  {
    if !s.w.pump.outstanding {
      DrainForNets(s.w.pump.pending, BATCH_CAP, Defers(s.w.nets, clock), s.w.nets.Keys);
      NotedFlags(s.w.nets, clock, s.back10, s.back12);
      assert NoteAll(s.w.nets, clock).Keys == s.w.nets.Keys;
    }
  }

  lemma {:induction false} Finished10Has(cs: seq<Change>, id: NetId)
    ensures id in Finished10(cs) <==> LocalEndpoint(id) in cs
  {
    if cs != [] {
      assert cs == [cs[0]] + cs[1..];
      Finished10Has(cs[1..], id);
    }
  }

  /** A network's type 12 is among the changes exactly when one of its remotes is announced by them. */
  lemma {:induction false} Finished12Has(cs: seq<Change>, id: NetId)
    ensures id in Finished12(cs) <==> PeerBack(Announced(cs), id)
  {
    if cs != [] {
      Finished12Has(cs[1..], id);
      if cs[0].RemoteEndpoint? && cs[0].net == id {
        assert (id, cs[0].ent) in Announced(cs);
      } else if PeerBack(Announced(cs[1..]), id) {
        var ent :| (id, ent) in Announced(cs[1..]);
        assert (id, ent) in Announced(cs);
      }
    }
  }

  lemma AnnouncedKnown(cs: seq<Change>, ids: set<NetId>)
    requires ForNets(cs, ids)
    ensures (forall p <- Announced(cs) :: p.0 in ids) && Finished10(cs) <= ids
  {
    forall p <- Announced(cs) ensures p.0 in ids {
      AnnouncedIn(cs, p);
    }
    forall id <- Finished10(cs) ensures id in ids {
      Finished10Has(cs, id);
    }
  }

  lemma {:induction false} AnnouncedIn(cs: seq<Change>, p: Peer)
    ensures p in Announced(cs) <==> RemoteEndpoint(p.0, p.1) in cs
  {
    if cs != [] {
      assert cs == [cs[0]] + cs[1..];
      AnnouncedIn(cs[1..], p);
    }
  }

  lemma FlagsAfter(nets: map<NetId, Network>, back10: set<NetId>, back12: set<Peer>, cs: seq<Change>)
    requires FlagsOk(nets, back10, back12) && ForNets(cs, nets.Keys)
    ensures FlagsOk(FlagAll(nets, Finished10(cs), Finished12(cs)), back10 + Finished10(cs), back12 + Announced(cs))
  {
    AnnouncedKnown(cs, nets.Keys);
    forall id <- nets
      ensures PeerBack(back12 + Announced(cs), id) <==> PeerBack(back12, id) || id in Finished12(cs)
    {
      Finished12Has(cs, id);
      if PeerBack(back12, id) {
        var ent :| (id, ent) in back12;
        assert (id, ent) in back12 + Announced(cs);
      }
      if PeerBack(Announced(cs), id) {
        var ent :| (id, ent) in Announced(cs);
        assert (id, ent) in back12 + Announced(cs);
      }
    }
  }

  lemma FinishKeepsFlags(s: Session)
    requires FlagsInv(s) && |s.w.pump.inFlight| <= BATCH_CAP
    ensures FlagsInv(Step(s, Finish))
  {
    var cs := s.w.pump.inFlight;
    if cs == [] {
      assert s.back10 + Finished10(cs) == s.back10 && s.back12 + Announced(cs) == s.back12;
    } else {
      FlagsAfter(s.w.nets, s.back10, s.back12, cs);
    }
  }

  lemma {:induction false} RunKeepsFlags(events: seq<Event>)
    ensures FlagsInv(Run(events))
    decreases |events|
  {
    if events != [] {
      var s, e := Run(events[..|events| - 1]), events[|events| - 1];
      RunKeepsFlags(events[..|events| - 1]);
      RunKeeps(events[..|events| - 1]);
      if e.Start? {
        StartKeepsFlags(s, e.clock);
      } else if e.Finish? {
        FinishKeepsFlags(s);
      } else {
        QueueKeepsFlags(s, e);
      }
    }
  }

  /** Over every run: a network counts its type 10 as delivered exactly when it came back through Finish,
      and its type 12 exactly when some remote's did. */
  lemma FlagsExact(events: seq<Event>, id: NetId)
    requires id in Run(events).w.nets
    ensures var s := Run(events);
            (s.w.nets[id].type10 <==> id in s.back10) && (s.w.nets[id].type12 <==> PeerBack(s.back12, id))
  {
    RunKeepsFlags(events);
  }

  // ---------------------------------------------------------------------------
  // Where a received frame goes
  // ---------------------------------------------------------------------------

  /** How many parked frames come before the first one of an unknown remote. */
  function KnownRun(frames: seq<Frame>, known: set<Entity>): (k: nat)
    ensures k <= |frames| && (forall i | 0 <= i < k :: frames[i].ent in known)
    ensures k < |frames| ==> frames[k].ent !in known
  {
    if frames == [] || frames[0].ent !in known then 0 else 1 + KnownRun(frames[1..], known)
  }

  /** The frames go through their remotes' receivers, one after another. */
  function Through(w: World, id: NetId, frames: seq<Frame>, now: u64): World
    requires id in w.nets && forall f <- frames :: f.ent in w.nets[id].remotes
    decreases |frames|
  {
    if frames == [] then w
    else
      DeliverControls(w, id, frames[0], now);
      Through(DeliverStep(w, id, frames[0], now), id, frames[1..], now)
  }

  /** What their receivers hand out on the way. */
  function ThroughReleases(w: World, id: NetId, frames: seq<Frame>, now: u64): seq<Release>
    requires id in w.nets && forall f <- frames :: f.ent in w.nets[id].remotes
    decreases |frames|
  {
    if frames == [] then []
    else
      DeliverControls(w, id, frames[0], now);
      Told(id, frames[0].ent, Out(OnMessageStep(w.nets[id].remotes[frames[0].ent], frames[0].seqNo, frames[0].msg, now).1))
      + ThroughReleases(DeliverStep(w, id, frames[0], now), id, frames[1..], now)
  }

  function Parked(w: World, id: NetId, frames: seq<Frame>): World
    requires id in w.nets
  {
    w.(nets := w.nets[id := w.nets[id].(pendingRx := frames)])
  }

  /** Delivering does not look at what is parked. */
  lemma DeliverParked(w: World, id: NetId, f: Frame, frames: seq<Frame>, now: u64)
    requires id in w.nets && f.ent in w.nets[id].remotes
    ensures DeliverStep(Parked(w, id, frames), id, f, now) == Parked(DeliverStep(w, id, f, now), id, frames)
  {
  }

  /** The open network's flush: everything up to the first frame of an unknown remote is delivered in
      order, the rest stays parked. */
  lemma {:induction false} FlushExact(w: World, id: NetId, now: u64)
    requires id in w.nets && Ready(w.nets[id])
    ensures var n := w.nets[id];
            var k := KnownRun(n.pendingRx, n.remotes.Keys);
            && FlushStep(w, id, now) == Through(Parked(w, id, n.pendingRx[k..]), id, n.pendingRx[..k], now)
            && FlushReleases(w, id, now) == ThroughReleases(Parked(w, id, n.pendingRx[k..]), id, n.pendingRx[..k], now)
    decreases |w.nets[id].pendingRx|
  {
    var n := w.nets[id];
    var k := KnownRun(n.pendingRx, n.remotes.Keys);
    if k == 0 {
      assert n.pendingRx[0..] == n.pendingRx;
      assert Parked(w, id, n.pendingRx) == w;
    } else {
      var f, rest := n.pendingRx[0], n.pendingRx[1..];
      var w1 := PopFront(w, id);
      var w2 := DeliverStep(w1, id, f, now);
      DeliverControls(w1, id, f, now);
      FlushExact(w2, id, now);
      assert w1 == Parked(w, id, rest);
      assert w2.nets[id].pendingRx == rest && w2.nets[id].remotes.Keys == n.remotes.Keys;
      CutBehind(n.pendingRx, k);
      FlushFront(w, id, f, rest, k, now);
    }
  }

  lemma CutBehind<T>(s: seq<T>, k: nat)
    requires 1 <= k <= |s|
    ensures s[..k][1..] == s[1..][..k - 1] && s[k..] == s[1..][k - 1..]
  {
  }

  lemma FlushFront(w: World, id: NetId, f: Frame, rest: seq<Frame>, k: nat, now: u64)
    requires id in w.nets && f.ent in w.nets[id].remotes && 1 <= k <= |rest| + 1
    ensures var later := rest[k - 1..];
            && DeliverStep(Parked(w, id, later), id, f, now) == Parked(DeliverStep(Parked(w, id, rest), id, f, now), id, later)
            && Parked(w, id, later).nets[id].remotes == Parked(w, id, rest).nets[id].remotes
  {
    DeliverParked(Parked(w, id, rest), id, f, rest[k - 1..], now);
    assert Parked(Parked(w, id, rest), id, rest[k - 1..]) == Parked(w, id, rest[k - 1..]);
  }

  ghost predicate Accounts(p: PumpState, q: PumpState, rs: seq<Release>) {
    exists added :: Grows(p, q, added, rs)
  }

  /** An open network and a known remote: the frame joins the parked ones, and all of them up to the first
      one of an unknown remote go through their receivers. */
  ghost predicate GoesThrough(w: World, w': World, id: NetId, frames: seq<Frame>, now: u64)
    requires id in w.nets
  {
    var k := KnownRun(frames, w.nets[id].remotes.Keys);
    var open := Parked(w, id, frames[k..]);
    && w' == Through(open, id, frames[..k], now)
    && Accounts(w.pump, w'.pump, ThroughReleases(open, id, frames[..k], now))
  }

  lemma OpenQueued(w: World, id: NetId, f: Frame, now: u64)
    requires id in w.nets && f.ent in w.nets[id].remotes && Ready(w.nets[id]) && w.nets[id].pendingRx != []
    ensures GoesThrough(w, ReceiveStep(w, id, f, now), id, w.nets[id].pendingRx + [f], now)
  {
    var n := w.nets[id];
    var frames := n.pendingRx + [f];
    ReceiveAccounts(w, id, f, now);
    ReceiveIsFlush(w, id, f, now);
    FlushExact(Parked(w, id, frames), id, now);
    ParkedTwice(w, id, frames, frames[KnownRun(frames, n.remotes.Keys)..]);
  }

  lemma ReceiveAccounts(w: World, id: NetId, f: Frame, now: u64)
    requires id in w.nets
    ensures Accounts(w.pump, ReceiveStep(w, id, f, now).pump, ReceiveReleases(w, id, f, now))
  {
    var added := ReceiveGrows(w, id, f, now);
    assert Grows(w.pump, ReceiveStep(w, id, f, now).pump, added, ReceiveReleases(w, id, f, now));
  }

  lemma ParkedTwice(w: World, id: NetId, frames: seq<Frame>, later: seq<Frame>)
    requires id in w.nets
    ensures Parked(Parked(w, id, frames), id, later) == Parked(w, id, later)
    ensures SameShape(w.nets[id], Parked(w, id, frames).nets[id])
  {
  }

  lemma ReceiveIsFlush(w: World, id: NetId, f: Frame, now: u64)
    requires id in w.nets && f.ent in w.nets[id].remotes && Ready(w.nets[id]) && w.nets[id].pendingRx != []
    ensures var w1 := Parked(w, id, w.nets[id].pendingRx + [f]);
            && ReceiveStep(w, id, f, now) == FlushStep(w1, id, now)
            && ReceiveReleases(w, id, f, now) == FlushReleases(w1, id, now)
  {
  }

  lemma ThroughOne(w: World, id: NetId, f: Frame, now: u64)
    requires id in w.nets && f.ent in w.nets[id].remotes
    ensures Through(w, id, [f], now) == DeliverStep(w, id, f, now)
    ensures ThroughReleases(w, id, [f], now) == DeliverReleases(w, id, f, now)
  {
    var w' := DeliverStep(w, id, f, now);
    assert [f][1..] == [];
    assert Through(w', id, [], now) == w' && ThroughReleases(w', id, [], now) == [];
    assert DeliverReleases(w, id, f, now) + [] == DeliverReleases(w, id, f, now);
  }

  lemma OpenEmpty(w: World, id: NetId, f: Frame, now: u64)
    requires id in w.nets && f.ent in w.nets[id].remotes && Ready(w.nets[id]) && w.nets[id].pendingRx == []
    ensures GoesThrough(w, ReceiveStep(w, id, f, now), id, [f], now)
  {
    ReceiveAccounts(w, id, f, now);
    ThroughOne(w, id, f, now);
    assert KnownRun([f], w.nets[id].remotes.Keys) == 1 by { assert [f][1..] == []; }
    assert [f][..1] == [f] && [f][1..] == [];
    assert Parked(w, id, []) == w;
  }

  lemma ReceiveOpen(w: World, id: NetId, f: Frame, now: u64)
    requires id in w.nets && f.ent in w.nets[id].remotes && Ready(w.nets[id])
    ensures GoesThrough(w, ReceiveStep(w, id, f, now), id, w.nets[id].pendingRx + [f], now)
  {
    if w.nets[id].pendingRx != [] {
      OpenQueued(w, id, f, now);
    } else {
      assert [] + [f] == [f];
      OpenEmpty(w, id, f, now);
    }
  }

  /** Where a received frame goes, over every run. Until the network has its local endpoint and the type 12
      of a remote has come back, and for an unknown remote, it is parked, the oldest giving way beyond 128.
      Afterwards it leaves through its receiver as soon as no parked frame waits for an unknown remote, and
      everything released on the way is queued or counted as dropped. */
  lemma ReceivedFrame(events: seq<Event>, id: NetId, f: Frame, now: u64)
    requires id in Run(events).w.nets
    ensures var s := Run(events);
            var n, w' := s.w.nets[id], ReceiveStep(s.w, id, f, now);
            var frames := n.pendingRx + [f];
            if f.ent in n.remotes && n.hasLocal && PeerBack(s.back12, id) then GoesThrough(s.w, w', id, frames, now)
            else w' == Parked(s.w, id, if |n.pendingRx| >= RX_CAP then frames[1..] else frames)
  {
    var s := Run(events);
    var n := s.w.nets[id];
    FlagsExact(events, id);
    if f.ent in n.remotes && Ready(n) {
      ReceiveOpen(s.w, id, f, now);
    } else if |n.pendingRx| >= RX_CAP {
      assert (n.pendingRx + [f])[1..] == n.pendingRx[1..] + [f];
    }
  }

  // ---------------------------------------------------------------------------
  // Every remote is announced, once
  // ---------------------------------------------------------------------------

  /** How often a remote's type 12 has been queued: once if the network has the remote, else never. */
  ghost predicate Announced12(controls: seq<Change>, nets: map<NetId, Network>) {
    forall id, ent :: multiset(controls)[RemoteEndpoint(id, ent)] == if id in nets && ent in nets[id].remotes then 1 else 0
  }

  /** A type 10 has been queued for exactly the networks with a local endpoint. */
  ghost predicate Announced10(controls: seq<Change>, nets: map<NetId, Network>) {
    forall id :: LocalEndpoint(id) in controls <==> id in nets && nets[id].hasLocal
  }

  ghost predicate AnnouncedOnce(b: Books) {
    Announced12(Controls(b.queuedLog), b.s.w.nets) && Announced10(Controls(b.queuedLog), b.s.w.nets)
  }

  lemma BookControls(b: Books, e: Event)
    requires Queues(e)
    ensures Controls(BookStep(b, e).queuedLog) == Controls(b.queuedLog) + ControlOf(b.s, e)
  {
    var p, q := b.s.w.pump, Step(b.s, e).w.pump;
    var added := StepGrows(b.s, e);
    assert Appended(p, q) == added;
    StepControls(b.s, e);
    FilterConcat(IsControl, p.pending, added);
    assert Controls(added) == ControlOf(b.s, e) by {
      SameTail(Controls(p.pending), Controls(added), ControlOf(b.s, e));
    }
    FilterConcat(IsControl, b.queuedLog, added);
  }

  lemma SameTail<T>(a: seq<T>, b: seq<T>, c: seq<T>)
    requires a + b == a + c
    ensures b == c
  {
    assert |b| == |c|;
    forall i | 0 <= i < |b| ensures b[i] == c[i] {
      assert (a + b)[|a| + i] == (a + c)[|a| + i];
    }
  }

  lemma MoreAnnounced(s: Session, e: Event, controls: seq<Change>, nets': map<NetId, Network>)
    requires Queues(e) && NetsMoved(s, e, nets')
    requires Announced12(controls, s.w.nets) && Announced10(controls, s.w.nets)
    ensures Announced12(controls + ControlOf(s, e), nets')
  {
    forall id, ent
      ensures multiset(controls + ControlOf(s, e))[RemoteEndpoint(id, ent)] == if id in nets' && ent in nets'[id].remotes then 1 else 0
    {
      assert multiset(ControlOf(s, e))[RemoteEndpoint(id, ent)]
          == if Announces12(s, e) && e.id == id && e.ent == ent then 1 else 0;
      if id in s.w.nets { assert Moved(s, e, id, s.w.nets[id], nets'[id]); }
    }
  }

  lemma MoreEndpoints(s: Session, e: Event, controls: seq<Change>, nets': map<NetId, Network>)
    requires Queues(e) && NetsMoved(s, e, nets') && Announced10(controls, s.w.nets)
    ensures Announced10(controls + ControlOf(s, e), nets')
  {
    forall id ensures LocalEndpoint(id) in controls + ControlOf(s, e) <==> id in nets' && nets'[id].hasLocal {
      assert LocalEndpoint(id) in ControlOf(s, e) <==> e.CreateEndpoint? && e.id == id && id in s.w.nets;
      if id in s.w.nets { assert Moved(s, e, id, s.w.nets[id], nets'[id]); }
    }
  }

  lemma QueueAnnounces(b: Books, e: Event)
    requires Queues(e) && AnnouncedOnce(b)
    ensures AnnouncedOnce(BookStep(b, e))
  {
    BookControls(b, e);
    StepMoves(b.s, e);
    MoreAnnounced(b.s, e, Controls(b.queuedLog), Step(b.s, e).w.nets);
    MoreEndpoints(b.s, e, Controls(b.queuedLog), Step(b.s, e).w.nets);
  }

  ghost predicate NamesKept(nets: map<NetId, Network>, nets': map<NetId, Network>) {
    nets'.Keys == nets.Keys
    && forall id <- nets :: nets'[id].remotes == nets[id].remotes && nets'[id].hasLocal == nets[id].hasLocal
  }

  lemma SameNames(controls: seq<Change>, nets: map<NetId, Network>, nets': map<NetId, Network>)
    requires NamesKept(nets, nets') && Announced12(controls, nets) && Announced10(controls, nets)
    ensures Announced12(controls, nets') && Announced10(controls, nets')
  {
  }

  lemma NoteNames(nets: map<NetId, Network>, now: nat)
    ensures NamesKept(nets, NoteAll(nets, now))
  {
  }

  lemma StartNames(w: World, now: nat)
    ensures NamesKept(w.nets, StartWorld(w, now).nets)
  {
    NoteNames(w.nets, now);
  }

  lemma FinishNames(w: World, returned: seq<Change>)
    ensures NamesKept(w.nets, FinishWorld(w, returned).nets)
  {
  }

  lemma BatchAnnounces(b: Books, e: Event)
    requires !Queues(e) && AnnouncedOnce(b)
    ensures AnnouncedOnce(BookStep(b, e))
  {
    if e.Start? { StartNames(b.s.w, e.clock); } else { FinishNames(b.s.w, b.s.w.pump.inFlight); }
    SameNames(Controls(b.queuedLog), b.s.w.nets, Step(b.s, e).w.nets);
  }

  /** Over every run, each remote a network knows has had its type 12 queued exactly once and no other
      remote has, and a type 10 has been queued for exactly the networks with a local endpoint. */
  lemma {:induction false} AnnouncedExact(events: seq<Event>)
    ensures AnnouncedOnce(Audit(events))
    decreases |events|
  {
    if events != [] {
      var before, e := events[..|events| - 1], events[|events| - 1];
      AnnouncedExact(before);
      if Queues(e) { QueueAnnounces(Audit(before), e); } else { BatchAnnounces(Audit(before), e); }
    }
  }

  // ---------------------------------------------------------------------------
  // What a Start hands out
  // ---------------------------------------------------------------------------

  /** Without a hold: the front of the queue, and the rest stays. */
  lemma StartPlain(w: World, now: nat)
    requires !w.pump.outstanding && !Defers(w.nets, now)
    ensures var p, q := w.pump, StartWorld(w, now).pump;
            var n := Cut(p.pending, BATCH_CAP);
            q.inFlight == p.pending[..n] && q.pending == p.pending[n..]
  {
    DrainPlain(w.pump.pending, BATCH_CAP);
    var d := DrainQueue(w.pump.pending, BATCH_CAP, false);
    assert [] + d.rest == d.rest;
  }

  /** With a hold: the front of the other changes, and every type 21 stays. */
  lemma StartHeld(w: World, now: nat)
    requires !w.pump.outstanding && Defers(w.nets, now)
    ensures var p, q := w.pump, StartWorld(w, now).pump;
            var cs := Controls(p.pending);
            && q.inFlight == cs[..Cut(cs, BATCH_CAP)]
            && Filter(Is21, q.pending) == Filter(Is21, p.pending)
  {
    var d := DrainQueue(w.pump.pending, BATCH_CAP, true);
    DrainHeld(w.pump.pending, BATCH_CAP);
    DrainKeepsOrder(w.pump.pending, BATCH_CAP, true);
    BatchShape(w.pump.pending, BATCH_CAP, true);
    FilterNone(Is21, d.batch);
    assert [] + Filter(Is21, Left(d)) == Filter(Is21, Left(d));
  }

  /** The network is waiting for its type 12 whenever a batch is built, and stays in the handle. */
  ghost predicate WaitsThrough(s: Session, es: seq<Event>, id: NetId) {
    forall i | 0 <= i < |es| && es[i].Start? :: var t := Fold(Step, s, es[..i]);
      !t.w.pump.outstanding ==> id in t.w.nets && Waiting(t.w.nets[id])
  }

  /** A hold keeps the time at which it was first seen. */
  lemma {:induction false} HoldKeepsTime(s: Session, es: seq<Event>, id: NetId, since: nat)
    requires id in s.w.nets && s.w.nets[id].holdStart == Some(since) && WaitsThrough(s, es, id)
    ensures var t := Fold(Step, s, es); id in t.w.nets && t.w.nets[id].holdStart == Some(since)
  {
    if es != [] {
      var before, e := es[..|es| - 1], es[|es| - 1];
      assert forall i | 0 <= i < |before| :: before[..i] == es[..i];
      HoldKeepsTime(s, before, id, since);
      var t := Fold(Step, s, before);
      if Queues(e) {
        StepMoves(t, e);
        assert Moved(t, e, id, t.w.nets[id], Step(t, e).w.nets[id]);
      } else if e.Start? {
        assert es[|es| - 1].Start? && es[..|es| - 1] == before;
      }
    }
  }

  /** A network that waits for its type 12 from one Start to another ten seconds later holds nothing back
      at the second: type-21s leave in their places. */
  lemma HoldRunsOut(s: Session, first: nat, es: seq<Event>, second: nat, id: NetId)
    requires id in s.w.nets && !s.w.pump.outstanding && Waiting(s.w.nets[id]) && s.w.nets[id].holdStart == None
    requires second >= first + HOLD_TIMEOUT_MS
    requires var t := Fold(Step, Step(s, Start(first)), es);
             WaitsThrough(Step(s, Start(first)), es, id) && !t.w.pump.outstanding && id in t.w.nets && Waiting(t.w.nets[id])
    ensures var p := Fold(Step, Step(s, Start(first)), es).w.pump;
            Step(Fold(Step, Step(s, Start(first)), es), Start(second)).w.pump.inFlight == p.pending[..Cut(p.pending, BATCH_CAP)]
  {
    var t := Fold(Step, Step(s, Start(first)), es);
    HoldKeepsTime(Step(s, Start(first)), es, id, first);
    assert Overdue(t.w.nets[id], second);
    StartPlain(t.w, second);
  }

  /** Until then, with no other hold overdue, no type 21 leaves. */
  lemma HoldHolds(w: World, now: nat, id: NetId)
    requires !w.pump.outstanding && id in w.nets && Holds(w.nets[id], now)
    requires forall x <- w.nets :: !Overdue(w.nets[x], now)
    ensures forall c <- StartWorld(w, now).pump.inFlight :: !c.Message?
  {
    assert AnyHolds(w.nets, w.nets.Keys, now) && !AnyOverdue(w.nets, w.nets.Keys, now);
    StartHeld(w, now);
    var cs := Controls(w.pump.pending);
    forall c <- cs[..Cut(cs, BATCH_CAP)] ensures !c.Message? {
      assert c in cs;
      FilterMember(IsControl, w.pump.pending, c);
    }
  }

  // ---------------------------------------------------------------------------
  // Leaving
  // ---------------------------------------------------------------------------

  /** After a leave every pairing of the network starts over: message 1 is the next one expected. */
  lemma LeaveStartsOver(events: seq<Event>, id: NetId, ent: Entity, m: Msg, now: u64)
    requires var s := Run(events); id in s.w.nets && s.w.nets[id].listed && ent in s.w.nets[id].remotes
    requires Guaranteed(m.options) && Sequential(m.options) && m.payload != []
    ensures var n' := Step(Run(events), Leave(id)).w.nets[id];
            && ent in n'.remotes && !n'.listed && !n'.connected
            && AckValue(n'.remotes[ent]) == 0 && OnMessageStep(n'.remotes[ent], 1, m, now).1 == Delivered([m])
  {
    assert Drain(map[], 2) == Drained(map[], 2, []);
    assert [m] + [] == [m];
  }

  // ---------------------------------------------------------------------------
  // Addresses and holds
  // ---------------------------------------------------------------------------

  /** A new remote gets the address it was announced with, a known one any address with a real port, past
      the gates they share; nothing else moves an address. */
  lemma AddressExact(s: Session, e: Event, id: NetId, ent: Entity)
    requires e.Announce? && id in s.w.nets
    ensures var n, n' := s.w.nets[id], Step(s, e).w.nets[id];
            var heard := e.id == id && e.ent == ent && ent != "" && n.connected && !e.isLocal && n.hasLocal && n.type10
                         && (if ent in n.remotes then e.addr.port != 0 else e.isMember && |n.remotes| < 8);
            if heard then ent in n'.remotes && ent in n'.addrs && n'.addrs[ent] == e.addr
            else (ent in n'.addrs <==> ent in n.addrs) && (ent in n.addrs ==> n'.addrs[ent] == n.addrs[ent])
  {
  }

  /** A hold that is over when a batch is built is forgotten; the next one is timed afresh. */
  lemma HoldForgotten(w: World, now: nat, id: NetId)
    requires !w.pump.outstanding && id in w.nets && w.nets[id].listed
    ensures var n, n' := w.nets[id], StartWorld(w, now).nets[id];
            if !(n.type10 && !n.type12 && n.remotes != map[]) then n'.holdStart == None
            else n'.holdStart == if n.holdStart.Some? then n.holdStart else Some(now)
  {
  }

  // ---------------------------------------------------------------------------
  // What the title's calls settle
  // ---------------------------------------------------------------------------

  /** A network starts listed, blank and not connected; connecting and authenticating set their flags only. */
  lemma CallsSettle(s: Session, id: NetId)
    ensures id !in s.w.nets ==> Step(s, CreateNetwork(id)).w.nets == s.w.nets[id := NEW_NETWORK] && Blank(NEW_NETWORK)
                                && NEW_NETWORK.listed && !NEW_NETWORK.connected && NEW_NETWORK.pendingRx == []
    ensures id in s.w.nets ==> Step(s, Connect(id)).w.nets == s.w.nets[id := s.w.nets[id].(connected := true)]
    ensures id in s.w.nets ==> Step(s, Authenticate(id)).w.nets == s.w.nets[id := s.w.nets[id].(listed := true)]
  {
    if id in s.w.nets && s.w.nets[id].connected {
      assert s.w.nets[id := s.w.nets[id].(connected := true)] == s.w.nets;
    }
  }

  /** Creating the endpoint delivers what was parked, up to the first frame of an unknown remote, if a type 12
      is already back; the type 10 is queued before it. */
  lemma EndpointFlushes(s: Session, id: NetId, now: u64)
    requires id in s.w.nets && s.w.nets[id].type12
    ensures var n, w' := s.w.nets[id], Step(s, CreateEndpoint(id, now)).w;
            var w1 := World(QueueStep(s.w.pump, LocalEndpoint(id)), s.w.nets[id := n.(hasLocal := true)]);
            var k := KnownRun(n.pendingRx, n.remotes.Keys);
            w' == Through(Parked(w1, id, n.pendingRx[k..]), id, n.pendingRx[..k], now)
  {
    var n := s.w.nets[id];
    var w1 := World(QueueStep(s.w.pump, LocalEndpoint(id)), s.w.nets[id := n.(hasLocal := true)]);
    FlushExact(w1, id, now);
    var k := KnownRun(n.pendingRx, n.remotes.Keys);
    ParkedTwice(w1, id, n.pendingRx, n.pendingRx[k..]);
  }
}
