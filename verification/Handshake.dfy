/** Whole runs of the Party handle against a title that returns each batch it was handed.

    An event that names an unknown network, or a Finish with nothing outstanding, is a no-op. The
    history fields record everything queued, handed out, returned and released. */
module Handshake {
  import opened SerialNumbers
  import opened Reliable
  import opened Pump
  import opened Party
  import opened Seqs

  datatype Event =
    | CreateNetwork(id: NetId)
    | Connect(id: NetId)
    | Authenticate(id: NetId)
    | CreateEndpoint(id: NetId, now: u64)
    | Announce(id: NetId, ent: Entity, addr: Addr, isLocal: bool, isMember: bool)
    | Receive(id: NetId, frame: Frame, now: u64)
    | Flush(id: NetId, now: u64)
    | Leave(id: NetId)
    | Start(clock: nat)
    | Finish

  /** The handle together with what the title has returned so far. */
  datatype Session = Session(
    w: World,
    back10: set<NetId>,     // networks whose type 10 came back through Finish
    back12: set<Peer>)      // remotes whose type 12 came back through Finish

  const NEW_SESSION := Session(NEW_WORLD, {}, {})

  ghost function Step(s: Session, e: Event): Session {
    match e
    case CreateNetwork(id) => if id in s.w.nets then s else s.(w := CreateNetworkStep(s.w, id))
    case Connect(id) => if id in s.w.nets then s.(w := ConnectStep(s.w, id)) else s
    case Authenticate(id) => if id in s.w.nets then s.(w := AuthenticateStep(s.w, id)) else s
    case CreateEndpoint(id, now) => if id in s.w.nets then s.(w := CreateEndpointStep(s.w, id, now)) else s
    case Announce(id, ent, addr, isLocal, isMember) =>
      if id in s.w.nets then s.(w := AnnounceStep(s.w, id, ent, addr, isLocal, isMember)) else s
    case Receive(id, f, now) => if id in s.w.nets then s.(w := ReceiveStep(s.w, id, f, now)) else s
    case Flush(id, now) => if id in s.w.nets then s.(w := FlushStep(s.w, id, now)) else s
    case Leave(id) => if id in s.w.nets then s.(w := LeaveStep(s.w, id)) else s
    case Start(clock) => s.(w := StartWorld(s.w, clock))
    case Finish =>
      Session(FinishWorld(s.w, s.w.pump.inFlight),
              s.back10 + Finished10(s.w.pump.inFlight), s.back12 + Announced(s.w.pump.inFlight))
  }

  ghost function Run(events: seq<Event>): Session {
    Fold(Step, NEW_SESSION, events)
  }

  // ---------------------------------------------------------------------------
  // The handshake invariant
  // ---------------------------------------------------------------------------

  /** Peers whose type 12 is returned or already in the title's hands. */
  ghost function Known(s: Session): set<Peer> {
    s.back12 + Announced(s.w.pump.inFlight)
  }

  /** Type 12s only for networks whose type 10 is back; every remote's type 12 is accounted for. */
  ghost predicate NetworksOk(s: Session) {
    && (forall id :: id in s.w.nets && s.w.nets[id].type10 ==> id in s.back10)
    && (forall id, ent :: id in s.w.nets && ent in s.w.nets[id].remotes ==>
          (id, ent) in Known(s) + Announced(s.w.pump.pending))
  }

  ghost predicate PeersOk(s: Session) {
    forall p :: p in Known(s) + Announced(s.w.pump.pending) ==> p.0 in s.back10
  }

  ghost predicate OutstandingOk(p: PumpState) {
    && (p.outstanding <==> p.inFlight != [])
    && |p.inFlight| <= BATCH_CAP
  }

  ghost predicate HandshakeInv(s: Session) {
    && OutstandingOk(s.w.pump)
    && NetworksOk(s) && PeersOk(s)
    && Gated(s.w.pump.pending, Known(s))
  }

  /** Queueing a change that the gate allows. */
  lemma QueueKeeps(s: Session, c: Change)
    requires HandshakeInv(s)
    requires c.Message? ==> (c.net, c.ent) in Known(s) + Announced(s.w.pump.pending)
    requires c.RemoteEndpoint? ==> c.net in s.back10
    ensures HandshakeInv(s.(w := s.w.(pump := QueueStep(s.w.pump, c))))
    ensures c.RemoteEndpoint? ==> (c.net, c.ent) in Announced(QueueStep(s.w.pump, c).pending)
    ensures Announced(s.w.pump.pending) <= Announced(QueueStep(s.w.pump, c).pending)
  {
    if !DroppedAtCap(s.w.pump, c) {
      GatedAppend(s.w.pump.pending, Known(s), c);
      AnnouncedConcat(s.w.pump.pending, [c]);
      assert [c][1..] == [];
      assert Announced([c]) == Announces(c);
    }
  }

  function WithPump(s: Session, p: PumpState): Session {
    s.(w := s.w.(pump := p))
  }

  function WithNet(s: Session, id: NetId, n: Network): Session {
    s.(w := s.w.(nets := s.w.nets[id := n]))
  }

  /** Changing one network: its flag and its remotes must already be accounted for. */
  lemma NetKeeps(s: Session, id: NetId, n: Network)
    requires HandshakeInv(s)
    requires n.type10 ==> id in s.back10
    requires forall ent :: ent in n.remotes ==> (id, ent) in Known(s) + Announced(s.w.pump.pending)
    ensures HandshakeInv(WithNet(s, id, n))
  {
  }

  lemma {:induction false} DeliverAllKeeps(s: Session, id: NetId, ent: Entity, msgs: seq<Msg>)
    requires HandshakeInv(s) && (id, ent) in Known(s) + Announced(s.w.pump.pending)
    ensures HandshakeInv(WithPump(s, DeliverAll(s.w.pump, id, ent, msgs)))
    ensures Announced(s.w.pump.pending) <= Announced(DeliverAll(s.w.pump, id, ent, msgs).pending)
    decreases |msgs|
  {
    if msgs != [] {
      var c := ToChange(id, ent, msgs[0]);
      QueueKeeps(s, c);
      DeliverAllKeeps(WithPump(s, QueueStep(s.w.pump, c)), id, ent, msgs[1..]);
    }
  }

  /** What delivering to known remotes keeps: the invariant and the network list. */
  ghost predicate DeliveryKept(s: Session, t: Session) {
    && HandshakeInv(t) && t.back10 == s.back10 && t.back12 == s.back12
    && t.w.nets.Keys == s.w.nets.Keys
  }

  lemma DeliverKeeps(s: Session, id: NetId, f: Frame, now: u64)
    requires HandshakeInv(s) && id in s.w.nets && f.ent in s.w.nets[id].remotes
    ensures DeliveryKept(s, s.(w := DeliverStep(s.w, id, f, now)))
  {
    var n := s.w.nets[id];
    var (r, o) := OnMessageStep(n.remotes[f.ent], f.seqNo, f.msg, now);
    DeliverAllKeeps(s, id, f.ent, Out(o));
    var s1 := WithPump(s, DeliverAll(s.w.pump, id, f.ent, Out(o)));
    forall ent | ent in SetRemote(n, f.ent, r).remotes
      ensures (id, ent) in Known(s1) + Announced(s1.w.pump.pending)
    {
      assert ent in n.remotes;
    }
    NetKeeps(s1, id, SetRemote(n, f.ent, r));
  }

  lemma PopKeeps(s: Session, id: NetId)
    requires HandshakeInv(s) && id in s.w.nets && s.w.nets[id].pendingRx != []
    ensures DeliveryKept(s, s.(w := PopFront(s.w, id)))
  {
    var n := s.w.nets[id];
    NetKeeps(s, id, n.(pendingRx := n.pendingRx[1..]));
  }

  lemma {:induction false} FlushKeeps(s: Session, id: NetId, now: u64)
    requires HandshakeInv(s) && id in s.w.nets
    ensures DeliveryKept(s, s.(w := FlushStep(s.w, id, now)))
    decreases |s.w.nets[id].pendingRx|
  {
    var n := s.w.nets[id];
    if CanFlush(n) {
      var f := n.pendingRx[0];
      PopKeeps(s, id);
      var s1 := s.(w := PopFront(s.w, id));
      DeliverKeeps(s1, id, f, now);
      FlushKeeps(s1.(w := DeliverStep(s1.w, id, f, now)), id, now);
    }
  }

  lemma ReceiveKeeps(s: Session, id: NetId, f: Frame, now: u64)
    requires HandshakeInv(s) && id in s.w.nets
    ensures HandshakeInv(s.(w := ReceiveStep(s.w, id, f, now)))
  {
    var n := s.w.nets[id];
    if !(f.ent in n.remotes && Ready(n)) {
      NetKeeps(s, id, Buffered(n, f));
    } else if n.pendingRx != [] {
      var n' := n.(pendingRx := n.pendingRx + [f]);
      NetKeeps(s, id, n');
      FlushKeeps(WithNet(s, id, n'), id, now);
    } else {
      DeliverKeeps(s, id, f, now);
    }
  }

  lemma AnnounceKeeps(s: Session, id: NetId, ent: Entity, addr: Addr, isLocal: bool, isMember: bool)
    requires HandshakeInv(s) && id in s.w.nets
    ensures HandshakeInv(s.(w := AnnounceStep(s.w, id, ent, addr, isLocal, isMember)))
  {
    var n := s.w.nets[id];
    if MayAnnounce(n, ent, isLocal, isMember) {
      QueueKeeps(s, RemoteEndpoint(id, ent));
      NetKeeps(WithPump(s, QueueStep(s.w.pump, RemoteEndpoint(id, ent))), id,
               SetAddr(SetRemote(n, ent, NEW_RECEIVER), ent, addr));
    } else if Moves(n, ent, addr, isLocal) {
      NetKeeps(s, id, SetAddr(n, ent, addr));
    }
  }

  lemma ControlKeeps(s: Session, id: NetId, c: Change, n: Network)
    requires HandshakeInv(s) && IsControl(c) && !c.RemoteEndpoint?
    requires (n.type10 ==> id in s.w.nets && s.w.nets[id].type10)
    requires forall ent :: ent in n.remotes ==> id in s.w.nets && ent in s.w.nets[id].remotes
    ensures HandshakeInv(WithNet(WithPump(s, QueueStep(s.w.pump, c)), id, n))
  {
    QueueKeeps(s, c);
    NetKeeps(WithPump(s, QueueStep(s.w.pump, c)), id, n);
  }

  lemma {:induction false} AnnouncedHas(cs: seq<Change>, c: Change)
    requires c in cs && c.RemoteEndpoint?
    ensures (c.net, c.ent) in Announced(cs)
  {
    if cs[0] != c {
      AnnouncedHas(cs[1..], c);
    }
  }

  /** What a Start hands out when nothing is outstanding. */
  ghost predicate HandedSafely(s: Session, batch: seq<Change>) {
    forall c :: c in batch ==>
      (c.RemoteEndpoint? ==> c.net in s.back10) && (c.Message? ==> (c.net, c.ent) in s.back12)
  }

  lemma StartSafe(s: Session, clock: nat)
    requires HandshakeInv(s) && !s.w.pump.outstanding
    ensures HandedSafely(s, StartWorld(s.w, clock).pump.inFlight)
  {
    var hold := Defers(s.w.nets, clock);
    DrainGated(s.w.pump.pending, BATCH_CAP, hold, Known(s));
    var d := DrainQueue(s.w.pump.pending, BATCH_CAP, hold);
    assert Known(s) == s.back12;
    forall c | c in d.batch && c.RemoteEndpoint? ensures c.net in s.back10 {
      AnnouncedHas(d.batch, c);
      assert (c.net, c.ent) in Known(s) + Announced(s.w.pump.pending);
    }
  }

  lemma StartKeeps(s: Session, clock: nat)
    requires HandshakeInv(s)
    ensures HandshakeInv(s.(w := StartWorld(s.w, clock)))
  {
    if !s.w.pump.outstanding {
      var hold := Defers(s.w.nets, clock);
      DrainGated(s.w.pump.pending, BATCH_CAP, hold, Known(s));
      BatchShape(s.w.pump.pending, BATCH_CAP, hold);
      var d, t := DrainQueue(s.w.pump.pending, BATCH_CAP, hold), s.(w := StartWorld(s.w, clock));
      assert Known(s) == s.back12 && Known(t) == Known(s) + Announced(d.batch);
      assert Known(t) + Announced(Left(d)) == Known(s) + Announced(s.w.pump.pending);
    }
  }

  lemma FinishKeeps(s: Session)
    requires HandshakeInv(s)
    ensures HandshakeInv(Step(s, Finish))
  {
    var t := Step(s, Finish);
    assert Known(t) == Known(s);
  }

  lemma StepKeeps(s: Session, e: Event)
    requires HandshakeInv(s)
    ensures HandshakeInv(Step(s, e))
  {
    match e
    case CreateNetwork(id) =>
      if id !in s.w.nets { ControlKeeps(s, id, Other(2), NEW_NETWORK); }
    case Connect(id) =>
      if id in s.w.nets { ControlKeeps(s, id, Other(3), s.w.nets[id].(connected := true)); }
    case Authenticate(id) =>
      if id in s.w.nets { ControlKeeps(s, id, Other(4), s.w.nets[id].(listed := true)); }
    case CreateEndpoint(id, now) =>
      if id in s.w.nets {
        var n := s.w.nets[id].(hasLocal := true);
        ControlKeeps(s, id, LocalEndpoint(id), n);
        FlushKeeps(WithNet(WithPump(s, QueueStep(s.w.pump, LocalEndpoint(id))), id, n), id, now);
      }
    case Announce(id, ent, addr, isLocal, isMember) =>
      if id in s.w.nets { AnnounceKeeps(s, id, ent, addr, isLocal, isMember); }
    case Receive(id, f, now) =>
      if id in s.w.nets { ReceiveKeeps(s, id, f, now); }
    case Flush(id, now) =>
      if id in s.w.nets { FlushKeeps(s, id, now); }
    case Leave(id) =>
      if id in s.w.nets {
        ControlKeeps(s, id, Other(19), LeaveStep(s.w, id).nets[id]);
      }
    case Start(clock) => StartKeeps(s, clock);
    case Finish => FinishKeeps(s);
  }

  lemma {:induction false} RunKeeps(events: seq<Event>)
    ensures HandshakeInv(Run(events))
    decreases |events|
  {
    if events != [] {
      RunKeeps(events[..|events| - 1]);
      StepKeeps(Run(events[..|events| - 1]), events[|events| - 1]);
    }
  }

  /** Handshake safety over every run, with any number of networks and remotes, any holds and any
      deferral: whenever a Start hands out a new batch, each type 12 in it is for a network whose
      type 10 was already returned through Finish, and each type 21 in it is from a remote whose
      type 12 was already returned through Finish. */
  lemma HandshakeSafety(events: seq<Event>, clock: nat)
    ensures !Run(events).w.pump.outstanding ==>
              HandedSafely(Run(events), Step(Run(events), Start(clock)).w.pump.inFlight)
  {
    RunKeeps(events);
    if !Run(events).w.pump.outstanding {
      StartSafe(Run(events), clock);
    }
  }
}
