/** Bookkeeping of the pump over whole runs: nothing is lost or reordered, and every released
    payload is queued or counted as dropped. */
module Conservation {
  import opened SerialNumbers
  import opened Reliable
  import opened Pump
  import opened Party
  import opened Handshake
  import opened Seqs

  /** A message that the receiver of a remote has handed out. */
  datatype Release = Release(net: NetId, ent: Entity, msg: Msg)

  /** A session with its books: everything queued and everything handed out, in order, and everything the
      receivers have released. */
  datatype Books = Books(s: Session, queuedLog: seq<Change>, handedLog: seq<Change>, released: seq<Release>)

  const NEW_BOOKS := Books(NEW_SESSION, [], [], [])

  // Messages released by the receivers during one operation.

  function Told(id: NetId, ent: Entity, msgs: seq<Msg>): seq<Release> {
    if msgs == [] then [] else [Release(id, ent, msgs[0])] + Told(id, ent, msgs[1..])
  }

  function DeliverReleases(w: World, id: NetId, f: Frame, now: u64): seq<Release>
    requires id in w.nets && f.ent in w.nets[id].remotes
  {
    Told(id, f.ent, Out(OnMessageStep(w.nets[id].remotes[f.ent], f.seqNo, f.msg, now).1))
  }

  function FlushReleases(w: World, id: NetId, now: u64): seq<Release>
    requires id in w.nets
    decreases |w.nets[id].pendingRx|
  {
    if CanFlush(w.nets[id]) then
      var w1, f := PopFront(w, id), w.nets[id].pendingRx[0];
      DeliverReleases(w1, id, f, now) + FlushReleases(DeliverStep(w1, id, f, now), id, now)
    else []
  }

  function ReceiveReleases(w: World, id: NetId, f: Frame, now: u64): seq<Release>
    requires id in w.nets
  {
    var n := w.nets[id];
    if !(f.ent in n.remotes && Ready(n)) then []
    else if n.pendingRx != [] then
      FlushReleases(w.(nets := w.nets[id := n.(pendingRx := n.pendingRx + [f])]), id, now)
    else DeliverReleases(w, id, f, now)
  }

  ghost function Releases(s: Session, e: Event): seq<Release> {
    match e
    case CreateEndpoint(id, now) =>
      if id in s.w.nets
      then FlushReleases(World(QueueStep(s.w.pump, LocalEndpoint(id)), s.w.nets[id := s.w.nets[id].(hasLocal := true)]), id, now)
      else []
    case Receive(id, f, now) => if id in s.w.nets then ReceiveReleases(s.w, id, f, now) else []
    case Flush(id, now) => if id in s.w.nets then FlushReleases(s.w, id, now) else []
    case _ => []
  }

  // ---------------------------------------------------------------------------
  // A release as the title is to see it
  // ---------------------------------------------------------------------------

  /** Same remote, same payload, and of the options the guaranteed and sequential bits. */
  predicate Carries(c: Change, r: Release) {
    && c.Message? && c.net == r.net && c.ent == r.ent && c.payload == r.msg.payload
    && c.recvOptions < 4
    && (Guaranteed(c.recvOptions) <==> Guaranteed(r.msg.options))
    && (Sequential(c.recvOptions) <==> Sequential(r.msg.options))
  }

  function Bit(b: bool, value: u32): u32 {
    if b then value else 0
  }

  function As21(r: Release): (c: Change)
    ensures Carries(c, r)
  {
    Message(r.net, r.ent, r.msg.payload, Bit(Guaranteed(r.msg.options), 1) + Bit(Sequential(r.msg.options), 2))
  }

  lemma TwoBits(options: u32)
    ensures options % 4 == Bit(Guaranteed(options), 1) + Bit(Sequential(options), 2)
  {
  }

  lemma ToChangeIs(id: NetId, ent: Entity, m: Msg)
    ensures ToChange(id, ent, m) == As21(Release(id, ent, m))
  {
    TwoBits(m.options);
  }

  function Rendered(rs: seq<Release>): seq<Change> {
    if rs == [] then [] else [As21(rs[0])] + Rendered(rs[1..])
  }

  lemma {:induction false} RenderedCarries(rs: seq<Release>)
    ensures |Rendered(rs)| == |rs| && forall i | 0 <= i < |rs| :: Carries(Rendered(rs)[i], rs[i])
  {
    if rs != [] {
      RenderedCarries(rs[1..]);
    }
  }

  lemma {:induction false} RenderedConcat(a: seq<Release>, b: seq<Release>)
    ensures Rendered(a + b) == Rendered(a) + Rendered(b)
  {
    if a == [] {
      assert a + b == b;
    } else {
      assert (a + b)[1..] == a[1..] + b;
      RenderedConcat(a[1..], b);
      Assoc([As21(a[0])], Rendered(a[1..]), Rendered(b));
    }
  }

  /** What an operation other than Start and Finish appended to the queue. */
  ghost function Appended(p: PumpState, q: PumpState): seq<Change> {
    if |p.pending| <= |q.pending| then q.pending[|p.pending|..] else []
  }

  ghost function BookStep(b: Books, e: Event): Books {
    var t := Step(b.s, e);
    var p, q := b.s.w.pump, t.w.pump;
    Books(t,
          if e.Start? || e.Finish? then b.queuedLog else b.queuedLog + Appended(p, q),
          if e.Start? && !p.outstanding then b.handedLog + q.inFlight else b.handedLog,
          b.released + Releases(b.s, e))
  }

  ghost function Audit(events: seq<Event>): Books {
    Fold(BookStep, NEW_BOOKS, events)
  }

  // ---------------------------------------------------------------------------
  // Operations that only append
  // ---------------------------------------------------------------------------

  function Count21(cs: seq<Change>): nat {
    |Filter(Is21, cs)|
  }

  /** `q` is `p` with `added` queued; its type-21s are the `released` payloads, those dropped left out. */
  ghost predicate Grows(p: PumpState, q: PumpState, added: seq<Change>, released: seq<Release>) {
    && q.pending == p.pending + added
    && q.inFlight == p.inFlight && q.outstanding == p.outstanding
    && q.ledger.handed == p.ledger.handed && q.ledger.reclaimed == p.ledger.reclaimed
    && q.ledger.queued == p.ledger.queued + Types(added)
    && q.ledger.dropped + Count21(added) == p.ledger.dropped + |released|
    && Within(Filter(Is21, added), Rendered(released))
    && (Count21(p.pending) <= Pump.PENDING_CAP ==> Count21(q.pending) <= Pump.PENDING_CAP)
  }

  lemma {:induction false} FilterShorter(cs: seq<Change>)
    ensures Count21(cs) <= |cs|
  {
    if cs != [] {
      FilterShorter(cs[1..]);
    }
  }

  lemma GrowsNone(p: PumpState)
    ensures Grows(p, p, [], [])
  {
    assert p.pending + [] == p.pending;
    assert p.ledger.queued + Types([]) == p.ledger.queued;
  }

  lemma QueueGrows(p: PumpState, c: Change, released: seq<Release>)
    requires if c.Message? then |released| == 1 && c == As21(released[0]) else released == []
    ensures Grows(p, QueueStep(p, c), if DroppedAtCap(p, c) then [] else [c], released)
  {
    assert Rendered(released) == if c.Message? then [c] else [];
    NoneWithin([c]);
    AllWithin([c]);
    if DroppedAtCap(p, c) {
      GrowsNone(p);
    } else {
      TypesOne(c);
      FilterOne(Is21, c);
      FilterConcat(Is21, p.pending, [c]);
      FilterShorter(p.pending);
    }
  }

  lemma GrowsTrans(p: PumpState, q: PumpState, r: PumpState, a: seq<Change>, b: seq<Change>, m: seq<Release>, n: seq<Release>)
    requires Grows(p, q, a, m) && Grows(q, r, b, n)
    ensures Grows(p, r, a + b, m + n)
  {
    Assoc(p.pending, a, b);
    TypesConcat(a, b);
    SumAssoc(p.ledger.queued, Types(a), Types(b));
    FilterConcat(Is21, a, b);
    RenderedConcat(m, n);
    WithinConcat(Filter(Is21, a), Rendered(m), Filter(Is21, b), Rendered(n));
  }

  lemma {:induction false} DeliverAllGrows(p: PumpState, id: NetId, ent: Entity, msgs: seq<Msg>) returns (added: seq<Change>)
    ensures Grows(p, DeliverAll(p, id, ent, msgs), added, Told(id, ent, msgs))
    decreases |msgs|
  {
    if msgs == [] {
      added := [];
      GrowsNone(p);
    } else {
      var c := ToChange(id, ent, msgs[0]);
      var r := [Release(id, ent, msgs[0])];
      ToChangeIs(id, ent, msgs[0]);
      QueueGrows(p, c, r);
      var q := QueueStep(p, c);
      var rest := DeliverAllGrows(q, id, ent, msgs[1..]);
      var first := if DroppedAtCap(p, c) then [] else [c];
      added := first + rest;
      GrowsTrans(p, q, DeliverAll(p, id, ent, msgs), first, rest, r, Told(id, ent, msgs[1..]));
    }
  }

  lemma {:induction false} FlushGrows(w: World, id: NetId, now: u64) returns (added: seq<Change>)
    requires id in w.nets
    ensures Grows(w.pump, FlushStep(w, id, now).pump, added, FlushReleases(w, id, now))
    decreases |w.nets[id].pendingRx|
  {
    if CanFlush(w.nets[id]) {
      var f, w1 := w.nets[id].pendingRx[0], PopFront(w, id);
      var w2 := DeliverStep(w1, id, f, now);
      var o := OnMessageStep(w1.nets[id].remotes[f.ent], f.seqNo, f.msg, now).1;
      var first := DeliverAllGrows(w.pump, id, f.ent, Out(o));
      var rest := FlushGrows(w2, id, now);
      added := first + rest;
      GrowsTrans(w.pump, w2.pump, FlushStep(w, id, now).pump, first, rest, Told(id, f.ent, Out(o)), FlushReleases(w2, id, now));
    } else {
      added := [];
      GrowsNone(w.pump);
    }
  }

  lemma ReceiveGrows(w: World, id: NetId, f: Frame, now: u64) returns (added: seq<Change>)
    requires id in w.nets
    ensures Grows(w.pump, ReceiveStep(w, id, f, now).pump, added, ReceiveReleases(w, id, f, now))
  {
    var n := w.nets[id];
    if !(f.ent in n.remotes && Ready(n)) {
      added := [];
      GrowsNone(w.pump);
    } else if n.pendingRx != [] {
      added := FlushGrows(w.(nets := w.nets[id := n.(pendingRx := n.pendingRx + [f])]), id, now);
    } else {
      added := DeliverAllGrows(w.pump, id, f.ent, Out(OnMessageStep(n.remotes[f.ent], f.seqNo, f.msg, now).1));
    }
  }

  lemma ControlGrows(p: PumpState, c: Change) returns (added: seq<Change>)
    requires IsControl(c)
    ensures Grows(p, QueueStep(p, c), added, [])
  {
    QueueGrows(p, c, []);
    added := [c];
  }

  lemma StepGrows(s: Session, e: Event) returns (added: seq<Change>)
    requires !e.Start? && !e.Finish?
    ensures Grows(s.w.pump, Step(s, e).w.pump, added, Releases(s, e))
  {
    var p := s.w.pump;
    added := [];
    GrowsNone(p);
    match e {
      case CreateNetwork(id) => if id !in s.w.nets { added := ControlGrows(p, Other(2)); }
      case Connect(id) => if id in s.w.nets && !s.w.nets[id].connected { added := ControlGrows(p, Other(3)); }
      case Authenticate(id) => if id in s.w.nets { added := ControlGrows(p, Other(4)); }
      case CreateEndpoint(id, now) =>
        if id in s.w.nets {
          var first := ControlGrows(p, LocalEndpoint(id));
          var w1 := World(QueueStep(p, LocalEndpoint(id)), s.w.nets[id := s.w.nets[id].(hasLocal := true)]);
          var rest := FlushGrows(w1, id, now);
          added := first + rest;
          GrowsTrans(p, w1.pump, FlushStep(w1, id, now).pump, first, rest, [], FlushReleases(w1, id, now));
          assert [] + FlushReleases(w1, id, now) == FlushReleases(w1, id, now);
        }
      case Announce(id, ent, addr, isLocal, isMember) =>
        if id in s.w.nets && MayAnnounce(s.w.nets[id], ent, isLocal, isMember) {
          added := ControlGrows(p, RemoteEndpoint(id, ent));
        }
      case Receive(id, f, now) => if id in s.w.nets { added := ReceiveGrows(s.w, id, f, now); }
      case Flush(id, now) => if id in s.w.nets { added := FlushGrows(s.w, id, now); }
      case Leave(id) => if id in s.w.nets { added := ControlGrows(p, Other(19)); }
    }
  }

  // ---------------------------------------------------------------------------
  // The books balance
  // ---------------------------------------------------------------------------

  ghost predicate InQueueOrder(p: Change -> bool, handed: seq<Change>, pending: seq<Change>, queued: seq<Change>) {
    Filter(p, handed) + Filter(p, pending) == Filter(p, queued)
  }

  ghost predicate Balanced(b: Books) {
    var p := b.s.w.pump;
    && InQueueOrder(Is21, b.handedLog, p.pending, b.queuedLog)
    && InQueueOrder(IsControl, b.handedLog, p.pending, b.queuedLog)
    && p.ledger.queued == Types(b.queuedLog)
    && p.ledger.handed == Types(b.handedLog)
    && p.ledger.queued == p.ledger.handed + Types(p.pending)
    && Count21(p.pending) <= Pump.PENDING_CAP
    && |b.released| == p.ledger.dropped + Count21(b.queuedLog)
    && Within(Filter(Is21, b.queuedLog), Rendered(b.released))
  }

  lemma AppendInOrder(p: Change -> bool, handed: seq<Change>, pending: seq<Change>, queued: seq<Change>, added: seq<Change>)
    requires InQueueOrder(p, handed, pending, queued)
    ensures InQueueOrder(p, handed, pending + added, queued + added)
  {
    FilterConcat(p, pending, added);
    FilterConcat(p, queued, added);
    Assoc(Filter(p, handed), Filter(p, pending), Filter(p, added));
  }

  lemma HandInOrder(p: Change -> bool, handed: seq<Change>, pending: seq<Change>, queued: seq<Change>, d: Batched)
    requires InQueueOrder(p, handed, pending, queued) && KeepsOrder(p, pending, d)
    ensures InQueueOrder(p, handed + d.batch, Left(d), queued)
  {
    FilterConcat(p, handed, d.batch);
    Assoc(Filter(p, handed), Filter(p, d.batch), Filter(p, Left(d)));
  }

  lemma GrowBalanced(b: Books, c: Books, added: seq<Change>, n: seq<Release>)
    requires Balanced(b) && Grows(b.s.w.pump, c.s.w.pump, added, n)
    requires c.queuedLog == b.queuedLog + added && c.handedLog == b.handedLog && c.released == b.released + n
    ensures Balanced(c)
  {
    var p := b.s.w.pump;
    AppendInOrder(Is21, b.handedLog, p.pending, b.queuedLog, added);
    AppendInOrder(IsControl, b.handedLog, p.pending, b.queuedLog, added);
    TypesConcat(b.queuedLog, added);
    TypesConcat(p.pending, added);
    SumAssoc(p.ledger.handed, Types(p.pending), Types(added));
    FilterConcat(Is21, b.queuedLog, added);
    RenderedConcat(b.released, n);
    WithinConcat(Filter(Is21, b.queuedLog), Rendered(b.released), Filter(Is21, added), Rendered(n));
  }

  lemma StartBalanced(b: Books, clock: nat)
    requires Balanced(b) && OutstandingOk(b.s.w.pump)
    ensures Balanced(BookStep(b, Start(clock)))
  {
    var p := b.s.w.pump;
    assert b.released + [] == b.released;
    if !p.outstanding {
      var hold := Defers(b.s.w.nets, clock);
      var d := DrainQueue(p.pending, BATCH_CAP, hold);
      DrainKeepsOrder(p.pending, BATCH_CAP, hold);
      HandInOrder(Is21, b.handedLog, p.pending, b.queuedLog, d);
      HandInOrder(IsControl, b.handedLog, p.pending, b.queuedLog, d);
      DrainKeepsTypes(p.pending, BATCH_CAP, hold);
      TypesConcat(b.handedLog, d.batch);
      SumAssoc(p.ledger.handed, Types(d.batch), Types(Left(d)));
      assert |Filter(Is21, Left(d))| <= |Filter(Is21, p.pending)|;
    }
  }

  lemma StepBalanced(b: Books, e: Event)
    requires Balanced(b) && OutstandingOk(b.s.w.pump)
    ensures Balanced(BookStep(b, e))
  {
    assert b.released + [] == b.released;
    if e.Start? {
      StartBalanced(b, e.clock);
    } else if !e.Finish? {
      var added := StepGrows(b.s, e);
      var p, q := b.s.w.pump, Step(b.s, e).w.pump;
      assert Appended(p, q) == added;
      GrowBalanced(b, BookStep(b, e), added, Releases(b.s, e));
    }
  }

  lemma {:induction false} BooksBalance(events: seq<Event>)
    ensures Audit(events).s == Run(events) && Balanced(Audit(events))
    decreases |events|
  {
    if events != [] {
      BooksBalance(events[..|events| - 1]);
      RunKeeps(events[..|events| - 1]);
      StepBalanced(Audit(events[..|events| - 1]), events[|events| - 1]);
    }
  }

  ghost predicate GivenBack(p: PumpState) {
    p.ledger.handed == p.ledger.reclaimed + Types(p.inFlight)
  }

  lemma StartGivenBack(p: PumpState, hold: bool)
    requires GivenBack(p) && (!p.outstanding ==> p.inFlight == [])
    ensures GivenBack(StartStep(p, hold))
  {
    if !p.outstanding { assert p.ledger.handed == p.ledger.reclaimed; }
  }

  lemma FinishGivenBack(p: PumpState)
    requires GivenBack(p) && |p.inFlight| <= BATCH_CAP
    ensures GivenBack(FinishStep(p, p.inFlight))
  {
    assert Seen(p.inFlight) == p.inFlight && Types([]) == multiset{};
  }

  lemma StepGivenBack(s: Session, e: Event)
    requires GivenBack(s.w.pump) && OutstandingOk(s.w.pump)
    ensures GivenBack(Step(s, e).w.pump)
  {
    if e.Start? {
      StartGivenBack(s.w.pump, Defers(s.w.nets, e.clock));
    } else if e.Finish? {
      FinishGivenBack(s.w.pump);
    } else {
      var added := StepGrows(s, e);
    }
  }

  /** Over every run, the title gives back what it was handed, except for the batch it still has. */
  lemma {:induction false} ReclaimedExact(events: seq<Event>)
    ensures GivenBack(Run(events).w.pump)
  {
    if events != [] {
      ReclaimedExact(events[..|events| - 1]);
      RunKeeps(events[..|events| - 1]);
      StepGivenBack(Run(events[..|events| - 1]), events[|events| - 1]);
    }
  }

  predicate FromRemote(c: Change, id: NetId, ent: Entity) {
    c.Message? && c.net == id && c.ent == ent
  }

  lemma {:induction false} FilterTwice(p: Change -> bool, q: Change -> bool, cs: seq<Change>)
    requires forall c :: q(c) ==> p(c)
    ensures Filter(q, Filter(p, cs)) == Filter(q, cs)
  {
    if cs != [] {
      FilterConcat(q, Keep(p, cs[0]), Filter(p, cs[1..]));
      FilterOne(q, cs[0]);
      FilterTwice(p, q, cs[1..]);
    }
  }

  predicate OfRemote(r: Release, id: NetId, ent: Entity) {
    r.net == id && r.ent == ent
  }

  lemma {:induction false} RenderedFilter(id: NetId, ent: Entity, rs: seq<Release>)
    ensures Filter((c: Change) => FromRemote(c, id, ent), Rendered(rs))
         == Rendered(Filter((r: Release) => OfRemote(r, id, ent), rs))
  {
    var p, q := (c: Change) => FromRemote(c, id, ent), (r: Release) => OfRemote(r, id, ent);
    if rs != [] {
      RenderedFilter(id, ent, rs[1..]);
      assert Rendered(rs)[1..] == Rendered(rs[1..]);
      assert Rendered(Keep(q, rs[0])) == Keep(p, As21(rs[0]));
      RenderedConcat(Keep(q, rs[0]), Filter(q, rs[1..]));
    }
  }

  /** `q` carries the messages `r` in order, one change each, with some left out. */
  ghost predicate CarriesSome(q: seq<Change>, r: seq<Release>, all: bool) {
    && (forall i | 0 <= i < |r| :: |Rendered(r)| == |r| && Carries(Rendered(r)[i], r[i]))
    && Within(q, Rendered(r)) && (all ==> q == Rendered(r))
  }

  /** Per remote, over every run: the type-21s queued carry the messages its receiver released, in order,
      with those dropped at the cap left out; all of them while nothing was dropped. */
  lemma QueuedAsReleased(events: seq<Event>, id: NetId, ent: Entity)
    ensures var b := Audit(events);
            CarriesSome(Filter((c: Change) => FromRemote(c, id, ent), b.queuedLog),
                        Filter((r: Release) => OfRemote(r, id, ent), b.released), b.s.w.pump.ledger.dropped == 0)
  {
    var b, p := Audit(events), (c: Change) => FromRemote(c, id, ent);
    BooksBalance(events);
    FilterTwice(Is21, p, b.queuedLog);
    WithinFilter(p, Filter(Is21, b.queuedLog), Rendered(b.released));
    RenderedFilter(id, ent, b.released);
    RenderedCarries(Filter((r: Release) => OfRemote(r, id, ent), b.released));
    RenderedCarries(b.released);
    if b.s.w.pump.ledger.dropped == 0 {
      WithinShorter(Filter(Is21, b.queuedLog), Rendered(b.released));
    }
  }

  /** Shape of every batch ever handed out: at most 32 changes, at most one type 12 and that one
      last; a batch is outstanding exactly when there is one. */
  lemma BatchesWellFormed(events: seq<Event>, clock: nat)
    ensures OutstandingOk(Run(events).w.pump)
    ensures var p, q := Run(events).w.pump, Step(Run(events), Start(clock)).w.pump;
            if p.outstanding then q == p
            else forall i :: 0 <= i < |q.inFlight| - 1 ==> !q.inFlight[i].RemoteEndpoint?
  {
    RunKeeps(events);
    var w := Run(events).w;
    BatchShape(w.pump.pending, BATCH_CAP, Defers(w.nets, clock));
  }
}
