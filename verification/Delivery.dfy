/** One sender and one receiver joined by a network that may drop, duplicate and reorder data
    packets and acks at will.

    The network is the set of everything ever put on the wire: an arrival takes nothing out of the
    set, so loss is an arrival that never happens, duplication one that happens twice, and any
    order of arrivals is a run. A run is an arbitrary event list; an arrival of something never
    sent is a no-op. The history fields (`gsent` and below) only record what happened. */
module Delivery {
  import opened Common
  import opened SerialNumbers
  import opened Reliable
  import opened Seqs

  datatype Packet = Packet(seqNo: u32, msg: Msg)

  datatype Event =
    | Send(msg: Msg, now: u64)
    | Service(now: u64)
    | Arrive(packet: Packet, now: u64)
    | Piggyback
    | ForceAck(now: u64)
    | AckArrives(ack: u32)

  datatype System = System(
    tx: SenderState, rx: ReceiverState,
    data: set<Packet>, acks: set<u32>,
    gsent: seq<Msg>,       // guaranteed messages in send order; number k is gsent[k - 1]
    bsent: seq<Msg>,       // best-effort sequential messages in send order
    released: seq<Msg>,    // everything handed out as Delivered, in order
    evicted: set<u32>,     // numbers `send` reported as evicted
    taken: set<u32>,       // guaranteed numbers the receiver did not drop as duplicates
    beTags: seq<u32>,      // numbers of the best-effort sequential messages released
    markerLost: bool)      // a nonsequential duplicate marker was evicted

  const INIT := System(NEW_SENDER, NEW_RECEIVER, {}, {}, [], [], [], {}, {}, [], false)

  function OnWire(k: u32, p: Pending): Packet {
    Packet(k, Msg(p.payload, p.options))
  }

  /** What `due` puts on the wire: give-up reports are not sent. */
  function Retransmitted(pending: map<u32, Pending>, now: u64): set<Packet> {
    set k | k in pending && IsDue(pending[k], now) && pending[k].retries < MAX_RETRIES :: OnWire(k, pending[k])
  }

  predicate MarkerEvicted(buf: Buffer, ev: Option<u32>) {
    ev.Some? && ev.value in buf && !Sequential(buf[ev.value].options)
  }

  function SendEvent(s: System, m: Msg, now: u64): System {
    var (tx', o) := SendStep(s.tx, m.payload, m.options, now);
    s.(tx := tx',
       data := s.data + {Packet(o.seqNo, Msg(o.payload, o.options))},
       gsent := if Guaranteed(m.options) then s.gsent + [m] else s.gsent,
       bsent := if !Guaranteed(m.options) && Sequential(m.options) then s.bsent + [m] else s.bsent,
       evicted := if o.evicted.Some? then s.evicted + {o.evicted.value.0} else s.evicted)
  }

  function Receive(s: System, p: Packet, now: u64): System {
    var (rx', o) := OnMessageStep(s.rx, p.seqNo, p.msg, now);
    s.(rx := rx',
       released := s.released + Out(o),
       taken := if Guaranteed(p.msg.options) && !o.DroppedDuplicate? then s.taken + {p.seqNo} else s.taken,
       beTags := if !Guaranteed(p.msg.options) && Sequential(p.msg.options) && o.Delivered?
                 then s.beTags + [p.seqNo] else s.beTags,
       markerLost := s.markerLost || MarkerEvicted(s.rx.gBuf, rx'.lastEvicted))
  }

  ghost function Apply(s: System, e: Event): System {
    match e
    case Send(m, now) => SendEvent(s, m, now)
    case Service(now) => s.(tx := DueStep(s.tx, now), data := s.data + Retransmitted(s.tx.pending, now))
    case Arrive(p, now) => if p in s.data then Receive(s, p, now) else s
    case Piggyback => s.(rx := s.rx.(ackDueAt := None), acks := s.acks + {AckValue(s.rx)})
    case ForceAck(now) =>
      var (rx', a) := ForcedAckStep(s.rx, now);
      s.(rx := rx', acks := if a.Some? then s.acks + {a.value} else s.acks)
    case AckArrives(a) => if a in s.acks && a != 0 then s.(tx := AckStep(s.tx, a)) else s
  }

  ghost function RunFrom(s: System, events: seq<Event>): System {
    Fold(Apply, s, events)
  }

  ghost function Run(events: seq<Event>): System {
    RunFrom(INIT, events)
  }

  // ---------------------------------------------------------------------------
  // The guaranteed and sequential messages of a list
  // ---------------------------------------------------------------------------

  /** Guaranteed, sequential, and not empty: the receiver swallows empty sequential payloads. */
  predicate InOrder(m: Msg) {
    Guaranteed(m.options) && Sequential(m.options) && m.payload != []
  }

  function Ordered(ms: seq<Msg>): seq<Msg> {
    Filter(InOrder, ms)
  }

  // ---------------------------------------------------------------------------
  // What every run keeps while guaranteed numbers neither repeat nor reach 0
  // ---------------------------------------------------------------------------

  ghost predicate CopyOf(k: u32, m: Msg, gsent: seq<Msg>) {
    1 <= k <= |gsent| && m == gsent[k - 1]
  }

  /** Every guaranteed copy, wherever it is, is a copy of the message its number names. */
  ghost predicate Genuine(s: System) {
    && AllGuaranteed(s.gsent)
    && |s.gsent| < 0x1_0000_0000 && s.tx.nextG == WrapInc(|s.gsent|)
    && (forall k :: k in s.tx.pending ==> CopyOf(k, OnWire(k, s.tx.pending[k]).msg, s.gsent))
    && (forall p :: p in s.data && Guaranteed(p.msg.options) ==> CopyOf(p.seqNo, p.msg, s.gsent))
  }

  ghost predicate AllGuaranteed(gsent: seq<Msg>) {
    forall m :: m in gsent ==> Guaranteed(m.options)
  }

  /** The buffered form of a message: nonsequential messages leave an empty marker. */
  function Stored(m: Msg): Msg {
    if Sequential(m.options) then m else Msg([], m.options)
  }

  ghost predicate BufferOf(buf: Buffer, gsent: seq<Msg>) {
    forall k :: k in buf ==> 1 <= k <= |gsent| && buf[k] == Stored(gsent[k - 1])
  }

  /** The released guaranteed and sequential payloads are those of the acked prefix, each once and
      in send order. */
  ghost predicate DeliveredInOrder(s: System) {
    && AckValue(s.rx) <= |s.gsent|
    && Ordered(s.released) == Ordered(s.gsent[..AckValue(s.rx)])
  }

  ghost predicate OrderInv(s: System) {
    && Genuine(s)
    && CoreFor(CoreOf(s.rx), s.gsent)
    && DeliveredInOrder(s)
  }

  /** Where the run of buffered numbers after `a` ends. */
  function RunEnd(buf: Buffer, a: nat): (b: nat)
    ensures a <= b
    ensures b + 1 !in buf
    ensures forall k :: a < k <= b ==> k in buf
    decreases |buf|
  {
    if a + 1 in buf then
      var rest := buf - {a + 1};
      var b := RunEnd(rest, a + 1);
      assert b + 1 !in rest;
      assert forall k {:trigger k in buf} :: a < k <= b && k != a + 1 ==> k in rest;
      b
    else a
  }

  ghost predicate Without(d: Buffer, buf: Buffer, a: nat, b: nat) {
    && (forall k :: k in d <==> k in buf && !(a < k <= b))
    && (forall k :: k in d ==> d[k] == buf[k])
  }

  /** Draining removes exactly the run it advances over. */
  lemma {:induction false} DrainTakes(buf: Buffer, a: nat, n: nat)
    requires a <= n < 0x1_0000_0000
    requires forall k :: k in buf ==> 1 <= k <= n
    ensures RunEnd(buf, a) <= n
    ensures Drain(buf, WrapInc(a)).next == WrapInc(RunEnd(buf, a))
    ensures Without(Drain(buf, WrapInc(a)).buf, buf, a, RunEnd(buf, a))
    ensures |Drain(buf, WrapInc(a)).buf| <= |buf|
    decreases |buf|
  {
    if WrapInc(a) in buf {
      DrainTakes(buf - {a + 1}, a + 1, n);
    } else {
      assert a + 1 !in buf;
    }
  }

  lemma StoredPayload(m: Msg)
    requires Guaranteed(m.options)
    ensures Ordered(Payloads(Stored(m))) == Keep(InOrder, m)
  {
    FilterOne(InOrder, m);
  }

  lemma OrderedCons(gsent: seq<Msg>, a: nat, b: nat, x: seq<Msg>, y: seq<Msg>)
    requires a < b <= |gsent|
    requires Ordered(x) == Keep(InOrder, gsent[a])
    requires Ordered(y) == Ordered(gsent[a + 1..b])
    ensures Ordered(x + y) == Ordered(gsent[a..b])
  {
    FilterConcat(InOrder, x, y);
    assert gsent[a..b][1..] == gsent[a + 1..b];
  }

  lemma DrainUnfolds(buf: Buffer, a: u32)
    requires a + 1 in buf
    ensures Drain(buf, WrapInc(a)).out == Payloads(buf[a + 1]) + Drain(buf - {a + 1}, WrapInc(a + 1)).out
    ensures RunEnd(buf, a) == RunEnd(buf - {a + 1}, a + 1)
  {
  }

  /** Draining releases exactly the ordered messages it advances over. */
  lemma {:induction false} DrainReleases(buf: Buffer, a: nat, gsent: seq<Msg>)
    requires a <= |gsent| < 0x1_0000_0000
    requires BufferOf(buf, gsent) && AllGuaranteed(gsent)
    ensures RunEnd(buf, a) <= |gsent|
    ensures Ordered(Drain(buf, WrapInc(a)).out) == Ordered(gsent[a..RunEnd(buf, a)])
    decreases |buf|
  {
    if a + 1 in buf {
      var rest := buf - {a + 1};
      DrainReleases(rest, a + 1, gsent);
      DrainUnfolds(buf, a);
      StoredPayload(gsent[a]);
      OrderedCons(gsent, a, RunEnd(rest, a + 1), Payloads(buf[a + 1]), Drain(rest, WrapInc(a + 1)).out);
    } else {
      assert gsent[a..a] == [];
    }
  }

  // Sender side of the invariant, event by event.

  lemma CopyStays(k: u32, m: Msg, gsent: seq<Msg>, more: seq<Msg>)
    requires CopyOf(k, m, gsent)
    ensures CopyOf(k, m, gsent + more)
  {
  }

  lemma SendKeepsGenuine(s: System, m: Msg, now: u64)
    requires Genuine(s) && |SendEvent(s, m, now).gsent| < 0x1_0000_0000
    ensures Genuine(SendEvent(s, m, now))
  {
    var t := SendEvent(s, m, now);
    if Guaranteed(m.options) {
      var newest := Packet(s.tx.nextG, m);
      assert CopyOf(newest.seqNo, m, t.gsent);
      forall k | k in t.tx.pending ensures CopyOf(k, OnWire(k, t.tx.pending[k]).msg, t.gsent) {
        if k != newest.seqNo {
          CopyStays(k, OnWire(k, s.tx.pending[k]).msg, s.gsent, [m]);
        }
      }
      forall p | p in t.data && Guaranteed(p.msg.options) ensures CopyOf(p.seqNo, p.msg, t.gsent) {
        if p != newest {
          CopyStays(p.seqNo, p.msg, s.gsent, [m]);
        }
      }
    }
  }

  lemma ServiceKeepsGenuine(s: System, now: u64)
    requires Genuine(s)
    ensures Genuine(Apply(s, Service(now)))
  {
    var t := Apply(s, Service(now));
    forall p | p in t.data && Guaranteed(p.msg.options) ensures CopyOf(p.seqNo, p.msg, t.gsent) {
      if p !in s.data {
        var k :| k in s.tx.pending && p == OnWire(k, s.tx.pending[k]);
      }
    }
    forall k | k in t.tx.pending ensures CopyOf(k, OnWire(k, t.tx.pending[k]).msg, t.gsent) {
      assert OnWire(k, t.tx.pending[k]) == OnWire(k, s.tx.pending[k]);
    }
  }

  // Receiver side, without the rest of the system.

  function AckOf(c: Core): u32 {
    WrapSub(c.next, 1)
  }

  /** The receiver's guaranteed space for a given send history. */
  ghost predicate CoreFor(c: Core, gsent: seq<Msg>) {
    && AllGuaranteed(gsent) && |gsent| < 0x1_0000_0000
    && AckOf(c) <= |gsent|
    && BufferOf(c.buf, gsent)
    && |c.buf| <= OOO_CAP
  }

  lemma BufferSubset(small: Buffer, buf: Buffer, gsent: seq<Msg>)
    requires BufferOf(buf, gsent)
    requires forall k :: k in small ==> k in buf && small[k] == buf[k]
    ensures BufferOf(small, gsent)
  {
  }

  lemma RoomShrinks(buf: Buffer)
    requires |buf| <= OOO_CAP
    ensures |OooRoom(buf)| < OOO_CAP
    ensures forall k :: k in OooRoom(buf) ==> k in buf && OooRoom(buf)[k] == buf[k]
  {
    if |buf| >= OOO_CAP {
      assert buf.Keys == OooRoom(buf).Keys + {Max(buf.Keys)};
    }
  }

  lemma InsertGrows(buf: Buffer, k: u32, m: Msg)
    ensures |buf[k := m]| <= |buf| + 1
  {
    assert buf[k := m].Keys == buf.Keys + {k};
  }

  /** What the buffer holds after making room and inserting an accepted arrival. */
  lemma RoomKeeps(buf: Buffer, gsent: seq<Msg>, k: u32, m: Msg)
    requires BufferOf(buf, gsent) && |buf| <= OOO_CAP
    requires 1 <= k <= |gsent| && m == Stored(gsent[k - 1])
    ensures BufferOf(OooRoom(buf)[k := m], gsent)
    ensures |OooRoom(buf)[k := m]| <= OOO_CAP
  {
    RoomShrinks(buf);
    BufferSubset(OooRoom(buf), buf, gsent);
    InsertGrows(OooRoom(buf), k, m);
  }

  lemma DrainKeeps(buf: Buffer, a: nat, gsent: seq<Msg>)
    requires a <= |gsent| < 0x1_0000_0000 && BufferOf(buf, gsent) && |buf| <= OOO_CAP && AllGuaranteed(gsent)
    ensures var d := Drain(buf, WrapInc(a));
            CoreFor(Core(d.next, d.buf), gsent) && a <= AckOf(Core(d.next, d.buf)) == RunEnd(buf, a)
  {
    DrainTakes(buf, a, |gsent|);
    BufferSubset(Drain(buf, WrapInc(a)).buf, buf, gsent);
  }

  /** `out` is exactly the ordered part of what the cumulative ack advances over. */
  ghost predicate Advances(c: Core, x: Accepted, gsent: seq<Msg>) {
    && CoreFor(c, gsent) && CoreFor(x.core, gsent)
    && AckOf(c) <= AckOf(x.core)
    && Ordered(Out(x.outcome)) == Ordered(gsent[AckOf(c)..AckOf(x.core)])
  }

  lemma NextAdvances(c: Core, gsent: seq<Msg>)
    requires CoreFor(c, gsent) && AckOf(c) < |gsent|
    requires Sequential(gsent[AckOf(c)].options)
    ensures Advances(c, AcceptNext(c, gsent[AckOf(c)]), gsent)
  {
    var a := AckOf(c);
    DrainKeeps(c.buf, a + 1, gsent);
    DrainReleases(c.buf, a + 1, gsent);
    StoredPayload(gsent[a]);
    OrderedCons(gsent, a, RunEnd(c.buf, a + 1), Payloads(gsent[a]), Drain(c.buf, WrapInc(a + 1)).out);
  }

  lemma OrderedSkips(m: Msg, out: seq<Msg>)
    requires !InOrder(m)
    ensures Ordered([m] + out) == Ordered(out)
  {
    FilterConcat(InOrder, [m], out);
    FilterOne(InOrder, m);
    assert [] + Ordered(out) == Ordered(out);
  }

  lemma DrainAdvances(buf: Buffer, a: nat, gsent: seq<Msg>)
    requires a <= |gsent| < 0x1_0000_0000 && BufferOf(buf, gsent) && |buf| <= OOO_CAP && AllGuaranteed(gsent)
    ensures var d := Drain(buf, WrapInc(a));
            && CoreFor(Core(d.next, d.buf), gsent) && a <= AckOf(Core(d.next, d.buf))
            && Ordered(d.out) == Ordered(gsent[a..AckOf(Core(d.next, d.buf))])
  {
    DrainKeeps(buf, a, gsent);
    DrainReleases(buf, a, gsent);
  }

  lemma UnorderedAdvances(c: Core, k: u32, gsent: seq<Msg>)
    requires CoreFor(c, gsent) && 1 <= k <= |gsent|
    requires !Sequential(gsent[k - 1].options)
    ensures Advances(c, AcceptUnordered(c, k, gsent[k - 1]), gsent)
  {
    var m, a := gsent[k - 1], AckOf(c);
    var marker := Msg([], m.options);
    var buf := OooRoom(c.buf)[k := marker];
    RoomKeeps(c.buf, gsent, k, marker);
    assert c.next == WrapInc(a);
    DrainAdvances(buf, a, gsent);
    var x := AcceptUnordered(c, k, m);
    assert x.core == Core(Drain(buf, WrapInc(a)).next, Drain(buf, WrapInc(a)).buf);
    OrderedSkips(m, Drain(buf, WrapInc(a)).out);
    assert Out(x.outcome) == [m] + Drain(buf, WrapInc(a)).out;
  }

  /** A genuine guaranteed arrival releases exactly the ordered messages the ack advances over. */
  lemma AcceptAdvances(c: Core, k: u32, gsent: seq<Msg>)
    requires CoreFor(c, gsent) && 1 <= k <= |gsent|
    ensures Advances(c, Accept(c, k, gsent[k - 1]), gsent)
  {
    var m := gsent[k - 1];
    assert gsent[AckOf(c)..AckOf(c)] == [];
    if IsDuplicate(c, k) {
    } else if !Sequential(m.options) {
      UnorderedAdvances(c, k, gsent);
    } else if k == c.next {
      NextAdvances(c, gsent);
    } else {
      RoomKeeps(c.buf, gsent, k, m);
    }
  }

  lemma AppendKeepsOrder(s: System, t: System, out: seq<Msg>)
    requires DeliveredInOrder(s)
    requires t.gsent == s.gsent && t.released == s.released + out
    requires AckValue(s.rx) <= AckValue(t.rx) <= |s.gsent|
    requires Ordered(out) == Ordered(s.gsent[AckValue(s.rx)..AckValue(t.rx)])
    ensures DeliveredInOrder(t)
  {
    var a, b := AckValue(s.rx), AckValue(t.rx);
    assert s.gsent[..b] == s.gsent[..a] + s.gsent[a..b];
    FilterConcat(InOrder, s.gsent[..a], s.gsent[a..b]);
    FilterConcat(InOrder, s.released, out);
  }

  /** A guaranteed arrival, in terms of the guaranteed space. */
  lemma ReceiveGuaranteed(s: System, p: Packet, now: u64)
    requires Guaranteed(p.msg.options) && p.seqNo != 0
    ensures var t, x := Receive(s, p, now), Accept(CoreOf(s.rx), p.seqNo, p.msg);
            CoreOf(t.rx) == x.core && t.released == s.released + Out(x.outcome)
  {
  }

  /** Any other arrival leaves the guaranteed space alone and releases at most itself. */
  lemma ReceiveOther(s: System, p: Packet, now: u64)
    requires !Guaranteed(p.msg.options)
    ensures var t := Receive(s, p, now);
            CoreOf(t.rx) == CoreOf(s.rx) && (t.released == s.released + [] || t.released == s.released + [p.msg])
  {
  }

  lemma ReceiveKeepsGenuine(s: System, p: Packet, now: u64)
    requires Genuine(s)
    ensures Genuine(Receive(s, p, now)) && Receive(s, p, now).gsent == s.gsent
  {
  }

  lemma AcceptedKeepsOrder(s: System, t: System, x: Accepted)
    requires DeliveredInOrder(s) && CoreFor(CoreOf(s.rx), s.gsent) && Advances(CoreOf(s.rx), x, s.gsent)
    requires t.gsent == s.gsent && CoreOf(t.rx) == x.core && t.released == s.released + Out(x.outcome)
    ensures CoreFor(CoreOf(t.rx), t.gsent) && DeliveredInOrder(t) && AckValue(s.rx) <= AckValue(t.rx)
  {
    assert AckValue(s.rx) == AckOf(CoreOf(s.rx)) && AckValue(t.rx) == AckOf(x.core);
    AppendKeepsOrder(s, t, Out(x.outcome));
  }

  lemma OtherKeepsOrder(s: System, t: System, m: Msg, out: seq<Msg>)
    requires DeliveredInOrder(s) && !Guaranteed(m.options) && (out == [] || out == [m])
    requires t.gsent == s.gsent && CoreOf(t.rx) == CoreOf(s.rx) && t.released == s.released + out
    ensures DeliveredInOrder(t)
  {
    FilterOne(InOrder, m);
    assert AckValue(t.rx) == AckValue(s.rx);
    assert s.gsent[AckValue(s.rx)..AckValue(s.rx)] == [];
    AppendKeepsOrder(s, t, out);
  }

  lemma ReceiveKeepsOrder(s: System, p: Packet, now: u64)
    requires OrderInv(s) && p in s.data
    ensures OrderInv(Receive(s, p, now))
    ensures AckValue(s.rx) <= AckValue(Receive(s, p, now).rx)
  {
    var t := Receive(s, p, now);
    ReceiveKeepsGenuine(s, p, now);
    if Guaranteed(p.msg.options) {
      assert CopyOf(p.seqNo, p.msg, s.gsent);
      ReceiveGuaranteed(s, p, now);
      AcceptAdvances(CoreOf(s.rx), p.seqNo, s.gsent);
      AcceptedKeepsOrder(s, t, Accept(CoreOf(s.rx), p.seqNo, p.msg));
    } else {
      ReceiveOther(s, p, now);
      OtherKeepsOrder(s, t, p.msg, if t.released == s.released + [] then [] else [p.msg]);
    }
  }

  lemma SendKeepsOrder(s: System, m: Msg, now: u64)
    requires OrderInv(s) && |SendEvent(s, m, now).gsent| < 0x1_0000_0000
    ensures OrderInv(SendEvent(s, m, now))
  {
    SendKeepsGenuine(s, m, now);
    var t := SendEvent(s, m, now);
    assert t.gsent[..AckValue(s.rx)] == s.gsent[..AckValue(s.rx)];
    forall k | k in t.rx.gBuf ensures 1 <= k <= |t.gsent| && t.rx.gBuf[k] == Stored(t.gsent[k - 1]) {
      assert t.gsent[k - 1] == s.gsent[k - 1];
    }
  }

  lemma StepKeepsOrder(s: System, e: Event)
    requires OrderInv(s) && |Apply(s, e).gsent| < 0x1_0000_0000
    ensures OrderInv(Apply(s, e))
    ensures AckValue(s.rx) <= AckValue(Apply(s, e).rx)
  {
    match e
    case Send(m, now) => SendKeepsOrder(s, m, now);
    case Service(now) => ServiceKeepsGenuine(s, now);
    case Arrive(p, now) => if p in s.data { ReceiveKeepsOrder(s, p, now); }
    case Piggyback =>
    case ForceAck(now) =>
    case AckArrives(a) =>
  }

  lemma HistoryGrows(s: System, e: Event)
    ensures s.gsent <= Apply(s, e).gsent && s.bsent <= Apply(s, e).bsent
  {
  }

  lemma {:induction false} RunKeepsOrder(events: seq<Event>)
    requires |Run(events).gsent| < 0x1_0000_0000
    ensures OrderInv(Run(events))
    decreases |events|
  {
    if events != [] {
      var before := events[..|events| - 1];
      HistoryGrows(Run(before), events[|events| - 1]);
      RunKeepsOrder(before);
      StepKeepsOrder(Run(before), events[|events| - 1]);
    }
  }

  /** Delivery in order, for every run of at most 2^32 - 1 guaranteed sends: whatever was lost,
      duplicated, reordered or evicted from the out-of-order buffer, the guaranteed and sequential
      payloads released so far are exactly those of the first AckValue guaranteed sends, each once
      and in send order. */
  lemma InOrderDelivery(events: seq<Event>)
    ensures |Run(events).gsent| <= 0xFFFF_FFFF ==> DeliveredInOrder(Run(events))
  {
    if |Run(events).gsent| <= 0xFFFF_FFFF {
      RunKeepsOrder(events);
    }
  }
}
