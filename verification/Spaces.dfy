/** The guaranteed and the best-effort sequence spaces of one receiver do not interfere, and
    best-effort sequential delivery never goes back. */
module Spaces {
  import opened SerialNumbers
  import opened Reliable
  import opened Delivery
  import opened Seqs

  // ---------------------------------------------------------------------------
  // Non-interference
  // ---------------------------------------------------------------------------

  datatype Arrival = Arrival(packet: Packet, now: u64)

  datatype Trace = Trace(r: ReceiverState, out: seq<Msg>)

  function Feed(t: Trace, x: Arrival): Trace {
    var (r', o) := OnMessageStep(t.r, x.packet.seqNo, x.packet.msg, x.now);
    Trace(r', t.out + Out(o))
  }

  ghost function FeedAll(xs: seq<Arrival>): Trace {
    Fold(Feed, Trace(NEW_RECEIVER, []), xs)
  }

  predicate IsGuaranteed(m: Msg) {
    Guaranteed(m.options)
  }

  predicate IsBestEffort(m: Msg) {
    !Guaranteed(m.options)
  }

  predicate OfGuaranteed(x: Arrival) {
    IsGuaranteed(x.packet.msg)
  }

  predicate OfBestEffort(x: Arrival) {
    IsBestEffort(x.packet.msg)
  }

  predicate SameGuaranteedSpace(r: ReceiverState, q: ReceiverState) {
    r.gNext == q.gNext && r.gBuf == q.gBuf && r.ackDueAt == q.ackDueAt
  }

  predicate SameBestEffortSpace(r: ReceiverState, q: ReceiverState) {
    r.beLast == q.beLast && r.beSeen == q.beSeen
  }

  /** Only guaranteed messages are ever buffered. */
  ghost predicate BuffersGuaranteed(buf: Buffer) {
    forall k :: k in buf ==> IsGuaranteed(buf[k])
  }

  lemma {:induction false} DrainGuaranteed(buf: Buffer, next: u32)
    requires BuffersGuaranteed(buf)
    ensures BuffersGuaranteed(Drain(buf, next).buf)
    ensures forall m :: m in Drain(buf, next).out ==> IsGuaranteed(m)
    decreases |buf|
  {
    if next in buf {
      DrainGuaranteed(buf - {next}, WrapInc(next));
    }
  }

  lemma AcceptGuaranteed(c: Core, k: u32, m: Msg)
    requires BuffersGuaranteed(c.buf) && IsGuaranteed(m)
    ensures BuffersGuaranteed(Accept(c, k, m).core.buf)
    ensures forall x :: x in Out(Accept(c, k, m).outcome) ==> IsGuaranteed(x)
  {
    DrainGuaranteed(c.buf, WrapInc(c.next));
    DrainGuaranteed(OooRoom(c.buf)[k := Msg([], m.options)], c.next);
  }

  /** One arrival: its outputs are of its own kind, and the other space does not move. */
  lemma StepStaysInSpace(r: ReceiverState, p: Packet, now: u64)
    requires BuffersGuaranteed(r.gBuf)
    ensures var (r', o) := OnMessageStep(r, p.seqNo, p.msg, now);
            && BuffersGuaranteed(r'.gBuf)
            && (forall m :: m in Out(o) ==> (IsGuaranteed(m) <==> IsGuaranteed(p.msg)))
            && (IsGuaranteed(p.msg) ==> SameBestEffortSpace(r, r'))
            && (IsBestEffort(p.msg) ==> SameGuaranteedSpace(r, r'))
  {
    if IsGuaranteed(p.msg) {
      AcceptGuaranteed(CoreOf(r), p.seqNo, p.msg);
    }
  }

  /** The result of a guaranteed arrival depends on the guaranteed space alone. */
  lemma GuaranteedStepLocal(r: ReceiverState, q: ReceiverState, p: Packet, now: u64)
    requires SameGuaranteedSpace(r, q) && IsGuaranteed(p.msg)
    ensures var a, b := OnMessageStep(r, p.seqNo, p.msg, now), OnMessageStep(q, p.seqNo, p.msg, now);
            SameGuaranteedSpace(a.0, b.0) && a.1 == b.1
  {
  }

  lemma BestEffortStepLocal(r: ReceiverState, q: ReceiverState, p: Packet, now: u64)
    requires SameBestEffortSpace(r, q) && IsBestEffort(p.msg)
    ensures var a, b := OnMessageStep(r, p.seqNo, p.msg, now), OnMessageStep(q, p.seqNo, p.msg, now);
            SameBestEffortSpace(a.0, b.0) && a.1 == b.1
  {
  }

  /** Interleaved traffic and the guaranteed messages alone give the same guaranteed space and the
      same guaranteed output. */
  lemma {:induction false} GuaranteedAlone(xs: seq<Arrival>)
    ensures BuffersGuaranteed(FeedAll(xs).r.gBuf)
    ensures SameGuaranteedSpace(FeedAll(xs).r, FeedAll(Filter(OfGuaranteed, xs)).r)
    ensures Filter(IsGuaranteed, FeedAll(xs).out) == FeedAll(Filter(OfGuaranteed, xs)).out
    decreases |xs|
  {
    if xs != [] {
      var init, x := xs[..|xs| - 1], xs[|xs| - 1];
      GuaranteedAlone(init);
      FilterSnoc(OfGuaranteed, xs);
      var t, alone := FeedAll(init), FeedAll(Filter(OfGuaranteed, init));
      var out := Out(OnMessageStep(t.r, x.packet.seqNo, x.packet.msg, x.now).1);
      StepStaysInSpace(t.r, x.packet, x.now);
      FilterConcat(IsGuaranteed, t.out, out);
      if OfGuaranteed(x) {
        FilterAll(IsGuaranteed, out);
        GuaranteedStepLocal(t.r, alone.r, x.packet, x.now);
        FoldSnoc(Feed, Trace(NEW_RECEIVER, []), Filter(OfGuaranteed, init), x);
      } else {
        FilterNone(IsGuaranteed, out);
        assert Filter(OfGuaranteed, xs) == Filter(OfGuaranteed, init);
      }
    }
  }

  /** Likewise for the best-effort messages. */
  lemma {:induction false} BestEffortAlone(xs: seq<Arrival>)
    ensures SameBestEffortSpace(FeedAll(xs).r, FeedAll(Filter(OfBestEffort, xs)).r)
    ensures Filter(IsBestEffort, FeedAll(xs).out) == FeedAll(Filter(OfBestEffort, xs)).out
    decreases |xs|
  {
    if xs != [] {
      var init, x := xs[..|xs| - 1], xs[|xs| - 1];
      BestEffortAlone(init);
      GuaranteedAlone(init);
      FilterSnoc(OfBestEffort, xs);
      var t, alone := FeedAll(init), FeedAll(Filter(OfBestEffort, init));
      var out := Out(OnMessageStep(t.r, x.packet.seqNo, x.packet.msg, x.now).1);
      StepStaysInSpace(t.r, x.packet, x.now);
      FilterConcat(IsBestEffort, t.out, out);
      if OfBestEffort(x) {
        FilterAll(IsBestEffort, out);
        BestEffortStepLocal(t.r, alone.r, x.packet, x.now);
        FoldSnoc(Feed, Trace(NEW_RECEIVER, []), Filter(OfBestEffort, init), x);
      } else {
        FilterNone(IsBestEffort, out);
        assert Filter(OfBestEffort, xs) == Filter(OfBestEffort, init);
      }
    }
  }

  // ---------------------------------------------------------------------------
  // Best-effort sequential delivery over a run
  // ---------------------------------------------------------------------------

  predicate IsBestSequential(m: Msg) {
    !Guaranteed(m.options) && Sequential(m.options)
  }

  /** The numbers increase strictly and the messages are the ones they name. */
  ghost predicate Forward(tags: seq<u32>, out: seq<Msg>, bsent: seq<Msg>) {
    && |out| == |tags|
    && (forall i, j :: 0 <= i < j < |tags| ==> tags[i] < tags[j])
    && (forall i :: 0 <= i < |tags| ==> CopyOf(tags[i], out[i], bsent))
  }

  ghost predicate BestEffortInv(s: System) {
    && |s.bsent| < 0x1_0000_0000 && s.tx.nextB == WrapInc(|s.bsent|)
    && (forall p :: p in s.data && IsBestSequential(p.msg) ==> CopyOf(p.seqNo, p.msg, s.bsent))
    && BuffersGuaranteed(s.rx.gBuf)
    && (s.rx.beSeen <==> s.beTags != []) && (s.rx.beSeen ==> s.rx.beLast == s.beTags[|s.beTags| - 1])
    && Forward(s.beTags, Filter(IsBestSequential, s.released), s.bsent)
  }

  lemma NewerIsLater(k: u32, last: u32, n: nat)
    requires 1 <= k <= n && 1 <= last <= n && n <= 0x8000_0001 && SeqAfter(k, last)
    ensures last < k
  {
  }

  lemma ForwardAppend(tags: seq<u32>, out: seq<Msg>, bsent: seq<Msg>, k: u32, m: Msg)
    requires Forward(tags, out, bsent) && CopyOf(k, m, bsent)
    requires tags != [] ==> tags[|tags| - 1] < k
    ensures Forward(tags + [k], out + [m], bsent)
  {
  }

  lemma ForwardGrow(tags: seq<u32>, out: seq<Msg>, bsent: seq<Msg>, m: Msg)
    requires Forward(tags, out, bsent)
    ensures Forward(tags, out, bsent + [m])
  {
  }

  /** Sends, wire and numbering as in `s`; only guaranteed messages buffered. */
  ghost predicate SameSends(s: System, t: System) {
    t.bsent == s.bsent && t.tx.nextB == s.tx.nextB && t.data == s.data && BuffersGuaranteed(t.rx.gBuf)
  }

  /** Anything released that is not best-effort sequential. */
  lemma OthersKeepForward(s: System, t: System, out: seq<Msg>)
    requires BestEffortInv(s) && SameSends(s, t) && SameBestEffortSpace(s.rx, t.rx) && t.beTags == s.beTags
    requires t.released == s.released + out && forall m <- out :: !IsBestSequential(m)
    ensures BestEffortInv(t)
  {
    FilterConcat(IsBestSequential, s.released, out);
    FilterNone(IsBestSequential, out);
    assert Filter(IsBestSequential, s.released) + [] == Filter(IsBestSequential, s.released);
  }

  /** A best-effort sequential message released under a later number. */
  lemma NextKeepsForward(s: System, t: System, k: u32, m: Msg)
    requires BestEffortInv(s) && SameSends(s, t) && |s.bsent| <= 0x8000_0001 && IsBestSequential(m) && CopyOf(k, m, s.bsent)
    requires t.released == s.released + [m] && t.beTags == s.beTags + [k] && t.rx.beSeen && t.rx.beLast == k
    requires s.rx.beSeen ==> SeqAfter(k, s.rx.beLast)
    ensures BestEffortInv(t)
  {
    var out := Filter(IsBestSequential, s.released);
    FilterConcat(IsBestSequential, s.released, [m]);
    FilterOne(IsBestSequential, m);
    if s.rx.beSeen {
      assert CopyOf(s.rx.beLast, out[|s.beTags| - 1], s.bsent);
      NewerIsLater(k, s.rx.beLast, |s.bsent|);
    }
    ForwardAppend(s.beTags, out, s.bsent, k, m);
  }

  lemma ReceiveKeepsForward(s: System, p: Packet, now: u64)
    requires BestEffortInv(s) && p in s.data && |s.bsent| <= 0x8000_0001
    ensures BestEffortInv(Receive(s, p, now))
  {
    var t, o := Receive(s, p, now), OnMessageStep(s.rx, p.seqNo, p.msg, now).1;
    StepStaysInSpace(s.rx, p, now);
    if IsBestSequential(p.msg) && o.Delivered? {
      assert CopyOf(p.seqNo, p.msg, s.bsent);
      NextKeepsForward(s, t, p.seqNo, p.msg);
    } else {
      if IsBestEffort(p.msg) { ReceiveOther(s, p, now); }
      OthersKeepForward(s, t, Out(o));
    }
  }

  lemma SendKeepsForward(s: System, m: Msg, now: u64)
    requires BestEffortInv(s) && |SendEvent(s, m, now).bsent| <= 0x8000_0001
    ensures BestEffortInv(SendEvent(s, m, now))
  {
    var t := SendEvent(s, m, now);
    if IsBestSequential(m) {
      ForwardGrow(s.beTags, Filter(IsBestSequential, s.released), s.bsent, m);
      forall p | p in t.data && IsBestSequential(p.msg) ensures CopyOf(p.seqNo, p.msg, t.bsent) {
        if p in s.data {
          CopyStays(p.seqNo, p.msg, s.bsent, [m]);
        }
      }
    }
  }

  /** Retransmissions are guaranteed messages. */
  ghost predicate PendingGuaranteed(s: System) {
    forall k :: k in s.tx.pending ==> Guaranteed(s.tx.pending[k].options)
  }

  lemma StepKeepsForward(s: System, e: Event)
    requires BestEffortInv(s) && PendingGuaranteed(s) && |Apply(s, e).bsent| <= 0x8000_0001
    ensures BestEffortInv(Apply(s, e)) && PendingGuaranteed(Apply(s, e))
  {
    match e
    case Send(m, now) => SendKeepsForward(s, m, now);
    case Arrive(p, now) => if p in s.data { ArriveKeepsForward(s, p, now); }
    case Service(now) => ServiceKeepsForward(s, now);
    case _ => QuietKeepsForward(s, e);
  }

  lemma ArriveKeepsForward(s: System, p: Packet, now: u64)
    requires BestEffortInv(s) && PendingGuaranteed(s) && p in s.data && |s.bsent| <= 0x8000_0001
    ensures BestEffortInv(Receive(s, p, now)) && PendingGuaranteed(Receive(s, p, now))
  {
    ReceiveKeepsForward(s, p, now);
  }

  lemma ServiceKeepsForward(s: System, now: u64)
    requires BestEffortInv(s) && PendingGuaranteed(s)
    ensures BestEffortInv(Apply(s, Service(now))) && PendingGuaranteed(Apply(s, Service(now)))
  {
    var t := Apply(s, Service(now));
    assert t.rx == s.rx && t.bsent == s.bsent && t.beTags == s.beTags && t.released == s.released;
    forall p | p in t.data && IsBestSequential(p.msg) ensures p in s.data {
    }
  }

  lemma QuietKeepsForward(s: System, e: Event)
    requires BestEffortInv(s) && PendingGuaranteed(s) && (e.Piggyback? || e.ForceAck? || e.AckArrives?)
    ensures BestEffortInv(Apply(s, e)) && PendingGuaranteed(Apply(s, e))
  {
    var t := Apply(s, e);
    QuietMoves(s, e);
    assert t.released == s.released + [];
    OthersKeepForward(s, t, []);
  }

  lemma QuietMoves(s: System, e: Event)
    requires e.Piggyback? || e.ForceAck? || e.AckArrives?
    ensures var t := Apply(s, e);
            && t.bsent == s.bsent && t.tx.nextB == s.tx.nextB && t.data == s.data && t.rx.gBuf == s.rx.gBuf
            && SameBestEffortSpace(s.rx, t.rx) && t.beTags == s.beTags && t.released == s.released
            && t.tx.pending.Keys <= s.tx.pending.Keys
            && forall k <- t.tx.pending :: t.tx.pending[k] == s.tx.pending[k]
  {
  }

  /** Best-effort sequential delivery, for every run of at most 2^31 + 1 such sends: the messages
      released carry strictly increasing send numbers (so each at most once, never an older one
      after a newer one), and none of them is ever buffered. */
  lemma {:induction false} BestEffortForward(events: seq<Event>)
    requires |Run(events).bsent| <= 0x8000_0001
    ensures var s := Run(events);
            && Forward(s.beTags, Filter(IsBestSequential, s.released), s.bsent)
            && BuffersGuaranteed(s.rx.gBuf)
            && BestEffortInv(s) && PendingGuaranteed(s)
    decreases |events|
  {
    if events != [] {
      var before := events[..|events| - 1];
      HistoryGrows(Run(before), events[|events| - 1]);
      BestEffortForward(before);
      StepKeepsForward(Run(before), events[|events| - 1]);
    }
  }

  // ---------------------------------------------------------------------------
  // What is handed out, exactly
  // ---------------------------------------------------------------------------

  /** Every send, in any mode, puts its message on the wire; number 0 is for the plain ones only. */
  lemma SendReachesWire(events: seq<Event>, m: Msg, now: u64)
    requires |Run(events).gsent| < 0xFFFF_FFFF && |Run(events).bsent| <= 0x8000_0000
    ensures var s, t := Run(events), Apply(Run(events), Send(m, now));
            var k := if Guaranteed(m.options) then |s.gsent| + 1 else if Sequential(m.options) then |s.bsent| + 1 else 0;
            t.data == s.data + {Packet(k, m)}
  {
    RunKeepsOrder(events);
    BestEffortForward(events);
  }

  /** A plain best-effort arrival is handed out at once, whatever came before. */
  lemma PlainReleased(s: System, p: Packet, now: u64)
    requires p in s.data && !Guaranteed(p.msg.options) && !Sequential(p.msg.options)
    ensures var t := Apply(s, Arrive(p, now)); t.released == s.released + [p.msg] && CoreOf(t.rx) == CoreOf(s.rx)
  {
    ReceiveOther(s, p, now);
    assert OnMessageStep(s.rx, p.seqNo, p.msg, now).1 == Delivered([p.msg]);
    assert Apply(s, Arrive(p, now)) == Receive(s, p, now);
  }

  lemma LaterIsNewer(k: u32, last: u32, n: nat)
    requires 1 <= k <= n && 1 <= last <= n && n <= 0x8000_0000
    ensures SeqAfter(k, last) <==> last < k
  {
  }

  ghost predicate LaterThanAll(k: u32, tags: seq<u32>) {
    forall t <- tags :: t < k
  }

  lemma LaterThanLast(k: u32, tags: seq<u32>)
    requires forall i, j :: 0 <= i < j < |tags| ==> tags[i] < tags[j]
    ensures LaterThanAll(k, tags) <==> tags == [] || tags[|tags| - 1] < k
  {
    if tags != [] {
      assert tags[|tags| - 1] in tags;
    }
  }

  /** The next arrival of `p` is handed out exactly when it was sent later than everything of its kind
      handed out before. */
  ghost predicate ReleasesLater(s: System, p: Packet, now: u64) {
    Apply(s, Arrive(p, now)).released == s.released + if LaterThanAll(p.seqNo, s.beTags) then [p.msg] else []
  }

  /** Best-effort sequential arrivals, for every run of at most 2^31 such sends. */
  lemma SequentialReleased(events: seq<Event>, p: Packet, now: u64)
    requires |Run(events).bsent| <= 0x8000_0000
    requires p in Run(events).data && IsBestSequential(p.msg)
    ensures ReleasesLater(Run(events), p, now)
  {
    var s := Run(events);
    BestEffortForward(events);
    LaterThanLast(p.seqNo, s.beTags);
    assert CopyOf(p.seqNo, p.msg, s.bsent);
    if s.rx.beSeen {
      assert CopyOf(s.rx.beLast, Filter(IsBestSequential, s.released)[|s.beTags| - 1], s.bsent);
      LaterIsNewer(p.seqNo, s.rx.beLast, |s.bsent|);
    }
  }
}
