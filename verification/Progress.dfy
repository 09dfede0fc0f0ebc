/** What a receiver keeps about each accepted message, and what follows for whole runs: exactly-once
    release of nonsequential messages, quiescence, and draining of any backlog. */
module Progress {
  import opened Common
  import opened SerialNumbers
  import opened Reliable
  import opened Delivery
  import opened NoLoss
  import opened Seqs

  // ---------------------------------------------------------------------------
  // One arrival, seen from the guaranteed space
  // ---------------------------------------------------------------------------

  /** Everything buffered lies beyond the gap the receiver is waiting on. */
  ghost predicate Tidy(c: Core) {
    && (forall k :: k in c.buf ==> AckOf(c) < k)
    && c.next !in c.buf
  }

  /** What one accepted arrival of `k` does to the set of remembered numbers. */
  ghost predicate Remembers(c: Core, x: Accepted, k: u32) {
    && (k in x.core.buf || k <= AckOf(x.core))
    && (forall j :: j in c.buf ==> j in x.core.buf || j <= AckOf(x.core) || x.evicted == Some(j))
    && (forall j :: j in x.core.buf ==> j in c.buf || j == k)
    && (forall j :: AckOf(c) < j <= AckOf(x.core) ==> j in c.buf || j == k)
  }

  lemma FreshIsAhead(c: Core, k: u32, n: nat)
    requires 1 <= k <= n <= 0x8000_0001 && AckOf(c) <= n && !IsDuplicate(c, k)
    ensures AckOf(c) < k
  {
  }

  /** Draining a buffer beyond `a` stops at a gap and keeps everything beyond it. */
  lemma DrainTidy(buf: Buffer, a: nat, n: nat)
    requires a <= n <= 0x8000_0001
    requires forall k :: k in buf ==> a < k <= n
    ensures var d := Drain(buf, WrapInc(a));
            var b := RunEnd(buf, a);
            && a <= b <= n && d.next == b + 1 && d.next !in d.buf
            && (forall j :: j in d.buf <==> j in buf && b < j)
  {
    DrainTakes(buf, a, n);
  }

  lemma NextTidy(c: Core, m: Msg, gsent: seq<Msg>)
    requires CoreFor(c, gsent) && Tidy(c) && AckOf(c) < |gsent| <= 0x8000_0001
    ensures var x := AcceptNext(c, m); Tidy(x.core) && Remembers(c, x, c.next) && c.next <= AckOf(x.core)
  {
    var a := AckOf(c) + 1;
    assert c.next == a;
    DrainTidy(c.buf, a, |gsent|);
    assert AckOf(AcceptNext(c, m).core) == RunEnd(c.buf, a);
  }

  lemma RoomForgets(buf: Buffer, j: u32)
    requires j in buf && j !in OooRoom(buf)
    ensures OooEvicted(buf) == Some(j)
  {
  }

  lemma RoomTidy(buf: Buffer, k: u32, m: Msg, a: nat, n: nat)
    requires |buf| <= OOO_CAP && a < k <= n && forall j :: j in buf ==> a < j <= n
    ensures var buf' := OooRoom(buf)[k := m];
            && (forall j :: j in buf' ==> a < j <= n)
            && (forall j :: j in buf' ==> j in buf || j == k)
            && (forall j :: j in buf ==> j in buf' || OooEvicted(buf) == Some(j))
  {
    RoomShrinks(buf);
    forall j | j in buf && j !in OooRoom(buf) ensures OooEvicted(buf) == Some(j) {
      RoomForgets(buf, j);
    }
  }

  lemma UnorderedTidy(c: Core, k: u32, gsent: seq<Msg>)
    requires CoreFor(c, gsent) && Tidy(c) && AckOf(c) < k <= |gsent| <= 0x8000_0001
    ensures var x := AcceptUnordered(c, k, gsent[k - 1]);
            Tidy(x.core) && Remembers(c, x, k) && (k == c.next ==> k <= AckOf(x.core))
  {
    var a, marker := AckOf(c), Msg([], gsent[k - 1].options);
    var buf := OooRoom(c.buf)[k := marker];
    assert c.next == WrapInc(a);
    RoomTidy(c.buf, k, marker, a, |gsent|);
    DrainTidy(buf, a, |gsent|);
    assert AckOf(AcceptUnordered(c, k, gsent[k - 1]).core) == RunEnd(buf, a);
  }

  lemma AheadTidy(c: Core, k: u32, gsent: seq<Msg>)
    requires CoreFor(c, gsent) && Tidy(c) && AckOf(c) < k <= |gsent| <= 0x8000_0001 && k != c.next
    ensures var x := AcceptAhead(c, k, gsent[k - 1]); Tidy(x.core) && Remembers(c, x, k)
  {
    RoomTidy(c.buf, k, gsent[k - 1], AckOf(c), |gsent|);
  }

  lemma AcceptTidy(c: Core, k: u32, gsent: seq<Msg>)
    requires CoreFor(c, gsent) && Tidy(c) && 1 <= k <= |gsent| <= 0x8000_0001
    ensures var x := Accept(c, k, gsent[k - 1]);
            && Tidy(x.core)
            && (!IsDuplicate(c, k) ==> AckOf(c) < k && Remembers(c, x, k))
            && (k == c.next ==> k <= AckOf(x.core))
  {
    if !IsDuplicate(c, k) {
      FreshIsAhead(c, k, |gsent|);
      if !Sequential(gsent[k - 1].options) {
        UnorderedTidy(c, k, gsent);
      } else if k == c.next {
        NextTidy(c, gsent[k - 1], gsent);
      } else {
        AheadTidy(c, k, gsent);
      }
    }
  }

  // ---------------------------------------------------------------------------
  // Nonsequential messages: counted by number
  // ---------------------------------------------------------------------------

  predicate IsUnordered(m: Msg) {
    Guaranteed(m.options) && !Sequential(m.options)
  }

  function Unordered(ms: seq<Msg>): seq<Msg> {
    Filter(IsUnordered, ms)
  }

  function One(m: Msg, counted: bool): multiset<Msg> {
    if counted && IsUnordered(m) then multiset{m} else multiset{}
  }

  /** The nonsequential messages whose numbers are in `nums`, each counted once. */
  function Named(gsent: seq<Msg>, nums: set<u32>): multiset<Msg> {
    if gsent == [] then multiset{}
    else
      var n := |gsent|;
      Named(gsent[..n - 1], nums) + One(gsent[n - 1], n in nums)
  }

  lemma {:induction false} NamedInsert(gsent: seq<Msg>, nums: set<u32>, k: u32)
    requires 1 <= k && k !in nums
    ensures Named(gsent, nums + {k}) ==
            Named(gsent, nums) + if k <= |gsent| then One(gsent[k - 1], true) else multiset{}
  {
    if gsent != [] {
      var n := |gsent|;
      NamedInsert(gsent[..n - 1], nums, k);
      var more := nums + {k};
      assert n in more <==> n in nums || n == k;
      if n == k {
        assert One(gsent[n - 1], n in nums) == multiset{};
      } else if k < n {
        assert gsent[..n - 1][k - 1] == gsent[k - 1];
      }
    }
  }

  /** Draining never releases a nonsequential message. */
  lemma {:induction false} DrainOnlyOrdered(buf: Buffer, next: u32)
    requires forall k :: k in buf && buf[k].payload != [] ==> Sequential(buf[k].options)
    ensures Unordered(Drain(buf, next).out) == []
    decreases |buf|
  {
    if next in buf {
      var d := Drain(buf - {next}, WrapInc(next));
      DrainOnlyOrdered(buf - {next}, WrapInc(next));
      FilterConcat(IsUnordered, Payloads(buf[next]), d.out);
      FilterOne(IsUnordered, buf[next]);
    }
  }

  /** An accepted arrival releases its own nonsequential message and no other. */
  lemma AcceptReleases(c: Core, k: u32, gsent: seq<Msg>)
    requires CoreFor(c, gsent) && 1 <= k <= |gsent|
    ensures var m := gsent[k - 1];
            Unordered(Out(Accept(c, k, m).outcome)) == if IsDuplicate(c, k) then [] else Keep(IsUnordered, m)
  {
    var m := gsent[k - 1];
    if IsDuplicate(c, k) {
    } else if !Sequential(m.options) {
      var buf := OooRoom(c.buf)[k := Msg([], m.options)];
      RoomKeeps(c.buf, gsent, k, Msg([], m.options));
      DrainOnlyOrdered(buf, c.next);
      FilterConcat(IsUnordered, [m], Drain(buf, c.next).out);
      FilterOne(IsUnordered, m);
    } else if k == c.next {
      DrainOnlyOrdered(c.buf, WrapInc(c.next));
      FilterConcat(IsUnordered, Payloads(m), Drain(c.buf, WrapInc(c.next)).out);
      FilterOne(IsUnordered, m);
    }
  }

  // ---------------------------------------------------------------------------
  // Over a run
  // ---------------------------------------------------------------------------

  /** Which numbers the receiver has accepted, and which of them it still recognises. */
  ghost predicate TakenOk(c: Core, taken: set<u32>, lost: bool, gsent: seq<Msg>) {
    && (forall k :: k in taken ==> 1 <= k <= |gsent|)
    && (forall k :: k in c.buf ==> k in taken)
    && (forall k :: 1 <= k <= AckOf(c) ==> k in taken)
    && (!lost ==> forall k :: k in taken && IsUnordered(gsent[k - 1]) ==> k <= AckOf(c) || k in c.buf)
  }

  /** Nonsequential messages: each accepted number released at least once, and exactly once unless a
      duplicate marker was evicted. */
  ghost predicate Counted(gsent: seq<Msg>, taken: set<u32>, released: seq<Msg>, lost: bool) {
    && Named(gsent, taken) <= multiset(Unordered(released))
    && (!lost ==> Named(gsent, taken) == multiset(Unordered(released)))
  }

  ghost predicate CountInv(s: System) {
    && OrderInv(s)
    && Tidy(CoreOf(s.rx))
    && TakenOk(CoreOf(s.rx), s.taken, s.markerLost, s.gsent)
    && Counted(s.gsent, s.taken, s.released, s.markerLost)
  }

  lemma AcceptKeepsTaken(c: Core, x: Accepted, k: u32, taken: set<u32>, lost: bool, gsent: seq<Msg>)
    requires BufferOf(c.buf, gsent) && TakenOk(c, taken, lost, gsent)
    requires 1 <= k <= |gsent| && Remembers(c, x, k) && AckOf(c) <= AckOf(x.core)
    ensures TakenOk(x.core, taken + {k}, lost || MarkerEvicted(c.buf, x.evicted), gsent)
  {
    if !lost && !MarkerEvicted(c.buf, x.evicted) {
      forall j | j in taken + {k} && IsUnordered(gsent[j - 1]) ensures j <= AckOf(x.core) || j in x.core.buf {
        assert x.evicted == Some(j) ==> j !in c.buf;
      }
    }
  }

  lemma AcceptKeepsCount(c: Core, k: u32, taken: set<u32>, lost: bool, gsent: seq<Msg>, released: seq<Msg>)
    requires CoreFor(c, gsent) && TakenOk(c, taken, lost, gsent) && Counted(gsent, taken, released, lost)
    requires 1 <= k <= |gsent| && !IsDuplicate(c, k) && AckOf(c) < k
    ensures Counted(gsent, taken + {k}, released + Out(Accept(c, k, gsent[k - 1]).outcome), lost)
  {
    AcceptReleases(c, k, gsent);
    ReleaseCounts(gsent, taken, released, lost, k, Out(Accept(c, k, gsent[k - 1]).outcome));
  }

  lemma ReleaseCounts(gsent: seq<Msg>, taken: set<u32>, released: seq<Msg>, lost: bool, k: u32, out: seq<Msg>)
    requires Counted(gsent, taken, released, lost) && 1 <= k <= |gsent| && (k in taken && IsUnordered(gsent[k - 1]) ==> lost)
    requires Unordered(out) == Keep(IsUnordered, gsent[k - 1])
    ensures Counted(gsent, taken + {k}, released + out, lost)
  {
    FilterConcat(IsUnordered, released, out);
    assert multiset(Keep(IsUnordered, gsent[k - 1])) == One(gsent[k - 1], true);
    if k in taken {
      assert taken + {k} == taken;
    } else {
      NamedInsert(gsent, taken, k);
    }
  }

  /** `t` is `s` after the receiver took the guaranteed message `k` with result `x`. */
  ghost predicate Took(s: System, t: System, k: u32, x: Accepted) {
    && CoreOf(t.rx) == x.core && t.gsent == s.gsent
    && t.released == s.released + Out(x.outcome)
    && t.taken == (if x.outcome.DroppedDuplicate? then s.taken else s.taken + {k})
    && t.markerLost == (s.markerLost || MarkerEvicted(s.rx.gBuf, x.evicted))
  }

  lemma TookKeepsCount(s: System, t: System, k: u32, m: Msg)
    requires CountInv(s) && OrderInv(t) && CopyOf(k, m, s.gsent) && |s.gsent| <= 0x8000_0001
    requires Took(s, t, k, Accept(CoreOf(s.rx), k, m))
    ensures CountInv(t)
  {
    var c := CoreOf(s.rx);
    var x := Accept(c, k, m);
    AcceptTidy(c, k, s.gsent);
    if IsDuplicate(c, k) {
      assert s.released + [] == s.released;
    } else {
      AcceptAdvances(c, k, s.gsent);
      AcceptKeepsTaken(c, x, k, s.taken, s.markerLost, s.gsent);
      AcceptKeepsCount(c, k, s.taken, s.markerLost, s.gsent, s.released);
    }
  }

  lemma ReceiveTakes(s: System, p: Packet, now: u64)
    requires Guaranteed(p.msg.options) && p.seqNo != 0
    ensures Took(s, Receive(s, p, now), p.seqNo, Accept(CoreOf(s.rx), p.seqNo, p.msg))
  {
  }

  lemma ReceiveKeepsCount(s: System, p: Packet, now: u64)
    requires CountInv(s) && p in s.data && Guaranteed(p.msg.options) && |s.gsent| <= 0x8000_0001
    ensures CountInv(Receive(s, p, now))
  {
    ReceiveKeepsOrder(s, p, now);
    assert CopyOf(p.seqNo, p.msg, s.gsent);
    ReceiveTakes(s, p, now);
    TookKeepsCount(s, Receive(s, p, now), p.seqNo, p.msg);
  }

  lemma ReceiveOtherKeepsCount(s: System, p: Packet, now: u64)
    requires CountInv(s) && p in s.data && !Guaranteed(p.msg.options)
    ensures CountInv(Receive(s, p, now))
  {
    var t := Receive(s, p, now);
    ReceiveKeepsOrder(s, p, now);
    var out := Out(OnMessageStep(s.rx, p.seqNo, p.msg, now).1);
    FilterConcat(IsUnordered, s.released, out);
    FilterOne(IsUnordered, p.msg);
    assert Unordered(s.released) + [] == Unordered(s.released);
    assert CoreOf(t.rx) == CoreOf(s.rx);
  }

  lemma SendKeepsCount(s: System, m: Msg, now: u64)
    requires CountInv(s) && |SendEvent(s, m, now).gsent| <= 0x8000_0001
    ensures CountInv(SendEvent(s, m, now))
  {
    SendKeepsOrder(s, m, now);
    var t := SendEvent(s, m, now);
    if Guaranteed(m.options) {
      NamedIgnoresNew(s.gsent, m, s.taken);
      TakenKeptByGrowth(CoreOf(s.rx), s.taken, s.markerLost, s.gsent, m);
    }
  }

  lemma NamedIgnoresNew(gsent: seq<Msg>, m: Msg, nums: set<u32>)
    requires forall k :: k in nums ==> k <= |gsent|
    ensures Named(gsent + [m], nums) == Named(gsent, nums)
  {
    assert (gsent + [m])[..|gsent|] == gsent;
  }

  lemma TakenKeptByGrowth(c: Core, taken: set<u32>, lost: bool, gsent: seq<Msg>, m: Msg)
    requires TakenOk(c, taken, lost, gsent)
    ensures TakenOk(c, taken, lost, gsent + [m])
  {
    assert forall k :: k in taken ==> (gsent + [m])[k - 1] == gsent[k - 1];
  }

  lemma StepKeepsCount(s: System, e: Event)
    requires CountInv(s) && |Apply(s, e).gsent| <= 0x8000_0001
    ensures CountInv(Apply(s, e))
  {
    match e
    case Send(m, now) => SendKeepsCount(s, m, now);
    case Arrive(p, now) =>
      if p in s.data {
        if Guaranteed(p.msg.options) {
          ReceiveKeepsCount(s, p, now);
        } else {
          ReceiveOtherKeepsCount(s, p, now);
        }
      }
    case _ =>
      StepKeepsOrder(s, e);
      assert CoreOf(Apply(s, e).rx) == CoreOf(s.rx);
  }

  lemma {:induction false} RunKeepsCount(events: seq<Event>)
    requires |Run(events).gsent| <= 0x8000_0001
    ensures CountInv(Run(events))
    decreases |events|
  {
    if events != [] {
      var before := events[..|events| - 1];
      HistoryGrows(Run(before), events[|events| - 1]);
      RunKeepsCount(before);
      StepKeepsCount(Run(before), events[|events| - 1]);
    }
  }

  /** The nonsequential messages of a whole history. */
  lemma {:induction false} NamedAll(gsent: seq<Msg>, nums: set<u32>)
    requires AllGuaranteed(gsent) && forall k :: 1 <= k <= |gsent| ==> k in nums
    ensures Named(gsent, nums) == multiset(Unordered(gsent))
  {
    if gsent != [] {
      var n := |gsent|;
      NamedAll(gsent[..n - 1], nums);
      assert gsent == gsent[..n - 1] + [gsent[n - 1]];
      FilterConcat(IsUnordered, gsent[..n - 1], [gsent[n - 1]]);
      FilterOne(IsUnordered, gsent[n - 1]);
    }
  }

  /** Nonsequential release, for every run of at most 2^31 + 1 guaranteed sends. Every acked message
      has been accepted; the accepted numbers name each message once; every accepted message has
      been released, and while no duplicate marker was evicted the releases are exactly these. */
  lemma UnorderedDelivery(events: seq<Event>)
    requires |Run(events).gsent| <= 0x8000_0001
    ensures var s := Run(events);
            && (forall k :: 1 <= k <= AckValue(s.rx) ==> k in s.taken)
            && Named(s.gsent, s.taken) <= multiset(Unordered(s.released))
            && (!s.markerLost ==> Named(s.gsent, s.taken) == multiset(Unordered(s.released)))
  {
    RunKeepsCount(events);
  }

  /** A later copy of an accepted message is refused exactly while its marker is there: once another
      arrival has evicted the marker, the copy is released again. */
  lemma MarkerForgotten(c: Core, j: u32, m: Msg, k: u32, again: Msg)
    requires !Sequential(m.options) && !Sequential(again.options)
    requires !IsDuplicate(c, j) && j != c.next && c.next !in c.buf
    requires k in c.buf && !SeqLe(k, WrapSub(c.next, 1))
    ensures var a := Accept(c, j, m);
            var b := Accept(a.core, k, again);
            if a.evicted == Some(k) then b.outcome.Delivered? && again in b.outcome.msgs
            else b.outcome == DroppedDuplicate
  {
    var a := Accept(c, j, m);
    assert a.core == Core(c.next, OooRoom(c.buf)[j := Msg([], m.options)]);
  }

  /** Nothing pending and nothing evicted by the sender: everything has arrived. */
  lemma Quiescence(events: seq<Event>)
    requires |Run(events).gsent| <= 0x8000_0000
    requires Run(events).tx.pending == map[] && Run(events).evicted == {}
    ensures var s := Run(events);
            && AckValue(s.rx) == |s.gsent| && s.rx.gBuf == map[]
            && Ordered(s.released) == Ordered(s.gsent)
            && multiset(Unordered(s.gsent)) <= multiset(Unordered(s.released))
            && (!s.markerLost ==> multiset(Unordered(s.gsent)) == multiset(Unordered(s.released)))
  {
    var s := Run(events);
    RunKeepsAccounts(events);
    RunKeepsCount(events);
    if |s.gsent| > 0 {
      assert Accounted(s, |s.gsent|);
    }
    assert s.gsent[..|s.gsent|] == s.gsent;
    NamedAll(s.gsent, s.taken);
    assert s.rx.gBuf.Keys == {};
  }

  // ---------------------------------------------------------------------------
  // Progress
  // ---------------------------------------------------------------------------

  /** With no sender eviction the lowest pending number is at most one beyond the ack. */
  lemma LowestIsNext(s: System, k: u32)
    requires LossInv(s) && s.evicted == {} && |s.gsent| <= 0x8000_0000
    requires IsMin(k, s.tx.pending.Keys)
    ensures k <= AckValue(s.rx) + 1
  {
    if AckValue(s.rx) < |s.gsent| {
      assert Accounted(s, AckValue(s.rx) + 1);
    }
  }

  /** Delivering any one copy of the lowest pending message puts it under the cumulative ack,
      whatever the out-of-order buffer holds. */
  lemma ArrivalAdvances(s: System, p: Packet, now: u64)
    requires LossInv(s) && CountInv(s) && s.evicted == {} && |s.gsent| <= 0x8000_0000
    requires IsMin(p.seqNo, s.tx.pending.Keys) && p in s.data && Guaranteed(p.msg.options)
    ensures p.seqNo <= AckValue(Receive(s, p, now).rx)
  {
    LowestIsNext(s, p.seqNo);
    assert CopyOf(p.seqNo, p.msg, s.gsent);
    ReceiveGuaranteed(s, p, now);
    AcceptCovers(CoreOf(s.rx), p.seqNo, s.gsent);
    assert AckValue(Receive(s, p, now).rx) == AckOf(CoreOf(Receive(s, p, now).rx));
  }

  /** A number at or next after the cumulative ack is under it once it has arrived. */
  lemma AcceptCovers(c: Core, k: u32, gsent: seq<Msg>)
    requires CoreFor(c, gsent) && Tidy(c) && 1 <= k <= |gsent| <= 0x8000_0000 && k <= AckOf(c) + 1
    ensures k <= AckOf(Accept(c, k, gsent[k - 1]).core)
  {
    AcceptTidy(c, k, gsent);
    AcceptAdvances(c, k, gsent);
  }

  lemma AckClearsLowest(pending: map<u32, Pending>, k: u32, a: u32)
    requires IsMin(k, pending.Keys) && 1 <= k <= a <= 0x8000_0000
    ensures !Survives(pending, a, k)
  {
  }

  /** The three events that clear the lowest pending message. */
  function DrainRound(p: Packet, now: u64, ack: u32): seq<Event> {
    [Arrive(p, now), Piggyback, AckArrives(ack)]
  }

  ghost function Lowest(s: System): Packet
    requires s.tx.pending.Keys != {}
  {
    var k := Min(s.tx.pending.Keys);
    OnWire(k, s.tx.pending[k])
  }

  lemma RunFromThree(s: System, a: Event, b: Event, c: Event)
    ensures RunFrom(s, [a, b, c]) == Apply(Apply(Apply(s, a), b), c)
  {
    FoldSnoc(Apply, s, [], a);
    FoldSnoc(Apply, s, [a], b);
    FoldSnoc(Apply, s, [a, b], c);
    assert [] + [a] == [a] && [a] + [b] == [a, b] && [a, b] + [c] == [a, b, c];
  }

  lemma AckRound(s: System, k: u32)
    requires IsMin(k, s.tx.pending.Keys) && 1 <= k <= AckValue(s.rx) <= 0x8000_0000
    ensures var t := Apply(Apply(s, Piggyback), AckArrives(AckValue(s.rx)));
            k !in t.tx.pending && |t.tx.pending| < |s.tx.pending| && t.evicted == s.evicted && t.gsent == s.gsent
  {
    var t := Apply(Apply(s, Piggyback), AckArrives(AckValue(s.rx)));
    AckClearsLowest(s.tx.pending, k, AckValue(s.rx));
    SubsetSize(t.tx.pending.Keys, s.tx.pending.Keys - {k});
  }

  ghost predicate Sound(s: System) {
    LossInv(s) && CountInv(s) && s.evicted == {} && |s.gsent| <= 0x8000_0000
  }

  lemma StepKeepsSound(s: System, e: Event)
    requires Sound(s) && !e.Send?
    ensures Sound(Apply(s, e)) && Apply(s, e).gsent == s.gsent
  {
    StepKeepsAccounts(s, e);
    StepKeepsCount(s, e);
  }

  /** One round removes the lowest pending message, so the backlog shrinks. */
  lemma RoundShrinks(s: System, p: Packet, now: u64)
    requires Sound(s)
    requires IsMin(p.seqNo, s.tx.pending.Keys) && p in s.data && Guaranteed(p.msg.options)
    ensures var t := RunFrom(s, DrainRound(p, now, AckValue(Receive(s, p, now).rx)));
            Sound(t) && t.gsent == s.gsent && p.seqNo !in t.tx.pending && |t.tx.pending| < |s.tx.pending|
  {
    var s1 := Apply(s, Arrive(p, now));
    var a := AckValue(s1.rx);
    StepKeepsSound(s, Arrive(p, now));
    StepKeepsSound(s1, Piggyback);
    StepKeepsSound(Apply(s1, Piggyback), AckArrives(a));
    ArrivalAdvances(s, p, now);
    AckRound(s1, p.seqNo);
    RunFromThree(s, Arrive(p, now), Piggyback, AckArrives(a));
  }

  lemma {:induction false} DrainFrom(s: System, now: u64) returns (more: seq<Event>)
    requires Sound(s)
    ensures var t := RunFrom(s, more); t.tx.pending == map[] && t.evicted == {} && t.gsent == s.gsent
    decreases |s.tx.pending|
  {
    if s.tx.pending.Keys == {} {
      more := [];
    } else {
      var p := Lowest(s);
      assert CopyOf(p.seqNo, p.msg, s.gsent);
      RoundShrinks(s, p, now);
      var round := DrainRound(p, now, AckValue(Receive(s, p, now).rx));
      var rest := DrainFrom(RunFrom(s, round), now);
      more := round + rest;
      FoldConcat(Apply, s, round, rest);
    }
  }

  /** From every reachable state without sender eviction there is a schedule that drains the backlog,
      whatever its size, after which every guaranteed message has been released. */
  lemma BacklogDrains(events: seq<Event>, now: u64) returns (more: seq<Event>)
    requires |Run(events).gsent| <= 0x8000_0000 && Run(events).evicted == {}
    ensures var t := Run(events + more);
            && t.tx.pending == map[] && t.rx.gBuf == map[] && t.gsent == Run(events).gsent
            && Ordered(t.released) == Ordered(t.gsent)
            && multiset(Unordered(t.gsent)) <= multiset(Unordered(t.released))
  {
    RunKeepsAccounts(events);
    RunKeepsCount(events);
    more := DrainFrom(Run(events), now);
    FoldConcat(Apply, INIT, events, more);
    Quiescence(events + more);
  }

  // ---------------------------------------------------------------------------
  // Which message gives way
  // ---------------------------------------------------------------------------

  /** A full sender gives up its lowest number and says so; a full receiver its highest. */
  lemma GivesWay(s: SenderState, m: Msg, now: u64, buf: Buffer)
    requires Guaranteed(m.options)
    ensures var o := SendStep(s, m.payload, m.options, now).1;
            if |s.pending| < 4096 then o.evicted == None
            else o.evicted.Some? && IsMin(o.evicted.value.0, s.pending.Keys)
                 && o.evicted.value.1 == s.pending[o.evicted.value.0].options
    ensures if |buf| < OOO_CAP then OooRoom(buf) == buf
            else OooEvicted(buf).Some? && IsMax(OooEvicted(buf).value, buf.Keys)
                 && OooRoom(buf) == buf - {OooEvicted(buf).value}
  {
    if |s.pending| >= 4096 { assert s.pending.Keys != {}; }
    if |buf| >= OOO_CAP { assert buf.Keys != {}; }
  }

  /** What a receiver says of a message it does not hand out: its number, and the one it goes by. */
  lemma AnswerNames(r: ReceiverState, k: u32, m: Msg, now: u64)
    ensures var o := OnMessageStep(r, k, m, now).1;
            && (o.Queued? ==> o.seqNo == k && o.expected == r.gNext && k != r.gNext)
            && (o.DroppedOutOfOrder? ==> o.seqNo == k && o.high == r.beLast && !SeqAfter(k, r.beLast))
  {
  }
}
