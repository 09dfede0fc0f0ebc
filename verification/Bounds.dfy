/** How long the delivery laws hold. Sequence numbers are 32-bit and number 0 is reserved, so each
    law has a largest number of guaranteed sends it survives; each is exhibited exactly, by a run
    one send longer that breaks the law. */
module Bounds {
  import opened Common
  import opened SerialNumbers
  import opened Reliable
  import opened Delivery
  import opened NoLoss
  import opened Progress
  import opened Spaces
  import opened Seqs

  /** A one-byte guaranteed message, sequential or not. */
  function Sample(ordered: bool): Msg {
    Msg([0], if ordered then 3 else 1)
  }

  lemma SampleKinds()
    ensures InOrder(Sample(true)) && IsUnordered(Sample(false))
  {
  }

  /** Send the n-th message, deliver it, and deliver its ack. */
  function Exchange(n: u32, ordered: bool): seq<Event> {
    [Send(Sample(ordered), 0), Arrive(Packet(n, Sample(ordered)), 0), Piggyback, AckArrives(n)]
  }

  function Exchanges(n: u32, ordered: bool): seq<Event> {
    if n == 0 then [] else Exchanges(n - 1, ordered) + Exchange(n, ordered)
  }

  ghost predicate AllAre(ms: seq<Msg>, n: nat, m: Msg) {
    |ms| == n && forall x :: x in ms ==> x == m
  }

  /** Everything sent so far was delivered and acked, and every packet and ack is still on the wire. */
  ghost predicate Smooth(s: System, n: u32, ordered: bool) {
    && s.tx == SenderState(WrapInc(n), 1, map[])
    && CoreOf(s.rx) == Core(WrapInc(n), map[])
    && AllAre(s.gsent, n, Sample(ordered)) && AllAre(s.released, n, Sample(ordered))
    && s.evicted == {} && !s.markerLost
    && (forall k :: 1 <= k <= n ==> Packet(k, Sample(ordered)) in s.data && k in s.acks && k in s.taken)
  }

  lemma NextIsNew(n: u32)
    requires n >= 1
    ensures !IsDuplicate(Core(n, map[]), n)
  {
  }

  lemma DrainMarker(n: u32, m: Msg)
    requires m.payload == []
    ensures Drain(map[n := m], n) == Drained(map[], WrapInc(n), [])
  {
    var buf: Buffer := map[n := m];
    assert buf - {n} == map[];
    assert Drain(buf - {n}, WrapInc(n)) == Drained(map[], WrapInc(n), []);
  }

  lemma AcceptAtNext(n: u32, ordered: bool)
    requires n >= 1
    ensures Accept(Core(n, map[]), n, Sample(ordered)) ==
            Accepted(Core(WrapInc(n), map[]), Delivered([Sample(ordered)]), None)
  {
    var m := Sample(ordered);
    NextIsNew(n);
    if ordered {
      assert Sequential(m.options);
      assert Payloads(m) + [] == [m];
    } else {
      assert !Sequential(m.options);
      var marker := Msg([], m.options);
      var none: Buffer := map[];
      assert OooRoom(none) == none && none[n := marker] == map[n := marker];
      DrainMarker(n, marker);
      assert [m] + [] == [m];
    }
  }

  lemma AckEmpties(p: Pending, n: u32, nextG: u32)
    ensures AckStep(SenderState(nextG, 1, map[n := p]), n) == SenderState(nextG, 1, map[])
  {
  }

  lemma SendSample(s: System, n: u32, ordered: bool)
    requires n >= 1 && s.tx == SenderState(n, 1, map[])
    ensures var m := Sample(ordered);
            SendEvent(s, m, 0) == s.(
              tx := SenderState(WrapInc(n), 1, map[n := FreshPending(m.payload, m.options, 0)]),
              data := s.data + {Packet(n, m)}, gsent := s.gsent + [m])
  {
    var m := Sample(ordered);
    assert Guaranteed(m.options);
    var none: map<u32, Pending> := map[];
    assert MakeRoom(none) == none;
    assert s.data + {Packet(n, Msg(m.payload, m.options))} == s.data + {Packet(n, m)};
  }

  lemma ReceiveSample(s: System, n: u32, ordered: bool)
    requires n >= 1 && CoreOf(s.rx) == Core(n, map[])
    ensures var m := Sample(ordered);
            var t := Receive(s, Packet(n, m), 0);
            && t.tx == s.tx && t.data == s.data && t.acks == s.acks && t.evicted == s.evicted && t.gsent == s.gsent
            && CoreOf(t.rx) == Core(WrapInc(n), map[])
            && t.released == s.released + [m] && t.taken == s.taken + {n} && t.markerLost == s.markerLost
  {
    var m := Sample(ordered);
    assert Guaranteed(m.options);
    AcceptAtNext(n, ordered);
    ReceiveTakes(s, Packet(n, m), 0);
  }

  lemma FourEvents(s: System, a: Event, b: Event, c: Event, d: Event)
    ensures RunFrom(s, [a, b, c, d]) == Apply(Apply(Apply(Apply(s, a), b), c), d)
  {
    RunFromThree(s, a, b, c);
    FoldSnoc(Apply, s, [a, b, c], d);
    assert [a, b, c, d] == [a, b, c] + [d];
  }

  lemma AckSample(s: System, p: Pending, n: u32)
    requires n >= 1 && s.tx == SenderState(WrapInc(n), 1, map[n := p]) && s.rx.gNext == WrapInc(n)
    ensures var t := Apply(Apply(s, Piggyback), AckArrives(n));
            && t == s.(tx := SenderState(WrapInc(n), 1, map[]), rx := s.rx.(ackDueAt := None), acks := s.acks + {n})
            && CoreOf(t.rx) == CoreOf(s.rx)
  {
    assert AckValue(s.rx) == n;
    AckEmpties(p, n, WrapInc(n));
  }

  /** The effect of one whole exchange. */
  ghost predicate Exchanged(s: System, t: System, n: u32, m: Msg) {
    && t.tx == SenderState(WrapInc(n), 1, map[])
    && CoreOf(t.rx) == Core(WrapInc(n), map[])
    && t.gsent == s.gsent + [m] && t.released == s.released + [m]
    && t.evicted == s.evicted && t.markerLost == s.markerLost
    && t.data == s.data + {Packet(n, m)} && t.acks == s.acks + {n} && t.taken == s.taken + {n}
  }

  lemma ExchangeEffect(s: System, n: u32, ordered: bool)
    requires n >= 1 && s.tx == SenderState(n, 1, map[]) && CoreOf(s.rx) == Core(n, map[])
    ensures Exchanged(s, RunFrom(s, Exchange(n, ordered)), n, Sample(ordered))
  {
    var m := Sample(ordered);
    var p := Packet(n, m);
    FourEvents(s, Send(m, 0), Arrive(p, 0), Piggyback, AckArrives(n));
    SendSample(s, n, ordered);
    var s1 := SendEvent(s, m, 0);
    ReceiveSample(s1, n, ordered);
    AckSample(Receive(s1, p, 0), FreshPending(m.payload, m.options, 0), n);
  }

  lemma ExchangeStep(s: System, t: System, n: u32, ordered: bool)
    requires n >= 1 && Smooth(s, n - 1, ordered) && Exchanged(s, t, n, Sample(ordered))
    ensures Smooth(t, n, ordered)
  {
  }

  lemma {:induction false} LongRun(n: u32, ordered: bool)
    ensures Smooth(Run(Exchanges(n, ordered)), n, ordered)
  {
    if n > 0 {
      LongRun(n - 1, ordered);
      var s := Run(Exchanges(n - 1, ordered));
      ExchangeEffect(s, n, ordered);
      ExchangeStep(s, RunFrom(s, Exchange(n, ordered)), n, ordered);
      FoldConcat(Apply, INIT, Exchanges(n - 1, ordered), Exchange(n, ordered));
    }
  }

  lemma TwoMore(events: seq<Event>, a: Event, b: Event)
    ensures Run(events + [a, b]) == Apply(Apply(Run(events), a), b)
  {
    FoldSnoc(Apply, INIT, events, a);
    FoldSnoc(Apply, INIT, events + [a], b);
    assert events + [a, b] == (events + [a]) + [b];
  }

  // ---------------------------------------------------------------------------
  // No loss: exactly 2^31 sends
  // ---------------------------------------------------------------------------

  /** After n = 2^31 acked sends the first ack, still on the wire, clears message n + 1. */
  lemma StaleAckLoses(n: u32) returns (events: seq<Event>)
    requires n == 0x8000_0000
    ensures |Run(events).gsent| == n + 1 && !NothingLost(Run(events))
  {
    var smooth, m := Exchanges(n, true), Sample(true);
    LongRun(n, true);
    events := smooth + [Send(m, 0), AckArrives(1)];
    TwoMore(smooth, Send(m, 0), AckArrives(1));
    StaleAckEffect(Run(smooth), n, m);
    assert !Accounted(Run(events), n + 1);
  }

  lemma StaleAckEffect(s: System, n: u32, m: Msg)
    requires n == 0x8000_0000 && s.tx == SenderState(n + 1, 1, map[]) && 1 in s.acks && m == Sample(true)
    ensures var t := Apply(Apply(s, Send(m, 0)), AckArrives(1));
            t.tx.pending == map[] && t.gsent == s.gsent + [m] && t.evicted == s.evicted && t.rx == s.rx
  {
    SendSample(s, n + 1, true);
    StaleClears(FreshPending(m.payload, m.options, 0), WrapInc(n + 1));
  }

  lemma StaleClears(p: Pending, nextG: u32)
    ensures AckStep(SenderState(nextG, 1, map[0x8000_0001 := p]), 1).pending == map[]
  {
    assert SeqLe(0x8000_0001, 1);
  }

  /** No-loss holds over every run of at most n guaranteed sends exactly when n <= 2^31. */
  lemma NoLossExact(n: nat)
    ensures (forall events :: |Run(events).gsent| <= n ==> NothingLost(Run(events))) <==> n <= 0x8000_0000
  {
    if n <= 0x8000_0000 {
      forall events | |Run(events).gsent| <= n ensures NothingLost(Run(events)) {
        NoGuaranteedMessageLost(events);
      }
    } else {
      var events := StaleAckLoses(0x8000_0000);
      assert !NothingLost(Run(events));
    }
  }

  // ---------------------------------------------------------------------------
  // Nonsequential exactly-once: exactly 2^31 + 1 sends
  // ---------------------------------------------------------------------------

  /** While no duplicate marker was evicted, the releases name each accepted number once. */
  ghost predicate ReleasedOnce(s: System) {
    !s.markerLost ==> Named(s.gsent, s.taken) == multiset(Unordered(s.released))
  }

  lemma {:induction false} NamedSize(gsent: seq<Msg>, nums: set<u32>)
    ensures |Named(gsent, nums)| <= |gsent|
  {
    if gsent != [] {
      NamedSize(gsent[..|gsent| - 1], nums);
    }
  }

  /** After n = 2^31 + 2 acked sends a copy of the first message looks new and is released again. */
  lemma OldCopyReleasedAgain(n: u32) returns (events: seq<Event>)
    requires n == 0x8000_0002
    ensures |Run(events).gsent| == n && !ReleasedOnce(Run(events))
  {
    var smooth, m := Exchanges(n, false), Sample(false);
    LongRun(n, false);
    events := smooth + [Arrive(Packet(1, m), 0)];
    FoldSnoc(Apply, INIT, smooth, Arrive(Packet(1, m), 0));
    assert Packet(1, m) in Run(smooth).data;
    SampleKinds();
    TooMany(Run(smooth), m);
  }

  lemma TooMany(s: System, m: Msg)
    requires CoreOf(s.rx) == Core(0x8000_0003, map[]) && IsUnordered(m) && !s.markerLost
    requires AllAre(s.gsent, 0x8000_0002, m) && AllAre(s.released, 0x8000_0002, m)
    ensures !ReleasedOnce(Receive(s, Packet(1, m), 0)) && Receive(s, Packet(1, m), 0).gsent == s.gsent
  {
    var t := Receive(s, Packet(1, m), 0);
    ReceiveTakes(s, Packet(1, m), 0);
    OldLooksNew(m);
    OldReleasesOnly(m);
    assert t.released == s.released + [m];
    FilterAll(IsUnordered, t.released);
    NamedSize(t.gsent, t.taken);
    assert |multiset(t.released)| == |t.released|;
  }

  lemma OldLooksNew(m: Msg)
    requires !Sequential(m.options)
    ensures Accept(Core(0x8000_0003, map[]), 1, m) == AcceptUnordered(Core(0x8000_0003, map[]), 1, m)
  {
    assert SeqAfter(1, 0x8000_0002);
  }

  lemma OldReleasesOnly(m: Msg)
    ensures AcceptUnordered(Core(0x8000_0003, map[]), 1, m).outcome == Delivered([m])
  {
    var none: Buffer := map[];
    assert OooRoom(none) == none;
    assert Drain(none[1 := Msg([], m.options)], 0x8000_0003).out == [];
    assert [m] + [] == [m];
  }

  /** Exactly-once release holds over every run of at most n guaranteed sends exactly when
      n <= 2^31 + 1. */
  lemma ReleasedOnceExact(n: nat)
    ensures (forall events :: |Run(events).gsent| <= n ==> ReleasedOnce(Run(events))) <==> n <= 0x8000_0001
  {
    if n <= 0x8000_0001 {
      forall events | |Run(events).gsent| <= n ensures ReleasedOnce(Run(events)) {
        UnorderedDelivery(events);
      }
    } else {
      var events := OldCopyReleasedAgain(0x8000_0002);
      assert !ReleasedOnce(Run(events));
    }
  }

  // ---------------------------------------------------------------------------
  // Order: exactly 2^32 - 1 sends
  // ---------------------------------------------------------------------------

  /** The 2^32-nd guaranteed send gets the reserved number 0 and bypasses the ordering machinery. */
  lemma NumberZeroBypasses(n: u32) returns (events: seq<Event>)
    requires n == 0xFFFF_FFFF
    ensures |Run(events).gsent| == n + 1 && !DeliveredInOrder(Run(events))
  {
    var smooth, m := Exchanges(n, true), Sample(true);
    LongRun(n, true);
    events := smooth + [Send(m, 0), Arrive(Packet(0, m), 0)];
    TwoMore(smooth, Send(m, 0), Arrive(Packet(0, m), 0));
    SampleKinds();
    ZeroReleases(Run(smooth), m);
    OneTooMany(Run(events), n, m);
  }

  lemma ZeroReleases(s: System, m: Msg)
    requires s.tx.nextG == 0 && Guaranteed(m.options)
    ensures var t := Apply(Apply(s, Send(m, 0)), Arrive(Packet(0, m), 0));
            t.released == s.released + [m] && t.gsent == s.gsent + [m] && t.rx.gNext == s.rx.gNext
  {
    assert Packet(0, m) == Packet(0, Msg(m.payload, m.options));
  }

  lemma OneTooMany(t: System, n: u32, m: Msg)
    requires InOrder(m) && AllAre(t.released, n + 1, m) && AllAre(t.gsent, n + 1, m) && AckValue(t.rx) == n
    ensures !DeliveredInOrder(t)
  {
    FilterAll(InOrder, t.released);
    forall x | x in t.gsent[..n] ensures InOrder(x) {
      assert x in t.gsent;
    }
    FilterAll(InOrder, t.gsent[..n]);
  }

  /** In-order delivery holds over every run of at most n guaranteed sends exactly when
      n <= 2^32 - 1. */
  lemma InOrderExact(n: nat)
    ensures (forall events :: |Run(events).gsent| <= n ==> DeliveredInOrder(Run(events))) <==> n <= 0xFFFF_FFFF
  {
    if n <= 0xFFFF_FFFF {
      forall events | |Run(events).gsent| <= n ensures DeliveredInOrder(Run(events)) {
        InOrderDelivery(events);
      }
    } else {
      var events := NumberZeroBypasses(0xFFFF_FFFF);
      assert !DeliveredInOrder(Run(events));
    }
  }

  // ---------------------------------------------------------------------------
  // Best-effort sequential: exactly 2^31 + 1 sends
  // ---------------------------------------------------------------------------

  const UPDATE: Msg := Msg([0], 2)

  lemma UpdateKind()
    ensures IsBestSequential(UPDATE)
  {
  }

  function Updates(n: u32): seq<Event> {
    if n == 0 then [] else Updates(n - 1) + [Send(UPDATE, 0)]
  }

  /** n updates sent and on the wire, none of them arrived. */
  ghost predicate Sent(s: System, n: u32) {
    && s.tx.nextB == WrapInc(n) && s.rx == NEW_RECEIVER && |s.bsent| == n && s.beTags == []
    && forall k :: 1 <= k <= n ==> Packet(k, UPDATE) in s.data
  }

  lemma SendUpdate(s: System, n: u32)
    requires n >= 1 && Sent(s, n - 1)
    ensures Sent(SendEvent(s, UPDATE, 0), n)
  {
    UpdateKind();
    assert s.tx.nextB == n;
  }

  lemma {:induction false} UpdatesSent(n: u32)
    ensures Sent(Run(Updates(n)), n)
  {
    if n > 0 {
      UpdatesSent(n - 1);
      FoldSnoc(Apply, INIT, Updates(n - 1), Send(UPDATE, 0));
      SendUpdate(Run(Updates(n - 1)), n);
    }
  }

  lemma FirstLooksNewer(n: u32)
    requires n == 0x8000_0002
    ensures SeqAfter(1, n)
  {
  }

  lemma ArriveUpdate(s: System, k: u32)
    requires k >= 1 && Packet(k, UPDATE) in s.data && (s.rx.beSeen ==> SeqAfter(k, s.rx.beLast))
    ensures var t := Apply(s, Arrive(Packet(k, UPDATE), 0));
            && t.beTags == s.beTags + [k] && t.rx.beSeen && t.rx.beLast == k && t.data == s.data && t.bsent == s.bsent
  {
    UpdateKind();
  }

  /** After n = 2^31 + 2 sends the first update looks newer than the last one, and follows it. */
  lemma OldUpdateFollows(n: u32) returns (events: seq<Event>)
    requires n == 0x8000_0002
    ensures |Run(events).bsent| == n && Run(events).beTags == [n, 1]
  {
    var last, first := Arrive(Packet(n, UPDATE), 0), Arrive(Packet(1, UPDATE), 0);
    UpdatesSent(n);
    events := Updates(n) + [last, first];
    TwoMore(Updates(n), last, first);
    ArriveUpdate(Run(Updates(n)), n);
    FirstLooksNewer(n);
    ArriveUpdate(Apply(Run(Updates(n)), last), 1);
  }

  ghost predicate NeverBack(s: System) {
    Forward(s.beTags, Filter(IsBestSequential, s.released), s.bsent)
  }

  /** Best-effort sequential delivery only moves forward over every run of at most n such sends exactly
      when n <= 2^31 + 1. */
  lemma ForwardExact(n: nat)
    ensures (forall events :: |Run(events).bsent| <= n ==> NeverBack(Run(events))) <==> n <= 0x8000_0001
  {
    if n <= 0x8000_0001 {
      forall events | |Run(events).bsent| <= n ensures NeverBack(Run(events)) {
        BestEffortForward(events);
      }
    } else {
      var events := OldUpdateFollows(0x8000_0002);
      assert Run(events).beTags[0] > Run(events).beTags[1];
    }
  }

  /** Over every run of at most n best-effort sequential sends, an arrival is handed out exactly when it
      was sent later than everything handed out before. */
  ghost predicate HandsOutLater(n: nat) {
    forall events, p, now: u64 |
      |Run(events).bsent| <= n && p in Run(events).data && IsBestSequential(p.msg) :: ReleasesLater(Run(events), p, now)
  }

  /** After n = 2^31 + 1 sends and the arrival of the first, the last one is taken for an older one. */
  lemma LastUpdateDropped(n: u32) returns (events: seq<Event>)
    requires n == 0x8000_0001
    ensures var s, p := Run(events), Packet(n, UPDATE);
            |s.bsent| == n && p in s.data && IsBestSequential(UPDATE) && !ReleasesLater(s, p, 0)
  {
    var first := Arrive(Packet(1, UPDATE), 0);
    UpdatesSent(n);
    UpdateKind();
    events := Updates(n) + [first];
    FoldSnoc(Apply, INIT, Updates(n), first);
    ArriveUpdate(Run(Updates(n)), 1);
    UpdateIgnored(Run(events), n);
    assert LaterThanAll(n, [1]);
  }

  lemma UpdateIgnored(s: System, k: u32)
    requires k == 0x8000_0001 && s.rx.beSeen && s.rx.beLast == 1 && Packet(k, UPDATE) in s.data
    ensures Apply(s, Arrive(Packet(k, UPDATE), 0)).released == s.released
  {
    UpdateKind();
    assert !SeqAfter(k, 1);
    assert s.released + [] == s.released;
  }

  lemma SequentialExact(n: nat)
    ensures HandsOutLater(n) <==> n <= 0x8000_0000
  {
    if n <= 0x8000_0000 {
      forall events, p, now: u64 | |Run(events).bsent| <= n && p in Run(events).data && IsBestSequential(p.msg)
        ensures ReleasesLater(Run(events), p, now)
      {
        SequentialReleased(events, p, now);
      }
    } else {
      var events := LastUpdateDropped(0x8000_0001);
      assert !ReleasesLater(Run(events), Packet(0x8000_0001, UPDATE), 0);
    }
  }
}
