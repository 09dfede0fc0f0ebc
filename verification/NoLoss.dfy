/** No guaranteed message is lost, and a backlog of any size drains, over every run. */
module NoLoss {
  import opened Common
  import opened SerialNumbers
  import opened Reliable
  import opened Delivery
  import opened Seqs

  // ---------------------------------------------------------------------------
  // Safety of the cumulative ack
  // ---------------------------------------------------------------------------

  /** Every ack in flight covers only released messages. */
  ghost predicate AcksCoverReleased(s: System) {
    forall a :: a in s.acks ==> a <= AckValue(s.rx)
  }

  ghost predicate Accounted(s: System, k: int) {
    k <= AckValue(s.rx) || k in s.tx.pending || k in s.evicted
  }

  /** Each guaranteed message is released, still pending, or reported as evicted by `send`. */
  ghost predicate NothingLost(s: System) {
    forall k :: 1 <= k <= |s.gsent| ==> Accounted(s, k)
  }

  ghost predicate PendingOnWire(s: System) {
    && |s.tx.pending| <= PENDING_CAP
    && (forall k :: k in s.tx.pending ==> OnWire(k, s.tx.pending[k]) in s.data)
  }

  ghost predicate LossInv(s: System) {
    OrderInv(s) && AcksCoverReleased(s) && NothingLost(s) && PendingOnWire(s)
  }

  lemma RoomForOne(pending: map<u32, Pending>)
    requires |pending| <= PENDING_CAP
    ensures |MakeRoom(pending)| < PENDING_CAP
    ensures forall k :: k in MakeRoom(pending) ==> k in pending && MakeRoom(pending)[k] == pending[k]
    ensures forall k :: k in pending && k !in MakeRoom(pending) ==>
              EvictedBySend(pending).Some? && EvictedBySend(pending).value.0 == k
  {
    if |pending| >= PENDING_CAP {
      assert pending.Keys == MakeRoom(pending).Keys + {Min(pending.Keys)};
    }
  }

  lemma SendKeepsPending(s: System, m: Msg, now: u64)
    requires PendingOnWire(s)
    ensures PendingOnWire(SendEvent(s, m, now))
  {
    RoomForOne(s.tx.pending);
    var t := SendEvent(s, m, now);
    if Guaranteed(m.options) {
      assert t.tx.pending.Keys == MakeRoom(s.tx.pending).Keys + {s.tx.nextG};
    }
  }

  lemma SendKeepsAccounts(s: System, m: Msg, now: u64)
    requires LossInv(s) && |SendEvent(s, m, now).gsent| <= 0x8000_0000
    ensures NothingLost(SendEvent(s, m, now))
  {
    var t := SendEvent(s, m, now);
    RoomForOne(s.tx.pending);
    forall k | 1 <= k <= |t.gsent| ensures Accounted(t, k) {
      if k <= |s.gsent| {
        assert Accounted(s, k);
      } else {
        assert k == s.tx.nextG;
      }
    }
  }

  /** An ack clears only numbers it covers, while every number is at most 2^31. */
  lemma AckClearsCovered(pending: map<u32, Pending>, a: u32, k: u32)
    requires 1 <= a <= 0x8000_0000 && k in pending && 1 <= k <= 0x8000_0000
    requires !Survives(pending, a, k)
    ensures k <= a
  {
    assert SeqLe(k, a);
  }

  lemma AckKeepsPending(s: System, a: u32)
    requires PendingOnWire(s)
    ensures PendingOnWire(s.(tx := AckStep(s.tx, a)))
  {
    SubsetSize(AckStep(s.tx, a).pending.Keys, s.tx.pending.Keys);
  }

  lemma AckKeepsAccounts(s: System, a: u32, k: int)
    requires 1 <= k <= |s.gsent| <= 0x8000_0000 && 1 <= a <= AckValue(s.rx) <= |s.gsent|
    requires Accounted(s, k)
    ensures Accounted(s.(tx := AckStep(s.tx, a)), k)
  {
    if k in s.tx.pending && !Survives(s.tx.pending, a, k) {
      AckClearsCovered(s.tx.pending, a, k);
    }
  }

  lemma ServiceKeepsPending(s: System, now: u64)
    requires PendingOnWire(s)
    ensures PendingOnWire(Apply(s, Service(now)))
  {
    var t := Apply(s, Service(now));
    assert t.tx.pending.Keys == s.tx.pending.Keys;
    forall k | k in t.tx.pending ensures OnWire(k, t.tx.pending[k]) in t.data {
      assert OnWire(k, t.tx.pending[k]) == OnWire(k, s.tx.pending[k]);
    }
  }

  lemma StepKeepsAccounts(s: System, e: Event)
    requires LossInv(s) && |Apply(s, e).gsent| <= 0x8000_0000
    ensures LossInv(Apply(s, e))
  {
    StepKeepsOrder(s, e);
    StepAcks(s, e);
    AcksStayCovered(s, Apply(s, e));
    StepPending(s, e);
  }

  /** The only new ack is the receiver's current one. */
  lemma StepAcks(s: System, e: Event)
    ensures Apply(s, e).acks <= s.acks + {AckValue(Apply(s, e).rx)}
  {
  }

  lemma StepPending(s: System, e: Event)
    requires LossInv(s) && |Apply(s, e).gsent| <= 0x8000_0000 && AckValue(s.rx) <= AckValue(Apply(s, e).rx)
    ensures NothingLost(Apply(s, e)) && PendingOnWire(Apply(s, e))
  {
    match e
    case Send(m, now) =>
      SendKeepsPending(s, m, now);
      SendKeepsAccounts(s, m, now);
    case Service(now) =>
      ServiceKeepsPending(s, now);
      SameAccounts(s, Apply(s, e));
    case AckArrives(a) =>
      if a in s.acks && a != 0 { AckArrivalKeeps(s, a); }
    case _ =>
      SameAccounts(s, Apply(s, e));
  }

  lemma AcksStayCovered(s: System, t: System)
    requires AcksCoverReleased(s) && AckValue(s.rx) <= AckValue(t.rx) && t.acks <= s.acks + {AckValue(t.rx)}
    ensures AcksCoverReleased(t)
  {
  }

  /** Steps that keep the sender's numbers and take nothing back. */
  lemma SameAccounts(s: System, t: System)
    requires NothingLost(s) && t.gsent == s.gsent && t.evicted == s.evicted && t.tx.pending.Keys == s.tx.pending.Keys
    requires AckValue(s.rx) <= AckValue(t.rx)
    ensures NothingLost(t)
  {
    forall k | 1 <= k <= |t.gsent| ensures Accounted(t, k) {
      assert Accounted(s, k);
    }
  }

  lemma AckArrivalKeeps(s: System, a: u32)
    requires LossInv(s) && |s.gsent| <= 0x8000_0000 && a in s.acks && a != 0
    ensures var t := s.(tx := AckStep(s.tx, a)); PendingOnWire(t) && NothingLost(t)
  {
    AckKeepsPending(s, a);
    forall k | 1 <= k <= |s.gsent| ensures Accounted(s.(tx := AckStep(s.tx, a)), k) {
      AckKeepsAccounts(s, a, k);
    }
  }

  lemma {:induction false} RunKeepsAccounts(events: seq<Event>)
    requires |Run(events).gsent| <= 0x8000_0000
    ensures LossInv(Run(events))
    decreases |events|
  {
    if events != [] {
      var before := events[..|events| - 1];
      HistoryGrows(Run(before), events[|events| - 1]);
      RunKeepsAccounts(before);
      StepKeepsAccounts(Run(before), events[|events| - 1]);
    }
  }

  /** No loss, for every run of at most 2^31 guaranteed sends. */
  lemma NoGuaranteedMessageLost(events: seq<Event>)
    requires |Run(events).gsent| <= 0x8000_0000
    ensures AcksCoverReleased(Run(events)) && NothingLost(Run(events))
  {
    RunKeepsAccounts(events);
  }
}
