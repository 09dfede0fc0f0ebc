/** Retransmission and forced-ack timing of one pairing, over arbitrary service times. */
module Timers {
  import opened Common
  import opened SerialNumbers
  import opened Reliable
  import opened Delivery
  import opened Seqs

  // ---------------------------------------------------------------------------
  // Back-off
  // ---------------------------------------------------------------------------

  function Pow2(r: nat): nat {
    if r == 0 then 1 else 2 * Pow2(r - 1)
  }

  /** min(60 * 2^r, 500) */
  function Backoff(r: nat): nat {
    if 60 * Pow2(r) < 500 then 60 * Pow2(r) else 500
  }

  lemma BackoffDoubles(r: nat)
    ensures Backoff(r) <= 500
    ensures Backoff(r + 1) == if 2 * Backoff(r) < 500 then 2 * Backoff(r) else 500
  {
  }

  /** The timeout is a function of the retry count, and only a spent budget gives up. */
  predicate OnBackoff(p: Pending) {
    && p.rtoMs == Backoff(p.retries)
    && p.retries <= MAX_RETRIES
    && (p.gaveUp ==> p.retries == MAX_RETRIES)
  }

  lemma ServedOnBackoff(p: Pending, now: u64)
    requires OnBackoff(p)
    ensures OnBackoff(Served(p, now))
  {
    BackoffDoubles(p.retries);
  }

  /** Every pending message of every run is on the back-off curve. */
  lemma {:induction false} RunOnBackoff(events: seq<Event>)
    ensures forall k :: k in Run(events).tx.pending ==> OnBackoff(Run(events).tx.pending[k])
    decreases |events|
  {
    if events != [] {
      var before, e := Run(events[..|events| - 1]), events[|events| - 1];
      RunOnBackoff(events[..|events| - 1]);
      var t := Apply(before, e);
      forall k | k in t.tx.pending ensures OnBackoff(t.tx.pending[k]) {
        if e.Service? {
          ServedOnBackoff(before.tx.pending[k], e.now);
        } else if e.Send? && k !in before.tx.pending {
          assert t.tx.pending[k] == FreshPending(e.msg.payload, e.msg.options, e.now);
        }
      }
    }
  }

  // ---------------------------------------------------------------------------
  // One message served at any list of times
  // ---------------------------------------------------------------------------

  /** Everything `due` ever reports for message `k`. */
  function History(k: u32, p: Pending, times: seq<u64>): seq<Retransmit>
    decreases |times|
  {
    if times == [] then [] else Reports(k, p, times[0]) + History(k, Served(p, times[0]), times[1..])
  }

  /** The i-th report of a message that entered with `r` retries behind it. */
  predicate IthReport(h: Retransmit, k: u32, p: Pending, i: nat) {
    if p.retries + i < MAX_RETRIES
    then h == Retransmit(k, p.payload, p.options, p.retries + i + 1, p.retries + i == 0, false)
    else h == Retransmit(k, [], p.options, MAX_RETRIES, false, true)
  }

  /** Whatever the service times: retransmissions numbered in order up to the budget, then at most
      one give-up report, and nothing after it. */
  lemma {:induction false} RetryBudget(k: u32, p: Pending, times: seq<u64>)
    requires OnBackoff(p)
    ensures |History(k, p, times)| + p.retries <= MAX_RETRIES + if p.gaveUp then 0 else 1
    ensures forall i :: 0 <= i < |History(k, p, times)| ==> IthReport(History(k, p, times)[i], k, p, i)
    decreases |times|
  {
    if times != [] {
      var now, p' := times[0], Served(p, times[0]);
      ServedOnBackoff(p, now);
      RetryBudget(k, p', times[1..]);
      var rest, h := History(k, p', times[1..]), History(k, p, times);
      if IsDue(p, now) {
        assert h == [Report(k, p)] + rest;
        forall i | 0 <= i < |h| ensures IthReport(h[i], k, p, i) {
          if i > 0 {
            assert h[i] == rest[i - 1] && IthReport(rest[i - 1], k, p', i - 1);
          }
        }
      } else {
        assert h == [] + rest == rest;
      }
    }
  }

  /** Milliseconds after the first send at which the r-th retransmission is due. */
  function Offset(r: nat): nat {
    if r == 0 then 0 else Offset(r - 1) + Backoff(r - 1)
  }

  /** Served exactly on its deadlines `r` times. */
  function OnTime(p: Pending, r: nat): Pending {
    if r == 0 then p else var q := OnTime(p, r - 1); Served(q, Deadline(q))
  }

  lemma OffsetTable()
    ensures Offset(1) == 60 && Offset(2) == 180 && Offset(3) == 420 && Offset(4) == 900
    ensures Offset(5) == 1400 && Offset(6) == 1900 && Offset(7) == 2400 && Offset(8) == 2900 && Offset(9) == 3400
  {
  }

  /** `q` is a fresh message of time `start` after `r` retransmissions on its deadlines. */
  predicate OnSchedule(q: Pending, start: u64, r: nat) {
    q.retries == r && !q.gaveUp && q.rtoMs == Backoff(r) && q.lastSentMs == start + Offset(r)
  }

  lemma OnTimeStep(q: Pending, start: u64, r: nat)
    requires OnSchedule(q, start, r) && start + Offset(r + 1) <= U64_MAX
    ensures Deadline(q) == start + Offset(r + 1) && IsDue(q, Deadline(q))
    ensures r < MAX_RETRIES ==> OnSchedule(Served(q, Deadline(q)), start, r + 1)
    ensures r == MAX_RETRIES ==> Served(q, Deadline(q)) == q.(gaveUp := true)
  {
    BackoffDoubles(r);
  }

  /** A message served on its deadlines is retransmitted for the r-th time at start + Offset(r) for
      r = 1..8, and gives up at start + Offset(9) = start + 3400 (see `OffsetTable`). */
  lemma DeadlineSchedule(payload: Bytes, options: u32, start: u64, r: nat)
    requires start + 3400 <= U64_MAX && r <= MAX_RETRIES
    ensures var q := OnTime(FreshPending(payload, options, start), r);
            && OnSchedule(q, start, r)
            && Deadline(q) == start + Offset(r + 1) && IsDue(q, Deadline(q))
            && (r == MAX_RETRIES ==> Served(q, Deadline(q)) == q.(gaveUp := true))
  {
    var p := FreshPending(payload, options, start);
    assert OnSchedule(p, start, 0);
    OnTimeSchedule(p, start, r);
    OffsetUpTo(r + 1);
    OnTimeStep(OnTime(p, r), start, r);
  }

  lemma {:induction false} OnTimeSchedule(p: Pending, start: u64, r: nat)
    requires start + 3400 <= U64_MAX && r <= MAX_RETRIES && OnSchedule(p, start, 0)
    ensures OnSchedule(OnTime(p, r), start, r)
  {
    if r > 0 {
      OnTimeSchedule(p, start, r - 1);
      OffsetUpTo(r);
      OnTimeStep(OnTime(p, r - 1), start, r - 1);
    }
  }

  lemma {:induction false} OffsetUpTo(r: nat)
    requires r <= 9
    ensures Offset(r) <= 3400
    decreases 9 - r
  {
    if r == 9 {
      OffsetTable();
    } else {
      OffsetUpTo(r + 1);
    }
  }

  // ---------------------------------------------------------------------------
  // Deadlines and `due` agree
  // ---------------------------------------------------------------------------

  ghost predicate NoSaturation(pending: map<u32, Pending>) {
    forall k :: k in pending ==> pending[k].lastSentMs + pending[k].rtoMs <= U64_MAX
  }

  /** Without saturation, `due` has something to do exactly when the next deadline has passed. */
  lemma DueExactlyAtDeadline(pending: map<u32, Pending>, now: u64, r: Option<u64>, out: seq<Retransmit>)
    requires NoSaturation(pending) && IsNextRto(pending, r) && IsDueReport(pending, now, out)
    requires forall k :: k in pending ==> pending[k].rtoMs > 0
    ensures out != [] <==> r.Some? && r.value <= now
  {
    if out != [] {
      assert IsDue(pending[out[0].seqNo], now);
      assert r.Some?;
    }
    if r.Some? && r.value <= now {
      var k :| k in pending && !pending[k].gaveUp && Deadline(pending[k]) == r.value;
      assert Report(k, pending[k]) in out;
    }
  }

  /** After serving at `now`, the next deadline is later than `now`. */
  lemma DueMovesDeadline(s: SenderState, now: u64, r: Option<u64>)
    requires forall k :: k in s.pending ==> OnBackoff(s.pending[k])
    requires now + 500 <= U64_MAX && NoSaturation(s.pending)
    requires IsNextRto(DueStep(s, now).pending, r)
    ensures r.Some? ==> r.value > now
  {
  }

  // ---------------------------------------------------------------------------
  // The forced ack
  // ---------------------------------------------------------------------------

  datatype RxEvent = Message(packet: Packet, now: u64) | Service(now: u64)

  function RxStep(r: ReceiverState, e: RxEvent): ReceiverState {
    match e
    case Message(p, now) => OnMessageStep(r, p.seqNo, p.msg, now).0
    case Service(now) => ForcedAckStep(r, now).0
  }

  predicate TooEarly(e: RxEvent, due: nat) {
    e.Service? ==> e.now < due
  }

  lemma DebtStands(r: ReceiverState, e: RxEvent, t: u64)
    requires r.ackDueAt == Some(t) && TooEarly(e, t + ACK_DELAY_MS)
    ensures RxStep(r, e).ackDueAt == Some(t)
  {
  }

  /** A timely-acknowledged guaranteed message at `t` owes an ack from then on: through any traffic
      and any services before t + 30 ms the debt stands, and the first service from t + 30 ms on
      emits the cumulative ack. */
  lemma {:induction false} ForcedAckDeadline(r: ReceiverState, p: Packet, t: u64, events: seq<RxEvent>, service: u64)
    requires r.ackDueAt.None? && p.seqNo != 0 && Guaranteed(p.msg.options) && !LazyAck(p.msg.options)
    requires forall e :: e in events ==> TooEarly(e, t + ACK_DELAY_MS)
    ensures var r1 := Fold(RxStep, OnMessageStep(r, p.seqNo, p.msg, t).0, events);
            && r1.ackDueAt == Some(t)
            && ForcedAckStep(r1, service).1 ==
               if service >= t + ACK_DELAY_MS then Some(AckValue(r1)) else None
    decreases |events|
  {
    if events != [] {
      var n := |events| - 1;
      assert forall e :: e in events[..n] ==> e in events;
      ForcedAckDeadline(r, p, t, events[..n], service);
      assert events[n] in events;
      DebtStands(Fold(RxStep, OnMessageStep(r, p.seqNo, p.msg, t).0, events[..n]), events[n], t);
    }
  }
}
