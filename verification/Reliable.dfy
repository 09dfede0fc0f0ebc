/** Sender and receiver of one endpoint pairing (party-shim/src/reliable.rs).

    Each class keeps the source's fields and updates them in place. Its `State()` is the value the
    specification functions (`SendStep`, `AckStep`, ...) work on; every method is proved to move
    `State()` by exactly that function. */
module Reliable {
  import opened Common
  import opened SerialNumbers
  import opened Seqs

  const RTO_FIRST_MS: u64 := 60
  const RTO_MAX_MS: u64 := 500
  const MAX_RETRIES: nat := 8
  const PENDING_CAP: nat := 4096
  const OOO_CAP: nat := 256
  const ACK_DELAY_MS: u64 := 30

  // ---------------------------------------------------------------------------
  // Ordered-map access (BTreeMap: first and last key)
  // ---------------------------------------------------------------------------

  predicate IsMin(k: u32, s: set<u32>) {
    k in s && forall j :: j in s ==> k <= j
  }

  predicate IsMax(k: u32, s: set<u32>) {
    k in s && forall j :: j in s ==> j <= k
  }

  lemma {:induction false} MinExists(s: set<u32>) returns (k: u32)
    requires s != {}
    ensures IsMin(k, s)
  {
    k :| k in s;
    var rest := s - {k};
    assert s == rest + {k};
    if rest != {} {
      var k' := MinExists(rest);
      k := if k' < k then k' else k;
    }
  }

  lemma {:induction false} MaxExists(s: set<u32>) returns (k: u32)
    requires s != {}
    ensures IsMax(k, s)
  {
    k :| k in s;
    var rest := s - {k};
    assert s == rest + {k};
    if rest != {} {
      var k' := MaxExists(rest);
      k := if k' > k then k' else k;
    }
  }

  lemma MinKnown(s: set<u32>)
    requires s != {}
    ensures exists k :: IsMin(k, s)
  {
    var k := MinExists(s);
  }

  lemma MaxKnown(s: set<u32>)
    requires s != {}
    ensures exists k :: IsMax(k, s)
  {
    var k := MaxExists(s);
  }

  function Min(s: set<u32>): (k: u32)
    requires s != {}
    ensures IsMin(k, s)
  {
    MinKnown(s);
    var k :| k in s && IsMin(k, s);
    k
  }

  function Max(s: set<u32>): (k: u32)
    requires s != {}
    ensures IsMax(k, s)
  {
    MaxKnown(s);
    var k :| k in s && IsMax(k, s);
    k
  }

  ghost predicate Below(a: set<u32>, b: set<u32>) {
    forall k, j :: k in a && j in b ==> k < j
  }

  lemma BelowStep(a: set<u32>, b: set<u32>, k: u32)
    requires Below(a, b) && IsMin(k, b)
    ensures Below(a + {k}, b - {k})
    ensures forall j :: j in a ==> j < k
  {
  }

  // ---------------------------------------------------------------------------
  // Sender
  // ---------------------------------------------------------------------------

  datatype Pending = Pending(
    payload: Bytes, options: u32,
    firstSentMs: u64, lastSentMs: u64, retries: nat, rtoMs: u64, gaveUp: bool)

  datatype Outgoing = Outgoing(seqNo: u32, payload: Bytes, options: u32, evicted: Option<(u32, u32)>)

  datatype Retransmit = Retransmit(
    seqNo: u32, payload: Bytes, options: u32, retries: nat, first: bool, gaveUp: bool)

  datatype SenderState = SenderState(nextG: u32, nextB: u32, pending: map<u32, Pending>)

  const NEW_SENDER := SenderState(1, 1, map[])

  function FreshPending(payload: Bytes, options: u32, now: u64): Pending {
    Pending(payload, options, now, now, 0, RTO_FIRST_MS, false)
  }

  /** The pending map after making room for one more message. */
  function MakeRoom(pending: map<u32, Pending>): map<u32, Pending> {
    if |pending| >= PENDING_CAP then
      assert pending.Keys != {};
      pending - {Min(pending.Keys)}
    else pending
  }

  function EvictedBySend(pending: map<u32, Pending>): Option<(u32, u32)> {
    if |pending| >= PENDING_CAP then
      assert pending.Keys != {};
      var k := Min(pending.Keys);
      Some((k, pending[k].options))
    else None
  }

  function SendStep(s: SenderState, payload: Bytes, options: u32, now: u64): (SenderState, Outgoing) {
    if Guaranteed(options) then
      var q := s.nextG;
      (SenderState(WrapInc(q), s.nextB, MakeRoom(s.pending)[q := FreshPending(payload, options, now)]),
       Outgoing(q, payload, options, EvictedBySend(s.pending)))
    else if Sequential(options) then
      (s.(nextB := WrapInc(s.nextB)), Outgoing(s.nextB, payload, options, None))
    else
      (s, Outgoing(0, payload, options, None))
  }

  /** Some key at or below `k` is newer than `ack`: the cumulative clear stops before `k`. */
  ghost predicate Survives(pending: map<u32, Pending>, ack: u32, k: u32) {
    exists j :: j in pending && j <= k && !SeqLe(j, ack)
  }

  ghost function AckStep(s: SenderState, ack: u32): SenderState {
    s.(pending := map k | k in s.pending && Survives(s.pending, ack, k) :: s.pending[k])
  }

  predicate IsDue(p: Pending, now: u64) {
    !p.gaveUp && SatSub(now, p.lastSentMs) >= p.rtoMs
  }

  function SatDouble(x: u64): u64 {
    if 2 * x <= U64_MAX then 2 * x else U64_MAX
  }

  /** One message served at `now`. */
  function Served(p: Pending, now: u64): Pending {
    if !IsDue(p, now) then p
    else if p.retries >= MAX_RETRIES then p.(gaveUp := true)
    else
      var doubled := SatDouble(p.rtoMs);
      p.(retries := p.retries + 1, lastSentMs := now, rtoMs := if doubled < RTO_MAX_MS then doubled else RTO_MAX_MS)
  }

  /** What serving a due message reports. */
  function Report(k: u32, p: Pending): Retransmit {
    if p.retries >= MAX_RETRIES then Retransmit(k, [], p.options, p.retries, false, true)
    else Retransmit(k, p.payload, p.options, p.retries + 1, p.retries == 0, false)
  }

  function Reports(k: u32, p: Pending, now: u64): seq<Retransmit> {
    if IsDue(p, now) then [Report(k, p)] else []
  }

  function DueStep(s: SenderState, now: u64): SenderState {
    s.(pending := map k | k in s.pending :: Served(s.pending[k], now))
  }

  /** `out` is the report list of serving the messages `keys` at `now`: one entry per due message,
      in key order. */
  ghost predicate ReportsOn(pending: map<u32, Pending>, keys: set<u32>, now: u64, out: seq<Retransmit>) {
    && (forall i :: 0 <= i < |out| ==>
          out[i].seqNo in keys && out[i].seqNo in pending && IsDue(pending[out[i].seqNo], now) &&
          out[i] == Report(out[i].seqNo, pending[out[i].seqNo]))
    && (forall i, j :: 0 <= i < j < |out| ==> out[i].seqNo < out[j].seqNo)
    && (forall k :: k in keys && k in pending && IsDue(pending[k], now) ==> Report(k, pending[k]) in out)
  }

  ghost predicate IsDueReport(pending: map<u32, Pending>, now: u64, out: seq<Retransmit>) {
    ReportsOn(pending, pending.Keys, now, out)
  }

  lemma ReportStep(pending: map<u32, Pending>, keys: set<u32>, k: u32, now: u64, out: seq<Retransmit>)
    requires ReportsOn(pending, keys, now, out) && k in pending
    requires forall j :: j in keys ==> j < k
    ensures ReportsOn(pending, keys + {k}, now, out + Reports(k, pending[k], now))
  {
    var out' := out + Reports(k, pending[k], now);
    if IsDue(pending[k], now) {
      assert out'[|out|] == Report(k, pending[k]);
      forall x | x in keys && x in pending && IsDue(pending[x], now) ensures Report(x, pending[x]) in out' {
        assert Report(x, pending[x]) in out;
      }
    } else {
      assert out' == out;
    }
  }

  /** `cleared` lists exactly the messages `keys` with their options, in key order. */
  ghost predicate Clears(before: map<u32, Pending>, keys: set<u32>, cleared: seq<(u32, u32)>) {
    && (forall i :: 0 <= i < |cleared| ==>
          cleared[i].0 in keys && cleared[i].0 in before && cleared[i].1 == before[cleared[i].0].options)
    && (forall i, j :: 0 <= i < j < |cleared| ==> cleared[i].0 < cleared[j].0)
    && (forall k :: k in keys && k in before ==> (k, before[k].options) in cleared)
  }

  lemma ClearStep(before: map<u32, Pending>, keys: set<u32>, k: u32, cleared: seq<(u32, u32)>)
    requires Clears(before, keys, cleared) && k in before
    requires forall j :: j in keys ==> j < k
    ensures Clears(before, keys + {k}, cleared + [(k, before[k].options)])
  {
    var cleared' := cleared + [(k, before[k].options)];
    assert cleared'[|cleared|] == (k, before[k].options);
    forall x | x in keys && x in before ensures (x, before[x].options) in cleared' {
      assert (x, before[x].options) in cleared;
    }
  }

  function Deadline(p: Pending): u64 {
    SatAdd(p.lastSentMs, p.rtoMs)
  }

  /** `r` is the earliest deadline over the messages that have not given up. */
  ghost predicate IsNextRto(pending: map<u32, Pending>, r: Option<u64>) {
    RtoLoop(pending, pending.Keys, r)
  }

  // The three loops over the pending map, each as one predicate on what is done and what is left.

  ghost predicate AckLoop(before: map<u32, Pending>, left: map<u32, Pending>, ack: u32, cleared: seq<(u32, u32)>) {
    && left.Keys <= before.Keys
    && (forall k :: k in left ==> left[k] == before[k])
    && (forall k :: k in before.Keys - left.Keys ==> SeqLe(k, ack))
    && Below(before.Keys - left.Keys, left.Keys)
    && Clears(before, before.Keys - left.Keys, cleared)
  }

  lemma AckLoopStep(before: map<u32, Pending>, left: map<u32, Pending>, ack: u32, cleared: seq<(u32, u32)>, k: u32)
    requires AckLoop(before, left, ack, cleared) && IsMin(k, left.Keys) && SeqLe(k, ack)
    ensures AckLoop(before, left - {k}, ack, cleared + [(k, left[k].options)])
  {
    var gone := before.Keys - left.Keys;
    BelowStep(gone, left.Keys, k);
    ClearStep(before, gone, k, cleared);
    assert (left - {k}).Keys == left.Keys - {k};
    assert before.Keys - (left - {k}).Keys == gone + {k};
  }

  lemma AckLoopDone(before: map<u32, Pending>, left: map<u32, Pending>, ack: u32, cleared: seq<(u32, u32)>)
    requires AckLoop(before, left, ack, cleared)
    requires left.Keys == {} || !SeqLe(Min(left.Keys), ack)
    ensures left == map k | k in before && Survives(before, ack, k) :: before[k]
  {
    forall k | k in before ensures k in left <==> Survives(before, ack, k) {
      if k in left {
        assert Min(left.Keys) <= k && Min(left.Keys) in before;
      } else {
        assert k in before.Keys - left.Keys;
      }
    }
  }

  ghost predicate ServedOutside(before: map<u32, Pending>, cur: map<u32, Pending>, rest: set<u32>, now: u64) {
    && rest <= before.Keys && cur.Keys == before.Keys
    && (forall k :: k in before ==> cur[k] == if k in rest then before[k] else Served(before[k], now))
  }

  ghost predicate DueLoop(before: map<u32, Pending>, cur: map<u32, Pending>, rest: set<u32>, now: u64, out: seq<Retransmit>) {
    && ServedOutside(before, cur, rest, now)
    && Below(before.Keys - rest, rest)
    && ReportsOn(before, before.Keys - rest, now, out)
  }

  lemma ServedStep(before: map<u32, Pending>, cur: map<u32, Pending>, rest: set<u32>, now: u64, k: u32)
    requires ServedOutside(before, cur, rest, now) && k in rest
    ensures ServedOutside(before, cur[k := Served(cur[k], now)], rest - {k}, now)
  {
    assert cur[k := Served(cur[k], now)].Keys == cur.Keys;
  }

  lemma DueLoopStep(before: map<u32, Pending>, cur: map<u32, Pending>, rest: set<u32>, now: u64, out: seq<Retransmit>, k: u32)
    requires DueLoop(before, cur, rest, now, out) && IsMin(k, rest)
    ensures k in cur && DueLoop(before, cur[k := Served(cur[k], now)], rest - {k}, now, out + Reports(k, cur[k], now))
  {
    var done := before.Keys - rest;
    BelowStep(done, rest, k);
    ReportStep(before, done, k, now, out);
    assert before.Keys - (rest - {k}) == done + {k};
    ServedStep(before, cur, rest, now, k);
    assert cur[k] == before[k];
  }

  lemma DueLoopDone(before: map<u32, Pending>, cur: map<u32, Pending>, now: u64, out: seq<Retransmit>)
    requires DueLoop(before, cur, {}, now, out)
    ensures cur == map k | k in before :: Served(before[k], now)
    ensures IsDueReport(before, now, out)
  {
    assert before.Keys - {} == before.Keys;
  }

  ghost predicate RtoLoop(pending: map<u32, Pending>, done: set<u32>, r: Option<u64>) {
    match r
    case None => forall k :: k in done && k in pending ==> pending[k].gaveUp
    case Some(t) =>
      && (exists k :: k in done && k in pending && !pending[k].gaveUp && Deadline(pending[k]) == t)
      && (forall k :: k in done && k in pending && !pending[k].gaveUp ==> t <= Deadline(pending[k]))
  }

  function EarlierDeadline(r: Option<u64>, p: Pending): Option<u64> {
    if !p.gaveUp && (r.None? || Deadline(p) < r.value) then Some(Deadline(p)) else r
  }

  lemma RtoLoopStep(pending: map<u32, Pending>, done: set<u32>, r: Option<u64>, k: u32)
    requires RtoLoop(pending, done, r) && k in pending
    ensures RtoLoop(pending, done + {k}, EarlierDeadline(r, pending[k]))
  {
    if r.Some? {
      var w :| w in done && w in pending && !pending[w].gaveUp && Deadline(pending[w]) == r.value;
      assert w in done + {k};
    }
    assert k in done + {k};
  }

  class Sender {
    var nextGseq: u32
    var nextBseq: u32
    var pending: map<u32, Pending>

    ghost function State(): SenderState reads this {
      SenderState(nextGseq, nextBseq, pending)
    }

    constructor ()
      ensures State() == NEW_SENDER
    {
      nextGseq, nextBseq, pending := 1, 1, map[];
    }

    method Send(payload: Bytes, options: u32, now: u64) returns (out: Outgoing)
      modifies this
      ensures (State(), out) == SendStep(old(State()), payload, options, now)
    {
      var evicted := None;
      var seqNo := 0;
      if Guaranteed(options) {
        seqNo := nextGseq;
        nextGseq := WrapInc(nextGseq);
        if |pending| >= PENDING_CAP {
          assert pending.Keys != {};
          var k := Min(pending.Keys);
          evicted := Some((k, pending[k].options));
          pending := pending - {k};
        }
        pending := pending[seqNo := FreshPending(payload, options, now)];
      } else if Sequential(options) {
        seqNo := nextBseq;
        nextBseq := WrapInc(nextBseq);
      }
      out := Outgoing(seqNo, payload, options, evicted);
    }

    /** Removes lowest keys while they are at or before `ack`; reports each removal in key order. */
    method OnAck(ack: u32) returns (cleared: seq<(u32, u32)>)
      modifies this
      ensures State() == AckStep(old(State()), ack)
      ensures Clears(old(pending), old(pending).Keys - pending.Keys, cleared)
    {
      cleared := [];
      ghost var before := pending;
      while pending.Keys != {}
        invariant nextGseq == old(nextGseq) && nextBseq == old(nextBseq)
        invariant AckLoop(before, pending, ack, cleared)
        decreases |pending|
      {
        var k := Min(pending.Keys);
        if !SeqLe(k, ack) {
          break;
        }
        AckLoopStep(before, pending, ack, cleared, k);
        cleared := cleared + [(k, pending[k].options)];
        pending := pending - {k};
      }
      AckLoopDone(before, pending, ack, cleared);
    }

    method NextRtoMs() returns (r: Option<u64>)
      ensures IsNextRto(pending, r)
    {
      r := None;
      var rest := pending.Keys;
      while rest != {}
        invariant rest <= pending.Keys && RtoLoop(pending, pending.Keys - rest, r)
        decreases |rest|
      {
        var k := Min(rest);
        RtoLoopStep(pending, pending.Keys - rest, r, k);
        assert pending.Keys - (rest - {k}) == pending.Keys - rest + {k};
        rest := rest - {k};
        r := EarlierDeadline(r, pending[k]);
      }
      assert pending.Keys - rest == pending.Keys;
    }

    /** The body of the `due` loop for one message. */
    static method Serve(k: u32, p: Pending, now: u64) returns (p': Pending, out: seq<Retransmit>)
      ensures p' == Served(p, now) && out == Reports(k, p, now)
    {
      if p.gaveUp {
        return p, [];
      }
      if SatSub(now, p.lastSentMs) < p.rtoMs {
        return p, [];
      }
      if p.retries >= MAX_RETRIES {
        return p.(gaveUp := true), [Retransmit(k, [], p.options, p.retries, false, true)];
      }
      var rto := SatDouble(p.rtoMs);
      if rto > RTO_MAX_MS {
        rto := RTO_MAX_MS;
      }
      p' := p.(retries := p.retries + 1, lastSentMs := now, rtoMs := rto);
      out := [Retransmit(k, p.payload, p.options, p'.retries, p'.retries == 1, false)];
    }

    /** Serves every message whose timeout expired, in key order. */
    method Due(now: u64) returns (out: seq<Retransmit>)
      modifies this
      ensures State() == DueStep(old(State()), now)
      ensures IsDueReport(old(pending), now, out)
    {
      out := [];
      ghost var before := pending;
      var rest := pending.Keys;
      while rest != {}
        invariant nextGseq == old(nextGseq) && nextBseq == old(nextBseq)
        invariant DueLoop(before, pending, rest, now, out)
        decreases |rest|
      {
        var k := Min(rest);
        DueLoopStep(before, pending, rest, now, out, k);
        var p, reports := Serve(k, pending[k], now);
        pending := pending[k := p];
        out := out + reports;
        rest := rest - {k};
      }
      DueLoopDone(before, pending, now, out);
    }

    method DropAll() returns (n: nat)
      modifies this
      ensures State() == NEW_SENDER && n == |old(pending)|
    {
      n := |pending|;
      nextGseq, nextBseq, pending := 1, 1, map[];
    }
  }

  // ---------------------------------------------------------------------------
  // Receiver
  // ---------------------------------------------------------------------------

  datatype Msg = Msg(payload: Bytes, options: u32)

  datatype Outcome =
    | Delivered(msgs: seq<Msg>)
    | Queued(seqNo: u32, expected: u32)
    | DroppedDuplicate
    | DroppedOutOfOrder(seqNo: u32, high: u32)

  /** What an outcome hands out. */
  function Out(o: Outcome): seq<Msg> {
    if o.Delivered? then o.msgs else []
  }

  type Buffer = map<u32, Msg>

  datatype ReceiverState = ReceiverState(
    gNext: u32, gBuf: Buffer, beLast: u32, beSeen: bool, ackDueAt: Option<u64>, lastEvicted: Option<u32>)

  const NEW_RECEIVER := ReceiverState(1, map[], 0, false, None, None)

  function AckValue(r: ReceiverState): u32 {
    WrapSub(r.gNext, 1)
  }

  datatype Drained = Drained(buf: Buffer, next: u32, out: seq<Msg>)

  function Payloads(m: Msg): seq<Msg> {
    if m.payload == [] then [] else [m]
  }

  /** Take the run of buffered messages that starts at `next`. */
  function Drain(buf: Buffer, next: u32): Drained
    decreases |buf|
  {
    if next in buf then
      var d := Drain(buf - {next}, WrapInc(next));
      Drained(d.buf, d.next, Payloads(buf[next]) + d.out)
    else Drained(buf, next, [])
  }

  function OooRoom(buf: Buffer): Buffer {
    if |buf| >= OOO_CAP then
      assert buf.Keys != {};
      buf - {Max(buf.Keys)}
    else buf
  }

  function OooEvicted(buf: Buffer): Option<u32> {
    if |buf| >= OOO_CAP then
      assert buf.Keys != {};
      Some(Max(buf.Keys))
    else None
  }

  function ArmAck(r: ReceiverState, options: u32, now: u64): ReceiverState {
    if LazyAck(options) || r.ackDueAt.Some? then r else r.(ackDueAt := Some(now))
  }

  /** The guaranteed space of a receiver: next number and out-of-order buffer. */
  datatype Core = Core(next: u32, buf: Buffer)

  datatype Accepted = Accepted(core: Core, outcome: Outcome, evicted: Option<u32>)

  predicate IsDuplicate(c: Core, k: u32) {
    SeqLe(k, WrapSub(c.next, 1)) || k in c.buf
  }

  function AcceptNext(c: Core, m: Msg): Accepted {
    var d := Drain(c.buf, WrapInc(c.next));
    Accepted(Core(d.next, d.buf), Delivered(Payloads(m) + d.out), None)
  }

  function AcceptAhead(c: Core, k: u32, m: Msg): Accepted {
    Accepted(Core(c.next, OooRoom(c.buf)[k := m]), Queued(k, c.next), OooEvicted(c.buf))
  }

  function AcceptUnordered(c: Core, k: u32, m: Msg): Accepted {
    var d := Drain(OooRoom(c.buf)[k := Msg([], m.options)], c.next);
    Accepted(Core(d.next, d.buf), Delivered([m] + d.out), OooEvicted(c.buf))
  }

  /** A guaranteed message in the guaranteed space. */
  function Accept(c: Core, k: u32, m: Msg): Accepted {
    if IsDuplicate(c, k) then Accepted(c, DroppedDuplicate, None)
    else if !Sequential(m.options) then AcceptUnordered(c, k, m)
    else if k == c.next then AcceptNext(c, m)
    else AcceptAhead(c, k, m)
  }

  function CoreOf(r: ReceiverState): Core {
    Core(r.gNext, r.gBuf)
  }

  function OnGuaranteed(r0: ReceiverState, k: u32, m: Msg, now: u64): (ReceiverState, Outcome) {
    var r := ArmAck(r0, m.options, now);
    var x := Accept(CoreOf(r), k, m);
    (r.(gNext := x.core.next, gBuf := x.core.buf, lastEvicted := x.evicted), x.outcome)
  }

  function OnMessageStep(r0: ReceiverState, seqNo: u32, m: Msg, now: u64): (ReceiverState, Outcome) {
    var r := r0.(lastEvicted := None);
    if seqNo == 0 then (r, Delivered([m]))
    else if Guaranteed(m.options) then OnGuaranteed(r, seqNo, m, now)
    else if Sequential(m.options) then
      if r.beSeen && !SeqAfter(seqNo, r.beLast) then (r, DroppedOutOfOrder(seqNo, r.beLast))
      else (r.(beSeen := true, beLast := seqNo), Delivered([m]))
    else (r, Delivered([m]))
  }

  function ForcedAckStep(r: ReceiverState, now: u64): (ReceiverState, Option<u32>) {
    if r.ackDueAt.Some? && SatSub(now, r.ackDueAt.value) >= ACK_DELAY_MS
    then (r.(ackDueAt := None), Some(AckValue(r)))
    else (r, None)
  }

  class Receiver {
    var gNext: u32
    var gBuf: Buffer
    var beLast: u32
    var beSeen: bool
    var ackDueAt: Option<u64>
    var lastEvicted: Option<u32>

    ghost function State(): ReceiverState reads this {
      ReceiverState(gNext, gBuf, beLast, beSeen, ackDueAt, lastEvicted)
    }

    constructor ()
      ensures State() == NEW_RECEIVER
    {
      gNext, gBuf, beLast, beSeen, ackDueAt, lastEvicted := 1, map[], 0, false, None, None;
    }

    /** The `while let Some(..) = g_buf.remove(&g_next)` loop. */
    method DrainRun(first: seq<Msg>) returns (out: seq<Msg>)
      modifies this`gNext, this`gBuf
      ensures var d := Drain(old(gBuf), old(gNext));
              gNext == d.next && gBuf == d.buf && out == first + d.out
    {
      out := first;
      ghost var d := Drain(gBuf, gNext);
      ghost var taken := [];
      while gNext in gBuf
        invariant out == first + taken
        invariant var e := Drain(gBuf, gNext); d == Drained(e.buf, e.next, taken + e.out)
        decreases |gBuf|
      {
        var m := gBuf[gNext];
        gBuf := gBuf - {gNext};
        gNext := WrapInc(gNext);
        if m.payload != [] {
          out := out + [m];
        }
        ghost var e := Drain(gBuf, gNext);
        Assoc(taken, Payloads(m), e.out);
        taken := taken + Payloads(m);
      }
    }

    method EvictNewest()
      modifies this`gBuf, this`lastEvicted
      ensures gBuf == OooRoom(old(gBuf))
      ensures lastEvicted == if |old(gBuf)| >= OOO_CAP then OooEvicted(old(gBuf)) else old(lastEvicted)
    {
      if |gBuf| >= OOO_CAP {
        assert gBuf.Keys != {};
        var k := Max(gBuf.Keys);
        gBuf := gBuf - {k};
        lastEvicted := Some(k);
      }
    }

    method OnMessage(seqNo: u32, options: u32, payload: Bytes, now: u64) returns (o: Outcome)
      modifies this
      ensures (State(), o) == OnMessageStep(old(State()), seqNo, Msg(payload, options), now)
    {
      var m := Msg(payload, options);
      lastEvicted := None;
      if seqNo == 0 {
        return Delivered([m]);
      }
      if Guaranteed(options) {
        if !LazyAck(options) && ackDueAt.None? {
          ackDueAt := Some(now);
        }
        if SeqLe(seqNo, WrapSub(gNext, 1)) || seqNo in gBuf {
          return DroppedDuplicate;
        }
        if Sequential(options) {
          if seqNo == gNext {
            gNext := WrapInc(gNext);
            var out := DrainRun(Payloads(m));
            return Delivered(out);
          }
          EvictNewest();
          gBuf := gBuf[seqNo := m];
          return Queued(seqNo, gNext);
        }
        EvictNewest();
        gBuf := gBuf[seqNo := Msg([], options)];
        var out := DrainRun([m]);
        return Delivered(out);
      }
      if Sequential(options) {
        if beSeen && !SeqAfter(seqNo, beLast) {
          return DroppedOutOfOrder(seqNo, beLast);
        }
        beSeen := true;
        beLast := seqNo;
      }
      o := Delivered([m]);
    }

    method PiggybackAck() returns (ack: u32)
      modifies this`ackDueAt
      ensures State() == old(State()).(ackDueAt := None) && ack == AckValue(State())
    {
      ackDueAt := None;
      ack := WrapSub(gNext, 1);
    }

    method NextAckDueMs() returns (r: Option<u64>)
      ensures r.Some? <==> ackDueAt.Some?
      ensures r.Some? ==> r.value == SatAdd(ackDueAt.value, ACK_DELAY_MS)
    {
      r := if ackDueAt.Some? then Some(SatAdd(ackDueAt.value, ACK_DELAY_MS)) else None;
    }

    method ForcedAck(now: u64) returns (a: Option<u32>)
      modifies this`ackDueAt
      ensures (State(), a) == ForcedAckStep(old(State()), now)
    {
      a := None;
      if ackDueAt.Some? && SatSub(now, ackDueAt.value) >= ACK_DELAY_MS {
        ackDueAt := None;
        a := Some(WrapSub(gNext, 1));
      }
    }
  }
}
