/** What every run of the peer-poll protocol keeps. */
module PeerPollRuns {
  import opened Common
  import opened Seqs
  import opened PeerPoll

  // ---------------------------------------------------------------------------
  // The queue: polls and leaves in order, one registration per member
  // ---------------------------------------------------------------------------

  predicate Ordered(t: Task) {
    !t.Register?
  }

  ghost predicate OnePerMember(q: seq<Task>) {
    forall i, j | 0 <= i < j < |q| :: !SameMember(q[i], q[j])
  }

  /** Without an element that is not selected the selection is the same. */
  lemma FilterWithout(p: Task -> bool, q: seq<Task>, k: nat)
    requires k < |q| && !p(q[k])
    ensures Filter(p, Without(q, k)) == Filter(p, q)
  {
    FilterSplit(p, q, k);
    FilterConcat(p, q[..k], q[k + 1..]);
    assert Keep(p, q[k]) + Filter(p, q[k + 1..]) == Filter(p, q[k + 1..]);
  }

  lemma WithoutOnePer(q: seq<Task>, k: nat)
    requires k < |q| && OnePerMember(q)
    ensures OnePerMember(Without(q, k))
  {
    var w := Without(q, k);
    forall i, j | 0 <= i < j < |w| ensures !SameMember(w[i], w[j]) {
      var i', j' := if i < k then i else i + 1, if j < k then j else j + 1;
      assert w[i] == q[i'] && w[j] == q[j'];
    }
  }

  lemma FilterReplaced(p: Task -> bool, q: seq<Task>, k: nat, t: Task)
    requires k < |q| && !p(q[k]) && !p(t)
    ensures Filter(p, q[k := t]) == Filter(p, q)
  {
    FilterSplit(p, q, k);
    FilterSplit(p, q[k := t], k);
    assert q[k := t][..k] == q[..k] && q[k := t][k + 1..] == q[k + 1..];
  }

  lemma MakeRoomIs(q: seq<Task>) returns (k: nat)
    ensures MakeRoom(q) == q || (k < |q| && q[k].Register? && MakeRoom(q) == Without(q, k))
  {
    k := FirstIndex((t: Task) => t.Register?, q, 0);
  }

  lemma EnqueuedFilter(q: seq<Task>, t: Task)
    ensures Filter(Ordered, Enqueued(q, t)) == Filter(Ordered, q) + Keep(Ordered, t)
  {
    var k := FirstIndex(x => SameMember(x, t), q, 0);
    if k < |q| {
      FilterReplaced(Ordered, q, k, t);
    } else {
      var room := if t.Register? then MakeRoom(q) else q;
      var j := MakeRoomIs(q);
      if room != q {
        FilterWithout(Ordered, q, j);
      }
      FilterConcat(Ordered, room, [t]);
      FilterOne(Ordered, t);
    }
  }

  lemma EnqueuedOnePer(q: seq<Task>, t: Task)
    requires OnePerMember(q)
    ensures OnePerMember(Enqueued(q, t))
  {
    var k := FirstIndex(x => SameMember(x, t), q, 0);
    if k < |q| {
      ReplacedOnePer(q, k, t);
    } else {
      var j := MakeRoomIs(q);
      if MakeRoom(q) != q {
        WithoutOnePer(q, j);
      }
      AppendedOnePer(q, t);
      AppendedOnePer(MakeRoom(q), t);
    }
  }

  lemma ReplacedOnePer(q: seq<Task>, k: nat, t: Task)
    requires OnePerMember(q) && k < |q| && SameMember(q[k], t)
    ensures OnePerMember(q[k := t])
  {
  }

  lemma AppendedOnePer(q: seq<Task>, t: Task)
    requires OnePerMember(q) && forall x <- q :: !SameMember(x, t)
    ensures OnePerMember(q + [t])
  {
  }

  lemma EnqueuedFrom(q: seq<Task>, t: Task)
    ensures forall x <- Enqueued(q, t) :: x in q || x == t
  {
    var j := MakeRoomIs(q);
  }

  ghost function OwnKept(c: Option<Caller>): seq<Task> {
    if c.Some? && c.value.own.Some? then Keep(Ordered, c.value.own.value) else []
  }

  /** Polls and leaves start in the order they were dispatched, whoever runs them. */
  ghost predicate Fifo(b: Broker, log: Log) {
    && Filter(Ordered, log.dispatched) == Filter(Ordered, log.started) + (Filter(Ordered, b.queue) + OwnKept(b.holder))
    && (forall c <- b.outside | c.own.Some? :: c.own.value.Register?)
    && OnePerMember(b.queue)
  }

  lemma NoteFilter(log: Log, t: Task)
    ensures Filter(Ordered, Note(log, t).dispatched) == Filter(Ordered, log.dispatched) + Keep(Ordered, t)
    ensures Filter(Ordered, Start(log, t).started) == Filter(Ordered, log.started) + Keep(Ordered, t)
  {
    FilterConcat(Ordered, log.dispatched, [t]);
    FilterConcat(Ordered, log.started, [t]);
    FilterOne(Ordered, t);
  }

  lemma FifoDispatch(b: Broker, log: Log, t: Task)
    requires Fifo(b, log) && b.holder.None?
    ensures Fifo(Dispatch(b, t), Note(log, t))
  {
    if b.up { FifoEnqueue(b, log, t); } else { FifoHold(b, log, t); }
  }

  lemma FifoEnqueue(b: Broker, log: Log, t: Task)
    requires Fifo(b, log) && b.holder.None?
    ensures Fifo(b.(queue := Enqueued(b.queue, t)), Note(log, t))
  {
    NoteFilter(log, t);
    EnqueuedFilter(b.queue, t);
    EnqueuedOnePer(b.queue, t);
    assert Filter(Ordered, b.queue) + [] == Filter(Ordered, b.queue);
    Assoc(Filter(Ordered, log.started), Filter(Ordered, b.queue), Keep(Ordered, t));
  }

  lemma FifoHold(b: Broker, log: Log, t: Task)
    requires Fifo(b, log) && b.holder.None?
    ensures Fifo(b.(holder := Some(Caller(None, Some(t)))), Note(log, t))
  {
    NoteFilter(log, t);
    assert Filter(Ordered, b.queue) + [] == Filter(Ordered, b.queue);
    Assoc(Filter(Ordered, log.started), Filter(Ordered, b.queue), Keep(Ordered, t));
  }

  lemma FifoOutside(b: Broker, log: Log, t: Task)
    requires Fifo(b, log) && t.Register?
    ensures Fifo(DispatchOutside(b, t), Note(log, t))
  {
    NoteFilter(log, t);
    if b.up {
      EnqueuedFilter(b.queue, t);
      EnqueuedOnePer(b.queue, t);
    }
  }

  /** Taking the head of the queue. */
  lemma FifoHead(b: Broker, b': Broker, log: Log)
    requires Fifo(b, log) && b.queue != [] && b'.queue == b.queue[1..] && OwnKept(b'.holder) == OwnKept(b.holder)
    requires forall c <- b'.outside | c.own.Some? :: c.own.value.Register?
    ensures Fifo(b', Start(log, b.queue[0]))
  {
    var t, q := b.queue[0], b.queue[1..];
    NoteFilter(log, t);
    Assoc(Keep(Ordered, t), Filter(Ordered, q), OwnKept(b.holder));
    Assoc(Filter(Ordered, log.started), Keep(Ordered, t), Filter(Ordered, q) + OwnKept(b.holder));
    assert forall i | 0 <= i < |q| :: q[i] == b.queue[i + 1];
  }

  lemma FifoHolderTake(s: State)
    requires Fifo(s.broker, s.log)
    ensures var s' := HolderTakeStep(s); Fifo(s'.broker, s'.log)
  {
    var b := s.broker;
    if b.holder.Some? && b.holder.value.current.None? {
      var s' := HolderTakeStep(s);
      if b.queue != [] {
        FifoHead(b, s'.broker, s.log);
      } else if b.holder.value.own.Some? {
        NoteFilter(s.log, b.holder.value.own.value);
      }
    }
  }

  lemma FifoOutsideTake(s: State, k: nat)
    requires Fifo(s.broker, s.log)
    ensures var s' := OutsideTakeStep(s, k); Fifo(s'.broker, s'.log)
  {
    var b := s.broker;
    if k < |b.outside| && b.outside[k].current.None? {
      var s' := OutsideTakeStep(s, k);
      assert b.outside[k] in b.outside;
      assert forall c <- s'.broker.outside :: c in b.outside || c.own.None? || c.own == b.outside[k].own;
      if b.queue != [] {
        FifoHead(b, s'.broker, s.log);
      } else if b.outside[k].own.Some? {
        NoteFilter(s.log, b.outside[k].own.value);
      }
    }
  }

  /** Steps that leave the queue and the callers' own tasks alone. */
  lemma FifoSame(b: Broker, b': Broker, log: Log, log': Log)
    requires Fifo(b, log) && b'.queue == b.queue && log'.dispatched == log.dispatched && log'.started == log.started
    requires OwnKept(b'.holder) == OwnKept(b.holder) && forall c <- b'.outside | c.own.Some? :: c.own.value.Register?
    ensures Fifo(b', log')
  {
  }

  lemma RestedOwn(cs: seq<Caller>, k: nat)
    requires k < |cs| && forall c <- cs | c.own.Some? :: c.own.value.Register?
    ensures forall c <- OutsideRested(cs, k) | c.own.Some? :: c.own.value.Register?
  {
    assert cs[k] in cs;
  }

  lemma FifoThread(b: Broker, log: Log, ev: Event)
    requires Fifo(b, log)
    ensures Fifo(ThreadStep(b, ev), log)
  {
    FifoSame(b, ThreadStep(b, ev), log, log);
  }

  /** A task carried out by a broker `b` that has let go of it. */
  lemma FifoRunTask(s: State, b: Broker, t: Task, members: seq<Peer>)
    requires Fifo(s.broker, s.log) && b.queue == s.broker.queue && OwnKept(b.holder) == OwnKept(s.broker.holder)
    requires forall c <- b.outside | c.own.Some? :: c.own.value.Register?
    ensures var s' := RunTask(s.(broker := b), t, members); Fifo(s'.broker, s'.log)
  {
    FifoSame(s.broker, b, s.log, RunTask(s.(broker := b), t, members).log);
  }

  lemma FifoWorkerFinish(s: State, members: seq<Peer>)
    requires Fifo(s.broker, s.log)
    ensures var s' := BrokerStep(s, WorkerFinish(members)); Fifo(s'.broker, s'.log)
  {
    var b := s.broker;
    if b.worker.Some? { FifoRunTask(s, b.(worker := None), b.worker.value, members); }
  }

  lemma FifoHolderFinish(s: State, members: seq<Peer>)
    requires Fifo(s.broker, s.log)
    ensures var s' := BrokerStep(s, HolderFinish(members)); Fifo(s'.broker, s'.log)
  {
    var b := s.broker;
    if b.holder.Some? && b.holder.value.current.Some? {
      FifoRunTask(s, b.(holder := Rested(b.holder.value)), b.holder.value.current.value, members);
    }
  }

  lemma FifoOutsideFinish(s: State, k: nat, members: seq<Peer>)
    requires Fifo(s.broker, s.log)
    ensures var s' := BrokerStep(s, OutsideFinish(k, members)); Fifo(s'.broker, s'.log)
  {
    var b := s.broker;
    if k < |b.outside| && b.outside[k].current.Some? {
      RestedOwn(b.outside, k);
      FifoRunTask(s, b.(outside := OutsideRested(b.outside, k)), b.outside[k].current.value, members);
    }
  }

  lemma FifoWorkerTake(s: State)
    requires Fifo(s.broker, s.log)
    ensures var s' := WorkerTakeStep(s); Fifo(s'.broker, s'.log)
  {
    if WorkerTakeStep(s) != s {
      FifoHead(s.broker, WorkerTakeStep(s).broker, s.log);
    }
  }

  lemma FifoBroker(s: State, ev: Event)
    requires Fifo(s.broker, s.log)
    ensures var s' := BrokerStep(s, ev); Fifo(s'.broker, s'.log)
  {
    match ev
    case WorkerTake => FifoWorkerTake(s);
    case HolderTake => FifoHolderTake(s);
    case OutsideTake(k) => FifoOutsideTake(s, k);
    case WorkerFinish(members) => FifoWorkerFinish(s, members);
    case HolderFinish(members) => FifoHolderFinish(s, members);
    case OutsideFinish(k, members) => FifoOutsideFinish(s, k, members);
    case _ => FifoThread(s.broker, s.log, ev);
  }

  lemma FifoMutex(s: State, ev: Event)
    requires Fifo(s.broker, s.log) && s.broker.holder.None?
    ensures var s' := MutexStep(s, ev); Fifo(s'.broker, s'.log)
  {
    match ev
    case LeaveNetwork(e, entity) =>
      if e in s.boxes { FifoDispatch(s.broker, s.log, Leave(s.boxes[e].net, entity)); }
    case KeepAlive(e, entity, port) =>
      if e in s.boxes { FifoDispatch(s.broker, s.log, Register(s.boxes[e].net, entity, port, true)); }
    case RegisterInside(net, entity, port) =>
      FifoDispatch(s.broker, s.log, Register(net, entity, port, false));
    case Request(e, elapsed) =>
      if e in s.boxes {
        var t := Poll(s.boxes[e].net, e, s.nextSeq);
        FifoDispatch(s.broker, s.log.(asked := s.log.asked + {t}), t);
      }
    case _ =>
  }

  lemma FifoStep(serial: bool, s: State, ev: Event)
    requires Fifo(s.broker, s.log)
    ensures var s' := Step(serial, s, ev); Fifo(s'.broker, s'.log)
  {
    if NeedsMutex(ev) {
      if s.broker.holder.None? { FifoMutex(s, ev); }
    } else if ev.RegisterOutside? {
      FifoOutside(s.broker, s.log, Register(ev.net, ev.entity, ev.port, false));
    } else {
      FifoBroker(s, ev);
    }
  }

  /** Over every run, by any number of title threads: leaves and polls are carried out in the order
      they were dispatched, and the queue never holds two registrations of one member. */
  lemma {:induction false} BrokerFifo(serial: bool, es: seq<Event>)
    ensures var s := Run(serial, es); Fifo(s.broker, s.log)
  {
    if es != [] {
      BrokerFifo(serial, es[..|es| - 1]);
      RunEnd(serial, es);
      FifoStep(serial, Run(serial, es[..|es| - 1]), es[|es| - 1]);
    }
  }

  // ---------------------------------------------------------------------------
  // A box applies only answers to its own requests, in order
  // ---------------------------------------------------------------------------

  ghost predicate Held(c: Caller, t: Task) {
    c.current == Some(t) || c.own == Some(t)
  }

  /** A task dispatched and not yet carried out. */
  ghost predicate InPlay(b: Broker, t: Task) {
    || t in b.queue
    || b.worker == Some(t)
    || (b.holder.Some? && Held(b.holder.value, t))
    || exists c <- b.outside :: Held(c, t)
  }

  ghost predicate PollsAsked(b: Broker, asked: set<Task>) {
    forall t | InPlay(b, t) && t.Poll? :: t in asked
  }

  /** `(e, n)` is a request that box `e` made. */
  ghost predicate Asked(boxes: map<nat, Box>, asked: set<Task>, e: nat, n: nat) {
    e in boxes && Poll(boxes[e].net, e, n) in asked
  }

  ghost predicate RequestsKnown(boxes: map<nat, Box>, nextSeq: nat, asked: set<Task>) {
    && (forall t <- asked :: t.Poll? && t.seqno < nextSeq && t.epoch in boxes && boxes[t.epoch].net == t.net)
    && (forall t, u | t in asked && u in asked && t.seqno == u.seqno :: t == u)
  }

  ghost predicate AnswersKnown(boxes: map<nat, Box>, log: Log) {
    forall r <- log.answered :: Asked(boxes, log.asked, r.epoch, r.answer.seqno)
  }

  ghost predicate ResultsAnswered(results: map<nat, Answer>, log: Log) {
    forall e <- results :: Record(e, results[e]) in log.answered
  }

  ghost predicate AppliedAnswered(log: Log) {
    forall r <- log.applied :: r in log.answered
  }

  ghost predicate AppliedIncreasing(boxes: map<nat, Box>, applied: seq<Record>) {
    && (forall i, j | 0 <= i < j < |applied| && applied[i].epoch == applied[j].epoch ::
          applied[i].answer.seqno < applied[j].answer.seqno)
    && (forall r <- applied :: r.epoch in boxes && r.answer.seqno <= boxes[r.epoch].applied)
  }

  ghost predicate OwnResults(s: State) {
    && (forall e <- s.boxes :: e < s.nextEpoch)
    && RequestsKnown(s.boxes, s.nextSeq, s.log.asked)
    && PollsAsked(s.broker, s.log.asked)
    && AnswersKnown(s.boxes, s.log)
    && ResultsAnswered(s.results, s.log)
    && AppliedAnswered(s.log)
    && AppliedIncreasing(s.boxes, s.log.applied)
  }

  lemma DispatchInPlay(b: Broker, t: Task, x: Task)
    requires (InPlay(Dispatch(b, t), x) && b.holder.None?) || InPlay(DispatchOutside(b, t), x)
    ensures InPlay(b, x) || x == t
  {
    EnqueuedFrom(b.queue, t);
  }

  /** The broker's own steps put no new task in play. */
  lemma BrokerInPlay(s: State, ev: Event, x: Task)
    requires InPlay(BrokerStep(s, ev).broker, x)
    ensures InPlay(s.broker, x)
  {
    var b, b' := s.broker, BrokerStep(s, ev).broker;
    match ev
    case OutsideTake(k) =>
      if k < |b.outside| { assert b.outside[k] in b.outside; CallerTakeHeld(b.outside[k], b.queue, x); }
    case OutsideFinish(k, _) =>
      if k < |b.outside| { assert b.outside[k] in b.outside; }
    case HolderTake =>
      if b.holder.Some? { CallerTakeHeld(b.holder.value, b.queue, x); }
    case _ =>
  }

  lemma CallerTakeHeld(c: Caller, q: seq<Task>, x: Task)
    ensures CallerTake(c, q).Some? ==>
              (Held(CallerTake(c, q).value.0, x) ==> Held(c, x) || x in q) && (x in CallerTake(c, q).value.1 ==> x in q)
  {
  }

  lemma RunTaskOwn(s: State, t: Task, members: seq<Peer>)
    requires OwnResults(s) && (t.Poll? ==> t in s.log.asked)
    ensures OwnResults(RunTask(s, t, members))
  {
  }

  lemma BrokerMoveOwn(s: State, b: Broker, log: Log)
    requires OwnResults(s) && (forall x | InPlay(b, x) :: InPlay(s.broker, x))
    requires log.asked == s.log.asked && log.answered == s.log.answered && log.applied == s.log.applied
    ensures OwnResults(s.(broker := b, log := log))
  {
  }

  predicate Finishes(ev: Event) {
    ev.WorkerFinish? || ev.HolderFinish? || ev.OutsideFinish?
  }

  /** The task that a finishing step carries out. */
  function Running(b: Broker, ev: Event): Option<Task> {
    match ev
    case WorkerFinish(_) => b.worker
    case HolderFinish(_) => if b.holder.Some? then b.holder.value.current else None
    case OutsideFinish(k, _) => if k < |b.outside| then b.outside[k].current else None
    case _ => None
  }

  lemma FinishedTask(s: State, ev: Event)
    requires Finishes(ev)
    ensures var t := Running(s.broker, ev);
            if t.None? then BrokerStep(s, ev) == s
            else InPlay(s.broker, t.value)
                 && BrokerStep(s, ev) == RunTask(s.(broker := BrokerStep(s, ev).broker), t.value, ev.members)
  {
    var b := s.broker;
    if ev.OutsideFinish? && ev.k < |b.outside| && b.outside[ev.k].current.Some? {
      assert b.outside[ev.k] in b.outside && Held(b.outside[ev.k], b.outside[ev.k].current.value);
    }
  }

  lemma OwnBroker(s: State, ev: Event)
    requires OwnResults(s)
    ensures OwnResults(BrokerStep(s, ev))
  {
    var s' := BrokerStep(s, ev);
    forall x | InPlay(s'.broker, x) ensures InPlay(s.broker, x) {
      BrokerInPlay(s, ev, x);
    }
    if Finishes(ev) {
      FinishedTask(s, ev);
      if Running(s.broker, ev).Some? {
        FinishOwn(s, s'.broker, Running(s.broker, ev).value, ev.members);
      }
    } else {
      BrokerMoveOwn(s, s'.broker, s'.log);
    }
  }

  lemma FinishOwn(s: State, b: Broker, t: Task, members: seq<Peer>)
    requires OwnResults(s) && InPlay(s.broker, t) && forall x | InPlay(b, x) :: InPlay(s.broker, x)
    ensures OwnResults(RunTask(s.(broker := b), t, members))
  {
    BrokerMoveOwn(s, b, s.log);
    RunTaskOwn(s.(broker := b), t, members);
  }

  lemma SendOwn(s: State, t: Task)
    requires OwnResults(s) && s.broker.holder.None? && (t.Poll? ==> t in s.log.asked)
    ensures OwnResults(Send(s, t))
  {
    var s' := Send(s, t);
    forall x | InPlay(s'.broker, x) && x.Poll? ensures x in s.log.asked {
      DispatchInPlay(s.broker, t, x);
    }
  }

  /** A box rewritten without changing its network or what it has applied. */
  lemma BoxOwn(s: State, e: nat, box: Box)
    requires OwnResults(s) && e in s.boxes && box.net == s.boxes[e].net && box.applied == s.boxes[e].applied
    ensures OwnResults(s.(boxes := s.boxes[e := box]))
  {
  }

  lemma NewBoxOwn(s: State, box: Box)
    requires OwnResults(s)
    ensures OwnResults(s.(boxes := s.boxes[s.nextEpoch := box], nextEpoch := s.nextEpoch + 1))
  {
    assert s.nextEpoch !in s.boxes;
  }

  lemma RequestOwn(s: State, e: nat, elapsed: bool)
    requires OwnResults(s) && e in s.boxes && s.broker.holder.None?
    ensures OwnResults(RequestStep(s, e, elapsed))
  {
    var box := s.boxes[e];
    if box.connected && (!box.inflight || elapsed) {
      var t := Poll(box.net, e, s.nextSeq);
      BoxOwn(s, e, box.(inflight := true));
      var s1 := s.(boxes := s.boxes[e := box.(inflight := true)]);
      var s2 := s1.(nextSeq := s.nextSeq + 1, log := s.log.(asked := s.log.asked + {t}));
      AskOwn(s1, t);
      SendOwn(s2, t);
    }
  }

  lemma AskOwn(s: State, t: Task)
    requires OwnResults(s) && t.Poll? && t.epoch in s.boxes && t.net == s.boxes[t.epoch].net && t.seqno == s.nextSeq
    ensures OwnResults(s.(nextSeq := s.nextSeq + 1, log := s.log.(asked := s.log.asked + {t})))
  {
  }

  lemma ApplyOwn(s: State, e: nat)
    requires OwnResults(s) && e in s.boxes
    ensures OwnResults(ApplyStep(s, e))
  {
    var box := s.boxes[e];
    if box.connected && e in s.results {
      var a := s.results[e];
      var r := Record(e, a);
      var s' := ApplyStep(s, e);
      assert r in s.log.answered;
      if a.seqno > box.applied {
        AppliedGrows(s.boxes, s.log.applied, r, s'.boxes);
      }
    }
  }

  lemma AppliedGrows(boxes: map<nat, Box>, applied: seq<Record>, r: Record, boxes': map<nat, Box>)
    requires AppliedIncreasing(boxes, applied) && r.epoch in boxes && boxes[r.epoch].applied < r.answer.seqno
    requires boxes'.Keys == boxes.Keys && boxes'[r.epoch].applied == r.answer.seqno
    requires forall e | e in boxes && e != r.epoch :: boxes'[e] == boxes[e]
    ensures AppliedIncreasing(boxes', applied + [r])
  {
    var all := applied + [r];
    forall i, j | 0 <= i < j < |all| && all[i].epoch == all[j].epoch ensures all[i].answer.seqno < all[j].answer.seqno {
      if j == |applied| {
        assert applied[i] in applied;
      }
    }
  }

  lemma OwnMutex(s: State, ev: Event)
    requires OwnResults(s) && s.broker.holder.None?
    ensures OwnResults(MutexStep(s, ev))
  {
    match ev
    case NewBox(net) => NewBoxOwn(s, Box(net, false, false, false, 0));
    case List(e) => if e in s.boxes { BoxOwn(s, e, s.boxes[e].(listed := true)); }
    case Connect(e) => if e in s.boxes { BoxOwn(s, e, s.boxes[e].(connected := true)); }
    case LeaveNetwork(e, entity) =>
      if e in s.boxes {
        var box := s.boxes[e].(connected := false, listed := false);
        BoxOwn(s, e, box);
        SendOwn(s.(boxes := s.boxes[e := box]), Leave(box.net, entity));
      }
    case KeepAlive(e, entity, port) =>
      if e in s.boxes { SendOwn(s, Register(s.boxes[e].net, entity, port, true)); }
    case RegisterInside(net, entity, port) => SendOwn(s, Register(net, entity, port, false));
    case Request(e, elapsed) => if e in s.boxes { RequestOwn(s, e, elapsed); }
    case Apply(e) => if e in s.boxes { ApplyOwn(s, e); }
    case _ =>
  }

  lemma OwnStep(serial: bool, s: State, ev: Event)
    requires OwnResults(s)
    ensures OwnResults(Step(serial, s, ev))
  {
    if NeedsMutex(ev) {
      if s.broker.holder.None? { OwnMutex(s, ev); }
    } else if ev.RegisterOutside? {
      var t := Register(ev.net, ev.entity, ev.port, false);
      forall x | InPlay(DispatchOutside(s.broker, t), x) ensures InPlay(s.broker, x) || x == t {
        DispatchInPlay(s.broker, t, x);
      }
    } else {
      OwnBroker(s, ev);
    }
  }

  lemma {:induction false} RunOwnResults(serial: bool, es: seq<Event>)
    ensures OwnResults(Run(serial, es))
  {
    if es != [] {
      RunOwnResults(serial, es[..|es| - 1]);
      RunEnd(serial, es);
      OwnStep(serial, Run(serial, es[..|es| - 1]), es[|es| - 1]);
    }
  }

  /** Over every run, whatever is applied to a box answers the one request with that number, which the
      same box made, and the numbers applied to a box strictly increase. */
  lemma OnlyOwnResultsApplied(serial: bool, es: seq<Event>)
    ensures var s := Run(serial, es);
            && (forall r <- s.log.applied :: r in s.log.answered && Asked(s.boxes, s.log.asked, r.epoch, r.answer.seqno))
            && (forall t, u | t in s.log.asked && u in s.log.asked :: t.Poll? && u.Poll? && (t.seqno == u.seqno ==> t == u))
            && (forall i, j | 0 <= i < j < |s.log.applied| && s.log.applied[i].epoch == s.log.applied[j].epoch ::
                  s.log.applied[i].answer.seqno < s.log.applied[j].answer.seqno)
  {
    RunOwnResults(serial, es);
  }
}
