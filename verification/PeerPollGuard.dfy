/** When the test for an outdated answer can be taken. */
module PeerPollGuard {
  import opened Common
  import opened Seqs
  import opened PeerPoll
  import opened PeerPollRuns

  function Kept(t: Option<Task>): seq<Task> {
    if t.Some? then Keep(Ordered, t.value) else []
  }

  function Current(b: Broker): Option<Task> {
    if b.worker.Some? then b.worker
    else if b.holder.Some? then b.holder.value.current
    else if b.outside != [] then b.outside[0].current
    else None
  }

  function Own(b: Broker): Option<Task> {
    if b.holder.Some? then b.holder.value.own
    else if b.outside != [] then b.outside[0].own
    else None
  }

  /** The polls and leaves to come, in the order in which they will be carried out. */
  function Line(b: Broker): seq<Task> {
    Kept(Current(b)) + (Filter(Ordered, b.queue) + Kept(Own(b)))
  }

  /** One consumer at a time. */
  ghost predicate OneConsumer(b: Broker) {
    && (!b.marked ==> b.queue == [] && b.worker.None?)
    && (b.up ==> b.marked)
    && (b.marked ==> b.thread != Unborn)
    && (b.marked && !b.up ==> b.thread == Dead)
    && (b.worker.Some? ==> b.thread == Alive)
    && |b.outside| <= 1
    && (b.holder.None? || b.outside == [])
    && (b.holder.Some? || b.outside != [] ==> b.worker.None? && (b.queue == [] || b.thread == Dead))
    && (b.holder.Some? ==> b.holder.value.current.Some? || b.holder.value.own.Some?)
    && (b.outside != [] ==> b.outside[0].current.Some? || b.outside[0].own.Some?)
  }

  ghost predicate Above(line: seq<Task>, n: nat) {
    forall t <- line | t.Poll? :: n < t.seqno
  }

  ghost predicate Rising(line: seq<Task>, next: nat) {
    && next >= 1
    && (forall t <- line | t.Poll? :: 1 <= t.seqno < next)
    && (forall i, j | 0 <= i < j < |line| && line[i].Poll? && line[j].Poll? :: line[i].seqno < line[j].seqno)
  }

  /** What has been answered or applied is older than everything to come, and no answer is outdated. */
  ghost predicate Settled(boxes: map<nat, Box>, results: map<nat, Answer>, line: seq<Task>) {
    && (forall e <- boxes :: Above(line, boxes[e].applied))
    && (forall e <- results :: e in boxes && boxes[e].applied < results[e].seqno && Above(line, results[e].seqno))
  }

  ghost predicate Fresh(s: State) {
    && OwnResults(s)
    && OneConsumer(s.broker)
    && Rising(Line(s.broker), s.nextSeq)
    && Settled(s.boxes, s.results, Line(s.broker))
    && (forall e <- s.boxes :: s.boxes[e].applied < s.nextSeq)
    && s.log.refused == []
  }

  // ---------------------------------------------------------------------------
  // The line under each step
  // ---------------------------------------------------------------------------

  lemma DispatchLine(b: Broker, t: Task)
    requires OneConsumer(b) && b.holder.None? && b.outside == []
    ensures OneConsumer(Dispatch(b, t)) && Line(Dispatch(b, t)) == Line(b) + Keep(Ordered, t)
  {
    if b.up {
      EnqueuedFilter(b.queue, t);
      Assoc(Kept(b.worker), Filter(Ordered, b.queue), Keep(Ordered, t));
      assert Filter(Ordered, b.queue) + [] == Filter(Ordered, b.queue);
    } else {
      assert b.worker.None?;
      assert Filter(Ordered, b.queue) + [] == Filter(Ordered, b.queue);
    }
  }

  lemma OutsideLine(b: Broker, t: Task)
    requires OneConsumer(b) && b.holder.None? && b.outside == [] && t.Register?
    ensures OneConsumer(DispatchOutside(b, t)) && Line(DispatchOutside(b, t)) == Line(b)
  {
    DispatchLine(b, t);
    assert Line(b) + [] == Line(b);
  }

  /** The head of the queue becomes the current task of `b'`. */
  lemma HeadLine(b: Broker, b': Broker)
    requires b.queue != [] && b'.queue == b.queue[1..] && Current(b).None? && Current(b') == Some(b.queue[0]) && Own(b') == Own(b)
    ensures Line(b') == Line(b)
  {
    Assoc(Keep(Ordered, b.queue[0]), Filter(Ordered, b.queue[1..]), Kept(Own(b)));
  }

  lemma WorkerTakeLine(s: State)
    requires OneConsumer(s.broker)
    ensures var b' := WorkerTakeStep(s).broker; OneConsumer(b') && Line(b') == Line(s.broker)
  {
    if WorkerTakeStep(s) != s { HeadLine(s.broker, WorkerTakeStep(s).broker); }
  }

  lemma HolderTakeLine(s: State)
    requires OneConsumer(s.broker)
    ensures var b' := HolderTakeStep(s).broker; OneConsumer(b') && Line(b') == Line(s.broker)
  {
    var b := s.broker;
    if b.queue != [] && HolderTakeStep(s) != s { HeadLine(b, HolderTakeStep(s).broker); }
  }

  lemma OutsideTakeLine(s: State, k: nat)
    requires OneConsumer(s.broker)
    ensures var b' := OutsideTakeStep(s, k).broker; OneConsumer(b') && Line(b') == Line(s.broker)
  {
    var b := s.broker;
    if b.queue != [] && OutsideTakeStep(s, k) != s { HeadLine(b, OutsideTakeStep(s, k).broker); }
  }

  /** Taking a task leaves the line as it is. */
  lemma TakeLine(s: State, ev: Event)
    requires OneConsumer(s.broker) && (ev.WorkerTake? || ev.HolderTake? || ev.OutsideTake?)
    ensures var b' := BrokerStep(s, ev).broker; OneConsumer(b') && Line(b') == Line(s.broker)
  {
    match ev
    case WorkerTake => WorkerTakeLine(s);
    case HolderTake => HolderTakeLine(s);
    case OutsideTake(k) => OutsideTakeLine(s, k);
  }

  lemma RestedBroker(b: Broker, c: Caller)
    requires OneConsumer(b) && (b.holder == Some(c) || b.outside == [c]) && c.current.Some?
    ensures var b' := if b.holder.Some? then b.(holder := Rested(c)) else b.(outside := OutsideRested(b.outside, 0));
            && OneConsumer(b') && b'.queue == b.queue
            && Current(b) == c.current && Current(b').None? && Own(b') == Own(b)
  {
  }

  lemma FinishBroker(s: State, ev: Event)
    requires OneConsumer(s.broker) && Running(s.broker, ev).Some?
    ensures var b, b' := s.broker, BrokerStep(s, ev).broker;
            && OneConsumer(b') && b'.queue == b.queue
            && Current(b) == Running(b, ev) && Current(b').None? && Own(b') == Own(b)
  {
    var b := s.broker;
    match ev
    case HolderFinish(_) => RestedBroker(b, b.holder.value);
    case OutsideFinish(k, _) =>
      assert b.outside == [b.outside[k]];
      RestedBroker(b, b.outside[k]);
    case _ =>
  }

  /** With one consumer the task that finishes is at the front of the line, and leaves it. */
  lemma FinishLine(s: State, ev: Event)
    requires OneConsumer(s.broker) && Running(s.broker, ev).Some?
    ensures var b, b' := s.broker, BrokerStep(s, ev).broker;
            OneConsumer(b') && Line(b) == Keep(Ordered, Running(b, ev).value) + Line(b')
  {
    var b := s.broker;
    FinishBroker(s, ev);
    assert [] + (Filter(Ordered, b.queue) + Kept(Own(b))) == Filter(Ordered, b.queue) + Kept(Own(b));
  }

  lemma DieLine(b: Broker)
    requires OneConsumer(b) && b.thread == Alive
    ensures var b' := b.(thread := Dead, worker := None); OneConsumer(b') && Line(b) == Kept(b.worker) + Line(b')
  {
    assert [] + (Filter(Ordered, b.queue) + Kept(Own(b))) == Filter(Ordered, b.queue) + Kept(Own(b));
  }

  // ---------------------------------------------------------------------------
  // Freshness under each step
  // ---------------------------------------------------------------------------

  /** The line may grow at the end by a request with the next number. */
  lemma RisingGrows(line: seq<Task>, next: nat, t: Task)
    requires Rising(line, next) && (t.Poll? ==> t.seqno == next)
    ensures Rising(line + Keep(Ordered, t), next + 1)
    ensures !t.Poll? ==> Rising(line + Keep(Ordered, t), next)
  {
    var line' := line + Keep(Ordered, t);
    forall i, j | 0 <= i < j < |line'| && line'[i].Poll? && line'[j].Poll? ensures line'[i].seqno < line'[j].seqno {
      if j == |line| {
        assert line[i] in line;
      }
    }
  }

  ghost predicate Suffix(line': seq<Task>, line: seq<Task>) {
    |line'| <= |line| && line' == line[|line| - |line'|..]
  }

  lemma SuffixFresh(boxes: map<nat, Box>, results: map<nat, Answer>, next: nat, line: seq<Task>, line': seq<Task>)
    requires Rising(line, next) && Settled(boxes, results, line) && Suffix(line', line)
    ensures Rising(line', next) && Settled(boxes, results, line')
  {
    var d := |line| - |line'|;
    assert forall i | 0 <= i < |line'| :: line'[i] == line[d + i];
  }

  lemma FinishFresh(s: State, ev: Event)
    requires Fresh(s) && Finishes(ev)
    ensures Fresh(BrokerStep(s, ev))
  {
    var s', running := BrokerStep(s, ev), Running(s.broker, ev);
    FinishedTask(s, ev);
    if running.Some? {
      OwnBroker(s, ev);
      FinishLine(s, ev);
      var line, line' := Line(s.broker), Line(s'.broker);
      assert Suffix(line', line);
      SuffixFresh(s.boxes, s.results, s.nextSeq, line, line');
      if running.value.Poll? {
        AnswerFresh(s, running.value, line', ev.members);
      }
      FinishOnly(s, ev);
    }
  }

  lemma FinishOnly(s: State, ev: Event)
    requires Finishes(ev)
    ensures var s' := BrokerStep(s, ev);
            s'.boxes == s.boxes && s'.nextSeq == s.nextSeq && s'.log.refused == s.log.refused
  {
  }

  lemma AnswerFresh(s: State, t: Task, line': seq<Task>, members: seq<Peer>)
    requires OwnResults(s) && t.Poll? && InPlay(s.broker, t)
    requires Line(s.broker) == [t] + line' && Rising(Line(s.broker), s.nextSeq) && Settled(s.boxes, s.results, Line(s.broker))
    ensures Settled(s.boxes, s.results[t.epoch := Answer(t.seqno, members)], line')
  {
    var line := Line(s.broker);
    assert line[0] == t && t in line;
    forall u <- line' | u.Poll? ensures t.seqno < u.seqno {
      var i :| 0 <= i < |line'| && line'[i] == u;
      assert line[i + 1] == u;
    }
    assert Above(line', t.seqno);
    forall u <- line' ensures u in line {
      var i :| 0 <= i < |line'| && line'[i] == u;
      assert line[i + 1] == u;
    }
  }

  /** Freshness is a matter of the boxes, the results, the counter and the line. */
  lemma LineKept(s: State, s': State)
    requires Fresh(s) && OwnResults(s') && OneConsumer(s'.broker) && Line(s'.broker) == Line(s.broker)
    requires s'.boxes == s.boxes && s'.results == s.results && s'.nextSeq == s.nextSeq && s'.log.refused == s.log.refused
    ensures Fresh(s')
  {
  }

  lemma TakeFresh(s: State, ev: Event)
    requires Fresh(s) && (ev.WorkerTake? || ev.HolderTake? || ev.OutsideTake?)
    ensures Fresh(BrokerStep(s, ev))
  {
    OwnBroker(s, ev);
    TakeLine(s, ev);
    TakeOnly(s, ev);
    LineKept(s, BrokerStep(s, ev));
  }

  lemma TakeOnly(s: State, ev: Event)
    requires ev.WorkerTake? || ev.HolderTake? || ev.OutsideTake?
    ensures var s' := BrokerStep(s, ev);
            s'.boxes == s.boxes && s'.results == s.results && s'.nextSeq == s.nextSeq && s'.log.refused == s.log.refused
  {
  }

  lemma ThreadLine(b: Broker, ev: Event)
    requires OneConsumer(b) && !ev.Die?
    ensures OneConsumer(ThreadStep(b, ev)) && Line(ThreadStep(b, ev)) == Line(b)
  {
  }

  lemma ThreadIs(s: State, ev: Event)
    requires ev.Spawn? || ev.MarkUp? || ev.Die? || ev.MarkDown?
    ensures BrokerStep(s, ev) == s.(broker := ThreadStep(s.broker, ev))
  {
  }

  lemma ThreadFresh(s: State, ev: Event)
    requires Fresh(s) && (ev.Spawn? || ev.MarkUp? || ev.Die? || ev.MarkDown?)
    ensures Fresh(BrokerStep(s, ev))
  {
    OwnBroker(s, ev);
    ThreadIs(s, ev);
    if !ev.Die? {
      ThreadLine(s.broker, ev);
      LineKept(s, s.(broker := ThreadStep(s.broker, ev)));
    } else if s.broker.thread == Alive {
      DieFresh(s);
    }
  }

  lemma BrokerFresh(s: State, ev: Event)
    requires Fresh(s) && !NeedsMutex(ev) && !ev.RegisterOutside?
    ensures Fresh(BrokerStep(s, ev))
  {
    if Finishes(ev) {
      FinishFresh(s, ev);
    } else if ev.WorkerTake? || ev.HolderTake? || ev.OutsideTake? {
      TakeFresh(s, ev);
    } else {
      ThreadFresh(s, ev);
    }
  }

  lemma DieFresh(s: State)
    requires Fresh(s) && s.broker.thread == Alive
    requires OwnResults(s.(broker := s.broker.(thread := Dead, worker := None)))
    ensures Fresh(s.(broker := s.broker.(thread := Dead, worker := None)))
  {
    var b := s.broker.(thread := Dead, worker := None);
    DieLine(s.broker);
    assert Suffix(Line(b), Line(s.broker));
    SuffixFresh(s.boxes, s.results, s.nextSeq, Line(s.broker), Line(b));
  }

  lemma SettledGrows(boxes: map<nat, Box>, results: map<nat, Answer>, line: seq<Task>, t: Task)
    requires Settled(boxes, results, line)
    requires t.Poll? ==> (forall e <- boxes :: boxes[e].applied < t.seqno) && (forall e <- results :: results[e].seqno < t.seqno)
    ensures Settled(boxes, results, line + Keep(Ordered, t))
  {
  }

  lemma SendFresh(s: State, t: Task)
    requires Fresh(s) && s.broker.holder.None? && s.broker.outside == [] && !t.Poll?
    ensures Fresh(Send(s, t))
  {
    SendOwn(s, t);
    DispatchLine(s.broker, t);
    RisingGrows(Line(s.broker), s.nextSeq, t);
  }

  /** A box rewritten without changing its network or what it has applied. */
  lemma BoxFresh(s: State, e: nat, box: Box)
    requires Fresh(s) && e in s.boxes && box.net == s.boxes[e].net && box.applied == s.boxes[e].applied
    ensures Fresh(s.(boxes := s.boxes[e := box]))
  {
    BoxOwn(s, e, box);
  }

  lemma NewBoxFresh(s: State, box: Box)
    requires Fresh(s) && box.applied == 0
    ensures Fresh(s.(boxes := s.boxes[s.nextEpoch := box], nextEpoch := s.nextEpoch + 1))
  {
    NewBoxOwn(s, box);
    assert s.nextEpoch !in s.boxes;
  }

  lemma AskFresh(s: State, t: Task)
    requires Fresh(s) && s.broker.holder.None? && s.broker.outside == []
    requires t.Poll? && t.epoch in s.boxes && t.net == s.boxes[t.epoch].net && t.seqno == s.nextSeq
    ensures Fresh(Send(s.(nextSeq := s.nextSeq + 1, log := s.log.(asked := s.log.asked + {t})), t))
  {
    AskOwn(s, t);
    SendOwn(s.(nextSeq := s.nextSeq + 1, log := s.log.(asked := s.log.asked + {t})), t);
    DispatchLine(s.broker, t);
    AskLine(s, t);
  }

  /** The new request goes to the end of the line, younger than everything answered or applied. */
  lemma AskLine(s: State, t: Task)
    requires Fresh(s) && t.Poll? && t.seqno == s.nextSeq
    ensures Rising(Line(s.broker) + Keep(Ordered, t), s.nextSeq + 1)
    ensures Settled(s.boxes, s.results, Line(s.broker) + Keep(Ordered, t))
  {
    RisingGrows(Line(s.broker), s.nextSeq, t);
    forall r <- s.results ensures s.results[r].seqno < s.nextSeq {
      assert Record(r, s.results[r]) in s.log.answered;
    }
    SettledGrows(s.boxes, s.results, Line(s.broker), t);
  }

  lemma RequestFresh(s: State, e: nat, elapsed: bool)
    requires Fresh(s) && s.broker.holder.None? && s.broker.outside == [] && e in s.boxes
    ensures Fresh(RequestStep(s, e, elapsed))
  {
    if s.boxes[e].connected && (!s.boxes[e].inflight || elapsed) {
      var box := s.boxes[e].(inflight := true);
      var t := Poll(box.net, e, s.nextSeq);
      var s1 := s.(boxes := s.boxes[e := box]);
      BoxFresh(s, e, box);
      AskFresh(s1, t);
      assert RequestStep(s, e, elapsed) == Send(s1.(nextSeq := s1.nextSeq + 1, log := s1.log.(asked := s1.log.asked + {t})), t);
    }
  }

  lemma ApplyFresh(s: State, e: nat)
    requires Fresh(s) && e in s.boxes
    ensures Fresh(ApplyStep(s, e))
  {
    ApplyOwn(s, e);
    if e in s.results {
      assert Record(e, s.results[e]) in s.log.answered;
    }
  }

  lemma LeaveFresh(s: State, e: nat, entity: string)
    requires Fresh(s) && s.broker.holder.None? && s.broker.outside == [] && e in s.boxes
    ensures Fresh(LeaveStep(s, e, entity))
  {
    var box := s.boxes[e].(connected := false, listed := false);
    BoxFresh(s, e, box);
    SendFresh(s.(boxes := s.boxes[e := box]), Leave(box.net, entity));
  }

  predicate Calls(ev: Event) {
    ev.LeaveNetwork? || ev.KeepAlive? || ev.RegisterInside? || ev.Request?
  }

  lemma KeepAliveFresh(s: State, e: nat, entity: string, port: nat)
    requires Fresh(s) && s.broker.holder.None? && s.broker.outside == []
    ensures Fresh(MutexStep(s, KeepAlive(e, entity, port)))
  {
    if e in s.boxes { SendFresh(s, Register(s.boxes[e].net, entity, port, true)); }
  }

  /** The calls that dispatch. */
  lemma CallFresh(s: State, ev: Event)
    requires Fresh(s) && s.broker.holder.None? && s.broker.outside == [] && Calls(ev)
    ensures Fresh(MutexStep(s, ev))
  {
    match ev
    case LeaveNetwork(e, entity) => if e in s.boxes { LeaveFresh(s, e, entity); }
    case KeepAlive(e, entity, port) => KeepAliveFresh(s, e, entity, port);
    case RegisterInside(net, entity, port) => SendFresh(s, Register(net, entity, port, false));
    case Request(e, elapsed) => if e in s.boxes { RequestFresh(s, e, elapsed); }
  }

  lemma MutexFresh(s: State, ev: Event)
    requires Fresh(s) && s.broker.holder.None? && s.broker.outside == []
    ensures Fresh(MutexStep(s, ev))
  {
    match ev
    case NewBox(net) => NewBoxFresh(s, Box(net, false, false, false, 0));
    case List(e) => if e in s.boxes { BoxFresh(s, e, s.boxes[e].(listed := true)); }
    case Connect(e) => if e in s.boxes { BoxFresh(s, e, s.boxes[e].(connected := true)); }
    case Sweep => SweepFresh(s);
    case Apply(e) => if e in s.boxes { ApplyFresh(s, e); }
    case _ => if Calls(ev) { CallFresh(s, ev); }
  }

  lemma SweepFresh(s: State)
    requires Fresh(s)
    ensures Fresh(MutexStep(s, Sweep))
  {
  }

  lemma StepFresh(s: State, ev: Event)
    requires Fresh(s)
    ensures Fresh(Step(true, s, ev))
  {
    OwnStep(true, s, ev);
    if NeedsMutex(ev) {
      if s.broker.holder.None? && s.broker.outside == [] { MutexFresh(s, ev); }
    } else if ev.RegisterOutside? {
      if s.broker.holder.None? && s.broker.outside == [] {
        OutsideLine(s.broker, Register(ev.net, ev.entity, ev.port, false));
      }
    } else {
      BrokerFresh(s, ev);
    }
  }

  /** With every call of the title on one thread, no answer is ever outdated when the tick takes it,
      whatever the broker thread, the watchdog, leaves and re-joins do. */
  lemma {:induction false} SerialNeverRefuses(es: seq<Event>)
    ensures Fresh(Run(true, es))
  {
    if es != [] {
      SerialNeverRefuses(es[..|es| - 1]);
      RunEnd(true, es);
      StepFresh(Run(true, es[..|es| - 1]), es[|es| - 1]);
    }
  }

  // ---------------------------------------------------------------------------
  // A registration made beside the tick can make an answer outdated
  // ---------------------------------------------------------------------------

  ghost predicate Looks(s: State, box: Box, next: nat, results: map<nat, Answer>, b: Broker) {
    s.boxes == map[1 := box] && s.nextEpoch == 2 && s.nextSeq == next && s.results == results && s.broker == b
  }

  function Asking(applied: nat): Box {
    Box("n", true, true, true, applied)
  }

  const POLLING: Caller := Caller(Some(Poll("n", 1, 1)), Some(Register("m", "x", 1, false)))

  lemma Next(es: seq<Event>, s: State, ev: Event) returns (es': seq<Event>, s': State)
    requires s == Run(false, es)
    ensures s' == Run(false, es') && s' == Step(false, s, ev)
  {
    es', s' := es + [ev], Step(false, s, ev);
    FoldSnoc(Stepper(false), Init(), es, ev);
  }

  /** A box is connected, the broker thread comes up. */
  lemma Opening() returns (es: seq<Event>, s: State)
    ensures s == Run(false, es) && s.log.refused == []
    ensures Looks(s, Box("n", true, true, false, 0), 1, map[], Broker([], Alive, true, true, None, None, []))
  {
    es, s := [], Init();
    es, s := Next(es, s, NewBox("n"));
    es, s := Next(es, s, List(1));
    es, s := Next(es, s, Connect(1));
    es, s := Next(es, s, Spawn);
    es, s := Next(es, s, MarkUp);
  }

  /** The thread dies with the box's poll still queued. */
  lemma Stranded(es: seq<Event>, s0: State) returns (es': seq<Event>, s: State)
    requires s0 == Run(false, es) && s0.log.refused == []
    requires Looks(s0, Box("n", true, true, false, 0), 1, map[], Broker([], Alive, true, true, None, None, []))
    ensures s == Run(false, es') && s.log.refused == []
    ensures Looks(s, Asking(0), 2, map[], Broker([Poll("n", 1, 1)], Dead, false, true, None, None, []))
  {
    es', s := Next(es, s0, Request(1, false));
    assert Enqueued([], Poll("n", 1, 1)) == [Poll("n", 1, 1)];
    es', s := Next(es', s, Die);
    es', s := Next(es', s, MarkDown);
  }

  /** A create running inline, beside the tick, takes the queued poll. */
  lemma Beside(es: seq<Event>, s0: State) returns (es': seq<Event>, s: State)
    requires s0 == Run(false, es) && s0.log.refused == []
    requires Looks(s0, Asking(0), 2, map[], Broker([Poll("n", 1, 1)], Dead, false, true, None, None, []))
    ensures s == Run(false, es') && s.log.refused == []
    ensures Looks(s, Asking(0), 2, map[], Broker([], Dead, false, true, None, None, [POLLING]))
  {
    es', s := Next(es, s0, RegisterOutside("m", "x", 1));
    es', s := Next(es', s, OutsideTake(0));
  }

  /** The watchdog re-arms; the tick polls inline, and then applies that newer answer. */
  lemma Overtakes(es: seq<Event>, s0: State) returns (es': seq<Event>, s: State)
    requires s0 == Run(false, es) && s0.log.refused == []
    requires Looks(s0, Asking(0), 2, map[], Broker([], Dead, false, true, None, None, [POLLING]))
    ensures s == Run(false, es') && s.log.refused == []
    ensures Looks(s, Asking(0), 3, map[], Broker([], Dead, false, true, None, Some(Caller(Some(Poll("n", 1, 2)), None)), [POLLING]))
  {
    es', s := Next(es, s0, Request(1, true));
    assert s.broker.holder == Some(Caller(None, Some(Poll("n", 1, 2))));
    es', s := Next(es', s, HolderTake);
  }

  lemma Applies(es: seq<Event>, s0: State) returns (es': seq<Event>, s: State)
    requires s0 == Run(false, es) && s0.log.refused == []
    requires Looks(s0, Asking(0), 3, map[], Broker([], Dead, false, true, None, Some(Caller(Some(Poll("n", 1, 2)), None)), [POLLING]))
    ensures s == Run(false, es') && s.log.refused == []
    ensures Looks(s, Asking(2).(inflight := false), 3, map[], Broker([], Dead, false, true, None, None, [POLLING]))
  {
    es', s := Next(es, s0, HolderFinish([]));
    assert s.results == map[1 := Answer(2, [])];
    es', s := Next(es', s, Apply(1));
    assert s.results == map[];
  }

  /** The older answer arrives last and is refused. */
  lemma Refuses(es: seq<Event>, s0: State) returns (es': seq<Event>, s: State)
    requires s0 == Run(false, es) && s0.log.refused == []
    requires Looks(s0, Asking(2).(inflight := false), 3, map[], Broker([], Dead, false, true, None, None, [POLLING]))
    ensures s == Run(false, es') && s.log.refused == [Record(1, Answer(1, []))]
  {
    es', s := Next(es, s0, OutsideFinish(0, []));
    assert s.results == map[1 := Answer(1, [])];
    es', s := Next(es', s, Apply(1));
  }

  lemma OvertakenAnswerRefused() returns (es: seq<Event>)
    ensures Run(false, es).log.refused == [Record(1, Answer(1, []))]
  {
    var s;
    es, s := Opening();
    es, s := Stranded(es, s);
    es, s := Beside(es, s);
    es, s := Overtakes(es, s);
    es, s := Applies(es, s);
    es, s := Refuses(es, s);
  }

  /** The test for an outdated answer is needed exactly because the title may call from several threads. */
  lemma RefusalExact(serial: bool)
    ensures (forall es :: Run(serial, es).log.refused == []) <==> serial
  {
    if serial {
      forall es ensures Run(true, es).log.refused == [] {
        SerialNeverRefuses(es);
      }
    } else {
      var es := OvertakenAnswerRefused();
    }
  }
}
