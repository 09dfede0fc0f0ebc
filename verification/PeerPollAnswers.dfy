/** The way of an answer: exactly what is stored and applied, and that a poll can always come back. */
module PeerPollAnswers {
  import opened Common
  import opened Seqs
  import opened PeerPoll
  import opened PeerPollRuns
  import opened PeerPollGuard

  // ---------------------------------------------------------------------------
  // Every answer carries the peers that its poll brought back
  // ---------------------------------------------------------------------------

  /** The event carries out the poll that `r` answers, and brings back its members. */
  ghost predicate Answers(s: State, ev: Event, r: Record) {
    Finishes(ev) &&
    match Running(s.broker, ev)
    case Some(Poll(_, epoch, seqno)) => r == Record(epoch, Answer(seqno, ev.members))
    case _ => false
  }

  lemma AnsweredStep(serial: bool, s: State, ev: Event, r: Record)
    ensures r in Step(serial, s, ev).log.answered <==> r in s.log.answered || Answers(s, ev, r)
  {
    if Finishes(ev) {
      FinishedTask(s, ev);
    } else if NeedsMutex(ev) {
      MutexAnswers(s, ev);
    } else if !ev.RegisterOutside? {
      BrokerAnswers(s, ev);
    }
  }

  lemma MutexAnswers(s: State, ev: Event)
    ensures MutexStep(s, ev).log.answered == s.log.answered
  {
  }

  lemma BrokerAnswers(s: State, ev: Event)
    requires !Finishes(ev)
    ensures BrokerStep(s, ev).log.answered == s.log.answered
  {
  }

  ghost predicate AnsweredAt(serial: bool, es: seq<Event>, n: nat, r: Record)
    requires n < |es|
  {
    Answers(Run(serial, es[..n]), es[n], r)
  }

  lemma {:induction false} AnsweredExact(serial: bool, es: seq<Event>, r: Record)
    ensures r in Run(serial, es).log.answered <==> exists n | 0 <= n < |es| :: AnsweredAt(serial, es, n, r)
  {
    if es != [] {
      var k := |es| - 1;
      AnsweredExact(serial, es[..k], r);
      RunEnd(serial, es);
      AnsweredStep(serial, Run(serial, es[..k]), es[k], r);
      forall n | 0 <= n < k ensures AnsweredAt(serial, es[..k], n, r) <==> AnsweredAt(serial, es, n, r) {
        assert es[..k][..n] == es[..n];
      }
      assert AnsweredAt(serial, es, k, r) <==> Answers(Run(serial, es[..k]), es[k], r);
    }
  }

  /** Over every run, whatever is applied to a box is the answer that some step brought back for the poll
      with that epoch and number, with exactly the peers of that step. */
  lemma AppliedAsAnswered(serial: bool, es: seq<Event>, r: Record)
    requires r in Run(serial, es).log.applied
    ensures exists n | 0 <= n < |es| :: AnsweredAt(serial, es, n, r)
  {
    OnlyOwnResultsApplied(serial, es);
    AnsweredExact(serial, es, r);
  }

  // ---------------------------------------------------------------------------
  // What is waiting is applied at the next visit
  // ---------------------------------------------------------------------------

  /** With the title on one thread, a visit of a live, connected box applies the answer that waits for it,
      exactly if there is one, and lets the box ask again. */
  lemma VisitApplies(es: seq<Event>, e: nat)
    requires var s := Run(true, es); s.broker.holder.None? && s.broker.outside == [] && e in s.boxes
    requires Run(true, es).boxes[e].listed && Run(true, es).boxes[e].connected
    ensures var s, t := Run(true, es), Step(true, Run(true, es), Apply(e));
            && t.log.applied == s.log.applied + (if e in s.results then [Record(e, s.results[e])] else [])
            && e !in t.results && (e in s.results ==> !t.boxes[e].inflight)
  {
    SerialNeverRefuses(es);
    var s := Run(true, es);
    assert s.log.applied + [] == s.log.applied;
  }

  // ---------------------------------------------------------------------------
  // A poll can always come back
  // ---------------------------------------------------------------------------

  /** No call runs inline, and what is queued can be worked on. */
  ghost predicate Idle(b: Broker) {
    b.holder.None? && b.outside == []
  }

  ghost function From(s: State, es: seq<Event>): State {
    Fold(Stepper(true), s, es)
  }

  lemma FromThen(s: State, a: seq<Event>, ev: Event) returns (b: seq<Event>, t: State)
    ensures b == a + [ev] && t == Step(true, From(s, a), ev) && t == From(s, b)
  {
    b, t := a + [ev], Step(true, From(s, a), ev);
    FoldSnoc(Stepper(true), s, a, ev);
  }

  /** The boxes, the counters and the log of applications stay while the broker works. */
  ghost predicate Undisturbed(s: State, t: State) {
    t.boxes == s.boxes && t.nextSeq == s.nextSeq && t.log.applied == s.log.applied
  }

  /** A live thread with nothing in hand takes the head of the queue and carries it out. */
  lemma WorkerTurn(s: State, members: seq<Peer>)
    requires s.broker.thread == Alive && s.broker.worker.None? && s.broker.queue != []
    ensures var t := Step(true, Step(true, s, WorkerTake), WorkerFinish(members));
            && Undisturbed(s, t) && t.broker == s.broker.(queue := s.broker.queue[1..])
            && t.results == RunTask(s, s.broker.queue[0], members).results
  {
  }

  /** It works through the queue; the last poll in it leaves its answer. */
  lemma {:induction false} WorkThrough(s: State, members: seq<Peer>, t: Task) returns (es: seq<Event>)
    requires s.broker.thread == Alive && s.broker.worker.None? && s.broker.queue != []
    requires t == s.broker.queue[|s.broker.queue| - 1] && t.Poll?
    ensures var u := From(s, es);
            && Undisturbed(s, u) && u.broker == s.broker.(queue := [])
            && t.epoch in u.results && u.results[t.epoch] == Answer(t.seqno, members)
    decreases |s.broker.queue|
  {
    var turn := [WorkerTake, WorkerFinish(members)];
    var s1 := Step(true, Step(true, s, WorkerTake), WorkerFinish(members));
    WorkerTurn(s, members);
    TwoSteps(s, WorkerTake, WorkerFinish(members));
    if |s.broker.queue| == 1 {
      es := turn;
    } else {
      var rest := WorkThrough(s1, members, t);
      es := turn + rest;
      FoldConcat(Stepper(true), s, turn, rest);
    }
  }

  lemma TwoSteps(s: State, a: Event, b: Event)
    ensures From(s, [a, b]) == Step(true, Step(true, s, a), b)
  {
    FoldSnoc(Stepper(true), s, [], a);
    FoldSnoc(Stepper(true), s, [a], b);
    assert [] + [a] == [a] && [a] + [b] == [a, b];
  }

  /** Whatever the thread has in hand, it can finish it. */
  lemma WorkerFree(s: State) returns (es: seq<Event>)
    ensures var t := From(s, es); Undisturbed(s, t) && t.broker == s.broker.(worker := None)
  {
    es := [];
    if s.broker.worker.Some? {
      var t;
      es, t := FromThen(s, [], WorkerFinish([]));
      WorkerFrees(s);
    }
  }

  lemma WorkerFrees(s: State)
    requires s.broker.worker.Some?
    ensures var t := Step(true, s, WorkerFinish([])); Undisturbed(s, t) && t.broker == s.broker.(worker := None)
  {
  }

  /** The same for a call that runs its own poll inline, after everything queued. */
  lemma HolderTurn(s: State, own: Task, members: seq<Peer>)
    requires s.broker.holder == Some(Caller(None, Some(own)))
    ensures var t, q := Step(true, Step(true, s, HolderTake), HolderFinish(members)), s.broker.queue;
            && Undisturbed(s, t)
            && t.broker == (if q == [] then s.broker.(holder := None) else s.broker.(queue := q[1..]))
            && t.results == RunTask(s, if q == [] then own else q[0], members).results
  {
    var s1 := Step(true, s, HolderTake);
    if s.broker.queue == [] {
      assert s1.broker.holder == Some(Caller(Some(own), None));
    } else {
      assert s1.broker.holder == Some(Caller(Some(s.broker.queue[0]), Some(own)));
    }
  }

  lemma {:induction false} WorkInline(s: State, own: Task, members: seq<Peer>) returns (es: seq<Event>)
    requires s.broker.holder == Some(Caller(None, Some(own))) && own.Poll?
    ensures var u := From(s, es);
            && Undisturbed(s, u) && u.broker == s.broker.(queue := [], holder := None)
            && own.epoch in u.results && u.results[own.epoch] == Answer(own.seqno, members)
    decreases |s.broker.queue|
  {
    var turn := [HolderTake, HolderFinish(members)];
    var s1 := Step(true, Step(true, s, HolderTake), HolderFinish(members));
    HolderTurn(s, own, members);
    TwoSteps(s, HolderTake, HolderFinish(members));
    if s.broker.queue == [] {
      es := turn;
    } else {
      var rest := WorkInline(s1, own, members);
      es := turn + rest;
      FoldConcat(Stepper(true), s, turn, rest);
    }
  }

  /** A thread known to be dead is marked down; one that is up is not dead. */
  lemma ThreadKnown(s: State) returns (es: seq<Event>)
    requires Idle(s.broker)
    ensures var t := From(s, es);
            && Undisturbed(s, t) && Idle(t.broker) && !(t.broker.up && t.broker.thread == Dead)
            && t.broker.queue == s.broker.queue && t.broker.thread == s.broker.thread
  {
    es := [];
    if s.broker.up && s.broker.thread == Dead {
      var t;
      es, t := FromThen(s, [], MarkDown);
    }
  }

  ghost predicate MayAsk(s: State, e: nat) {
    Idle(s.broker) && e in s.boxes && s.boxes[e].listed && s.boxes[e].connected
  }

  /** A request by an idle box is dispatched, whether or not the watchdog had to re-arm it. */
  lemma AskNow(s: State, e: nat)
    requires MayAsk(s, e)
    ensures var t, task := Step(true, s, Request(e, true)), Poll(s.boxes[e].net, e, s.nextSeq);
            && t.log.applied == s.log.applied && e in t.boxes && t.boxes[e].listed && t.boxes[e].connected
            && t.broker == if s.broker.up then s.broker.(queue := s.broker.queue + [task])
                           else s.broker.(holder := Some(Caller(None, Some(task))))
  {
  }

  /** The poll asked from `s` is carried out and leaves its answer. */
  lemma AskedAndAnswered(s: State, e: nat, members: seq<Peer>) returns (es: seq<Event>)
    requires MayAsk(s, e) && OneConsumer(s.broker) && !(s.broker.up && s.broker.thread == Dead)
    ensures var t := From(s, es);
            && MayAsk(t, e) && t.log.applied == s.log.applied
            && e in t.results && t.results[e] == Answer(s.nextSeq, members)
  {
    var task := Poll(s.boxes[e].net, e, s.nextSeq);
    var a, s1 := FromThen(s, [], Request(e, true));
    assert From(s, []) == s;
    AskNow(s, e);
    if s.broker.up {
      var free := WorkerFree(s1);
      var s2 := From(s1, free);
      var work := WorkThrough(s2, members, task);
      es := a + (free + work);
      FoldConcat(Stepper(true), s1, free, work);
      FoldConcat(Stepper(true), s, a, free + work);
    } else {
      var work := WorkInline(s1, task, members);
      es := a + work;
      FoldConcat(Stepper(true), s, a, work);
    }
  }

  lemma RunThen(es: seq<Event>, more: seq<Event>)
    ensures Run(true, es + more) == From(Run(true, es), more)
  {
    FoldConcat(Stepper(true), Init(), es, more);
  }

  lemma RunAnswered(es: seq<Event>, e: nat, members: seq<Peer>) returns (more: seq<Event>)
    requires MayAsk(Run(true, es), e)
    ensures var s, t := Run(true, es), Run(true, es + more);
            && MayAsk(t, e) && t.log.applied == s.log.applied
            && e in t.results && t.results[e] == Answer(s.nextSeq, members)
  {
    var s := Run(true, es);
    var known := ThreadKnown(s);
    RunThen(es, known);
    SerialNeverRefuses(es + known);
    var asked := AskedAndAnswered(From(s, known), e, members);
    RunThen(es + known, asked);
    more := known + asked;
    Assoc(es, known, asked);
  }

  /** From every reachable state in which no call runs inline, whatever is queued, in hand or in flight and
      whether the broker thread lives or not, a live connected box can ask and gets the peers of its answer. */
  lemma PollComesBack(es: seq<Event>, e: nat, members: seq<Peer>) returns (more: seq<Event>)
    requires MayAsk(Run(true, es), e)
    ensures Run(true, es + more).log.applied
         == Run(true, es).log.applied + [Record(e, Answer(Run(true, es).nextSeq, members))]
  {
    var back := RunAnswered(es, e, members);
    VisitApplies(es + back, e);
    FoldSnoc(Stepper(true), Init(), es + back, Apply(e));
    more := back + [Apply(e)];
    Assoc(es, back, [Apply(e)]);
  }

  // ---------------------------------------------------------------------------
  // What the calls dispatch
  // ---------------------------------------------------------------------------

  /** The newest registration of a member is in the queue; of the rest only its older one goes, and at the
      cap the oldest registration. */
  lemma EnqueuedHas(q: seq<Task>, t: Task)
    ensures t in Enqueued(q, t)
    ensures forall x <- q | !SameMember(x, t) && (|q| < BROKER_QUEUE_CAP || !x.Register? || !t.Register?) :: x in Enqueued(q, t)
    ensures |Enqueued(q, t)| >= |q|
  {
    var k := FirstIndex(x => SameMember(x, t), q, 0);
    if k < |q| {
      assert q[k := t][k] == t;
      forall x <- q | !SameMember(x, t) ensures x in q[k := t] {
        var i :| 0 <= i < |q| && q[i] == x;
        assert q[k := t][i] == x;
      }
    } else if t.Register? {
      RoomHas(q);
      assert (MakeRoom(q) + [t])[|MakeRoom(q)|] == t;
    }
  }

  lemma RoomHas(q: seq<Task>)
    ensures |MakeRoom(q)| + 1 >= |q| && (|q| < BROKER_QUEUE_CAP ==> MakeRoom(q) == q)
    ensures forall x <- q | !x.Register? :: x in MakeRoom(q)
  {
    var k := FirstIndex((t: Task) => t.Register?, q, 0);
    if k < |q| {
      SplitAt(q, k);
    }
  }

  predicate IsRegistration(t: Task) {
    t.Register?
  }

  /** No more registrations than the cap wait at any time. */
  ghost predicate FewRegistrations(q: seq<Task>) {
    |Filter(IsRegistration, q)| <= BROKER_QUEUE_CAP
  }

  lemma {:induction false} FilterShorter(p: Task -> bool, q: seq<Task>)
    ensures |Filter(p, q)| <= |q|
  {
    if q != [] { FilterShorter(p, q[1..]); }
  }

  lemma EnqueuedFew(q: seq<Task>, t: Task)
    requires FewRegistrations(q)
    ensures FewRegistrations(Enqueued(q, t))
  {
    var k := FirstIndex(x => SameMember(x, t), q, 0);
    if k < |q| {
      FilterSplit(IsRegistration, q, k);
      FilterSplit(IsRegistration, q[k := t], k);
      assert q[k := t][..k] == q[..k] && q[k := t][k + 1..] == q[k + 1..];
    } else {
      var room := if t.Register? then MakeRoom(q) else q;
      if t.Register? { RoomFew(q); }
      FilterConcat(IsRegistration, room, [t]);
      FilterOne(IsRegistration, t);
    }
  }

  /** There is room for one registration more. */
  lemma RoomFew(q: seq<Task>)
    requires FewRegistrations(q)
    ensures |Filter(IsRegistration, MakeRoom(q))| < BROKER_QUEUE_CAP
  {
    var k := FirstIndex((t: Task) => t.Register?, q, 0);
    if |q| < BROKER_QUEUE_CAP {
      FilterShorter(IsRegistration, q);
    } else if k < |q| {
      FilterSplit(IsRegistration, q, k);
      FilterConcat(IsRegistration, q[..k], q[k + 1..]);
    } else {
      FilterNone(IsRegistration, q);
    }
  }

  /** One step leaves the queue alone, takes its head, or enqueues one task. */
  ghost predicate QueueMoves(q: seq<Task>, q': seq<Task>) {
    q' == q || (q != [] && q' == q[1..]) || exists t :: q' == Enqueued(q, t)
  }

  lemma StepQueue(serial: bool, s: State, ev: Event)
    ensures QueueMoves(s.broker.queue, Step(serial, s, ev).broker.queue)
  {
    if NeedsMutex(ev) { MutexQueue(s, ev); } else if !ev.RegisterOutside? { BrokerQueueMoves(s, ev); }
  }

  lemma MutexQueue(s: State, ev: Event)
    ensures QueueMoves(s.broker.queue, MutexStep(s, ev).broker.queue)
  {
  }

  lemma BrokerQueueMoves(s: State, ev: Event)
    ensures QueueMoves(s.broker.queue, BrokerStep(s, ev).broker.queue)
  {
  }

  /** Over every run, the registrations that wait for the broker are never more than its queue holds. */
  lemma {:induction false} RegistrationsBounded(serial: bool, es: seq<Event>)
    ensures FewRegistrations(Run(serial, es).broker.queue)
  {
    if es != [] {
      var s, ev := Run(serial, es[..|es| - 1]), es[|es| - 1];
      RegistrationsBounded(serial, es[..|es| - 1]);
      StepQueue(serial, s, ev);
      var q, q' := s.broker.queue, Step(serial, s, ev).broker.queue;
      if q != [] && q' == q[1..] {
        FilterSplit(IsRegistration, q, 0);
      } else if q' != q {
        var t :| q' == Enqueued(q, t);
        EnqueuedFew(q, t);
      }
    }
  }

  // ---------------------------------------------------------------------------
  // One visit and one request
  // ---------------------------------------------------------------------------

  /** No call under the handle mutex is blocked. */
  ghost predicate MayCall(serial: bool, s: State) {
    s.broker.holder.None? && (serial ==> s.broker.outside == [])
  }

  /** A request asks exactly if no poll is in flight or the watchdog has elapsed. */
  lemma RequestExact(serial: bool, s: State, e: nat, elapsed: bool)
    requires MayCall(serial, s) && e in s.boxes && s.boxes[e].listed && s.boxes[e].connected
    ensures var t := Step(serial, s, Request(e, elapsed));
            && t.boxes[e].inflight
            && if s.boxes[e].inflight && !elapsed then t == s
               else t.log.dispatched == s.log.dispatched + [Poll(s.boxes[e].net, e, s.nextSeq)] && t.nextSeq == s.nextSeq + 1
  {
  }

  /** A visit takes the answer that waits for the box, newer or not, and lets it ask again. */
  lemma VisitTakes(serial: bool, s: State, e: nat)
    requires MayCall(serial, s) && e in s.boxes && s.boxes[e].listed && s.boxes[e].connected
    ensures var t := Step(serial, s, Apply(e));
            && e !in t.results && (e in s.results ==> !t.boxes[e].inflight)
            && |t.log.applied| + |t.log.refused| == |s.log.applied| + |s.log.refused| + (if e in s.results then 1 else 0)
  {
  }

  /** A leave tells the broker of this network and entity, and the box is neither listed nor connected. */
  lemma LeaveTold(s: State, e: nat, entity: string)
    requires Idle(s.broker) && e in s.boxes && s.boxes[e].listed
    ensures var t := Step(true, s, LeaveNetwork(e, entity));
            && !t.boxes[e].listed && !t.boxes[e].connected
            && t.log.dispatched == s.log.dispatched + if entity == "" then [] else [Leave(s.boxes[e].net, entity)]
  {
    assert s.log.dispatched + [] == s.log.dispatched;
  }

  /** A keep-alive registers the entity at the box's network and port. */
  lemma KeepAliveTold(s: State, e: nat, entity: string, port: nat)
    requires MayAsk(s, e) && entity != ""
    ensures Step(true, s, KeepAlive(e, entity, port)).log.dispatched
         == s.log.dispatched + [Register(s.boxes[e].net, entity, port, true)]
  {
  }

  /** The sweep drops exactly the answers of boxes that are gone. */
  lemma SweepExact(s: State, e: nat)
    requires Idle(s.broker)
    ensures var t := Step(true, s, Sweep);
            && (e in t.results <==> e in s.results && e in s.boxes && s.boxes[e].listed)
            && (e in t.results ==> t.results[e] == s.results[e])
  {
  }
}
