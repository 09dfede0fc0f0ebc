/** The peer-poll protocol of party-shim/src/lib.rs: network boxes ask, a FIFO broker thread answers,
    the tick applies.

    The broker thread may die, and every dispatch then runs the queued work inline on its caller.
    The tick, a leave and a connect do so under the handle mutex; the registration made by a call that
    creates a network does not. */
module PeerPoll {
  import opened Common
  import opened Seqs

  const BROKER_QUEUE_CAP: nat := 512

  datatype Peer = Peer(entity: string, ip: string, port: nat)
  datatype Task =
    | Register(net: string, entity: string, port: nat, quiet: bool)
    | Leave(net: string, entity: string)
    | Poll(net: string, epoch: nat, seqno: nat)
  datatype Answer = Answer(seqno: nat, members: seq<Peer>)
  datatype Box = Box(net: string, connected: bool, listed: bool, inflight: bool, applied: nat)

  // ---------------------------------------------------------------------------
  // The queue
  // ---------------------------------------------------------------------------

  predicate SameMember(a: Task, b: Task) {
    a.Register? && b.Register? && a.net == b.net && a.entity == b.entity
  }

  /** The first index from `i` on whose task satisfies the test, or the length. */
  function FirstIndex(p: Task -> bool, q: seq<Task>, i: nat): (k: nat)
    requires i <= |q|
    ensures i <= k <= |q| && (k < |q| ==> p(q[k])) && forall j | i <= j < k :: !p(q[j])
    decreases |q| - i
  {
    if i == |q| || p(q[i]) then i else FirstIndex(p, q, i + 1)
  }

  function MakeRoom(q: seq<Task>): seq<Task> {
    var k := FirstIndex((t: Task) => t.Register?, q, 0);
    if |q| >= BROKER_QUEUE_CAP && k < |q| then q[..k] + q[k + 1..] else q
  }

  function Enqueued(q: seq<Task>, t: Task): seq<Task> {
    var k := FirstIndex(x => SameMember(x, t), q, 0);
    if k < |q| then q[k := t]
    else if t.Register? then MakeRoom(q) + [t]
    else q + [t]
  }

  // ---------------------------------------------------------------------------
  // The machine
  // ---------------------------------------------------------------------------

  datatype Thread = Unborn | Alive | Dead

  /** A call that runs broker work inline: what it is running, and its own task, run last. */
  datatype Caller = Caller(current: Option<Task>, own: Option<Task>)

  datatype Broker = Broker(queue: seq<Task>, thread: Thread, up: bool, marked: bool, worker: Option<Task>,
                           holder: Option<Caller>, outside: seq<Caller>)

  datatype Record = Record(epoch: nat, answer: Answer)

  /** What happened: tasks dispatched and started, polls asked and answered, results applied and refused. */
  datatype Log = Log(dispatched: seq<Task>, started: seq<Task>, asked: set<Task>, answered: set<Record>,
                     applied: seq<Record>, refused: seq<Record>)

  datatype State = State(boxes: map<nat, Box>, nextEpoch: nat, nextSeq: nat, results: map<nat, Answer>,
                         broker: Broker, log: Log)

  datatype Event =
    | NewBox(net: string)
    | List(e: nat)
    | Connect(e: nat)
    | LeaveNetwork(e: nat, entity: string)
    | KeepAlive(e: nat, entity: string, port: nat)
    | RegisterInside(net: string, entity: string, port: nat)
    | Request(e: nat, elapsed: bool)
    | Sweep
    | Apply(e: nat)
    | RegisterOutside(net: string, entity: string, port: nat)
    | Spawn | MarkUp | Die | MarkDown
    | WorkerTake | WorkerFinish(members: seq<Peer>)
    | HolderTake | HolderFinish(members: seq<Peer>)
    | OutsideTake(k: nat) | OutsideFinish(k: nat, members: seq<Peer>)

  function Init(): State {
    State(map[], 1, 1, map[], Broker([], Unborn, false, false, None, None, []), Log([], [], {}, {}, [], []))
  }

  /** A dispatch under the handle mutex. */
  function Dispatch(b: Broker, t: Task): Broker {
    if b.up then b.(queue := Enqueued(b.queue, t)) else b.(holder := Some(Caller(None, Some(t))))
  }

  function DispatchOutside(b: Broker, t: Task): Broker {
    if b.up then b.(queue := Enqueued(b.queue, t)) else b.(outside := b.outside + [Caller(None, Some(t))])
  }

  function Note(log: Log, t: Task): Log {
    log.(dispatched := log.dispatched + [t])
  }

  function Send(s: State, t: Task): State {
    s.(broker := Dispatch(s.broker, t), log := Note(s.log, t))
  }

  function RequestStep(s: State, e: nat, elapsed: bool): State
    requires e in s.boxes
  {
    var box := s.boxes[e];
    if !box.connected || (box.inflight && !elapsed) then s
    else
      var t := Poll(box.net, e, s.nextSeq);
      var log := s.log.(asked := s.log.asked + {t});
      Send(s.(boxes := s.boxes[e := box.(inflight := true)], nextSeq := s.nextSeq + 1, log := log), t)
  }

  function ApplyStep(s: State, e: nat): (r: State)
    requires e in s.boxes
    ensures r.boxes.Keys == s.boxes.Keys && r.broker == s.broker
  {
    var box := s.boxes[e];
    if !box.connected || e !in s.results then s
    else
      var a := s.results[e];
      var s' := s.(results := s.results - {e});
      if a.seqno <= box.applied then
        s'.(boxes := s.boxes[e := box.(inflight := false)], log := s.log.(refused := s.log.refused + [Record(e, a)]))
      else
        s'.(boxes := s.boxes[e := box.(inflight := false, applied := a.seqno)],
            log := s.log.(applied := s.log.applied + [Record(e, a)]))
  }

  function LeaveStep(s: State, e: nat, entity: string): State
    requires e in s.boxes
  {
    var box := s.boxes[e];
    var s' := s.(boxes := s.boxes[e := box.(connected := false, listed := false)]);
    if entity == "" then s' else Send(s', Leave(box.net, entity))
  }

  /** What a call under the handle mutex does. */
  function MutexStep(s: State, ev: Event): State {
    match ev
    case NewBox(net) =>
      s.(boxes := s.boxes[s.nextEpoch := Box(net, false, false, false, 0)], nextEpoch := s.nextEpoch + 1)
    case List(e) => if e in s.boxes then s.(boxes := s.boxes[e := s.boxes[e].(listed := true)]) else s
    case Connect(e) => if e in s.boxes then s.(boxes := s.boxes[e := s.boxes[e].(connected := true)]) else s
    case LeaveNetwork(e, entity) => if e in s.boxes && s.boxes[e].listed then LeaveStep(s, e, entity) else s
    case KeepAlive(e, entity, port) =>
      if e in s.boxes && s.boxes[e].listed && s.boxes[e].connected && entity != ""
      then Send(s, Register(s.boxes[e].net, entity, port, true)) else s
    case RegisterInside(net, entity, port) => Send(s, Register(net, entity, port, false))
    case Request(e, elapsed) => if e in s.boxes && s.boxes[e].listed then RequestStep(s, e, elapsed) else s
    case Sweep => s.(results := map e | e in s.results && e in s.boxes && s.boxes[e].listed :: s.results[e])
    case Apply(e) => if e in s.boxes && s.boxes[e].listed then ApplyStep(s, e) else s
    case _ => s
  }

  /** A task carried out: only a poll leaves something behind. */
  function RunTask(s: State, t: Task, members: seq<Peer>): State {
    if t.Poll? then
      var a := Answer(t.seqno, members);
      s.(results := s.results[t.epoch := a], log := s.log.(answered := s.log.answered + {Record(t.epoch, a)}))
    else s
  }

  function Start(log: Log, t: Task): Log {
    log.(started := log.started + [t])
  }

  function WorkerTakeStep(s: State): State {
    var b := s.broker;
    if b.thread != Alive || b.worker.Some? || b.queue == [] then s
    else s.(broker := b.(worker := Some(b.queue[0]), queue := b.queue[1..]), log := Start(s.log, b.queue[0]))
  }

  /** An inline caller takes the next queued task, or its own once the queue is empty. */
  function CallerTake(c: Caller, q: seq<Task>): Option<(Caller, seq<Task>, Task)> {
    if c.current.Some? then None
    else if q != [] then Some((c.(current := Some(q[0])), q[1..], q[0]))
    else if c.own.Some? then Some((Caller(c.own, None), q, c.own.value))
    else None
  }

  function HolderTakeStep(s: State): State {
    var b := s.broker;
    if b.holder.None? then s
    else
      var taken := CallerTake(b.holder.value, b.queue);
      if taken.None? then s
      else s.(broker := b.(holder := Some(taken.value.0), queue := taken.value.1), log := Start(s.log, taken.value.2))
  }

  function OutsideTakeStep(s: State, k: nat): State {
    var b := s.broker;
    if k >= |b.outside| then s
    else
      var taken := CallerTake(b.outside[k], b.queue);
      if taken.None? then s
      else s.(broker := b.(outside := b.outside[k := taken.value.0], queue := taken.value.1), log := Start(s.log, taken.value.2))
  }

  /** The call returns once its own task is done. */
  function Rested(c: Caller): Option<Caller> {
    if c.own.None? then None else Some(c.(current := None))
  }

  function OutsideRested(cs: seq<Caller>, k: nat): seq<Caller>
    requires k < |cs|
  {
    var c := Rested(cs[k]);
    if c.None? then cs[..k] + cs[k + 1..] else cs[k := c.value]
  }

  /** The broker thread starts, is marked up, dies and is marked down. */
  function ThreadStep(b: Broker, ev: Event): Broker {
    match ev
    case Spawn => if b.thread == Unborn then b.(thread := Alive) else b
    case MarkUp => if b.thread != Unborn && !b.marked then b.(up := true, marked := true) else b
    case Die => if b.thread == Alive then b.(thread := Dead, worker := None) else b
    case MarkDown => if b.thread == Dead then b.(up := false) else b
    case _ => b
  }

  function BrokerStep(s: State, ev: Event): State {
    var b := s.broker;
    match ev
    case WorkerTake => WorkerTakeStep(s)
    case WorkerFinish(members) =>
      if b.worker.None? then s else RunTask(s.(broker := b.(worker := None)), b.worker.value, members)
    case HolderTake => HolderTakeStep(s)
    case HolderFinish(members) =>
      if b.holder.None? || b.holder.value.current.None? then s
      else RunTask(s.(broker := b.(holder := Rested(b.holder.value))), b.holder.value.current.value, members)
    case OutsideTake(k) => OutsideTakeStep(s, k)
    case OutsideFinish(k, members) =>
      if k >= |b.outside| || b.outside[k].current.None? then s
      else RunTask(s.(broker := b.(outside := OutsideRested(b.outside, k))), b.outside[k].current.value, members)
    case _ => s.(broker := ThreadStep(b, ev))
  }

  predicate NeedsMutex(ev: Event) {
    ev.NewBox? || ev.List? || ev.Connect? || ev.LeaveNetwork? || ev.KeepAlive? || ev.RegisterInside?
    || ev.Request? || ev.Sweep? || ev.Apply?
  }

  /** `serial`: the title makes its calls from one thread, so one of them running inline blocks the rest. */
  function Step(serial: bool, s: State, ev: Event): State {
    if NeedsMutex(ev) then
      if s.broker.holder.Some? || (serial && s.broker.outside != []) then s else MutexStep(s, ev)
    else if ev.RegisterOutside? then
      if (serial && (s.broker.holder.Some? || s.broker.outside != [])) || ev.entity == "" then s
      else
        var t := Register(ev.net, ev.entity, ev.port, false);
        s.(broker := DispatchOutside(s.broker, t), log := Note(s.log, t))
    else BrokerStep(s, ev)
  }

  function Stepper(serial: bool): (State, Event) -> State {
    (s, ev) => Step(serial, s, ev)
  }

  ghost function Run(serial: bool, es: seq<Event>): State {
    Fold(Stepper(serial), Init(), es)
  }

  lemma RunEnd(serial: bool, es: seq<Event>)
    requires es != []
    ensures Run(serial, es) == Step(serial, Run(serial, es[..|es| - 1]), es[|es| - 1])
  {
  }
}
