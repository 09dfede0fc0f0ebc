/** The in-place side of the peer poll: the broker queue and the network boxes, whose methods carry out
    the steps of module `PeerPoll`. */
module PeerPollTick {
  import opened Common
  import opened Seqs
  import opened PeerPoll

  class BrokerQueue {
    var q: seq<Task>

    constructor ()
      ensures q == []
    {
      q := [];
    }

    /** Finds the queued registration of the same member and overwrites it. */
    method Coalesce(t: Task) returns (found: bool)
      modifies this
      ensures var k := FirstIndex(x => SameMember(x, t), old(q), 0);
              found == (k < |old(q)|) && q == if found then old(q)[k := t] else old(q)
    {
      var i := 0;
      while i < |q|
        invariant i <= |q| && q == old(q)
        invariant FirstIndex(x => SameMember(x, t), q, 0) == FirstIndex(x => SameMember(x, t), q, i)
      {
        if SameMember(q[i], t) {
          q := q[i := t];
          return true;
        }
        i := i + 1;
      }
      return false;
    }

    /** At the cap the oldest registration goes; leaves and polls never do. */
    method DropOldestRegistration()
      modifies this
      ensures q == MakeRoom(old(q))
    {
      if |q| >= BROKER_QUEUE_CAP {
        var i := 0;
        while i < |q|
          invariant i <= |q| && q == old(q)
          invariant FirstIndex((t: Task) => t.Register?, q, 0) == FirstIndex((t: Task) => t.Register?, q, i)
        {
          if q[i].Register? {
            q := q[..i] + q[i + 1..];
            return;
          }
          i := i + 1;
        }
      }
    }

    method Push(t: Task)
      modifies this
      ensures q == Enqueued(old(q), t)
    {
      if t.Register? {
        var found := Coalesce(t);
        if found {
          return;
        }
        DropOldestRegistration();
      }
      q := q + [t];
    }
  }

  /** The live boxes, in the order the tick visits them. */
  ghost predicate Lists(boxes: map<nat, Box>, nets: seq<nat>) {
    forall e :: e in nets <==> e in boxes && boxes[e].listed
  }

  /** The tick's visit of the boxes, as steps of the protocol. */
  ghost function ApplyAll(s: State, nets: seq<nat>): (s': State)
    requires forall e <- nets :: e in s.boxes
    ensures s'.boxes.Keys == s.boxes.Keys && s'.broker == s.broker
  {
    if nets == [] then s else ApplyStep(ApplyAll(s, nets[..|nets| - 1]), nets[|nets| - 1])
  }

  function Applies(nets: seq<nat>): seq<Event> {
    seq(|nets|, i requires 0 <= i < |nets| => Apply(nets[i]))
  }

  lemma ApplyIsStep(serial: bool, s: State, e: nat)
    requires e in s.boxes && s.boxes[e].listed && s.broker.holder.None? && (serial ==> s.broker.outside == [])
    ensures Step(serial, s, Apply(e)) == ApplyStep(s, e)
  {
  }

  /** With the mutex free, the visit is a run of the protocol. */
  lemma {:induction false} TickIsRun(serial: bool, s: State, nets: seq<nat>)
    requires forall e <- nets :: e in s.boxes && s.boxes[e].listed
    requires s.broker.holder.None? && (serial ==> s.broker.outside == [])
    ensures ApplyAll(s, nets) == Fold(Stepper(serial), s, Applies(nets))
    decreases |nets|
  {
    if nets != [] {
      var n := |nets| - 1;
      TickIsRun(serial, s, nets[..n]);
      assert Applies(nets) == Applies(nets[..n]) + [Apply(nets[n])];
      assert nets[n] in nets;
      StaysListed(s, nets[..n], nets[n]);
      TickSnoc(serial, s, Applies(nets[..n]), ApplyAll(s, nets[..n]), nets[n]);
    }
  }

  lemma {:induction false} StaysListed(s: State, nets: seq<nat>, e: nat)
    requires e in s.boxes && forall x <- nets :: x in s.boxes
    ensures ApplyAll(s, nets).boxes[e].listed == s.boxes[e].listed
    decreases |nets|
  {
    if nets != [] { StaysListed(s, nets[..|nets| - 1], e); }
  }

  lemma TickSnoc(serial: bool, s: State, es: seq<Event>, s': State, e: nat)
    requires s' == Fold(Stepper(serial), s, es)
    requires e in s'.boxes && s'.boxes[e].listed && s'.broker.holder.None? && (serial ==> s'.broker.outside == [])
    ensures Fold(Stepper(serial), s, es + [Apply(e)]) == ApplyStep(s', e)
  {
    FoldSnoc(Stepper(serial), s, es, Apply(e));
    ApplyIsStep(serial, s', e);
  }

  class Networks {
    var boxes: map<nat, Box>
    var nextEpoch: nat
    var nextSeq: nat
    var results: map<nat, Answer>

    /** The fields together with a broker and a log that the method does not touch. */
    ghost function View(b: Broker, log: Log): State
      reads this
    {
      State(boxes, nextEpoch, nextSeq, results, b, log)
    }

    constructor ()
      ensures View(Init().broker, Init().log) == Init()
    {
      boxes, nextEpoch, nextSeq, results := map[], 1, 1, map[];
    }

    /** The tasks to dispatch, in this order: the keep-alive if one is due, and the poll if the box may ask. */
    method PollPeersRequest(e: nat, due: bool, entity: string, port: nat, elapsed: bool, ghost b: Broker, ghost log: Log)
        returns (alive: Option<Task>, t: Option<Task>)
      requires e in boxes
      modifies this
      ensures alive == if old(boxes)[e].connected && due && entity != ""
                       then Some(Register(old(boxes)[e].net, entity, port, true)) else None
      ensures RequestStep(old(View(b, log)), e, elapsed)
           == if t.None? then View(b, log) else Send(View(b, log.(asked := log.asked + {t.value})), t.value)
      ensures t.None? <==> !old(boxes)[e].connected || (old(boxes)[e].inflight && !elapsed)
    {
      alive, t := None, None;
      if !boxes[e].connected {
        return;
      }
      if due && entity != "" {
        alive := Some(Register(boxes[e].net, entity, port, true));
      }
      if boxes[e].inflight {
        if !elapsed {
          return;
        }
        boxes := boxes[e := boxes[e].(inflight := false)];
      }
      boxes := boxes[e := boxes[e].(inflight := true)];
      assert boxes == old(boxes)[e := old(boxes)[e].(inflight := true)];
      t := Some(Poll(boxes[e].net, e, nextSeq));
      nextSeq := nextSeq + 1;
    }

    /** A poll carried out: its answer waits under the epoch that asked. */
    method StorePoll(t: Task, members: seq<Peer>, ghost b: Broker, ghost log: Log) returns (ghost log': Log)
      requires t.Poll?
      modifies this
      ensures View(b, log') == RunTask(old(View(b, log)), t, members)
    {
      results := results[t.epoch := Answer(t.seqno, members)];
      log' := log.(answered := log.answered + {Record(t.epoch, Answer(t.seqno, members))});
    }

    method TakePeerResult(e: nat) returns (a: Option<Answer>)
      modifies this`results
      ensures results == old(results) - {e}
      ensures a == if e in old(results) then Some(old(results)[e]) else None
    {
      a := if e in results then Some(results[e]) else None;
      results := results - {e};
    }

    method PollPeersApply(e: nat, ghost b: Broker, ghost log: Log) returns (members: seq<Peer>, ghost log': Log)
      requires e in boxes
      modifies this
      ensures View(b, log') == ApplyStep(old(View(b, log)), e)
      ensures members == if log'.applied == log.applied then [] else old(results)[e].members
      ensures log'.applied == log.applied || (e in old(results) && log'.applied == log.applied + [Record(e, old(results)[e])])
    {
      members, log' := [], log;
      if !boxes[e].connected {
        return;
      }
      var a := TakePeerResult(e);
      if a.None? {
        assert results == old(results);
        return;
      }
      boxes := boxes[e := boxes[e].(inflight := false)];
      if a.value.seqno <= boxes[e].applied {
        log' := log.(refused := log.refused + [Record(e, a.value)]);
        return;
      }
      boxes := boxes[e := boxes[e].(applied := a.value.seqno)];
      assert boxes == old(boxes)[e := old(boxes)[e].(inflight := false, applied := a.value.seqno)];
      log' := log.(applied := log.applied + [Record(e, a.value)]);
      members := a.value.members;
    }

    method DropStale(live: seq<nat>)
      modifies this`results
      ensures results == map e | e in old(results) && e in live :: old(results)[e]
    {
      results := map e | e in results && e in live :: results[e];
    }

    /** The tick: answers of boxes that are gone are dropped, then every live box applies its own. */
    method ApplyResults(nets: seq<nat>, ghost b: Broker, ghost log: Log) returns (ghost log': Log)
      requires Lists(boxes, nets)
      modifies this
      ensures boxes.Keys == old(boxes).Keys && forall e <- nets :: e in MutexStep(old(View(b, log)), Sweep).boxes
      ensures View(b, log') == ApplyAll(MutexStep(old(View(b, log)), Sweep), nets)
    {
      DropStale(nets);
      log' := log;
      ghost var swept := MutexStep(old(View(b, log)), Sweep);
      assert View(b, log) == swept;
      var i := 0;
      while i < |nets|
        invariant i <= |nets| && boxes.Keys == old(boxes).Keys
        invariant View(b, log') == ApplyAll(swept, nets[..i])
      {
        assert nets[..i + 1][..i] == nets[..i] && nets[i] in nets;
        ghost var before := log';
        var members;
        members, log' := PollPeersApply(nets[i], b, before);
        i := i + 1;
      }
      assert nets[..i] == nets;
    }
  }
}
