/** The lobby state-change pump of playfab-mp-shim/src/lib.rs, against a title that calls it in any order. */
module LobbyPump {
  import opened Seqs

  const BATCH_CAP: nat := 32

  datatype Pump<T> = Pump(pending: seq<T>, inFlight: seq<T>, outstanding: bool)

  /** What one Start hands out; the cap is a build-time switch. */
  function Batch<T>(pending: seq<T>, capped: bool): seq<T> {
    if capped then Take(pending, BATCH_CAP) else pending
  }

  function StartStep<T>(p: Pump<T>, capped: bool): Pump<T> {
    if p.outstanding then p
    else
      var batch := Batch(p.pending, capped);
      Pump(p.pending[|batch|..], batch, batch != [])
  }

  /** Finish must name the count and the array that Start handed out. */
  predicate Accepted<T>(p: Pump<T>, count: nat, sameArray: bool) {
    p.outstanding && count == |p.inFlight| && sameArray
  }

  function FinishStep<T>(p: Pump<T>, count: nat, sameArray: bool): Pump<T> {
    if Accepted(p, count, sameArray) then p.(inFlight := [], outstanding := false) else p
  }

  class LobbyQueue<T(==)> {
    var pending: seq<T>
    var inFlight: seq<T>
    var outstanding: bool

    ghost function View(): Pump<T>
      reads this
    {
      Pump(pending, inFlight, outstanding)
    }

    constructor ()
      ensures View() == Pump([], [], false)
    {
      pending, inFlight, outstanding := [], [], false;
    }

    method Queue(x: T)
      modifies this
      ensures View() == old(View()).(pending := old(pending) + [x])
    {
      pending := pending + [x];
    }

    method Start(capped: bool) returns (batch: seq<T>)
      modifies this
      ensures View() == StartStep(old(View()), capped) && batch == inFlight
    {
      if !outstanding {
        inFlight := [];
        while pending != []
          invariant inFlight + pending == old(pending) && |inFlight| <= |Batch(old(pending), capped)|
          decreases |pending|
        {
          var x := pending[0];
          pending := pending[1..];
          if capped && |inFlight| >= BATCH_CAP {
            pending := [x] + pending;
            break;
          }
          inFlight := inFlight + [x];
        }
        assert inFlight == old(pending)[..|inFlight|];
        assert pending == old(pending)[|inFlight|..];
        outstanding := inFlight != [];
      }
      batch := inFlight;
    }

    method Finish(count: nat, sameArray: bool)
      modifies this
      ensures View() == FinishStep(old(View()), count, sameArray)
    {
      if outstanding && count == |inFlight| && sameArray {
        inFlight, outstanding := [], false;
      }
    }
  }

  // ---------------------------------------------------------------------------
  // Any title
  // ---------------------------------------------------------------------------

  datatype Event<T> = Queue(x: T) | Start(capped: bool) | Finish(count: nat, sameArray: bool)

  /** The pump, everything queued so far, and the distinct batches handed out. */
  datatype System<T> = System(pump: Pump<T>, queued: seq<T>, batches: seq<seq<T>>)

  function Step<T>(s: System<T>, ev: Event<T>): System<T> {
    match ev
    case Queue(x) => s.(pump := s.pump.(pending := s.pump.pending + [x]), queued := s.queued + [x])
    case Start(capped) =>
      var p := StartStep(s.pump, capped);
      s.(pump := p, batches := if !s.pump.outstanding && p.outstanding then s.batches + [p.inFlight] else s.batches)
    case Finish(count, sameArray) => s.(pump := FinishStep(s.pump, count, sameArray))
  }

  ghost function RunFrom<T(!new)>(s: System<T>, es: seq<Event<T>>): System<T> {
    Fold(Step, s, es)
  }

  ghost function Run<T(!new)>(es: seq<Event<T>>): System<T> {
    RunFrom(System(Pump([], [], false), [], []), es)
  }

  function Joined<T>(batches: seq<seq<T>>): seq<T> {
    if batches == [] then [] else Joined(batches[..|batches| - 1]) + batches[|batches| - 1]
  }

  ghost predicate Conserved<T>(s: System<T>) {
    && Joined(s.batches) + s.pump.pending == s.queued
    && (s.pump.outstanding <==> s.pump.inFlight != [])
    && (s.pump.outstanding ==> s.batches != [] && s.batches[|s.batches| - 1] == s.pump.inFlight)
    && (forall b <- s.batches :: b != [])
  }

  lemma StepConserves<T>(s: System<T>, ev: Event<T>)
    requires Conserved(s)
    ensures Conserved(Step(s, ev))
  {
    match ev
    case Queue(x) => Assoc(Joined(s.batches), s.pump.pending, [x]);
    case Start(capped) =>
      var p := StartStep(s.pump, capped);
      if !s.pump.outstanding {
        var batch := Batch(s.pump.pending, capped);
        assert batch == s.pump.pending[..|batch|] && batch + p.pending == s.pump.pending;
        if batch != [] {
          assert (s.batches + [batch])[..|s.batches|] == s.batches;
          Assoc(Joined(s.batches), batch, p.pending);
        }
      }
    case Finish(_, _) =>
  }

  /** Every change queued is in exactly one batch or still pending, in queue order, whatever the title
      does: repeated Starts, stray, early or mismatched Finishes. */
  lemma {:induction false} BatchesAreTheQueue<T(!new)>(es: seq<Event<T>>)
    ensures Conserved(Run(es))
  {
    if es != [] {
      BatchesAreTheQueue(es[..|es| - 1]);
      StepConserves(Run(es[..|es| - 1]), es[|es| - 1]);
    }
  }

  /** A batch handed out stays as it is until the Finish that names it. */
  lemma {:induction false} OutstandingFrozen<T(!new)>(s: System<T>, es: seq<Event<T>>)
    requires s.pump.outstanding
    requires forall ev <- es | ev.Finish? :: !(ev.count == |s.pump.inFlight| && ev.sameArray)
    ensures var s' := RunFrom(s, es);
            s'.pump.outstanding && s'.pump.inFlight == s.pump.inFlight && s'.batches == s.batches
  {
    if es != [] {
      assert es[|es| - 1] in es;
      OutstandingFrozen(s, es[..|es| - 1]);
    }
  }

  /** A refused Finish changes nothing; an accepted one frees the batch and only that. */
  lemma FinishExact<T>(s: System<T>, count: nat, sameArray: bool)
    requires Conserved(s)
    ensures Step(s, Finish(count, sameArray)) != s <==> Accepted(s.pump, count, sameArray)
    ensures Step(s, Finish(count, sameArray)).pump.pending == s.pump.pending
  {
  }

  /** A Start with nothing outstanding hands out everything queued, or with the cap the first 32. */
  lemma StartHandsAll<T>(p: Pump<T>, capped: bool)
    requires !p.outstanding
    ensures var q := StartStep(p, capped);
            && q.inFlight + q.pending == p.pending && (q.outstanding <==> p.pending != [])
            && if capped && |p.pending| > 32 then |q.inFlight| == 32 else q.pending == []
  {
  }
}
