/** Who is announced, and which change ends each job, poll and disconnection. */
module RosterMembers {
  import opened Common
  import opened Seqs
  import opened Roster
  import opened RosterRuns

  // ---------------------------------------------------------------------------
  // The announced set
  // ---------------------------------------------------------------------------

  /** Entities that can be announced at all. */
  predicate Real(id: string) {
    id != "" && id != "owner"
  }

  function Reals(ids: seq<string>): set<string> {
    set id <- ids | Real(id)
  }

  lemma {:induction false} AddedAllNames(r: Roll, src: Source, ids: seq<string>)
    ensures AddedAll(r, src, ids).announced == r.announced + Reals(ids)
  {
    if ids != [] {
      var n := |ids| - 1;
      AddedAllNames(r, src, ids[..n]);
      assert ids == ids[..n] + [ids[n]];
    }
  }

  lemma {:induction false} RemovedAllNames(r: Roll, src: Source, ids: seq<string>)
    ensures RemovedAll(r, src, ids).announced == r.announced - set id <- ids
  {
    if ids != [] {
      var n := |ids| - 1;
      RemovedAllNames(r, src, ids[..n]);
      assert ids == ids[..n] + [ids[n]];
    }
  }

  /** Only real entities are ever announced. */
  ghost predicate AllReal(lobbies: map<nat, Lobby>) {
    forall h <- lobbies, id <- lobbies[h].announced :: Real(id)
  }

  lemma AnnounceReal(s: State, src: Source, ids: seq<string>)
    requires src.handle in s.lobbies && AllReal(s.lobbies)
    ensures AllReal(Announce(s, src, ids).lobbies)
  {
    AddedAllNames(RollOf(s, src.handle), src, ids);
  }

  lemma RetireReal(s: State, src: Source, ids: seq<string>)
    requires src.handle in s.lobbies && AllReal(s.lobbies)
    ensures AllReal(Retire(s, src, ids).lobbies)
  {
    RemovedAllNames(RollOf(s, src.handle), src, ids);
  }

  lemma CompleteReal(s: State, j: Job, o: Outcome)
    requires AllReal(s.lobbies)
    ensures AllReal(CompleteJob(s, j, o).lobbies)
  {
    if s.inst.Some? && s.inst.value.gen == j.gen && j.handle in s.lobbies {
      var src, h, l := Source(j.gen, j.gen, j.handle), j.handle, s.lobbies[j.handle];
      if j.kind == Create {
        AnnounceReal(Put(s, h, l.(hasId := true, pending := false)), src, [l.owner]);
      } else if j.kind == Join {
        var members := if j.who in o.members then o.members else o.members + [j.who];
        var s1 := Put(s, h, l.(hasId := o.hasId, owner := o.owner, members := members));
        JoinReal(s1, src, j.who);
      }
    }
  }

  lemma JoinReal(s: State, src: Source, who: string)
    requires src.handle in s.lobbies && AllReal(s.lobbies)
    ensures AllReal(JoinCompleted(s, src, who).lobbies)
  {
    var l := s.lobbies[src.handle];
    AnnounceReal(Put(s, src.handle, l.(pending := false)), src, [l.owner] + l.members + [who]);
  }

  lemma PollReal(s: State, h: nat, a: Answer)
    requires AllReal(s.lobbies)
    ensures AllReal(PollStep(s, h, a).lobbies)
  {
    if s.inst.Some? && h in s.inst.value.lobbies && h in s.lobbies && !a.Gone? {
      var src, l' := Source(s.inst.value.gen, s.inst.value.gen, h), Answered(s.lobbies[h], a);
      var order := if a.Silent? then [] else a.order;
      RetireReal(Put(s, h, l'), src, order);
      AnnounceReal(Retire(Put(s, h, l'), src, order), src, [l'.owner] + l'.members);
    }
  }

  lemma StepReal(s: State, ev: Event)
    requires AllReal(s.lobbies)
    ensures AllReal(Step(s, ev).lobbies)
  {
    match ev
    case Complete(k, o) => if k < |s.jobs| { CompleteReal(s.(jobs := Without(s.jobs, k)), s.jobs[k], o); }
    case Poll(h, a) => PollReal(s, h, a);
    case Service(k) =>
      if s.inst.Some? && k < |s.inst.value.parked| && s.inst.value.parked[k].handle in s.lobbies {
        var inst, p := s.inst.value, s.inst.value.parked[k];
        JoinReal(s.(inst := Some(inst.(parked := Without(inst.parked, k)))), Source(inst.gen, inst.gen, p.handle), p.who);
      }
    case _ =>
  }

  lemma {:induction false} RunReal(es: seq<Event>)
    ensures AllReal(Run(es).lobbies)
  {
    if es != [] {
      RunReal(es[..|es| - 1]);
      StepReal(Run(es[..|es| - 1]), es[|es| - 1]);
    }
  }

  // ---------------------------------------------------------------------------
  // After a roster answer, and after a join
  // ---------------------------------------------------------------------------

  /** The lobby with what an answer says about it; an empty roster is not believed. */
  function Answered(l: Lobby, a: Answer): Lobby {
    if a.Roster? then l.(owner := a.owner, members := if a.members == [] then l.members else a.members) else l
  }

  /** The live instance tracks the lobby, and it has been answered and not left. */
  ghost predicate Polled(s: State, h: nat) {
    && s.inst.Some? && h in s.inst.value.lobbies && h in s.lobbies
    && !s.lobbies[h].left && (s.lobbies[h].pending ==> s.lobbies[h].hasId)
  }

  ghost predicate NoJoinParked(s: State, h: nat) {
    s.inst.Some? ==> forall p <- s.inst.value.parked :: p.handle != h
  }

  /** After a roster answer, and with no join of that lobby parked, the title has been told of exactly the
      owner and the members listed. */
  lemma RosterAnnounced(es: seq<Event>, h: nat, a: Answer)
    requires Polled(Run(es), h) && NoJoinParked(Run(es), h)
    requires a.Roster? && IsDeparture(Answered(Run(es).lobbies[h], a), a.order)
    ensures var l' := Step(Run(es), Poll(h, a)).lobbies[h];
            l'.announced == Reals([l'.owner] + l'.members) && l'.owner == a.owner
            && l'.members == if a.members == [] then Run(es).lobbies[h].members else a.members
  {
    var s := Run(es);
    var src, l' := Source(s.inst.value.gen, s.inst.value.gen, h), Answered(s.lobbies[h], a);
    RunReal(es);
    var s1 := Put(s, h, l');
    RemovedAllNames(RollOf(s1, h), src, a.order);
    var s2 := Retire(s1, src, a.order);
    AddedAllNames(RollOf(s2, h), src, [l'.owner] + l'.members);
    assert forall id <- s.lobbies[h].announced :: Real(id);
    assert Step(s, Poll(h, a)) == Tell(Announce(s2, src, [l'.owner] + l'.members), src, Updated);
  }

  lemma {:induction false} RemovedAllSays(r: Roll, src: Source, ids: seq<string>)
    ensures var log := RemovedAll(r, src, ids).log;
            |log| == |r.log| + |ids| && r.log <= log && forall c <- log[|r.log|..] :: c.what == Removed
  {
    if ids != [] {
      RemovedAllSays(r, src, ids[..|ids| - 1]);
    }
  }

  /** While a join of the lobby is parked, an answer announces nobody: the departed go, and that is all. */
  lemma ParkedSilent(s: State, h: nat, a: Answer)
    requires Polled(s, h) && !NoJoinParked(s, h) && !a.Gone?
    ensures var t := Step(s, Poll(h, a));
            && t.lobbies[h].announced <= s.lobbies[h].announced
            && s.log <= t.log && forall c <- t.log[|s.log|..] :: c.what == Removed
  {
    var src, l' := Source(s.inst.value.gen, s.inst.value.gen, h), Answered(s.lobbies[h], a);
    var order := if a.Silent? then [] else a.order;
    var s1 := Put(s, h, l');
    RemovedAllSays(RollOf(s1, h), src, order);
    RemovedAllNames(RollOf(s1, h), src, order);
    assert Step(s, Poll(h, a)) == s || Step(s, Poll(h, a)) == Retire(s1, src, order);
  }

  /** A completed join has announced the owner, every member and the joiner. */
  lemma JoinAnnounces(s: State, src: Source, who: string)
    requires src.handle in s.lobbies
    ensures var l, l' := s.lobbies[src.handle], JoinCompleted(s, src, who).lobbies[src.handle];
            l'.announced == l.announced + Reals([l.owner] + l.members + [who]) && !l'.pending
  {
    var l := s.lobbies[src.handle];
    AddedAllNames(RollOf(Put(s, src.handle, l.(pending := false)), src.handle), src, [l.owner] + l.members + [who]);
  }

  // ---------------------------------------------------------------------------
  // Every job is answered
  // ---------------------------------------------------------------------------

  function DoneOf(k: Kind): What {
    match k
    case Create => CreateDone
    case Join => JoinDone
    case Find => FindDone
    case Leave => LeaveDone
    case Post => PostDone
  }

  ghost predicate Ends(log: seq<Change>, what: What, gen: nat) {
    log != [] && log[|log| - 1].what == what && log[|log| - 1].gen == gen
  }

  /** A job of the live instance ends with its own completion; a post that was accepted is echoed after it.
      The exceptions: a lobby left in the meantime, and a join parked until the host is ready. */
  lemma JobAnswered(s: State, j: Job, o: Outcome)
    requires s.inst.Some? && s.inst.value.gen == j.gen && (Makes(j) ==> j.handle in s.lobbies)
    requires Makes(j) ==> !s.lobbies[j.handle].left && (j.kind == Join && o.ok ==> o.ready)
    ensures var log := CompleteJob(s, j, o).log;
            if j.kind == Post && o.ok then
              && |log| == |s.log| + 2 && log[|s.log|].what == PostDone && Ends(log, Updated, j.gen)
            else
              Ends(log, DoneOf(j.kind), j.gen)
  {
  }

  /** A parked join is answered when the host is ready. */
  lemma ParkedAnswered(s: State, k: nat)
    requires s.inst.Some? && k < |s.inst.value.parked| && s.inst.value.parked[k].handle in s.lobbies
    ensures var t := ServiceStep(s, k);
            Ends(t.log, JoinDone, s.inst.value.gen) && t.inst.value.parked == Without(s.inst.value.parked, k)
  {
  }

  /** A lobby that the broker no longer knows is disconnected, once: it is left and no longer tracked. */
  lemma GoneDisconnects(s: State, h: nat)
    requires Polled(s, h)
    ensures var t := Step(s, Poll(h, Gone));
            Ends(t.log, Disconnected, s.inst.value.gen) && t.lobbies[h].left && !Polled(t, h)
  {
  }

  // ---------------------------------------------------------------------------
  // What becomes of a lobby
  // ---------------------------------------------------------------------------

  ghost predicate Tracked(s: State, h: nat) {
    s.inst.Some? && h in s.inst.value.lobbies
  }

  /** The lobby is left and no longer polled, and the title is told of nobody. */
  ghost predicate Dropped(s: State, t: State, h: nat) {
    h in s.lobbies && h in t.lobbies && t.lobbies[h].left && !t.lobbies[h].pending && !Tracked(t, h)
    && t.lobbies[h].announced == s.lobbies[h].announced
  }

  /** A create makes its owner known, or drops the lobby. */
  lemma CreateSettles(s: State, j: Job, o: Outcome)
    requires s.inst.Some? && s.inst.value.gen == j.gen && j.kind == Create && j.handle in s.lobbies
    ensures var l, t := s.lobbies[j.handle], CompleteJob(s, j, o);
            if l.left then t == s
            else if !o.ok then Dropped(s, t, j.handle)
            else
              var l' := t.lobbies[j.handle];
              && l'.hasId && !l'.pending && !l'.left && l'.owner == l.owner && l'.members == l.members
              && l'.announced == l.announced + Reals([l.owner]) && (Tracked(t, j.handle) <==> Tracked(s, j.handle))
  {
    var src, l := Source(s.inst.value.gen, j.gen, j.handle), s.lobbies[j.handle];
    AddedAllNames(RollOf(Put(s, j.handle, l.(hasId := true, pending := false)), j.handle), src, [l.owner]);
  }

  /** A join takes the roster it was answered with, the joiner included, and is completed or parked; or it
      drops the lobby. */
  lemma JoinSettles(s: State, j: Job, o: Outcome)
    requires s.inst.Some? && s.inst.value.gen == j.gen && j.kind == Join && j.handle in s.lobbies
    ensures var l, t := s.lobbies[j.handle], CompleteJob(s, j, o);
            if !o.ok then Dropped(s, t, j.handle)
            else if l.left then t == s
            else
              var l' := t.lobbies[j.handle];
              && l'.hasId == o.hasId && l'.owner == o.owner && !l'.left
              && (forall x :: x in l'.members <==> x in o.members || x == j.who)
              && if o.ready then !l'.pending && l'.announced == l.announced + Reals([o.owner] + l'.members + [j.who])
                 else t.inst.value.parked == s.inst.value.parked + [Parked(j.handle, j.who)] && t.log == s.log
                      && l'.announced == l.announced
  {
    var src, l := Source(s.inst.value.gen, j.gen, j.handle), s.lobbies[j.handle];
    var members := if j.who in o.members then o.members else o.members + [j.who];
    var s1 := Put(s, j.handle, l.(hasId := o.hasId, owner := o.owner, members := members));
    JoinAnnounces(s1, src, j.who);
    JoinKeeps(s1, src, j.who);
  }

  lemma JoinKeeps(s: State, src: Source, who: string)
    requires src.handle in s.lobbies
    ensures var l, l' := s.lobbies[src.handle], JoinCompleted(s, src, who).lobbies[src.handle];
            l' == l.(pending := false, announced := l'.announced)
  {
  }

  /** A call makes a fresh lobby that is pending, its caller owner and, for a create, member; once registered
      the live instance tracks it. */
  lemma BeginSettles(s: State, kind: Kind, who: string)
    requires kind == Create || kind == Join
    ensures var t, h := Step(s, Begin(kind, who)), s.nextHandle;
            && h in t.lobbies && t.nextHandle == h + 1 && t.lobbies[h].owner == who && t.lobbies[h].pending
            && t.lobbies[h].announced == {} && (who in t.lobbies[h].members <==> kind == Create)
            && t.calls == s.calls + [Call(Job(CurrentGen(s), kind, h, who), false)]
            && (s.inst.Some? ==> Tracked(Step(t, Register(|s.calls|)), h))
  {
  }

  /** A leave drops the lobby at once and has its job queued; a lobby that is left takes no posts. */
  lemma LeaveSettles(s: State, h: nat)
    requires Returned(s, h)
    ensures var t := Step(s, LeaveCall(h));
            && t.lobbies[h].left && !Tracked(t, h) && t.lobbies[h].announced == s.lobbies[h].announced && t.log == s.log
            && t.jobs == s.jobs + [Job(CurrentGen(s), Leave, h, "")]
            && Step(t, PostCall(h)) == t
  {
  }

  /** An answer for a lobby that is left, not tracked, or not yet created is ignored. */
  lemma PollIgnored(s: State, h: nat, a: Answer)
    ensures !Polled(s, h) ==> Step(s, Poll(h, a)) == s
    ensures Polled(s, h) && a.Silent? && NoJoinParked(s, h) ==> Ends(Step(s, Poll(h, a)).log, Updated, s.inst.value.gen)
  {
  }
}
