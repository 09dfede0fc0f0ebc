/** What every history of instances, jobs and polls keeps. */
module RosterRuns {
  import opened Common
  import opened Seqs
  import opened Roster

  // ---------------------------------------------------------------------------
  // MemberAdded and MemberRemoved alternate
  // ---------------------------------------------------------------------------

  ghost predicate Present(lobbies: map<nat, Lobby>, h: nat, id: string) {
    h in lobbies && id in lobbies[h].announced
  }

  ghost predicate Alternating(s: State) {
    forall h, id :: StoryOk(s.log, h, id, Present(s.lobbies, h, id))
  }

  lemma {:induction false} AddedAllOthers(r: Roll, src: Source, ids: seq<string>, h: nat, id: string)
    requires h != src.handle
    ensures Story(AddedAll(r, src, ids).log, h, id) == Story(r.log, h, id)
  {
    if ids != [] {
      var n := |ids| - 1;
      AddedAllOthers(r, src, ids[..n], h, id);
      StorySnoc(AddedAll(r, src, ids[..n]).log, Say(src, Added, ids[n]), h, id);
    }
  }

  lemma {:induction false} RemovedAllOthers(r: Roll, src: Source, ids: seq<string>, h: nat, id: string)
    requires h != src.handle
    ensures Story(RemovedAll(r, src, ids).log, h, id) == Story(r.log, h, id)
  {
    if ids != [] {
      var n := |ids| - 1;
      RemovedAllOthers(r, src, ids[..n], h, id);
      StorySnoc(RemovedAll(r, src, ids[..n]).log, Say(src, Removed, ids[n]), h, id);
    }
  }

  lemma RollIsOk(s: State, h: nat)
    requires Alternating(s) && h in s.lobbies
    ensures RollOk(RollOf(s, h), h)
  {
    forall id ensures StoryOk(s.log, h, id, id in s.lobbies[h].announced) {
      assert StoryOk(s.log, h, id, Present(s.lobbies, h, id));
    }
  }

  /** Putting back a roll that is right for its lobby and leaves the others alone. */
  lemma PutRollAlternates(s: State, h: nat, r: Roll)
    requires Alternating(s) && h in s.lobbies && RollOk(r, h)
    requires forall x, id | x != h :: Story(r.log, x, id) == Story(s.log, x, id)
    ensures Alternating(PutRoll(s, h, r))
  {
    var s' := PutRoll(s, h, r);
    forall x, id ensures StoryOk(s'.log, x, id, Present(s'.lobbies, x, id)) {
      if x == h {
        assert StoryOk(r.log, h, id, id in r.announced);
      } else {
        assert StoryOk(s.log, x, id, Present(s.lobbies, x, id));
      }
    }
  }

  lemma AnnounceAlternates(s: State, src: Source, ids: seq<string>)
    requires Alternating(s) && src.handle in s.lobbies
    ensures Alternating(Announce(s, src, ids))
  {
    var r := RollOf(s, src.handle);
    RollIsOk(s, src.handle);
    AddedAllKeeps(r, src, ids);
    forall x, id | x != src.handle ensures Story(AddedAll(r, src, ids).log, x, id) == Story(s.log, x, id) {
      AddedAllOthers(r, src, ids, x, id);
    }
    PutRollAlternates(s, src.handle, AddedAll(r, src, ids));
  }

  lemma RetireAlternates(s: State, src: Source, ids: seq<string>)
    requires Alternating(s) && src.handle in s.lobbies && Distinct(ids)
    requires forall id <- ids :: id in s.lobbies[src.handle].announced
    ensures Alternating(Retire(s, src, ids))
  {
    var r := RollOf(s, src.handle);
    RollIsOk(s, src.handle);
    RemovedAllKeeps(r, src, ids);
    forall x, id | x != src.handle ensures Story(RemovedAll(r, src, ids).log, x, id) == Story(s.log, x, id) {
      RemovedAllOthers(r, src, ids, x, id);
    }
    PutRollAlternates(s, src.handle, RemovedAll(r, src, ids));
  }

  /** Any other change leaves every story alone. */
  lemma LogAlternates(s: State, c: Change)
    requires Alternating(s) && c.what != Added && c.what != Removed
    ensures Alternating(s.(log := s.log + [c]))
  {
    forall h, id ensures StoryOk(s.log + [c], h, id, Present(s.lobbies, h, id)) {
      assert StoryOk(s.log, h, id, Present(s.lobbies, h, id));
      StorySnoc(s.log, c, h, id);
    }
  }

  lemma PutAlternates(s: State, h: nat, l: Lobby)
    requires Alternating(s) && (if h in s.lobbies then l.announced == s.lobbies[h].announced else l.announced == {})
    ensures Alternating(Put(s, h, l))
  {
    var lobbies' := s.lobbies[h := l];
    forall x, id ensures StoryOk(s.log, x, id, Present(lobbies', x, id)) {
      assert StoryOk(s.log, x, id, Present(s.lobbies, x, id));
      assert Present(lobbies', x, id) == Present(s.lobbies, x, id);
    }
  }

  /** Only the lobbies and the log matter. */
  lemma SameAlternates(s: State, s': State)
    requires Alternating(s) && s'.lobbies == s.lobbies && s'.log == s.log
    ensures Alternating(s')
  {
  }

  lemma JoinCompletedAlternates(s: State, src: Source, who: string)
    requires Alternating(s) && src.handle in s.lobbies
    ensures Alternating(JoinCompleted(s, src, who))
  {
    var l := s.lobbies[src.handle];
    var s1 := Put(s, src.handle, l.(pending := false));
    var s2 := Announce(s1, src, [l.owner] + l.members + [who]);
    PutAlternates(s, src.handle, l.(pending := false));
    AnnounceAlternates(s1, src, [l.owner] + l.members + [who]);
    LogAlternates(s2, Say(src, Updated, ""));
    LogAlternates(Tell(s2, src, Updated), Say(src, JoinDone, ""));
  }

  lemma FailAlternates(s: State, src: Source, what: What, l: Lobby)
    requires Alternating(s) && src.handle in s.lobbies && l.announced == s.lobbies[src.handle].announced
    requires what != Added && what != Removed
    ensures Alternating(Tell(Unlist(Put(s, src.handle, l), src.handle), src, what))
  {
    PutAlternates(s, src.handle, l);
    SameAlternates(Put(s, src.handle, l), Unlist(Put(s, src.handle, l), src.handle));
    LogAlternates(Unlist(Put(s, src.handle, l), src.handle), Say(src, what, ""));
  }

  lemma CompleteCreateAlternates(s: State, src: Source, o: Outcome)
    requires Alternating(s) && src.handle in s.lobbies
    ensures Alternating(CompleteCreate(s, src, o))
  {
    var h, l := src.handle, s.lobbies[src.handle];
    if !l.left && !o.ok {
      FailAlternates(s, src, CreateDone, l.(pending := false, left := true));
    } else if !l.left {
      var l1 := l.(hasId := true, pending := false);
      PutAlternates(s, h, l1);
      AnnounceAlternates(Put(s, h, l1), src, [l.owner]);
      LogAlternates(Announce(Put(s, h, l1), src, [l.owner]), Say(src, CreateDone, ""));
    }
  }

  lemma CompleteJoinAlternates(s: State, src: Source, who: string, o: Outcome)
    requires Alternating(s) && src.handle in s.lobbies && s.inst.Some?
    ensures Alternating(CompleteJoin(s, src, who, o))
  {
    var h, l := src.handle, s.lobbies[src.handle];
    if !o.ok {
      FailAlternates(s, src, JoinDone, l.(pending := false, left := true));
    } else if !l.left {
      var members := if who in o.members then o.members else o.members + [who];
      var l1 := l.(hasId := o.hasId, owner := o.owner, members := members);
      PutAlternates(s, h, l1);
      if o.ready {
        JoinCompletedAlternates(Put(s, h, l1), src, who);
      } else {
        SameAlternates(Put(s, h, l1), CompleteJoin(s, src, who, o));
      }
    }
  }

  lemma CompleteAlternates(s: State, j: Job, o: Outcome)
    requires Alternating(s)
    ensures Alternating(CompleteJob(s, j, o))
  {
    if s.inst.Some? && s.inst.value.gen == j.gen {
      var src := Source(s.inst.value.gen, j.gen, j.handle);
      match j.kind
      case Create => if j.handle in s.lobbies { CompleteCreateAlternates(s, src, o); }
      case Join => if j.handle in s.lobbies { CompleteJoinAlternates(s, src, j.who, o); }
      case Find => LogAlternates(s, Change(src.gen, src.jobGen, FindDone, None, ""));
      case Leave => LogAlternates(s, Change(src.gen, src.jobGen, LeaveDone, None, ""));
      case Post =>
        LogAlternates(s, Say(src, PostDone, ""));
        if o.ok { LogAlternates(Tell(s, src, PostDone), Say(src, Updated, "")); }
    }
  }

  lemma {:induction false} SizeDistinct(ids: seq<string>)
    requires |(set id <- ids)| == |ids|
    ensures Distinct(ids)
  {
    forall i, j | 0 <= i < j < |ids| ensures ids[i] != ids[j] {
      if ids[i] == ids[j] {
        var rest := ids[..j] + ids[j + 1..];
        assert (set id <- rest) == set id <- ids by {
          forall id <- ids ensures id in rest {
            var k :| 0 <= k < |ids| && ids[k] == id;
            if k < j { assert rest[k] == id; } else if k > j { assert rest[k - 1] == id; } else { assert rest[i] == id; }
          }
        }
        SizeAtMost(rest);
      }
    }
  }

  lemma {:induction false} SizeAtMost(ids: seq<string>)
    ensures |(set id <- ids)| <= |ids|
  {
    if ids != [] {
      var n := |ids| - 1;
      SizeAtMost(ids[..n]);
      assert (set id <- ids) == (set id <- ids[..n]) + {ids[n]};
    }
  }

  /** The departed are announced members, each named once. */
  lemma DepartureOnce(l: Lobby, order: seq<string>)
    requires IsDeparture(l, order)
    ensures Distinct(order) && forall id <- order :: id in l.announced
  {
    SizeDistinct(order);
    var gone := set id <- order;
    assert gone <= l.announced;
    assert forall id <- order :: id in gone;
  }

  lemma PollAlternates(s: State, h: nat, a: Answer)
    requires Alternating(s)
    ensures Alternating(PollStep(s, h, a))
  {
    if s.inst.Some? && h in s.inst.value.lobbies && h in s.lobbies {
      var l, src := s.lobbies[h], Source(s.inst.value.gen, s.inst.value.gen, h);
      if !l.left && !(l.pending && !l.hasId) {
        if a.Gone? {
          FailAlternates(s, src, Disconnected, l.(left := true));
        } else {
          var l' := if a.Silent? then l
                    else l.(owner := a.owner, members := if a.members == [] then l.members else a.members);
          var order := if a.Silent? then [] else a.order;
          if a.Silent? || IsDeparture(l', order) {
            if a.Roster? { DepartureOnce(l', order); }
            var s1 := Put(s, h, l');
            PutAlternates(s, h, l');
            RetireAlternates(s1, src, order);
            var s2 := Retire(s1, src, order);
            AnnounceAlternates(s2, src, [l'.owner] + l'.members);
            LogAlternates(Announce(s2, src, [l'.owner] + l'.members), Say(src, Updated, ""));
          }
        }
      }
    }
  }

  lemma StepAlternates(s: State, ev: Event)
    requires Alternating(s) && (forall h <- s.lobbies :: h < s.nextHandle)
    ensures Alternating(Step(s, ev))
  {
    match ev
    case Begin(kind, who) =>
      var members := if kind == Create then [who] else [];
      var l := Lobby(CurrentGen(s), false, true, false, {}, who, members);
      PutAlternates(s, s.nextHandle, l);
      if kind == Create || kind == Join { SameAlternates(Put(s, s.nextHandle, l), BeginStep(s, kind, who)); }
    case LeaveCall(h) =>
      if Returned(s, h) {
        PutAlternates(s, h, s.lobbies[h].(left := true));
        SameAlternates(Put(s, h, s.lobbies[h].(left := true)), Step(s, ev));
      }
    case Complete(k, o) =>
      if k < |s.jobs| {
        SameAlternates(s, s.(jobs := Without(s.jobs, k)));
        CompleteAlternates(s.(jobs := Without(s.jobs, k)), s.jobs[k], o);
      }
    case Poll(h, a) => PollAlternates(s, h, a);
    case Service(k) =>
      if s.inst.Some? && k < |s.inst.value.parked| && s.inst.value.parked[k].handle in s.lobbies {
        var p := s.inst.value.parked[k];
        var s1 := s.(inst := Some(s.inst.value.(parked := Without(s.inst.value.parked, k))));
        SameAlternates(s, s1);
        JoinCompletedAlternates(s1, Source(s.inst.value.gen, s.inst.value.gen, p.handle), p.who);
      }
    case _ => SameAlternates(s, Step(s, ev));
  }

  lemma CompleteKeepsHandles(s: State, j: Job, o: Outcome)
    ensures CompleteJob(s, j, o).lobbies.Keys == s.lobbies.Keys && CompleteJob(s, j, o).nextHandle == s.nextHandle
  {
  }

  lemma PollKeepsHandles(s: State, h: nat, a: Answer)
    ensures PollStep(s, h, a).lobbies.Keys == s.lobbies.Keys && PollStep(s, h, a).nextHandle == s.nextHandle
  {
  }

  lemma HandlesBelow(s: State, ev: Event)
    requires forall h <- s.lobbies :: h < s.nextHandle
    ensures forall h <- Step(s, ev).lobbies :: h < Step(s, ev).nextHandle
  {
    match ev
    case Complete(k, o) => if k < |s.jobs| { CompleteKeepsHandles(s.(jobs := Without(s.jobs, k)), s.jobs[k], o); }
    case Poll(h, a) => PollKeepsHandles(s, h, a);
    case _ =>
  }

  /** Over every history: per lobby and entity MemberAdded and MemberRemoved strictly alternate, starting
      with Added, and `announced` holds exactly those whose last change is Added. */
  lemma {:induction false} RosterAlternates(es: seq<Event>)
    ensures Alternating(Run(es)) && forall h <- Run(es).lobbies :: h < Run(es).nextHandle
  {
    if es != [] {
      var n := |es| - 1;
      RosterAlternates(es[..n]);
      StepAlternates(Run(es[..n]), es[n]);
      HandlesBelow(Run(es[..n]), es[n]);
    }
  }

  // ---------------------------------------------------------------------------
  // No change crosses from one instance to another
  // ---------------------------------------------------------------------------

  ghost predicate Homed(lobbies: map<nat, Lobby>, h: nat, gen: nat) {
    h in lobbies && lobbies[h].home == gen
  }

  /** A change belongs to its instance: the job was made under it, and the lobby too unless the title
      itself named a lobby of another instance in a post. */
  ghost predicate Belongs(lobbies: map<nat, Lobby>, asked: set<(nat, nat)>, c: Change) {
    && c.jobGen == c.gen
    && (c.handle.Some? ==> c.handle.value in lobbies)
    && (c.handle.Some? ==> Homed(lobbies, c.handle.value, c.gen)
                           || ((c.what == PostDone || c.what == Updated) && (c.gen, c.handle.value) in asked))
  }

  ghost predicate LogBelongs(lobbies: map<nat, Lobby>, asked: set<(nat, nat)>, log: seq<Change>) {
    forall c <- log :: Belongs(lobbies, asked, c)
  }

  predicate Makes(j: Job) {
    j.kind == Create || j.kind == Join
  }

  ghost predicate JobOk(lobbies: map<nat, Lobby>, asked: set<(nat, nat)>, j: Job) {
    && (Makes(j) ==> Homed(lobbies, j.handle, j.gen))
    && (j.kind == Post ==> (j.gen, j.handle) in asked && j.handle in lobbies)
  }

  /** A handle tracked by an instance other than its own has never been answered. */
  ghost predicate Tracked(lobbies: map<nat, Lobby>, h: nat, gen: nat) {
    h in lobbies && (lobbies[h].home == gen || (lobbies[h].pending && !lobbies[h].hasId))
  }

  /** A call still in progress: its handle is unanswered and no job holds it. */
  ghost predicate CallOk(s: State, c: Call) {
    && Makes(c.job) && Homed(s.lobbies, c.job.handle, c.job.gen)
    && s.lobbies[c.job.handle].pending && !s.lobbies[c.job.handle].hasId
    && (forall j <- s.jobs | Makes(j) :: j.handle != c.job.handle)
    && (s.inst.Some? ==> forall p <- s.inst.value.parked :: p.handle != c.job.handle)
  }

  ghost predicate CallsOk(s: State) {
    && (forall c <- s.calls :: CallOk(s, c))
    && (forall i, j | 0 <= i < j < |s.calls| :: s.calls[i].job.handle != s.calls[j].job.handle)
  }

  ghost predicate InstanceOk(inst: Option<Instance>, lobbies: map<nat, Lobby>, nextGen: nat) {
    inst.Some? ==>
      && inst.value.gen < nextGen
      && (forall h <- inst.value.lobbies :: Tracked(lobbies, h, inst.value.gen))
      && (forall p <- inst.value.parked :: Homed(lobbies, p.handle, inst.value.gen))
  }

  ghost predicate Separate(s: State) {
    && (forall h <- s.lobbies :: h < s.nextHandle)
    && LogBelongs(s.lobbies, s.asked, s.log)
    && (forall j <- s.jobs :: JobOk(s.lobbies, s.asked, j))
    && CallsOk(s)
    && InstanceOk(s.inst, s.lobbies, s.nextGen)
  }

  /** A lobby the live instance may complete or answer: its own, and no call in progress made it. */
  ghost predicate Answerable(s: State, h: nat) {
    && h in s.lobbies && s.inst.Some? && s.lobbies[h].home == s.inst.value.gen
    && forall c <- s.calls :: c.job.handle != h
  }

  lemma PutSeparate(s: State, h: nat, l: Lobby)
    requires Separate(s) && h in s.lobbies && l.home == s.lobbies[h].home
    requires Answerable(s, h) || (l.pending == s.lobbies[h].pending && l.hasId == s.lobbies[h].hasId)
    ensures Separate(Put(s, h, l))
  {
    var s' := Put(s, h, l);
    assert forall c <- s.log :: Belongs(s.lobbies, s.asked, c);
    forall c <- s.calls ensures CallOk(s', c) {
      assert CallOk(s, c);
    }
    forall j <- s.jobs ensures JobOk(s'.lobbies, s.asked, j) {
      assert JobOk(s.lobbies, s.asked, j);
    }
  }

  lemma LogSeparate(s: State, log: seq<Change>)
    requires Separate(s) && LogBelongs(s.lobbies, s.asked, log)
    ensures Separate(s.(log := log))
  {
    forall c <- s.calls ensures CallOk(s.(log := log), c) {
      assert CallOk(s, c);
    }
  }

  lemma TellSeparate(s: State, c: Change)
    requires Separate(s) && Belongs(s.lobbies, s.asked, c)
    ensures Separate(s.(log := s.log + [c]))
  {
    LogSeparate(s, s.log + [c]);
  }

  ghost predicate Own(s: State, src: Source) {
    src.jobGen == src.gen && Homed(s.lobbies, src.handle, src.gen)
  }

  lemma {:induction false} AddedAllBelongs(s: State, r: Roll, src: Source, ids: seq<string>)
    requires Own(s, src) && LogBelongs(s.lobbies, s.asked, r.log)
    ensures LogBelongs(s.lobbies, s.asked, AddedAll(r, src, ids).log)
  {
    if ids != [] {
      AddedAllBelongs(s, r, src, ids[..|ids| - 1]);
    }
  }

  lemma {:induction false} RemovedAllBelongs(s: State, r: Roll, src: Source, ids: seq<string>)
    requires Own(s, src) && LogBelongs(s.lobbies, s.asked, r.log)
    ensures LogBelongs(s.lobbies, s.asked, RemovedAll(r, src, ids).log)
  {
    if ids != [] {
      RemovedAllBelongs(s, r, src, ids[..|ids| - 1]);
    }
  }

  lemma RollSeparate(s: State, h: nat, r: Roll)
    requires Separate(s) && h in s.lobbies && LogBelongs(s.lobbies, s.asked, r.log)
    ensures Separate(PutRoll(s, h, r))
  {
    LogSeparate(s, r.log);
    PutSeparate(s.(log := r.log), h, s.lobbies[h].(announced := r.announced));
  }

  lemma AnnounceSeparate(s: State, src: Source, ids: seq<string>)
    requires Separate(s) && Own(s, src)
    ensures Separate(Announce(s, src, ids))
  {
    AddedAllBelongs(s, RollOf(s, src.handle), src, ids);
    RollSeparate(s, src.handle, AddedAll(RollOf(s, src.handle), src, ids));
  }

  lemma RetireSeparate(s: State, src: Source, ids: seq<string>)
    requires Separate(s) && Own(s, src)
    ensures Separate(Retire(s, src, ids))
  {
    RemovedAllBelongs(s, RollOf(s, src.handle), src, ids);
    RollSeparate(s, src.handle, RemovedAll(RollOf(s, src.handle), src, ids));
  }

  lemma UnlistSeparate(s: State, h: nat)
    requires Separate(s)
    ensures Separate(Unlist(s, h))
  {
    forall c <- s.calls ensures CallOk(Unlist(s, h), c) {
      assert CallOk(s, c);
    }
  }

  lemma JoinCompletedSeparate(s: State, src: Source, who: string)
    requires Separate(s) && Own(s, src) && Answerable(s, src.handle)
    ensures Separate(JoinCompleted(s, src, who))
  {
    var l := s.lobbies[src.handle];
    var s1 := Put(s, src.handle, l.(pending := false));
    var s2 := Announce(s1, src, [l.owner] + l.members + [who]);
    PutSeparate(s, src.handle, l.(pending := false));
    AnnounceSeparate(s1, src, [l.owner] + l.members + [who]);
    TellSeparate(s2, Say(src, Updated, ""));
    TellSeparate(Tell(s2, src, Updated), Say(src, JoinDone, ""));
  }

  lemma FailSeparate(s: State, src: Source, what: What, l: Lobby)
    requires Separate(s) && Own(s, src) && Answerable(s, src.handle) && l.home == s.lobbies[src.handle].home
    ensures Separate(Tell(Unlist(Put(s, src.handle, l), src.handle), src, what))
  {
    PutSeparate(s, src.handle, l);
    UnlistSeparate(Put(s, src.handle, l), src.handle);
    TellSeparate(Unlist(Put(s, src.handle, l), src.handle), Say(src, what, ""));
  }

  lemma CompleteCreateSeparate(s: State, src: Source, o: Outcome)
    requires Separate(s) && Own(s, src) && Answerable(s, src.handle)
    ensures Separate(CompleteCreate(s, src, o))
  {
    var h, l := src.handle, s.lobbies[src.handle];
    if !l.left && !o.ok {
      FailSeparate(s, src, CreateDone, l.(pending := false, left := true));
    } else if !l.left {
      var s1 := Put(s, h, l.(hasId := true, pending := false));
      PutSeparate(s, h, l.(hasId := true, pending := false));
      AnnounceSeparate(s1, src, [l.owner]);
      TellSeparate(Announce(s1, src, [l.owner]), Say(src, CreateDone, ""));
    }
  }

  lemma ParkSeparate(s: State, p: Parked)
    requires Separate(s) && Answerable(s, p.handle)
    ensures Separate(s.(inst := Some(s.inst.value.(parked := s.inst.value.parked + [p]))))
  {
    var s' := s.(inst := Some(s.inst.value.(parked := s.inst.value.parked + [p])));
    forall c <- s.calls ensures CallOk(s', c) {
      assert CallOk(s, c);
    }
  }

  lemma CompleteJoinSeparate(s: State, src: Source, who: string, o: Outcome)
    requires Separate(s) && Own(s, src) && Answerable(s, src.handle)
    ensures Separate(CompleteJoin(s, src, who, o))
  {
    var h, l := src.handle, s.lobbies[src.handle];
    if !o.ok {
      FailSeparate(s, src, JoinDone, l.(pending := false, left := true));
    } else if !l.left {
      var members := if who in o.members then o.members else o.members + [who];
      var l1 := l.(hasId := o.hasId, owner := o.owner, members := members);
      PutSeparate(s, h, l1);
      if o.ready {
        JoinCompletedSeparate(Put(s, h, l1), src, who);
      } else {
        ParkSeparate(Put(s, h, l1), Parked(h, who));
      }
    }
  }

  lemma CompleteSeparate(s: State, j: Job, o: Outcome)
    requires Separate(s) && JobOk(s.lobbies, s.asked, j) && (Makes(j) ==> forall c <- s.calls :: c.job.handle != j.handle)
    ensures Separate(CompleteJob(s, j, o))
  {
    if s.inst.Some? && s.inst.value.gen == j.gen {
      var src := Source(s.inst.value.gen, j.gen, j.handle);
      match j.kind
      case Create => CompleteCreateSeparate(s, src, o);
      case Join => CompleteJoinSeparate(s, src, j.who, o);
      case Find => TellSeparate(s, Change(src.gen, src.jobGen, FindDone, None, ""));
      case Leave => TellSeparate(s, Change(src.gen, src.jobGen, LeaveDone, None, ""));
      case Post =>
        TellSeparate(s, Say(src, PostDone, ""));
        if o.ok { TellSeparate(Tell(s, src, PostDone), Say(src, Updated, "")); }
    }
  }

  /** An answer reaches only lobbies of the live instance. */
  lemma PollSeparate(s: State, h: nat, a: Answer)
    requires Separate(s)
    ensures Separate(PollStep(s, h, a))
  {
    if s.inst.Some? && h in s.inst.value.lobbies && h in s.lobbies {
      var l, src := s.lobbies[h], Source(s.inst.value.gen, s.inst.value.gen, h);
      if !l.left && !(l.pending && !l.hasId) {
        assert Tracked(s.lobbies, h, s.inst.value.gen);
        assert Answerable(s, h) by {
          forall c <- s.calls ensures c.job.handle != h { assert CallOk(s, c); }
        }
        if a.Gone? {
          FailSeparate(s, src, Disconnected, l.(left := true));
        } else {
          var l' := if a.Silent? then l
                    else l.(owner := a.owner, members := if a.members == [] then l.members else a.members);
          var order := if a.Silent? then [] else a.order;
          var s1 := Put(s, h, l');
          PutSeparate(s, h, l');
          RetireSeparate(s1, src, order);
          var s2 := Retire(s1, src, order);
          AnnounceSeparate(s2, src, [l'.owner] + l'.members);
          TellSeparate(Announce(s2, src, [l'.owner] + l'.members), Say(src, Updated, ""));
        }
      }
    }
  }

  lemma BeginSeparate(s: State, kind: Kind, who: string)
    requires Separate(s) && (kind == Create || kind == Join)
    ensures Separate(BeginStep(s, kind, who))
  {
    var s' := BeginStep(s, kind, who);
    var h := s.nextHandle;
    assert h !in s.lobbies;
    forall c <- s.log ensures Belongs(s'.lobbies, s.asked, c) {
      assert Belongs(s.lobbies, s.asked, c);
    }
    forall j <- s.jobs ensures JobOk(s'.lobbies, s.asked, j) {
      assert JobOk(s.lobbies, s.asked, j);
    }
    forall c <- s'.calls ensures CallOk(s', c) {
      if c in s.calls { assert CallOk(s, c); }
    }
    forall i, j | 0 <= i < j < |s'.calls| ensures s'.calls[i].job.handle != s'.calls[j].job.handle {
      assert CallOk(s, s.calls[i]);
    }
  }

  /** Whichever instance is live when the call registers its handle, the handle is still unanswered. */
  lemma RegisterSeparate(s: State, i: nat)
    requires Separate(s) && i < |s.calls|
    ensures Separate(RegisterStep(s, i))
  {
    var s' := RegisterStep(s, i);
    assert s.calls[i] in s.calls && CallOk(s, s.calls[i]);
    forall c <- s'.calls ensures CallOk(s', c) {
      assert CallOk(s, if c in s.calls then c else s.calls[i]);
    }
  }

  lemma EnqueueSeparate(s: State, i: nat)
    requires Separate(s) && i < |s.calls|
    ensures Separate(s.(calls := Without(s.calls, i), jobs := s.jobs + [s.calls[i].job]))
  {
    var s' := s.(calls := Without(s.calls, i), jobs := s.jobs + [s.calls[i].job]);
    assert CallOk(s, s.calls[i]);
    forall c <- s'.calls ensures CallOk(s', c) {
      var k :| 0 <= k < |s'.calls| && s'.calls[k] == c;
      assert c == s.calls[if k < i then k else k + 1];
      assert CallOk(s, c);
    }
    forall a, b | 0 <= a < b < |s'.calls| ensures s'.calls[a].job.handle != s'.calls[b].job.handle {
      assert s'.calls[a] == s.calls[if a < i then a else a + 1] && s'.calls[b] == s.calls[if b < i then b else b + 1];
    }
  }

  lemma JobsSeparate(s: State, jobs: seq<Job>, asked: set<(nat, nat)>)
    requires Separate(s) && s.asked <= asked
    requires forall j <- jobs :: j in s.jobs || (!Makes(j) && JobOk(s.lobbies, asked, j))
    ensures Separate(s.(jobs := jobs, asked := asked))
  {
    var s' := s.(jobs := jobs, asked := asked);
    forall c <- s.log ensures Belongs(s.lobbies, asked, c) {
      assert Belongs(s.lobbies, s.asked, c);
    }
    forall j <- jobs ensures JobOk(s.lobbies, asked, j) {
      if j in s.jobs { assert JobOk(s.lobbies, s.asked, j); }
    }
    forall c <- s.calls ensures CallOk(s', c) {
      assert CallOk(s, c);
    }
  }

  lemma ServiceSeparate(s: State, k: nat)
    requires Separate(s)
    ensures Separate(ServiceStep(s, k))
  {
    if s.inst.Some? && k < |s.inst.value.parked| && s.inst.value.parked[k].handle in s.lobbies {
      var inst := s.inst.value;
      var p := inst.parked[k];
      var s1 := s.(inst := Some(inst.(parked := Without(inst.parked, k))));
      assert p in inst.parked && forall x <- Without(inst.parked, k) :: x in inst.parked;
      forall c <- s.calls ensures CallOk(s1, c) && c.job.handle != p.handle {
        assert CallOk(s, c);
      }
      JoinCompletedSeparate(s1, Source(inst.gen, inst.gen, p.handle), p.who);
    }
  }

  lemma StepSeparate(s: State, ev: Event)
    requires Separate(s)
    ensures Separate(Step(s, ev))
  {
    match ev
    case Initialize =>
      if s.inst.None? { forall c <- s.calls ensures CallOk(Step(s, ev), c) { assert CallOk(s, c); } }
    case Uninitialize => forall c <- s.calls ensures CallOk(Step(s, ev), c) { assert CallOk(s, c); }
    case Begin(kind, who) => if kind == Create || kind == Join { BeginSeparate(s, kind, who); }
    case Register(i) => if i < |s.calls| { RegisterSeparate(s, i); }
    case Enqueue(i) => if i < |s.calls| { EnqueueSeparate(s, i); }
    case FindCall => JobsSeparate(s, s.jobs + [Job(CurrentGen(s), Find, 0, "")], s.asked);
    case LeaveCall(h) =>
      if Returned(s, h) {
        var s1 := Put(s, h, s.lobbies[h].(left := true));
        PutSeparate(s, h, s.lobbies[h].(left := true));
        UnlistSeparate(s1, h);
        JobsSeparate(Unlist(s1, h), s.jobs + [Job(CurrentGen(s), Leave, h, "")], s.asked);
      }
    case PostCall(h) =>
      if Returned(s, h) { JobsSeparate(s, s.jobs + [Job(CurrentGen(s), Post, h, "")], s.asked + {(CurrentGen(s), h)}); }
    case Complete(k, o) =>
      if k < |s.jobs| {
        var j := s.jobs[k];
        assert forall x <- Without(s.jobs, k) :: x in s.jobs;
        JobsSeparate(s, Without(s.jobs, k), s.asked);
        forall c <- s.calls | Makes(j) ensures c.job.handle != j.handle { assert CallOk(s, c) && j in s.jobs; }
        CompleteSeparate(s.(jobs := Without(s.jobs, k)), j, o);
      }
    case Poll(h, a) => PollSeparate(s, h, a);
    case Service(k) => ServiceSeparate(s, k);
  }

  lemma {:induction false} RunSeparate(es: seq<Event>)
    ensures Separate(Run(es))
  {
    if es != [] {
      RunSeparate(es[..|es| - 1]);
      StepSeparate(Run(es[..|es| - 1]), es[|es| - 1]);
    }
  }

  // ---------------------------------------------------------------------------
  // Exactly which changes cross
  // ---------------------------------------------------------------------------

  /** A change about a lobby of another instance. */
  ghost predicate Crosses(lobbies: map<nat, Lobby>, c: Change) {
    c.handle.Some? && !Homed(lobbies, c.handle.value, c.gen)
  }

  /** A post that completes under the instance it was made in, through a lobby of another one. */
  ghost predicate ForeignPost(s: State, ev: Event) {
    && ev.Complete? && ev.k < |s.jobs| && s.jobs[ev.k].kind == Post
    && s.inst.Some? && s.inst.value.gen == s.jobs[ev.k].gen
    && !Homed(s.lobbies, s.jobs[ev.k].handle, s.jobs[ev.k].gen)
  }

  /** The log grows by changes that do not cross. */
  ghost predicate GrowsAtHome(lobbies: map<nat, Lobby>, log: seq<Change>, log': seq<Change>) {
    |log| <= |log'| && log'[..|log|] == log && forall i | |log| <= i < |log'| :: !Crosses(lobbies, log'[i])
  }

  lemma GrowTrans(lobbies: map<nat, Lobby>, a: seq<Change>, b: seq<Change>, c: seq<Change>)
    requires GrowsAtHome(lobbies, a, b) && GrowsAtHome(lobbies, b, c)
    ensures GrowsAtHome(lobbies, a, c)
  {
    assert c[..|a|] == c[..|b|][..|a|];
    forall i | |a| <= i < |c| ensures !Crosses(lobbies, c[i]) {
      if i < |b| { assert c[i] == c[..|b|][i]; }
    }
  }

  lemma GrowOne(lobbies: map<nat, Lobby>, a: seq<Change>, b: seq<Change>, c: Change)
    requires GrowsAtHome(lobbies, a, b) && !Crosses(lobbies, c)
    ensures GrowsAtHome(lobbies, a, b + [c])
  {
    GrowTrans(lobbies, a, b, b + [c]);
  }

  lemma {:induction false} AddedAllAtHome(lobbies: map<nat, Lobby>, a: seq<Change>, r: Roll, src: Source, ids: seq<string>)
    requires GrowsAtHome(lobbies, a, r.log) && Homed(lobbies, src.handle, src.gen)
    ensures GrowsAtHome(lobbies, a, AddedAll(r, src, ids).log)
  {
    if ids != [] {
      var n := |ids| - 1;
      AddedAllAtHome(lobbies, a, r, src, ids[..n]);
      GrowOne(lobbies, a, AddedAll(r, src, ids[..n]).log, Say(src, Added, ids[n]));
    }
  }

  lemma {:induction false} RemovedAllAtHome(lobbies: map<nat, Lobby>, a: seq<Change>, r: Roll, src: Source, ids: seq<string>)
    requires GrowsAtHome(lobbies, a, r.log) && Homed(lobbies, src.handle, src.gen)
    ensures GrowsAtHome(lobbies, a, RemovedAll(r, src, ids).log)
  {
    if ids != [] {
      var n := |ids| - 1;
      RemovedAllAtHome(lobbies, a, r, src, ids[..n]);
      GrowOne(lobbies, a, RemovedAll(r, src, ids[..n]).log, Say(src, Removed, ids[n]));
    }
  }

  lemma JoinCompletedAtHome(lobbies: map<nat, Lobby>, s: State, src: Source, who: string)
    requires src.handle in s.lobbies && Homed(lobbies, src.handle, src.gen)
    ensures GrowsAtHome(lobbies, s.log, JoinCompleted(s, src, who).log)
  {
    var l := s.lobbies[src.handle];
    var s1 := Put(s, src.handle, l.(pending := false));
    var ids := [l.owner] + l.members + [who];
    AddedAllAtHome(lobbies, s.log, RollOf(s1, src.handle), src, ids);
    var s2 := Announce(s1, src, ids);
    GrowOne(lobbies, s.log, s2.log, Say(src, Updated, ""));
    GrowOne(lobbies, s.log, Tell(s2, src, Updated).log, Say(src, JoinDone, ""));
  }

  lemma CompleteAtHome(s: State, j: Job, o: Outcome)
    requires s.inst.Some? && s.inst.value.gen == j.gen && Homed(s.lobbies, j.handle, j.gen)
    ensures GrowsAtHome(s.lobbies, s.log, CompleteJob(s, j, o).log)
  {
    var src, h, l := Source(j.gen, j.gen, j.handle), j.handle, s.lobbies[j.handle];
    match j.kind
    case Create =>
      var s1 := Put(s, h, l.(hasId := true, pending := false));
      AddedAllAtHome(s.lobbies, s.log, RollOf(s1, h), src, [l.owner]);
      GrowOne(s.lobbies, s.log, Announce(s1, src, [l.owner]).log, Say(src, CreateDone, ""));
    case Join =>
      if o.ok && !l.left {
        var members := if j.who in o.members then o.members else o.members + [j.who];
        var s1 := Put(s, h, l.(hasId := o.hasId, owner := o.owner, members := members));
        JoinCompletedAtHome(s.lobbies, s1, src, j.who);
      }
    case _ =>
  }

  lemma RosterAtHome(lobbies: map<nat, Lobby>, s: State, src: Source, gone: seq<string>, there: seq<string>)
    requires src.handle in s.lobbies && Homed(lobbies, src.handle, src.gen)
    ensures GrowsAtHome(lobbies, s.log, Retire(s, src, gone).log)
    ensures GrowsAtHome(lobbies, s.log, Tell(Announce(Retire(s, src, gone), src, there), src, Updated).log)
  {
    RemovedAllAtHome(lobbies, s.log, RollOf(s, src.handle), src, gone);
    var s1 := Retire(s, src, gone);
    AddedAllAtHome(lobbies, s.log, RollOf(s1, src.handle), src, there);
    GrowOne(lobbies, s.log, Announce(s1, src, there).log, Say(src, Updated, ""));
  }

  lemma PollAtHome(s: State, h: nat, a: Answer)
    requires Separate(s)
    ensures GrowsAtHome(s.lobbies, s.log, PollStep(s, h, a).log)
  {
    if s.inst.Some? && h in s.inst.value.lobbies && h in s.lobbies {
      var l, src := s.lobbies[h], Source(s.inst.value.gen, s.inst.value.gen, h);
      if !l.left && !(l.pending && !l.hasId) && !a.Gone? {
        assert Tracked(s.lobbies, h, s.inst.value.gen);
        var l' := if a.Silent? then l
                  else l.(owner := a.owner, members := if a.members == [] then l.members else a.members);
        RosterAtHome(s.lobbies, Put(s, h, l'), src, if a.Silent? then [] else a.order, [l'.owner] + l'.members);
      } else {
        assert Tracked(s.lobbies, h, s.inst.value.gen);
      }
    }
  }

  /** No other event queues a change that crosses. */
  lemma StepAtHome(s: State, ev: Event)
    requires Separate(s) && !ForeignPost(s, ev)
    ensures GrowsAtHome(s.lobbies, s.log, Step(s, ev).log)
  {
    match ev
    case Complete(k, o) =>
      if k < |s.jobs| && s.inst.Some? && s.inst.value.gen == s.jobs[k].gen {
        var j := s.jobs[k];
        assert j in s.jobs && JobOk(s.lobbies, s.asked, j);
        if j.kind != Find && j.kind != Leave { CompleteAtHome(s.(jobs := Without(s.jobs, k)), j, o); }
      }
    case Poll(h, a) => PollAtHome(s, h, a);
    case Service(k) =>
      if s.inst.Some? && k < |s.inst.value.parked| && s.inst.value.parked[k].handle in s.lobbies {
        var inst, p := s.inst.value, s.inst.value.parked[k];
        assert p in inst.parked && Homed(s.lobbies, p.handle, inst.gen);
        JoinCompletedAtHome(s.lobbies, s.(inst := Some(inst.(parked := Without(inst.parked, k)))),
                            Source(inst.gen, inst.gen, p.handle), p.who);
      }
    case _ =>
  }

  lemma ForeignPostCrosses(s: State, ev: Event)
    requires ForeignPost(s, ev)
    ensures |Step(s, ev).log| > |s.log| && Step(s, ev).log[..|s.log|] == s.log
    ensures Crosses(s.lobbies, Step(s, ev).log[|s.log|])
  {
  }

  ghost predicate SameHomes(lobbies: map<nat, Lobby>, lobbies': map<nat, Lobby>) {
    forall h <- lobbies :: h in lobbies' && lobbies'[h].home == lobbies[h].home
  }

  lemma CompleteKeepsHomes(s: State, j: Job, o: Outcome)
    ensures SameHomes(s.lobbies, CompleteJob(s, j, o).lobbies)
  {
  }

  lemma PollKeepsHomes(s: State, h: nat, a: Answer)
    ensures SameHomes(s.lobbies, PollStep(s, h, a).lobbies)
  {
  }

  /** Handles keep the instance they were made under. */
  lemma HomesKept(s: State, ev: Event)
    requires forall h <- s.lobbies :: h < s.nextHandle
    ensures SameHomes(s.lobbies, Step(s, ev).lobbies)
  {
    match ev
    case Complete(k, o) => if k < |s.jobs| { CompleteKeepsHomes(s.(jobs := Without(s.jobs, k)), s.jobs[k], o); }
    case Poll(h, a) => PollKeepsHomes(s, h, a);
    case _ =>
  }

  /** Over one step from any reachable state: a change about a lobby of another instance is queued exactly
      when a post made under the live instance completes through such a lobby. */
  lemma CrossingExact(es: seq<Event>, ev: Event)
    ensures var s, s' := Run(es), Step(Run(es), ev);
            && |s.log| <= |s'.log| && s'.log[..|s.log|] == s.log
            && ((exists i | |s.log| <= i < |s'.log| :: Crosses(s.lobbies, s'.log[i])) <==> ForeignPost(s, ev))
  {
    var s := Run(es);
    RunSeparate(es);
    if ForeignPost(s, ev) { ForeignPostCrosses(s, ev); } else { StepAtHome(s, ev); }
  }

  ghost predicate Crossed(s: State) {
    exists c <- s.log :: Crosses(s.lobbies, c)
  }

  /** One more step: what has crossed stays crossed, and only a foreign post adds to it. */
  lemma CrossedStep(es: seq<Event>, ev: Event)
    ensures Crossed(Step(Run(es), ev)) <==> Crossed(Run(es)) || ForeignPost(Run(es), ev)
  {
    var s, s' := Run(es), Step(Run(es), ev);
    CrossingExact(es, ev);
    RunSeparate(es);
    HomesKept(s, ev);
    StepSeparate(s, ev);
    forall c <- s.log ensures Crosses(s'.lobbies, c) <==> Crosses(s.lobbies, c) {
      assert Belongs(s.lobbies, s.asked, c);
    }
    forall c <- s.log ensures c in s'.log {
      assert c in s'.log[..|s.log|];
    }
    if ForeignPost(s, ev) {
      ForeignPostCrosses(s, ev);
      assert Crosses(s'.lobbies, s'.log[|s.log|]) && s'.log[|s.log|] in s'.log;
    } else if Crossed(s') {
      var c :| c in s'.log && Crosses(s'.lobbies, c);
      var i :| 0 <= i < |s'.log| && s'.log[i] == c;
      if i < |s.log| {
        assert s.log[i] == s'.log[..|s.log|][i];
        assert s.log[i] in s.log;
      } else {
        NewStaysHome(s, ev, i);
      }
    }
  }

  lemma NewStaysHome(s: State, ev: Event, i: nat)
    requires Separate(s) && !ForeignPost(s, ev) && |s.log| <= i < |Step(s, ev).log|
    ensures !Crosses(Step(s, ev).lobbies, Step(s, ev).log[i])
  {
    StepAtHome(s, ev);
    HomesKept(s, ev);
  }

  /** The n-th event was a foreign post. */
  ghost predicate ForeignAt(es: seq<Event>, n: nat)
    requires n < |es|
  {
    ForeignPost(Run(es[..n]), es[n])
  }

  ghost predicate SomeForeign(es: seq<Event>) {
    exists n | 0 <= n < |es| :: ForeignAt(es, n)
  }

  lemma SomeForeignSnoc(es: seq<Event>, ev: Event)
    ensures SomeForeign(es + [ev]) <==> SomeForeign(es) || ForeignPost(Run(es), ev)
  {
    var all := es + [ev];
    forall n | 0 <= n < |es| ensures ForeignAt(all, n) <==> ForeignAt(es, n) {
      assert all[..n] == es[..n];
    }
    assert all[..|es|] == es;
    assert ForeignAt(all, |es|) <==> ForeignPost(Run(es), ev);
    if SomeForeign(es) {
      var n :| 0 <= n < |es| && ForeignAt(es, n);
      assert ForeignAt(all, n);
    }
  }

  lemma {:induction false} CrossedExact(es: seq<Event>)
    ensures Crossed(Run(es)) <==> SomeForeign(es)
  {
    if es != [] {
      var before, ev := es[..|es| - 1], es[|es| - 1];
      assert es == before + [ev];
      CrossedExact(before);
      FoldSnoc(Step, Init(), before, ev);
      CrossedStep(before, ev);
      SomeForeignSnoc(before, ev);
    }
  }

  /** Over every history: a change comes from a job of the instance it is queued in, and it names a lobby of
      that instance, except exactly for posts that complete under the instance they were made in through a
      lobby of another one. A title that posts only through lobbies of the live instance sees none. */
  lemma NoCrossing(es: seq<Event>)
    ensures var s := Run(es);
            && (forall c <- s.log :: c.jobGen == c.gen)
            && (Crossed(s) <==> SomeForeign(es))
            && ((forall a <- s.asked :: Homed(s.lobbies, a.1, a.0)) ==> !Crossed(s))
  {
    RunSeparate(es);
    CrossedExact(es);
    var s := Run(es);
    forall c <- s.log ensures c.jobGen == c.gen {
      assert Belongs(s.lobbies, s.asked, c);
    }
    if forall a <- s.asked :: Homed(s.lobbies, a.1, a.0) {
      forall c <- s.log ensures !Crosses(s.lobbies, c) {
        assert Belongs(s.lobbies, s.asked, c);
        if c.handle.Some? && (c.gen, c.handle.value) in s.asked {
          assert Homed(s.lobbies, (c.gen, c.handle.value).1, (c.gen, c.handle.value).0);
        }
      }
    }
  }

  /** What a title can tell before it posts: the answer crosses exactly when the handle it is about to pass
      was not made under the live instance. */
  lemma PostCrossesExact(es: seq<Event>, h: nat, o: Outcome)
    requires Run(es).inst.Some? && Returned(Run(es), h) && !Run(es).lobbies[h].left
    ensures var s := Run(es);
            var asked := Step(s, PostCall(h));
            var s' := Step(asked, Complete(|s.jobs|, o));
            (exists i | |s.log| <= i < |s'.log| :: Crosses(s.lobbies, s'.log[i]))
            <==> s.lobbies[h].home != s.inst.value.gen
  {
    var s := Run(es);
    var asked := Step(s, PostCall(h));
    FoldSnoc(Step, Init(), es, PostCall(h));
    assert asked.jobs[|s.jobs|] == Job(s.inst.value.gen, Post, h, "");
    CrossingExact(es + [PostCall(h)], Complete(|s.jobs|, o));
  }

  lemma Next(es: seq<Event>, s: State, ev: Event) returns (es': seq<Event>, s': State)
    requires s == Run(es)
    ensures s' == Run(es') && s' == Step(s, ev)
  {
    es', s' := es + [ev], Step(s, ev);
    FoldSnoc(Step, Init(), es, ev);
  }

  /** The handle of a create that has returned is kept across Uninitialize and Initialize; a post through
      it is answered in the new instance. */
  lemma StaleHandleCrosses() returns (es: seq<Event>)
    ensures var s := Run(es); Change(2, 2, Updated, Some(1), "") in s.log && Homed(s.lobbies, 1, 1) && Crossed(s)
  {
    var s := Init();
    es := [];
    es, s := Next(es, s, Initialize);
    es, s := Next(es, s, Begin(Create, "a"));
    es, s := Next(es, s, Register(0));
    es, s := Next(es, s, Enqueue(0));
    assert s.calls == [] && s.jobs == [Job(1, Create, 1, "a")];
    es, s := StaleTail(es, s);
  }

  lemma StaleTail(es0: seq<Event>, s0: State) returns (es: seq<Event>, s: State)
    requires s0 == Run(es0) && s0.calls == [] && s0.jobs == [Job(1, Create, 1, "a")] && s0.log == [] && s0.nextGen == 2
    requires 1 in s0.lobbies && s0.lobbies[1].home == 1 && !s0.lobbies[1].left
    ensures s == Run(es) && Change(2, 2, Updated, Some(1), "") in s.log && Homed(s.lobbies, 1, 1) && Crossed(s)
  {
    es, s := Next(es0, s0, Uninitialize);
    es, s := Next(es, s, Initialize);
    es, s := Next(es, s, PostCall(1));
    assert s.jobs == [Job(1, Create, 1, "a"), Job(2, Post, 1, "")];
    es, s := Next(es, s, Complete(1, Outcome(true, true, "a", [], true)));
    assert s.log == [Change(2, 2, PostDone, Some(1), ""), Change(2, 2, Updated, Some(1), "")];
    assert Crosses(s.lobbies, s.log[1]);
  }
}
