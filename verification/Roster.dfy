/** Instances, jobs and rosters of playfab-mp-shim/src/lib.rs.

    A broker job remembers the instance it was made under, a lobby handle outlives its instance, and the
    worker's HTTP leaves room for Uninitialize and Initialize in between. */
module Roster {
  import opened Common
  import opened Seqs

  // ---------------------------------------------------------------------------
  // One lobby's announcements
  // ---------------------------------------------------------------------------

  datatype What = Added | Removed | Updated | Disconnected | CreateDone | JoinDone | PostDone | FindDone | LeaveDone

  /** A queued change: the instance it was queued in, the one its job or poll belongs to, and its subject. */
  datatype Change = Change(gen: nat, jobGen: nat, what: What, handle: Option<nat>, entity: string)

  /** Who is asking: the instance, the job's instance, the lobby. */
  datatype Source = Source(gen: nat, jobGen: nat, handle: nat)

  function Say(src: Source, what: What, entity: string): Change {
    Change(src.gen, src.jobGen, what, Some(src.handle), entity)
  }

  /** The announced set and the changes queued. */
  datatype Roll = Roll(announced: set<string>, log: seq<Change>)

  function AddedStep(r: Roll, src: Source, id: string): Roll {
    if id == "" || id == "owner" || id in r.announced then r
    else Roll(r.announced + {id}, r.log + [Say(src, Added, id)])
  }

  function AddedAll(r: Roll, src: Source, ids: seq<string>): Roll {
    if ids == [] then r else AddedStep(AddedAll(r, src, ids[..|ids| - 1]), src, ids[|ids| - 1])
  }

  function RemovedStep(r: Roll, src: Source, id: string): Roll {
    Roll(r.announced - {id}, r.log + [Say(src, Removed, id)])
  }

  function RemovedAll(r: Roll, src: Source, ids: seq<string>): Roll {
    if ids == [] then r else RemovedStep(RemovedAll(r, src, ids[..|ids| - 1]), src, ids[|ids| - 1])
  }

  predicate About(c: Change, h: nat, id: string) {
    c.handle == Some(h) && c.entity == id && (c.what == Added || c.what == Removed)
  }

  /** The comings (true) and goings of one entity in one lobby. */
  function Story(log: seq<Change>, h: nat, id: string): seq<bool> {
    if log == [] then []
    else
      var c := log[|log| - 1];
      Story(log[..|log| - 1], h, id) + if About(c, h, id) then [c.what == Added] else []
  }

  /** Strict alternation, starting with a coming; present exactly while the last was a coming. */
  ghost predicate Alternates(story: seq<bool>, present: bool) {
    && (forall i | 0 <= i < |story| :: story[i] == (i % 2 == 0))
    && (present <==> |story| % 2 == 1)
  }

  ghost predicate RollOk(r: Roll, h: nat) {
    forall id :: StoryOk(r.log, h, id, id in r.announced)
  }

  lemma StorySnoc(log: seq<Change>, c: Change, h: nat, id: string)
    ensures Story(log + [c], h, id) == Story(log, h, id) + if About(c, h, id) then [c.what == Added] else []
  {
    assert (log + [c])[..|log|] == log;
  }

  lemma AlternatesTurns(story: seq<bool>, present: bool)
    requires Alternates(story, present)
    ensures Alternates(story + [!present], !present)
  {
  }

  ghost predicate StoryOk(log: seq<Change>, h: nat, id: string, present: bool) {
    Alternates(Story(log, h, id), present)
  }

  /** A coming of someone absent, or a going of someone present, turns that one's story and no other. */
  lemma StoryTurns(log: seq<Change>, src: Source, what: What, id: string, x: string, present: bool)
    requires StoryOk(log, src.handle, x, present)
    requires x == id ==> (what == Added && !present) || (what == Removed && present)
    ensures StoryOk(log + [Say(src, what, id)], src.handle, x, present != (x == id))
  {
    var story := Story(log, src.handle, x);
    StorySnoc(log, Say(src, what, id), src.handle, x);
    if x == id { AlternatesTurns(story, present); } else { assert story + [] == story; }
  }

  lemma RollTurns(r: Roll, r': Roll, src: Source, what: What, id: string)
    requires RollOk(r, src.handle) && ((what == Added && id !in r.announced) || (what == Removed && id in r.announced))
    requires r'.log == r.log + [Say(src, what, id)] && forall x :: x in r'.announced <==> (x in r.announced) != (x == id)
    ensures RollOk(r', src.handle)
  {
    forall x ensures StoryOk(r'.log, src.handle, x, x in r'.announced) {
      StoryTurns(r.log, src, what, id, x, x in r.announced);
    }
  }

  lemma AddedKeeps(r: Roll, src: Source, id: string)
    requires RollOk(r, src.handle)
    ensures RollOk(AddedStep(r, src, id), src.handle)
  {
    if AddedStep(r, src, id) != r { RollTurns(r, AddedStep(r, src, id), src, Added, id); }
  }

  lemma RemovedKeeps(r: Roll, src: Source, id: string)
    requires RollOk(r, src.handle) && id in r.announced
    ensures RollOk(RemovedStep(r, src, id), src.handle)
  {
    RollTurns(r, RemovedStep(r, src, id), src, Removed, id);
  }

  lemma {:induction false} AddedAllKeeps(r: Roll, src: Source, ids: seq<string>)
    requires RollOk(r, src.handle)
    ensures RollOk(AddedAll(r, src, ids), src.handle)
  {
    if ids != [] {
      AddedAllKeeps(r, src, ids[..|ids| - 1]);
      AddedKeeps(AddedAll(r, src, ids[..|ids| - 1]), src, ids[|ids| - 1]);
    }
  }

  ghost predicate Distinct(ids: seq<string>) {
    forall i, j | 0 <= i < j < |ids| :: ids[i] != ids[j]
  }

  lemma {:induction false} RemovedAllKeeps(r: Roll, src: Source, ids: seq<string>)
    requires RollOk(r, src.handle) && Distinct(ids) && forall id <- ids :: id in r.announced
    ensures RollOk(RemovedAll(r, src, ids), src.handle)
    ensures RemovedAll(r, src, ids).announced == r.announced - set id <- ids
  {
    if ids != [] {
      var n := |ids| - 1;
      RemovedAllKeeps(r, src, ids[..n]);
      assert ids[n] !in ids[..n] && ids[n] in ids;
      RemovedKeeps(RemovedAll(r, src, ids[..n]), src, ids[n]);
    }
  }

  /** The announced set and the queue, updated in place. */
  class Announcer {
    var announced: set<string>
    var log: seq<Change>

    ghost function View(): Roll
      reads this
    {
      Roll(announced, log)
    }

    constructor ()
      ensures View() == Roll({}, [])
    {
      announced, log := {}, [];
    }

    method EmitMemberAdded(src: Source, id: string)
      modifies this
      ensures View() == AddedStep(old(View()), src, id)
    {
      if id == "" || id == "owner" || id in announced {
        return;
      }
      announced := announced + {id};
      log := log + [Say(src, Added, id)];
    }

    method AnnounceLobbyMembers(src: Source, owner: string, members: seq<string>)
      modifies this
      ensures View() == AddedAll(old(View()), src, [owner] + members)
    {
      ghost var all := [owner] + members;
      EmitMemberAdded(src, owner);
      assert all[..1] == [owner] && all[..1][..0] == [];
      var i := 0;
      while i < |members|
        invariant i <= |members| && View() == AddedAll(old(View()), src, all[..i + 1])
      {
        EmitMemberAdded(src, members[i]);
        assert all[..i + 2][..i + 1] == all[..i + 1];
        i := i + 1;
      }
      assert all[..i + 1] == all;
    }

    method RemoveDeparted(src: Source, departed: seq<string>)
      modifies this
      ensures View() == RemovedAll(old(View()), src, departed)
    {
      var i := 0;
      while i < |departed|
        invariant i <= |departed| && View() == RemovedAll(old(View()), src, departed[..i])
      {
        log := log + [Say(src, Removed, departed[i])];
        announced := announced - {departed[i]};
        assert departed[..i + 1][..i] == departed[..i];
        i := i + 1;
      }
      assert departed[..i] == departed;
    }
  }

  // ---------------------------------------------------------------------------
  // Instances, handles and jobs
  // ---------------------------------------------------------------------------

  /** A lobby handle; `home` is the instance whose number the creating call read. */
  datatype Lobby = Lobby(home: nat, hasId: bool, pending: bool, left: bool, announced: set<string>, owner: string,
                         members: seq<string>)
  datatype Kind = Create | Join | Find | Leave | Post
  datatype Job = Job(gen: nat, kind: Kind, handle: nat, who: string)
  datatype Call = Call(job: Job, registered: bool)
  datatype Parked = Parked(handle: nat, who: string)
  datatype Instance = Instance(gen: nat, lobbies: set<nat>, parked: seq<Parked>)

  /** `asked` records the posts the title made: the live instance and the handle it passed. */
  datatype State = State(nextGen: nat, inst: Option<Instance>, lobbies: map<nat, Lobby>, nextHandle: nat,
                         calls: seq<Call>, jobs: seq<Job>, asked: set<(nat, nat)>, log: seq<Change>)

  datatype Outcome = Outcome(ok: bool, hasId: bool, owner: string, members: seq<string>, ready: bool)
  datatype Answer = Silent | Gone | Roster(owner: string, members: seq<string>, order: seq<string>)

  datatype Event =
    | Initialize | Uninitialize
    | Begin(kind: Kind, who: string) | Register(i: nat) | Enqueue(i: nat)
    | FindCall | LeaveCall(h: nat) | PostCall(h: nat)
    | Complete(k: nat, outcome: Outcome)
    | Poll(h: nat, answer: Answer)
    | Service(k: nat)

  function Init(): State {
    State(1, None, map[], 1, [], [], {}, [])
  }

  function CurrentGen(s: State): nat {
    if s.inst.Some? then s.inst.value.gen else 0
  }

  function Put(s: State, h: nat, l: Lobby): State {
    s.(lobbies := s.lobbies[h := l])
  }

  function Tell(s: State, src: Source, what: What): State {
    s.(log := s.log + [Say(src, what, "")])
  }

  function RollOf(s: State, h: nat): Roll
    requires h in s.lobbies
  {
    Roll(s.lobbies[h].announced, s.log)
  }

  function PutRoll(s: State, h: nat, r: Roll): State
    requires h in s.lobbies
  {
    Put(s, h, s.lobbies[h].(announced := r.announced)).(log := r.log)
  }

  function Announce(s: State, src: Source, ids: seq<string>): State
    requires src.handle in s.lobbies
  {
    PutRoll(s, src.handle, AddedAll(RollOf(s, src.handle), src, ids))
  }

  function Retire(s: State, src: Source, ids: seq<string>): State
    requires src.handle in s.lobbies
  {
    PutRoll(s, src.handle, RemovedAll(RollOf(s, src.handle), src, ids))
  }

  function Unlist(s: State, h: nat): State {
    if s.inst.None? then s else s.(inst := Some(s.inst.value.(lobbies := s.inst.value.lobbies - {h})))
  }

  /** MemberAdded for everyone, then Updated, then JoinLobbyCompleted. */
  function JoinCompleted(s: State, src: Source, who: string): State
    requires src.handle in s.lobbies
  {
    var l := s.lobbies[src.handle];
    var s1 := Put(s, src.handle, l.(pending := false));
    Tell(Tell(Announce(s1, src, [l.owner] + l.members + [who]), src, Updated), src, JoinDone)
  }

  function CompleteCreate(s: State, src: Source, o: Outcome): State
    requires src.handle in s.lobbies
  {
    var h, l := src.handle, s.lobbies[src.handle];
    if l.left then s
    else if !o.ok then Tell(Unlist(Put(s, h, l.(pending := false, left := true)), h), src, CreateDone)
    else Tell(Announce(Put(s, h, l.(hasId := true, pending := false)), src, [l.owner]), src, CreateDone)
  }

  function CompleteJoin(s: State, src: Source, who: string, o: Outcome): State
    requires src.handle in s.lobbies && s.inst.Some?
  {
    var h, l := src.handle, s.lobbies[src.handle];
    if !o.ok then Tell(Unlist(Put(s, h, l.(pending := false, left := true)), h), src, JoinDone)
    else if l.left then s
    else
      var members := if who in o.members then o.members else o.members + [who];
      var s1 := Put(s, h, l.(hasId := o.hasId, owner := o.owner, members := members));
      if o.ready then JoinCompleted(s1, src, who)
      else s1.(inst := Some(s.inst.value.(parked := s.inst.value.parked + [Parked(h, who)])))
  }

  function CompleteJob(s: State, j: Job, o: Outcome): State {
    if s.inst.None? || s.inst.value.gen != j.gen then s
    else
      var src := Source(s.inst.value.gen, j.gen, j.handle);
      match j.kind
      case Create => if j.handle in s.lobbies then CompleteCreate(s, src, o) else s
      case Join => if j.handle in s.lobbies then CompleteJoin(s, src, j.who, o) else s
      case Find => s.(log := s.log + [Change(src.gen, src.jobGen, FindDone, None, "")])
      case Leave => s.(log := s.log + [Change(src.gen, src.jobGen, LeaveDone, None, "")])
      case Post => var s1 := Tell(s, src, PostDone); if o.ok then Tell(s1, src, Updated) else s1
  }

  /** The members announced who are no longer there, in the order a hash set happens to give. */
  predicate IsDeparture(l: Lobby, order: seq<string>) {
    && (set id <- order) == l.announced - (set id <- l.members)
    && |order| == |l.announced - (set id <- l.members)|
  }

  /** One GetLobby answer, delivered only to a lobby that the live instance still tracks. */
  function PollStep(s: State, h: nat, a: Answer): State {
    if s.inst.None? || h !in s.inst.value.lobbies || h !in s.lobbies then s
    else
      var l, src := s.lobbies[h], Source(s.inst.value.gen, s.inst.value.gen, h);
      if l.left || (l.pending && !l.hasId) then s
      else if a.Gone? then Tell(Unlist(Put(s, h, l.(left := true)), h), src, Disconnected)
      else
        var l' := if a.Silent? then l
                  else l.(owner := a.owner, members := if a.members == [] then l.members else a.members);
        var order := if a.Silent? then [] else a.order;
        if a.Roster? && !IsDeparture(l', order) then s
        else
          var s1 := Retire(Put(s, h, l'), src, order);
          if exists p <- s.inst.value.parked :: p.handle == h then s1
          else Tell(Announce(s1, src, [l'.owner] + l'.members), src, Updated)
  }

  function ServiceStep(s: State, k: nat): State {
    if s.inst.None? || k >= |s.inst.value.parked| then s
    else
      var p := s.inst.value.parked[k];
      if p.handle !in s.lobbies then s
      else JoinCompleted(s.(inst := Some(s.inst.value.(parked := Without(s.inst.value.parked, k)))),
                         Source(s.inst.value.gen, s.inst.value.gen, p.handle), p.who)
  }

  function BeginStep(s: State, kind: Kind, who: string): State {
    var gen := CurrentGen(s);
    var members := if kind == Create then [who] else [];
    s.(lobbies := s.lobbies[s.nextHandle := Lobby(gen, false, true, false, {}, who, members)],
       nextHandle := s.nextHandle + 1, calls := s.calls + [Call(Job(gen, kind, s.nextHandle, who), false)])
  }

  function RegisterStep(s: State, i: nat): State
    requires i < |s.calls|
  {
    var s1 := s.(calls := s.calls[i := s.calls[i].(registered := true)]);
    if s.inst.None? then s1
    else s1.(inst := Some(s.inst.value.(lobbies := s.inst.value.lobbies + {s.calls[i].job.handle})))
  }

  /** The title has the handle: the call that made it has returned. */
  predicate Returned(s: State, h: nat) {
    h in s.lobbies && forall c <- s.calls :: c.job.handle != h
  }

  function Step(s: State, ev: Event): State {
    match ev
    case Initialize => if s.inst.Some? then s else s.(inst := Some(Instance(s.nextGen, {}, [])), nextGen := s.nextGen + 1)
    case Uninitialize => s.(inst := None)
    case Begin(kind, who) => if kind == Create || kind == Join then BeginStep(s, kind, who) else s
    case Register(i) => if i < |s.calls| && !s.calls[i].registered then RegisterStep(s, i) else s
    case Enqueue(i) =>
      if i < |s.calls| && s.calls[i].registered then s.(calls := Without(s.calls, i), jobs := s.jobs + [s.calls[i].job]) else s
    case FindCall => s.(jobs := s.jobs + [Job(CurrentGen(s), Find, 0, "")])
    case LeaveCall(h) =>
      if !Returned(s, h) then s
      else Unlist(Put(s, h, s.lobbies[h].(left := true)), h).(jobs := s.jobs + [Job(CurrentGen(s), Leave, h, "")])
    case PostCall(h) =>
      if !Returned(s, h) || s.lobbies[h].left then s
      else s.(jobs := s.jobs + [Job(CurrentGen(s), Post, h, "")], asked := s.asked + {(CurrentGen(s), h)})
    case Complete(k, o) => if k < |s.jobs| then CompleteJob(s.(jobs := Without(s.jobs, k)), s.jobs[k], o) else s
    case Poll(h, a) => PollStep(s, h, a)
    case Service(k) => ServiceStep(s, k)
  }

  ghost function Run(es: seq<Event>): State {
    Fold(Step, Init(), es)
  }
}
