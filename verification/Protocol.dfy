/** Mutators, rebuilds and crashes, interleaved. Files change only under the exclusive lock;
    a rebuild scans without it, so mutators and other rebuilds may run during the scan. */
module Protocol {
  import opened Wrappers
  import opened DiskFiles

  datatype Task =
    | Mutate(mayCommit: bool)                  // a session of a claim, evidence or marker command
    | Start(mayScan: bool)                     // first locked part of a rebuild
    | Publish(observed: nat, image: Database)  // second locked part of a rebuild

  datatype Actor =
    | Locked(task: Task, ops: seq<Op>, marked: bool, bumped: bool)
      // passes: manifest, claim scan, manifest, manifest; listing: names still to be read
    | Scanning(observed: nat, passes: seq<Tree>, listing: Option<set<Path>>, partial: Tree)
    | Built(observed: nat, image: Database)

  type ActorId = nat

  datatype State = State(disk: Disk, lock: Option<ActorId>, actors: map<ActorId, Actor>)

  datatype Step =
    | BeginSession                // take the lock and recover
    | BeginMark                   // the mark-dirty command
    | Commit(plan: Plan)          // a planned change, possibly not the first of the session
    | StartRebuild
    | Exec                        // the next file write
    | Observe                     // note the generation, drop the lock
    | List                        // start a pass: enumerate the canonical files
    | Read(path: Path)
    | EndPass
    | TakePublishLock
    | PublishError                // an error while publishing: set the marker instead
    | Leave                       // finish, fail or crash: a held lock is released

  function Set(s: State, a: ActorId, actor: Actor): State {
    s.(actors := s.actors[a := actor])
  }

  function Lock(s: State, a: ActorId, actor: Actor): State {
    s.(lock := Some(a), actors := s.actors[a := actor])
  }

  // A pass that ends is compared with the manifest taken before it: the third pass with
  // the first, the fourth with the third.
  predicate PassAgrees(passes: seq<Tree>, partial: Tree) {
    && (|passes| == 2 ==> partial == passes[0])
    && (|passes| == 3 ==> partial == passes[2])
  }

  function AfterPass(observed: nat, passes: seq<Tree>): Actor {
    if |passes| == 4 then Built(observed, Database(passes[1], passes[3]))
    else Scanning(observed, passes, None, map[])
  }

  ghost predicate NextBy(s: State, t: State, a: ActorId, step: Step) {
    match step
    case BeginSession =>
      && a !in s.actors && s.lock.None?
      && t == Lock(s, a, Locked(Mutate(CanRecover(s.disk)), RecoverOps(s.disk), false, false))
    case BeginMark =>
      && a !in s.actors && s.lock.None?
      && t == Lock(s, a, Locked(Mutate(false), [MarkDirty], false, false))
    case Commit(plan) =>
      && a in s.actors && s.actors[a].Locked? && s.actors[a].task == Mutate(true) && s.actors[a].ops == []
      && PlanReads(s.disk, plan) && GenerationOf(s.disk).current < MAX_GENERATION
      && t == Set(s, a, s.actors[a].(ops := CommitOps(s.disk, plan)))
    case StartRebuild =>
      && a !in s.actors && s.lock.None?
      && t == Lock(s, a, Locked(Start(CanRecover(s.disk)), StartOps(s.disk), false, false))
    case Exec =>
      && a in s.actors && s.actors[a].Locked? && s.actors[a].ops != []
      && var me := s.actors[a];
         t == Set(s, a, Locked(me.task, me.ops[1..], Marked(me.marked, me.ops[0]), Bumped(me.bumped, me.ops[0])))
              .(disk := Do(s.disk, me.ops[0]))
    case Observe =>
      && a in s.actors && s.actors[a].Locked? && s.actors[a].task == Start(true) && s.actors[a].ops == []
      && t == Set(s, a, Scanning(GenerationOf(s.disk).current, [], None, map[])).(lock := None)
    case List =>
      && a in s.actors && s.actors[a].Scanning? && s.actors[a].listing.None?
      && t == Set(s, a, s.actors[a].(listing := Some(s.disk.canonical.Keys), partial := map[]))
    case Read(p) =>
      && a in s.actors && s.actors[a].Scanning? && s.actors[a].listing.Some? && p in s.actors[a].listing.value
      && p in s.disk.canonical
      && var me := s.actors[a];
         t == Set(s, a, me.(listing := Some(me.listing.value - {p}), partial := me.partial[p := s.disk.canonical[p]]))
    case EndPass =>
      && a in s.actors && s.actors[a].Scanning? && s.actors[a].listing == Some({})
      && PassAgrees(s.actors[a].passes, s.actors[a].partial)
      && t == Set(s, a, AfterPass(s.actors[a].observed, s.actors[a].passes + [s.actors[a].partial]))
    case TakePublishLock =>
      && a in s.actors && s.actors[a].Built? && s.lock.None?
      && var me := s.actors[a];
         t == Lock(s, a, Locked(Publish(me.observed, me.image), PublishOps(s.disk, me.observed, me.image), false,
           false))
    case PublishError =>
      && a in s.actors && s.actors[a].Locked? && s.actors[a].task.Publish?
      && t == Set(s, a, s.actors[a].(ops := [MarkDirty]))
    case Leave =>
      && a in s.actors
      && t == s.(actors := s.actors - {a}, lock := if s.actors[a].Locked? then None else s.lock)
  }

  ghost predicate Next(s: State, t: State) {
    exists a, step :: NextBy(s, t, a, step)
  }

  // A workspace nobody has indexed yet, with any canonical files.
  ghost predicate Init(s: State) {
    && s.disk.generation.None? && s.disk.pending.None? && s.disk.database.None?
    && s.lock.None? && s.actors == map[]
  }

  ghost predicate IsRun(run: seq<State>) {
    && |run| > 0 && Init(run[0])
    && forall i :: 0 <= i < |run| - 1 ==> Next(run[i], run[i + 1])
  }

  // ----- invariant -----

  // A scan read the tree of the generation it observed, for as long as that generation
  // is current; one mutation later nothing is known about it.
  ghost predicate ScanOk(d: Disk, actor: Actor) {
    match actor
    case Locked(_, _, _, _) => true
    case Scanning(observed, passes, listing, partial) =>
      && d.generation.Some? && observed <= d.generation.value.current
      && |passes| <= 3
      && (observed == d.generation.value.current ==>
            && (forall i :: 0 <= i < |passes| ==> passes[i] == d.canonical)
            && (listing.Some? ==>
                  && listing.value + partial.Keys == d.canonical.Keys
                  && forall p :: p in partial ==> p in d.canonical && partial[p] == d.canonical[p]))
    case Built(observed, image) =>
      && d.generation.Some? && observed <= d.generation.value.current
      && (observed == d.generation.value.current ==> image == ImageOf(d.canonical))
  }

  // Once a session has bumped the generation, no scan in flight can still be published.
  ghost predicate Outdated(d: Disk, actor: Actor) {
    match actor
    case Locked(_, _, _, _) => true
    case Scanning(observed, _, _, _) => observed < GenerationOf(d).current
    case Built(observed, _) => observed < GenerationOf(d).current
  }

  ghost predicate SessionOk(d: Disk, actor: Actor) {
    actor.Locked? ==>
      && FlagsOk(d, actor.marked, actor.bumped)
      && OpsOk(d, actor.marked, actor.bumped, actor.ops)
      && (actor.task == Mutate(true) ==> Execute(d, actor.ops).pending.None?)
      && (actor.task == Start(true) ==> Execute(d, actor.ops).pending.None? && Execute(d, actor.ops).generation.Some?)
      && (actor.task.Publish? ==> !actor.bumped && d.generation.Some? && Bump !in actor.ops)
  }

  ghost predicate Inv(s: State) {
    && DiskInv(s.disk)
    && (forall a :: a in s.actors ==> ScanOk(s.disk, s.actors[a]) && SessionOk(s.disk, s.actors[a]))
    && (forall a :: a in s.actors && s.actors[a].Locked? ==> s.lock == Some(a))
    && (s.lock.Some? ==> s.lock.value in s.actors && s.actors[s.lock.value].Locked?)
    && (s.lock.Some? && s.actors[s.lock.value].bumped ==>
          forall a :: a in s.actors ==> Outdated(s.disk, s.actors[a]))
  }

  lemma InitInv(s: State)
    requires Init(s)
    ensures Inv(s)
  {
  }

  // ----- one file write against the scans in flight -----

  lemma ExecKeepsScans(d: Disk, me: Actor, other: Actor)
    requires DiskInv(d) && ScanOk(d, other)
    requires me.Locked? && me.ops != [] && SessionOk(d, me)
    requires me.bumped ==> Outdated(d, other)
    ensures ScanOk(Do(d, me.ops[0]), other)
    ensures Bumped(me.bumped, me.ops[0]) ==> Outdated(Do(d, me.ops[0]), other)
  {
  }

  lemma ExecKeepsSession(d: Disk, me: Actor)
    requires DiskInv(d) && me.Locked? && me.ops != [] && SessionOk(d, me)
    ensures DiskInv(Do(d, me.ops[0]))
    ensures SessionOk(Do(d, me.ops[0]),
              Locked(me.task, me.ops[1..], Marked(me.marked, me.ops[0]), Bumped(me.bumped, me.ops[0])))
  {
    OpKeepsDiskInv(d, me.marked, me.bumped, me.ops[0]);
    assert me.ops == [me.ops[0]] + me.ops[1..];
  }

  lemma ExecKeepsInv(s: State, t: State, a: ActorId)
    requires Inv(s) && NextBy(s, t, a, Exec)
    ensures Inv(t)
  {
    var me := s.actors[a];
    ExecKeepsSession(s.disk, me);
    forall b | b in s.actors && b != a
      ensures ScanOk(t.disk, t.actors[b]) && SessionOk(t.disk, t.actors[b])
      ensures t.actors[a].bumped ==> Outdated(t.disk, t.actors[b])
    {
      ExecKeepsScans(s.disk, me, s.actors[b]);
    }
  }

  // ----- the other steps -----

  lemma SessionStartKeepsInv(s: State, t: State, a: ActorId, step: Step)
    requires Inv(s) && NextBy(s, t, a, step)
    requires step.BeginSession? || step.BeginMark? || step.StartRebuild?
    ensures Inv(t)
  {
    match step {
      case BeginSession => RecoverSafe(s.disk, false, false);
      case BeginMark => assert [MarkDirty][1..] == [];
      case StartRebuild => StartSafe(s.disk, false, false);
    }
    assert SessionOk(t.disk, t.actors[a]);
  }

  lemma CommitKeepsInv(s: State, t: State, a: ActorId, plan: Plan)
    requires Inv(s) && NextBy(s, t, a, Commit(plan))
    ensures Inv(t)
  {
    var me := s.actors[a];
    CommitSafe(s.disk, me.marked, me.bumped, plan);
    CommitEndsSettled(s.disk, plan);
    assert SessionOk(t.disk, t.actors[a]);
  }

  lemma CommitEndsSettled(d: Disk, plan: Plan)
    requires d.pending.None? && PlanReads(d, plan)
    ensures Execute(d, CommitOps(d, plan)).pending.None?
  {
    match plan
    case Direct(writes) =>
      BarrierRuns(d, WriteOps(writes));
      WritesKeepPending(Begun(d), writes);
    case Journaled(j) =>
      JournaledSafe(Begun(d), j);
      var tail := [WriteJournal(j)] + ReplayOps(d.canonical, j) + [ClearJournal];
      BarrierRuns(d, tail);
      assert CommitOps(d, plan) == BeginOps() + tail;
  }

  lemma {:induction false} WritesKeepPending(d: Disk, writes: seq<Write>)
    ensures Execute(d, WriteOps(writes)).pending == d.pending
    decreases |writes|
  {
    if writes != [] {
      var ops := WriteOps(writes);
      assert ops[1..] == WriteOps(writes[1..]);
      WritesKeepPending(Do(d, ops[0]), writes[1..]);
    }
  }

  lemma ScanStepKeepsInv(s: State, t: State, a: ActorId, step: Step)
    requires Inv(s) && NextBy(s, t, a, step)
    requires step.Observe? || step.List? || step.Read? || step.EndPass?
    ensures Inv(t)
  {
    if step.EndPass? {
      var me := s.actors[a];
      if me.observed == s.disk.generation.value.current {
        assert me.partial == s.disk.canonical;
      }
    }
    assert ScanOk(t.disk, t.actors[a]);
    assert s.lock.Some? && s.lock != Some(a) ==> t.actors[s.lock.value] == s.actors[s.lock.value];
  }

  lemma PublishStepKeepsInv(s: State, t: State, a: ActorId, step: Step)
    requires Inv(s) && NextBy(s, t, a, step)
    requires step.TakePublishLock? || step.PublishError?
    ensures Inv(t)
  {
    var me := s.actors[a];
    if step.TakePublishLock? {
      PublishSafe(s.disk, me.observed, me.image);
    } else {
      assert [MarkDirty][1..] == [];
    }
    assert SessionOk(t.disk, t.actors[a]);
  }

  lemma LeaveKeepsInv(s: State, t: State, a: ActorId)
    requires Inv(s) && NextBy(s, t, a, Leave)
    ensures Inv(t)
  {
  }

  lemma NextKeepsInv(s: State, t: State)
    requires Inv(s) && Next(s, t)
    ensures Inv(t)
  {
    var a, step :| NextBy(s, t, a, step);
    match step {
      case BeginSession => SessionStartKeepsInv(s, t, a, step);
      case BeginMark => SessionStartKeepsInv(s, t, a, step);
      case StartRebuild => SessionStartKeepsInv(s, t, a, step);
      case Commit(plan) => CommitKeepsInv(s, t, a, plan);
      case Exec => ExecKeepsInv(s, t, a);
      case Observe => ScanStepKeepsInv(s, t, a, step);
      case List => ScanStepKeepsInv(s, t, a, step);
      case Read(_) => ScanStepKeepsInv(s, t, a, step);
      case EndPass => ScanStepKeepsInv(s, t, a, step);
      case TakePublishLock => PublishStepKeepsInv(s, t, a, step);
      case PublishError => PublishStepKeepsInv(s, t, a, step);
      case Leave => LeaveKeepsInv(s, t, a);
    }
  }

  lemma {:induction false} RunInv(run: seq<State>, i: nat)
    requires IsRun(run) && i < |run|
    ensures Inv(run[i])
  {
    if i == 0 {
      InitInv(run[0]);
    } else {
      RunInv(run, i - 1);
      assert Next(run[i - 1], run[i - 1 + 1]);
      NextKeepsInv(run[i - 1], run[i]);
    }
  }

  // ----- theorems over every run -----

  // In every interleaving of mutators, rebuilds and crashes: whenever the marker, journal,
  // database and generation checks pass, the published index was built from exactly the
  // canonical files now on disk, and none of those files is half of a supersession.
  lemma PublishedIndexIsCurrent(run: seq<State>, i: nat)
    requires IsRun(run) && i < |run| && CheckPasses(run[i].disk)
    ensures run[i].disk.database == Some(ImageOf(run[i].disk.canonical))
    ensures run[i].disk.canonical == Settled(run[i].disk)
  {
    RunInv(run, i);
  }

  // A late publication: an actor that renames its database after another rebuild has
  // already cleared the marker renames one built from the same canonical files.
  lemma LateRenameIsHarmless(run: seq<State>, i: nat, a: ActorId)
    requires IsRun(run) && i < |run| && a in run[i].actors && run[i].actors[a].Locked?
    requires run[i].actors[a].ops != [] && run[i].actors[a].ops[0].RenameDatabase?
    ensures run[i].actors[a].ops[0].image == ImageOf(run[i].disk.canonical)
    ensures run[i].disk.database.Some? && CheckPasses(run[i].disk) ==>
      run[i].disk.database == Some(run[i].actors[a].ops[0].image)
  {
    RunInv(run, i);
  }

  // Every change of the canonical tree that others may act on is one whole change: a
  // direct write of one file, or all the targets of a journal at once. A crash, a recovery
  // and a publication change nothing.
  lemma StepSettles(run: seq<State>, i: nat, a: ActorId, step: Step)
    requires IsRun(run) && i + 1 < |run| && NextBy(run[i], run[i + 1], a, step)
    ensures Settled(run[i + 1].disk) ==
      if step.Exec? then SettledAfter(Settled(run[i].disk), run[i].actors[a].ops[0]) else Settled(run[i].disk)
  {
    RunInv(run, i);
    if step.Exec? {
      var me := run[i].actors[a];
      OpSettles(run[i].disk, me.marked, me.bumped, me.ops[0]);
    }
  }

  // No mutator plans a change, and no check passes, on a half-done supersession.
  lemma NobodyActsOnHalfDone(run: seq<State>, i: nat, a: ActorId, plan: Plan)
    requires IsRun(run) && i + 1 < |run| && NextBy(run[i], run[i + 1], a, Commit(plan))
    ensures run[i].disk.pending.None? && run[i].disk.canonical == Settled(run[i].disk)
  {
    RunInv(run, i);
  }

  // Recovery never meets a target file that is neither preimage nor target.
  lemma RecoveryNeverRefuses(run: seq<State>, i: nat)
    requires IsRun(run) && i < |run|
    ensures CanRecover(run[i].disk) <==>
      run[i].disk.pending.None? || GenerationOf(run[i].disk).current < MAX_GENERATION
  {
    RunInv(run, i);
    RecoverSafe(run[i].disk, false, false);
  }

  // The manifest that was read before the scan is the one that was read after it.
  ghost predicate ScansAgree(s: State) {
    forall a :: a in s.actors && s.actors[a].Scanning? ==>
      |s.actors[a].passes| <= 3 && (|s.actors[a].passes| == 3 ==> s.actors[a].passes[2] == s.actors[a].passes[0])
  }

  lemma ScansAgreeStep(s: State, t: State)
    requires ScansAgree(s) && Next(s, t)
    ensures ScansAgree(t)
  {
    var a, step :| NextBy(s, t, a, step);
    forall b | b in t.actors && b != a ensures b in s.actors && t.actors[b] == s.actors[b] {}
  }

  lemma {:induction false} ScansAgreeRun(run: seq<State>, i: nat)
    requires IsRun(run) && i < |run|
    ensures ScansAgree(run[i])
  {
    if i > 0 {
      ScansAgreeRun(run, i - 1);
      assert Next(run[i - 1], run[i]);
      ScansAgreeStep(run[i - 1], run[i]);
    }
  }

  // What a rebuild is about to publish was read in four passes: the manifest before the scan and
  // twice after it, each time the same, and the scan in between.
  lemma BuiltFromPasses(run: seq<State>, i: nat, a: ActorId)
    requires IsRun(run) && i + 1 < |run|
    requires a in run[i + 1].actors && run[i + 1].actors[a].Built? && (a in run[i].actors ==> !run[i].actors[a].Built?)
    ensures a in run[i].actors && run[i].actors[a].Scanning?
    ensures var me := run[i].actors[a];
      && me.listing == Some({}) && |me.passes| == 3 && me.passes[0] == me.passes[2] == me.partial
      && run[i + 1].actors[a] == Built(me.observed, Database(me.passes[1], me.partial))
  {
    ScansAgreeRun(run, i);
    assert Next(run[i], run[i + 1]);
    var b, step :| NextBy(run[i], run[i + 1], b, step);
  }

  lemma GenerationStepRises(s: State, t: State)
    requires Next(s, t)
    ensures GenerationOf(s.disk).current <= GenerationOf(t.disk).current
  {
  }

  // A generation that a rebuild observed and that is still current was current all the time
  // in between.
  lemma {:induction false} GenerationNeverFalls(run: seq<State>, i: nat, j: nat)
    requires IsRun(run) && i <= j < |run|
    ensures GenerationOf(run[i].disk).current <= GenerationOf(run[j].disk).current
    decreases j - i
  {
    if i < j {
      GenerationNeverFalls(run, i, j - 1);
      assert Next(run[j - 1], run[j - 1 + 1]);
      GenerationStepRises(run[j - 1], run[j]);
    }
  }

  // ----- a rebuild with nobody else around makes the index fresh -----

  // A rebuild that cannot recover stops with an error before it scans.
  function QuietRebuild(d: Disk): Disk {
    var started := Execute(d, StartOps(d));
    if CanRecover(d) then
      Execute(started, PublishOps(started, GenerationOf(started).current, ImageOf(started.canonical)))
    else
      started
  }

  // From any state a run can reach, one undisturbed rebuild makes every check pass and
  // leaves the settled tree alone; the refused case is an exhausted generation with a
  // journal still pending.
  lemma QuietRebuildMakesFresh(d: Disk)
    requires DiskInv(d)
    ensures var e := QuietRebuild(d);
      && (CheckPasses(e) <==> d.pending.None? || GenerationOf(d).current < MAX_GENERATION)
      && DiskInv(e) && Settled(e) == Settled(d)
      && (CheckPasses(e) ==> e.canonical == Settled(d) && e.database == Some(ImageOf(Settled(d))))
  {
    var started := Execute(d, StartOps(d));
    StartSafe(d, false, false);
    RecoverSafe(d, false, false);
    CutKeepsDiskInv(d, false, false, StartOps(d), |StartOps(d)|);
    assert StartOps(d)[..|StartOps(d)|] == StartOps(d);
    if CanRecover(d) {
      var image := ImageOf(started.canonical);
      var ops := [RenameDatabase(image), PublishGeneration, ClearDirty];
      assert PublishOps(started, GenerationOf(started).current, image) == ops;
      RunThree(started, ops);
    } else {
      assert StartOps(d) == [EnsureGeneration] && StartOps(d)[1..] == [];
      assert Execute(Do(d, EnsureGeneration), []) == Do(d, EnsureGeneration);
    }
  }
}
