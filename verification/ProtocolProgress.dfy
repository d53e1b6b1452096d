/** From every reachable state the index can be made fresh: the holder of the lock leaves, and
    one more rebuild runs to its end. */
module ProtocolProgress {
  import opened Wrappers
  import opened DiskFiles
  import opened Protocol

  // ----- stretches of a run -----

  ghost predicate Steps(run: seq<State>) {
    forall i :: 0 <= i < |run| - 1 ==> Next(run[i], run[i + 1])
  }

  ghost predicate Stretch(run: seq<State>, s: State, t: State) {
    run != [] && run[0] == s && run[|run| - 1] == t && Steps(run)
  }

  ghost predicate Leads(s: State, t: State) {
    exists run :: Stretch(run, s, t)
  }

  lemma LeadsNowhere(s: State)
    ensures Leads(s, s)
  {
    assert Stretch([s], s, s);
  }

  lemma LeadsBy(s: State, t: State, a: ActorId, step: Step)
    requires NextBy(s, t, a, step)
    ensures Leads(s, t)
  {
    assert Next(s, t);
    assert Stretch([s, t], s, t);
  }

  lemma StepsJoin(a: seq<State>, b: seq<State>)
    requires Steps(a) && Steps(b) && a != [] && b != [] && a[|a| - 1] == b[0]
    ensures Steps(a + b[1..])
  {
    var all := a + b[1..];
    forall i | 0 <= i < |all| - 1 ensures Next(all[i], all[i + 1]) {
      if i < |a| - 1 {
        assert Next(a[i], a[i + 1]);
      } else {
        assert Next(b[i - (|a| - 1)], b[i - (|a| - 1) + 1]);
      }
    }
  }

  lemma LeadsOn(s: State, t: State, u: State)
    requires Leads(s, t) && Leads(t, u)
    ensures Leads(s, u)
  {
    var a :| Stretch(a, s, t);
    var b :| Stretch(b, t, u);
    StepsJoin(a, b);
    assert Stretch(a + b[1..], s, u);
  }

  // ----- a lock holder makes its writes -----

  // The first k of them.
  lemma {:induction false} Works(s: State, a: ActorId, k: nat) returns (t: State)
    requires a in s.actors && s.actors[a].Locked? && k <= |s.actors[a].ops|
    ensures Leads(s, t)
    ensures a in t.actors && t.actors[a].Locked? && t.actors[a].task == s.actors[a].task
    ensures t.actors[a].ops == s.actors[a].ops[k..] && t.actors - {a} == s.actors - {a}
    ensures t.lock == s.lock && t.disk == Execute(s.disk, s.actors[a].ops[..k])
    decreases k
  {
    var me := s.actors[a];
    if k == 0 {
      LeadsNowhere(s);
      return s;
    }
    var next := Set(s, a, Locked(me.task, me.ops[1..], Marked(me.marked, me.ops[0]), Bumped(me.bumped, me.ops[0])))
                .(disk := Do(s.disk, me.ops[0]));
    LeadsBy(s, next, a, Exec);
    t := Works(next, a, k - 1);
    assert me.ops[..k][1..] == me.ops[1..][..k - 1] && me.ops[k..] == me.ops[1..][k - 1..];
    LeadsOn(s, next, t);
  }

  lemma WorksOff(s: State, a: ActorId) returns (t: State)
    requires a in s.actors && s.actors[a].Locked?
    ensures Leads(s, t)
    ensures a in t.actors && t.actors[a].Locked? && t.actors[a].task == s.actors[a].task && t.actors[a].ops == []
    ensures t.lock == s.lock && t.disk == Execute(s.disk, s.actors[a].ops)
  {
    t := Works(s, a, |s.actors[a].ops|);
    assert s.actors[a].ops[..|s.actors[a].ops|] == s.actors[a].ops;
  }

  // ----- a rebuild makes a pass -----

  lemma {:induction false} ReadsAll(s: State, a: ActorId, left: set<Path>, seen: Tree, observed: nat, passes: seq<Tree>)
    requires a in s.actors && s.actors[a] == Scanning(observed, passes, Some(left), seen)
    requires left <= s.disk.canonical.Keys
    requires forall p :: p in seen ==> p in s.disk.canonical && seen[p] == s.disk.canonical[p]
    requires left + seen.Keys == s.disk.canonical.Keys
    ensures Leads(s, Set(s, a, Scanning(observed, passes, Some({}), s.disk.canonical)))
    decreases left
  {
    if left == {} {
      assert seen == s.disk.canonical;
      assert Set(s, a, s.actors[a]) == s;
      LeadsNowhere(s);
    } else {
      var p :| p in left;
      var me := Scanning(observed, passes, Some(left - {p}), seen[p := s.disk.canonical[p]]);
      var next := Set(s, a, me);
      LeadsBy(s, next, a, Read(p));
      ReadsAll(next, a, left - {p}, seen[p := s.disk.canonical[p]], observed, passes);
      var end := Scanning(observed, passes, Some({}), s.disk.canonical);
      assert Set(next, a, end) == Set(s, a, end);
      LeadsOn(s, next, Set(s, a, end));
    }
  }

  lemma MakesPass(s: State, a: ActorId, observed: nat, passes: seq<Tree>, seen: Tree)
    requires a in s.actors && s.actors[a] == Scanning(observed, passes, None, seen) && |passes| <= 3
    requires forall i :: 0 <= i < |passes| ==> passes[i] == s.disk.canonical
    ensures Leads(s, Set(s, a, AfterPass(observed, passes + [s.disk.canonical])))
  {
    var listed := Set(s, a, Scanning(observed, passes, Some(s.disk.canonical.Keys), map[]));
    LeadsBy(s, listed, a, List);
    ReadsAll(listed, a, s.disk.canonical.Keys, map[], observed, passes);
    var read := Set(listed, a, Scanning(observed, passes, Some({}), s.disk.canonical));
    LeadsOn(s, listed, read);
    var ended := Set(s, a, AfterPass(observed, passes + [s.disk.canonical]));
    assert ended == Set(read, a, AfterPass(observed, passes + [s.disk.canonical]));
    LeadsBy(read, ended, a, EndPass);
    LeadsOn(s, read, ended);
  }

  // The four passes, of a tree that nobody changes meanwhile.
  lemma {:induction false} MakesPasses(s: State, a: ActorId, observed: nat, passes: seq<Tree>, seen: Tree)
    requires a in s.actors && s.actors[a] == Scanning(observed, passes, None, seen) && |passes| <= 3
    requires forall i :: 0 <= i < |passes| ==> passes[i] == s.disk.canonical
    ensures Leads(s, Set(s, a, Built(observed, ImageOf(s.disk.canonical))))
    decreases 4 - |passes|
  {
    var more := passes + [s.disk.canonical];
    var next := Set(s, a, AfterPass(observed, more));
    MakesPass(s, a, observed, passes, seen);
    if |more| < 4 {
      MakesPasses(next, a, observed, more, map[]);
      var built := Built(observed, ImageOf(s.disk.canonical));
      assert Set(next, a, built) == Set(s, a, built);
      LeadsOn(s, next, Set(s, a, built));
    }
  }

  // ----- a whole rebuild -----

  lemma Rebuilds(s: State, a: ActorId) returns (t: State)
    requires a !in s.actors && s.lock.None? && DiskInv(s.disk) && CanRecover(s.disk)
    ensures Leads(s, t) && t.disk == QuietRebuild(s.disk)
  {
    var begun := Lock(s, a, Locked(Start(true), StartOps(s.disk), false, false));
    LeadsBy(s, begun, a, StartRebuild);
    var started := WorksOff(begun, a);
    LeadsOn(s, begun, started);
    var observed := GenerationOf(started.disk).current;
    var scanning := Set(started, a, Scanning(observed, [], None, map[])).(lock := None);
    LeadsBy(started, scanning, a, Observe);
    LeadsOn(s, started, scanning);
    MakesPasses(scanning, a, observed, [], map[]);
    var built := Set(scanning, a, Built(observed, ImageOf(scanning.disk.canonical)));
    LeadsOn(s, scanning, built);
    t := Publishes(built, a, observed);
    LeadsOn(s, built, t);
  }

  lemma Publishes(s: State, a: ActorId, observed: nat) returns (t: State)
    requires a in s.actors && s.lock.None? && s.actors[a] == Built(observed, ImageOf(s.disk.canonical))
    ensures Leads(s, t) && t.disk == Execute(s.disk, PublishOps(s.disk, observed, ImageOf(s.disk.canonical)))
  {
    var image := ImageOf(s.disk.canonical);
    var held := Lock(s, a, Locked(Publish(observed, image), PublishOps(s.disk, observed, image), false, false));
    LeadsBy(s, held, a, TakePublishLock);
    t := WorksOff(held, a);
    LeadsOn(s, held, t);
  }

  // ----- from every reachable state -----

  lemma {:induction false} FreshId(ids: set<ActorId>) returns (a: ActorId)
    ensures forall b :: b in ids ==> b < a
  {
    if ids == {} { return 0; }
    var b :| b in ids;
    var c := FreshId(ids - {b});
    a := if b < c then c else b + 1;
    forall d | d in ids ensures d < a { assert d == b || d in ids - {b}; }
  }

  // The holder of the lock, if there is one, leaves; the files stay as they are.
  lemma FreesLock(s: State) returns (t: State)
    requires Inv(s)
    ensures Leads(s, t) && t.disk == s.disk && t.lock.None?
  {
    if s.lock.None? {
      LeadsNowhere(s);
      return s;
    }
    var a := s.lock.value;
    t := s.(actors := s.actors - {a}, lock := None);
    LeadsBy(s, t, a, Leave);
  }

  // Every run can go on to a state in which all checks pass, unless a journal is pending and
  // the generation is exhausted; the tree that everyone sees stays the same.
  lemma CanBeMadeFresh(run: seq<State>) returns (more: seq<State>)
    requires IsRun(run)
    requires var d := run[|run| - 1].disk; d.pending.None? || GenerationOf(d).current < MAX_GENERATION
    ensures IsRun(run + more)
    ensures var d, e := run[|run| - 1].disk, (run + more)[|run + more| - 1].disk;
      CheckPasses(e) && e.canonical == Settled(d) && e.database == Some(ImageOf(Settled(d)))
  {
    var s := run[|run| - 1];
    RunInv(run, |run| - 1);
    RecoveryNeverRefuses(run, |run| - 1);
    var free := FreesLock(s);
    var a := FreshId(free.actors.Keys);
    var t := Rebuilds(free, a);
    LeadsOn(s, free, t);
    QuietRebuildMakesFresh(s.disk);
    var stretch :| Stretch(stretch, s, t);
    more := stretch[1..];
    StepsJoin(run, stretch);
    assert (run + more)[0] == run[0];
  }

  // An exhausted generation with a journal pending is final: nothing can bump the one or
  // remove the other, so no check ever passes again.
  lemma StuckForGood(run: seq<State>, i: nat, j: nat)
    requires IsRun(run) && i <= j < |run|
    requires run[i].disk.pending.Some? && GenerationOf(run[i].disk).current == MAX_GENERATION && run[i].lock.None?
    ensures run[j].disk.pending == run[i].disk.pending && !CheckPasses(run[j].disk)
  {
    RunInv(run, i);
    NobodyStalls(run[i]);
    Stuck(run, i, j, run[i].disk.pending.value);
  }

  // What holds from then on: nobody who holds the lock has a write left that could help.
  ghost predicate Stalled(s: State, j: Journal) {
    && s.disk.pending == Some(j) && GenerationOf(s.disk).current == MAX_GENERATION
    && forall a :: a in s.actors && s.actors[a].Locked? ==> Harmless(s.actors[a])
  }

  ghost predicate Harmless(actor: Actor) {
    actor.Locked? ==>
      && (forall i :: 0 <= i < |actor.ops| ==> actor.ops[i] == EnsureGeneration || actor.ops[i] == MarkDirty)
      && actor.task != Mutate(true) && actor.task != Start(true)
  }

  lemma ExecStalls(s: State, t: State, a: ActorId, j: Journal)
    requires Stalled(s, j) && NextBy(s, t, a, Exec)
    ensures Stalled(t, j)
  {
    assert Harmless(s.actors[a]);
    forall b | b in t.actors && b != a ensures Harmless(t.actors[b]) { assert t.actors[b] == s.actors[b]; }
  }

  lemma StallStays(s: State, t: State, j: Journal)
    requires Inv(s) && Stalled(s, j) && Next(s, t)
    ensures Stalled(t, j)
  {
    var a, step :| NextBy(s, t, a, step);
    if step.Exec? {
      ExecStalls(s, t, a, j);
    } else {
      assert !CanRecover(s.disk) && RecoverOps(s.disk) == [] && StartOps(s.disk) == [EnsureGeneration];
      assert a in t.actors ==> Harmless(t.actors[a]);
      forall b | b in t.actors && b != a ensures Harmless(t.actors[b]) { assert t.actors[b] == s.actors[b]; }
    }
  }

  lemma NobodyStalls(s: State)
    requires Inv(s) && s.lock.None? && s.disk.pending.Some? && GenerationOf(s.disk).current == MAX_GENERATION
    ensures Stalled(s, s.disk.pending.value)
  {
  }

  lemma StuckStep(run: seq<State>, k: nat, j: Journal)
    requires IsRun(run) && k + 1 < |run| && Stalled(run[k], j)
    ensures Stalled(run[k + 1], j)
  {
    RunInv(run, k);
    StallStays(run[k], run[k + 1], j);
  }

  lemma {:induction false} Stuck(run: seq<State>, i: nat, k: nat, j: Journal)
    requires IsRun(run) && i <= k < |run| && Stalled(run[i], j)
    ensures Stalled(run[k], j)
    decreases k - i
  {
    if i < k {
      Stuck(run, i, k - 1, j);
      StuckStep(run, k - 1, j);
    }
  }

  // ----- a run that gets there -----

  // Nobody at work.
  function Quiet(d: Disk): State { State(d, None, map[]) }

  // A session that plans a change and stops after k of its writes.
  lemma Session(d: Disk, plan: Plan, k: nat)
    requires d.pending.None? && GenerationOf(d).current < MAX_GENERATION && PlanReads(d, plan)
      && k <= |CommitOps(d, plan)|
    ensures Leads(Quiet(d), Quiet(Execute(d, CommitOps(d, plan)[..k])))
  {
    var begun := Lock(Quiet(d), 0, Locked(Mutate(true), [], false, false));
    LeadsBy(Quiet(d), begun, 0, BeginSession);
    var planned := Set(begun, 0, begun.actors[0].(ops := CommitOps(d, plan)));
    LeadsBy(begun, planned, 0, Commit(plan));
    LeadsOn(Quiet(d), begun, planned);
    var worked := Works(planned, 0, k);
    LeadsOn(Quiet(d), planned, worked);
    assert worked.actors - {0} == map[];
    LeadsBy(worked, Quiet(worked.disk), 0, Leave);
    LeadsOn(Quiet(d), worked, Quiet(worked.disk));
  }

  // One claim file, after n changes of it, none of which changed its bytes.
  function Changed(path: Path, bytes: Bytes, n: nat): Disk {
    Disk(map[path := bytes], if n == 0 then None else Some(Generation(n, 0)), n > 0, None, None)
  }

  lemma ThreeWrites(d: Disk, a: Op, b: Op, c: Op)
    ensures Execute(d, [a, b, c]) == Do(Do(Do(d, a), b), c)
  {
    assert [a, b, c][1..] == [b, c] && [b, c][1..] == [c] && [c][1..] == [];
    assert Execute(Do(Do(d, a), b), [c]) == Do(Do(Do(d, a), b), c);
  }

  lemma OneChange(path: Path, bytes: Bytes, n: nat)
    requires n < MAX_GENERATION
    ensures Leads(Quiet(Changed(path, bytes, n)), Quiet(Changed(path, bytes, n + 1)))
  {
    var d := Changed(path, bytes, n);
    var plan := Direct([Store(path, bytes)]);
    var ops := CommitOps(d, plan);
    assert WriteOps([Store(path, bytes)]) == [Put(path, bytes)];
    assert ops == [MarkDirty, Bump, Put(path, bytes)] && ops[..3] == ops;
    ThreeWrites(d, MarkDirty, Bump, Put(path, bytes));
    assert map[path := bytes][path := bytes] == map[path := bytes];
    Session(d, plan, 3);
  }

  lemma {:induction false} ManyChanges(path: Path, bytes: Bytes, n: nat)
    requires n <= MAX_GENERATION
    ensures Leads(Quiet(Changed(path, bytes, 0)), Quiet(Changed(path, bytes, n)))
  {
    if n == 0 {
      LeadsNowhere(Quiet(Changed(path, bytes, 0)));
    } else {
      ManyChanges(path, bytes, n - 1);
      OneChange(path, bytes, n - 1);
      LeadsOn(Quiet(Changed(path, bytes, 0)), Quiet(Changed(path, bytes, n - 1)), Quiet(Changed(path, bytes, n)));
    }
  }

  // The last change that the counter allows is a supersession that stops with its journal
  // published.
  lemma LastChange(path: Path, bytes: Bytes, target: Bytes)
    ensures Leads(Quiet(Changed(path, bytes, MAX_GENERATION - 1)),
                  Quiet(Changed(path, bytes, MAX_GENERATION).(pending := Some([Target(path, bytes, target)]))))
  {
    var d, j := Changed(path, bytes, MAX_GENERATION - 1), [Target(path, bytes, target)];
    var ops := CommitOps(d, Journaled(j));
    assert ops[..3] == [MarkDirty, Bump, WriteJournal(j)];
    ThreeWrites(d, MarkDirty, Bump, WriteJournal(j));
    Session(d, Journaled(j), 3);
  }

  // A run of one session after the other reaches that state, from which no check passes again.
  lemma ReachesStuck(path: Path, bytes: Bytes, target: Bytes) returns (run: seq<State>)
    ensures IsRun(run)
    ensures var s := run[|run| - 1];
      s.disk.pending.Some? && GenerationOf(s.disk).current == MAX_GENERATION && s.lock.None?
    ensures forall more :: IsRun(run + more) ==> !CheckPasses((run + more)[|run + more| - 1].disk)
  {
    var start, last := Quiet(Changed(path, bytes, 0)), Quiet(Changed(path, bytes, MAX_GENERATION - 1));
    var end := Quiet(Changed(path, bytes, MAX_GENERATION).(pending := Some([Target(path, bytes, target)])));
    ManyChanges(path, bytes, MAX_GENERATION - 1);
    LastChange(path, bytes, target);
    LeadsOn(start, last, end);
    run :| Stretch(run, start, end);
    forall more | IsRun(run + more) ensures !CheckPasses((run + more)[|run + more| - 1].disk) {
      assert (run + more)[|run| - 1] == run[|run| - 1];
      StuckForGood(run + more, |run| - 1, |run + more| - 1);
    }
  }
}
