/** The workspace files as fields, and the locked sections of the program as methods that
    write them one file at a time. `images` records the files after every single write: it
    is what a crash between two writes can leave behind. */
module Workspace {
  import opened Wrappers
  import opened DiskFiles
  import P = Protocol

  class Workspace {
    var canonical: Tree
    var generation: Option<Generation>
    var dirty: bool
    var pending: Option<Journal>
    var database: Option<Database>
    ghost var images: seq<Disk>

    ghost function Files(): Disk
      reads this
    {
      Disk.Disk(canonical, generation, dirty, pending, database)
    }

    // The method made exactly these writes, in this order.
    twostate predicate Wrote(ops: seq<Op>)
      reads this
    {
      Files() == Execute(old(Files()), ops) && images == old(images) + Images(old(Files()), ops)
    }

    constructor (tree: Tree)
      ensures Files() == Disk.Disk(tree, None, false, None, None) && DiskInv(Files()) && images == []
    {
      canonical, generation, dirty, pending, database := tree, None, false, None, None;
      images := [];
    }

    ghost method Log()
      modifies this`images
      ensures images == old(images) + [Files()]
    {
      images := images + [Files()];
    }

    method MarkIndexDirty()
      modifies this
      ensures Wrote([MarkDirty])
    {
      dirty := true;
      Log();
    }

    // A generation file whose published number is newer than the current one is refused.
    method WriteWorkspaceGeneration(state: Generation) returns (ok: bool)
      modifies this
      ensures ok == (state.published <= state.current)
      ensures ok ==> Files() == old(Files()).(generation := Some(state)) && images == old(images) + [Files()]
      ensures !ok ==> Files() == old(Files()) && images == old(images)
    {
      if state.published > state.current { return false; }
      generation := Some(state);
      Log();
      return true;
    }

    method EnsureWorkspaceGeneration()
      requires DiskInv(Files())
      modifies this
      ensures Wrote(if old(generation).None? then [EnsureGeneration] else [])
    {
      if generation.None? {
        var _ := WriteWorkspaceGeneration(Generation(0, 0));
      }
    }

    method BeginCanonicalMutation() returns (ok: bool)
      requires DiskInv(Files())
      modifies this
      ensures ok == (GenerationOf(old(Files())).current < MAX_GENERATION)
      ensures Wrote(if ok then BeginOps() else [])
    {
      var state := if generation.Some? then generation.value else Generation(0, 0);
      if state.current == MAX_GENERATION { return false; }
      MarkIndexDirty();
      ok := WriteWorkspaceGeneration(Generation(state.current + 1, state.published));
      assert BeginOps()[1..] == [Bump] && BeginOps()[1..][1..] == [];
    }

    // The journal is published by a hard link, which fails when one is already there.
    method WritePendingTransition(journal: Journal) returns (ok: bool)
      modifies this
      ensures ok == old(pending).None?
      ensures Wrote(if ok then [WriteJournal(journal)] else [])
    {
      if pending.Some? { return false; }
      pending := Some(journal);
      Log();
      return true;
    }

    // Decide for every target whether it still has to be written, before writing any.
    method DecideTargets(journal: Journal) returns (ok: bool, apply: seq<bool>)
      ensures ok == Replayable(canonical, journal)
      ensures ok ==> |apply| == |journal|
      ensures ok ==> forall k :: 0 <= k < |journal| ==> apply[k] == (canonical[journal[k].path] != journal[k].bytes)
    {
      apply := [];
      for i := 0 to |journal|
        invariant |apply| == i
        invariant forall k :: 0 <= k < i ==>
          journal[k].path in canonical
          && (canonical[journal[k].path] == journal[k].bytes || canonical[journal[k].path] == journal[k].preimage)
          && apply[k] == (canonical[journal[k].path] != journal[k].bytes)
      {
        var t := journal[i];
        assert t in journal;
        if t.path !in canonical { return false, apply; }
        if canonical[t.path] == t.bytes {
          apply := apply + [false];
        } else if canonical[t.path] == t.preimage {
          apply := apply + [true];
        } else {
          return false, apply;
        }
      }
      return true, apply;
    }

    method ApplyTarget(t: Target)
      modifies this
      ensures Wrote([Replay(t)])
      ensures Files() == old(Files()).(canonical := old(canonical)[t.path := t.bytes])
    {
      assert [Replay(t)][1..] == [];
      canonical := canonical[t.path := t.bytes];
      Log();
    }

    method ApplyTargets(journal: Journal, apply: seq<bool>)
      requires DistinctTargets(journal) && Replayable(canonical, journal) && |apply| == |journal|
      requires forall k :: 0 <= k < |journal| ==> apply[k] == (canonical[journal[k].path] != journal[k].bytes)
      modifies this
      ensures Wrote(ReplayOps(old(canonical), journal))
      ensures pending == old(pending) && Replayed(canonical, journal)
    {
      ghost var start := Files();
      assert forall k :: 0 <= k < |journal| ==> journal[k] in journal;
      for i := 0 to |journal|
        invariant Wrote(ReplayOps(start.canonical, journal[..i])) && Files() == start.(canonical := canonical)
        invariant Applying(start.canonical, canonical, journal, i)
      {
        ReplayRunStep(start, journal, i);
        ApplyingStep(start.canonical, canonical, journal, i);
        if apply[i] { ApplyTarget(journal[i]); }
      }
      assert journal[..|journal|] == journal;
    }

    // Check what there is to do, do it, check that every target holds its bytes, and only
    // then remove the journal.
    method RecoverPendingTransition() returns (ok: bool)
      requires DiskInv(Files())
      modifies this
      ensures ok
      ensures Wrote(if old(pending).None? then []
                    else ReplayOps(old(canonical), old(pending).value) + [ClearJournal])
    {
      if pending.None? { return true; }
      var journal := pending.value;
      var replayable, apply := DecideTargets(journal);
      if !replayable { return false; }
      ghost var start := Files();
      ApplyTargets(journal, apply);
      for i := 0 to |journal|
      {
        assert journal[i] in journal;
        if journal[i].path !in canonical || canonical[journal[i].path] != journal[i].bytes { return false; }
      }
      RunAppend(start, ReplayOps(start.canonical, journal), [ClearJournal]);
      assert [ClearJournal][1..] == [];
      pending := None;
      Log();
      return true;
    }

    method RecoverForMutation() returns (ok: bool)
      requires DiskInv(Files())
      modifies this
      ensures ok == CanRecover(old(Files()))
      ensures Wrote(RecoverOps(old(Files())))
    {
      if pending.None? { return true; }
      ghost var start := Files();
      ok := BeginCanonicalMutation();
      if ok {
        BarrierRuns(start, []);
        assert BeginOps() + [] == BeginOps();
        OpKeepsDiskInv(start, false, false, MarkDirty);
        OpKeepsDiskInv(Do(start, MarkDirty), true, false, Bump);
        ok := RecoverPendingTransition();
        var tail := ReplayOps(start.canonical, start.pending.value) + [ClearJournal];
        RunAppend(start, BeginOps(), tail);
        assert RecoverOps(start) == BeginOps() + tail;
      }
    }

    // Commit of a planned supersession: barrier, journal, replay, under the held lock.
    method CommitSupersession(journal: Journal) returns (ok: bool)
      requires DiskInv(Files()) && pending.None? && PlanReads(Files(), Journaled(journal))
      modifies this
      ensures ok == (GenerationOf(old(Files())).current < MAX_GENERATION)
      ensures Wrote(if ok then CommitOps(old(Files()), Journaled(journal)) else [])
      ensures canonical == if ok then Overlay(old(canonical), journal) else old(canonical)
      ensures forall d :: d in images[|old(images)|..] ==>
        DiskInv(d) && (Settled(d) == old(canonical) || Settled(d) == Overlay(old(canonical), journal))
    {
      ghost var start := Files();
      ok := BeginCanonicalMutation();
      if ok {
        SupersessionRuns(start, journal);
        SupersessionEnds(start, journal);
        BarrierAlone(start);
        OneWrite(Begun(start), WriteJournal(journal));
        var linked := WritePendingTransition(journal);
        assert Files() == Do(Begun(start), WriteJournal(journal));
        ok := RecoverPendingTransition();
        assert images[|old(images)|..] == Images(start, CommitOps(start, Journaled(journal)));
        ImagesOfSupersession(start, journal);
      } else {
        assert images[|old(images)|..] == [];
      }
    }

    // First locked section of a rebuild.
    method StartRebuild() returns (ok: bool, observed: nat)
      requires DiskInv(Files())
      modifies this
      ensures ok == CanRecover(old(Files()))
      ensures Files() == Execute(old(Files()), StartOps(old(Files())))
      ensures ok ==> observed == GenerationOf(Files()).current
    {
      observed := 0;
      ghost var start := Files();
      EnsureWorkspaceGeneration();
      ghost var named := Files();
      assert named == Do(start, EnsureGeneration) by {
        assert [EnsureGeneration][1..] == [];
        assert Execute(Do(start, EnsureGeneration), []) == Do(start, EnsureGeneration);
      }
      ok := RecoverForMutation();
      var last := if ok then [MarkDirty] else [];
      assert StartOps(start)[0] == EnsureGeneration;
      assert StartOps(start)[1..] == RecoverOps(named) + last;
      RunAppend(named, RecoverOps(named), last);
      if ok {
        assert last[1..] == [];
        KeepsGeneration(named, RecoverOps(named));
        observed := generation.value.current;
        MarkIndexDirty();
      }
    }

    // One unlocked pass over the canonical files, read one after the other.
    method ReadPass() returns (seen: Tree)
      ensures seen == canonical
    {
      seen := map[];
      var listing := canonical.Keys;
      while listing != {}
        invariant listing + seen.Keys == canonical.Keys
        invariant forall p :: p in seen ==> p in canonical && seen[p] == canonical[p]
        decreases listing
      {
        var p :| p in listing;
        seen := seen[p := canonical[p]];
        listing := listing - {p};
      }
    }

    // Second locked section of a rebuild.
    method PublishRebuild(observed: nat, image: Database) returns (ok: bool)
      modifies this
      ensures ok == (old(pending).None? && old(generation).Some? && old(generation).value.current == observed)
      ensures Wrote(PublishOps(old(Files()), observed, image))
    {
      ghost var start := Files();
      if pending.Some? || generation.None? || generation.value.current != observed {
        MarkIndexDirty();
        return false;
      }
      database := Some(image);
      Log();
      ok := WriteWorkspaceGeneration(Generation(observed, observed));
      dirty := false;
      Log();
      ghost var ops := PublishOps(start, observed, image);
      assert ops == [RenameDatabase(image)] + ([PublishGeneration] + [ClearDirty]);
      RunAppend(start, [RenameDatabase(image)], [PublishGeneration] + [ClearDirty]);
      RunAppend(Do(start, RenameDatabase(image)), [PublishGeneration], [ClearDirty]);
      assert [RenameDatabase(image)][1..] == [] && [PublishGeneration][1..] == [] && [ClearDirty][1..] == [];
    }

    // A rebuild that nobody disturbs: the manifest before the scan, the scan, and the manifest
    // taken twice after it, all of one tree.
    method Rebuild() returns (ok: bool)
      requires DiskInv(Files())
      modifies this
      ensures Files() == P.QuietRebuild(old(Files()))
      ensures ok == CheckPasses(Files())
    {
      P.QuietRebuildMakesFresh(Files());
      RecoverSafe(Files(), false, false);
      StartSafe(Files(), false, false);
      var observed;
      ok, observed := StartRebuild();
      if ok {
        var before := ReadPass();
        var scanned := ReadPass();
        var middle := ReadPass();
        var manifest := ReadPass();
        ok := before == middle && middle == manifest;
        if ok { ok := PublishRebuild(observed, Database(scanned, manifest)); }
      }
    }

    // The checks of a reader that come before the stamps are compared.
    method CheckMarkers() returns (ok: bool)
      requires DiskInv(Files())
      ensures ok == CheckPasses(Files())
      ensures ok ==> database == Some(ImageOf(canonical))
    {
      if pending.Some? || dirty || database.None? || generation.None? { return false; }
      return generation.value.current == generation.value.published;
    }
  }

  lemma {:induction false} ReplayOpsExtend(decided: Tree, j: Journal, i: nat)
    requires i < |j|
    ensures ReplayOps(decided, j[..i + 1]) ==
      if j[i].path in decided && decided[j[i].path] == j[i].bytes then ReplayOps(decided, j[..i])
      else ReplayOps(decided, j[..i]) + [Replay(j[i])]
    decreases |j|
  {
    if i == 0 {
      assert j[..1][1..] == [];
    } else {
      assert j[..i + 1][1..] == j[1..][..i] && j[..i][1..] == j[1..][..i - 1];
      ReplayOpsExtend(decided, j[1..], i - 1);
    }
  }

  lemma {:induction false} ImageIsCut(d: Disk, ops: seq<Op>, k: nat)
    requires k < |ops|
    ensures |Images(d, ops)| == |ops| && Images(d, ops)[k] == Execute(d, ops[..k + 1])
    decreases |ops|
  {
    if k == 0 {
      assert ops[..1][1..] == [];
      if |ops| > 1 { ImageIsCut(Do(d, ops[0]), ops[1..], 0); }
    } else {
      ImageIsCut(Do(d, ops[0]), ops[1..], k - 1);
      assert ops[..k + 1][1..] == ops[1..][..k];
    }
  }

  // The first i targets hold their bytes, the others are as they were.
  ghost predicate Applying(before: Tree, now: Tree, journal: Journal, i: nat)
    requires i <= |journal|
  {
    && (forall k :: 0 <= k < i ==> journal[k].path in now && now[journal[k].path] == journal[k].bytes)
    && (forall k :: i <= k < |journal| ==>
          journal[k].path in now && journal[k].path in before && now[journal[k].path] == before[journal[k].path])
  }

  lemma ApplyingStep(before: Tree, now: Tree, journal: Journal, i: nat)
    requires DistinctTargets(journal) && i < |journal| && Applying(before, now, journal, i)
    ensures before[journal[i].path] == journal[i].bytes ==> Applying(before, now, journal, i + 1)
    ensures Applying(before, now[journal[i].path := journal[i].bytes], journal, i + 1)
  {
    OtherPaths(journal, i);
  }

  lemma ReplayRunStep(start: Disk, journal: Journal, i: nat)
    requires i < |journal| && forall k :: 0 <= k < |journal| ==> journal[k].path in start.canonical
    ensures var ops, more := ReplayOps(start.canonical, journal[..i]), ReplayOps(start.canonical, journal[..i + 1]);
      if start.canonical[journal[i].path] == journal[i].bytes then more == ops
      else
        && Execute(start, more) == Execute(Execute(start, ops), [Replay(journal[i])])
        && Images(start, more) == Images(start, ops) + Images(Execute(start, ops), [Replay(journal[i])])
  {
    ReplayOpsExtend(start.canonical, journal, i);
    RunAppend(start, ReplayOps(start.canonical, journal[..i]), [Replay(journal[i])]);
  }

  lemma OtherPaths(journal: Journal, i: nat)
    requires DistinctTargets(journal) && i < |journal|
    ensures forall k :: 0 <= k < |journal| && k != i ==> journal[k].path != journal[i].path
  {
    forall k | 0 <= k < |journal| && k != i ensures journal[k].path != journal[i].path {
      SamePathSameIndex(journal, i, k);
    }
  }

  lemma BarrierAlone(d: Disk)
    ensures Execute(d, BeginOps()) == Begun(d)
  {
    BarrierRuns(d, []);
    assert BeginOps() + [] == BeginOps();
  }

  lemma OneWrite(d: Disk, op: Op)
    ensures Execute(d, [op]) == Do(d, op) && Images(d, [op]) == [Do(d, op)]
  {
    assert [op][1..] == [];
  }

  function AfterJournal(d: Disk, j: Journal): seq<Op> {
    ReplayOps(d.canonical, j) + [ClearJournal]
  }

  // The three parts of a journaled commit, one after the other, are the whole program.
  lemma SupersessionRuns(start: Disk, j: Journal)
    ensures var written, tail := Do(Begun(start), WriteJournal(j)), AfterJournal(start, j);
      && Execute(written, tail) == Execute(start, CommitOps(start, Journaled(j)))
      && Images(start, CommitOps(start, Journaled(j))) == Images(start, BeginOps()) + [written] + Images(written, tail)
  {
    var tail := AfterJournal(start, j);
    BarrierAlone(start);
    OneWrite(Begun(start), WriteJournal(j));
    RunAppend(Begun(start), [WriteJournal(j)], tail);
    RunAppend(start, BeginOps(), [WriteJournal(j)] + tail);
    assert CommitOps(start, Journaled(j)) == BeginOps() + ([WriteJournal(j)] + tail);
  }

  lemma SupersessionEnds(start: Disk, j: Journal)
    requires DiskInv(start) && start.pending.None? && PlanReads(start, Journaled(j))
    requires GenerationOf(start).current < MAX_GENERATION
    ensures var written := Do(Begun(start), WriteJournal(j));
      && DiskInv(written) && written.pending == Some(j) && written.canonical == start.canonical
      && Execute(start, CommitOps(start, Journaled(j))).canonical == Overlay(start.canonical, j)
  {
    JournalWritten(start, j);
    JournaledSafe(Begun(start), j);
    var tail := [WriteJournal(j)] + ReplayOps(start.canonical, j) + [ClearJournal];
    BarrierRuns(start, tail);
    assert CommitOps(start, Journaled(j)) == BeginOps() + tail;
  }

  lemma ImagesOfSupersession(d: Disk, j: Journal)
    requires DiskInv(d) && d.pending.None? && PlanReads(d, Journaled(j))
    requires GenerationOf(d).current < MAX_GENERATION
    ensures forall e :: e in Images(d, CommitOps(d, Journaled(j))) ==>
      DiskInv(e) && (Settled(e) == d.canonical || Settled(e) == Overlay(d.canonical, j))
  {
    var ops := CommitOps(d, Journaled(j));
    ImageIsCut(d, ops, 0);
    forall k | 0 <= k < |ops|
      ensures var e := Images(d, ops)[k];
        DiskInv(e) && (Settled(e) == d.canonical || Settled(e) == Overlay(d.canonical, j))
    {
      ImageIsCut(d, ops, k);
      SupersessionIsAtomic(d, j, k + 1);
    }
  }
}
