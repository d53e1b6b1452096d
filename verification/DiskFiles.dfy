/** The files the generation protocol writes, one operation for each atomic file write, and the
    programs of such writes run under the exclusive lock. A crash falls between two operations. */
module DiskFiles {
  import opened Wrappers

  type Path = string
  type Bytes = string
  type Tree = map<Path, Bytes>

  const MAX_GENERATION: nat := 0xFFFF_FFFF_FFFF_FFFF

  datatype Generation = Generation(current: nat, published: nat)

  // One journal entry. The two digests of the file format are represented by the bytes
  // they are digests of.
  datatype Target = Target(path: Path, preimage: Bytes, bytes: Bytes)

  type Journal = seq<Target>

  // What a rebuild stores: the claims it scanned and the manifest of the trust inputs.
  datatype Database = Database(scanned: Tree, manifest: Tree)

  datatype Disk = Disk(
    canonical: Tree,
    generation: Option<Generation>,
    dirty: bool,
    pending: Option<Journal>,
    database: Option<Database>
  )

  datatype Op =
    | EnsureGeneration
    | MarkDirty
    | Bump
    | WriteJournal(journal: Journal)
    | Put(path: Path, bytes: Bytes)
    | Delete(path: Path)
    | Replay(target: Target)
    | ClearJournal
    | RenameDatabase(image: Database)
    | PublishGeneration
    | ClearDirty

  function ImageOf(t: Tree): Database {
    Database(t, t)
  }

  // A missing generation file reads as 0/0.
  function GenerationOf(d: Disk): Generation {
    match d.generation
    case None => Generation(0, 0)
    case Some(g) => g
  }

  function Do(d: Disk, op: Op): Disk {
    match op
    case EnsureGeneration => d.(generation := Some(GenerationOf(d)))
    case MarkDirty => d.(dirty := true)
    case Bump =>
      var g := GenerationOf(d);
      d.(generation := Some(Generation(g.current + 1, g.published)))
    case WriteJournal(j) => d.(pending := Some(j))
    case Put(p, b) => d.(canonical := d.canonical[p := b])
    case Delete(p) => d.(canonical := d.canonical - {p})
    case Replay(t) => d.(canonical := d.canonical[t.path := t.bytes])
    case ClearJournal => d.(pending := None)
    case RenameDatabase(image) => d.(database := Some(image))
    case PublishGeneration =>
      var g := GenerationOf(d);
      d.(generation := Some(Generation(g.current, g.current)))
    case ClearDirty => d.(dirty := false)
  }

  function Execute(d: Disk, ops: seq<Op>): Disk
    decreases |ops|
  {
    if ops == [] then d else Execute(Do(d, ops[0]), ops[1..])
  }

  // The disk image after each of the writes, in order.
  function Images(d: Disk, ops: seq<Op>): seq<Disk>
    decreases |ops|
  {
    if ops == [] then [] else [Do(d, ops[0])] + Images(Do(d, ops[0]), ops[1..])
  }

  lemma {:induction false} RunAppend(d: Disk, a: seq<Op>, b: seq<Op>)
    ensures Execute(d, a + b) == Execute(Execute(d, a), b)
    ensures Images(d, a + b) == Images(d, a) + Images(Execute(d, a), b)
    decreases |a|
  {
    if a == [] {
      assert a + b == b;
    } else {
      assert (a + b)[0] == a[0] && (a + b)[1..] == a[1..] + b;
      RunAppend(Do(d, a[0]), a[1..], b);
    }
  }

  // ----- journal replay -----

  ghost predicate DistinctTargets(j: Journal) {
    forall i, k :: 0 <= i < k < |j| ==> j[i].path != j[k].path
  }

  // Every target file still holds its preimage or already holds its target bytes.
  predicate Replayable(canonical: Tree, j: Journal) {
    forall t :: t in j ==>
      t.path in canonical && (canonical[t.path] == t.bytes || canonical[t.path] == t.preimage)
  }

  predicate Replayed(canonical: Tree, j: Journal) {
    forall t :: t in j ==> t.path in canonical && canonical[t.path] == t.bytes
  }

  // Which targets to write is decided for all of them before the first write.
  function ReplayOps(canonical: Tree, j: Journal): seq<Op> {
    if j == [] then []
    else
      (if j[0].path in canonical && canonical[j[0].path] == j[0].bytes then [] else [Replay(j[0])])
      + ReplayOps(canonical, j[1..])
  }

  function Overlay(canonical: Tree, j: Journal): Tree
    decreases |j|
  {
    if j == [] then canonical else Overlay(canonical[j[0].path := j[0].bytes], j[1..])
  }

  // The canonical tree as everyone who honours the journal sees it.
  function Settled(d: Disk): Tree {
    match d.pending
    case None => d.canonical
    case Some(j) => Overlay(d.canonical, j)
  }

  // ----- programs -----

  function BeginOps(): seq<Op> {
    [MarkDirty, Bump]
  }

  predicate CanRecover(d: Disk) {
    d.pending.None? || (GenerationOf(d).current < MAX_GENERATION && Replayable(d.canonical, d.pending.value))
  }

  // Recovery at the start of every mutating session and of every rebuild. An exhausted
  // generation stops it before the first write, a foreign target file after the second.
  function RecoverOps(d: Disk): seq<Op> {
    if d.pending.None? || GenerationOf(d).current >= MAX_GENERATION then []
    else if Replayable(d.canonical, d.pending.value) then
      BeginOps() + ReplayOps(d.canonical, d.pending.value) + [ClearJournal]
    else BeginOps()
  }

  datatype Write = Store(path: Path, bytes: Bytes) | Remove(path: Path)

  // A lifecycle change of one claim, an evidence snapshot and a migration write their files
  // directly; a supersession goes through the journal.
  datatype Plan = Direct(writes: seq<Write>) | Journaled(journal: Journal)

  function WriteOps(writes: seq<Write>): seq<Op> {
    if writes == [] then []
    else [match writes[0] case Store(p, b) => Put(p, b) case Remove(p) => Delete(p)] + WriteOps(writes[1..])
  }

  // The preimages of a journal are the bytes read under the lock when the plan is made.
  ghost predicate PlanReads(d: Disk, plan: Plan) {
    match plan
    case Direct(_) => true
    case Journaled(j) =>
      DistinctTargets(j) && forall t :: t in j ==> t.path in d.canonical && d.canonical[t.path] == t.preimage
  }

  function CommitOps(d: Disk, plan: Plan): seq<Op> {
    match plan
    case Direct(writes) => BeginOps() + WriteOps(writes)
    case Journaled(j) => BeginOps() + [WriteJournal(j)] + ReplayOps(d.canonical, j) + [ClearJournal]
  }

  function StartOps(d: Disk): seq<Op> {
    [EnsureGeneration] + RecoverOps(d) + (if CanRecover(d) then [MarkDirty] else [])
  }

  function PublishOps(d: Disk, observed: nat, image: Database): seq<Op> {
    if d.pending.None? && d.generation.Some? && d.generation.value.current == observed then
      [RenameDatabase(image), PublishGeneration, ClearDirty]
    else
      [MarkDirty]
  }

  // The marker, journal, database and generation checks of a freshness check.
  predicate CheckPasses(d: Disk) {
    && d.pending.None?
    && !d.dirty
    && d.database.Some?
    && d.generation.Some?
    && d.generation.value.current == d.generation.value.published
  }

  // ----- invariant of the files -----

  ghost predicate DiskInv(d: Disk) {
    && (d.generation.Some? ==> d.generation.value.published <= d.generation.value.current <= MAX_GENERATION)
    && (d.generation.None? ==> d.database.None?)
    && (d.pending.Some? ==>
          d.dirty && DistinctTargets(d.pending.value) && Replayable(d.canonical, d.pending.value))
    && (CheckPasses(d) ==> d.database == Some(ImageOf(d.canonical)))
  }

  // What must hold of the files, and of the writes already made in this locked session
  // (`marked`: the dirty marker, `bumped`: the generation), when an operation is made.
  ghost predicate OpOk(d: Disk, marked: bool, bumped: bool, op: Op) {
    match op
    case EnsureGeneration => true
    case MarkDirty => true
    case Bump => marked && GenerationOf(d).current < MAX_GENERATION
    case WriteJournal(j) =>
      marked && bumped && d.pending.None? && DistinctTargets(j) && Replayable(d.canonical, j)
    case Put(_, _) => marked && bumped && d.pending.None?
    case Delete(_) => marked && bumped && d.pending.None?
    case Replay(t) => marked && bumped && d.pending.Some? && t in d.pending.value
    case ClearJournal => d.pending.Some? && Replayed(d.canonical, d.pending.value)
    case RenameDatabase(image) => d.generation.Some? && d.pending.None? && image == ImageOf(d.canonical)
    case PublishGeneration =>
      !marked && !bumped && d.generation.Some? && d.pending.None? && d.database == Some(ImageOf(d.canonical))
    case ClearDirty =>
      !marked && !bumped && d.generation.Some? && d.pending.None? && d.database == Some(ImageOf(d.canonical))
  }

  // The session flags agree with the files.
  ghost predicate FlagsOk(d: Disk, marked: bool, bumped: bool) {
    && (marked ==> d.dirty)
    && (bumped ==> d.generation.Some? && d.generation.value.published < d.generation.value.current)
  }

  function Marked(marked: bool, op: Op): bool { marked || op.MarkDirty? }

  function Bumped(bumped: bool, op: Op): bool { bumped || op.Bump? }

  // Every remaining operation of a session finds what it needs when its turn comes.
  ghost predicate OpsOk(d: Disk, marked: bool, bumped: bool, ops: seq<Op>)
    decreases |ops|
  {
    ops == [] ||
    (OpOk(d, marked, bumped, ops[0])
     && OpsOk(Do(d, ops[0]), Marked(marked, ops[0]), Bumped(bumped, ops[0]), ops[1..]))
  }

  lemma OpKeepsDiskInv(d: Disk, marked: bool, bumped: bool, op: Op)
    requires DiskInv(d) && FlagsOk(d, marked, bumped) && OpOk(d, marked, bumped, op)
    ensures DiskInv(Do(d, op))
    ensures FlagsOk(Do(d, op), Marked(marked, op), Bumped(bumped, op))
  {
    if op.Replay? {
      TargetsByPath(d.pending.value);
    }
  }

  // Targets of a journal are determined by their paths.
  lemma TargetsByPath(j: Journal)
    requires DistinctTargets(j)
    ensures forall t, u :: t in j && u in j && t.path == u.path ==> t == u
  {
    forall t, u | t in j && u in j && t.path == u.path ensures t == u {
      var i :| 0 <= i < |j| && j[i] == t;
      var k :| 0 <= k < |j| && j[k] == u;
      SamePathSameIndex(j, i, k);
    }
  }

  lemma SamePathSameIndex(j: Journal, i: nat, k: nat)
    requires DistinctTargets(j) && i < |j| && k < |j|
    ensures j[i].path == j[k].path ==> i == k
  {
  }

  // ----- the settled tree -----

  lemma {:induction false} OverlayAt(canonical: Tree, j: Journal, p: Path)
    requires DistinctTargets(j)
    ensures p in Overlay(canonical, j) <==> p in canonical || exists t :: t in j && t.path == p
    ensures forall t :: t in j && t.path == p ==> p in Overlay(canonical, j) && Overlay(canonical, j)[p] == t.bytes
    ensures (forall t :: t in j ==> t.path != p) && p in canonical ==> Overlay(canonical, j)[p] == canonical[p]
    decreases |j|
  {
    if j != [] {
      OverlayAt(canonical[j[0].path := j[0].bytes], j[1..], p);
      assert j == [j[0]] + j[1..];
      forall t | t in j[1..] ensures t.path != j[0].path {
        var k :| 0 <= k < |j[1..]| && j[1..][k] == t;
        SamePathSameIndex(j, 0, k + 1);
      }
    }
  }

  // Writing one journal target early does not change the overlaid tree.
  lemma OverlayAbsorbs(canonical: Tree, j: Journal, t: Target)
    requires DistinctTargets(j) && t in j
    ensures Overlay(canonical[t.path := t.bytes], j) == Overlay(canonical, j)
  {
    var early := canonical[t.path := t.bytes];
    forall p ensures p in Overlay(early, j) <==> p in Overlay(canonical, j) {
      OverlayAt(early, j, p);
      OverlayAt(canonical, j, p);
    }
    forall p | p in Overlay(canonical, j) ensures Overlay(early, j)[p] == Overlay(canonical, j)[p] {
      OverlayAt(early, j, p);
      OverlayAt(canonical, j, p);
      if u :| u in j && u.path == p {
      }
    }
  }

  lemma OverlayOfReplayed(canonical: Tree, j: Journal)
    requires DistinctTargets(j) && Replayed(canonical, j)
    ensures Overlay(canonical, j) == canonical
  {
    forall p ensures p in Overlay(canonical, j) <==> p in canonical {
      OverlayAt(canonical, j, p);
    }
    forall p | p in canonical ensures Overlay(canonical, j)[p] == canonical[p] {
      OverlayAt(canonical, j, p);
      if u :| u in j && u.path == p {
      }
    }
  }

  // How one operation changes the settled tree: a direct write changes its one file, a
  // journal changes all its targets at once when it is written, nothing else changes it.
  function SettledAfter(settled: Tree, op: Op): Tree {
    match op
    case Put(p, b) => settled[p := b]
    case Delete(p) => settled - {p}
    case WriteJournal(j) => Overlay(settled, j)
    case _ => settled
  }

  lemma OpSettles(d: Disk, marked: bool, bumped: bool, op: Op)
    requires DiskInv(d) && OpOk(d, marked, bumped, op)
    ensures Settled(Do(d, op)) == SettledAfter(Settled(d), op)
  {
    match op
    case Replay(t) => OverlayAbsorbs(d.canonical, d.pending.value, t);
    case ClearJournal => OverlayOfReplayed(d.canonical, d.pending.value);
    case _ =>
  }

  // ----- the programs are safe to run, and to cut off anywhere -----

  // Replaying the journal suffix full[i..], the decisions taken on `decided`.
  lemma {:induction false} ReplaySafe(d: Disk, decided: Tree, full: Journal, i: nat)
    requires i <= |full| && d.pending == Some(full) && DistinctTargets(full)
    requires Replayable(decided, full)
    requires forall k :: i <= k < |full| ==>
      full[k].path in d.canonical && d.canonical[full[k].path] == decided[full[k].path]
    requires forall k :: 0 <= k < i ==> full[k].path in d.canonical && d.canonical[full[k].path] == full[k].bytes
    ensures OpsOk(d, true, true, ReplayOps(decided, full[i..]) + [ClearJournal])
    ensures Execute(d, ReplayOps(decided, full[i..]) + [ClearJournal])
         == d.(canonical := Overlay(d.canonical, full[i..]), pending := None)
    decreases |full| - i
  {
    var rest := ReplayOps(decided, full[i..]) + [ClearJournal];
    if i == |full| {
      assert full[i..] == [];
      assert rest == [ClearJournal];
      assert rest[1..] == [];
      assert Execute(Do(d, ClearJournal), []) == Do(d, ClearJournal);
    } else {
      var t := full[i];
      assert full[i..][0] == t && full[i..][1..] == full[i + 1..];
      assert t in full;
      if decided[t.path] == t.bytes {
        assert d.canonical[t.path := t.bytes] == d.canonical;
        assert rest == ReplayOps(decided, full[i + 1..]) + [ClearJournal];
        ReplaySafe(d, decided, full, i + 1);
      } else {
        var next := Do(d, Replay(t));
        forall k | 0 <= k < |full| && k != i ensures full[k].path != t.path {
          SamePathSameIndex(full, i, k);
        }
        ReplaySafe(next, decided, full, i + 1);
        assert rest == [Replay(t)] + (ReplayOps(decided, full[i + 1..]) + [ClearJournal]);
        assert rest[1..] == ReplayOps(decided, full[i + 1..]) + [ClearJournal];
      }
    }
  }

  lemma {:induction false} OpsOkAppend(d: Disk, marked: bool, bumped: bool, a: seq<Op>, b: seq<Op>)
    requires OpsOk(d, marked, bumped, a)
    requires OpsOk(Execute(d, a), marked || MarkDirty in a, bumped || Bump in a, b)
    ensures OpsOk(d, marked, bumped, a + b)
    decreases |a|
  {
    if a == [] {
      assert a + b == b;
    } else {
      assert a == [a[0]] + a[1..];
      assert (a + b)[0] == a[0] && (a + b)[1..] == a[1..] + b;
      assert (MarkDirty in a <==> a[0] == MarkDirty || MarkDirty in a[1..])
          && (Bump in a <==> a[0] == Bump || Bump in a[1..]);
      OpsOkAppend(Do(d, a[0]), Marked(marked, a[0]), Bumped(bumped, a[0]), a[1..], b);
    }
  }

  function Begun(d: Disk): Disk {
    Do(Do(d, MarkDirty), Bump)
  }

  lemma BarrierRuns(d: Disk, ops: seq<Op>)
    ensures Execute(d, BeginOps() + ops) == Execute(Begun(d), ops)
  {
    RunAppend(d, BeginOps(), ops);
    assert BeginOps()[1..] == [Bump] && BeginOps()[1..][1..] == [];
  }

  // A program that starts with the barrier is safe when what follows is safe behind it.
  lemma BehindBarrier(d: Disk, ops: seq<Op>)
    requires GenerationOf(d).current < MAX_GENERATION
    requires OpsOk(Begun(d), true, true, ops)
    ensures forall marked, bumped :: OpsOk(d, marked, bumped, BeginOps() + ops)
    ensures Execute(d, BeginOps() + ops) == Execute(Begun(d), ops)
  {
    BarrierRuns(d, ops);
    var all := BeginOps() + ops;
    assert all[0] == MarkDirty && all[1..] == [Bump] + ops && all[1..][0] == Bump && all[1..][1..] == ops;
    forall marked, bumped ensures OpsOk(d, marked, bumped, all) {
      assert OpsOk(Do(d, MarkDirty), true, bumped, all[1..]);
    }
  }

  lemma {:induction false} DirectSafe(d: Disk, writes: seq<Write>)
    requires d.pending.None?
    ensures OpsOk(d, true, true, WriteOps(writes))
    decreases |writes|
  {
    if writes != [] {
      var ops := WriteOps(writes);
      assert ops[1..] == WriteOps(writes[1..]);
      DirectSafe(Do(d, ops[0]), writes[1..]);
    }
  }

  // ----- what a direct commit leaves -----

  // No later write goes to the same file.
  ghost predicate LastTo(writes: seq<Write>, p: Path, i: int) {
    0 <= i < |writes| && writes[i].path == p && forall j :: i < j < |writes| ==> writes[j].path != p
  }

  ghost predicate NoneTo(writes: seq<Write>, p: Path) {
    forall i :: 0 <= i < |writes| ==> writes[i].path != p
  }

  ghost predicate Holds(t: Tree, w: Write) {
    match w
    case Store(p, b) => p in t && t[p] == b
    case Remove(p) => p !in t
  }

  // The file holds what the last write to it says, and is as before when there is none.
  ghost predicate WrittenAt(before: Tree, after: Tree, writes: seq<Write>, p: Path) {
    && (forall i :: LastTo(writes, p, i) ==> Holds(after, writes[i]))
    && (NoneTo(writes, p) ==> (p in after <==> p in before) && (p in after ==> after[p] == before[p]))
  }

  lemma {:induction false} WriteOpsAt(writes: seq<Write>)
    ensures |WriteOps(writes)| == |writes|
    ensures forall i :: 0 <= i < |writes| ==>
      WriteOps(writes)[i] == (match writes[i] case Store(p, b) => Put(p, b) case Remove(p) => Delete(p))
  {
    if writes != [] { WriteOpsAt(writes[1..]); }
  }

  lemma WrittenStep(before: Tree, mid: Tree, after: Tree, fewer: seq<Write>, w: Write, p: Path)
    requires WrittenAt(before, mid, fewer, p) && Holds(after, w)
    requires forall q :: q != w.path ==> (q in after <==> q in mid) && (q in mid ==> after[q] == mid[q])
    ensures WrittenAt(before, after, fewer + [w], p)
  {
    var more := fewer + [w];
    if w.path == p {
      assert more[|fewer|] == w;
      forall i | LastTo(more, p, i) ensures i == |fewer| {}
    } else {
      forall i | LastTo(more, p, i) ensures Holds(after, more[i]) {
        assert more[|fewer|] == w && fewer[i] == more[i];
        forall j | i < j < |fewer| ensures fewer[j].path != p { assert more[j] == fewer[j]; }
        assert LastTo(fewer, p, i);
      }
      if NoneTo(more, p) {
        forall i | 0 <= i < |fewer| ensures fewer[i].path != p { assert more[i] == fewer[i]; }
        assert NoneTo(fewer, p);
      }
    }
  }

  lemma WriteMade(d: Disk, w: Write, op: Op)
    requires op == (match w case Store(p, b) => Put(p, b) case Remove(p) => Delete(p))
    ensures Holds(Do(d, op).canonical, w)
    ensures forall q :: q != w.path ==>
      (q in Do(d, op).canonical <==> q in d.canonical)
      && (q in d.canonical ==> Do(d, op).canonical[q] == d.canonical[q])
  {
  }

  lemma RunSnoc(d: Disk, ops: seq<Op>, n: nat)
    requires 0 < n <= |ops|
    ensures Execute(d, ops[..n]) == Do(Execute(d, ops[..n - 1]), ops[n - 1])
  {
    var head, last := ops[..n - 1], [ops[n - 1]];
    assert ops[..n] == head + last && last[1..] == [];
    RunAppend(d, head, last);
    assert Execute(Execute(d, head), last) == Do(Execute(d, head), last[0]);
  }

  lemma {:induction false} WritesRun(d: Disk, writes: seq<Write>, n: nat, p: Path)
    requires n <= |writes|
    ensures |WriteOps(writes)| == |writes|
    ensures WrittenAt(d.canonical, Execute(d, WriteOps(writes)[..n]).canonical, writes[..n], p)
  {
    WriteOpsAt(writes);
    if n > 0 {
      WritesRun(d, writes, n - 1, p);
      RunSnoc(d, WriteOps(writes), n);
      var mid, last := Execute(d, WriteOps(writes)[..n - 1]), WriteOps(writes)[n - 1];
      WriteMade(mid, writes[n - 1], last);
      WrittenStep(d.canonical, mid.canonical, Do(mid, last).canonical, writes[..n - 1], writes[n - 1], p);
      assert writes[..n] == writes[..n - 1] + [writes[n - 1]];
    } else {
      assert WriteOps(writes)[..0] == [];
    }
  }

  // A direct commit that stops after k file writes, two of which are the barrier, has made the
  // first k - 2 of its changes, each as it was planned; one that goes through has made all.
  lemma DirectWrites(d: Disk, writes: seq<Write>, k: nat, p: Path)
    ensures |CommitOps(d, Direct(writes))| == |writes| + 2
    ensures k <= |writes| + 2 ==>
      WrittenAt(d.canonical, Execute(d, CommitOps(d, Direct(writes))[..k]).canonical,
                writes[..if k <= 2 then 0 else k - 2], p)
  {
    var ops := CommitOps(d, Direct(writes));
    WriteOpsAt(writes);
    if 2 < k <= |ops| {
      assert ops[..k] == BeginOps() + WriteOps(writes)[..k - 2];
      BarrierRuns(d, WriteOps(writes)[..k - 2]);
      WritesRun(Begun(d), writes, k - 2, p);
    } else if k <= 2 {
      assert ops[..k] == BeginOps()[..k];
      BarrierCut(d, k);
    }
  }

  lemma BarrierCut(d: Disk, k: nat)
    requires k <= 2
    ensures Execute(d, BeginOps()[..k]).canonical == d.canonical && Execute(d, BeginOps()[..k]).pending == d.pending
  {
    if k == 1 {
      assert BeginOps()[..1] == [MarkDirty] && [MarkDirty][1..] == [];
    } else if k == 2 {
      assert BeginOps()[..2] == BeginOps() && BeginOps()[1..] == [Bump] && [Bump][1..] == [];
    }
  }

  lemma JournaledSafe(d: Disk, j: Journal)
    requires d.pending.None? && PlanReads(d, Journaled(j))
    ensures OpsOk(d, true, true, [WriteJournal(j)] + ReplayOps(d.canonical, j) + [ClearJournal])
    ensures Execute(d, [WriteJournal(j)] + ReplayOps(d.canonical, j) + [ClearJournal])
         == d.(canonical := Overlay(d.canonical, j))
  {
    var ops := [WriteJournal(j)] + ReplayOps(d.canonical, j) + [ClearJournal];
    var next := Do(d, WriteJournal(j));
    assert j[0..] == j;
    ReplaySafe(next, d.canonical, j, 0);
    assert ops[0] == WriteJournal(j) && ops[1..] == ReplayOps(d.canonical, j) + [ClearJournal];
  }

  lemma CommitSafe(d: Disk, marked: bool, bumped: bool, plan: Plan)
    requires d.pending.None? && PlanReads(d, plan) && GenerationOf(d).current < MAX_GENERATION
    ensures OpsOk(d, marked, bumped, CommitOps(d, plan))
  {
    match plan
    case Direct(writes) =>
      DirectSafe(Begun(d), writes);
      BehindBarrier(d, WriteOps(writes));
    case Journaled(j) =>
      JournaledSafe(Begun(d), j);
      var tail := [WriteJournal(j)] + ReplayOps(d.canonical, j) + [ClearJournal];
      BehindBarrier(d, tail);
      assert CommitOps(d, plan) == BeginOps() + tail;
  }

  // The files after a recovery that had a journal to replay.
  function Recovered(d: Disk): Disk {
    var g := GenerationOf(d);
    d.(canonical := Settled(d), pending := None, dirty := true,
       generation := Some(Generation(g.current + 1, g.published)))
  }

  // Recovery from any crash: it never meets a foreign target file, it ends without a
  // journal, and the tree it leaves is the settled tree of the crash.
  lemma RecoverSafe(d: Disk, marked: bool, bumped: bool)
    requires DiskInv(d)
    ensures OpsOk(d, marked, bumped, RecoverOps(d))
    ensures CanRecover(d) <==> d.pending.None? || GenerationOf(d).current < MAX_GENERATION
    ensures CanRecover(d) ==>
      Execute(d, RecoverOps(d)).pending.None? && Execute(d, RecoverOps(d)).canonical == Settled(d)
    ensures Execute(d, RecoverOps(d)) == if d.pending.Some? && CanRecover(d) then Recovered(d) else d
  {
    if d.pending.Some? && GenerationOf(d).current < MAX_GENERATION {
      var j := d.pending.value;
      assert j[0..] == j;
      ReplaySafe(Begun(d), d.canonical, j, 0);
      var tail := ReplayOps(d.canonical, j) + [ClearJournal];
      BehindBarrier(d, tail);
      assert RecoverOps(d) == BeginOps() + tail;
    }
  }

  lemma StartSafe(d: Disk, marked: bool, bumped: bool)
    requires DiskInv(d)
    ensures OpsOk(d, marked, bumped, StartOps(d))
    ensures CanRecover(d) ==>
      var e := Execute(d, StartOps(d));
      e.pending.None? && e.canonical == Settled(d) && e.generation.Some? && e.dirty
    ensures Execute(d, StartOps(d)) ==
      if !CanRecover(d) then d.(generation := Some(GenerationOf(d)))
      else if d.pending.Some? then Recovered(d)
      else d.(generation := Some(GenerationOf(d)), dirty := true)
  {
    var named := Do(d, EnsureGeneration);
    assert DiskInv(named);
    var recover := RecoverOps(d);
    assert RecoverOps(named) == recover;
    RecoverSafe(named, marked, bumped);
    var last := if CanRecover(d) then [MarkDirty] else [];
    var m, b := marked || MarkDirty in recover, bumped || Bump in recover;
    assert forall e: Disk, x, y :: OpsOk(Do(e, MarkDirty), x, y, []);
    assert OpsOk(Execute(named, recover), m, b, last) by {
      if last != [] { assert last[1..] == []; }
    }
    OpsOkAppend(named, marked, bumped, recover, last);
    assert StartOps(d)[0] == EnsureGeneration && StartOps(d)[1..] == recover + last;
    RunAppend(named, recover, last);
    if CanRecover(d) {
      var e := Execute(named, recover);
      assert last[1..] == [] && Execute(e, last) == Do(e, MarkDirty);
      KeepsGeneration(named, recover);
    }
  }

  lemma {:induction false} KeepsGeneration(d: Disk, ops: seq<Op>)
    requires d.generation.Some?
    ensures Execute(d, ops).generation.Some?
    ensures Execute(d, ops).generation.value.current >= d.generation.value.current
    decreases |ops|
  {
    if ops != [] {
      KeepsGeneration(Do(d, ops[0]), ops[1..]);
    }
  }

  lemma RunThree(d: Disk, ops: seq<Op>)
    requires |ops| == 3
    ensures Execute(d, ops) == Do(Do(Do(d, ops[0]), ops[1]), ops[2])
  {
    var d1 := Do(d, ops[0]);
    var d2 := Do(d1, ops[1]);
    assert ops[1..][1..] == [ops[2]] && ops[1..][1..][1..] == [];
    assert Execute(Do(d2, ops[2]), []) == Do(d2, ops[2]);
    assert Execute(d2, [ops[2]]) == Do(d2, ops[2]);
    assert Execute(d1, ops[1..]) == Execute(d2, [ops[2]]);
  }

  // Publication: safe when the database was built from the tree of the observed generation.
  lemma PublishSafe(d: Disk, observed: nat, image: Database)
    requires d.generation.Some?
    requires d.generation.value.current == observed ==> image == ImageOf(d.canonical)
    ensures OpsOk(d, false, false, PublishOps(d, observed, image))
    ensures Execute(d, PublishOps(d, observed, image)) ==
      if d.pending.None? && d.generation.value.current == observed then
        d.(database := Some(image), generation := Some(Generation(observed, observed)), dirty := false)
      else d.(dirty := true)
  {
    var ops := PublishOps(d, observed, image);
    if |ops| == 3 {
      RunThree(d, ops);
      var d1 := Do(d, ops[0]);
      var d2 := Do(d1, PublishGeneration);
      assert ops[1..][1..] == [ClearDirty] && ops[1..][1..][1..] == [];
      assert OpsOk(d2, false, false, [ClearDirty]);
      assert OpsOk(d1, false, false, ops[1..]);
    } else {
      assert ops[1..] == [] && Execute(Do(d, MarkDirty), []) == Do(d, MarkDirty);
    }
  }

  // ----- crash anywhere -----

  // The image after the first k operations of a safe program: the invariant holds, so the
  // next recovery and the next freshness check can rely on it.
  lemma {:induction false} CutKeepsDiskInv(d: Disk, marked: bool, bumped: bool, ops: seq<Op>, k: nat)
    requires DiskInv(d) && FlagsOk(d, marked, bumped) && OpsOk(d, marked, bumped, ops) && k <= |ops|
    ensures DiskInv(Execute(d, ops[..k]))
    decreases k
  {
    if k > 0 {
      OpKeepsDiskInv(d, marked, bumped, ops[0]);
      CutKeepsDiskInv(Do(d, ops[0]), Marked(marked, ops[0]), Bumped(bumped, ops[0]), ops[1..], k - 1);
      assert ops[..k][0] == ops[0] && ops[..k][1..] == ops[1..][..k - 1];
    }
  }

  lemma {:induction false} CutSettles(d: Disk, marked: bool, bumped: bool, ops: seq<Op>, k: nat)
    requires DiskInv(d) && FlagsOk(d, marked, bumped) && OpsOk(d, marked, bumped, ops) && k <= |ops|
    requires forall op :: op in ops ==> SettledAfter(Settled(d), op) == Settled(d)
    ensures Settled(Execute(d, ops[..k])) == Settled(d)
    decreases k
  {
    if k > 0 {
      OpKeepsDiskInv(d, marked, bumped, ops[0]);
      OpSettles(d, marked, bumped, ops[0]);
      assert ops[0] in ops;
      CutSettles(Do(d, ops[0]), Marked(marked, ops[0]), Bumped(bumped, ops[0]), ops[1..], k - 1);
      assert ops[..k][0] == ops[0] && ops[..k][1..] == ops[1..][..k - 1];
    }
  }

  lemma {:induction false} ReplayOpsKind(canonical: Tree, j: Journal)
    ensures forall op :: op in ReplayOps(canonical, j) ==> op.Replay?
    decreases |j|
  {
    if j != [] { ReplayOpsKind(canonical, j[1..]); }
  }

  // Recovery may itself be cut off, any number of times: every cut keeps the settled tree
  // and the invariant, so the tree that a later complete recovery leaves is still the same.
  lemma RecoveryIsRestartable(d: Disk, k: nat)
    requires DiskInv(d) && k <= |RecoverOps(d)|
    ensures var cut := Execute(d, RecoverOps(d)[..k]);
      DiskInv(cut) && Settled(cut) == Settled(d)
      && (CanRecover(cut) ==> Execute(cut, RecoverOps(cut)).pending.None?
                              && Execute(cut, RecoverOps(cut)).canonical == Settled(d))
  {
    var cut := Execute(d, RecoverOps(d)[..k]);
    RecoverSafe(d, false, false);
    CutKeepsDiskInv(d, false, false, RecoverOps(d), k);
    if d.pending.Some? {
      ReplayOpsKind(d.canonical, d.pending.value);
    }
    CutSettles(d, false, false, RecoverOps(d), k);
    RecoverSafe(cut, false, false);
  }

  // Where the program of a supersession stands after its first k writes.
  lemma CutBeforeJournal(d: Disk, j: Journal, k: nat)
    requires k <= 2
    ensures Settled(Execute(d, CommitOps(d, Journaled(j))[..k])) == Settled(d)
  {
    var ops := CommitOps(d, Journaled(j));
    assert ops[..k] == BeginOps()[..k];
    if k == 0 {
      assert ops[..k] == [];
    } else if k == 1 {
      assert ops[..k] == [MarkDirty] && ops[..k][1..] == [];
    } else {
      assert ops[..k] == BeginOps() + [];
      BarrierRuns(d, []);
    }
  }

  lemma CutAfterJournal(d: Disk, j: Journal, k: nat)
    requires DiskInv(d) && d.pending.None? && PlanReads(d, Journaled(j))
    requires GenerationOf(d).current < MAX_GENERATION
    requires 3 <= k <= |CommitOps(d, Journaled(j))|
    ensures Settled(Execute(d, CommitOps(d, Journaled(j))[..k])) == Overlay(d.canonical, j)
  {
    var ops := CommitOps(d, Journaled(j));
    var barrier := BeginOps() + [WriteJournal(j)];
    var tail := ReplayOps(d.canonical, j) + [ClearJournal];
    assert ops == barrier + tail && ops[..k] == barrier + tail[..k - 3];
    RunAppend(d, barrier, tail[..k - 3]);
    JournalWritten(d, j);
    CutOfReplay(d, j, k - 3);
  }

  lemma JournalWritten(d: Disk, j: Journal)
    requires DiskInv(d) && d.pending.None? && PlanReads(d, Journaled(j))
    requires GenerationOf(d).current < MAX_GENERATION
    ensures Execute(d, BeginOps() + [WriteJournal(j)]) == Do(Begun(d), WriteJournal(j))
    ensures DiskInv(Do(Begun(d), WriteJournal(j)))
  {
    var ops := CommitOps(d, Journaled(j));
    BarrierRuns(d, [WriteJournal(j)]);
    assert [WriteJournal(j)][1..] == [];
    assert ops[..3] == BeginOps() + [WriteJournal(j)];
    CommitSafe(d, false, false, Journaled(j));
    CutKeepsDiskInv(d, false, false, ops, 3);
  }

  lemma CutOfReplay(d: Disk, j: Journal, n: nat)
    requires DiskInv(d) && d.pending.None? && PlanReads(d, Journaled(j))
    requires GenerationOf(d).current < MAX_GENERATION
    requires n <= |ReplayOps(d.canonical, j)| + 1
    ensures Settled(Execute(Do(Begun(d), WriteJournal(j)), (ReplayOps(d.canonical, j) + [ClearJournal])[..n]))
      == Overlay(d.canonical, j)
  {
    var written := Do(Begun(d), WriteJournal(j));
    JournalWritten(d, j);
    assert j[0..] == j;
    ReplaySafe(written, d.canonical, j, 0);
    ReplayOpsKind(d.canonical, j);
    CutSettles(written, true, true, ReplayOps(d.canonical, j) + [ClearJournal], n);
  }

  // Supersession through the journal is all or nothing. Cut after its first k file writes
  // and recovered, the tree holds every target (once the journal was written) or is the
  // tree from before; it is never a mixture. Only an exhausted generation blocks recovery.
  lemma SupersessionIsAtomic(d: Disk, j: Journal, k: nat)
    requires DiskInv(d) && d.pending.None? && PlanReads(d, Journaled(j))
    requires GenerationOf(d).current < MAX_GENERATION
    requires k <= |CommitOps(d, Journaled(j))|
    ensures var cut := Execute(d, CommitOps(d, Journaled(j))[..k]);
      DiskInv(cut)
      && Settled(cut) == (if k <= 2 then d.canonical else Overlay(d.canonical, j))
      && (CanRecover(cut) <==> cut.pending.None? || GenerationOf(cut).current < MAX_GENERATION)
      && (CanRecover(cut) ==> Execute(cut, RecoverOps(cut)).pending.None?
                              && Execute(cut, RecoverOps(cut)).canonical == Settled(cut))
  {
    if k <= 2 {
      CutBeforeJournal(d, j, k);
    } else {
      CutAfterJournal(d, j, k);
    }
    CommitSafe(d, false, false, Journaled(j));
    CutKeepsDiskInv(d, false, false, CommitOps(d, Journaled(j)), k);
    RecoverSafe(Execute(d, CommitOps(d, Journaled(j))[..k]), false, false);
  }
}
