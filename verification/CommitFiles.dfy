/** The documents of a life-cycle plan as file writes: what a commit that stops anywhere, and
    the recovery after it, make of the claims. */
module CommitFiles {
  import opened Wrappers
  import opened Identifiers
  import opened DiskFiles
  import L = Lifecycle

  // Where each claim lies, and the writer and reader of claim documents.
  datatype Layout = Layout(pathOf: string -> Path, render: L.Claim -> Bytes, parse: Bytes -> Option<L.Claim>)

  ghost predicate RoundTrips(layout: Layout) {
    forall c :: layout.parse(layout.render(c)) == Some(c)
  }

  ghost predicate Apart(layout: Layout, ids: set<string>) {
    forall x, y :: x in ids && y in ids && layout.pathOf(x) == layout.pathOf(y) ==> x == y
  }

  // The claims with these ids, as the files show them.
  function ReadClaims(layout: Layout, ids: set<string>, tree: Tree): L.Store {
    map id | id in ids && layout.pathOf(id) in tree && layout.parse(tree[layout.pathOf(id)]).Some?
      :: layout.parse(tree[layout.pathOf(id)]).value
  }

  // The canonical files show exactly the claims of the store.
  ghost predicate Shows(layout: Layout, tree: Tree, s: L.Store) {
    RoundTrips(layout) && Apart(layout, s.Keys) && ReadClaims(layout, s.Keys, tree) == s
  }

  // ----- what a commit writes -----

  function TargetOf(layout: Layout, tree: Tree, c: L.Claim): Target
    requires layout.pathOf(c.id) in tree
  {
    Target(layout.pathOf(c.id), tree[layout.pathOf(c.id)], layout.render(c))
  }

  // Preimages are the bytes read under the lock, targets the rendered documents.
  function JournalOf(layout: Layout, tree: Tree, claims: seq<L.Claim>): Journal
    requires forall i :: 0 <= i < |claims| ==> layout.pathOf(claims[i].id) in tree
  {
    seq(|claims|, i requires 0 <= i < |claims| => TargetOf(layout, tree, claims[i]))
  }

  function Documents(plan: L.Plan): seq<L.Claim> { [plan.claim] + plan.olds }

  // The documents replace claims of the store, each a different one.
  ghost predicate PlanFits(s: L.Store, plan: L.Plan) {
    && (forall i :: 0 <= i < |Documents(plan)| ==> Documents(plan)[i].id in s)
    && (forall i, j :: 0 <= i < j < |Documents(plan)| ==> Documents(plan)[i].id != Documents(plan)[j].id)
  }

  lemma FilesThere(layout: Layout, tree: Tree, s: L.Store, id: string)
    requires Shows(layout, tree, s) && id in s
    ensures layout.pathOf(id) in tree && layout.parse(tree[layout.pathOf(id)]) == Some(s[id])
  {
    assert id in ReadClaims(layout, s.Keys, tree);
  }

  // A lone document is written directly; a supersession goes through the journal.
  function FilesOf(layout: Layout, tree: Tree, plan: L.Plan): Plan
    requires forall i :: 0 <= i < |Documents(plan)| ==> layout.pathOf(Documents(plan)[i].id) in tree
  {
    if plan.olds == [] then Direct([Write.Store(layout.pathOf(plan.claim.id), layout.render(plan.claim))])
    else Journaled(JournalOf(layout, tree, Documents(plan)))
  }

  // A document that is not valid fails to render behind the barrier, and nothing is written.
  function CommitProgram(rules: L.Rules, layout: Layout, d: Disk, plan: L.Plan): seq<Op>
    requires forall i :: 0 <= i < |Documents(plan)| ==> layout.pathOf(Documents(plan)[i].id) in d.canonical
  {
    if rules.valid(plan.claim) then CommitOps(d, FilesOf(layout, d.canonical, plan)) else BeginOps()
  }

  // ----- reading after writing -----

  lemma ReadAfterPut(layout: Layout, ids: set<string>, tree: Tree, c: L.Claim)
    requires RoundTrips(layout) && Apart(layout, ids) && c.id in ids
    ensures ReadClaims(layout, ids, tree[layout.pathOf(c.id) := layout.render(c)])
      == ReadClaims(layout, ids, tree)[c.id := c]
  {
    var after := tree[layout.pathOf(c.id) := layout.render(c)];
    forall id | id in ids && id != c.id ensures layout.pathOf(id) != layout.pathOf(c.id) {}
    assert layout.parse(layout.render(c)) == Some(c);
  }

  lemma {:induction false} OverlayReads(layout: Layout, ids: set<string>, tree: Tree, base: Tree, claims: seq<L.Claim>)
    requires RoundTrips(layout) && Apart(layout, ids)
    requires forall i :: 0 <= i < |claims| ==> claims[i].id in ids && layout.pathOf(claims[i].id) in base
    ensures ReadClaims(layout, ids, Overlay(tree, JournalOf(layout, base, claims)))
      == L.PutAll(ReadClaims(layout, ids, tree), claims)
    decreases |claims|
  {
    var j := JournalOf(layout, base, claims);
    if claims != [] {
      var c, tail := claims[0], claims[1..];
      assert forall i :: 0 <= i < |tail| ==> tail[i] == claims[i + 1];
      assert j[0] == TargetOf(layout, base, c) && j[1..] == JournalOf(layout, base, tail);
      ReadAfterPut(layout, ids, tree, c);
      OverlayReads(layout, ids, tree[layout.pathOf(c.id) := layout.render(c)], base, tail);
    }
  }

  // The journal of a plan holds the present bytes as preimages, at different files, and what
  // is read through it is the store with the whole plan committed.
  lemma JournalFits(layout: Layout, d: Disk, s: L.Store, plan: L.Plan)
    requires Shows(layout, d.canonical, s) && PlanFits(s, plan)
    ensures forall i :: 0 <= i < |Documents(plan)| ==> layout.pathOf(Documents(plan)[i].id) in d.canonical
    ensures PlanReads(d, FilesOf(layout, d.canonical, plan))
    ensures ReadClaims(layout, s.Keys, Overlay(d.canonical, JournalOf(layout, d.canonical, Documents(plan))))
      == L.Commit(s, plan)
  {
    var claims := Documents(plan);
    forall i | 0 <= i < |claims| ensures layout.pathOf(claims[i].id) in d.canonical {
      FilesThere(layout, d.canonical, s, claims[i].id);
    }
    OverlayReads(layout, s.Keys, d.canonical, d.canonical, claims);
    assert claims[0] == plan.claim && claims[1..] == plan.olds;
    var j := JournalOf(layout, d.canonical, claims);
    forall i, k | 0 <= i < k < |j| ensures j[i].path != j[k].path {
      assert claims[i].id in s && claims[k].id in s && claims[i].id != claims[k].id;
    }
  }

  lemma DirectReads(layout: Layout, d: Disk, s: L.Store, plan: L.Plan)
    requires Shows(layout, d.canonical, s) && PlanFits(s, plan) && plan.olds == []
    ensures ReadClaims(layout, s.Keys, d.canonical[layout.pathOf(plan.claim.id) := layout.render(plan.claim)])
      == L.Commit(s, plan)
  {
    assert Documents(plan)[0] == plan.claim;
    ReadAfterPut(layout, s.Keys, d.canonical, plan.claim);
  }

  // ----- a commit cut anywhere -----

  // Behind the barrier comes the commit point: the third write.
  function OutcomeAt(k: nat, whole: nat, reported: bool): L.CommitOutcome {
    if k <= 2 then L.NotCommitted else if k == whole && reported then L.Reported else L.Unreported
  }

  // What the files settle to after a cut, and after recovery from it.
  ghost predicate SettlesTo(layout: Layout, cut: Disk, t: L.Store, ids: set<string>) {
    && DiskInv(cut) && ReadClaims(layout, ids, Settled(cut)) == t
    && (CanRecover(cut) <==> cut.pending.None? || GenerationOf(cut).current < MAX_GENERATION)
    && (CanRecover(cut) ==>
          && Execute(cut, RecoverOps(cut)).pending.None?
          && ReadClaims(layout, ids, Execute(cut, RecoverOps(cut)).canonical) == t)
  }

  lemma CutSettlesTo(layout: Layout, d: Disk, plan: Plan, k: nat, ids: set<string>)
    requires DiskInv(d) && d.pending.None? && PlanReads(d, plan) && GenerationOf(d).current < MAX_GENERATION
    requires k <= |CommitOps(d, plan)|
    ensures var cut := Execute(d, CommitOps(d, plan)[..k]);
      SettlesTo(layout, cut, ReadClaims(layout, ids, Settled(cut)), ids)
  {
    CommitSafe(d, false, false, plan);
    CutKeepsDiskInv(d, false, false, CommitOps(d, plan), k);
    RecoverSafe(Execute(d, CommitOps(d, plan)[..k]), false, false);
  }

  lemma DirectCut(d: Disk, w: Write, k: nat)
    requires d.pending.None? && w.Store?
    ensures |CommitOps(d, Direct([w]))| == 3 && CommitOps(d, Direct([w]))[..2] == BeginOps()
    ensures k <= 3 ==>
      Settled(Execute(d, CommitOps(d, Direct([w]))[..k]))
        == (if k <= 2 then d.canonical else d.canonical[w.path := w.bytes])
  {
    var ops := CommitOps(d, Direct([w]));
    assert WriteOps([w]) == [Put(w.path, w.bytes)];
    if k <= 2 {
      assert ops[..k] == BeginOps()[..k];
      BarrierCut(d, k);
    } else if k == 3 {
      assert ops[..k] == BeginOps() + [Put(w.path, w.bytes)];
      BarrierRuns(d, [Put(w.path, w.bytes)]);
      assert [Put(w.path, w.bytes)][1..] == [];
    }
  }

  lemma JournalCut(d: Disk, j: Journal, k: nat)
    requires DiskInv(d) && d.pending.None? && GenerationOf(d).current < MAX_GENERATION && PlanReads(d, Journaled(j))
    ensures |CommitOps(d, Journaled(j))| > 2 && CommitOps(d, Journaled(j))[..2] == BeginOps()
    ensures k <= |CommitOps(d, Journaled(j))| ==>
      Settled(Execute(d, CommitOps(d, Journaled(j))[..k])) == (if k <= 2 then d.canonical else Overlay(d.canonical, j))
  {
    if k <= |CommitOps(d, Journaled(j))| { SupersessionIsAtomic(d, j, k); }
  }

  // What is read after a cut of the whole program.
  lemma CutReads(layout: Layout, d: Disk, s: L.Store, plan: L.Plan, k: nat)
    requires DiskInv(d) && d.pending.None? && GenerationOf(d).current < MAX_GENERATION
    requires Shows(layout, d.canonical, s) && PlanFits(s, plan)
    ensures forall i :: 0 <= i < |Documents(plan)| ==> layout.pathOf(Documents(plan)[i].id) in d.canonical
    ensures var files := FilesOf(layout, d.canonical, plan);
      var ops := CommitOps(d, files);
      && PlanReads(d, files) && |ops| > 2 && ops[..2] == BeginOps()
      && (k <= |ops| ==>
            ReadClaims(layout, s.Keys, Settled(Execute(d, ops[..k]))) == if k <= 2 then s else L.Commit(s, plan))
  {
    JournalFits(layout, d, s, plan);
    var files := FilesOf(layout, d.canonical, plan);
    if plan.olds == [] {
      DirectCut(d, files.writes[0], k);
      DirectReads(layout, d, s, plan);
    } else {
      JournalCut(d, files.journal, k);
    }
  }

  // A commit that fails behind the barrier runs as far as any other.
  lemma ProgramCut(rules: L.Rules, layout: Layout, d: Disk, s: L.Store, plan: L.Plan, k: nat, reported: bool)
    requires forall i :: 0 <= i < |Documents(plan)| ==> layout.pathOf(Documents(plan)[i].id) in d.canonical
    requires var ops := CommitOps(d, FilesOf(layout, d.canonical, plan)); |ops| > 2 && ops[..2] == BeginOps()
    ensures var program, ops := CommitProgram(rules, layout, d, plan), CommitOps(d, FilesOf(layout, d.canonical, plan));
      k <= |program| ==>
        && k <= |ops| && program[..k] == ops[..k]
        && L.Landed(rules, s, plan, OutcomeAt(k, |program|, reported)) == if k <= 2 then s else L.Commit(s, plan)
  {
    var ops := CommitOps(d, FilesOf(layout, d.canonical, plan));
    if k <= 2 { assert BeginOps()[..k] == ops[..2][..k] == ops[..k]; }
  }

  // A commit that stops after k file writes, for whatever reason, has changed nothing or has
  // committed the whole plan, and it has done so exactly from the third write on. When it stops
  // later than that without reporting success, its caller sees a failure although the claims
  // have changed.
  lemma CommitIsAtomic(rules: L.Rules, layout: Layout, d: Disk, s: L.Store, plan: L.Plan, k: nat, reported: bool)
    requires DiskInv(d) && d.pending.None? && GenerationOf(d).current < MAX_GENERATION
    requires Shows(layout, d.canonical, s) && PlanFits(s, plan)
    ensures forall i :: 0 <= i < |Documents(plan)| ==> layout.pathOf(Documents(plan)[i].id) in d.canonical
    ensures var program := CommitProgram(rules, layout, d, plan);
      k <= |program| ==>
        SettlesTo(layout, Execute(d, program[..k]), L.Landed(rules, s, plan, OutcomeAt(k, |program|, reported)), s.Keys)
  {
    CutReads(layout, d, s, plan, k);
    ProgramCut(rules, layout, d, s, plan, k, reported);
    if k <= |CommitProgram(rules, layout, d, plan)| {
      CutSettlesTo(layout, d, FilesOf(layout, d.canonical, plan), k, s.Keys);
    }
  }

  // ----- the plans of the life cycle -----

  lemma RevokeFits(rules: L.Rules, s: L.Store, id: string, reason: string, o: L.Options, now: int)
    requires L.PrepareRevoke(rules, s, id, reason, o, now).Some? && s[id].id == id
    ensures PlanFits(s, L.Plan.Plan(L.PrepareRevoke(rules, s, id, reason, o, now).value, []))
  {
  }

  lemma ApproveFits(rules: L.Rules, s: L.Store, id: string, o: L.Options, now: int)
    requires L.PrepareApprove(rules, s, id, o, now).Some? && forall x :: x in s ==> s[x].id == x
    ensures PlanFits(s, L.PrepareApprove(rules, s, id, o, now).value)
  {
    var plan := L.PrepareApprove(rules, s, id, o, now).value;
    OldIds(rules, s, id, o, now);
    var ids := s[id].supersedes;
    assert forall i :: 1 <= i < |Documents(plan)| ==> Documents(plan)[i].id == ids[i - 1];
    forall i, j | 0 <= i < j < |Documents(plan)| ensures Documents(plan)[i].id != Documents(plan)[j].id {
      assert ids[j - 1] in ids;
      if i > 0 { L.DistinctAt(ids, i - 1, j - 1); }
    }
  }

  lemma OldIds(rules: L.Rules, s: L.Store, id: string, o: L.Options, now: int)
    requires L.PrepareApprove(rules, s, id, o, now).Some? && forall x :: x in s ==> s[x].id == x
    ensures var plan, ids := L.PrepareApprove(rules, s, id, o, now).value, s[id].supersedes;
      && plan.claim.id == id && id in s && id !in ids && |plan.olds| == |ids| && Distinct(ids)
      && forall i :: 0 <= i < |ids| ==> plan.olds[i].id == ids[i] && ids[i] in s
  {
    var ids := s[id].supersedes;
    forall i | 0 <= i < |ids| ensures ids[i] in s && s[ids[i]].status.Approved? { assert ids[i] in ids; }
  }

  // After a crash anywhere in an approval, and a replay of the journal, the replacement is
  // approved and every old claim superseded, or nothing has changed.
  lemma ApprovalThroughCrash(rules: L.Rules, layout: Layout, d: Disk, s: L.Store, order: seq<string>, id: string,
                             o: L.Options, now: int, k: nat)
    requires DiskInv(d) && d.pending.None? && GenerationOf(d).current < MAX_GENERATION
    requires L.Inv(rules, s, order) && L.DigestTexts(rules) && Shows(layout, d.canonical, s)
    requires L.PrepareApprove(rules, s, id, o, now).Some?
    ensures var plan := L.PrepareApprove(rules, s, id, o, now).value;
      && (forall i :: 0 <= i < |Documents(plan)| ==> layout.pathOf(Documents(plan)[i].id) in d.canonical)
      && var program := CommitProgram(rules, layout, d, plan);
         k <= |program| ==>
           exists t :: SettlesTo(layout, Execute(d, program[..k]), t, s.Keys) && AllOrNothing(s, t, id, k)
  {
    var plan := L.PrepareApprove(rules, s, id, o, now).value;
    ApproveFits(rules, s, id, o, now);
    CommitIsAtomic(rules, layout, d, s, plan, k, true);
    var program := CommitProgram(rules, layout, d, plan);
    if k <= |program| {
      CutReads(layout, d, s, plan, k);
      ProgramCut(rules, layout, d, s, plan, k, true);
      WholePlan(rules, s, order, id, o, now, k);
      assert AllOrNothing(s, L.Landed(rules, s, plan, OutcomeAt(k, |program|, true)), id, k);
    }
  }

  lemma WholePlan(rules: L.Rules, s: L.Store, order: seq<string>, id: string, o: L.Options, now: int, k: nat)
    requires L.Inv(rules, s, order) && L.DigestTexts(rules) && L.PrepareApprove(rules, s, id, o, now).Some?
    ensures AllOrNothing(s, if k <= 2 then s else L.Commit(s, L.PrepareApprove(rules, s, id, o, now).value), id, k)
  {
    var plan := L.PrepareApprove(rules, s, id, o, now).value;
    var t := L.Commit(s, plan);
    forall x | x in s ensures x in t && t[x] == L.After(s, id, plan.claim, o, now, x) {
      L.CommitAt(rules, s, order, id, o, now, x);
    }
    L.ApprovedVerifies(rules, s, id, o, now);
    L.CommitAt(rules, s, order, id, o, now, id);
  }

  ghost predicate AllOrNothing(s: L.Store, t: L.Store, id: string, k: nat)
    requires id in s
  {
    if k <= 2 then t == s
    else
      && id in t && t[id].status.Approved?
      && (forall prior :: prior in s[id].supersedes ==> prior in t && t[prior].status.Superseded?)
      && (forall x :: x in s && x != id && x !in s[id].supersedes ==> x in t && t[x] == s[x])
  }
}
