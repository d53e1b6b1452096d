/** What every run of the ceremony guarantees. */
module CeremonyHistory {
  import opened Clock
  import opened Identifiers
  import opened ChallengeEncoding
  import opened ChallengeRecord
  import opened Ceremony
  import opened CeremonyRun
  import L = Lifecycle

  lemma {:induction false} RunInv(rules: Rules, workspace: string, run: seq<State>, n: nat)
    requires IsRun(rules, workspace, run) && L.DigestTexts(rules) && n < |run|
    ensures Inv(rules, workspace, run[n])
  {
    if n == 0 {
      L.EmptyInv(rules);
    } else {
      RunInv(rules, workspace, run, n - 1);
      assert StepAt(rules, workspace, run, n - 1);
      var step :| NextBy(rules, workspace, run[n - 1], run[n], step);
      StepKeepsInv(rules, workspace, run[n - 1], run[n], step);
    }
  }

  // ----- nothing is taken back -----

  ghost predicate RecordsMoveOn(s: State, t: State) {
    forall id :: id in s.records ==> id in t.records && MovesOn(s.records[id], t.records[id])
  }

  ghost predicate ClaimsGrow(s: Store, t: Store) {
    forall x :: x in s && L.Settled(s[x]) ==> x in t && L.Grown(s[x], t[x])
  }

  lemma ApplyGrows(rules: Rules, s: Store, order: seq<string>, c: Challenge, o: Options, now: int)
    requires L.Inv(rules, s, order) && Planned(rules, s, c, o, now).Some?
    ensures ClaimsGrow(s, AfterApply(rules, s, c, o, now))
  {
    if c.binding.operation == REVOKE {
      L.RevokeGrows(rules, s, c.binding.claimId, c.binding.revokeReason, o, now);
    } else {
      CommitGrows(rules, s, order, c.binding.claimId, o, now);
    }
  }

  lemma CommitGrows(rules: Rules, s: Store, order: seq<string>, id: string, o: Options, now: int)
    requires L.Inv(rules, s, order) && L.PrepareApprove(rules, s, id, o, now).Some?
    ensures ClaimsGrow(s, L.Commit(s, L.PrepareApprove(rules, s, id, o, now).value))
  {
    forall x | x in s && L.Settled(s[x])
      ensures var t := L.Commit(s, L.PrepareApprove(rules, s, id, o, now).value); x in t && L.Grown(s[x], t[x])
    {
      L.ApproveGrows(rules, s, order, id, o, now, x);
    }
  }

  // One record written at `id`: the others stay, and an old one moves on.
  ghost predicate OneRecord(s: State, t: State, id: string) {
    && id in t.records && t.records == s.records[id := t.records[id]]
    && (id in s.records ==> MovesOn(s.records[id], t.records[id]))
  }

  lemma OneRecordMoves(s: State, t: State, id: string)
    requires t.records == s.records || OneRecord(s, t, id)
    ensures RecordsMoveOn(s, t)
  {
  }

  lemma GrantMoves(s: State, t: State, id: string, granted: seq<string>, skipped: seq<string>, token: string)
    requires id in s.records && !s.records[id].granted && !s.records[id].consumed
      && Parse(s.records[id].expiresAt).Some?
    requires t.records == s.records[id := Granted(s.records[id], granted, skipped, token, s.now)]
    ensures OneRecord(s, t, id)
  {
  }

  lemma ConsumeMoves(s: State, t: State, id: string)
    requires id in s.records && t.records == Consumed(s, id)
    ensures OneRecord(s, t, id)
  {
  }

  lemma StepMovesRecords(rules: Rules, workspace: string, s: State, t: State, step: Step)
    requires NextBy(rules, workspace, s, t, step)
    requires forall id :: id in s.records && s.records[id].consumed ==> s.records[id].granted
    ensures RecordsMoveOn(s, t)
  {
    match step
    case PrepareChallenge(p, id) => OneRecordMoves(s, t, id);
    case PrepareBatchChallenge(items, id) => OneRecordMoves(s, t, id);
    case GrantSingle(id, token) => GrantMoves(s, t, id, [], [], token); OneRecordMoves(s, t, id);
    case GrantBatch(id, granted, skipped, token) => GrantMoves(s, t, id, granted, skipped, token);
      OneRecordMoves(s, t, id);
    case Apply(id, token, o, late, outcome) =>
      if t.records != s.records { ConsumeMoves(s, t, id); }
      OneRecordMoves(s, t, id);
    case ApplyBatch(id, token, o, late, outcomes, committed) =>
      if t.records != s.records { ConsumeMoves(s, t, id); }
      OneRecordMoves(s, t, id);
    case Tick(later) => OneRecordMoves(s, t, "");
    case WriteDraft(c) => OneRecordMoves(s, t, "");
    case ApproveDirect(id, o) => OneRecordMoves(s, t, "");
    case RevokeDirect(id, reason, o) => OneRecordMoves(s, t, "");
  }

  lemma OneClaimGrows(s: Store, x: string, c: Claim)
    requires x in s ==> (L.Settled(s[x]) ==> L.Grown(s[x], c))
    ensures ClaimsGrow(s, s[x := c])
  {
  }

  lemma SameClaimsGrow(s: Store)
    ensures ClaimsGrow(s, s)
  {
  }

  lemma PromotionsGrow(rules: Rules, s: Store, t: Store, ids: seq<string>, o: Options, at: int)
    requires Promotions(rules, s, t, ids, o, at)
    ensures ClaimsGrow(s, t)
  {
  }

  lemma BatchGrows(rules: Rules, workspace: string, s: State, t: Store, id: string, committed: seq<bool>, o: Options,
                   at: int)
    requires Inv(rules, workspace, s) && id in s.records && s.records[id].granted
    requires BatchChanges(rules, s.claims, t, s.records[id], committed, o, at) && s.records[id].binding.items != []
    ensures ClaimsGrow(s.claims, t)
  {
    ReadRecord(rules, workspace, s, id);
    BatchPromotes(rules, s.claims, t, s.records[id], committed, o, at);
    PromotionsGrow(rules, s.claims, t, ChangedIds(s.records[id].binding.items, committed), o, at);
  }

  lemma StepGrowsClaims(rules: Rules, workspace: string, s: State, t: State, step: Step)
    requires Inv(rules, workspace, s) && NextBy(rules, workspace, s, t, step)
    ensures ClaimsGrow(s.claims, t.claims)
  {
    SameClaimsGrow(s.claims);
    match step
    case Apply(id, token, o, late, outcome) =>
      if t.claims != s.claims { ApplyGrows(rules, s.claims, s.order, s.records[id], o, s.now); }
    case ApplyBatch(id, token, o, late, outcomes, committed) =>
      if t.claims != s.claims {
        TurnsChange(rules, s.claims, t.claims, s.records[id], committed, outcomes, o, late);
        BatchGrows(rules, workspace, s, t.claims, id, committed, o, late);
      }
    case ApproveDirect(id, o) => CommitGrows(rules, s.claims, s.order, id, o, s.now);
    case RevokeDirect(id, reason, o) =>
      L.RevokeGrows(rules, s.claims, id, reason, o, s.now);
      OneClaimGrows(s.claims, id, t.claims[id]);
    case WriteDraft(c) => OneClaimGrows(s.claims, c.id, t.claims[c.id]);
    case Tick(later) =>
    case PrepareChallenge(p, id) =>
    case PrepareBatchChallenge(items, id) =>
    case GrantSingle(id, token) =>
    case GrantBatch(id, granted, skipped, token) =>
  }

  lemma StepForward(rules: Rules, workspace: string, s: State, t: State, step: Step)
    requires Inv(rules, workspace, s) && NextBy(rules, workspace, s, t, step)
    ensures Onward(s, t)
  {
    StepMovesRecords(rules, workspace, s, t, step);
    StepGrowsClaims(rules, workspace, s, t, step);
  }

  ghost predicate Onward(s: State, t: State) {
    RecordsMoveOn(s, t) && ClaimsGrow(s.claims, t.claims) && s.now <= t.now
  }

  lemma OnwardTransitive(s: State, t: State, u: State)
    requires Onward(s, t) && Onward(t, u)
    ensures Onward(s, u)
  {
    forall x | x in s.claims && L.Settled(s.claims[x]) ensures x in u.claims && L.Grown(s.claims[x], u.claims[x]) {
      L.GrownTransitive(s.claims[x], t.claims[x], u.claims[x]);
    }
  }

  lemma RunStep(rules: Rules, workspace: string, run: seq<State>, n: nat) returns (step: Step)
    requires IsRun(rules, workspace, run) && n + 1 < |run|
    ensures NextBy(rules, workspace, run[n], run[n + 1], step)
  {
    assert StepAt(rules, workspace, run, n);
    step :| NextBy(rules, workspace, run[n], run[n + 1], step);
  }

  lemma StepOnward(rules: Rules, workspace: string, run: seq<State>, n: nat)
    requires IsRun(rules, workspace, run) && L.DigestTexts(rules) && n + 1 < |run|
    ensures Onward(run[n], run[n + 1])
  {
    RunInv(rules, workspace, run, n);
    var step := RunStep(rules, workspace, run, n);
    StepForward(rules, workspace, run[n], run[n + 1], step);
  }

  // Over any stretch of a run, what a challenge binds never changes, granted and consumed
  // never revert, and a settled claim keeps its document and only adds to its history.
  lemma {:induction false} NothingIsTakenBack(rules: Rules, workspace: string, run: seq<State>, i: nat, j: nat)
    requires IsRun(rules, workspace, run) && L.DigestTexts(rules) && i <= j < |run|
    ensures Onward(run[i], run[j])
    decreases j
  {
    if i < j {
      NothingIsTakenBack(rules, workspace, run, i, j - 1);
      StepOnward(rules, workspace, run, j - 1);
      OnwardTransitive(run[i], run[j - 1], run[j]);
    } else {
      SameClaimsGrow(run[i].claims);
    }
  }

  // ----- where each use comes from -----

  // This step prepared the challenge, from the claims as they then were.
  ghost predicate Prepares(s: State, t: State, id: string, bound: Bound) {
    && id !in s.records && id in t.records
    && forall x :: (id, x) in bound ==> x in s.claims && s.claims[x] == bound[(id, x)]
  }

  ghost predicate Grants(s: State, t: State, id: string, at: int) {
    && id in s.records && !s.records[id].granted
    && id in t.records && t.records[id].granted && s.now == at
  }

  ghost predicate Uses(s: State, t: State, u: Use) {
    && u.challengeId in s.records && s.records[u.challengeId].granted && !s.records[u.challengeId].consumed
    && u.challengeId in t.records && t.records[u.challengeId].consumed
    && u.claimId in s.claims && s.claims[u.claimId] == u.before
    && u.claimId in t.claims && t.claims[u.claimId] == u.after
    && s.now <= u.planned <= u.at == t.now
  }

  ghost predicate SameBound(id: string, a: Bound, b: Bound) {
    forall x :: ((id, x) in a <==> (id, x) in b) && ((id, x) in a ==> a[(id, x)] == b[(id, x)])
  }

  lemma SinglePrepares(s: State, id: string, c: Challenge, x: string, k: string)
    requires id !in s.records && x in s.claims && forall b :: b in s.bound ==> b.0 in s.records
    requires k in s.records || k == id
    ensures var bound := s.bound[(id, x) := s.claims[x]];
      if k in s.records then SameBound(k, s.bound, bound)
      else Prepares(s, s.(records := s.records[id := c], bound := bound), k, bound)
  {
  }

  lemma BatchPrepares(s: State, id: string, c: Challenge, items: seq<ChallengeItem>, k: string)
    requires id !in s.records && forall b :: b in s.bound ==> b.0 in s.records
    requires k in s.records || k == id
    ensures var bound := BindItems(s.bound, id, items, s.claims);
      if k in s.records then SameBound(k, s.bound, bound)
      else Prepares(s, s.(records := s.records[id := c], bound := bound), k, bound)
  {
  }

  // What a step adds to the history happened in that step.
  lemma StepPrepares(rules: Rules, workspace: string, s: State, t: State, step: Step, id: string)
    requires NextBy(rules, workspace, s, t, step) && id in t.records && forall k :: k in s.bound ==> k.0 in s.records
    ensures if id in s.records then SameBound(id, s.bound, t.bound) else Prepares(s, t, id, t.bound)
  {
    match step
    case PrepareChallenge(p, k) => SinglePrepares(s, k, t.records[k], p.claimId, id);
    case PrepareBatchChallenge(items, k) => BatchPrepares(s, k, t.records[k], items, id);
    case Apply(k, token, o, late, outcome) => assert t.bound == s.bound;
    case ApplyBatch(k, token, o, late, outcomes, committed) => assert t.bound == s.bound;
    case GrantSingle(k, token) => assert t.bound == s.bound;
    case GrantBatch(k, granted, skipped, token) => assert t.bound == s.bound;
    case WriteDraft(c) => assert t.bound == s.bound;
    case Tick(later) => assert t.bound == s.bound;
    case ApproveDirect(k, o) => assert t.bound == s.bound;
    case RevokeDirect(k, reason, o) => assert t.bound == s.bound;
  }

  ghost predicate IsGrantStep(step: Step) { step.GrantSingle? || step.GrantBatch? }

  lemma StepGrants(rules: Rules, workspace: string, s: State, t: State, step: Step, id: string)
    requires NextBy(rules, workspace, s, t, step) && id in t.records && t.records[id].granted
    requires id in s.records && s.records[id].granted ==> id in s.grants
    ensures id in t.grants
    ensures if id in s.records && s.records[id].granted then id in s.grants && t.grants[id] == s.grants[id]
      else Grants(s, t, id, t.grants[id].at)
  {
    if IsGrantStep(step) {
      GrantStepGrants(rules, workspace, s, t, step, id);
    } else {
      StepKeepsGrants(rules, workspace, s, t, step, id);
    }
  }

  lemma GrantStepGrants(rules: Rules, workspace: string, s: State, t: State, step: Step, id: string)
    requires NextBy(rules, workspace, s, t, step) && IsGrantStep(step) && id in t.records && t.records[id].granted
    requires id in s.records && s.records[id].granted ==> id in s.grants
    ensures id in t.grants
    ensures if id in s.records && s.records[id].granted then id in s.grants && t.grants[id] == s.grants[id]
      else Grants(s, t, id, t.grants[id].at)
  {
    match step
    case GrantSingle(k, token) => assert k != id ==> t.records[id] == s.records[id];
    case GrantBatch(k, granted, skipped, token) => assert k != id ==> t.records[id] == s.records[id];
  }

  lemma StepKeepsGrants(rules: Rules, workspace: string, s: State, t: State, step: Step, id: string)
    requires NextBy(rules, workspace, s, t, step) && !IsGrantStep(step) && id in t.records && t.records[id].granted
    ensures t.grants == s.grants && id in s.records && s.records[id].granted
  {
    match step
    case PrepareChallenge(p, k) =>
    case PrepareBatchChallenge(items, k) =>
    case Apply(k, token, o, late, outcome) => assert t.grants == s.grants;
    case ApplyBatch(k, token, o, late, outcomes, committed) => assert t.grants == s.grants;
    case WriteDraft(c) => assert t.grants == s.grants;
    case Tick(later) => assert t.grants == s.grants;
    case ApproveDirect(k, o) => assert t.grants == s.grants;
    case RevokeDirect(k, reason, o) => assert t.grants == s.grants;
  }

  lemma StepUses(rules: Rules, workspace: string, s: State, t: State, step: Step, k: nat)
    requires NextBy(rules, workspace, s, t, step) && k < |t.uses|
    ensures if k < |s.uses| then t.uses[k] == s.uses[k] else Uses(s, t, t.uses[k])
    ensures k >= |s.uses| ==> t.records[t.uses[k].challengeId].granted
  {
    match step
    case Apply(id, token, o, late, outcome) =>
    case ApplyBatch(id, token, o, late, outcomes, committed) =>
    case PrepareChallenge(p, id) => assert t.uses == s.uses;
    case PrepareBatchChallenge(items, id) => assert t.uses == s.uses;
    case GrantSingle(id, token) => assert t.uses == s.uses;
    case GrantBatch(id, granted, skipped, token) => assert t.uses == s.uses;
    case WriteDraft(c) => assert t.uses == s.uses;
    case Tick(later) => assert t.uses == s.uses;
    case ApproveDirect(id, o) => assert t.uses == s.uses;
    case RevokeDirect(id, reason, o) => assert t.uses == s.uses;
  }

  lemma RunPrepares(rules: Rules, workspace: string, run: seq<State>, n: nat, id: string)
    requires IsRun(rules, workspace, run) && L.DigestTexts(rules) && n + 1 < |run| && id in run[n + 1].records
    ensures if id in run[n].records then SameBound(id, run[n].bound, run[n + 1].bound)
      else Prepares(run[n], run[n + 1], id, run[n + 1].bound)
  {
    RunInv(rules, workspace, run, n);
    var step := RunStep(rules, workspace, run, n);
    StepPrepares(rules, workspace, run[n], run[n + 1], step, id);
  }

  lemma {:induction false} WherePrepared(rules: Rules, workspace: string, run: seq<State>, n: nat, id: string)
    returns (i: nat)
    requires IsRun(rules, workspace, run) && L.DigestTexts(rules) && n < |run| && id in run[n].records
    ensures i < n && Prepares(run[i], run[i + 1], id, run[n].bound)
  {
    RunPrepares(rules, workspace, run, n - 1, id);
    if id in run[n - 1].records {
      i := WherePrepared(rules, workspace, run, n - 1, id);
    } else {
      i := n - 1;
    }
  }

  lemma RunGrants(rules: Rules, workspace: string, run: seq<State>, n: nat, id: string)
    requires IsRun(rules, workspace, run) && L.DigestTexts(rules) && n + 1 < |run|
    requires id in run[n + 1].records && run[n + 1].records[id].granted
    ensures id in run[n + 1].grants
    ensures if id in run[n].records && run[n].records[id].granted then
        id in run[n].grants && run[n + 1].grants[id] == run[n].grants[id]
      else Grants(run[n], run[n + 1], id, run[n + 1].grants[id].at)
  {
    RunInv(rules, workspace, run, n);
    var step := RunStep(rules, workspace, run, n);
    StepGrants(rules, workspace, run[n], run[n + 1], step, id);
  }

  lemma {:induction false} WhereGranted(rules: Rules, workspace: string, run: seq<State>, n: nat, id: string)
    returns (j: nat)
    requires IsRun(rules, workspace, run) && L.DigestTexts(rules) && n < |run| && id in run[n].records
      && run[n].records[id].granted
    ensures j < n && id in run[n].grants && Grants(run[j], run[j + 1], id, run[n].grants[id].at)
  {
    RunGrants(rules, workspace, run, n - 1, id);
    if id in run[n - 1].records && run[n - 1].records[id].granted {
      j := WhereGranted(rules, workspace, run, n - 1, id);
    } else {
      j := n - 1;
    }
  }

  lemma {:induction false} WhereUsed(rules: Rules, workspace: string, run: seq<State>, n: nat, k: nat) returns (m: nat)
    requires IsRun(rules, workspace, run) && L.DigestTexts(rules) && n < |run| && k < |run[n].uses|
    ensures m < n && Uses(run[m], run[m + 1], run[n].uses[k])
    ensures run[m + 1].records[run[n].uses[k].challengeId].granted
  {
    var step := RunStep(rules, workspace, run, n - 1);
    StepUses(rules, workspace, run[n - 1], run[n], step, k);
    if k < |run[n - 1].uses| {
      m := WhereUsed(rules, workspace, run, n - 1, k);
    } else {
      m := n - 1;
    }
  }

  ghost predicate InjectiveSum(rules: Rules) {
    forall c, d :: rules.sum(c) == rules.sum(d) ==> c == d
  }

  // A change made through a challenge: prepared, then granted by the owner (for a batch this
  // very item), then applied, in this order and in time; the claim was, to the byte, the same
  // at the first and last step.
  ghost predicate Traced(rules: Rules, run: seq<State>, u: Use, i: nat, j: nat, m: nat) {
    && i < j < m && m + 1 < |run|
    && u.challengeId !in run[i].records && u.challengeId in run[i + 1].records
    && Grants(run[j], run[j + 1], u.challengeId, run[j].now)
    && Uses(run[m], run[m + 1], u)
    && u.claimId in run[i].claims && run[i].claims[u.claimId] == run[m].claims[u.claimId]
    && u.before == run[m].claims[u.claimId] && u.after == run[m + 1].claims[u.claimId]
    && (var c := run[m + 1].records[u.challengeId];
       && ItemGranted(c, u.claimId) && Changed(rules, c, u)
       && Parse(c.expiresAt).Some? && Parse(c.tokenExpiresAt).Some?
       && run[m + 1].now <= Parse(c.expiresAt).value && run[m + 1].now <= Parse(c.tokenExpiresAt).value
       && run[j].now <= run[m + 1].now <= run[j].now + TOKEN_LIFETIME)
  }

  lemma EveryUseIsTraced(rules: Rules, workspace: string, run: seq<State>, n: nat, k: nat)
    returns (i: nat, j: nat, m: nat)
    requires IsRun(rules, workspace, run) && L.DigestTexts(rules) && InjectiveSum(rules)
    requires n < |run| && k < |run[n].uses|
    ensures Traced(rules, run, run[n].uses[k], i, j, m)
  {
    var u := run[n].uses[k];
    UseInRun(rules, workspace, run, n, k);
    m := WhereUsed(rules, workspace, run, n, k);
    i := WherePrepared(rules, workspace, run, n, u.challengeId);
    j := WhereGranted(rules, workspace, run, n, u.challengeId);
    InOrder(rules, workspace, run, u, i, j, m);
    NothingIsTakenBack(rules, workspace, run, m + 1, n);
    InTime(rules, run[j], run[m + 1], run[n], u);
  }

  // A challenge unknown at i, ungranted at j and granted at m: i comes before j, j before m.
  lemma InOrder(rules: Rules, workspace: string, run: seq<State>, u: Use, i: nat, j: nat, m: nat)
    requires IsRun(rules, workspace, run) && L.DigestTexts(rules) && i < |run| && j < |run| && m < |run|
    requires var id := u.challengeId;
      && id !in run[i].records && id in run[j].records && !run[j].records[id].granted
      && id in run[m].records && run[m].records[id].granted
    ensures i < j < m
  {
    if j <= i { NothingIsTakenBack(rules, workspace, run, j, i); }
    if m <= j { NothingIsTakenBack(rules, workspace, run, m, j); }
  }

  lemma InTime(rules: Rules, granting: State, using: State, later: State, u: Use)
    requires u.challengeId in using.records && using.records[u.challengeId].granted && RecordsMoveOn(using, later)
    requires u.challengeId in later.records && u.challengeId in later.grants
      && UseOk(rules, later.records[u.challengeId], later.grants[u.challengeId], u)
    requires granting.now == later.grants[u.challengeId].at && using.now == u.at
    ensures var c := using.records[u.challengeId];
      && ItemGranted(c, u.claimId) && Changed(rules, c, u)
      && Parse(c.expiresAt).Some? && Parse(c.tokenExpiresAt).Some?
      && using.now <= Parse(c.expiresAt).value && using.now <= Parse(c.tokenExpiresAt).value
      && granting.now <= using.now <= granting.now + TOKEN_LIFETIME
  {
    assert MovesOn(using.records[u.challengeId], later.records[u.challengeId]);
  }

  lemma UseInRun(rules: Rules, workspace: string, run: seq<State>, n: nat, k: nat)
    requires IsRun(rules, workspace, run) && L.DigestTexts(rules) && InjectiveSum(rules)
    requires n < |run| && k < |run[n].uses|
    ensures var s, u := run[n], run[n].uses[k];
      && u.challengeId in s.records && s.records[u.challengeId].granted && u.challengeId in s.grants
      && UseOk(rules, s.records[u.challengeId], s.grants[u.challengeId], u)
      && (u.challengeId, u.claimId) in s.bound && s.bound[(u.challengeId, u.claimId)] == u.before
  {
    RunInv(rules, workspace, run, n);
    UseAt(rules, Readable(workspace), run[n], k);
  }

  // What the invariant says of one use.
  lemma UseAt(rules: Rules, ok: Challenge -> bool, s: State, k: nat)
    requires ChallengesInv(rules, ok, s) && InjectiveSum(rules) && k < |s.uses|
    ensures var u := s.uses[k];
      && u.challengeId in s.records && s.records[u.challengeId].granted && u.challengeId in s.grants
      && UseOk(rules, s.records[u.challengeId], s.grants[u.challengeId], u)
      && (u.challengeId, u.claimId) in s.bound && s.bound[(u.challengeId, u.claimId)] == u.before
  {
    var u := s.uses[k];
    assert UseOk(rules, s.records[u.challengeId], s.grants[u.challengeId], u);
    assert Binds(rules, s.records[u.challengeId], s.bound, u.claimId);
  }

  // A challenge is consumed at most once, changes no claim twice, and changes only claims it
  // binds; a single-claim challenge makes at most one change.
  lemma AtMostOneApply(rules: Rules, workspace: string, run: seq<State>, n: nat)
    requires IsRun(rules, workspace, run) && L.DigestTexts(rules) && n < |run|
    ensures Distinct(run[n].spent)
    ensures forall k :: 0 <= k < |run[n].uses| ==> run[n].uses[k].challengeId in run[n].spent
    ensures forall j, k :: 0 <= j < k < |run[n].uses| && run[n].uses[j].challengeId == run[n].uses[k].challengeId ==>
      run[n].uses[j].claimId != run[n].uses[k].claimId
      && run[n].uses[j].challengeId in run[n].records && run[n].records[run[n].uses[j].challengeId].binding.items != []
  {
    RunInv(rules, workspace, run, n);
    SpentUses(rules, Readable(workspace), run[n]);
  }

  lemma SpentUses(rules: Rules, ok: Challenge -> bool, s: State)
    requires ChallengesInv(rules, ok, s)
    ensures Distinct(s.spent)
    ensures forall k :: 0 <= k < |s.uses| ==> s.uses[k].challengeId in s.spent
    ensures forall j, k :: 0 <= j < k < |s.uses| && s.uses[j].challengeId == s.uses[k].challengeId ==>
      s.uses[j].claimId != s.uses[k].claimId
      && s.uses[j].challengeId in s.records && s.records[s.uses[j].challengeId].binding.items != []
  {
    forall k | 0 <= k < |s.uses|
      ensures s.uses[k].challengeId in s.records && s.records[s.uses[k].challengeId].consumed
      ensures BoundDigest(s.records[s.uses[k].challengeId].binding, s.uses[k].claimId).Some?
    {
      assert UseOk(rules, s.records[s.uses[k].challengeId], s.grants[s.uses[k].challengeId], s.uses[k]);
    }
  }

  lemma ApplyRecords(rules: Rules, s: Store, order: seq<string>, c: Challenge, token: string, o: Options, now: int,
                     late: int)
    requires L.Inv(rules, s, order) && L.AllRecorded(s) && Consumes(rules, s, c, token, o, now, late)
    ensures L.AllRecorded(AfterApply(rules, s, c, o, now))
  {
    if c.binding.operation == REVOKE {
      L.RevokeKeepsRecorded(rules, s, c.binding.claimId, c.binding.revokeReason, o, now);
    } else {
      L.ApproveKeepsRecorded(rules, s, order, c.binding.claimId, o, now);
    }
  }

  lemma BatchRecords(rules: Rules, workspace: string, s: State, t: Store, id: string, committed: seq<bool>, o: Options,
                     at: int)
    requires Inv(rules, workspace, s) && L.AllRecorded(s.claims) && id in s.records
    requires BatchChanges(rules, s.claims, t, s.records[id], committed, o, at) && s.records[id].binding.items != []
    ensures L.AllRecorded(t)
  {
    assert Readable(workspace)(s.records[id]);
    BatchPromotes(rules, s.claims, t, s.records[id], committed, o, at);
    forall x | x in t ensures L.Recorded(t[x]) {
      if x in ChangedIds(s.records[id].binding.items, committed) {
        L.PromotionRecords(rules, s.claims[x], o, at);
        L.ApprovalIsRecorded(rules, s.claims[x], t[x], o, at);
      }
    }
  }

  lemma StepKeepsRecorded(rules: Rules, workspace: string, s: State, t: State, step: Step)
    requires Inv(rules, workspace, s) && L.AllRecorded(s.claims) && NextBy(rules, workspace, s, t, step)
    ensures L.AllRecorded(t.claims)
  {
    match step
    case ApproveDirect(id, o) => L.ApproveKeepsRecorded(rules, s.claims, s.order, id, o, s.now);
    case RevokeDirect(id, reason, o) => L.RevokeKeepsRecorded(rules, s.claims, id, reason, o, s.now);
    case Apply(id, token, o, late, outcome) =>
      if t.claims != s.claims {
        ApplyRecords(rules, s.claims, s.order, s.records[id], token, o, s.now, late);
      }
    case ApplyBatch(id, token, o, late, outcomes, committed) =>
      if t.claims != s.claims {
        TurnsChange(rules, s.claims, t.claims, s.records[id], committed, outcomes, o, late);
        BatchRecords(rules, workspace, s, t.claims, id, committed, o, late);
      }
    case WriteDraft(c) =>
    case PrepareChallenge(p, id) => assert t.claims == s.claims;
    case PrepareBatchChallenge(items, id) => assert t.claims == s.claims;
    case GrantSingle(id, token) => assert t.claims == s.claims;
    case GrantBatch(id, granted, skipped, token) => assert t.claims == s.claims;
    case Tick(later) => assert t.claims == s.claims;
  }

  lemma {:induction false} RunRecords(rules: Rules, workspace: string, run: seq<State>, n: nat)
    requires IsRun(rules, workspace, run) && L.DigestTexts(rules) && n < |run|
    ensures L.AllRecorded(run[n].claims)
  {
    if n > 0 {
      RunRecords(rules, workspace, run, n - 1);
      RunInv(rules, workspace, run, n - 1);
      var step := RunStep(rules, workspace, run, n - 1);
      StepKeepsRecorded(rules, workspace, run[n - 1], run[n], step);
    }
  }

  ghost predicate LinkedTo(s: Store, x: string, prior: string)
    requires x in s
  {
    && L.HasApproval(s[x])
    && (prior in L.ApprovalOf(s[x]).relatedClaimIds <==>
          && prior in s && s[prior].status == L.Superseded
          && s[prior].transitions != [] && L.LastTransition(s[prior]).relatedClaimIds == [x])
  }

  // In every reachable store each approved claim verifies, and each claim later revoked or
  // superseded verifies again once its last transition is dropped; what is superseded was
  // superseded by exactly one other claim. The entry of its approval names exactly the claims
  // whose last entry names it.
  lemma AttestationsSurvive(rules: Rules, workspace: string, run: seq<State>, n: nat, x: string)
    requires IsRun(rules, workspace, run) && L.DigestTexts(rules) && n < |run| && x in run[n].claims
    ensures L.Attested(rules, run[n].claims[x])
    ensures run[n].claims[x].status == L.Superseded ==>
      exists y :: y in run[n].claims && L.Settled(run[n].claims[y]) && x in run[n].claims[y].supersedes && y != x
        && forall z :: z in run[n].claims && L.Settled(run[n].claims[z]) && x in run[n].claims[z].supersedes ==> z == y
    ensures L.Settled(run[n].claims[x]) ==> forall prior :: LinkedTo(run[n].claims, x, prior)
  {
    RunInv(rules, workspace, run, n);
    RunRecords(rules, workspace, run, n);
    if L.Settled(run[n].claims[x]) {
      forall prior ensures LinkedTo(run[n].claims, x, prior) {
        L.LinkedBothWays(rules, run[n].claims, run[n].order, x, prior);
      }
    }
    if run[n].claims[x].status == L.Superseded {
      L.SupersededByExactlyOne(rules, run[n].claims, run[n].order, x);
    }
  }
}
