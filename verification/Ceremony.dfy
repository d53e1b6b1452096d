/** Applying a granted challenge: the checks against the claim as it is now, the consumption
    of the token, and the lifecycle change, under one lock. */
module Ceremony {
  import opened Wrappers
  import opened Clock
  import opened Ordering
  import opened Identifiers
  import opened ChallengeEncoding
  import opened ChallengeRecord
  import L = Lifecycle
  import CS = ChallengeStore

  type Rules = L.Rules
  type Claim = L.Claim
  type Store = L.Store
  type Options = L.Options

  // ----- the checks against the canonical claim -----

  predicate AgainstClaim(rules: Rules, s: Store, b: ChallengePrepare, claim: Claim) {
    var superseded := Sort(claim.supersedes);
    && b.claimId == claim.id
    && rules.valid(claim)
    && !IsBlank(b.canonicalDraftDigest) && b.canonicalDraftDigest == rules.sum(claim)
    && Sort(b.supersededIds) == superseded
    && (if b.operation == APPROVE then
          claim.status.Draft? && superseded == [] && b.priorVerificationDigest == "" && b.revokeReason == ""
        else if b.operation == SUPERSEDE then
          && claim.status.Draft? && superseded != []
          && L.Supersedable(rules, s, superseded[0])
          && b.priorVerificationDigest == s[superseded[0]].verifiedDigest && b.revokeReason == ""
        else
          && b.operation == REVOKE
          && claim.status.Approved? && L.Verifies(rules, claim)
          && b.priorVerificationDigest == claim.verifiedDigest && !IsBlank(b.revokeReason))
  }

  predicate AuthorizationMatches(o: Options, c: Challenge) {
    o.authorization.Some? ==> o.authorization.value.challengeId == c.id
  }

  // Everything `apply` checks before it consumes the token.
  predicate Applicable(rules: Rules, s: Store, c: Challenge, token: string, o: Options, now: int) {
    && TokenAccepted(c, token, now)
    && c.binding.claimId in s && AgainstClaim(rules, s, c.binding, s[c.binding.claimId])
    && AuthorizationMatches(o, c)
  }

  // The checks pass exactly for the token of an owner-granted, unconsumed challenge within both
  // expiries, and a claim that is byte for byte the bound one and bound to supersede the same
  // claims; an approval is of a draft that supersedes nothing, a supersession of a draft whose
  // first superseded claim still has the bound digest, a revocation of an approved claim that
  // verifies against the bound digest.
  lemma ApplicableExactly(rules: Rules, s: Store, c: Challenge, token: string, o: Options, now: int)
    ensures Applicable(rules, s, c, token, o, now) <==>
      && c.granted && !c.consumed && c.tokenSha256 == HashOf(token)
      && Parse(c.expiresAt).Some? && now <= Parse(c.expiresAt).value
      && Parse(c.tokenExpiresAt).Some? && now <= Parse(c.tokenExpiresAt).value
      && (o.authorization.Some? ==> o.authorization.value.challengeId == c.id)
      && c.binding.claimId in s && BoundTo(rules, s, c.binding, s[c.binding.claimId])
  {
    if c.binding.claimId in s { BoundIff(rules, s, c.binding, s[c.binding.claimId]); }
  }

  ghost predicate BoundTo(rules: Rules, s: Store, b: ChallengePrepare, claim: Claim) {
    && claim.id == b.claimId && rules.valid(claim)
    && rules.sum(claim) == b.canonicalDraftDigest && !IsBlank(b.canonicalDraftDigest)
    && multiset(b.supersededIds) == multiset(claim.supersedes)
    && ((b.operation == APPROVE && claim.status == L.Draft && claim.supersedes == []
         && b.priorVerificationDigest == "" && b.revokeReason == "")
        || (b.operation == SUPERSEDE && claim.status == L.Draft && claim.supersedes != [] && b.revokeReason == ""
            && exists first :: LeastOf(claim.supersedes, first) && first in s && s[first].status == L.Approved
                 && L.DigestHolds(rules, s[first]) && s[first].verifiedDigest == b.priorVerificationDigest)
        || (b.operation == REVOKE && claim.status == L.Approved && L.DigestHolds(rules, claim)
            && claim.verifiedDigest == b.priorVerificationDigest && !IsBlank(b.revokeReason)))
  }

  ghost predicate LeastOf(ids: seq<string>, first: string) {
    first in ids && forall id :: id in ids ==> Le(first, id)
  }

  lemma BoundIff(rules: Rules, s: Store, b: ChallengePrepare, claim: Claim)
    ensures AgainstClaim(rules, s, b, claim) <==> BoundTo(rules, s, b, claim)
  {
    SortByContents(b.supersededIds, claim.supersedes);
    NothingSuperseded(claim.supersedes);
    if claim.supersedes != [] {
      SortedFirst(claim.supersedes);
      forall first | LeastOf(claim.supersedes, first) ensures first == Sort(claim.supersedes)[0] {
        OnlyLeast(claim.supersedes, first);
      }
    }
  }

  lemma SortedFirst(ids: seq<string>)
    requires ids != []
    ensures Sort(ids) != [] && LeastOf(ids, Sort(ids)[0])
  {
    var sorted := Sort(ids);
    SortSorts(ids, Self);
    SortMembers(ids, Self, sorted[0]);
    forall id | id in ids ensures Le(sorted[0], id) {
      SortMembers(ids, Self, id);
      var i :| 0 <= i < |sorted| && sorted[i] == id;
      if i == 0 { LeTotal(id, id); }
    }
  }

  lemma OnlyLeast(ids: seq<string>, first: string)
    requires ids != [] && LeastOf(ids, first)
    ensures Sort(ids) != [] && first == Sort(ids)[0]
  {
    SortedFirst(ids);
    LeAntisymmetric(first, Sort(ids)[0]);
  }

  // The change the challenge asks for, if it can be planned.
  function Planned(rules: Rules, s: Store, c: Challenge, o: Options, now: int): Option<L.Plan> {
    if c.binding.operation == REVOKE then PlannedRevoke(rules, s, c.binding.claimId, c.binding.revokeReason, o, now)
    else L.PrepareApprove(rules, s, c.binding.claimId, o, now)
  }

  function PlannedRevoke(rules: Rules, s: Store, id: string, reason: string, o: Options, now: int): Option<L.Plan> {
    match L.PrepareRevoke(rules, s, id, reason, o, now)
    case None => None
    case Some(claim) => Some(L.Plan.Plan(claim, []))
  }

  function AfterApply(rules: Rules, s: Store, c: Challenge, o: Options, now: int): Store
    requires Planned(rules, s, c, o, now).Some?
  {
    L.Commit(s, Planned(rules, s, c, o, now).value)
  }

  // Consumed: everything up to and including the consumption at time `late` went through.
  predicate Consumes(rules: Rules, s: Store, c: Challenge, token: string, o: Options, now: int, late: int) {
    Applicable(rules, s, c, token, o, now) && Planned(rules, s, c, o, now).Some? && TokenAccepted(c, token, late)
  }

  // A token of an owner-granted challenge that is good at both times.
  ghost predicate GoodThrough(c: Challenge, token: string, now: int, late: int) {
    && c.granted && !c.consumed && c.tokenSha256 == HashOf(token)
    && Parse(c.expiresAt).Some? && Parse(c.tokenExpiresAt).Some?
    && now <= Parse(c.expiresAt).value && now <= Parse(c.tokenExpiresAt).value
    && late <= Parse(c.expiresAt).value && late <= Parse(c.tokenExpiresAt).value
  }

  // A challenge of one claim is consumed exactly with a token that is good at both times, for a
  // claim that is still the bound one, when the change can be planned; a revocation always can,
  // unless the authorization is malformed.
  lemma ConsumedExactly(rules: Rules, s: Store, c: Challenge, token: string, o: Options, now: int, late: int)
    ensures Consumes(rules, s, c, token, o, now, late) <==>
      && GoodThrough(c, token, now, late)
      && (o.authorization.Some? ==> o.authorization.value.challengeId == c.id)
      && c.binding.claimId in s && BoundTo(rules, s, c.binding, s[c.binding.claimId])
      && (if c.binding.operation == "revoke" then
            o.authorization.Some? ==>
              var a := o.authorization.value;
              IsChallengeId(a.challengeId) && !IsBlank(a.method_) && !IsBlank(a.client)
          else L.PrepareApprove(rules, s, c.binding.claimId, o, now).Some?)
  {
    ApplicableExactly(rules, s, c, token, o, now);
  }

  // A batch is consumed exactly with such a token; its items are looked at one by one after that.
  lemma BatchConsumedExactly(c: Challenge, token: string, o: Options, now: int, late: int)
    ensures BatchConsumes(c, token, o, now, late) <==>
      && c.binding.items != [] && GoodThrough(c, token, now, late)
      && (o.authorization.Some? ==> o.authorization.value.challengeId == c.id)
  {
  }

  // ----- what one item of a batch binds -----

  function ItemBinding(workspace: string, item: ChallengeItem): ChallengePrepare {
    ChallengePrepare(workspace, APPROVE, item.claimId, item.canonicalDraftDigest, [], "", "", [])
  }

  predicate ItemStands(rules: Rules, s: Store, workspace: string, item: ChallengeItem) {
    item.claimId in s && AgainstClaim(rules, s, ItemBinding(workspace, item), s[item.claimId])
  }

  datatype ItemStatus = Pending | Applied | Skipped | Failed

  datatype ItemResult = ItemResult(claimId: string, status: ItemStatus)

  // The approved document of a draft that supersedes nothing.
  function ApprovedOf(rules: Rules, draft: Claim, o: Options, now: int): Claim {
    L.Signed(rules, L.Promoted(rules, draft, o, now))
  }

  // `committed` says that the file of the item was replaced; an item can still be reported
  // as failed after that.
  ghost predicate ItemOutcome(rules: Rules, s: Store, t: Store, c: Challenge, item: ChallengeItem, r: ItemResult,
                              committed: bool, o: Options, now: int) {
    && r.claimId == item.claimId
    && (r.status.Applied? || r.status.Skipped? || r.status.Failed?)
    && (r.status.Skipped? <==> item.claimId in c.skippedItems)
    && (r.status.Applied? ==> committed)
    && (committed ==>
          && !r.status.Skipped?
          && ItemStands(rules, s, c.binding.workspace, item)
          && item.claimId in t && t[item.claimId] == ApprovedOf(rules, s[item.claimId], o, now)
          && t[item.claimId].status.Approved? && L.Verifies(rules, t[item.claimId]))
    && (!committed ==>
          (item.claimId in t <==> item.claimId in s) && (item.claimId in s ==> t[item.claimId] == s[item.claimId]))
  }

  // One result for each bound item, in order; only committed items changed, and those from
  // exactly the draft whose digest was bound.
  ghost predicate BatchOutcome(rules: Rules, s: Store, t: Store, c: Challenge, results: seq<ItemResult>,
                               committed: seq<bool>, o: Options, now: int)
  {
    var items := c.binding.items;
    && |results| == |items| && |committed| == |items|
    && (forall i :: 0 <= i < |items| ==> ItemOutcome(rules, s, t, c, items[i], results[i], committed[i], o, now))
    && (forall id :: id !in ClaimIds(items) ==> (id in t <==> id in s) && (id in s ==> t[id] == s[id]))
  }

  // The approval can be planned, and its document is valid where it is rendered.
  predicate Plannable(rules: Rules, u: Store, id: string, o: Options, at: int) {
    var plan := L.PrepareApprove(rules, u, id, o, at);
    plan.Some? && rules.valid(plan.value.claim)
  }

  // The turn of an item, from the store it finds to the store it leaves: it commits exactly
  // when the item was not skipped, stood when the batch was checked, can be planned now, and
  // its write goes through; it is applied exactly when that write is reported too.
  ghost predicate TurnOf(rules: Rules, s: Store, u: Store, w: Store, c: Challenge, item: ChallengeItem, r: ItemResult,
                         committed: bool, outcome: L.CommitOutcome, o: Options, at: int)
  {
    && (committed <==>
          && item.claimId !in c.skippedItems && ItemStands(rules, s, c.binding.workspace, item)
          && Plannable(rules, u, item.claimId, o, at) && !outcome.NotCommitted?)
    && (r.status.Applied? <==> committed && outcome.Reported?)
    && (if committed then item.claimId in u && w == u[item.claimId := ApprovedOf(rules, u[item.claimId], o, at)]
        else w == u)
  }

  // The first n turns, with the stores between them.
  ghost predicate Turns(rules: Rules, c: Challenge, stores: seq<Store>, results: seq<ItemResult>, committed: seq<bool>,
                        outcomes: seq<L.CommitOutcome>, n: nat, o: Options, at: int)
  {
    var items := c.binding.items;
    && n <= |items| && |stores| == n + 1 && |results| == n && |committed| == n && |outcomes| == |items|
    && forall k :: 0 <= k < n ==>
         TurnOf(rules, stores[0], stores[k], stores[k + 1], c, items[k], results[k], committed[k], outcomes[k], o, at)
  }

  lemma TurnsStep(rules: Rules, c: Challenge, stores: seq<Store>, results: seq<ItemResult>, committed: seq<bool>,
                  outcomes: seq<L.CommitOutcome>, n: nat, o: Options, at: int, w: Store, r: ItemResult, done: bool)
    requires Turns(rules, c, stores, results, committed, outcomes, n, o, at) && n < |c.binding.items|
    requires TurnOf(rules, stores[0], stores[n], w, c, c.binding.items[n], r, done, outcomes[n], o, at)
    ensures Turns(rules, c, stores + [w], results + [r], committed + [done], outcomes, n + 1, o, at)
  {
  }

  // An item that was granted, stands at the check, can be planned in the store its turn finds
  // and whose write is reported is applied, and no other; what was committed is the approved
  // form of exactly the draft that was checked.
  lemma GrantedIsApplied(rules: Rules, workspace: string, c: Challenge, stores: seq<Store>, results: seq<ItemResult>,
                         committed: seq<bool>, outcomes: seq<L.CommitOutcome>, o: Options, at: int, i: nat)
    requires RecordOk(workspace, c) && c.granted && i < |c.binding.items|
    requires Turns(rules, c, stores, results, committed, outcomes, |c.binding.items|, o, at)
    requires BatchOutcome(rules, stores[0], stores[|c.binding.items|], c, results, committed, o, at)
    ensures var id, s, t := c.binding.items[i].claimId, stores[0], stores[|c.binding.items|];
      && (results[i].status.Applied? <==>
            && id in c.grantedItems && ItemStands(rules, s, c.binding.workspace, c.binding.items[i])
            && Plannable(rules, stores[i], id, o, at) && outcomes[i].Reported?)
      && (committed[i] ==> id in s && id in t && L.ApprovedFrom(rules, s[id], t[id], o, at))
      && (!committed[i] && id in s ==> id in t && t[id] == s[id])
  {
    var items := c.binding.items;
    var n := |items|;
    OnlyGrantedChange(rules, workspace, stores[0], stores[n], c, results, committed, o, at, i);
    assert TurnOf(rules, stores[0], stores[i], stores[i + 1], c, items[i], results[i], committed[i], outcomes[i], o,
      at);
    assert ItemOutcome(rules, stores[0], stores[n], c, items[i], results[i], committed[i], o, at);
    if committed[i] { L.PromotionRecords(rules, stores[0][items[i].claimId], o, at); }
  }

  // What the owner decided about an item against what became of it.
  predicate GrantDecides(c: Challenge, i: nat, r: ItemResult, committed: bool)
    requires i < |c.binding.items|
  {
    var id := c.binding.items[i].claimId;
    && (r.status.Skipped? <==> id in c.skippedItems)
    && (id in c.grantedItems <==> !r.status.Skipped?)
    && (r.status.Applied? ==> committed)
    && (committed ==> id in c.grantedItems && id !in c.skippedItems)
  }

  // Only what the owner granted changes, and only what the owner granted is applied or fails:
  // by the record check, the items that are not skipped are exactly the granted ones.
  lemma OnlyGrantedChange(rules: Rules, workspace: string, s: Store, t: Store, c: Challenge, results: seq<ItemResult>,
                          committed: seq<bool>, o: Options, now: int, i: nat)
    requires RecordOk(workspace, c) && c.granted && c.binding.items != []
    requires BatchOutcome(rules, s, t, c, results, committed, o, now) && i < |results|
    ensures GrantDecides(c, i, results[i], committed[i])
  {
    var items := c.binding.items;
    PartitionCovers(items, c.grantedItems, c.skippedItems);
    assert ClaimIds(items)[i] == items[i].claimId;
    assert ItemOutcome(rules, s, t, c, items[i], results[i], committed[i], o, now);
  }

  lemma PlanOfLoneDraft(rules: Rules, s: Store, id: string, o: Options, now: int)
    requires L.DigestTexts(rules) && L.PrepareApprove(rules, s, id, o, now).Some? && s[id].supersedes == []
      && s[id].id == id
    ensures var plan := L.PrepareApprove(rules, s, id, o, now).value;
      L.Commit(s, plan) == s[id := ApprovedOf(rules, s[id], o, now)]
      && L.Verifies(rules, ApprovedOf(rules, s[id], o, now)) && ApprovedOf(rules, s[id], o, now).status.Approved?
  {
    L.ApprovedVerifies(rules, s, id, o, now);
  }

  lemma NothingSuperseded(ids: seq<string>)
    ensures Sort(ids) == [] <==> ids == []
  {
    SortSorts(ids, Self);
  }

  ghost predicate Keyed(s: Store) {
    forall id :: id in s ==> s[id].id == id
  }

  lemma {:induction false} PutAllKeyed(s: Store, claims: seq<Claim>)
    requires Keyed(s)
    ensures Keyed(L.PutAll(s, claims))
    decreases |claims|
  {
    if claims != [] { PutAllKeyed(s[claims[0].id := claims[0]], claims[1..]); }
  }

  lemma CommitKeyed(s: Store, plan: L.Plan)
    requires Keyed(s)
    ensures Keyed(L.Commit(s, plan))
  {
    PutAllKeyed(s[plan.claim.id := plan.claim], plan.olds);
  }

  // ----- the claim store -----

  class ClaimStore {
    const rules: Rules
    const challenges: CS.ChallengeStore
    var claims: Store

    ghost predicate Valid()
      reads this, challenges
    {
      challenges.Valid() && Keyed(claims)
    }

    constructor (rules: Rules, challenges: CS.ChallengeStore)
      requires challenges.Valid()
      ensures Valid() && claims == map[] && this.rules == rules && this.challenges == challenges
    {
      this.rules := rules;
      this.challenges := challenges;
      claims := map[];
    }

    // Refusals first, then the documents: the draft is promoted and signed, each claim it
    // supersedes gets its last transition.
    method PrepareApprove(id: string, o: Options, now: int) returns (plan: Option<L.Plan>)
      requires Valid()
      ensures plan == L.PrepareApprove(rules, claims, id, o, now)
      ensures plan.Some? ==> L.PlanOf(rules, claims, id, o, now, plan.value)
    {
      if !L.AuthorizationOk(o.authorization) || id !in claims { return None; }
      var claim := claims[id];
      if !claim.status.Draft? || !rules.valid(claim) || !rules.basisOk(claim) || !rules.referencesOk(claims, claim) {
        return None;
      }
      var ids := claim.supersedes;
      var seen: set<string> := {};
      for i := 0 to |ids|
        invariant seen == set k | 0 <= k < i :: ids[k]
        invariant forall j, k :: 0 <= j < k < i ==> ids[j] != ids[k]
        invariant forall k :: 0 <= k < i ==> L.Supersedable(rules, claims, ids[k])
      {
        assert ids[i] in ids;
        if ids[i] in seen {
          var k :| 0 <= k < i && ids[k] == ids[i];
          return None;
        }
        seen := seen + {ids[i]};
        if !L.Supersedable(rules, claims, ids[i]) { return None; }
      }
      var promoted := L.Promoted(rules, claim, o, now);
      if !rules.valid(L.Unsigned(promoted)) { return None; }
      claim := L.Signed(rules, promoted);
      if ids != [] && !rules.valid(claim) { return None; }
      var olds := [];
      for i := 0 to |ids|
        invariant olds == L.ReplacedAll(claims, ids, claim, o, now)[..i]
        invariant forall k :: 0 <= k < i ==> rules.valid(olds[k])
      {
        var replaced := L.Replaced(claims[ids[i]], claim, o, now);
        assert L.ReplacedAll(claims, ids, claim, o, now)[i] == replaced;
        if !rules.valid(replaced) { return None; }
        olds := olds + [replaced];
      }
      assert olds == L.ReplacedAll(claims, ids, claim, o, now);
      L.ApprovalPlan(rules, claims, id, o, now);
      return Some(L.Plan.Plan(claim, olds));
    }

    // A draft is written over nothing but a draft. Here too a call can fail behind the rename.
    method WriteDraft(c: Claim, outcome: L.CommitOutcome) returns (ok: bool)
      requires Valid()
      modifies this
      ensures Valid() && ok == (L.DraftAccepted(rules, old(claims), c) && outcome.Reported?)
      ensures claims == if L.DraftAccepted(rules, old(claims), c) && !outcome.NotCommitted?
                        then old(claims)[c.id := L.Drafted(rules, old(claims), c)] else old(claims)
    {
      var draft := c.(status := L.Draft, verifiedAt := NoTime, verifiedBy := "", verifiedDigest := "", sources := [],
                      contradicts := rules.contradictionsOf(claims, c));
      if !IsClaimId(c.id) || !rules.valid(draft) { return false; }
      if c.id in claims && !claims[c.id].status.Draft? { return false; }
      if outcome.NotCommitted? { return false; }
      claims := claims[c.id := draft];
      return outcome.Reported?;
    }

    method WriteSupersedingDraft(currentId: string, replacement: Claim, outcome: L.CommitOutcome) returns (ok: bool)
      requires Valid()
      modifies this
      ensures Valid()
      ensures var c := replacement.(supersedes := L.AppendUnique(replacement.supersedes, currentId));
        var accepted := currentId in old(claims) && old(claims)[currentId].status.Approved?
          && L.DraftAccepted(rules, old(claims), c);
        && ok == (accepted && outcome.Reported?)
        && claims == (if accepted && !outcome.NotCommitted? then old(claims)[c.id := L.Drafted(rules, old(claims), c)]
                      else old(claims))
      ensures ok ==>
        && replacement.id != currentId && currentId in claims[replacement.id].supersedes
        && replacement.supersedes <= claims[replacement.id].supersedes
        && (forall x :: x in claims[replacement.id].supersedes <==> x in replacement.supersedes || x == currentId)
        && (Distinct(replacement.supersedes) ==> Distinct(claims[replacement.id].supersedes))
    {
      if currentId !in claims || !claims[currentId].status.Approved? { return false; }
      ok := WriteDraft(replacement.(supersedes := L.AppendUnique(replacement.supersedes, currentId)), outcome);
    }

    // A call that reports a failure has changed the claims exactly when it had been planned and
    // had passed its commit point: the rename of a lone file, or the link of the journal, which
    // the next session then replays. `claims` is what is read through a pending journal.
    method Approve(id: string, o: Options, now: int, outcome: L.CommitOutcome) returns (ok: bool)
      requires Valid()
      modifies this
      ensures Valid()
      ensures var plan := L.PrepareApprove(rules, old(claims), id, o, now);
        && ok == (plan.Some? && L.Written(rules, plan.value, outcome) && outcome.Reported?)
        && claims == if plan.Some? then L.Landed(rules, old(claims), plan.value, outcome) else old(claims)
    {
      var plan := PrepareApprove(id, o, now);
      if plan.None? || !L.Written(rules, plan.value, outcome) { return false; }
      CommitKeyed(claims, plan.value);
      claims := L.Commit(claims, plan.value);
      return outcome.Reported?;
    }

    method PrepareRevoke(id: string, reason: string, o: Options, now: int) returns (plan: Option<L.Plan>)
      requires Valid()
      ensures plan == PlannedRevoke(rules, claims, id, reason, o, now)
    {
      if !L.AuthorizationOk(o.authorization) || id !in claims || IsBlank(reason) { return None; }
      var c := claims[id];
      if !c.status.Approved? || !L.Verifies(rules, c) { return None; }
      c := c.(status := L.Revoked,
              transitions := c.transitions + [L.Transition(
                L.RevokeKind, Rfc3339(now), L.Normalized(o).verifiedBy, Trim(reason), [c.id], c.verifiedDigest,
                o.authorization)]);
      return Some(L.Plan.Plan(c, []));
    }

    method Revoke(id: string, reason: string, o: Options, now: int, outcome: L.CommitOutcome) returns (ok: bool)
      requires Valid()
      modifies this
      ensures Valid()
      ensures var plan := PlannedRevoke(rules, old(claims), id, reason, o, now);
        && ok == (plan.Some? && L.Written(rules, plan.value, outcome) && outcome.Reported?)
        && claims == if plan.Some? then L.Landed(rules, old(claims), plan.value, outcome) else old(claims)
    {
      var plan := PrepareRevoke(id, reason, o, now);
      if plan.None? || !L.Written(rules, plan.value, outcome) { return false; }
      CommitKeyed(claims, plan.value);
      claims := L.Commit(claims, plan.value);
      return outcome.Reported?;
    }

    method CheckApply(id: string, token: string, o: Options, now: int) returns (ok: bool)
      requires Valid()
      ensures ok == (id in challenges.records && Applicable(rules, claims, challenges.records[id], token, o, now))
    {
      if id !in challenges.records { return false; }
      var c := challenges.records[id];
      if !TokenAccepted(c, token, now) { return false; }
      if c.binding.claimId !in claims { return false; }
      if !AgainstClaim(rules, claims, c.binding, claims[c.binding.claimId]) { return false; }
      return AuthorizationMatches(o, c);
    }

    method PlanApply(c: Challenge, o: Options, now: int) returns (plan: Option<L.Plan>)
      requires Valid()
      ensures plan == Planned(rules, claims, c, o, now)
    {
      if c.binding.operation == REVOKE {
        plan := PrepareRevoke(c.binding.claimId, c.binding.revokeReason, o, now);
      } else {
        plan := PrepareApprove(c.binding.claimId, o, now);
      }
    }

    // The token is consumed before the commit, so it is spent even when the commit fails.
    method ApplyChallenge(id: string, token: string, o: Options, now: int, late: int, outcome: L.CommitOutcome)
      returns (consumed: bool, applied: bool)
      requires Valid() && now <= late
      modifies this, challenges
      ensures Valid()
      ensures consumed == (id in old(challenges.records)
        && Consumes(rules, old(claims), old(challenges.records)[id], token, o, now, late))
      ensures challenges.records ==
        if consumed then old(challenges.records)[id := old(challenges.records)[id].(consumed := true)]
        else old(challenges.records)
      ensures !consumed ==> !applied && claims == old(claims)
      ensures consumed ==> var plan := Planned(rules, old(claims), old(challenges.records)[id], o, now).value;
        && applied == (L.Written(rules, plan, outcome) && outcome.Reported?)
        && claims == L.Landed(rules, old(claims), plan, outcome)
    {
      var ok := CheckApply(id, token, o, now);
      if !ok { return false, false; }
      var plan := PlanApply(challenges.records[id], o, now);
      if plan.None? { return false, false; }
      consumed := challenges.Consume(id, token, late);
      if !consumed || !L.Written(rules, plan.value, outcome) { return consumed, false; }
      CommitKeyed(claims, plan.value);
      claims := L.Commit(claims, plan.value);
      return true, outcome.Reported?;
    }

    // First pass: items that are skipped or no longer stand get their result; the others
    // stay pending.
    method CheckItems(c: Challenge) returns (results: seq<ItemResult>)
      requires Valid()
      ensures |results| == |c.binding.items|
      ensures forall i :: 0 <= i < |results| ==> results[i] == Checked(rules, claims, c, c.binding.items[i])
    {
      results := [];
      for i := 0 to |c.binding.items|
        invariant |results| == i
        invariant forall k :: 0 <= k < i ==> results[k] == Checked(rules, claims, c, c.binding.items[k])
      {
        var item := c.binding.items[i];
        if item.claimId in c.skippedItems {
          results := results + [ItemResult(item.claimId, Skipped)];
        } else if !ItemStands(rules, claims, c.binding.workspace, item) {
          results := results + [ItemResult(item.claimId, Failed)];
        } else {
          results := results + [ItemResult(item.claimId, Pending)];
        }
      }
    }

    // Second pass, one item: approve it if it is still pending.
    method ApplyItem(item: ChallengeItem, checked: ItemResult, o: Options, at: int, outcome: L.CommitOutcome)
      returns (r: ItemResult, ghost committed: bool)
      requires Valid() && L.DigestTexts(rules)
      requires checked.status.Pending? ==> item.claimId in claims && claims[item.claimId].supersedes == []
      modifies this
      ensures Valid() && challenges.records == old(challenges.records)
      ensures r.claimId == checked.claimId
      ensures !checked.status.Pending? ==> r == checked && !committed
      ensures checked.status.Pending? ==> r.status == if committed && outcome.Reported? then Applied else Failed
      ensures committed <==>
        checked.status.Pending? && Plannable(rules, old(claims), item.claimId, o, at) && !outcome.NotCommitted?
      ensures !committed ==> claims == old(claims)
      ensures committed ==>
        && claims == old(claims)[item.claimId := ApprovedOf(rules, old(claims)[item.claimId], o, at)]
        && claims[item.claimId].status.Approved? && L.Verifies(rules, claims[item.claimId])
    {
      if !checked.status.Pending? { return checked, false; }
      var plan := PrepareApprove(item.claimId, o, at);
      if plan.None? || !L.Written(rules, plan.value, outcome) { return ItemResult(checked.claimId, Failed), false; }
      PlanOfLoneDraft(rules, claims, item.claimId, o, at);
      CommitKeyed(claims, plan.value);
      claims := L.Commit(claims, plan.value);
      return ItemResult(checked.claimId, if outcome.Reported? then Applied else Failed), true;
    }

    method ApplyChallengeBatch(id: string, token: string, o: Options, now: int, late: int,
                               outcomes: seq<L.CommitOutcome>)
      returns (ok: bool, results: seq<ItemResult>, ghost committed: seq<bool>, ghost stores: seq<Store>)
      requires Valid() && L.DigestTexts(rules)
      requires id in challenges.records ==> |outcomes| == |challenges.records[id].binding.items|
      modifies this, challenges
      ensures Valid()
      ensures ok == (id in old(challenges.records) && BatchConsumes(old(challenges.records)[id], token, o, now, late))
      ensures challenges.records ==
        if ok then old(challenges.records)[id := old(challenges.records)[id].(consumed := true)]
          else old(challenges.records)
      ensures !ok ==> claims == old(claims)
      ensures ok ==> BatchOutcome(rules, old(claims), claims, old(challenges.records)[id], results, committed, o, late)
      ensures ok ==> forall i :: 0 <= i < |results| ==>
        GrantDecides(old(challenges.records)[id], i, results[i], committed[i])
      ensures ok ==> var c := old(challenges.records)[id];
        && Turns(rules, c, stores, results, committed, outcomes, |c.binding.items|, o, late)
        && stores[0] == old(claims) && stores[|c.binding.items|] == claims
    {
      results, committed, stores := [], [], [claims];
      ok := false;
      if id !in challenges.records { return; }
      var c := challenges.records[id];
      var items := c.binding.items;
      if items == [] || !TokenAccepted(c, token, now) || !AuthorizationMatches(o, c) { return; }
      var checked := CheckItems(c);
      ok := challenges.Consume(id, token, late);
      if !ok { return; }
      ghost var before := claims;
      for i := 0 to |items|
        invariant Progress(rules, before, claims, c, results, committed, i, o, late)
        invariant Turns(rules, c, stores, results, committed, outcomes, i, o, late)
        invariant stores[0] == before && stores[i] == claims
        invariant challenges.records == old(challenges.records)[id := c.(consumed := true)] && Valid()
      {
        ghost var mid := claims;
        ProgressItem(rules, before, mid, c, results, committed, i, o, late);
        var r; ghost var done;
        r, done := ApplyItem(items[i], checked[i], o, late, outcomes[i]);
        ProgressStep(rules, before, mid, claims, c, results, committed, i, r, done, o, late);
        TurnsStep(rules, c, stores, results, committed, outcomes, i, o, late, claims, r, done);
        results, committed, stores := results + [r], committed + [done], stores + [claims];
      }
      assert items[..|items|] == items;
      forall i | 0 <= i < |items| ensures GrantDecides(c, i, results[i], committed[i]) {
        OnlyGrantedChange(rules, challenges.workspace, before, claims, c, results, committed, o, late, i);
      }
    }
  }

  predicate BatchConsumes(c: Challenge, token: string, o: Options, now: int, late: int) {
    c.binding.items != [] && TokenAccepted(c, token, now) && AuthorizationMatches(o, c) && TokenAccepted(c, token, late)
  }

  // The first i items are done, everything else is as it was.
  ghost predicate Progress(rules: Rules, s: Store, t: Store, c: Challenge, results: seq<ItemResult>,
                           committed: seq<bool>, i: nat, o: Options, at: int)
    requires i <= |c.binding.items|
  {
    var items := c.binding.items;
    && |results| == i && |committed| == i
    && (forall k :: 0 <= k < i ==> ItemOutcome(rules, s, t, c, items[k], results[k], committed[k], o, at))
    && (forall x :: x !in ClaimIds(items[..i]) ==> (x in t <==> x in s) && (x in s ==> t[x] == s[x]))
  }

  // An item whose turn comes finds its claim as it was when the batch was checked.
  lemma ProgressItem(rules: Rules, s: Store, t: Store, c: Challenge, results: seq<ItemResult>, committed: seq<bool>,
                     i: nat, o: Options, at: int)
    requires i < |c.binding.items| && Distinct(ClaimIds(c.binding.items))
    requires Progress(rules, s, t, c, results, committed, i, o, at)
    ensures var item := c.binding.items[i];
      && (item.claimId in t <==> item.claimId in s) && (item.claimId in s ==> t[item.claimId] == s[item.claimId])
      && (Checked(rules, s, c, item).status.Pending? ==> item.claimId in t && t[item.claimId].supersedes == [])
  {
    FreshItem(c.binding.items, i);
    var item := c.binding.items[i];
    if item.claimId in s { NothingSuperseded(s[item.claimId].supersedes); }
  }

  // What is said of an item does not change with the claim of another.
  lemma OutcomeStays(rules: Rules, s: Store, t: Store, u: Store, c: Challenge, item: ChallengeItem, r: ItemResult,
                     committed: bool, other: string, o: Options, at: int)
    requires ItemOutcome(rules, s, t, c, item, r, committed, o, at) && other != item.claimId
    requires u == t || (other in u && u == t[other := u[other]])
    ensures ItemOutcome(rules, s, u, c, item, r, committed, o, at)
  {
  }

  // The same of the item whose turn it was.
  lemma OutcomeNow(rules: Rules, s: Store, t: Store, u: Store, c: Challenge, item: ChallengeItem, r: ItemResult,
                   done: bool, o: Options, at: int)
    requires (item.claimId in t <==> item.claimId in s) && (item.claimId in s ==> t[item.claimId] == s[item.claimId])
    requires TurnTaken(rules, s, t, u, c, item, r, done, o, at)
    ensures ItemOutcome(rules, s, u, c, item, r, done, o, at)
  {
  }

  ghost predicate TurnTaken(rules: Rules, s: Store, t: Store, u: Store, c: Challenge, item: ChallengeItem,
                            r: ItemResult, done: bool, o: Options, at: int)
  {
    var checked := Checked(rules, s, c, item);
    && r.claimId == item.claimId
    && (!checked.status.Pending? ==> r == checked && !done)
    && (checked.status.Pending? ==> (r.status.Applied? && done) || r.status.Failed?)
    && (!done ==> u == t)
    && (done ==>
          && item.claimId in t && u == t[item.claimId := ApprovedOf(rules, t[item.claimId], o, at)]
          && u[item.claimId].status.Approved? && L.Verifies(rules, u[item.claimId]))
  }

  lemma ProgressStep(rules: Rules, s: Store, t: Store, u: Store, c: Challenge, results: seq<ItemResult>,
                     committed: seq<bool>, i: nat, r: ItemResult, done: bool, o: Options, at: int)
    requires i < |c.binding.items| && Distinct(ClaimIds(c.binding.items))
    requires Progress(rules, s, t, c, results, committed, i, o, at)
    requires TurnTaken(rules, s, t, u, c, c.binding.items[i], r, done, o, at)
    ensures Progress(rules, s, u, c, results + [r], committed + [done], i + 1, o, at)
  {
    var items := c.binding.items;
    ProgressItem(rules, s, t, c, results, committed, i, o, at);
    OutcomeNow(rules, s, t, u, c, items[i], r, done, o, at);
    NextIds(items, i);
    var longer, flags := results + [r], committed + [done];
    forall k | 0 <= k < i + 1 ensures ItemOutcome(rules, s, u, c, items[k], longer[k], flags[k], o, at) {
      if k < i {
        OtherItem(items, k, i);
        assert longer[k] == results[k] && flags[k] == committed[k];
        OutcomeStays(rules, s, t, u, c, items[k], results[k], committed[k], items[i].claimId, o, at);
      }
    }
    forall x | x !in ClaimIds(items[..i + 1]) ensures (x in u <==> x in s) && (x in s ==> u[x] == s[x]) {
      assert x != items[i].claimId && x !in ClaimIds(items[..i]);
    }
  }

  function Checked(rules: Rules, s: Store, c: Challenge, item: ChallengeItem): ItemResult {
    ItemResult(item.claimId,
      if item.claimId in c.skippedItems then Skipped
      else if ItemStands(rules, s, c.binding.workspace, item) then Pending
      else Failed)
  }

  lemma OtherItem(items: seq<ChallengeItem>, k: nat, i: nat)
    requires Distinct(ClaimIds(items)) && k < i < |items|
    ensures items[k].claimId != items[i].claimId
  {
    assert ClaimIds(items)[k] != ClaimIds(items)[i];
  }

  lemma FreshItem(items: seq<ChallengeItem>, i: nat)
    requires Distinct(ClaimIds(items)) && i < |items|
    ensures items[i].claimId !in ClaimIds(items[..i])
  {
    forall k | 0 <= k < i ensures ClaimIds(items[..i])[k] != items[i].claimId {
      OtherItem(items, k, i);
    }
  }

  lemma NextIds(items: seq<ChallengeItem>, i: nat)
    requires i < |items|
    ensures forall x :: x in ClaimIds(items[..i + 1]) <==> x in ClaimIds(items[..i]) || x == items[i].claimId
  {
    assert ClaimIds(items[..i + 1]) == ClaimIds(items[..i]) + [items[i].claimId];
  }
}
