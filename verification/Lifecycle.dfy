/** The life of a claim: draft, approved, then superseded or revoked. What is written is a
    claim document; its SHA-256 digest, its validity and the checks of its evidence and
    support are parameters, collected in `Rules`. */
module Lifecycle {
  import opened Wrappers
  import opened Clock
  import opened Identifiers

  datatype Status = Draft | Approved | Superseded | Revoked

  datatype TransitionKind = ApproveKind | SupersedeKind | RevokeKind

  datatype Authorization = Authorization(challengeId: string, method_: string, client: string)

  datatype Transition = Transition(
    kind: TransitionKind,
    at: TimeText,
    actor: string,
    reason: string,
    relatedClaimIds: seq<string>,
    priorVerificationDigest: string,
    authorization: Option<Authorization>
  )

  datatype Source = Source(id: string, resource: string, title: string, digest: string)

  // `content` stands for the fields no operation looks at: title, body, tags and so on.
  datatype Claim = Claim(
    id: string,
    tier: string,
    status: Status,
    content: string,
    evidenceIds: seq<string>,
    supportingIds: seq<string>,
    supersedes: seq<string>,
    contradicts: seq<string>,
    sources: seq<Source>,
    transitions: seq<Transition>,
    verifiedAt: TimeText,
    verifiedBy: string,
    verifiedDigest: string
  )

  type Store = map<string, Claim>

  datatype Rules = Rules(
    sum: Claim -> string,                    // digest of the rendered document
    valid: Claim -> bool,                    // the document check made before rendering
    basisOk: Claim -> bool,                  // what the basis asks for before approval
    referencesOk: (Store, Claim) -> bool,    // evidence and support closure
    sourcesOf: Claim -> seq<Source>,         // sources bound to the current evidence
    contradictionsOf: (Store, Claim) -> seq<string>
  )

  datatype Options = Options(verifiedBy: string, authorization: Option<Authorization>)

  // ----- digests -----

  // A digest text starts with its algorithm, so it is never blank.
  ghost predicate DigestTexts(rules: Rules) {
    forall c: Claim :: StartsWith(rules.sum(c), "sha256:")
  }

  function Unsigned(c: Claim): Claim {
    c.(verifiedAt := NoTime, verifiedBy := "", verifiedDigest := "")
  }

  predicate Verifies(rules: Rules, c: Claim) {
    c.status == Approved ==>
      !IsBlank(c.verifiedDigest) && rules.valid(Unsigned(c)) && rules.sum(Unsigned(c)) == c.verifiedDigest
  }

  function Normalized(o: Options): Options {
    if IsBlank(o.verifiedBy) then o.(verifiedBy := "owner") else o
  }

  predicate AuthorizationOk(a: Option<Authorization>) {
    a.Some? ==> IsChallengeId(a.value.challengeId) && !IsBlank(a.value.method_) && !IsBlank(a.value.client)
  }

  // ----- approve -----

  predicate Supersedable(rules: Rules, s: Store, id: string) {
    id in s && s[id].status == Approved && Verifies(rules, s[id])
  }

  predicate Approvable(rules: Rules, s: Store, id: string, o: Options) {
    && AuthorizationOk(o.authorization)
    && id in s && s[id].status == Draft
    && rules.valid(s[id]) && rules.basisOk(s[id]) && rules.referencesOk(s, s[id])
    && Distinct(s[id].supersedes)
    && forall prior :: prior in s[id].supersedes ==> Supersedable(rules, s, prior)
  }

  // The approved document before it is signed.
  function Promoted(rules: Rules, c: Claim, o: Options, now: int): Claim {
    var actor := Normalized(o).verifiedBy;
    var kind := if c.supersedes == [] then ApproveKind else SupersedeKind;
    c.(status := Approved, sources := rules.sourcesOf(c), verifiedAt := Rfc3339(now), verifiedBy := actor,
       verifiedDigest := "",
       transitions := c.transitions + [Transition(kind, Rfc3339(now), actor, "", c.supersedes, "", o.authorization)])
  }

  function Signed(rules: Rules, c: Claim): Claim {
    c.(verifiedDigest := rules.sum(Unsigned(c)))
  }

  function Replaced(prior: Claim, successor: Claim, o: Options, now: int): Claim {
    prior.(status := Superseded,
         transitions := prior.transitions + [Transition(
           SupersedeKind, Rfc3339(now), successor.verifiedBy, "", [successor.id], prior.verifiedDigest,
           o.authorization)])
  }

  datatype Plan = Plan(claim: Claim, olds: seq<Claim>)

  function ReplacedAll(s: Store, ids: seq<string>, successor: Claim, o: Options, now: int): seq<Claim>
    requires forall id :: id in ids ==> id in s
  {
    seq(|ids|, i requires 0 <= i < |ids| => Replaced(s[ids[i]], successor, o, now))
  }

  // Everything that can be refused is refused here, before any file is written, except that
  // a lone document is rendered, and so checked again, only when it is written.
  function PrepareApprove(rules: Rules, s: Store, id: string, o: Options, now: int): Option<Plan> {
    if !Approvable(rules, s, id, o) then None
    else
      var promoted := Promoted(rules, s[id], o, now);
      if !rules.valid(Unsigned(promoted)) then None
      else
        var claim := Signed(rules, promoted);
        var olds := ReplacedAll(s, s[id].supersedes, claim, o, now);
        if olds != [] && (!rules.valid(claim) || exists i :: 0 <= i < |olds| && !rules.valid(olds[i])) then None
        else Some(Plan(claim, olds))
  }

  // ----- what a plan writes -----

  // The history of the one claim, with this entry added, is that of the other: at this time cut
  // to whole seconds, by the named actor or the owner, with the authorization that was given.
  predicate Records(before: Claim, after: Claim, o: Options, now: int, t: Transition) {
    && after.transitions == before.transitions + [t]
    && Parse(t.at) == Some(now / NANOS * NANOS)
    && t.actor == (if IsBlank(o.verifiedBy) then "owner" else o.verifiedBy)
    && t.authorization == o.authorization
  }

  predicate SameDocument(before: Claim, after: Claim) {
    && after.id == before.id && after.tier == before.tier && after.content == before.content
    && after.evidenceIds == before.evidenceIds && after.supportingIds == before.supportingIds
    && after.supersedes == before.supersedes && after.contradicts == before.contradicts
  }

  predicate SameAttestation(before: Claim, after: Claim) {
    && after.sources == before.sources && after.verifiedAt == before.verifiedAt
    && after.verifiedBy == before.verifiedBy && after.verifiedDigest == before.verifiedDigest
  }

  // The draft approved: its sources are bound, it is attested at the time and by the actor of
  // its last entry, and that entry names what it supersedes.
  ghost predicate ApprovedFrom(rules: Rules, before: Claim, after: Claim, o: Options, now: int) {
    && before.status == Draft && after.status == Approved && SameDocument(before, after)
    && exists t :: Records(before, after, o, now, t)
         && after.sources == rules.sourcesOf(before) && after.verifiedAt == t.at && after.verifiedBy == t.actor
         && after.verifiedDigest == rules.sum(Unsigned(after))
         && Approves(before, t) && t.reason == "" && t.priorVerificationDigest == ""
  }

  // The claim superseded by the one of this id.
  ghost predicate SupersededFrom(before: Claim, after: Claim, successor: string, o: Options, now: int) {
    && before.status == Approved && after.status == Superseded
    && SameDocument(before, after) && SameAttestation(before, after)
    && exists t :: Records(before, after, o, now, t)
         && t.kind == SupersedeKind && t.relatedClaimIds == [successor]
         && t.reason == "" && t.priorVerificationDigest == before.verifiedDigest
  }

  ghost predicate RevokedFrom(before: Claim, after: Claim, reason: string, o: Options, now: int) {
    && before.status == Approved && after.status == Revoked
    && SameDocument(before, after) && SameAttestation(before, after)
    && exists t :: Records(before, after, o, now, t)
         && t.kind == RevokeKind && t.relatedClaimIds == [before.id]
         && t.reason == Trim(reason) && t.priorVerificationDigest == before.verifiedDigest
  }

  // The documents of a plan, one for the claim and one for each that it supersedes, in order.
  ghost predicate PlanOf(rules: Rules, s: Store, id: string, o: Options, now: int, plan: Plan) {
    && id in s && ApprovedFrom(rules, s[id], plan.claim, o, now)
    && |plan.olds| == |s[id].supersedes|
    && forall i :: 0 <= i < |plan.olds| ==>
         var prior := s[id].supersedes[i];
         prior in s && SupersededFrom(s[prior], plan.olds[i], s[id].id, o, now)
  }

  lemma ApprovalPlan(rules: Rules, s: Store, id: string, o: Options, now: int)
    requires PrepareApprove(rules, s, id, o, now).Some?
    ensures PlanOf(rules, s, id, o, now, PrepareApprove(rules, s, id, o, now).value)
  {
    var plan := PrepareApprove(rules, s, id, o, now).value;
    PromotionRecords(rules, s[id], o, now);
    var ids := s[id].supersedes;
    forall i | 0 <= i < |ids| ensures ids[i] in s && SupersededFrom(s[ids[i]], plan.olds[i], s[id].id, o, now) {
      assert ids[i] in ids;
      ReplacementRecords(s[ids[i]], plan.claim, o, now);
    }
  }

  // A plan is made exactly when nothing is refused, and then it is the only one of its kind.
  lemma PlannedExactly(rules: Rules, s: Store, id: string, o: Options, now: int, plan: Plan)
    ensures PrepareApprove(rules, s, id, o, now) == Some(plan) <==>
      && PlanOf(rules, s, id, o, now, plan)
      && (o.authorization.Some? ==>
            var a := o.authorization.value; IsChallengeId(a.challengeId) && !IsBlank(a.method_) && !IsBlank(a.client))
      && rules.valid(s[id]) && rules.basisOk(s[id]) && rules.referencesOk(s, s[id])
      && Distinct(s[id].supersedes) && (forall prior :: prior in s[id].supersedes ==> DigestHolds(rules, s[prior]))
      && rules.valid(Unsigned(plan.claim))
      && (plan.olds != [] ==> rules.valid(plan.claim) && forall i :: 0 <= i < |plan.olds| ==> rules.valid(plan.olds[i]))
  {
    if PrepareApprove(rules, s, id, o, now).Some? {
      ApprovalPlan(rules, s, id, o, now);
    }
    if PlanOf(rules, s, id, o, now, plan) {
      PlanUnique(rules, s, id, o, now, plan);
      forall prior | prior in s[id].supersedes ensures prior in s && s[prior].status == Approved {
        var i :| 0 <= i < |s[id].supersedes| && s[id].supersedes[i] == prior;
        assert SupersededFrom(s[prior], plan.olds[i], s[id].id, o, now);
      }
    }
  }

  // The recorded digest is that of the unsigned document, which is valid.
  predicate DigestHolds(rules: Rules, c: Claim) {
    !IsBlank(c.verifiedDigest) && rules.valid(Unsigned(c)) && rules.sum(Unsigned(c)) == c.verifiedDigest
  }

  lemma PlanUnique(rules: Rules, s: Store, id: string, o: Options, now: int, plan: Plan)
    requires PlanOf(rules, s, id, o, now, plan)
    ensures plan.claim == Signed(rules, Promoted(rules, s[id], o, now))
    ensures (forall prior :: prior in s[id].supersedes ==> prior in s)
      && plan.olds == ReplacedAll(s, s[id].supersedes, plan.claim, o, now)
  {
    PromotionUnique(rules, s[id], plan.claim, o, now);
    var ids := s[id].supersedes;
    forall i | 0 <= i < |ids| ensures ids[i] in s && plan.olds[i] == Replaced(s[ids[i]], plan.claim, o, now) {
      ReplacementUnique(s[ids[i]], plan.olds[i], plan.claim, o, now);
    }
  }

  lemma PromotionUnique(rules: Rules, before: Claim, after: Claim, o: Options, now: int)
    requires ApprovedFrom(rules, before, after, o, now)
    ensures after == Signed(rules, Promoted(rules, before, o, now))
  {
    var other := Signed(rules, Promoted(rules, before, o, now));
    PromotionRecords(rules, before, o, now);
    assert LastTransition(after) == LastTransition(other);
    assert Unsigned(after) == Unsigned(other);
  }

  lemma ReplacementUnique(before: Claim, after: Claim, successor: Claim, o: Options, now: int)
    requires SupersededFrom(before, after, successor.id, o, now)
    requires successor.verifiedBy == if IsBlank(o.verifiedBy) then "owner" else o.verifiedBy
    ensures after == Replaced(before, successor, o, now)
  {
    ReplacementRecords(before, successor, o, now);
    assert LastTransition(after) == LastTransition(Replaced(before, successor, o, now));
  }

  // A revocation is planned exactly for an approved claim that verifies, with a reason.
  lemma RevokedExactly(rules: Rules, s: Store, id: string, reason: string, o: Options, now: int, after: Claim)
    ensures PrepareRevoke(rules, s, id, reason, o, now) == Some(after) <==>
      && id in s && RevokedFrom(s[id], after, reason, o, now)
      && (o.authorization.Some? ==>
            var a := o.authorization.value; IsChallengeId(a.challengeId) && !IsBlank(a.method_) && !IsBlank(a.client))
      && !IsBlank(reason) && DigestHolds(rules, s[id])
  {
    if id in s && s[id].status == Approved {
      WithdrawalRecords(s[id], reason, o, now);
      if RevokedFrom(s[id], after, reason, o, now) {
        assert LastTransition(after) == LastTransition(Withdrawn(s[id], reason, o, now));
      }
    }
  }

  lemma PromotionRecords(rules: Rules, c: Claim, o: Options, now: int)
    requires c.status == Draft
    ensures ApprovedFrom(rules, c, Signed(rules, Promoted(rules, c, o, now)), o, now)
  {
    var after := Signed(rules, Promoted(rules, c, o, now));
    var t := LastTransition(after);
    assert Unsigned(after) == Unsigned(Promoted(rules, c, o, now));
    assert Records(c, after, o, now, t);
  }

  lemma ReplacementRecords(prior: Claim, successor: Claim, o: Options, now: int)
    requires prior.status == Approved
    requires successor.verifiedBy == if IsBlank(o.verifiedBy) then "owner" else o.verifiedBy
    ensures SupersededFrom(prior, Replaced(prior, successor, o, now), successor.id, o, now)
  {
    var after := Replaced(prior, successor, o, now);
    assert Records(prior, after, o, now, LastTransition(after));
  }

  lemma WithdrawalRecords(c: Claim, reason: string, o: Options, now: int)
    requires c.status == Approved
    ensures RevokedFrom(c, Withdrawn(c, reason, o, now), reason, o, now)
  {
    var after := Withdrawn(c, reason, o, now);
    assert Records(c, after, o, now, LastTransition(after));
  }

  // The claims of the plan, all at once: a single file, or the targets of one journal.
  function Commit(s: Store, plan: Plan): Store {
    PutAll(s[plan.claim.id := plan.claim], plan.olds)
  }

  function PutAll(s: Store, claims: seq<Claim>): Store
    decreases |claims|
  {
    if claims == [] then s else PutAll(s[claims[0].id := claims[0]], claims[1..])
  }

  // How a commit ended. The commit point is the rename of a lone file, or the link that
  // publishes the journal; a step behind it may still fail and be reported as a failure.
  datatype CommitOutcome = NotCommitted | Unreported | Reported

  predicate Written(rules: Rules, plan: Plan, outcome: CommitOutcome) {
    !outcome.NotCommitted? && rules.valid(plan.claim)
  }

  // What the claims read as afterwards, through the journal if one is left pending.
  function Landed(rules: Rules, s: Store, plan: Plan, outcome: CommitOutcome): Store {
    if Written(rules, plan, outcome) then Commit(s, plan) else s
  }

  // ----- revoke -----

  function Withdrawn(c: Claim, reason: string, o: Options, now: int): Claim {
    c.(status := Revoked,
       transitions := c.transitions + [Transition(
         RevokeKind, Rfc3339(now), Normalized(o).verifiedBy, Trim(reason), [c.id], c.verifiedDigest, o.authorization)])
  }

  function PrepareRevoke(rules: Rules, s: Store, id: string, reason: string, o: Options, now: int): Option<Claim> {
    if !AuthorizationOk(o.authorization) || id !in s || IsBlank(reason)
       || s[id].status != Approved || !Verifies(rules, s[id])
    then None
    else Some(Withdrawn(s[id], reason, o, now))
  }

  // ----- drafts -----

  function Drafted(rules: Rules, s: Store, c: Claim): Claim {
    c.(status := Draft, verifiedAt := NoTime, verifiedBy := "", verifiedDigest := "", sources := [],
       contradicts := rules.contradictionsOf(s, c))
  }

  predicate DraftAccepted(rules: Rules, s: Store, c: Claim) {
    && IsClaimId(c.id) && rules.valid(Drafted(rules, s, c))
    && (c.id in s ==> s[c.id].status == Draft)
  }

  // A written draft has no attestation and no sources, its contradictions are found anew, and
  // everything else, its history too, is as it was given.
  lemma DraftRecords(rules: Rules, s: Store, c: Claim)
    ensures var d := Drafted(rules, s, c);
      && d.status == Draft && d.sources == [] && d.verifiedDigest == "" && d.verifiedBy == ""
      && Parse(d.verifiedAt).None?
      && d.id == c.id && d.tier == c.tier && d.content == c.content
      && d.evidenceIds == c.evidenceIds && d.supportingIds == c.supportingIds && d.supersedes == c.supersedes
      && d.transitions == c.transitions && d.contradicts == rules.contradictionsOf(s, c)
    ensures DraftAccepted(rules, s, c) <==>
      IsClaimId(c.id) && rules.valid(Drafted(rules, s, c)) && !(c.id in s && s[c.id].status != Draft)
  {
  }

  function AppendUnique(ids: seq<string>, id: string): seq<string> {
    if id in ids then ids else ids + [id]
  }

  // ----- the invariant of every reachable store -----

  function LastTransition(c: Claim): Transition
    requires c.transitions != []
  {
    c.transitions[|c.transitions| - 1]
  }

  // The claim as it was attested: last transition dropped, status set back.
  function Restored(c: Claim): Claim
    requires c.transitions != []
  {
    c.(status := Approved, transitions := c.transitions[..|c.transitions| - 1])
  }

  ghost predicate Attested(rules: Rules, c: Claim) {
    && (c.status == Approved ==> Verifies(rules, c))
    && (c.status == Superseded || c.status == Revoked ==>
          && c.transitions != []
          && LastTransition(c).kind == (if c.status == Revoked then RevokeKind else SupersedeKind)
          && LastTransition(c).priorVerificationDigest == c.verifiedDigest
          && Verifies(rules, Restored(c)))
  }

  // The entry of the approval: the last one, or the one before the withdrawal.
  predicate HasApproval(c: Claim) { |c.transitions| >= (if c.status == Approved then 1 else 2) }

  function ApprovalOf(c: Claim): Transition
    requires HasApproval(c)
  {
    c.transitions[|c.transitions| - (if c.status == Approved then 1 else 2)]
  }

  // It names what the claim supersedes.
  predicate Approves(c: Claim, t: Transition) {
    t.relatedClaimIds == c.supersedes && (t.kind == SupersedeKind <==> c.supersedes != []) && !t.kind.RevokeKind?
  }

  predicate Settled(c: Claim) { c.status != Draft }

  // Every settled claim has the entry of its approval.
  ghost predicate AllRecorded(s: Store) {
    forall id :: id in s ==> Recorded(s[id])
  }

  predicate Recorded(c: Claim) {
    Settled(c) ==> HasApproval(c) && Approves(c, ApprovalOf(c))
  }

  // What a settled claim says it supersedes was superseded by it and by nothing else.
  ghost predicate Superseding(s: Store, c: Claim) {
    && Distinct(c.supersedes)
    && forall prior :: prior in c.supersedes ==>
         && prior in s && prior != c.id && s[prior].status == Superseded
         && s[prior].transitions != [] && LastTransition(s[prior]).relatedClaimIds == [c.id]
  }

  ghost predicate SupersededBySomeone(s: Store, c: Claim) {
    && c.transitions != [] && |LastTransition(c).relatedClaimIds| == 1
    && var successor := LastTransition(c).relatedClaimIds[0];
       successor in s && Settled(s[successor]) && c.id in s[successor].supersedes
  }

  // `order` lists the claims in the order of their approval.
  ghost predicate Inv(rules: Rules, s: Store, order: seq<string>) {
    && (forall id :: id in s ==> s[id].id == id && Attested(rules, s[id]))
    && (forall id :: id in s && Settled(s[id]) ==> Superseding(s, s[id]))
    && (forall id :: id in s && s[id].status == Superseded ==> SupersededBySomeone(s, s[id]))
    && Distinct(order)
    && (forall id :: id in order <==> id in s && Settled(s[id]))
    && (forall i, j :: 0 <= i < |order| && 0 <= j < |order| && order[j] in s && order[i] in s[order[j]].supersedes ==>
      i < j)
  }

  lemma EmptyInv(rules: Rules)
    ensures Inv(rules, map[], [])
  {
  }

  lemma DraftKeepsInv(rules: Rules, s: Store, order: seq<string>, c: Claim)
    requires Inv(rules, s, order) && DraftAccepted(rules, s, c)
    ensures Inv(rules, s[c.id := Drafted(rules, s, c)], order)
  {
    var d := Drafted(rules, s, c);
    var t := s[c.id := d];
    assert forall id :: id in s && Settled(s[id]) ==> id != c.id && t[id] == s[id];
    forall i, j | 0 <= i < |order| && 0 <= j < |order| && order[j] in t && order[i] in t[order[j]].supersedes
      ensures i < j
    {
      assert order[j] in order;
    }
  }

  lemma RestoredIs(c: Claim, t: Transition)
    ensures c.status == Approved ==>
      Restored(c.(status := Superseded, transitions := c.transitions + [t])) == c
      && Restored(c.(status := Revoked, transitions := c.transitions + [t])) == c
  {
    assert (c.transitions + [t])[..|c.transitions|] == c.transitions;
  }

  lemma RevokeKeepsInv(rules: Rules, s: Store, order: seq<string>, id: string, reason: string, o: Options, now: int)
    requires Inv(rules, s, order) && PrepareRevoke(rules, s, id, reason, o, now).Some?
    ensures Inv(rules, s[id := PrepareRevoke(rules, s, id, reason, o, now).value], order)
  {
    var c := s[id];
    var d := Withdrawn(c, reason, o, now);
    var t := s[id := d];
    WithdrawnAttested(rules, c, reason, o, now);
    forall x | x in t && Settled(t[x]) ensures Superseding(t, t[x]) {
      assert Superseding(s, s[x]);
    }
    forall x | x in t && t[x].status == Superseded ensures SupersededBySomeone(t, t[x]) {
      assert SupersededBySomeone(s, s[x]);
    }
    forall i, j | 0 <= i < |order| && 0 <= j < |order| && order[j] in t && order[i] in t[order[j]].supersedes
      ensures i < j
    {
      assert t[order[j]].supersedes == s[order[j]].supersedes;
    }
  }

  // ----- the approval step -----

  lemma {:induction false} PutAllMisses(s: Store, claims: seq<Claim>, x: string)
    requires forall i :: 0 <= i < |claims| ==> claims[i].id != x
    ensures (x in PutAll(s, claims) <==> x in s) && (x in s ==> PutAll(s, claims)[x] == s[x])
    decreases |claims|
  {
    if claims != [] {
      PutAllMisses(s[claims[0].id := claims[0]], claims[1..], x);
    }
  }

  lemma {:induction false} PutAllHits(s: Store, claims: seq<Claim>, i: nat)
    requires i < |claims| && forall j :: i < j < |claims| ==> claims[j].id != claims[i].id
    ensures claims[i].id in PutAll(s, claims) && PutAll(s, claims)[claims[i].id] == claims[i]
    decreases |claims|
  {
    if i == 0 {
      PutAllMisses(s[claims[0].id := claims[0]], claims[1..], claims[0].id);
    } else {
      PutAllHits(s[claims[0].id := claims[0]], claims[1..], i - 1);
    }
  }

  lemma DistinctAt(ids: seq<string>, i: nat, j: nat)
    requires Distinct(ids) && i < |ids| && j < |ids|
    ensures ids[i] == ids[j] ==> i == j
  {
  }

  function After(s: Store, id: string, claim: Claim, o: Options, now: int, x: string): Claim
    requires id in s && x in s
  {
    if x in s[id].supersedes then Replaced(s[x], claim, o, now) else if x == id then claim else s[x]
  }

  // Which document stands under each id after an approval.
  lemma CommitAt(rules: Rules, s: Store, order: seq<string>, id: string, o: Options, now: int, x: string)
    requires Inv(rules, s, order) && PrepareApprove(rules, s, id, o, now).Some?
    ensures var plan := PrepareApprove(rules, s, id, o, now).value;
      var t := Commit(s, plan);
      && (x in t <==> x in s)
      && (x in s ==> t[x] == After(s, id, plan.claim, o, now, x))
    ensures id !in s[id].supersedes
  {
    var plan := PrepareApprove(rules, s, id, o, now).value;
    var ids := s[id].supersedes;
    assert forall i :: 0 <= i < |ids| ==> ids[i] in ids && plan.olds[i].id == ids[i];
    var first := s[plan.claim.id := plan.claim];
    if x in ids {
      var i :| 0 <= i < |ids| && ids[i] == x;
      forall j | i < j < |ids| ensures plan.olds[j].id != plan.olds[i].id { DistinctAt(ids, i, j); }
      PutAllHits(first, plan.olds, i);
    } else {
      PutAllMisses(first, plan.olds, x);
    }
  }

  // The same without a look at the plan: the draft is approved, what it supersedes is
  // superseded by it, and everything else is as it was.
  lemma CommitMeans(rules: Rules, s: Store, order: seq<string>, id: string, o: Options, now: int, x: string)
    requires Inv(rules, s, order) && PrepareApprove(rules, s, id, o, now).Some?
    ensures var t := Commit(s, PrepareApprove(rules, s, id, o, now).value);
      && (x in t <==> x in s)
      && (x in s ==>
            if x == id then ApprovedFrom(rules, s[x], t[x], o, now)
            else if x in s[id].supersedes then SupersededFrom(s[x], t[x], id, o, now)
            else t[x] == s[x])
  {
    CommitAt(rules, s, order, id, o, now, x);
    ApprovalPlan(rules, s, id, o, now);
    if x in s[id].supersedes {
      ReplacementRecords(s[x], PrepareApprove(rules, s, id, o, now).value.claim, o, now);
    }
  }

  lemma ApprovedVerifies(rules: Rules, s: Store, id: string, o: Options, now: int)
    requires DigestTexts(rules) && PrepareApprove(rules, s, id, o, now).Some?
    ensures var c := PrepareApprove(rules, s, id, o, now).value.claim;
      c.status == Approved && Verifies(rules, c) && c.supersedes == s[id].supersedes && c.id == s[id].id
  {
    var promoted := Promoted(rules, s[id], o, now);
    var c := Signed(rules, promoted);
    assert Unsigned(c) == Unsigned(promoted);
    var digest := rules.sum(Unsigned(promoted));
    assert StartsWith(digest, "sha256:");
    assert digest[..7][0] == 's';
    assert !IsBlank(digest) by {
      assert digest[0] == 's';
    }
  }

  lemma ApproveKeepsAttested(rules: Rules, s: Store, order: seq<string>, id: string, o: Options, now: int, x: string)
    requires Inv(rules, s, order) && DigestTexts(rules) && PrepareApprove(rules, s, id, o, now).Some?
    requires x in s
    ensures var t := Commit(s, PrepareApprove(rules, s, id, o, now).value);
      x in t && t[x].id == x && Attested(rules, t[x])
  {
    CommitAt(rules, s, order, id, o, now, x);
    if x in s[id].supersedes {
      ReplacedAttested(rules, s[x], PrepareApprove(rules, s, id, o, now).value.claim, o, now);
    } else if x == id {
      PlannedAttested(rules, s, id, o, now);
    }
  }

  lemma PlannedAttested(rules: Rules, s: Store, id: string, o: Options, now: int)
    requires DigestTexts(rules) && PrepareApprove(rules, s, id, o, now).Some?
    ensures Attested(rules, PrepareApprove(rules, s, id, o, now).value.claim)
  {
    ApprovedVerifies(rules, s, id, o, now);
  }

  lemma ReplacedAttested(rules: Rules, c: Claim, successor: Claim, o: Options, now: int)
    requires c.status == Approved && Attested(rules, c)
    ensures Attested(rules, Replaced(c, successor, o, now))
  {
    RestoredIs(c, LastTransition(Replaced(c, successor, o, now)));
  }

  lemma WithdrawnAttested(rules: Rules, c: Claim, reason: string, o: Options, now: int)
    requires c.status == Approved && Attested(rules, c)
    ensures Attested(rules, Withdrawn(c, reason, o, now))
  {
    RestoredIs(c, LastTransition(Withdrawn(c, reason, o, now)));
  }

  // A claim that is approved has the entry; one that is withdrawn keeps it.
  lemma ApprovalIsRecorded(rules: Rules, before: Claim, after: Claim, o: Options, now: int)
    requires ApprovedFrom(rules, before, after, o, now)
    ensures Recorded(after)
  {
  }

  lemma WithdrawalKeepsRecord(before: Claim, after: Claim, o: Options, now: int, t: Transition)
    requires before.status == Approved && (after.status == Superseded || after.status == Revoked)
    requires Recorded(before) && Records(before, after, o, now, t) && after.supersedes == before.supersedes
    ensures Recorded(after)
  {
    assert ApprovalOf(after) == ApprovalOf(before);
  }

  lemma ApproveKeepsRecorded(rules: Rules, s: Store, order: seq<string>, id: string, o: Options, now: int)
    requires Inv(rules, s, order) && AllRecorded(s) && PrepareApprove(rules, s, id, o, now).Some?
    ensures AllRecorded(Commit(s, PrepareApprove(rules, s, id, o, now).value))
  {
    var t := Commit(s, PrepareApprove(rules, s, id, o, now).value);
    forall x | x in t ensures Recorded(t[x]) {
      CommitMeans(rules, s, order, id, o, now, x);
      if x == id {
        ApprovalIsRecorded(rules, s[x], t[x], o, now);
      } else if x in s[id].supersedes {
        var entry :| Records(s[x], t[x], o, now, entry);
        WithdrawalKeepsRecord(s[x], t[x], o, now, entry);
      }
    }
  }

  lemma RevokeKeepsRecorded(rules: Rules, s: Store, id: string, reason: string, o: Options, now: int)
    requires AllRecorded(s) && PrepareRevoke(rules, s, id, reason, o, now).Some?
    ensures AllRecorded(s[id := PrepareRevoke(rules, s, id, reason, o, now).value])
  {
    var after := PrepareRevoke(rules, s, id, reason, o, now).value;
    WithdrawalRecords(s[id], reason, o, now);
    var entry :| Records(s[id], after, o, now, entry);
    WithdrawalKeepsRecord(s[id], after, o, now, entry);
  }

  lemma ApproveKeepsSuperseding(rules: Rules, s: Store, order: seq<string>, id: string, o: Options, now: int, x: string)
    requires Inv(rules, s, order) && DigestTexts(rules) && PrepareApprove(rules, s, id, o, now).Some?
    requires x in s && (Settled(s[x]) || x == id)
    ensures var t := Commit(s, PrepareApprove(rules, s, id, o, now).value);
      x in t && Superseding(t, t[x])
  {
    var plan := PrepareApprove(rules, s, id, o, now).value;
    var t := Commit(s, plan);
    CommitAt(rules, s, order, id, o, now, x);
    ApprovedVerifies(rules, s, id, o, now);
    assert t[x].supersedes == s[x].supersedes && t[x].id == x;
    forall prior | prior in t[x].supersedes
      ensures prior in t && prior != x && t[prior].status == Superseded
      ensures t[prior].transitions != [] && LastTransition(t[prior]).relatedClaimIds == [x]
    {
      CommitAt(rules, s, order, id, o, now, prior);
      if x != id {
        // an approved claim is in no settled claim's list, so id's list does not hold `prior`
        assert Superseding(s, s[x]);
        assert s[prior].status == Superseded;
      }
    }
  }

  lemma ApproveKeepsSuperseded(rules: Rules, s: Store, order: seq<string>, id: string, o: Options, now: int, x: string)
    requires Inv(rules, s, order) && DigestTexts(rules) && PrepareApprove(rules, s, id, o, now).Some?
    requires var t := Commit(s, PrepareApprove(rules, s, id, o, now).value);
      x in s && x in t && t[x].status == Superseded
    ensures var t := Commit(s, PrepareApprove(rules, s, id, o, now).value);
      SupersededBySomeone(t, t[x])
  {
    var plan := PrepareApprove(rules, s, id, o, now).value;
    CommitAt(rules, s, order, id, o, now, x);
    CommitAt(rules, s, order, id, o, now, id);
    ApprovedVerifies(rules, s, id, o, now);
    if x !in s[id].supersedes && x != id {
      var successor := LastTransition(s[x]).relatedClaimIds[0];
      CommitAt(rules, s, order, id, o, now, successor);
    }
  }

  lemma ApproveKeepsOrder(rules: Rules, s: Store, order: seq<string>, id: string, o: Options, now: int)
    requires Inv(rules, s, order) && DigestTexts(rules) && PrepareApprove(rules, s, id, o, now).Some?
    ensures var t := Commit(s, PrepareApprove(rules, s, id, o, now).value);
      var longer := order + [id];
      && Distinct(longer)
      && (forall x :: x in longer <==> x in t && Settled(t[x]))
      && (forall i, j | 0 <= i < |longer| && 0 <= j < |longer| ::
            longer[j] in t && longer[i] in t[longer[j]].supersedes ==> i < j)
  {
    var t := Commit(s, PrepareApprove(rules, s, id, o, now).value);
    var longer := order + [id];
    assert id !in order;
    ApprovedVerifies(rules, s, id, o, now);
    forall x ensures x in longer <==> x in t && Settled(t[x]) {
      CommitAt(rules, s, order, id, o, now, x);
    }
    forall i, j | 0 <= i < |longer| && 0 <= j < |longer| && longer[j] in t && longer[i] in t[longer[j]].supersedes
      ensures i < j
    {
      CommitAt(rules, s, order, id, o, now, longer[j]);
      assert t[longer[j]].supersedes == s[longer[j]].supersedes;
      if j < |order| {
        assert order[j] in order;
        assert Superseding(s, s[order[j]]);
        assert longer[i] in order;
      }
    }
  }

  lemma ApproveKeepsInv(rules: Rules, s: Store, order: seq<string>, id: string, o: Options, now: int)
    requires Inv(rules, s, order) && DigestTexts(rules) && PrepareApprove(rules, s, id, o, now).Some?
    ensures Inv(rules, Commit(s, PrepareApprove(rules, s, id, o, now).value), order + [id])
  {
    var t := Commit(s, PrepareApprove(rules, s, id, o, now).value);
    ApproveKeepsOrder(rules, s, order, id, o, now);
    forall x | x in t ensures x in s && t[x].id == x && Attested(rules, t[x]) {
      CommitAt(rules, s, order, id, o, now, x);
      ApproveKeepsAttested(rules, s, order, id, o, now, x);
    }
    forall x | x in t && Settled(t[x]) ensures Superseding(t, t[x]) {
      CommitAt(rules, s, order, id, o, now, x);
      ApproveKeepsSuperseding(rules, s, order, id, o, now, x);
    }
    forall x | x in t && t[x].status == Superseded ensures SupersededBySomeone(t, t[x]) {
      ApproveKeepsSuperseded(rules, s, order, id, o, now, x);
    }
  }

  // ----- what the invariant says -----

  // Each superseded claim has exactly one claim that superseded it, and it is another one.
  lemma SupersededByExactlyOne(rules: Rules, s: Store, order: seq<string>, id: string)
    requires Inv(rules, s, order) && id in s && s[id].status == Superseded
    ensures exists c :: c in s && Settled(s[c]) && id in s[c].supersedes && c != id
    ensures forall c, d ::
      c in s && d in s && Settled(s[c]) && Settled(s[d]) && id in s[c].supersedes && id in s[d].supersedes ==> c == d
  {
    var successor := LastTransition(s[id]).relatedClaimIds[0];
    assert SupersededBySomeone(s, s[id]) && Superseding(s, s[successor]);
    forall c, d | c in s && d in s && Settled(s[c]) && Settled(s[d]) && id in s[c].supersedes && id in s[d].supersedes
      ensures c == d
    {
      assert Superseding(s, s[c]) && Superseding(s, s[d]);
      assert [s[c].id] == [s[d].id];
      assert [s[c].id][0] == [s[d].id][0];
    }
  }

  // What the approval of a claim names is exactly what was superseded in its name.
  lemma LinkedBothWays(rules: Rules, s: Store, order: seq<string>, id: string, prior: string)
    requires Inv(rules, s, order) && id in s && Settled(s[id]) && Recorded(s[id])
    ensures HasApproval(s[id])
    ensures prior in ApprovalOf(s[id]).relatedClaimIds <==>
      && prior in s && s[prior].status == Superseded
      && s[prior].transitions != [] && LastTransition(s[prior]).relatedClaimIds == [id]
  {
    assert Superseding(s, s[id]);
    if prior in s && s[prior].status == Superseded { assert SupersededBySomeone(s, s[prior]); }
  }

  // Follows the settled claims from each one to one that it supersedes.
  ghost predicate SupersessionPath(s: Store, path: seq<string>) {
    && (forall i :: 0 <= i < |path| ==> path[i] in s && Settled(s[path[i]]))
    && (forall i :: 0 <= i < |path| - 1 ==> path[i + 1] in s[path[i]].supersedes)
  }

  function IndexIn(order: seq<string>, id: string): nat
    requires id in order
    ensures IndexIn(order, id) < |order| && order[IndexIn(order, id)] == id
  {
    if order[0] == id then 0 else 1 + IndexIn(order[1..], id)
  }

  // Supersession never goes round: along any path each claim was approved before the one
  // that superseded it.
  lemma {:induction false} NoSupersessionCycle(rules: Rules, s: Store, order: seq<string>, path: seq<string>)
    requires Inv(rules, s, order) && SupersessionPath(s, path) && |path| > 1
    ensures path[0] != path[|path| - 1]
    ensures IndexIn(order, path[|path| - 1]) < IndexIn(order, path[0])
  {
    var n := |path| - 1;
    var i, j := IndexIn(order, path[n]), IndexIn(order, path[n - 1]);
    assert path[n - 1 + 1] in s[path[n - 1]].supersedes;
    assert order[i] in s[order[j]].supersedes;
    if n > 1 {
      var init := path[..n];
      assert SupersessionPath(s, init);
      NoSupersessionCycle(rules, s, order, init);
    }
  }

  // A settled claim keeps its document; only its status moves on and its history grows.
  predicate Grown(c: Claim, d: Claim) {
    && d == c.(status := d.status, transitions := d.transitions)
    && |c.transitions| <= |d.transitions| && d.transitions[..|c.transitions|] == c.transitions
    && (d.status == c.status || (c.status == Approved && (d.status == Superseded || d.status == Revoked)))
    && (d.status == c.status ==> d == c)
  }

  lemma ApproveGrows(rules: Rules, s: Store, order: seq<string>, id: string, o: Options, now: int, x: string)
    requires Inv(rules, s, order) && PrepareApprove(rules, s, id, o, now).Some? && x in s && Settled(s[x])
    ensures var t := Commit(s, PrepareApprove(rules, s, id, o, now).value);
      x in t && Grown(s[x], t[x])
  {
    CommitAt(rules, s, order, id, o, now, x);
  }

  lemma RevokeGrows(rules: Rules, s: Store, id: string, reason: string, o: Options, now: int)
    requires PrepareRevoke(rules, s, id, reason, o, now).Some?
    ensures Grown(s[id], PrepareRevoke(rules, s, id, reason, o, now).value)
  {
  }

  lemma GrownTransitive(a: Claim, b: Claim, c: Claim)
    requires Grown(a, b) && Grown(b, c)
    ensures Grown(a, c)
  {
    assert c.transitions[..|a.transitions|] == c.transitions[..|b.transitions|][..|a.transitions|];
  }
}
