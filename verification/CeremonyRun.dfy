/** Every run of drafts, challenges, grants, applications and clock ticks. `grants`, `spent`,
    `uses`, `bound` and `order` are history: they record what happened and are read by no
    operation. */
module CeremonyRun {
  import opened Wrappers
  import opened Clock
  import opened Identifiers
  import opened ChallengeEncoding
  import opened ChallengeRecord
  import opened Ceremony
  import L = Lifecycle

  datatype GrantEvent = GrantEvent(token: string, at: int)

  // One claim changed through a challenge: by whom and with what authorization, planned when,
  // and done when.
  datatype Use = Use(challengeId: string, claimId: string, o: Options, planned: int, at: int, before: Claim,
    after: Claim)

  datatype State = State(
    claims: Store,
    records: map<string, Challenge>,
    now: int,
    order: seq<string>,
    grants: map<string, GrantEvent>,
    spent: seq<string>,
    uses: seq<Use>,
    bound: Bound
  )

  datatype Step =
    | Tick(later: int)
    | WriteDraft(claim: Claim)
    | ApproveDirect(claimId: string, o: Options)
    | RevokeDirect(claimId: string, reason: string, o: Options)
    | PrepareChallenge(p: ChallengePrepare, id: string)
    | PrepareBatchChallenge(items: seq<ChallengeItem>, id: string)
    | GrantSingle(id: string, token: string)
    | GrantBatch(id: string, granted: seq<string>, skipped: seq<string>, token: string)
    | Apply(id: string, token: string, o: Options, late: int, outcome: L.CommitOutcome)
    | ApplyBatch(id: string, token: string, o: Options, late: int, outcomes: seq<L.CommitOutcome>, committed: seq<bool>)

  function Consumed(s: State, id: string): map<string, Challenge>
    requires id in s.records
  {
    s.records[id := s.records[id].(consumed := true)]
  }

  function ChangedIds(items: seq<ChallengeItem>, committed: seq<bool>): seq<string>
    requires |items| == |committed|
  {
    if items == [] then []
    else
      var n := |items| - 1;
      ChangedIds(items[..n], committed[..n]) + if committed[n] then [items[n].claimId] else []
  }

  function UsesOf(id: string, claimIds: seq<string>, s: Store, t: Store, o: Options, at: int): seq<Use>
    requires forall x :: x in claimIds ==> x in s && x in t
  {
    seq(|claimIds|, i requires 0 <= i < |claimIds| =>
      Use(id, claimIds[i], o, at, at, s[claimIds[i]], t[claimIds[i]]))
  }

  // Binding every item of a batch to the claim it was prepared from.
  function BindItems(bound: Bound, id: string, items: seq<ChallengeItem>, s: Store): Bound {
    bound + map i | 0 <= i < |items| && items[i].claimId in s :: (id, items[i].claimId) := s[items[i].claimId]
  }

  ghost predicate NextBy(rules: Rules, workspace: string, s: State, t: State, step: Step) {
    match step
    case Tick(later) => s.now <= later && t == s.(now := later)
    case WriteDraft(c) =>
      && L.DraftAccepted(rules, s.claims, c)
      && t == s.(claims := s.claims[c.id := L.Drafted(rules, s.claims, c)])
    case ApproveDirect(id, o) =>
      && L.PrepareApprove(rules, s.claims, id, o, s.now).Some?
      && t == s.(claims := L.Commit(s.claims, L.PrepareApprove(rules, s.claims, id, o, s.now).value),
        order := s.order + [id])
    case RevokeDirect(id, reason, o) =>
      && L.PrepareRevoke(rules, s.claims, id, reason, o, s.now).Some?
      && t == s.(claims := s.claims[id := L.PrepareRevoke(rules, s.claims, id, reason, o, s.now).value])
    case PrepareChallenge(p, id) =>
      && IsChallengeId(id) && id !in s.records && PrepareOk(workspace, p) && p.items == []
      && p.claimId in s.claims && AgainstClaim(rules, s.claims, p, s.claims[p.claimId])
      && t == s.(records := s.records[id := Prepared(id, p, s.now)],
        bound := s.bound[(id, p.claimId) := s.claims[p.claimId]])
    case PrepareBatchChallenge(items, id) =>
      && IsChallengeId(id) && id !in s.records && ItemsOk(items)
      && (forall i :: 0 <= i < |items| ==> ItemStands(rules, s.claims, workspace, items[i]))
      && t == s.(records := s.records[id := PreparedBatch(id, workspace, items, s.now)],
        bound := BindItems(s.bound, id, items, s.claims))
    case GrantSingle(id, token) =>
      && id in s.records && !s.records[id].granted && Parse(s.records[id].expiresAt).Some?
      && !Expired(s.records[id].expiresAt, s.now) && s.records[id].binding.items == []
      && t == s.(records := s.records[id := Granted(s.records[id], [], [], token, s.now)],
                 grants := s.grants[id := GrantEvent(token, s.now)])
    case GrantBatch(id, granted, skipped, token) =>
      && id in s.records && !s.records[id].granted && Parse(s.records[id].expiresAt).Some?
      && !Expired(s.records[id].expiresAt, s.now) && s.records[id].binding.items != []
      && Partition(s.records[id].binding.items, granted, skipped) && granted != []
      && t == s.(records := s.records[id := Granted(s.records[id], granted, skipped, token, s.now)],
                 grants := s.grants[id := GrantEvent(token, s.now)])
    case Apply(id, token, o, late, outcome) =>
      && s.now <= late
      && if id in s.records && Consumes(rules, s.claims, s.records[id], token, o, s.now, late) then
           var c := s.records[id];
           var x := c.binding.claimId;
           var after := AfterApply(rules, s.claims, c, o, s.now);
           if L.Written(rules, Planned(rules, s.claims, c, o, s.now).value, outcome) then
             && x in s.claims && x in after
             && t == s.(records := Consumed(s, id), now := late, spent := s.spent + [id], claims := after,
                        order := if c.binding.operation == REVOKE then s.order else s.order + [x],
                        uses := s.uses + [Use(id, x, o, s.now, late, s.claims[x], after[x])])
           else t == s.(records := Consumed(s, id), now := late, spent := s.spent + [id])
         else t == s.(now := late)
    case ApplyBatch(id, token, o, late, outcomes, committed) =>
      && s.now <= late
      && if id in s.records && BatchConsumes(s.records[id], token, o, s.now, late) then
           && |committed| == |s.records[id].binding.items|
           && BatchTurns(rules, s.claims, t.claims, s.records[id], committed, outcomes, o, late)
           && var applied := ChangedIds(s.records[id].binding.items, committed);
           && (forall x :: x in applied ==> x in s.claims && x in t.claims)
           && t == s.(records := Consumed(s, id), now := late, spent := s.spent + [id], claims := t.claims,
                      order := s.order + applied,
                      uses := s.uses + UsesOf(id, applied, s.claims, t.claims, o, late))
         else t == s.(now := late)
  }

  ghost predicate Next(rules: Rules, workspace: string, s: State, t: State) {
    exists step :: NextBy(rules, workspace, s, t, step)
  }

  ghost predicate Init(s: State) {
    && s.claims == map[] && s.records == map[] && s.order == [] && s.grants == map[] && s.spent == [] && s.uses == []
    && s.bound == map[]
  }

  ghost predicate IsRun(rules: Rules, workspace: string, run: seq<State>) {
    && |run| > 0 && Init(run[0])
    && forall i: nat :: i + 1 < |run| ==> StepAt(rules, workspace, run, i)
  }

  ghost predicate StepAt(rules: Rules, workspace: string, run: seq<State>, i: nat)
    requires i + 1 < |run|
  {
    Next(rules, workspace, run[i], run[i + 1])
  }

  // ----- invariant -----

  // The digest a challenge binds for a claim.
  function BoundDigest(b: ChallengePrepare, claimId: string): Option<string> {
    if b.items == [] then (if b.claimId == claimId then Some(b.canonicalDraftDigest) else None)
    else ItemDigest(b.items, claimId)
  }

  function ItemDigest(items: seq<ChallengeItem>, claimId: string): Option<string> {
    if items == [] then None
    else if items[0].claimId == claimId then Some(items[0].canonicalDraftDigest)
    else ItemDigest(items[1..], claimId)
  }

  lemma {:induction false} ItemDigestAt(items: seq<ChallengeItem>, i: nat)
    requires i < |items| && Distinct(ClaimIds(items))
    ensures ItemDigest(items, items[i].claimId) == Some(items[i].canonicalDraftDigest)
  {
    if i > 0 {
      OtherItem(items, 0, i);
      var tail := items[1..];
      forall j, k | 0 <= j < k < |tail| ensures ClaimIds(tail)[j] != ClaimIds(tail)[k] {
        OtherItem(items, j + 1, k + 1);
      }
      ItemDigestAt(tail, i - 1);
    }
  }

  // A granted record agrees with the grant that was recorded for it.
  ghost predicate GrantOk(c: Challenge, g: GrantEvent) {
    && c.tokenSha256 == HashOf(g.token)
    && Parse(c.expiresAt).Some? && g.at <= Parse(c.expiresAt).value
    && Parse(c.tokenExpiresAt).Some?
    && Parse(c.tokenExpiresAt).value <= Parse(c.expiresAt).value
    && Parse(c.tokenExpiresAt).value <= g.at + TOKEN_LIFETIME
  }

  // The change a use records is the one the challenge was prepared for, by the actor and with
  // the authorization of the call; if the authorization names a challenge, it is this one.
  ghost predicate Changed(rules: Rules, c: Challenge, u: Use) {
    && (u.o.authorization.Some? ==> u.o.authorization.value.challengeId == u.challengeId)
    && u.planned <= u.at
    && (if c.binding.operation == REVOKE then
          L.RevokedFrom(u.before, u.after, c.binding.revokeReason, u.o, u.planned)
        else L.ApprovedFrom(rules, u.before, u.after, u.o, u.planned))
  }

  // The owner granted this very item of the batch and did not skip it.
  predicate ItemGranted(c: Challenge, claimId: string) {
    c.binding.items != [] ==> claimId in c.grantedItems && claimId !in c.skippedItems
  }

  ghost predicate UseOk(rules: Rules, c: Challenge, g: GrantEvent, u: Use) {
    && c.granted && c.consumed && GrantOk(c, g) && ItemGranted(c, u.claimId)
    && g.at <= u.at <= Parse(c.tokenExpiresAt).value
    && BoundDigest(c.binding, u.claimId) == Some(rules.sum(u.before))
    && u.before.id == u.claimId && Changed(rules, c, u)
  }

  type Records = map<string, Challenge>
  type Grants = map<string, GrantEvent>
  type Bound = map<(string, string), Claim>

  // The reader's check as a value, so that the lemmas about runs need not look into it.
  ghost function Readable(workspace: string): Challenge -> bool {
    (c: Challenge) => RecordOk(workspace, c)
  }

  ghost predicate RecordsInv(ok: Challenge -> bool, records: Records, grants: Grants, now: int) {
    forall id :: id in records ==>
      && records[id].id == id && ok(records[id]) && (records[id].consumed ==> records[id].granted)
      && (records[id].granted ==> id in grants && grants[id].at <= now && GrantOk(records[id], grants[id]))
  }

  ghost predicate SpentInv(records: Records, spent: seq<string>) {
    && Distinct(spent)
    && forall id :: id in spent <==> id in records && records[id].consumed
  }

  ghost predicate UsesInv(rules: Rules, records: Records, grants: Grants, uses: seq<Use>) {
    && (forall k :: 0 <= k < |uses| ==>
          && uses[k].challengeId in records && uses[k].challengeId in grants
          && UseOk(rules, records[uses[k].challengeId], grants[uses[k].challengeId], uses[k]))
    && (forall j, k :: 0 <= j < k < |uses| && uses[j].challengeId == uses[k].challengeId ==>
          uses[j].claimId != uses[k].claimId)
  }

  // `bound` holds, for each challenge and claim it binds, the document it was prepared from.
  ghost predicate BoundInv(rules: Rules, records: Records, bound: Bound) {
    && (forall k :: k in bound ==> k.0 in records)
    && forall id, x :: id in records ==> Binds(rules, records[id], bound, x)
  }

  ghost predicate Binds(rules: Rules, c: Challenge, bound: Bound, x: string) {
    BoundDigest(c.binding, x) == if (c.id, x) in bound then Some(rules.sum(bound[(c.id, x)])) else None
  }

  ghost predicate ChallengesInv(rules: Rules, ok: Challenge -> bool, s: State) {
    && RecordsInv(ok, s.records, s.grants, s.now) && SpentInv(s.records, s.spent)
    && UsesInv(rules, s.records, s.grants, s.uses) && BoundInv(rules, s.records, s.bound)
  }

  ghost predicate Inv(rules: Rules, workspace: string, s: State) {
    L.Inv(rules, s.claims, s.order) && ChallengesInv(rules, Readable(workspace), s)
  }

  // ----- the challenge side of a step -----

  // A record moves on: nothing bound changes, granted and consumed never revert.
  predicate MovesOn(c: Challenge, d: Challenge) {
    && d.id == c.id && d.binding == c.binding && d.actionDigest == c.actionDigest && d.expiresAt == c.expiresAt
    && (c.granted ==> d == c.(consumed := d.consumed))
    && (c.consumed ==> d.consumed)
  }

  lemma NewRecord(rules: Rules, ok: Challenge -> bool, s: State, id: string, c: Challenge, bound: Bound)
    requires ChallengesInv(rules, ok, s)
    requires id !in s.records && c.id == id && ok(c) && !c.granted && !c.consumed
    requires forall k :: k in s.bound ==> k in bound && bound[k] == s.bound[k]
    requires forall k :: k in bound && k !in s.bound ==> k.0 == id
    requires forall x :: Binds(rules, c, bound, x)
    ensures ChallengesInv(rules, ok, s.(records := s.records[id := c], bound := bound))
  {
    forall k | 0 <= k < |s.uses| ensures s.uses[k].challengeId != id {
      assert s.uses[k].challengeId in s.records;
    }
    forall k, x | k in s.records ensures Binds(rules, s.records[k], bound, x) {
      assert Binds(rules, s.records[k], s.bound, x);
    }
  }

  // Binding looks only at what a record keeps for good.
  lemma SameBinding(rules: Rules, records: Records, bound: Bound, id: string, c: Challenge)
    requires BoundInv(rules, records, bound) && id in records && c.id == records[id].id
      && c.binding == records[id].binding
    ensures BoundInv(rules, records[id := c], bound)
  {
    var changed := records[id := c];
    forall k, x | k in changed ensures Binds(rules, changed[k], bound, x) {
      assert Binds(rules, records[k], bound, x);
    }
  }

  lemma GrantRecord(rules: Rules, ok: Challenge -> bool, s: State, id: string, c: Challenge, token: string)
    requires ChallengesInv(rules, ok, s)
    requires id in s.records && !s.records[id].granted && MovesOn(s.records[id], c)
    requires ok(c) && c.granted && !c.consumed && GrantOk(c, GrantEvent(token, s.now))
    ensures ChallengesInv(rules, ok, s.(records := s.records[id := c],
      grants := s.grants[id := GrantEvent(token, s.now)]))
  {
    forall k | 0 <= k < |s.uses| ensures s.uses[k].challengeId != id {
      assert s.records[s.uses[k].challengeId].granted;
    }
    SameBinding(rules, s.records, s.bound, id, c);
  }

  // Spending: the record is consumed, and the claims changed by it are recorded as uses.
  lemma SpendRecord(rules: Rules, ok: Challenge -> bool, s: State, id: string, late: int, more: seq<Use>)
    requires ChallengesInv(rules, ok, s) && s.now <= late
    requires id in s.records && s.records[id].granted && !s.records[id].consumed && ok(s.records[id].(consumed := true))
    requires forall k :: 0 <= k < |more| ==>
      more[k].challengeId == id && id in s.grants
        && UseOk(rules, s.records[id].(consumed := true), s.grants[id], more[k])
    requires forall j, k :: 0 <= j < k < |more| ==> more[j].claimId != more[k].claimId
    ensures ChallengesInv(rules, ok,
      s.(records := Consumed(s, id), now := late, spent := s.spent + [id], uses := s.uses + more))
  {
    SameBinding(rules, s.records, s.bound, id, s.records[id].(consumed := true));
    SpendUses(rules, s.records, s.grants, s.uses, id, more);
    assert id !in s.spent;
  }

  lemma SpendUses(rules: Rules, records: Records, grants: Grants, uses: seq<Use>, id: string, more: seq<Use>)
    requires UsesInv(rules, records, grants, uses)
    requires id in records && !records[id].consumed
    requires forall k :: 0 <= k < |more| ==>
      more[k].challengeId == id && id in grants && UseOk(rules, records[id].(consumed := true), grants[id], more[k])
    requires forall j, k :: 0 <= j < k < |more| ==> more[j].claimId != more[k].claimId
    ensures UsesInv(rules, records[id := records[id].(consumed := true)], grants, uses + more)
  {
    forall k | 0 <= k < |uses| ensures uses[k].challengeId != id {
      assert UseOk(rules, records[uses[k].challengeId], grants[uses[k].challengeId], uses[k]);
    }
    var all := uses + more;
    forall j, k | 0 <= j < k < |all| && all[j].challengeId == all[k].challengeId
      ensures all[j].claimId != all[k].claimId
    {
      if k >= |uses| && j >= |uses| {
        assert all[j] == more[j - |uses|] && all[k] == more[k - |uses|];
      }
    }
  }

  // ----- the claim side of a batch -----

  predicate IsCommitted(items: seq<ChallengeItem>, committed: seq<bool>, i: nat, x: string)
    requires i < |items| == |committed|
  {
    committed[i] && items[i].claimId == x
  }

  lemma {:induction false} ChangedIdsAre(items: seq<ChallengeItem>, committed: seq<bool>)
    requires |items| == |committed| && Distinct(ClaimIds(items))
    ensures forall x :: x in ChangedIds(items, committed) <==>
      (exists i :: 0 <= i < |items| && IsCommitted(items, committed, i, x))
    ensures Distinct(ChangedIds(items, committed))
  {
    if items != [] {
      var n := |items| - 1;
      var shorter := items[..n];
      forall j, k | 0 <= j < k < n ensures ClaimIds(shorter)[j] != ClaimIds(shorter)[k] { OtherItem(items, j, k); }
      ChangedIdsAre(shorter, committed[..n]);
      forall i, x | 0 <= i < n
        ensures IsCommitted(shorter, committed[..n], i, x) <==> IsCommitted(items, committed, i, x)
      {
      }
      forall x
        ensures x in ChangedIds(items, committed) <==>
          (exists i :: 0 <= i < |items| && IsCommitted(items, committed, i, x))
      {
        assert x in ChangedIds(items, committed) <==>
          x in ChangedIds(shorter, committed[..n]) || IsCommitted(items, committed, n, x);
      }
      if items[n].claimId in ChangedIds(shorter, committed[..n]) {
        var i :| 0 <= i < n && IsCommitted(shorter, committed[..n], i, items[n].claimId);
        OtherItem(items, i, n);
      }
    }
  }

  // A set of lone drafts became approved, and nothing else changed.
  ghost predicate Promotions(rules: Rules, s: Store, t: Store, ids: seq<string>, o: Options, at: int) {
    && Distinct(ids)
    && (forall x :: x in t <==> x in s)
    && (forall x :: x in s && x !in ids ==> t[x] == s[x])
    && (forall x :: x in ids ==> x in s && x in t && LonePromotion(rules, s[x], t[x], o, at))
  }

  ghost predicate LonePromotion(rules: Rules, before: Claim, after: Claim, o: Options, at: int) {
    && before.status.Draft? && before.supersedes == [] && after == ApprovedOf(rules, before, o, at)
    && after.status.Approved? && L.Verifies(rules, after)
  }

  lemma PromotionsKeepInv(rules: Rules, s: Store, t: Store, order: seq<string>, ids: seq<string>, o: Options, at: int)
    requires L.Inv(rules, s, order) && Promotions(rules, s, t, ids, o, at)
    ensures L.Inv(rules, t, order + ids)
  {
    forall x | x in t && L.Settled(t[x]) ensures L.Superseding(t, t[x]) {
      if x !in ids { assert L.Superseding(s, s[x]); }
    }
    forall x | x in t && t[x].status == L.Superseded ensures L.SupersededBySomeone(t, t[x]) {
      assert L.SupersededBySomeone(s, s[x]);
    }
    PromotionsKeepOrder(rules, s, t, order, ids, o, at);
    forall x | x in t ensures t[x].id == x && L.Attested(rules, t[x]) {
      if x in ids { LoneAttested(rules, s[x], t[x], o, at); }
    }
  }

  lemma LoneAttested(rules: Rules, before: Claim, after: Claim, o: Options, at: int)
    requires LonePromotion(rules, before, after, o, at)
    ensures after.id == before.id && L.Attested(rules, after)
  {
  }

  lemma PromotionsKeepOrder(rules: Rules, s: Store, t: Store, order: seq<string>, ids: seq<string>, o: Options, at: int)
    requires L.Inv(rules, s, order) && Promotions(rules, s, t, ids, o, at)
    ensures Distinct(order + ids)
    ensures forall x :: x in order + ids <==> x in t && L.Settled(t[x])
    ensures var longer := order + ids; forall i, j ::
      0 <= i < |longer| && 0 <= j < |longer| && longer[j] in t && longer[i] in t[longer[j]].supersedes ==> i < j
  {
    var longer := order + ids;
    forall i, j | 0 <= i < j < |longer| ensures longer[i] != longer[j] {
      if i < |order| <= j {
        assert order[i] in order && longer[j] == ids[j - |order|] && ids[j - |order|] in ids;
      }
    }
    forall i, j | 0 <= i < |longer| && 0 <= j < |longer| && longer[j] in t && longer[i] in t[longer[j]].supersedes
      ensures i < j
    {
      if longer[j] !in ids {
        assert longer[j] in order && L.Superseding(s, s[longer[j]]);
        assert longer[i] !in ids;
      }
    }
  }

  // What the claims show of a batch: which items were committed.
  ghost predicate BatchChanges(rules: Rules, s: Store, t: Store, c: Challenge, committed: seq<bool>, o: Options,
                               at: int)
  {
    exists results :: BatchOutcome(rules, s, t, c, results, committed, o, at)
  }

  // The turns of a batch one after the other, each with the outcome of its write.
  ghost predicate BatchTurns(rules: Rules, s: Store, t: Store, c: Challenge, committed: seq<bool>,
                             outcomes: seq<L.CommitOutcome>, o: Options, at: int)
  {
    exists results, stores :: BatchRun(rules, s, t, c, results, committed, stores, outcomes, o, at)
  }

  ghost predicate BatchRun(rules: Rules, s: Store, t: Store, c: Challenge, results: seq<ItemResult>,
                           committed: seq<bool>, stores: seq<Store>, outcomes: seq<L.CommitOutcome>,
                           o: Options, at: int)
  {
    && BatchOutcome(rules, s, t, c, results, committed, o, at)
    && Turns(rules, c, stores, results, committed, outcomes, |c.binding.items|, o, at)
    && stores[0] == s && stores[|c.binding.items|] == t
  }

  lemma TurnsChange(rules: Rules, s: Store, t: Store, c: Challenge, committed: seq<bool>,
                    outcomes: seq<L.CommitOutcome>, o: Options, at: int)
    requires BatchTurns(rules, s, t, c, committed, outcomes, o, at)
    ensures BatchChanges(rules, s, t, c, committed, o, at)
  {
    var results, stores :| BatchRun(rules, s, t, c, results, committed, stores, outcomes, o, at);
  }

  lemma CommittedPromotes(rules: Rules, s: Store, t: Store, c: Challenge, committed: seq<bool>, i: nat, o: Options,
                          at: int)
    requires BatchChanges(rules, s, t, c, committed, o, at) && i < |committed|
    ensures i < |c.binding.items| == |committed|
    ensures var x := c.binding.items[i].claimId;
      && (x in t <==> x in s)
      && (if committed[i] then x in s && x in t && LonePromotion(rules, s[x], t[x], o, at) else x in s ==> t[x] == s[x])
  {
    var results :| BatchOutcome(rules, s, t, c, results, committed, o, at);
    assert ItemOutcome(rules, s, t, c, c.binding.items[i], results[i], committed[i], o, at);
    if committed[i] { NothingSuperseded(s[c.binding.items[i].claimId].supersedes); }
  }

  lemma BatchPromotes(rules: Rules, s: Store, t: Store, c: Challenge, committed: seq<bool>, o: Options, at: int)
    requires BatchChanges(rules, s, t, c, committed, o, at) && Distinct(ClaimIds(c.binding.items))
    ensures Promotions(rules, s, t, ChangedIds(c.binding.items, committed), o, at)
  {
    var ids := ChangedIds(c.binding.items, committed);
    ChangedIdsAre(c.binding.items, committed);
    forall x ensures (x in t <==> x in s) && (x in s && x !in ids ==> t[x] == s[x])
      && (x in ids ==> x in s && x in t && LonePromotion(rules, s[x], t[x], o, at))
    {
      BatchPromotesAt(rules, s, t, c, committed, o, at, x);
    }
  }

  lemma BatchPromotesAt(rules: Rules, s: Store, t: Store, c: Challenge, committed: seq<bool>, o: Options, at: int,
                        x: string)
    requires BatchChanges(rules, s, t, c, committed, o, at) && Distinct(ClaimIds(c.binding.items))
    ensures x in t <==> x in s
    ensures x in s && x !in ChangedIds(c.binding.items, committed) ==> t[x] == s[x]
    ensures x in ChangedIds(c.binding.items, committed) ==> x in s && x in t && LonePromotion(rules, s[x], t[x], o, at)
  {
    var items := c.binding.items;
    ChangedIdsAre(items, committed);
    if x in ClaimIds(items) {
      var i :| 0 <= i < |items| && ClaimIds(items)[i] == x;
      CommittedPromotes(rules, s, t, c, committed, i, o, at);
      assert committed[i] ==> IsCommitted(items, committed, i, x);
      if x in ChangedIds(items, committed) {
        var k :| 0 <= k < |items| && IsCommitted(items, committed, k, x);
        assert ClaimIds(items)[k] == x;
      }
    }
  }

  // ----- what a consumed challenge did is a sound use -----

  lemma ApplyIsSound(rules: Rules, workspace: string, s: Store, order: seq<string>, c: Challenge, g: GrantEvent,
                     token: string, o: Options, now: int, late: int)
    requires L.Inv(rules, s, order) && L.DigestTexts(rules) && RecordOk(workspace, c) && GrantOk(c, g)
      && g.at <= now <= late
    requires Consumes(rules, s, c, token, o, now, late)
    ensures var x := c.binding.claimId;
      var after := AfterApply(rules, s, c, o, now);
      && x in s && x in after
      && UseOk(rules, c.(consumed := true), g, Use(c.id, x, o, now, late, s[x], after[x]))
  {
    ApplyInTime(rules, workspace, s, c, g, token, o, now, late);
    ApplyChanges(rules, s, order, c, token, o, now, late);
  }

  lemma ApplyInTime(rules: Rules, workspace: string, s: Store, c: Challenge, g: GrantEvent, token: string, o: Options,
                    now: int, late: int)
    requires RecordOk(workspace, c) && GrantOk(c, g) && g.at <= now <= late
      && Consumes(rules, s, c, token, o, now, late)
    ensures c.granted && g.at <= late <= Parse(c.tokenExpiresAt).value && ItemGranted(c, c.binding.claimId)
    ensures c.binding.claimId in s && BoundDigest(c.binding, c.binding.claimId) == Some(rules.sum(s[c.binding.claimId]))
  {
    assert c.binding.items == [];
  }

  lemma ApplyChanges(rules: Rules, s: Store, order: seq<string>, c: Challenge, token: string, o: Options, now: int,
                     late: int)
    requires L.Inv(rules, s, order) && L.DigestTexts(rules) && now <= late && Consumes(rules, s, c, token, o, now, late)
    ensures var x := c.binding.claimId;
      var after := AfterApply(rules, s, c, o, now);
      && x in s && x in after && s[x].id == x
      && Changed(rules, c.(consumed := true), Use(c.id, x, o, now, late, s[x], after[x]))
  {
    var x := c.binding.claimId;
    if c.binding.operation == REVOKE {
      L.WithdrawalRecords(s[x], c.binding.revokeReason, o, now);
    } else {
      L.CommitMeans(rules, s, order, x, o, now, x);
    }
  }

  lemma ApplyKeepsClaims(rules: Rules, s: Store, order: seq<string>, c: Challenge, token: string, o: Options, now: int,
                         late: int)
    requires L.Inv(rules, s, order) && L.DigestTexts(rules) && Consumes(rules, s, c, token, o, now, late)
    ensures L.Inv(rules, AfterApply(rules, s, c, o, now),
      if c.binding.operation == REVOKE then order else order + [c.binding.claimId])
  {
    var x := c.binding.claimId;
    if c.binding.operation == REVOKE {
      L.RevokeKeepsInv(rules, s, order, x, c.binding.revokeReason, o, now);
    } else {
      L.ApproveKeepsInv(rules, s, order, x, o, now);
    }
  }

  lemma ItemIsSound(rules: Rules, workspace: string, s: Store, t: Store, c: Challenge, g: GrantEvent, token: string,
                    o: Options, late: int, committed: seq<bool>, i: nat)
    requires Keyed(s) && RecordOk(workspace, c) && GrantOk(c, g) && g.at <= late && TokenAccepted(c, token, late)
    requires BatchChanges(rules, s, t, c, committed, o, late) && i < |committed| && committed[i]
    requires AuthorizationMatches(o, c)
    ensures var x := c.binding.items[i].claimId;
      x in s && x in t && UseOk(rules, c.(consumed := true), g, Use(c.id, x, o, late, late, s[x], t[x]))
  {
    var x := c.binding.items[i].claimId;
    ItemBound(rules, workspace, s, t, c, o, late, committed, i);
    L.PromotionRecords(rules, s[x], o, late);
    ItemChanged(rules, c, Use(c.id, x, o, late, late, s[x], t[x]));
  }

  lemma ItemBound(rules: Rules, workspace: string, s: Store, t: Store, c: Challenge, o: Options, late: int,
                  committed: seq<bool>, i: nat)
    requires Keyed(s) && RecordOk(workspace, c) && c.granted
    requires BatchChanges(rules, s, t, c, committed, o, late) && i < |committed| && committed[i]
    ensures i < |c.binding.items|
    ensures var x := c.binding.items[i].claimId;
      && x in s && x in t && s[x].id == x && s[x].status.Draft? && t[x] == ApprovedOf(rules, s[x], o, late)
      && BoundDigest(c.binding, x) == Some(rules.sum(s[x])) && ItemGranted(c, x)
  {
    var items := c.binding.items;
    var results :| BatchOutcome(rules, s, t, c, results, committed, o, late);
    ItemDigestAt(items, i);
    OnlyGrantedChange(rules, workspace, s, t, c, results, committed, o, late, i);
    assert ItemOutcome(rules, s, t, c, items[i], results[i], committed[i], o, late);
  }

  lemma ItemChanged(rules: Rules, c: Challenge, u: Use)
    requires c.binding.operation != REVOKE && AuthorizationMatches(u.o, c) && u.challengeId == c.id && u.planned == u.at
    requires L.ApprovedFrom(rules, u.before, u.after, u.o, u.planned)
    ensures Changed(rules, c.(consumed := true), u)
  {
  }

  // In a batch that is consumed, each item that was granted, stands at the check, can be
  // planned in the store its turn finds and whose write goes through is approved, and no other.
  lemma GrantedItemsChange(rules: Rules, workspace: string, s: State, t: State, id: string, token: string, o: Options,
                           late: int, outcomes: seq<L.CommitOutcome>, committed: seq<bool>, i: nat)
    returns (results: seq<ItemResult>, stores: seq<Store>)
    requires Inv(rules, workspace, s)
    requires NextBy(rules, workspace, s, t, ApplyBatch(id, token, o, late, outcomes, committed))
    requires id in s.records && BatchConsumes(s.records[id], token, o, s.now, late) && i < |s.records[id].binding.items|
    ensures BatchRun(rules, s.claims, t.claims, s.records[id], results, committed, stores, outcomes, o, late)
    ensures var c := s.records[id];
      var x := c.binding.items[i].claimId;
      && (committed[i] <==>
            && x in c.grantedItems && ItemStands(rules, s.claims, workspace, c.binding.items[i])
            && Plannable(rules, stores[i], x, o, late) && !outcomes[i].NotCommitted?)
      && (committed[i] ==> x in s.claims && x in t.claims && L.ApprovedFrom(rules, s.claims[x], t.claims[x], o, late))
      && (!committed[i] && x in s.claims ==> x in t.claims && t.claims[x] == s.claims[x])
  {
    var c := s.records[id];
    ReadRecord(rules, workspace, s, id);
    results, stores :| BatchRun(rules, s.claims, t.claims, c, results, committed, stores, outcomes, o, late);
    GrantedIsApplied(rules, workspace, c, stores, results, committed, outcomes, o, late, i);
    OnlyGrantedChange(rules, workspace, s.claims, t.claims, c, results, committed, o, late, i);
    assert TurnOf(rules, stores[0], stores[i], stores[i + 1], c, c.binding.items[i], results[i], committed[i],
      outcomes[i], o, late);
  }

  // ----- every step keeps the invariant -----

  lemma PrepareKeepsInv(rules: Rules, workspace: string, s: State, t: State, p: ChallengePrepare, id: string)
    requires Inv(rules, workspace, s) && NextBy(rules, workspace, s, t, PrepareChallenge(p, id))
    ensures Inv(rules, workspace, t)
  {
    assert forall k :: k in s.bound ==> k.0 in s.records;
    PreparedKeeps(rules, workspace, s, p, id);
  }

  lemma PreparedKeeps(rules: Rules, workspace: string, s: State, p: ChallengePrepare, id: string)
    requires ChallengesInv(rules, Readable(workspace), s) && IsChallengeId(id) && id !in s.records
    requires PrepareOk(workspace, p) && p.items == []
    requires p.claimId in s.claims && p.canonicalDraftDigest == rules.sum(s.claims[p.claimId])
    requires forall k :: k in s.bound ==> k.0 in s.records
    ensures ChallengesInv(rules, Readable(workspace),
      s.(records := s.records[id := Prepared(id, p, s.now)], bound := s.bound[(id, p.claimId) := s.claims[p.claimId]]))
  {
    var c, bound := Prepared(id, p, s.now), s.bound[(id, p.claimId) := s.claims[p.claimId]];
    PreparedRecord(rules, workspace, id, p, s.now, s.claims, bound);
    OneBound(rules, Readable(workspace), s, id, c, p.claimId, s.claims[p.claimId], bound);
  }

  // A new record that binds this document of one claim.
  lemma OneBound(rules: Rules, ok: Challenge -> bool, s: State, id: string, c: Challenge, x: string, claim: Claim,
                 bound: Bound)
    requires ChallengesInv(rules, ok, s) && id !in s.records && forall k :: k in s.bound ==> k.0 in s.records
    requires bound == s.bound[(id, x) := claim] && c.id == id && ok(c) && !c.granted && !c.consumed
    requires Binds(rules, c, bound, x) && forall y :: y != x && (id, y) !in bound ==> Binds(rules, c, bound, y)
    ensures ChallengesInv(rules, ok, s.(records := s.records[id := c], bound := bound))
  {
    forall y ensures Binds(rules, c, bound, y) {
      if y != x { assert (id, y) !in s.bound; }
    }
    NewRecord(rules, ok, s, id, c, bound);
  }

  // The record is readable, and binds the document of its claim and no other.
  lemma PreparedRecord(rules: Rules, workspace: string, id: string, p: ChallengePrepare, now: int, claims: Store,
                       bound: Bound)
    requires PrepareOk(workspace, p) && p.items == [] && IsChallengeId(id) && p.claimId in claims
    requires p.canonicalDraftDigest == rules.sum(claims[p.claimId])
    requires (id, p.claimId) in bound && bound[(id, p.claimId)] == claims[p.claimId]
    ensures var c := Prepared(id, p, now);
      && c.id == id && Readable(workspace)(c) && !c.granted && !c.consumed && Binds(rules, c, bound, p.claimId)
      && forall x :: x != p.claimId && (id, x) !in bound ==> Binds(rules, c, bound, x)
  {
    PreparedIsReadable(workspace, id, p, now);
  }

  lemma {:induction false} ItemDigestNone(items: seq<ChallengeItem>, x: string)
    ensures ItemDigest(items, x).Some? <==> x in ClaimIds(items)
  {
    if items != [] {
      ItemDigestNone(items[1..], x);
      assert ClaimIds(items) == [items[0].claimId] + ClaimIds(items[1..]);
    }
  }

  predicate Carries(rules: Rules, s: Store, item: ChallengeItem) {
    item.claimId in s && rules.sum(s[item.claimId]) == item.canonicalDraftDigest
  }

  lemma StandingCarries(rules: Rules, s: Store, workspace: string, item: ChallengeItem)
    requires ItemStands(rules, s, workspace, item)
    ensures Carries(rules, s, item)
  {
  }

  lemma BatchBinds(rules: Rules, workspace: string, s: Store, items: seq<ChallengeItem>, id: string, bound: Bound,
                   now: int, x: string)
    requires Distinct(ClaimIds(items)) && items != [] && forall i :: 0 <= i < |items| ==> Carries(rules, s, items[i])
    requires (id, x) !in bound
    ensures Binds(rules, PreparedBatch(id, workspace, items, now), BindItems(bound, id, items, s), x)
  {
    ItemDigestNone(items, x);
    if x in ClaimIds(items) {
      var i :| 0 <= i < |items| && ClaimIds(items)[i] == x;
      ItemDigestAt(items, i);
      assert Carries(rules, s, items[i]);
      assert items[i].claimId == x && (id, items[i].claimId) in BindItems(bound, id, items, s);
      assert BindItems(bound, id, items, s)[(id, x)] == s[x];
      assert ItemDigest(items, x) == Some(rules.sum(s[x]));
    } else {
      assert (id, x) !in BindItems(bound, id, items, s) by {
        forall i | 0 <= i < |items| ensures items[i].claimId != x { assert ClaimIds(items)[i] != x; }
      }
    }
  }

  lemma PrepareBatchKeepsInv(rules: Rules, workspace: string, s: State, t: State, items: seq<ChallengeItem>, id: string)
    requires Inv(rules, workspace, s) && NextBy(rules, workspace, s, t, PrepareBatchChallenge(items, id))
    ensures Inv(rules, workspace, t)
  {
    PreparedBatchIsReadable(workspace, id, items, s.now);
    NewBatchRecord(rules, workspace, Readable(workspace), s, items, id);
  }

  lemma NewBatchRecord(rules: Rules, workspace: string, ok: Challenge -> bool, s: State, items: seq<ChallengeItem>,
                       id: string)
    requires ChallengesInv(rules, ok, s) && id !in s.records && ok(PreparedBatch(id, workspace, items, s.now))
    requires ItemsOk(items) && forall i :: 0 <= i < |items| ==> ItemStands(rules, s.claims, workspace, items[i])
    ensures ChallengesInv(rules, ok, s.(records := s.records[id := PreparedBatch(id, workspace, items, s.now)],
                                        bound := BindItems(s.bound, id, items, s.claims)))
  {
    forall i | 0 <= i < |items| ensures Carries(rules, s.claims, items[i]) {
      StandingCarries(rules, s.claims, workspace, items[i]);
    }
    forall x
      ensures Binds(rules, PreparedBatch(id, workspace, items, s.now), BindItems(s.bound, id, items, s.claims), x)
    {
      BatchBinds(rules, workspace, s.claims, items, id, s.bound, s.now, x);
    }
    NewRecord(rules, ok, s, id, PreparedBatch(id, workspace, items, s.now), BindItems(s.bound, id, items, s.claims));
  }

  lemma GrantKeepsInv(rules: Rules, workspace: string, s: State, t: State, id: string, granted: seq<string>,
                      skipped: seq<string>, token: string)
    requires Inv(rules, workspace, s)
    requires (NextBy(rules, workspace, s, t, GrantSingle(id, token)) && granted == [] && skipped == [])
      || NextBy(rules, workspace, s, t, GrantBatch(id, granted, skipped, token))
    ensures Inv(rules, workspace, t)
  {
    assert Readable(workspace)(s.records[id]);
    GrantedKeeps(rules, workspace, s, id, granted, skipped, token);
  }

  lemma GrantedKeeps(rules: Rules, workspace: string, s: State, id: string, granted: seq<string>, skipped: seq<string>,
                     token: string)
    requires ChallengesInv(rules, Readable(workspace), s) && id in s.records && RecordOk(workspace, s.records[id])
    requires var c := s.records[id]; !c.granted && Parse(c.expiresAt).Some? && !Expired(c.expiresAt, s.now)
    requires var items := s.records[id].binding.items;
      if items == [] then granted == [] && skipped == [] else Partition(items, granted, skipped)
    ensures ChallengesInv(rules, Readable(workspace),
      s.(records := s.records[id := Granted(s.records[id], granted, skipped, token, s.now)],
         grants := s.grants[id := GrantEvent(token, s.now)]))
  {
    var d := GrantedReadable(workspace, s.records[id], granted, skipped, token, s.now);
    GrantLasts(s.records[id], granted, skipped, token, s.now);
    GrantRecord(rules, Readable(workspace), s, id, d, token);
  }

  lemma GrantedReadable(workspace: string, c: Challenge, granted: seq<string>, skipped: seq<string>, token: string,
                        now: int)
    returns (d: Challenge)
    requires RecordOk(workspace, c) && !c.granted && !c.consumed && !Expired(c.expiresAt, now)
    requires if c.binding.items == [] then granted == [] && skipped == []
      else Partition(c.binding.items, granted, skipped)
    ensures d == Granted(c, granted, skipped, token, now)
    ensures RecordOk(workspace, d) && d.granted && !d.consumed && MovesOn(c, d)
  {
    d := Granted(c, granted, skipped, token, now);
    if c.binding.items == [] {
      GrantIsReadable(workspace, c, token, now);
    } else {
      GrantItemsIsReadable(workspace, c, granted, skipped, token, now);
    }
  }

  lemma GrantLasts(c: Challenge, granted: seq<string>, skipped: seq<string>, token: string, now: int)
    requires Parse(c.expiresAt).Some? && !Expired(c.expiresAt, now) && !c.consumed
    ensures GrantOk(Granted(c, granted, skipped, token, now), GrantEvent(token, now))
  {
    TokenWindow(c, granted, skipped, token, now);
    var d := Granted(c, granted, skipped, token, now);
    assert TokenAccepted(d, token, Parse(d.tokenExpiresAt).value);
  }

  lemma ApplyKeepsInv(rules: Rules, workspace: string, s: State, t: State, id: string, token: string, o: Options,
                      late: int, outcome: L.CommitOutcome)
    requires Inv(rules, workspace, s) && L.DigestTexts(rules)
    requires NextBy(rules, workspace, s, t, Apply(id, token, o, late, outcome))
    ensures Inv(rules, workspace, t)
  {
    if id in s.records && Consumes(rules, s.claims, s.records[id], token, o, s.now, late) {
      var changed := L.Written(rules, Planned(rules, s.claims, s.records[id], o, s.now).value, outcome);
      ApplyStep(rules, workspace, s, t, id, token, o, late, outcome);
      ApplyKeepsClaims(rules, s.claims, s.order, s.records[id], token, o, s.now, late);
      ApplySpends(rules, workspace, s, id, token, o, late, changed);
      assert s.uses + [] == s.uses;
    } else {
      assert t == s.(now := late);
      LaterKeepsInv(rules, workspace, s, late);
    }
  }

  lemma LaterKeepsInv(rules: Rules, workspace: string, s: State, late: int)
    requires Inv(rules, workspace, s) && s.now <= late
    ensures Inv(rules, workspace, s.(now := late))
  {
  }

  // What an apply that is consumed does to the state.
  lemma ApplyStep(rules: Rules, workspace: string, s: State, t: State, id: string, token: string, o: Options,
                  late: int, outcome: L.CommitOutcome)
    requires NextBy(rules, workspace, s, t, Apply(id, token, o, late, outcome))
    requires id in s.records && Consumes(rules, s.claims, s.records[id], token, o, s.now, late)
    ensures s.now <= late
    ensures var c, x := s.records[id], s.records[id].binding.claimId;
      var after := AfterApply(rules, s.claims, c, o, s.now);
      var spent := s.(records := Consumed(s, id), now := late, spent := s.spent + [id]);
      if L.Written(rules, Planned(rules, s.claims, c, o, s.now).value, outcome) then
        && x in s.claims && x in after
        && t == spent.(claims := after, order := if c.binding.operation == REVOKE then s.order else s.order + [x],
                       uses := s.uses + [Use(id, x, o, s.now, late, s.claims[x], after[x])])
      else t == spent
  {
  }

  lemma ApplySpends(rules: Rules, workspace: string, s: State, id: string, token: string, o: Options, late: int,
                    changed: bool)
    requires Inv(rules, workspace, s) && L.DigestTexts(rules) && s.now <= late
    requires id in s.records && Consumes(rules, s.claims, s.records[id], token, o, s.now, late)
    ensures var x, after := s.records[id].binding.claimId, AfterApply(rules, s.claims, s.records[id], o, s.now);
      && x in s.claims && x in after
      && ChallengesInv(rules, Readable(workspace), s.(records := Consumed(s, id), now := late, spent := s.spent + [id],
           uses := s.uses + if changed then [Use(id, x, o, s.now, late, s.claims[x], after[x])] else []))
  {
    ApplyUses(rules, workspace, s, id, token, o, late);
    var x, after := s.records[id].binding.claimId, AfterApply(rules, s.claims, s.records[id], o, s.now);
    SpendOne(rules, Readable(workspace), s, id, late, Use(id, x, o, s.now, late, s.claims[x], after[x]), changed);
  }

  lemma SpendOne(rules: Rules, ok: Challenge -> bool, s: State, id: string, late: int, u: Use, changed: bool)
    requires ChallengesInv(rules, ok, s) && s.now <= late
    requires id in s.records && s.records[id].granted && !s.records[id].consumed && ok(s.records[id].(consumed := true))
    requires id in s.grants && u.challengeId == id && UseOk(rules, s.records[id].(consumed := true), s.grants[id], u)
    ensures ChallengesInv(rules, ok, s.(records := Consumed(s, id), now := late, spent := s.spent + [id],
      uses := s.uses + if changed then [u] else []))
  {
    SpendRecord(rules, ok, s, id, late, if changed then [u] else []);
  }

  lemma ApplyUses(rules: Rules, workspace: string, s: State, id: string, token: string, o: Options, late: int)
    requires Inv(rules, workspace, s) && L.DigestTexts(rules) && s.now <= late
    requires id in s.records && Consumes(rules, s.claims, s.records[id], token, o, s.now, late)
    ensures var c, x := s.records[id], s.records[id].binding.claimId;
      var after := AfterApply(rules, s.claims, c, o, s.now);
      && c.granted && !c.consumed && Readable(workspace)(c.(consumed := true)) && id in s.grants
      && x in s.claims && x in after
      && UseOk(rules, c.(consumed := true), s.grants[id], Use(id, x, o, s.now, late, s.claims[x], after[x]))
  {
    ReadRecord(rules, workspace, s, id);
    ApplyIsSound(rules, workspace, s.claims, s.order, s.records[id], s.grants[id], token, o, s.now, late);
  }

  // What the invariant says of a granted record that is about to be consumed.
  lemma ReadRecord(rules: Rules, workspace: string, s: State, id: string)
    requires ChallengesInv(rules, Readable(workspace), s) && id in s.records && s.records[id].granted
    ensures var c := s.records[id];
      && c.id == id && RecordOk(workspace, c) && Readable(workspace)(c.(consumed := true))
      && id in s.grants && s.grants[id].at <= s.now && GrantOk(c, s.grants[id])
  {
    assert Readable(workspace)(s.records[id]);
    ConsumedIsReadable(workspace, s.records[id]);
  }

  lemma ApplyBatchKeepsInv(rules: Rules, workspace: string, s: State, t: State, id: string, token: string, o: Options,
                           late: int, outcomes: seq<L.CommitOutcome>, committed: seq<bool>)
    requires Inv(rules, workspace, s)
    requires NextBy(rules, workspace, s, t, ApplyBatch(id, token, o, late, outcomes, committed))
    ensures Inv(rules, workspace, t)
  {
    if id in s.records && BatchConsumes(s.records[id], token, o, s.now, late) {
      TurnsChange(rules, s.claims, t.claims, s.records[id], committed, outcomes, o, late);
      BatchKeepsClaims(rules, workspace, s, t.claims, id, committed, o, late);
      BatchSpends(rules, workspace, s, t.claims, id, token, o, late, committed);
    }
  }

  lemma BatchKeepsClaims(rules: Rules, workspace: string, s: State, after: Store, id: string, committed: seq<bool>,
                         o: Options, late: int)
    requires Inv(rules, workspace, s) && id in s.records && s.records[id].granted && s.records[id].binding.items != []
    requires BatchChanges(rules, s.claims, after, s.records[id], committed, o, late)
    ensures L.Inv(rules, after, s.order + ChangedIds(s.records[id].binding.items, committed))
  {
    ReadRecord(rules, workspace, s, id);
    BatchPromotes(rules, s.claims, after, s.records[id], committed, o, late);
    PromotionsKeepInv(rules, s.claims, after, s.order, ChangedIds(s.records[id].binding.items, committed), o, late);
  }

  lemma BatchSpends(rules: Rules, workspace: string, s: State, after: Store, id: string, token: string, o: Options,
                    late: int, committed: seq<bool>)
    requires ChallengesInv(rules, Readable(workspace), s) && Keyed(s.claims) && s.now <= late
    requires id in s.records && s.records[id].binding.items != [] && TokenAccepted(s.records[id], token, late)
    requires AuthorizationMatches(o, s.records[id])
    requires BatchChanges(rules, s.claims, after, s.records[id], committed, o, late)
    requires forall x :: x in ChangedIds(s.records[id].binding.items, committed) ==> x in s.claims && x in after
    ensures ChallengesInv(rules, Readable(workspace),
      s.(records := Consumed(s, id), now := late, spent := s.spent + [id],
      uses := s.uses + UsesOf(id, ChangedIds(s.records[id].binding.items, committed), s.claims, after, o, late)))
  {
    ReadRecord(rules, workspace, s, id);
    BatchUses(rules, workspace, s.claims, after, s.records[id], s.grants[id], token, o, late, committed);
    SpendRecord(rules, Readable(workspace), s, id, late,
      UsesOf(id, ChangedIds(s.records[id].binding.items, committed), s.claims, after, o, late));
  }

  lemma BatchUses(rules: Rules, workspace: string, s: Store, t: Store, c: Challenge, g: GrantEvent, token: string,
                  o: Options, late: int, committed: seq<bool>)
    requires Keyed(s) && RecordOk(workspace, c) && GrantOk(c, g) && g.at <= late && TokenAccepted(c, token, late)
    requires BatchChanges(rules, s, t, c, committed, o, late) && c.binding.items != [] && AuthorizationMatches(o, c)
    requires forall x :: x in ChangedIds(c.binding.items, committed) ==> x in s && x in t
    ensures var more := UsesOf(c.id, ChangedIds(c.binding.items, committed), s, t, o, late);
      && (forall k :: 0 <= k < |more| ==> more[k].challengeId == c.id && UseOk(rules, c.(consumed := true), g, more[k]))
      && (forall j, k :: 0 <= j < k < |more| ==> more[j].claimId != more[k].claimId)
  {
    var items := c.binding.items;
    var ids := ChangedIds(items, committed);
    ChangedIdsAre(items, committed);
    var more := UsesOf(c.id, ids, s, t, o, late);
    forall k | 0 <= k < |more| ensures UseOk(rules, c.(consumed := true), g, more[k]) {
      assert ids[k] in ids;
      var i :| 0 <= i < |items| && IsCommitted(items, committed, i, ids[k]);
      ItemIsSound(rules, workspace, s, t, c, g, token, o, late, committed, i);
    }
  }

  lemma StepKeepsInv(rules: Rules, workspace: string, s: State, t: State, step: Step)
    requires Inv(rules, workspace, s) && L.DigestTexts(rules) && NextBy(rules, workspace, s, t, step)
    ensures Inv(rules, workspace, t)
  {
    match step
    case Tick(later) =>
    case WriteDraft(c) => L.DraftKeepsInv(rules, s.claims, s.order, c);
    case ApproveDirect(id, o) => L.ApproveKeepsInv(rules, s.claims, s.order, id, o, s.now);
    case RevokeDirect(id, reason, o) => L.RevokeKeepsInv(rules, s.claims, s.order, id, reason, o, s.now);
    case PrepareChallenge(p, id) => PrepareKeepsInv(rules, workspace, s, t, p, id);
    case PrepareBatchChallenge(items, id) => PrepareBatchKeepsInv(rules, workspace, s, t, items, id);
    case GrantSingle(id, token) => GrantKeepsInv(rules, workspace, s, t, id, [], [], token);
    case GrantBatch(id, granted, skipped, token) => GrantKeepsInv(rules, workspace, s, t, id, granted, skipped, token);
    case Apply(id, token, o, late, outcome) => ApplyKeepsInv(rules, workspace, s, t, id, token, o, late, outcome);
    case ApplyBatch(id, token, o, late, outcomes, committed) =>
      ApplyBatchKeepsInv(rules, workspace, s, t, id, token, o, late, outcomes, committed);
  }
}
