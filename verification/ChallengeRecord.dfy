/** The challenge record, its validity on every read and write, and the ceremony operations
    that change it. */
module ChallengeRecord {
  import opened Wrappers
  import opened Clock
  import opened Ordering
  import opened Identifiers
  import opened ChallengeEncoding

  const CHALLENGE_LIFETIME: int := 15 * 60 * NANOS
  const TOKEN_LIFETIME: int := 5 * 60 * NANOS

  const SCHEMA: string := "zbrain.challenge/v3"
  const APPROVE: string := "approve"
  const SUPERSEDE: string := "supersede"
  const REVOKE: string := "revoke"

  // ----- texts in a record -----

  // Only the hash of a token is stored; it stands for the token it is the hash of.
  datatype TokenHash = NoToken | HashOf(token: string) | BadHash(text: string)

  datatype ActionDigest = DigestOf(preimage: Bytes) | OtherDigest(text: string)

  function ActionDigestOf(p: ChallengePrepare): ActionDigest {
    DigestOf(Encode(p))
  }

  datatype Challenge = Challenge(
    schema: string,
    id: string,
    binding: ChallengePrepare,
    grantedItems: seq<string>,
    skippedItems: seq<string>,
    actionDigest: ActionDigest,
    tokenSha256: TokenHash,
    expiresAt: TimeText,
    tokenExpiresAt: TimeText,
    granted: bool,
    grantedAt: TimeText,
    consumed: bool
  )

  // ----- checks -----

  predicate KnownOperation(op: string) {
    op == APPROVE || op == SUPERSEDE || op == REVOKE
  }

  predicate DigestText(s: string) {
    s == "" || StartsWith(s, "sha256:")
  }

  function ClaimIds(items: seq<ChallengeItem>): seq<string> {
    seq(|items|, i requires 0 <= i < |items| => items[i].claimId)
  }

  // Non-empty, well-formed, and no claim bound twice.
  predicate ItemsOk(items: seq<ChallengeItem>) {
    && items != []
    && (forall i :: 0 <= i < |items| ==>
          IsClaimId(items[i].claimId) && StartsWith(items[i].canonicalDraftDigest, "sha256:"))
    && Distinct(ClaimIds(items))
  }

  predicate PrepareOk(workspace: string, p: ChallengePrepare) {
    && p.workspace == workspace
    && (if p.items != [] then p.operation == APPROVE && ItemsOk(p.items)
        else
          && KnownOperation(p.operation) && IsClaimId(p.claimId)
          && DigestText(p.canonicalDraftDigest) && DigestText(p.priorVerificationDigest)
          && (forall id :: id in p.supersededIds ==> IsClaimId(id))
          && (p.operation == REVOKE ==> !IsBlank(p.revokeReason)))
  }

  // Every decided id is bound, decided once, and as many are decided as are bound.
  predicate Partition(items: seq<ChallengeItem>, granted: seq<string>, skipped: seq<string>) {
    && (forall id :: id in granted + skipped ==> id in ClaimIds(items))
    && Distinct(granted + skipped)
    && |granted| + |skipped| == |items|
  }

  predicate RecordBindingOk(workspace: string, b: ChallengePrepare) {
    && b.workspace == workspace && KnownOperation(b.operation)
    && (if b.items != [] then
          && b.operation == APPROVE && ItemsOk(b.items)
          && b.claimId == "" && b.canonicalDraftDigest == "" && b.supersededIds == []
          && b.priorVerificationDigest == "" && b.revokeReason == ""
        else IsClaimId(b.claimId))
    && DigestText(b.canonicalDraftDigest) && DigestText(b.priorVerificationDigest)
    && (forall id :: id in b.supersededIds ==> IsClaimId(id))
  }

  predicate TokenOk(c: Challenge) {
    && Parse(c.expiresAt).Some?
    && (c.consumed ==> c.granted)
    && (if c.granted then
          && c.tokenSha256.HashOf?
          && Parse(c.tokenExpiresAt).Some? && Parse(c.tokenExpiresAt).value <= Parse(c.expiresAt).value
          && Parse(c.grantedAt).Some?
        else
          c.tokenSha256 == NoToken && c.tokenExpiresAt == NoTime && c.grantedAt == NoTime)
  }

  predicate DecisionsOk(c: Challenge) {
    if c.binding.items == [] || !c.granted then c.grantedItems == [] && c.skippedItems == []
    else Partition(c.binding.items, c.grantedItems, c.skippedItems)
  }

  // The check made on every read and before every write.
  predicate RecordOk(workspace: string, c: Challenge) {
    && c.schema == SCHEMA && IsChallengeId(c.id)
    && RecordBindingOk(workspace, c.binding)
    && TokenOk(c) && DecisionsOk(c)
    && c.actionDigest == ActionDigestOf(c.binding)
  }

  // ----- the operations on one record -----

  function Prepared(id: string, p: ChallengePrepare, now: int): Challenge {
    Challenge(SCHEMA, id, p.(supersededIds := Sort(p.supersededIds), items := []), [], [], ActionDigestOf(p),
      NoToken, Rfc3339(now + CHALLENGE_LIFETIME), NoTime, false, NoTime, false)
  }

  function BatchBinding(workspace: string, items: seq<ChallengeItem>): ChallengePrepare {
    ChallengePrepare(workspace, APPROVE, "", "", [], "", "", items)
  }

  function PreparedBatch(id: string, workspace: string, items: seq<ChallengeItem>, now: int): Challenge {
    Challenge(SCHEMA, id, BatchBinding(workspace, items), [], [], ActionDigestOf(BatchBinding(workspace, items)),
      NoToken, Rfc3339(now + CHALLENGE_LIFETIME), NoTime, false, NoTime, false)
  }

  function Granted(c: Challenge, granted: seq<string>, skipped: seq<string>, token: string, now: int): Challenge
    requires Parse(c.expiresAt).Some?
  {
    var limit := Parse(c.expiresAt).value;
    var tokenExpiry := if now + TOKEN_LIFETIME > limit then limit else now + TOKEN_LIFETIME;
    c.(grantedItems := granted, skippedItems := skipped, tokenSha256 := HashOf(token),
       tokenExpiresAt := Rfc3339(tokenExpiry), granted := true, grantedAt := Rfc3339(now))
  }

  // An owner-granted, unconsumed, unexpired challenge and the token released for it.
  predicate TokenAccepted(c: Challenge, token: string, now: int) {
    && c.granted && !c.consumed
    && Parse(c.expiresAt).Some? && !Expired(c.expiresAt, now)
    && Parse(c.tokenExpiresAt).Some? && !Expired(c.tokenExpiresAt, now)
    && c.tokenSha256 == HashOf(token)
  }

  // ----- what the operations write is what the reader accepts -----

  lemma SortedIdsOk(p: ChallengePrepare)
    ensures (forall id :: id in p.supersededIds ==> IsClaimId(id)) <==>
      forall id :: id in Sort(p.supersededIds) ==> IsClaimId(id)
  {
    forall id ensures id in Sort(p.supersededIds) <==> id in p.supersededIds {
      SortMembers(p.supersededIds, Self, id);
    }
  }

  // A record passes exactly when it is an open request or a released one, of one claim or of a
  // batch, under its own digest.
  lemma RecordExactly(workspace: string, c: Challenge)
    ensures RecordOk(workspace, c) <==>
      && c.schema == "zbrain.challenge/v3" && IsChallengeId(c.id) && c.binding.workspace == workspace
      && (BindsOne(c.binding) || BindsBatch(c.binding)) && c.actionDigest == DigestOf(Encode(c.binding))
      && Parse(c.expiresAt).Some? && (Open(c) || Released(c))
  {
    BindingExactly(workspace, c.binding);
    if RecordBindingOk(workspace, c.binding) && Parse(c.expiresAt).Some? { PhaseExactly(c); }
  }

  lemma BindingExactly(workspace: string, b: ChallengePrepare)
    ensures RecordBindingOk(workspace, b) <==> b.workspace == workspace && (BindsOne(b) || BindsBatch(b))
  {
    if b.items == [] {
      assert (forall id :: id in b.supersededIds ==> IsClaimId(id)) <==>
        forall i :: 0 <= i < |b.supersededIds| ==> IsClaimId(b.supersededIds[i]);
    } else {
      assert Distinct(ClaimIds(b.items)) <==>
        forall i, j :: 0 <= i < j < |b.items| ==> b.items[i].claimId != b.items[j].claimId by {
        forall i | 0 <= i < |b.items| ensures ClaimIds(b.items)[i] == b.items[i].claimId {}
      }
    }
  }

  lemma PhaseExactly(c: Challenge)
    requires Parse(c.expiresAt).Some? && (c.binding.items == [] || Distinct(ClaimIds(c.binding.items)))
    ensures TokenOk(c) && DecisionsOk(c) <==> Open(c) || Released(c)
  {
    PartitionCounts(c.binding.items, c.grantedItems, c.skippedItems);
  }

  // The decisions partition the items exactly when together they are the bound ids.
  lemma PartitionCounts(items: seq<ChallengeItem>, granted: seq<string>, skipped: seq<string>)
    requires Distinct(ClaimIds(items))
    ensures Partition(items, granted, skipped) <==>
      multiset(granted) + multiset(skipped) == multiset(ClaimIds(items))
  {
    var all, ids := granted + skipped, ClaimIds(items);
    assert multiset(all) == multiset(granted) + multiset(skipped);
    DistinctIsOnce(all);
    DistinctIsOnce(ids);
    if Partition(items, granted, skipped) {
      PartitionCovers(items, granted, skipped);
      forall id ensures multiset(all)[id] == multiset(ids)[id] {
        assert id in all <==> id in ids;
        assert id in multiset(all) <==> id in all;
      }
    }
    if multiset(all) == multiset(ids) {
      assert |all| == |multiset(all)| == |multiset(ids)| == |ids|;
      forall id | id in all ensures id in ids { assert id in multiset(all); }
    }
  }

  ghost predicate BindsOne(b: ChallengePrepare) {
    && b.items == [] && b.operation in ["approve", "supersede", "revoke"] && IsClaimId(b.claimId)
    && (forall i :: 0 <= i < |b.supersededIds| ==> IsClaimId(b.supersededIds[i]))
    && (b.canonicalDraftDigest != "" ==> StartsWith(b.canonicalDraftDigest, "sha256:"))
    && (b.priorVerificationDigest != "" ==> StartsWith(b.priorVerificationDigest, "sha256:"))
  }

  ghost predicate BindsBatch(b: ChallengePrepare) {
    && b == ChallengePrepare(b.workspace, "approve", "", "", [], "", "", b.items) && b.items != []
    && (forall item :: item in b.items ==>
          IsClaimId(item.claimId) && StartsWith(item.canonicalDraftDigest, "sha256:"))
    && forall i, j :: 0 <= i < j < |b.items| ==> b.items[i].claimId != b.items[j].claimId
  }

  // Nothing of a grant is there yet.
  ghost predicate Open(c: Challenge) {
    && !c.granted && !c.consumed && c.tokenSha256 == NoToken && c.tokenExpiresAt == NoTime && c.grantedAt == NoTime
    && c.grantedItems == [] && c.skippedItems == []
  }

  // The token does not outlive the challenge, and each bound item is in one of the two lists,
  // and there once.
  ghost predicate Released(c: Challenge)
    requires Parse(c.expiresAt).Some?
  {
    && c.granted && c.tokenSha256.HashOf? && Parse(c.grantedAt).Some? && Parse(c.tokenExpiresAt).Some?
    && Parse(c.tokenExpiresAt).value <= Parse(c.expiresAt).value
    && multiset(c.grantedItems) + multiset(c.skippedItems) == multiset(ClaimIds(c.binding.items))
  }

  // A request for one claim is accepted exactly when the record made of it passes the write
  // check, apart from the reason that a revocation must have. The general prepare drops the
  // items of a batch from the record, and that record never passes: its digest cannot match.
  lemma PreparedIsReadable(workspace: string, id: string, p: ChallengePrepare, now: int)
    requires IsChallengeId(id) && (p.items != [] ==> Fits(p))
    ensures p.items == [] ==>
      (PrepareOk(workspace, p) <==>
        RecordOk(workspace, Prepared(id, p, now)) && (p.operation == REVOKE ==> !IsBlank(p.revokeReason)))
    ensures PrepareOk(workspace, p) && p.items != [] ==> !RecordOk(workspace, Prepared(id, p, now))
  {
    var c := Prepared(id, p, now);
    if p.items == [] {
      SortedIdsOk(p);
      StoredRederives(p);
      assert c.binding == p.(supersededIds := Sort(p.supersededIds));
    } else if RecordOk(workspace, c) && PrepareOk(workspace, p) {
      SortTwice(p.supersededIds);
      EncodeInjective(c.binding, p);
    }
  }

  lemma PreparedBatchIsReadable(workspace: string, id: string, items: seq<ChallengeItem>, now: int)
    requires IsChallengeId(id)
    ensures RecordOk(workspace, PreparedBatch(id, workspace, items, now)) <==> ItemsOk(items)
  {
  }

  // The written token expiry never passes the challenge expiry, the token is valid at the
  // instant it is granted, and it lasts at most five minutes.
  lemma TokenWindow(c: Challenge, granted: seq<string>, skipped: seq<string>, token: string, now: int)
    requires Parse(c.expiresAt).Some? && !Expired(c.expiresAt, now) && !c.consumed
    ensures var g := Granted(c, granted, skipped, token, now);
      && Parse(g.tokenExpiresAt).value <= Parse(g.expiresAt).value
      && TokenAccepted(g, token, now)
      && (forall later, t :: TokenAccepted(g, t, later) ==> later <= now + 300_000_000_000 && t == token)
      && (forall later, t :: TokenAccepted(g, t, later) <==>
            t == token && later <= Parse(c.expiresAt).value && later <= (now + 300_000_000_000) / NANOS * NANOS)
  {
    var limit := Parse(c.expiresAt).value;
    var expiry := if now + TOKEN_LIFETIME > limit then limit else now + TOKEN_LIFETIME;
    assert expiry / NANOS * NANOS <= expiry < expiry / NANOS * NANOS + NANOS;
    assert limit / NANOS == c.expiresAt.seconds;
  }

  // What a grant writes besides the time of the token, and what it leaves alone.
  lemma GrantWrites(c: Challenge, granted: seq<string>, skipped: seq<string>, token: string, now: int)
    requires Parse(c.expiresAt).Some?
    ensures var g := Granted(c, granted, skipped, token, now);
      && g.granted && g.grantedItems == granted && g.skippedItems == skipped && g.tokenSha256 == HashOf(token)
      && Parse(g.grantedAt) == Some(now / NANOS * NANOS)
      && g.schema == c.schema && g.id == c.id && g.binding == c.binding && g.actionDigest == c.actionDigest
      && g.expiresAt == c.expiresAt && g.consumed == c.consumed
  {
  }

  // A prepared challenge binds what it was given, is open for fifteen minutes, and is neither
  // granted nor consumed.
  lemma PreparedBinds(id: string, p: ChallengePrepare, now: int)
    requires p.items == []
    ensures var c := Prepared(id, p, now);
      && c.id == id && c.binding.workspace == p.workspace && c.binding.operation == p.operation
      && c.binding.claimId == p.claimId && c.binding.canonicalDraftDigest == p.canonicalDraftDigest
      && multiset(c.binding.supersededIds) == multiset(p.supersededIds) && SortedBy(c.binding.supersededIds, Self)
      && c.binding.priorVerificationDigest == p.priorVerificationDigest && c.binding.revokeReason == p.revokeReason
      && c.binding.items == [] && !c.granted && !c.consumed
      && Parse(c.expiresAt) == Some((now + 900_000_000_000) / NANOS * NANOS)
  {
    SortSorts(p.supersededIds, Self);
  }

  lemma PreparedBatchBinds(id: string, workspace: string, items: seq<ChallengeItem>, now: int)
    ensures var c := PreparedBatch(id, workspace, items, now);
      && c.id == id && c.binding.workspace == workspace && c.binding.operation == APPROVE && c.binding.items == items
      && !c.granted && !c.consumed && Parse(c.expiresAt) == Some((now + 900_000_000_000) / NANOS * NANOS)
  {
  }

  // Granting a single-claim challenge always passes the write check; granting a batch as if
  // it were a single claim never does.
  lemma GrantIsReadable(workspace: string, c: Challenge, token: string, now: int)
    requires RecordOk(workspace, c) && !c.granted && !Expired(c.expiresAt, now)
    ensures RecordOk(workspace, Granted(c, [], [], token, now)) <==> c.binding.items == []
  {
    TokenWindow(c, [], [], token, now);
  }

  lemma GrantItemsIsReadable(workspace: string, c: Challenge, granted: seq<string>, skipped: seq<string>, token: string,
                             now: int)
    requires RecordOk(workspace, c) && !c.granted && !Expired(c.expiresAt, now) && c.binding.items != []
    ensures RecordOk(workspace, Granted(c, granted, skipped, token, now)) <==>
      Partition(c.binding.items, granted, skipped)
  {
    TokenWindow(c, granted, skipped, token, now);
  }

  lemma ConsumedIsReadable(workspace: string, c: Challenge)
    requires RecordOk(workspace, c)
    ensures RecordOk(workspace, c.(consumed := true)) <==> c.granted
  {
  }

  // ----- counting: the decisions partition the bound items -----

  // The record check only compares lengths; it follows that each bound item is granted or
  // skipped, and none is both.
  lemma PartitionCovers(items: seq<ChallengeItem>, granted: seq<string>, skipped: seq<string>)
    requires Partition(items, granted, skipped) && Distinct(ClaimIds(items))
    ensures forall id :: id in ClaimIds(items) <==> id in granted || id in skipped
    ensures forall id :: !(id in granted && id in skipped)
    ensures Distinct(granted) && Distinct(skipped)
  {
    var all := granted + skipped;
    var a, b := set id | id in all, set id | id in ClaimIds(items);
    DistinctSize(all);
    DistinctSize(ClaimIds(items));
    SubsetOfSameSize(a, b);
    forall id ensures id in ClaimIds(items) <==> id in granted || id in skipped {
      assert id in b <==> id in ClaimIds(items);
      assert id in a <==> id in all;
    }
    forall id | id in granted ensures id !in skipped {
      var i :| 0 <= i < |granted| && granted[i] == id;
      forall j | 0 <= j < |skipped| ensures skipped[j] != id {
        assert all[i] == id && all[|granted| + j] == skipped[j];
      }
    }
    forall i, j | 0 <= i < j < |granted| ensures granted[i] != granted[j] {
      assert all[i] == granted[i] && all[j] == granted[j];
    }
    forall i, j | 0 <= i < j < |skipped| ensures skipped[i] != skipped[j] {
      assert all[|granted| + i] == skipped[i] && all[|granted| + j] == skipped[j];
    }
  }
}
