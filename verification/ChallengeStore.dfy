/** The store of challenge records and the owner's grant walk. Random ids and tokens are
    parameters: an id is fresh, a token is whatever the generator gave. */
module ChallengeStore {
  import opened Wrappers
  import opened Clock
  import opened Identifiers
  import opened ChallengeEncoding
  import opened ChallengeRecord

  class ChallengeStore {
    const workspace: string
    var records: map<string, Challenge>

    // Every stored record passes the reader's check under its own id.
    ghost predicate Valid()
      reads this
    {
      forall id :: id in records ==> records[id].id == id && RecordOk(workspace, records[id])
    }

    constructor (workspace: string)
      ensures Valid() && records == map[] && this.workspace == workspace
    {
      this.workspace := workspace;
      records := map[];
    }

    // Nothing that fails the record check is ever written.
    method WriteChallenge(c: Challenge) returns (ok: bool)
      requires Valid()
      modifies this
      ensures Valid() && ok == RecordOk(workspace, c)
      ensures records == if ok then old(records)[c.id := c] else old(records)
    {
      ok := RecordOk(workspace, c);
      if ok { records := records[c.id := c]; }
    }

    method Prepare(p: ChallengePrepare, id: string, now: int) returns (c: Option<Challenge>)
      requires Valid() && IsChallengeId(id) && id !in records && Fits(p)
      modifies this
      ensures Valid()
      ensures c == if PrepareOk(workspace, p) && p.items == [] then Some(Prepared(id, p, now)) else None
      ensures records == if c.Some? then old(records)[id := c.value] else old(records)
    {
      if !PrepareOk(workspace, p) { return None; }
      PreparedIsReadable(workspace, id, p, now);
      var ok := WriteChallenge(Prepared(id, p, now));
      return if ok then Some(Prepared(id, p, now)) else None;
    }

    method PrepareBatch(items: seq<ChallengeItem>, id: string, now: int) returns (c: Option<Challenge>)
      requires Valid() && IsChallengeId(id) && id !in records
      modifies this
      ensures Valid()
      ensures c == if ItemsOk(items) then Some(PreparedBatch(id, workspace, items, now)) else None
      ensures records == if c.Some? then old(records)[id := c.value] else old(records)
    {
      var normal := CheckItems(items);
      if !normal { return None; }
      PreparedBatchIsReadable(workspace, id, items, now);
      var _ := WriteChallenge(PreparedBatch(id, workspace, items, now));
      return Some(PreparedBatch(id, workspace, items, now));
    }

    method Grant(id: string, token: string, now: int) returns (c: Option<Challenge>)
      requires Valid()
      modifies this
      ensures Valid()
      ensures c.Some? <==> id in old(records) && var r := old(records)[id];
        !r.granted && !Expired(r.expiresAt, now) && r.binding.items == []
      ensures c.Some? ==> c.value == Granted(old(records)[id], [], [], token, now)
      ensures records == if c.Some? then old(records)[id := c.value] else old(records)
    {
      if id !in records || records[id].granted || Expired(records[id].expiresAt, now) { return None; }
      var granted := Granted(records[id], [], [], token, now).(
        grantedItems := records[id].grantedItems, skippedItems := records[id].skippedItems);
      assert granted == Granted(records[id], [], [], token, now);
      GrantIsReadable(workspace, records[id], token, now);
      var ok := WriteChallenge(granted);
      return if ok then Some(granted) else None;
    }

    method GrantItems(id: string, granted: seq<string>, skipped: seq<string>, token: string, now: int)
      returns (c: Option<Challenge>)
      requires Valid()
      modifies this
      ensures Valid()
      ensures c.Some? <==> id in old(records) && var r := old(records)[id];
        r.binding.items != [] && !r.granted && Partition(r.binding.items, granted, skipped)
        && granted != [] && !Expired(r.expiresAt, now)
      ensures c.Some? ==> c.value == Granted(old(records)[id], granted, skipped, token, now)
      ensures records == if c.Some? then old(records)[id := c.value] else old(records)
    {
      if id !in records || records[id].binding.items == [] || records[id].granted { return None; }
      var ok := CheckPartition(records[id].binding.items, granted, skipped);
      if !ok || granted == [] || Expired(records[id].expiresAt, now) { return None; }
      GrantItemsIsReadable(workspace, records[id], granted, skipped, token, now);
      var g := Granted(records[id], granted, skipped, token, now);
      var _ := WriteChallenge(g);
      return Some(g);
    }

    method Consume(id: string, token: string, now: int) returns (ok: bool)
      requires Valid()
      modifies this
      ensures Valid()
      ensures ok <==> id in old(records) && TokenAccepted(old(records)[id], token, now)
      ensures records == if ok then old(records)[id := old(records)[id].(consumed := true)] else old(records)
    {
      if id !in records || !TokenAccepted(records[id], token, now) { return false; }
      ok := WriteChallenge(records[id].(consumed := true));
    }

    // The batch walk: each bound item is confirmed by the last characters of its digest or
    // skipped by name; a wrong answer ends the walk before anything is recorded. When the
    // walk ends, its decisions always meet the partition rule, so the grant can fail only
    // because the challenge expired or was granted meanwhile.
    method RunGrantBatch(shown: Challenge, answers: seq<string>, token: string, now: int)
      returns (denied: bool, granted: seq<string>, skipped: seq<string>, released: Option<Challenge>)
      requires Valid() && |answers| == |shown.binding.items|
      requires shown.id in records && records[shown.id].binding == shown.binding && shown.binding.items != []
      modifies this
      ensures Valid()
      ensures denied <==> SomeDenied(shown.binding.items, answers)
      ensures !denied ==> Partition(shown.binding.items, granted, skipped)
      ensures !denied ==> Decided(shown.binding.items, answers, granted, skipped)
      ensures released.Some? == (!denied && granted != [] && !old(records)[shown.id].granted
                                 && !Expired(old(records)[shown.id].expiresAt, now))
      ensures records == if released.Some? then old(records)[shown.id := released.value] else old(records)
      ensures released.Some? ==>
        && released.value == Granted(old(records)[shown.id], granted, skipped, token, now)
        && released.value.grantedItems == granted && released.value.skippedItems == skipped
        && released.value.binding == shown.binding && released.value.tokenSha256 == HashOf(token)
    {
      released := None;
      denied, granted, skipped := WalkAnswers(shown.binding.items, answers);
      if denied || granted == [] { return; }
      released := GrantItems(shown.id, granted, skipped, token, now);
    }
  }

  method WalkAnswers(items: seq<ChallengeItem>, answers: seq<string>)
    returns (denied: bool, granted: seq<string>, skipped: seq<string>)
    requires |answers| == |items| && Distinct(ClaimIds(items))
    ensures denied <==> SomeDenied(items, answers)
    ensures !denied ==> Partition(items, granted, skipped) && Decided(items, answers, granted, skipped)
  {
    granted, skipped := [], [];
    for i := 0 to |items|
      invariant granted == Chosen(items[..i], answers[..i], Confirm)
      invariant skipped == Chosen(items[..i], answers[..i], Skip)
      invariant forall k :: 0 <= k < i ==> Reply(items[k], answers[k]) != Mismatch
    {
      ChosenNext(items, answers, Confirm, i);
      ChosenNext(items, answers, Skip, i);
      match Reply(items[i], answers[i])
      case Skip => skipped := skipped + [items[i].claimId];
      case Confirm => granted := granted + [items[i].claimId];
      case Mismatch =>
        DeniedAt(items, answers, i);
        return true, [], [];
    }
    assert items[..|items|] == items && answers[..|items|] == answers;
    WalkEnds(items, answers);
    denied := false;
  }

  lemma ChosenNext(items: seq<ChallengeItem>, answers: seq<string>, want: Answer, i: nat)
    requires |items| == |answers| && i < |items|
    ensures Chosen(items[..i + 1], answers[..i + 1], want)
      == Chosen(items[..i], answers[..i], want) + if Reply(items[i], answers[i]) == want then [items[i].claimId] else []
  {
    assert items[..i + 1][..i] == items[..i] && answers[..i + 1][..i] == answers[..i];
  }

  lemma WalkEnds(items: seq<ChallengeItem>, answers: seq<string>)
    requires |items| == |answers| && Distinct(ClaimIds(items))
    requires forall i :: 0 <= i < |items| ==> Reply(items[i], answers[i]) != Mismatch
    ensures !SomeDenied(items, answers)
    ensures var granted, skipped := Chosen(items, answers, Confirm), Chosen(items, answers, Skip);
      Partition(items, granted, skipped) && Decided(items, answers, granted, skipped)
  {
    forall i | 0 <= i < |items| ensures !Denies(items[i], answers[i]) { ReplyIs(items[i], answers[i]); }
    WalkPartitions(items, answers);
    WalkDecides(items, answers);
  }

  lemma DeniedAt(items: seq<ChallengeItem>, answers: seq<string>, i: nat)
    requires |items| == |answers| && i < |items| && Reply(items[i], answers[i]) == Mismatch
    ensures SomeDenied(items, answers)
  {
    ReplyIs(items[i], answers[i]);
  }

  // ----- loops over a growing set of seen ids -----

  method CheckItems(items: seq<ChallengeItem>) returns (ok: bool)
    ensures ok == ItemsOk(items)
  {
    if items == [] { return false; }
    var seen: set<string> := {};
    var ids := ClaimIds(items);
    for i := 0 to |items|
      invariant forall k :: 0 <= k < i ==>
        IsClaimId(items[k].claimId) && StartsWith(items[k].canonicalDraftDigest, "sha256:")
      invariant seen == set k | 0 <= k < i :: ids[k]
      invariant forall j, k :: 0 <= j < k < i ==> ids[j] != ids[k]
    {
      assert ids[i] == items[i].claimId;
      if !IsClaimId(items[i].claimId) || !StartsWith(items[i].canonicalDraftDigest, "sha256:") { return false; }
      if items[i].claimId in seen {
        var k :| 0 <= k < i && ids[k] == items[i].claimId;
        assert ids[k] == ids[i];
        return false;
      }
      seen := seen + {items[i].claimId};
    }
    return true;
  }

  method CheckPartition(items: seq<ChallengeItem>, granted: seq<string>, skipped: seq<string>) returns (ok: bool)
    ensures ok == Partition(items, granted, skipped)
  {
    var bound := ClaimIds(items);
    var all := granted + skipped;
    var seen: set<string> := {};
    for i := 0 to |all|
      invariant forall k :: 0 <= k < i ==> all[k] in bound
      invariant seen == set k | 0 <= k < i :: all[k]
      invariant forall j, k :: 0 <= j < k < i ==> all[j] != all[k]
    {
      assert all[i] in all;
      if all[i] !in bound { return false; }
      if all[i] in seen {
        var k :| 0 <= k < i && all[k] == all[i];
        return false;
      }
      seen := seen + {all[i]};
    }
    return |granted| + |skipped| == |items|;
  }

  // ----- the answers of the owner -----

  datatype Answer = Skip | Confirm | Mismatch

  function DigestSuffix(digest: string): string {
    if |digest| < 16 then digest else digest[|digest| - 16..]
  }

  function LowerAscii(s: string): string {
    seq(|s|, i requires 0 <= i < |s| => if 'A' <= s[i] <= 'Z' then (s[i] as int + 32) as char else s[i])
  }

  function Reply(item: ChallengeItem, answer: string): Answer {
    if LowerAscii(Trim(answer)) == "skip" then Skip
    else if Trim(answer) == DigestSuffix(item.canonicalDraftDigest) then Confirm
    else Mismatch
  }

  // The word "skip" in any case.
  predicate IsSkip(t: string) {
    && |t| == 4 && t[0] in ['s', 'S'] && t[1] in ['k', 'K'] && t[2] in ['i', 'I'] && t[3] in ['p', 'P']
  }

  // The last sixteen characters of a digest, or all of a shorter one.
  predicate IsSuffix(digest: string, t: string) {
    |t| == (if |digest| < 16 then |digest| else 16) && |t| <= |digest|
    && forall i :: 0 <= i < |t| ==> t[i] == digest[|digest| - |t| + i]
  }

  predicate Skips(answer: string) { IsSkip(Trim(answer)) }

  predicate Confirms(item: ChallengeItem, answer: string) {
    !Skips(answer) && IsSuffix(item.canonicalDraftDigest, Trim(answer))
  }

  predicate Denies(item: ChallengeItem, answer: string) { !Skips(answer) && !Confirms(item, answer) }

  ghost predicate SomeDenied(items: seq<ChallengeItem>, answers: seq<string>)
    requires |answers| == |items|
  {
    exists i :: 0 <= i < |items| && Denies(items[i], answers[i])
  }

  lemma LowerSkip(t: string)
    ensures LowerAscii(t) == "skip" <==> IsSkip(t)
  {
    if LowerAscii(t) == "skip" {
      assert LowerAscii(t)[0] == 's' && LowerAscii(t)[1] == 'k' && LowerAscii(t)[2] == 'i' && LowerAscii(t)[3] == 'p';
    }
    if IsSkip(t) {
      assert forall i :: 0 <= i < 4 ==> LowerAscii(t)[i] == "skip"[i];
    }
  }

  lemma ReplyIs(item: ChallengeItem, answer: string)
    ensures Reply(item, answer) == Skip <==> Skips(answer)
    ensures Reply(item, answer) == Confirm <==> Confirms(item, answer)
    ensures Reply(item, answer) == Mismatch <==> Denies(item, answer)
  {
    var t, suffix := Trim(answer), DigestSuffix(item.canonicalDraftDigest);
    LowerSkip(t);
    if IsSuffix(item.canonicalDraftDigest, t) { assert t == suffix; }
  }

  // Listed in the order of the items.
  ghost predicate InItemOrder(items: seq<ChallengeItem>, ids: seq<string>) {
    forall x, y, i, j | 0 <= x < y < |ids| && 0 <= i < |items| && 0 <= j < |items| ::
      items[i].claimId == ids[x] && items[j].claimId == ids[y] ==> i < j
  }

  // Exactly the confirmed items are granted and exactly those answered "skip" are skipped.
  ghost predicate Decided(items: seq<ChallengeItem>, answers: seq<string>, granted: seq<string>, skipped: seq<string>)
    requires |answers| == |items|
  {
    && (forall i :: 0 <= i < |items| ==>
          && (items[i].claimId in granted <==> Confirms(items[i], answers[i]))
          && (items[i].claimId in skipped <==> Skips(answers[i])))
    && InItemOrder(items, granted) && InItemOrder(items, skipped)
  }

  lemma {:induction false} ChosenInOrder(items: seq<ChallengeItem>, answers: seq<string>, want: Answer)
    requires |items| == |answers| && Distinct(ClaimIds(items))
    ensures InItemOrder(items, Chosen(items, answers, want))
  {
    if items != [] {
      var n := |items| - 1;
      var init, ids := Chosen(items[..n], answers[..n], want), Chosen(items, answers, want);
      DistinctPrefix(items);
      ChosenInOrder(items[..n], answers[..n], want);
      forall x, y, i, j | 0 <= x < y < |ids| && 0 <= i < |items| && 0 <= j < |items|
        && items[i].claimId == ids[x] && items[j].claimId == ids[y]
        ensures i < j
      {
        ChosenBefore(items, answers, want, ids[x], i);
        if y < |init| {
          ChosenBefore(items, answers, want, ids[y], j);
          assert items[..n][i].claimId == init[x] && items[..n][j].claimId == init[y];
        } else {
          SameIdSameIndex(items, j, n);
        }
      }
    }
  }

  // An id that was chosen among all but the last item is not that of the last one.
  lemma ChosenBefore(items: seq<ChallengeItem>, answers: seq<string>, want: Answer, id: string, i: nat)
    requires |items| == |answers| && Distinct(ClaimIds(items)) && i < |items| && items[i].claimId == id
    ensures id in Chosen(items[..|items| - 1], answers[..|items| - 1], want) ==> i < |items| - 1
  {
    var n := |items| - 1;
    ChosenMembers(items[..n], answers[..n], want, id);
    if id in Chosen(items[..n], answers[..n], want) {
      var k :| 0 <= k < n && Chose(items[..n], answers[..n], want, k, id);
      assert items[..n][k] == items[k];
      SameIdSameIndex(items, k, i);
    }
  }

  lemma WalkDecides(items: seq<ChallengeItem>, answers: seq<string>)
    requires |items| == |answers| && Distinct(ClaimIds(items))
    ensures Decided(items, answers, Chosen(items, answers, Confirm), Chosen(items, answers, Skip))
  {
    ChosenInOrder(items, answers, Confirm);
    ChosenInOrder(items, answers, Skip);
    forall i | 0 <= i < |items|
      ensures items[i].claimId in Chosen(items, answers, Confirm) <==> Confirms(items[i], answers[i])
      ensures items[i].claimId in Chosen(items, answers, Skip) <==> Skips(answers[i])
    {
      ReplyIs(items[i], answers[i]);
      ChosenAt(items, answers, Confirm, i);
      ChosenAt(items, answers, Skip, i);
    }
  }

  lemma ChosenAt(items: seq<ChallengeItem>, answers: seq<string>, want: Answer, i: nat)
    requires |items| == |answers| && Distinct(ClaimIds(items)) && i < |items|
    ensures items[i].claimId in Chosen(items, answers, want) <==> Reply(items[i], answers[i]) == want
  {
    ChosenMembers(items, answers, want, items[i].claimId);
    if k :| 0 <= k < |items| && Chose(items, answers, want, k, items[i].claimId) {
      SameIdSameIndex(items, k, i);
    }
    if Reply(items[i], answers[i]) == want { assert Chose(items, answers, want, i, items[i].claimId); }
  }

  function Chosen(items: seq<ChallengeItem>, answers: seq<string>, want: Answer): seq<string>
    requires |items| == |answers|
  {
    if items == [] then []
    else
      var n := |items| - 1;
      Chosen(items[..n], answers[..n], want)
      + if Reply(items[n], answers[n]) == want then [items[n].claimId] else []
  }

  predicate Chose(items: seq<ChallengeItem>, answers: seq<string>, want: Answer, i: nat, id: string)
    requires i < |items| == |answers|
  {
    items[i].claimId == id && Reply(items[i], answers[i]) == want
  }

  lemma {:induction false} ChosenMembers(items: seq<ChallengeItem>, answers: seq<string>, want: Answer, id: string)
    requires |items| == |answers|
    ensures id in Chosen(items, answers, want) <==> (exists i :: 0 <= i < |items| && Chose(items, answers, want, i, id))
  {
    if items != [] {
      var n := |items| - 1;
      ChosenMembers(items[..n], answers[..n], want, id);
      forall i | 0 <= i < n
        ensures Chose(items[..n], answers[..n], want, i, id) <==> Chose(items, answers, want, i, id)
      {
      }
      assert id in Chosen(items, answers, want) <==>
        id in Chosen(items[..n], answers[..n], want) || Chose(items, answers, want, n, id);
    }
  }

  lemma {:induction false} ChosenDistinct(items: seq<ChallengeItem>, answers: seq<string>, want: Answer)
    requires |items| == |answers| && Distinct(ClaimIds(items))
    ensures Distinct(Chosen(items, answers, want))
  {
    if items != [] {
      var n := |items| - 1;
      DistinctPrefix(items);
      ChosenDistinct(items[..n], answers[..n], want);
      ChosenMembers(items[..n], answers[..n], want, items[n].claimId);
      var init := Chosen(items[..n], answers[..n], want);
      forall i | 0 <= i < |init| ensures init[i] != items[n].claimId {
        assert init[i] in init;
      }
    }
  }

  lemma DistinctPrefix(items: seq<ChallengeItem>)
    requires items != [] && Distinct(ClaimIds(items))
    ensures var n := |items| - 1;
      Distinct(ClaimIds(items[..n])) && forall i :: 0 <= i < n ==> items[..n][i].claimId != items[n].claimId
  {
    var n, ids := |items| - 1, ClaimIds(items);
    forall i | 0 <= i < n ensures items[..n][i].claimId != items[n].claimId {
      assert ids[i] != ids[n];
    }
    forall i, j | 0 <= i < j < n ensures ClaimIds(items[..n])[i] != ClaimIds(items[..n])[j] {
      assert ids[i] != ids[j];
    }
  }

  lemma {:induction false} ChosenLengths(items: seq<ChallengeItem>, answers: seq<string>)
    requires |items| == |answers|
    requires forall i :: 0 <= i < |items| ==> Reply(items[i], answers[i]) != Mismatch
    ensures |Chosen(items, answers, Confirm)| + |Chosen(items, answers, Skip)| == |items|
  {
    if items != [] {
      ChosenLengths(items[..|items| - 1], answers[..|items| - 1]);
    }
  }

  lemma SameIdSameIndex(items: seq<ChallengeItem>, i: nat, j: nat)
    requires Distinct(ClaimIds(items)) && i < |items| && j < |items|
    ensures items[i].claimId == items[j].claimId ==> i == j
  {
    var ids := ClaimIds(items);
    assert ids[i] == items[i].claimId && ids[j] == items[j].claimId;
  }

  lemma WalkPartitions(items: seq<ChallengeItem>, answers: seq<string>)
    requires |items| == |answers| && Distinct(ClaimIds(items))
    requires forall i :: 0 <= i < |items| ==> Reply(items[i], answers[i]) != Mismatch
    ensures Partition(items, Chosen(items, answers, Confirm), Chosen(items, answers, Skip))
    ensures forall i :: 0 <= i < |items| ==>
      (items[i].claimId in Chosen(items, answers, Confirm) <==> Reply(items[i], answers[i]) == Confirm)
  {
    var granted, skipped := Chosen(items, answers, Confirm), Chosen(items, answers, Skip);
    ChosenDistinct(items, answers, Confirm);
    ChosenDistinct(items, answers, Skip);
    ChosenLengths(items, answers);
    var ids := ClaimIds(items);
    forall id | id in granted + skipped ensures id in ids {
      ChosenMembers(items, answers, Confirm, id);
      ChosenMembers(items, answers, Skip, id);
      var i :| 0 <= i < |items| && (Chose(items, answers, Confirm, i, id) || Chose(items, answers, Skip, i, id));
      assert ids[i] == id;
    }
    forall id | id in granted ensures id !in skipped {
      ChosenMembers(items, answers, Confirm, id);
      ChosenMembers(items, answers, Skip, id);
      var i :| 0 <= i < |items| && Chose(items, answers, Confirm, i, id);
      forall j | 0 <= j < |items| && Chose(items, answers, Skip, j, id) ensures j == i { SameIdSameIndex(items, i, j); }
    }
    ApartAppend(granted, skipped);
    forall i | 0 <= i < |items|
      ensures items[i].claimId in granted <==> Reply(items[i], answers[i]) == Confirm
    {
      ChosenMembers(items, answers, Confirm, items[i].claimId);
      assert Reply(items[i], answers[i]) == Confirm ==> Chose(items, answers, Confirm, i, items[i].claimId);
      forall j | 0 <= j < |items| && Chose(items, answers, Confirm, j, items[i].claimId) ensures j == i {
        SameIdSameIndex(items, i, j);
      }
    }
  }

  lemma ApartAppend(a: seq<string>, b: seq<string>)
    requires Distinct(a) && Distinct(b) && forall id :: id in a ==> id !in b
    ensures Distinct(a + b)
  {
    forall i, j | 0 <= i < j < |a + b| ensures (a + b)[i] != (a + b)[j] {
      if i < |a| <= j { assert a[i] in a && b[j - |a|] in b; }
    }
  }
}
