/** Migration of claims written in the earlier document form.

    The digest of an approved claim was taken over that form; when it no longer matches, the
    claim goes back to draft and has to be approved again. Files are written one by one, so a
    migration may stop in the middle. */
module Migration {
  import opened Wrappers
  import opened Clock
  import opened Identifiers
  import L = Lifecycle

  datatype Stored = Stored(legacy: bool, claim: L.Claim)

  datatype Summary = Summary(migrated: nat, skipped: nat, invalid: nat, candidates: seq<string>)

  predicate Demoted(rules: L.Rules, c: Stored) {
    c.legacy && c.claim.status.Approved? && !L.Verifies(rules, c.claim)
  }

  // The claim in the present form, and whether it has to be approved again.
  function Migrate(rules: L.Rules, c: Stored): (r: (Stored, bool))
    ensures !r.0.legacy && (r.0.claim.status.Approved? && c.legacy ==> L.Verifies(rules, r.0.claim))
  {
    if !c.legacy then (c, false)
    else if Demoted(rules, c) then
      (Stored(false, c.claim.(status := L.Draft, verifiedAt := NoTime, verifiedBy := "", verifiedDigest := "")), true)
    else (c.(legacy := false), false)
  }

  function Migrated(rules: L.Rules, claims: seq<Stored>): (r: seq<Stored>)
    ensures |r| == |claims|
  {
    seq(|claims|, i requires 0 <= i < |claims| => Migrate(rules, claims[i]).0)
  }

  function CountLegacy(claims: seq<Stored>): nat {
    if claims == [] then 0 else CountLegacy(claims[..|claims| - 1]) + if claims[|claims| - 1].legacy then 1 else 0
  }

  function CountBroken(rules: L.Rules, claims: seq<Stored>): nat {
    if claims == [] then 0
    else
      var c := claims[|claims| - 1];
      CountBroken(rules, claims[..|claims| - 1])
      + if !c.legacy && c.claim.status.Approved? && !L.Verifies(rules, c.claim) then 1 else 0
  }

  function Candidates(rules: L.Rules, claims: seq<Stored>): seq<string> {
    if claims == [] then []
    else
      Candidates(rules, claims[..|claims| - 1])
      + if Demoted(rules, claims[|claims| - 1]) then [claims[|claims| - 1].claim.id] else []
  }

  // Every claim is decided on before the first one is written.
  method PlanMigration(rules: L.Rules, claims: seq<Stored>, unindexed: nat, invalid: nat) returns (s: Summary)
    ensures s.migrated == CountLegacy(claims) && s.candidates == Candidates(rules, claims)
    ensures s.skipped + s.migrated == unindexed + |claims| && s.invalid == invalid + CountBroken(rules, claims)
  {
    var migrated, skipped, broken, candidates := 0, unindexed, invalid, [];
    for i := 0 to |claims|
      invariant migrated == CountLegacy(claims[..i]) && skipped + migrated == unindexed + i
      invariant broken == invalid + CountBroken(rules, claims[..i]) && candidates == Candidates(rules, claims[..i])
    {
      CountStep(rules, claims, i);
      if !claims[i].legacy {
        if claims[i].claim.status.Approved? && !L.Verifies(rules, claims[i].claim) { broken := broken + 1; }
        skipped := skipped + 1;
      } else {
        if Migrate(rules, claims[i]).1 { candidates := candidates + [claims[i].claim.id]; }
        migrated := migrated + 1;
      }
    }
    assert claims[..|claims|] == claims;
    return Summary(migrated, skipped, broken, candidates);
  }

  lemma CountStep(rules: L.Rules, claims: seq<Stored>, i: nat)
    requires i < |claims|
    ensures CountLegacy(claims[..i + 1]) == CountLegacy(claims[..i]) + if claims[i].legacy then 1 else 0
    ensures CountBroken(rules, claims[..i + 1]) == CountBroken(rules, claims[..i])
      + if !claims[i].legacy && claims[i].claim.status.Approved? && !L.Verifies(rules, claims[i].claim) then 1 else 0
    ensures Candidates(rules, claims[..i + 1]) == Candidates(rules, claims[..i])
      + if Demoted(rules, claims[i]) then [claims[i].claim.id] else []
  {
    assert claims[..i + 1][..i] == claims[..i];
  }

  // The claim at this place after so many writes, which go through in order.
  function AfterWrites(rules: L.Rules, claims: seq<Stored>, written: nat, i: nat): Stored
    requires i < |claims|
  {
    if CountLegacy(claims[..i]) < written then Migrate(rules, claims[i]).0 else claims[i]
  }

  // `written` says how many writes went through before the migration stopped.
  method WriteMigrated(rules: L.Rules, claims: seq<Stored>, written: nat) returns (after: seq<Stored>)
    ensures |after| == |claims|
    ensures forall i :: 0 <= i < |claims| ==>
      after[i] == if CountLegacy(claims[..i]) < written then Migrated(rules, claims)[i] else claims[i]
    ensures forall i :: 0 <= i < |claims| ==> after[i] == claims[i] || after[i] == Migrated(rules, claims)[i]
    ensures written >= CountLegacy(claims) ==> after == Migrated(rules, claims)
  {
    var done := 0;
    after := [];
    for i := 0 to |claims|
      invariant |after| == i
      invariant forall k :: 0 <= k < i ==> after[k] == AfterWrites(rules, claims, written, k)
      invariant done == if CountLegacy(claims[..i]) < written then CountLegacy(claims[..i]) else written
    {
      CountStep(rules, claims, i);
      if claims[i].legacy && done < written {
        after := after + [Migrate(rules, claims[i]).0];
        done := done + 1;
      } else {
        after := after + [claims[i]];
      }
    }
    if written >= CountLegacy(claims) { AllWritten(rules, claims, written, after); }
  }

  lemma AllWritten(rules: L.Rules, claims: seq<Stored>, written: nat, after: seq<Stored>)
    requires |after| == |claims| && written >= CountLegacy(claims)
    requires forall i :: 0 <= i < |claims| ==> after[i] == AfterWrites(rules, claims, written, i)
    ensures after == Migrated(rules, claims)
  {
    forall i | 0 <= i < |claims| ensures after[i] == Migrated(rules, claims)[i] {
      CountStep(rules, claims, i);
      CountGrows(claims, i + 1);
    }
  }

  lemma {:induction false} CountGrows(claims: seq<Stored>, i: nat)
    requires i <= |claims|
    ensures CountLegacy(claims[..i]) <= CountLegacy(claims)
    decreases |claims| - i
  {
    if i < |claims| {
      assert claims[..i + 1][..i] == claims[..i];
      CountGrows(claims, i + 1);
    } else {
      assert claims[..i] == claims;
    }
  }

  // What a migration makes of one claim: a legacy one takes the present form; where it was
  // approved and its digest no longer holds, it goes back to draft without its attestation, and
  // everything else stays.
  lemma MigrateMeans(rules: L.Rules, c: Stored)
    ensures var d := Migrate(rules, c).0;
      && !d.legacy && (Migrate(rules, c).1 <==> c.legacy && c.claim.status.Approved? && !L.DigestHolds(rules, c.claim))
      && (!Migrate(rules, c).1 ==> d.claim == c.claim)
      && (Migrate(rules, c).1 ==>
            && d.claim.status == L.Draft && d.claim.verifiedDigest == "" && d.claim.verifiedBy == ""
            && Parse(d.claim.verifiedAt).None? && L.SameDocument(c.claim, d.claim)
            && d.claim.sources == c.claim.sources && d.claim.transitions == c.claim.transitions)
  {
  }

  // The counters are sizes of sets of claims.
  function Legacies(claims: seq<Stored>): set<nat> {
    set i: nat | i < |claims| && claims[i].legacy
  }

  function BrokenOnes(rules: L.Rules, claims: seq<Stored>): set<nat> {
    set i: nat | i < |claims| && Broken(rules, claims[i])
  }

  lemma {:induction false} LegacyCounted(claims: seq<Stored>)
    ensures CountLegacy(claims) == |Legacies(claims)|
  {
    if claims == [] {
      assert Legacies(claims) == {};
    } else {
      var n := |claims| - 1;
      LegacyCounted(claims[..n]);
      assert Legacies(claims) == if claims[n].legacy then Legacies(claims[..n]) + {n} else Legacies(claims[..n]);
    }
  }

  lemma {:induction false} BrokenCounted(rules: L.Rules, claims: seq<Stored>)
    ensures CountBroken(rules, claims) == |BrokenOnes(rules, claims)|
  {
    if claims == [] {
      assert BrokenOnes(rules, claims) == {};
    } else {
      var n := |claims| - 1;
      var fewer := BrokenOnes(rules, claims[..n]);
      BrokenCounted(rules, claims[..n]);
      assert BrokenOnes(rules, claims) == if Broken(rules, claims[n]) then fewer + {n} else fewer;
    }
  }

  // The candidates are the ids of the claims that go back to draft, in the order of the claims.
  lemma {:induction false} CandidatesListed(rules: L.Rules, claims: seq<Stored>) returns (at: seq<nat>)
    ensures |at| == |Candidates(rules, claims)| && forall j, k :: 0 <= j < k < |at| ==> at[j] < at[k]
    ensures forall k :: 0 <= k < |at| ==>
      at[k] < |claims| && ToDraft(rules, claims[at[k]]) && Candidates(rules, claims)[k] == claims[at[k]].claim.id
    ensures forall i :: 0 <= i < |claims| && ToDraft(rules, claims[i]) ==> i in at
  {
    at := [];
    if claims != [] {
      var n := |claims| - 1;
      at := CandidatesListed(rules, claims[..n]);
      if ToDraft(rules, claims[n]) { at := at + [n]; }
    }
  }

  predicate ToDraft(rules: L.Rules, c: Stored) {
    c.legacy && c.claim.status == L.Approved && !L.DigestHolds(rules, c.claim)
  }

  predicate Broken(rules: L.Rules, c: Stored) {
    !c.legacy && c.claim.status == L.Approved && !L.DigestHolds(rules, c.claim)
  }

  // An interrupted migration is completed by the next one: whatever was already written, the
  // result is the same as of one migration that went through.
  lemma MigrationResumes(rules: L.Rules, claims: seq<Stored>, partial: seq<Stored>)
    requires |partial| == |claims|
    requires forall i :: 0 <= i < |claims| ==> partial[i] == claims[i] || partial[i] == Migrated(rules, claims)[i]
    ensures Migrated(rules, partial) == Migrated(rules, claims)
  {
    forall i | 0 <= i < |claims| ensures Migrated(rules, partial)[i] == Migrated(rules, claims)[i] {
      assert partial[i] == claims[i] || partial[i] == Migrate(rules, claims[i]).0;
    }
  }

  lemma {:induction false} NothingLegacy(claims: seq<Stored>)
    ensures CountLegacy(claims) == 0 <==> forall i :: 0 <= i < |claims| ==> !claims[i].legacy
  {
    if claims != [] { NothingLegacy(claims[..|claims| - 1]); }
  }

  // After a migration nothing is legacy, and a migrated claim is approved exactly when it was
  // approved before and its digest still holds.
  lemma MigratedIsSettled(rules: L.Rules, claims: seq<Stored>, i: nat)
    requires i < |claims| && claims[i].legacy
    ensures CountLegacy(Migrated(rules, claims)) == 0
    ensures Migrated(rules, claims)[i].claim.status.Approved? <==>
      claims[i].claim.status.Approved? && L.Verifies(rules, claims[i].claim)
    ensures !Migrated(rules, claims)[i].claim.status.Draft? || Demoted(rules, claims[i])
      || claims[i].claim.status.Draft?
  {
    NothingLegacy(Migrated(rules, claims));
  }

  // ----- the migrated store -----

  ghost predicate IsDemoted(rules: L.Rules, s: L.Store, legacy: set<string>, id: string) {
    id in s && Demoted(rules, Stored(id in legacy, s[id]))
  }

  function MigratedStore(rules: L.Rules, s: L.Store, legacy: set<string>): L.Store {
    map id | id in s :: Migrate(rules, Stored(id in legacy, s[id])).0.claim
  }

  // The claims that are kept, in their order.
  ghost function Kept(order: seq<string>, out: string -> bool): seq<string> {
    if order == [] then []
    else
      var n := |order| - 1;
      Kept(order[..n], out) + if out(order[n]) then [] else [order[n]]
  }

  ghost predicate Before(order: seq<string>, x: string, y: string) {
    exists a, b :: 0 <= a < b < |order| && order[a] == x && order[b] == y
  }

  lemma {:induction false} KeptIs(order: seq<string>, out: string -> bool)
    ensures forall x :: x in Kept(order, out) <==> x in order && !out(x)
    ensures forall i, j :: 0 <= i < j < |Kept(order, out)| ==> Before(order, Kept(order, out)[i], Kept(order, out)[j])
  {
    if order != [] {
      var n := |order| - 1;
      var shorter, kept := Kept(order[..n], out), Kept(order, out);
      KeptIs(order[..n], out);
      assert order == order[..n] + [order[n]];
      forall i, j | 0 <= i < j < |kept| ensures Before(order, kept[i], kept[j]) {
        if j < |shorter| {
          BeforeLonger(order, shorter[i], shorter[j]);
        } else {
          assert shorter[i] in order[..n];
          BeforeLast(order, shorter[i]);
        }
      }
    }
  }

  lemma BeforeLonger(order: seq<string>, x: string, y: string)
    requires order != [] && Before(order[..|order| - 1], x, y)
    ensures Before(order, x, y)
  {
    var init := order[..|order| - 1];
    var a, b :| 0 <= a < b < |init| && init[a] == x && init[b] == y;
    assert order[a] == x && order[b] == y;
  }

  lemma BeforeLast(order: seq<string>, x: string)
    requires order != [] && x in order[..|order| - 1]
    ensures Before(order, x, order[|order| - 1])
  {
    var init := order[..|order| - 1];
    var a :| 0 <= a < |init| && init[a] == x;
    assert order[a] == x;
  }

  lemma NotBefore(order: seq<string>, x: string)
    requires Distinct(order)
    ensures !Before(order, x, x)
  {
  }

  // A claim that was settled is so under these rules: an approved one verifies as it is, a
  // superseded or revoked one with its last transition dropped.
  predicate Reverifies(rules: L.Rules, c: L.Claim) {
    match c.status
    case Draft => true
    case Approved => L.Verifies(rules, c)
    case _ => c.transitions != [] && L.Verifies(rules, L.Restored(c))
  }

  ghost function DemotedIn(rules: L.Rules, s: L.Store, legacy: set<string>): string -> bool {
    (id: string) => IsDemoted(rules, s, legacy, id)
  }

  // The claims that go out turn from approved to draft, the others stay as they are.
  ghost predicate Thinned(s: L.Store, t: L.Store, out: string -> bool) {
    && (forall id :: id in t <==> id in s)
    && (forall id :: id in s && !out(id) ==> t[id] == s[id])
    && (forall id :: out(id) ==> id in s && s[id].status.Approved? && t[id].status.Draft?
                                 && t[id].id == s[id].id && t[id].supersedes == s[id].supersedes)
  }

  lemma MigrationThins(rules: L.Rules, s: L.Store, legacy: set<string>)
    ensures Thinned(s, MigratedStore(rules, s, legacy), DemotedIn(rules, s, legacy))
  {
  }

  // A store that was settled by the former rules is settled by the new ones, in the order that
  // is left or in any order at all, exactly when no demoted claim supersedes another and every
  // other claim reverifies. A demoted claim that supersedes one leaves it without a settled
  // successor; and only approved claims are demoted, so one that was revoked or superseded in
  // the earlier form keeps a digest of it.
  lemma MigrationKeepsInv(former: L.Rules, rules: L.Rules, s: L.Store, order: seq<string>, legacy: set<string>)
    requires L.Inv(former, s, order)
    ensures (exists any :: L.Inv(rules, MigratedStore(rules, s, legacy), any)) <==>
      && (forall id :: IsDemoted(rules, s, legacy, id) ==> s[id].supersedes == [])
      && (forall id :: id in s && !IsDemoted(rules, s, legacy, id) ==> Reverifies(rules, s[id]))
    ensures (exists any :: L.Inv(rules, MigratedStore(rules, s, legacy), any)) ==>
      L.Inv(rules, MigratedStore(rules, s, legacy), Kept(order, DemotedIn(rules, s, legacy)))
  {
    var t, out := MigratedStore(rules, s, legacy), DemotedIn(rules, s, legacy);
    MigrationThins(rules, s, legacy);
    forall id ensures out(id) <==> IsDemoted(rules, s, legacy, id) {}
    if any :| L.Inv(rules, t, any) { ThinnedNeeds(former, rules, s, t, order, any, out); }
    if (forall id :: out(id) ==> s[id].supersedes == [])
      && (forall id :: id in s && !out(id) ==> Reverifies(rules, s[id]))
    {
      ThinnedSurvives(former, rules, s, t, order, out);
    }
  }

  lemma ThinnedNeeds(former: L.Rules, rules: L.Rules, s: L.Store, t: L.Store, order: seq<string>, any: seq<string>,
                     out: string -> bool)
    requires L.Inv(former, s, order) && Thinned(s, t, out) && L.Inv(rules, t, any)
    ensures forall id :: out(id) ==> s[id].supersedes == []
    ensures forall id :: id in s && !out(id) ==> Reverifies(rules, s[id])
  {
    forall id | out(id) ensures s[id].supersedes == [] {
      if s[id].supersedes != [] { LeftWithoutSuccessor(s, t, out, id); }
    }
    forall id | id in s && !out(id) ensures Reverifies(rules, s[id]) {
      assert t[id] == s[id];
      SameAttested(former, rules, s[id]);
    }
  }

  lemma SameAttested(former: L.Rules, rules: L.Rules, c: L.Claim)
    requires L.Attested(former, c)
    ensures Reverifies(rules, c) <==> L.Attested(rules, c)
  {
  }

  lemma ThinnedAttested(rules: L.Rules, s: L.Store, t: L.Store, out: string -> bool, id: string)
    requires Thinned(s, t, out) && id in t && (!out(id) ==> L.Attested(rules, s[id]))
    ensures L.Attested(rules, t[id]) && t[id].id == s[id].id
  {
  }

  lemma ThinnedSurvives(former: L.Rules, rules: L.Rules, s: L.Store, t: L.Store, order: seq<string>,
                        out: string -> bool)
    requires L.Inv(former, s, order) && Thinned(s, t, out) && forall id :: out(id) ==> s[id].supersedes == []
    requires forall id :: id in s && !out(id) ==> Reverifies(rules, s[id])
    ensures L.Inv(rules, t, Kept(order, out))
  {
    SurvivingOrder(s, t, order, out);
    SurvivingLinks(s, t, out);
    forall x | x in t ensures t[x].id == x && L.Attested(rules, t[x]) {
      SameAttested(former, rules, s[x]);
      ThinnedAttested(rules, s, t, out, x);
    }
  }

  lemma SurvivingLinks(s: L.Store, t: L.Store, out: string -> bool)
    requires Thinned(s, t, out) && forall id :: out(id) ==> s[id].supersedes == []
    requires forall id :: id in s && L.Settled(s[id]) ==> L.Superseding(s, s[id])
    requires forall id :: id in s && s[id].status == L.Superseded ==> L.SupersededBySomeone(s, s[id])
    ensures forall id :: id in t && L.Settled(t[id]) ==> L.Superseding(t, t[id])
    ensures forall id :: id in t && t[id].status == L.Superseded ==> L.SupersededBySomeone(t, t[id])
  {
    forall x | x in t && L.Settled(t[x]) ensures L.Superseding(t, t[x]) { assert L.Superseding(s, s[x]); }
    forall x | x in t && t[x].status == L.Superseded ensures L.SupersededBySomeone(t, t[x]) {
      assert L.SupersededBySomeone(s, s[x]);
    }
  }

  lemma LeftWithoutSuccessor(s: L.Store, t: L.Store, out: string -> bool, id: string)
    requires Thinned(s, t, out) && out(id) && s[id].supersedes != [] && L.Superseding(s, s[id]) && s[id].id == id
    ensures exists prior :: prior in t && t[prior].status == L.Superseded && !L.SupersededBySomeone(t, t[prior])
  {
    var prior := s[id].supersedes[0];
    assert prior in s[id].supersedes;
    assert t[prior] == s[prior] && L.LastTransition(t[prior]).relatedClaimIds == [id];
  }

  // The approval order of a store, as its invariant states it.
  ghost predicate Ordered(s: L.Store, order: seq<string>) {
    forall i, j :: 0 <= i < |order| && 0 <= j < |order| && order[j] in s && order[i] in s[order[j]].supersedes ==> i < j
  }

  lemma SurvivingOrder(s: L.Store, t: L.Store, order: seq<string>, out: string -> bool)
    requires Thinned(s, t, out) && Distinct(order) && forall id :: id in order <==> id in s && L.Settled(s[id])
    requires Ordered(s, order)
    ensures Distinct(Kept(order, out)) && Ordered(t, Kept(order, out))
    ensures forall x :: x in Kept(order, out) <==> x in t && L.Settled(t[x])
  {
    var kept := Kept(order, out);
    KeptIs(order, out);
    forall i, j | 0 <= i < j < |kept| ensures kept[i] != kept[j] { NotBefore(order, kept[i]); }
    forall i, j | 0 <= i < |kept| && 0 <= j < |kept| && kept[j] in t && kept[i] in t[kept[j]].supersedes ensures i < j {
      KeptStaysOrdered(s, order, kept, i, j);
    }
  }

  lemma KeptStaysOrdered(s: L.Store, order: seq<string>, kept: seq<string>, i: nat, j: nat)
    requires Ordered(s, order) && i < |kept| && j < |kept| && kept[i] in order && kept[j] in order
    requires j < i ==> Before(order, kept[j], kept[i])
    requires kept[j] in s && kept[i] in s[kept[j]].supersedes
    ensures i < j
  {
    Earlier(s, order, kept[i], kept[j]);
  }

  // What a listed claim supersedes does not come after it, nor is it the same.
  lemma Earlier(s: L.Store, order: seq<string>, x: string, y: string)
    requires x in order && y in order && y in s && x in s[y].supersedes
    requires Ordered(s, order)
    ensures x != y && !Before(order, y, x)
  {
    var a :| 0 <= a < |order| && order[a] == x;
    var b :| 0 <= b < |order| && order[b] == y;
    assert order[a] in s[order[b]].supersedes;
  }

  // A demoted claim can be approved again exactly when it supersedes nothing and passes the
  // checks of any lone draft: what it lists was superseded by it and cannot be once more.
  lemma ReapprovedExactly(former: L.Rules, rules: L.Rules, s: L.Store, order: seq<string>, legacy: set<string>,
                          id: string, o: L.Options, now: int)
    requires L.Inv(former, s, order) && IsDemoted(rules, s, legacy, id)
    ensures var t := MigratedStore(rules, s, legacy);
      && id in t && t[id].status.Draft?
      && (L.PrepareApprove(rules, t, id, o, now).Some? <==>
            && s[id].supersedes == [] && L.AuthorizationOk(o.authorization)
            && rules.valid(t[id]) && rules.basisOk(t[id]) && rules.referencesOk(t, t[id])
            && rules.valid(L.Unsigned(L.Promoted(rules, t[id], o, now))))
  {
    var t := MigratedStore(rules, s, legacy);
    assert t[id].supersedes == s[id].supersedes;
    if s[id].supersedes != [] {
      var prior := s[id].supersedes[0];
      assert L.Superseding(s, s[id]) && prior in s[id].supersedes;
      assert t[prior] == s[prior] && !L.Supersedable(rules, t, prior);
    }
  }

  // ----- where the invariant is lost -----

  // Digests that tell the document forms apart, and nothing else.
  function FormRules(form: string): L.Rules {
    L.Rules((c: L.Claim) => "sha256:" + form, (c: L.Claim) => true, (c: L.Claim) => true,
            (s: L.Store, c: L.Claim) => true, (c: L.Claim) => [], (s: L.Store, c: L.Claim) => [])
  }

  function ClaimIn(form: string, id: string, status: L.Status, supersedes: seq<string>,
                   history: seq<L.Transition>): L.Claim
  {
    L.Claim(id, "axioms", status, "", [], [], supersedes, [], [], history, NoTime, "owner", "sha256:" + form)
  }

  function Withdrawal(form: string, kind: L.TransitionKind, related: seq<string>): L.Transition {
    L.Transition(kind, NoTime, "owner", "", related, "sha256:" + form, None)
  }

  lemma FormDigest(form: string)
    ensures !IsBlank("sha256:" + form)
  {
    var digest := "sha256:" + form;
    assert digest[0] == 's';
  }

  // One claim, revoked in the earlier form. No claim is demoted, and the invariant is lost.
  lemma RevokedInFormerForm(id: string)
    ensures var former, rules := FormRules("v1"), FormRules("okf");
      var s := map[id := ClaimIn("v1", id, L.Revoked, [], [Withdrawal("v1", L.RevokeKind, [id])])];
      && L.DigestTexts(former) && L.DigestTexts(rules) && L.Inv(former, s, [id])
      && (forall x :: !IsDemoted(rules, s, {id}, x))
      && forall any :: !L.Inv(rules, MigratedStore(rules, s, {id}), any)
  {
    var former, rules := FormRules("v1"), FormRules("okf");
    var s := map[id := ClaimIn("v1", id, L.Revoked, [], [Withdrawal("v1", L.RevokeKind, [id])])];
    FormDigest("v1");
    assert L.Attested(former, s[id]);
    assert former.sum(s[id]) != rules.sum(s[id]) by { assert "sha256:v1"[7] != "sha256:okf"[7]; }
    assert !Reverifies(rules, s[id]);
    MigrationKeepsInv(former, rules, s, [id], {id});
  }

  // A claim approved in the earlier form over another one: it is demoted, the other one stays
  // superseded, the invariant is lost, and the claim can never be approved again.
  lemma SuccessorInFormerForm(id: string, prior: string, o: L.Options, now: int)
    requires id != prior
    ensures var former, rules := FormRules("v1"), FormRules("okf");
      var s := map[prior := ClaimIn("v1", prior, L.Superseded, [], [Withdrawal("v1", L.SupersedeKind, [id])]),
                   id := ClaimIn("v1", id, L.Approved, [prior], [])];
      && L.Inv(former, s, [prior, id]) && IsDemoted(rules, s, {id, prior}, id)
      && (forall any :: !L.Inv(rules, MigratedStore(rules, s, {id, prior}), any))
      && L.PrepareApprove(rules, MigratedStore(rules, s, {id, prior}), id, o, now).None?
  {
    var former, rules := FormRules("v1"), FormRules("okf");
    var s := map[prior := ClaimIn("v1", prior, L.Superseded, [], [Withdrawal("v1", L.SupersedeKind, [id])]),
                 id := ClaimIn("v1", id, L.Approved, [prior], [])];
    var order := [prior, id];
    assert s[id].supersedes[0] == prior && L.LastTransition(s[prior]).relatedClaimIds == [id];
    FormDigest("v1");
    assert L.Attested(former, s[id]) && L.Attested(former, s[prior]);
    assert former.sum(s[id]) != rules.sum(s[id]) by { assert "sha256:v1"[7] != "sha256:okf"[7]; }
    assert prior == order[0] && id == order[1];
    assert L.Inv(former, s, order);
    assert IsDemoted(rules, s, {id, prior}, id);
    MigrationKeepsInv(former, rules, s, order, {id, prior});
    ReapprovedExactly(former, rules, s, order, {id, prior}, id, o, now);
  }
}
