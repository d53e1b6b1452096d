/** Resumable bulk authoring: a run file lists drafts to write, each submission creates one
    claim and then moves one draft of the run out of pending. */
module Campaign {
  import opened Wrappers
  import opened Clock
  import opened Identifiers
  import L = Lifecycle

  datatype DraftStatus = Pending | Submitted | SupersededByOwner | UnknownStatus(text: string)

  datatype Phase = Drafting | Finished | UnknownPhase(text: string)

  datatype CampaignSpec = CampaignSpec(tier: string, title: string, evidenceIds: seq<string>,
    supportingIds: seq<string>)

  datatype CampaignDraft = CampaignDraft(spec: CampaignSpec, status: DraftStatus, claimId: string,
    submittedAt: TimeText)

  datatype CampaignRun = CampaignRun(
    schema: string,
    runId: string,
    phase: Phase,
    createdAt: TimeText,
    updatedAt: TimeText,
    drafts: seq<CampaignDraft>
  )

  datatype CampaignState = CampaignState(run: CampaignRun, pending: nat, submitted: nat, supersededByOwner: nat,
    nextIndex: int)

  const SCHEMA: string := "zbrain.campaign/v1"

  // The claim validator on a spec, and the text of the claim written for it.
  datatype Authoring = Authoring(specOk: CampaignSpec -> bool, content: (CampaignSpec, string, int) -> string)

  // ----- the run file -----

  predicate DraftOk(specOk: CampaignSpec -> bool, d: CampaignDraft) {
    && (match d.status
        case Pending => d.claimId == "" && d.submittedAt == NoTime
        case Submitted => IsClaimId(d.claimId) && Parse(d.submittedAt).Some?
        case SupersededByOwner => IsClaimId(d.claimId) && Parse(d.submittedAt).Some?
        case UnknownStatus(_) => false)
    && specOk(d.spec)
  }

  predicate HeaderOk(run: CampaignRun, expected: string) {
    && run.schema == SCHEMA && IsCampaignId(run.runId) && run.runId == expected && !run.phase.UnknownPhase?
    && Parse(run.createdAt).Some? && Parse(run.updatedAt).Some? && run.drafts != []
  }

  // No claim is recorded by two drafts.
  ghost predicate ClaimsDistinct(drafts: seq<CampaignDraft>) {
    forall i, j :: 0 <= i < j < |drafts| && !drafts[i].status.Pending? && !drafts[j].status.Pending? ==>
      drafts[i].claimId != drafts[j].claimId
  }

  ghost predicate RunOk(specOk: CampaignSpec -> bool, run: CampaignRun, expected: string) {
    && HeaderOk(run, expected)
    && (forall i :: 0 <= i < |run.drafts| ==> DraftOk(specOk, run.drafts[i]))
    && ClaimsDistinct(run.drafts)
    && (run.phase.Finished? ==> forall i :: 0 <= i < |run.drafts| ==> !run.drafts[i].status.Pending?)
  }

  method ValidateRunFile(specOk: CampaignSpec -> bool, run: CampaignRun, expected: string) returns (ok: bool)
    ensures ok == RunOk(specOk, run, expected)
  {
    if !HeaderOk(run, expected) { return false; }
    var sound, pendingSeen := ValidateDrafts(specOk, run.drafts);
    return sound && !(run.phase.Finished? && pendingSeen);
  }

  method ValidateDrafts(specOk: CampaignSpec -> bool, drafts: seq<CampaignDraft>) returns (ok: bool, pendingSeen: bool)
    ensures ok == ((forall i :: 0 <= i < |drafts| ==> DraftOk(specOk, drafts[i])) && ClaimsDistinct(drafts))
    ensures ok ==> pendingSeen == exists i :: 0 <= i < |drafts| && drafts[i].status.Pending?
  {
    var seen: set<string> := {};
    pendingSeen := false;
    for i := 0 to |drafts|
      invariant forall k :: 0 <= k < i ==> DraftOk(specOk, drafts[k])
      invariant ClaimsDistinct(drafts[..i])
      invariant seen == set k | 0 <= k < i && !drafts[k].status.Pending? :: drafts[k].claimId
      invariant pendingSeen == exists k :: 0 <= k < i && drafts[k].status.Pending?
    {
      var d := drafts[i];
      if !DraftOk(specOk, d) { return false, pendingSeen; }
      if d.status.Pending? {
        pendingSeen := true;
      } else {
        if d.claimId in seen {
          var k :| 0 <= k < i && !drafts[k].status.Pending? && drafts[k].claimId == d.claimId;
          return false, pendingSeen;
        }
        seen := seen + {d.claimId};
      }
    }
    assert drafts[..|drafts|] == drafts;
    return true, pendingSeen;
  }

  // ----- counting -----

  function Count(drafts: seq<CampaignDraft>, status: DraftStatus): nat {
    if drafts == [] then 0
    else Count(drafts[..|drafts| - 1], status) + if drafts[|drafts| - 1].status == status then 1 else 0
  }

  ghost predicate IsState(run: CampaignRun, s: CampaignState) {
    && s.run == run
    && s.pending == Count(run.drafts, Pending) && s.submitted == Count(run.drafts, Submitted)
    && s.supersededByOwner == Count(run.drafts, SupersededByOwner)
    && (s.nextIndex < 0 ==> s.nextIndex == -1 && forall i :: 0 <= i < |run.drafts| ==> !run.drafts[i].status.Pending?)
    && (s.nextIndex >= 0 ==>
          && s.nextIndex < |run.drafts| && run.drafts[s.nextIndex].status.Pending?
          && forall i :: 0 <= i < s.nextIndex ==> !run.drafts[i].status.Pending?)
  }

  // One pass over the drafts; the next index is the least pending one.
  method StateFromRun(run: CampaignRun) returns (s: CampaignState)
    ensures IsState(run, s)
  {
    var pending, submitted, superseded, next := 0, 0, 0, -1;
    for i := 0 to |run.drafts|
      invariant pending == Count(run.drafts[..i], Pending) && submitted == Count(run.drafts[..i], Submitted)
      invariant superseded == Count(run.drafts[..i], SupersededByOwner)
      invariant next < 0 ==> next == -1 && forall k :: 0 <= k < i ==> !run.drafts[k].status.Pending?
      invariant next >= 0 ==> next < i && run.drafts[next].status.Pending?
      invariant forall k :: 0 <= k < next ==> !run.drafts[k].status.Pending?
    {
      assert run.drafts[..i + 1][..i] == run.drafts[..i];
      match run.drafts[i].status
      case Pending =>
        pending := pending + 1;
        if next < 0 { next := i; }
      case Submitted => submitted := submitted + 1;
      case SupersededByOwner => superseded := superseded + 1;
      case UnknownStatus(_) =>
    }
    assert run.drafts[..|run.drafts|] == run.drafts;
    return CampaignState(run, pending, submitted, superseded, next);
  }

  lemma {:induction false} CountsSum(drafts: seq<CampaignDraft>)
    requires forall i :: 0 <= i < |drafts| ==> !drafts[i].status.UnknownStatus?
    ensures Count(drafts, Pending) + Count(drafts, Submitted) + Count(drafts, SupersededByOwner) == |drafts|
  {
    if drafts != [] { CountsSum(drafts[..|drafts| - 1]); }
  }

  lemma {:induction false} CountUpdate(drafts: seq<CampaignDraft>, i: nat, d: CampaignDraft, status: DraftStatus)
    requires i < |drafts|
    ensures Count(drafts[i := d], status) + (if drafts[i].status == status then 1 else 0)
      == Count(drafts, status) + (if d.status == status then 1 else 0)
  {
    var n := |drafts| - 1;
    if i == n {
      assert drafts[i := d][..n] == drafts[..n];
    } else {
      CountUpdate(drafts[..n], i, d, status);
      assert drafts[i := d][..n] == drafts[..n][i := d];
    }
  }

  lemma {:induction false} CountZero(drafts: seq<CampaignDraft>, status: DraftStatus)
    ensures Count(drafts, status) == 0 <==> forall i :: 0 <= i < |drafts| ==> drafts[i].status != status
  {
    if drafts != [] { CountZero(drafts[..|drafts| - 1], status); }
  }

  function OfStatus(drafts: seq<CampaignDraft>, status: DraftStatus): set<nat> {
    set i: nat | i < |drafts| && drafts[i].status == status
  }

  lemma {:induction false} CountIsSize(drafts: seq<CampaignDraft>, status: DraftStatus)
    ensures Count(drafts, status) == |OfStatus(drafts, status)|
  {
    if drafts == [] {
      assert OfStatus(drafts, status) == {};
    } else {
      var n := |drafts| - 1;
      CountIsSize(drafts[..n], status);
      OneMoreDraft(drafts[..n], drafts[n], status);
      assert drafts[..n] + [drafts[n]] == drafts;
    }
  }

  lemma OneMoreDraft(drafts: seq<CampaignDraft>, d: CampaignDraft, status: DraftStatus)
    ensures OfStatus(drafts + [d], status)
         == OfStatus(drafts, status) + if d.status == status then {|drafts|} else {}
  {
  }

  // A run file is valid exactly when its header is in order, each draft has a known status and,
  // unless it is pending, a claim of its own and a time, and a finished run has none pending.
  lemma RunFileExactly(specOk: CampaignSpec -> bool, run: CampaignRun, expected: string)
    ensures RunOk(specOk, run, expected) <==>
      && run.schema == "zbrain.campaign/v1" && run.runId == expected && IsCampaignId(expected)
      && (run.phase == Drafting || (run.phase == Finished && Count(run.drafts, Pending) == 0))
      && Parse(run.createdAt).Some? && Parse(run.updatedAt).Some? && |run.drafts| > 0
      && (forall d :: d in run.drafts ==> DraftInOrder(specOk, d))
      && forall i, j :: 0 <= i < j < |run.drafts| && run.drafts[i].claimId == run.drafts[j].claimId ==>
           run.drafts[i].claimId == ""
  {
    CountZero(run.drafts, Pending);
    forall i | 0 <= i < |run.drafts| ensures run.drafts[i] in run.drafts {}
  }

  predicate DraftInOrder(specOk: CampaignSpec -> bool, d: CampaignDraft) {
    && specOk(d.spec) && !d.status.UnknownStatus?
    && (d.claimId == "" <==> d.status == Pending) && (d.claimId != "" ==> IsClaimId(d.claimId))
    && (d.submittedAt == NoTime <==> d.status == Pending) && (d.submittedAt != NoTime ==> Parse(d.submittedAt).Some?)
  }

  // ----- operations on one run -----

  function Begun(specs: seq<CampaignSpec>, id: string, now: int): CampaignRun {
    CampaignRun(SCHEMA, id, Drafting, Rfc3339(now), Rfc3339(now),
      seq(|specs|, i requires 0 <= i < |specs| => CampaignDraft(specs[i], Pending, "", NoTime)))
  }

  predicate Submittable(run: CampaignRun, index: int) {
    run.phase.Drafting? && 0 <= index < |run.drafts| && run.drafts[index].status.Pending?
  }

  function SubmittedRun(run: CampaignRun, index: nat, claimId: string, now: int): CampaignRun
    requires index < |run.drafts|
  {
    run.(drafts := run.drafts[index := run.drafts[index].(status := Submitted, claimId := claimId,
      submittedAt := Rfc3339(now))],
         updatedAt := Rfc3339(now))
  }

  function FinishedRun(run: CampaignRun, now: int): CampaignRun {
    run.(phase := Finished, updatedAt := Rfc3339(now))
  }

  predicate Recorded(run: CampaignRun, claimId: string) {
    exists i :: 0 <= i < |run.drafts| && !run.drafts[i].status.Pending? && run.drafts[i].claimId == claimId
  }

  // A run begins with one pending draft for each spec, in order.
  lemma BegunMeans(specs: seq<CampaignSpec>, id: string, now: int)
    ensures var run := Begun(specs, id, now);
      && run.runId == id && run.phase == Drafting && run.schema == SCHEMA
      && Parse(run.createdAt) == Parse(run.updatedAt) == Some(now / NANOS * NANOS)
      && |run.drafts| == |specs|
      && forall i :: 0 <= i < |specs| ==>
           run.drafts[i].spec == specs[i] && run.drafts[i].status == Pending && run.drafts[i].claimId == ""
           && Parse(run.drafts[i].submittedAt).None?
  {
  }

  // A submission records the claim and the time with its draft, and touches nothing else of the
  // run but the time of its last change; finishing changes the phase and that time.
  lemma RunChanges(run: CampaignRun, index: nat, claimId: string, now: int)
    requires index < |run.drafts|
    ensures var next := SubmittedRun(run, index, claimId, now);
      && next.runId == run.runId && next.phase == run.phase && next.schema == run.schema
      && next.createdAt == run.createdAt && Parse(next.updatedAt) == Some(now / NANOS * NANOS)
      && |next.drafts| == |run.drafts|
      && (forall i :: 0 <= i < |run.drafts| && i != index ==> next.drafts[i] == run.drafts[i])
      && next.drafts[index].spec == run.drafts[index].spec && next.drafts[index].status == Submitted
      && next.drafts[index].claimId == claimId && Parse(next.drafts[index].submittedAt) == Some(now / NANOS * NANOS)
    ensures var done := FinishedRun(run, now);
      && done.phase == Finished && Parse(done.updatedAt) == Some(now / NANOS * NANOS)
      && done.drafts == run.drafts && done.runId == run.runId && done.schema == run.schema
      && done.createdAt == run.createdAt
  {
  }

  // A submission moves exactly one draft out of pending, and the run file it leaves is valid
  // unless another draft already records the claim.
  lemma SubmissionMovesOne(specOk: CampaignSpec -> bool, run: CampaignRun, expected: string, index: int,
                           claimId: string, now: int)
    requires RunOk(specOk, run, expected) && Submittable(run, index) && IsClaimId(claimId)
    ensures var next := SubmittedRun(run, index, claimId, now);
      && (RunOk(specOk, next, expected) <==> !Recorded(run, claimId))
      && Count(next.drafts, Pending) == Count(run.drafts, Pending) - 1
      && Count(next.drafts, Submitted) == Count(run.drafts, Submitted) + 1
      && Count(next.drafts, SupersededByOwner) == Count(run.drafts, SupersededByOwner)
      && (forall i :: 0 <= i < |run.drafts| && i != index ==> next.drafts[i] == run.drafts[i])
  {
    var next := SubmittedRun(run, index, claimId, now);
    CountUpdate(run.drafts, index, next.drafts[index], Pending);
    CountUpdate(run.drafts, index, next.drafts[index], Submitted);
    CountUpdate(run.drafts, index, next.drafts[index], SupersededByOwner);
    SubmissionValid(specOk, run, expected, index, claimId, now);
  }

  lemma SubmissionValid(specOk: CampaignSpec -> bool, run: CampaignRun, expected: string, index: int, claimId: string,
                        now: int)
    requires RunOk(specOk, run, expected) && Submittable(run, index) && IsClaimId(claimId)
    ensures RunOk(specOk, SubmittedRun(run, index, claimId, now), expected) <==> !Recorded(run, claimId)
  {
    var next := SubmittedRun(run, index, claimId, now);
    if Recorded(run, claimId) {
      var i :| 0 <= i < |run.drafts| && !run.drafts[i].status.Pending? && run.drafts[i].claimId == claimId;
      assert next.drafts[i].claimId == next.drafts[index].claimId;
      assert i < index || index < i;
    }
  }

  // ----- many submissions -----

  datatype Submission = Submission(index: nat, claimId: string, at: int)

  function AfterSubmissions(run: CampaignRun, subs: seq<Submission>): CampaignRun
    requires forall k :: 0 <= k < |subs| ==> subs[k].index < |run.drafts|
    ensures |AfterSubmissions(run, subs).drafts| == |run.drafts|
  {
    if subs == [] then run
    else
      var last := subs[|subs| - 1];
      SubmittedRun(AfterSubmissions(run, subs[..|subs| - 1]), last.index, last.claimId, last.at)
  }

  ghost predicate Fresh(run: CampaignRun, subs: seq<Submission>) {
    && (forall k :: 0 <= k < |subs| ==>
          Submittable(run, subs[k].index) && IsClaimId(subs[k].claimId) && !Recorded(run, subs[k].claimId))
    && (forall j, k :: 0 <= j < k < |subs| ==> subs[j].index != subs[k].index && subs[j].claimId != subs[k].claimId)
  }

  function SubmittedDraft(d: CampaignDraft, s: Submission): CampaignDraft {
    d.(status := Submitted, claimId := s.claimId, submittedAt := Rfc3339(s.at))
  }

  ghost predicate Reached(run: CampaignRun, subs: seq<Submission>, after: CampaignRun)
    requires Fresh(run, subs) && |after.drafts| == |run.drafts|
  {
    && (forall k :: 0 <= k < |subs| ==>
          after.drafts[subs[k].index] == SubmittedDraft(run.drafts[subs[k].index], subs[k]))
    && (forall i :: 0 <= i < |run.drafts| && (forall k :: 0 <= k < |subs| ==> subs[k].index != i) ==>
          after.drafts[i] == run.drafts[i])
  }

  // Submissions of different drafts may come in any order: each leaves a valid run file, each
  // draft ends as its own submission left it, and the number of pending drafts says how many
  // are still to come.
  lemma {:induction false} SubmissionsInAnyOrder(specOk: CampaignSpec -> bool, run: CampaignRun, expected: string,
                                                 subs: seq<Submission>)
    requires RunOk(specOk, run, expected) && Fresh(run, subs)
    ensures var after := AfterSubmissions(run, subs);
      && RunOk(specOk, after, expected) && Reached(run, subs, after) && after.phase == run.phase
      && Count(after.drafts, Pending) == Count(run.drafts, Pending) - |subs|
  {
    if subs != [] {
      var n := |subs| - 1;
      var init, last := subs[..n], subs[n];
      assert subs == init + [last];
      assert Submittable(run, subs[n].index);
      SubmissionsInAnyOrder(specOk, run, expected, init);
      var mid := AfterSubmissions(run, init);
      NotYetRecorded(run, init, mid, last);
      ReachedStep(run, init, mid, last);
      SubmissionMovesOne(specOk, mid, expected, last.index, last.claimId, last.at);
    }
  }

  lemma NotYetRecorded(run: CampaignRun, init: seq<Submission>, mid: CampaignRun, last: Submission)
    requires Fresh(run, init) && |mid.drafts| == |run.drafts| && Reached(run, init, mid) && mid.phase == run.phase
    requires Fresh(run, init + [last])
    ensures Submittable(mid, last.index) && !Recorded(mid, last.claimId)
  {
    var subs := init + [last];
    assert subs[|init|] == last;
    forall k | 0 <= k < |init| ensures init[k].index != last.index && init[k].claimId != last.claimId {
      assert subs[k] == init[k];
    }
    forall i | 0 <= i < |mid.drafts| && !mid.drafts[i].status.Pending? ensures mid.drafts[i].claimId != last.claimId {
      NotRecordedAt(run, init, mid, last, i);
    }
  }

  lemma NotRecordedAt(run: CampaignRun, init: seq<Submission>, mid: CampaignRun, last: Submission, i: nat)
    requires Fresh(run, init) && |mid.drafts| == |run.drafts| && Reached(run, init, mid) && i < |mid.drafts|
    requires !Recorded(run, last.claimId) && forall k :: 0 <= k < |init| ==> init[k].claimId != last.claimId
    ensures mid.drafts[i].status.Pending? || mid.drafts[i].claimId != last.claimId
  {
    if k :| 0 <= k < |init| && init[k].index == i {
      assert mid.drafts[init[k].index].claimId == init[k].claimId;
    } else {
      assert mid.drafts[i] == run.drafts[i];
    }
  }

  lemma ReachedStep(run: CampaignRun, init: seq<Submission>, mid: CampaignRun, last: Submission)
    requires Fresh(run, init) && |mid.drafts| == |run.drafts| && Reached(run, init, mid)
    requires Fresh(run, init + [last]) && last.index < |run.drafts|
    ensures Reached(run, init + [last], SubmittedRun(mid, last.index, last.claimId, last.at))
  {
    var subs := init + [last];
    var after := SubmittedRun(mid, last.index, last.claimId, last.at);
    assert subs[|init|] == last;
    forall k | 0 <= k < |init| ensures init[k].index != last.index && subs[k] == init[k] {
      assert subs[k].index != subs[|init|].index;
    }
    forall i | 0 <= i < |run.drafts| && forall k :: 0 <= k < |subs| ==> subs[k].index != i
      ensures after.drafts[i] == run.drafts[i]
    {
      assert last.index != i;
    }
  }

  // Nothing is pending exactly when the submissions covered every pending draft.
  lemma FinishesWhenCovered(specOk: CampaignSpec -> bool, run: CampaignRun, expected: string, subs: seq<Submission>,
                            now: int)
    requires RunOk(specOk, run, expected) && Fresh(run, subs)
    ensures var after := AfterSubmissions(run, subs);
      RunOk(specOk, FinishedRun(after, now), expected) <==> |subs| == Count(run.drafts, Pending)
  {
    var after := AfterSubmissions(run, subs);
    SubmissionsInAnyOrder(specOk, run, expected, subs);
    CountZero(after.drafts, Pending);
  }

  // ----- the store -----

  datatype Files = Files(claims: L.Store, runs: map<string, CampaignRun>)

  // One call of submit, with the id drawn for its claim and the fate of its two file writes.
  datatype Call = Call(
    runId: string,
    index: int,
    body: string,
    claimId: string,
    now: int,
    later: int,
    claimWrite: L.CommitOutcome,
    runWrite: L.CommitOutcome
  )

  ghost predicate Ready(authoring: Authoring, f: Files, a: Call) {
    && IsCampaignId(a.runId) && a.runId in f.runs && RunOk(authoring.specOk, f.runs[a.runId], a.runId)
    && Submittable(f.runs[a.runId], a.index)
  }

  function Authored(authoring: Authoring, spec: CampaignSpec, body: string, id: string, now: int): L.Claim {
    L.Claim(id, spec.tier, L.Draft, authoring.content(spec, body, now), spec.evidenceIds, spec.supportingIds,
      [], [], [], [], NoTime, "", "")
  }

  // The claim that is written for a spec.
  lemma AuthoredMeans(authoring: Authoring, spec: CampaignSpec, body: string, id: string, now: int)
    ensures var c := Authored(authoring, spec, body, id, now);
      && c.id == id && c.tier == spec.tier && c.content == authoring.content(spec, body, now) && c.status == L.Draft
      && c.evidenceIds == spec.evidenceIds && c.supportingIds == spec.supportingIds
      && c.supersedes == [] && c.contradicts == [] && c.sources == [] && c.transitions == []
      && Parse(c.verifiedAt).None? && c.verifiedBy == "" && c.verifiedDigest == ""
  {
  }

  ghost function ClaimOf(authoring: Authoring, f: Files, a: Call): L.Claim
    requires Ready(authoring, f, a)
  {
    Authored(authoring, f.runs[a.runId].drafts[a.index].spec, a.body, a.claimId, a.now)
  }

  // The call writes its claim.
  ghost predicate Claims(authoring: Authoring, rules: L.Rules, f: Files, a: Call) {
    Ready(authoring, f, a) && L.DraftAccepted(rules, f.claims, ClaimOf(authoring, f, a)) && !a.claimWrite.NotCommitted?
  }

  // The call records its claim in the run as well.
  ghost predicate Advances(authoring: Authoring, rules: L.Rules, f: Files, a: Call) {
    && Claims(authoring, rules, f, a) && a.claimWrite.Reported?
    && !Recorded(f.runs[a.runId], a.claimId) && !a.runWrite.NotCommitted?
  }

  ghost function AfterCall(authoring: Authoring, rules: L.Rules, f: Files, a: Call): Files {
    Files(
      if Claims(authoring, rules, f, a) then f.claims[a.claimId := L.Drafted(rules, f.claims, ClaimOf(authoring, f, a))]
      else f.claims,
      if Advances(authoring, rules, f, a)
        then f.runs[a.runId := SubmittedRun(f.runs[a.runId], a.index, a.claimId, a.later)]
      else f.runs)
  }

  // A call that writes its claim leaves it unrecorded exactly when the write of the claim was
  // reported as failed or the run file was not written; the run is then as it was, and the
  // draft can be submitted again. A call that does not write its claim changes nothing.
  lemma LeavesUnrecorded(authoring: Authoring, rules: L.Rules, f: Files, a: Call)
    requires IsClaimId(a.claimId) && Ready(authoring, f, a) && !Recorded(f.runs[a.runId], a.claimId)
    ensures var g := AfterCall(authoring, rules, f, a);
      if Claims(authoring, rules, f, a) then
        && a.claimId in g.claims
        && (!Recorded(g.runs[a.runId], a.claimId) <==> a.claimWrite.Unreported? || a.runWrite.NotCommitted?)
        && (!Recorded(g.runs[a.runId], a.claimId) ==> g.runs == f.runs && Ready(authoring, g, a))
      else g == f
  {
    if Advances(authoring, rules, f, a) {
      var next := SubmittedRun(f.runs[a.runId], a.index, a.claimId, a.later);
      assert !next.drafts[a.index].status.Pending? && next.drafts[a.index].claimId == a.claimId;
    }
  }

  // A call writes its claim exactly when the draft is waiting, the claim is a new or another draft
  // claim that passes the document check, and the write goes through; it records the claim when
  // that write was also reported and the id is free in the run.
  lemma CallWrites(authoring: Authoring, rules: L.Rules, f: Files, a: Call)
    requires Ready(authoring, f, a)
    ensures var g := AfterCall(authoring, rules, f, a);
      var c := L.Drafted(rules, f.claims, ClaimOf(authoring, f, a));
      var written := IsClaimId(a.claimId) && rules.valid(c)
        && (a.claimId in f.claims ==> f.claims[a.claimId].status == L.Draft)
        && a.claimWrite != L.NotCommitted;
      var recorded := written && a.claimWrite == L.Reported && a.runWrite != L.NotCommitted
        && forall d :: d in f.runs[a.runId].drafts && d.status != Pending ==> d.claimId != a.claimId;
      && g.claims == (if written then f.claims[a.claimId := c] else f.claims)
      && g.runs == (if recorded then f.runs[a.runId := SubmittedRun(f.runs[a.runId], a.index, a.claimId, a.later)]
                    else f.runs)
  {
    var drafts := f.runs[a.runId].drafts;
    forall i | 0 <= i < |drafts| ensures drafts[i] in drafts {}
  }

  // Submitting the same draft again after that creates a second claim: both are there, and the
  // run records the second one only.
  lemma ResubmissionLeavesTwo(authoring: Authoring, rules: L.Rules, f: Files, a: Call, b: Call)
    requires IsClaimId(a.claimId) && IsClaimId(b.claimId) && a.claimId != b.claimId
    requires Claims(authoring, rules, f, a) && !Advances(authoring, rules, f, a)
      && !Recorded(f.runs[a.runId], a.claimId)
    requires b.runId == a.runId && b.index == a.index
    requires var g := AfterCall(authoring, rules, f, a); Advances(authoring, rules, g, b)
    ensures var h := AfterCall(authoring, rules, AfterCall(authoring, rules, f, a), b);
      && a.claimId in h.claims && b.claimId in h.claims
      && h.claims[a.claimId].status.Draft? && h.claims[b.claimId].status.Draft?
      && h.runs[a.runId].drafts[a.index].claimId == b.claimId
      && !Recorded(h.runs[a.runId], a.claimId) && Recorded(h.runs[a.runId], b.claimId)
  {
    var run := f.runs[a.runId];
    var next := SubmittedRun(run, a.index, b.claimId, b.later);
    assert !next.drafts[a.index].status.Pending? && next.drafts[a.index].claimId == b.claimId;
    forall i | 0 <= i < |next.drafts| && !next.drafts[i].status.Pending? ensures next.drafts[i].claimId != a.claimId {
      if i != a.index { assert next.drafts[i] == run.drafts[i]; }
    }
  }

  class CampaignStore {
    const authoring: Authoring
    const rules: L.Rules
    var claims: L.Store
    var runs: map<string, CampaignRun>

    function State(): Files
      reads this
    {
      Files(claims, runs)
    }

    constructor (authoring: Authoring, rules: L.Rules)
      ensures claims == map[] && runs == map[] && this.authoring == authoring && this.rules == rules
    {
      this.authoring, this.rules := authoring, rules;
      claims, runs := map[], map[];
    }

    // A file that does not pass the check is an error and is left alone.
    method ReadRun(id: string) returns (r: Option<CampaignRun>)
      ensures r.Some? <==> IsCampaignId(id) && id in runs && RunOk(authoring.specOk, runs[id], id)
      ensures r.Some? ==> r.value == runs[id]
    {
      if !IsCampaignId(id) || id !in runs { return None; }
      var ok := ValidateRunFile(authoring.specOk, runs[id], id);
      return if ok then Some(runs[id]) else None;
    }

    method WriteRun(run: CampaignRun, write: L.CommitOutcome) returns (ok: bool)
      modifies this`runs
      ensures ok <==> RunOk(authoring.specOk, run, run.runId) && write.Reported?
      ensures runs == if RunOk(authoring.specOk, run, run.runId) && !write.NotCommitted?
        then old(runs)[run.runId := run]
                      else old(runs)
    {
      ok := ValidateRunFile(authoring.specOk, run, run.runId);
      if !ok || write.NotCommitted? { return false; }
      runs := runs[run.runId := run];
      return write.Reported?;
    }

    method Begin(specs: seq<CampaignSpec>, id: string, now: int, write: L.CommitOutcome)
      returns (r: Option<CampaignRun>)
      requires IsCampaignId(id)
      modifies this`runs
      ensures var sound := specs != [] && forall i :: 0 <= i < |specs| ==> authoring.specOk(specs[i]);
        && (r.Some? <==> sound && write.Reported?)
        && runs == if sound && !write.NotCommitted? then old(runs)[id := Begun(specs, id, now)] else old(runs)
      ensures r.Some? ==> r.value == Begun(specs, id, now) && RunOk(authoring.specOk, r.value, id)
    {
      if specs == [] { return None; }
      for i := 0 to |specs|
        invariant forall k :: 0 <= k < i ==> authoring.specOk(specs[k])
      {
        if !authoring.specOk(specs[i]) { return None; }
      }
      var ok := WriteRun(Begun(specs, id, now), write);
      return if ok then Some(Begun(specs, id, now)) else None;
    }

    method Resume(id: string) returns (r: Option<CampaignState>)
      ensures r.Some? <==> IsCampaignId(id) && id in runs && RunOk(authoring.specOk, runs[id], id)
      ensures r.Some? ==> IsState(runs[id], r.value)
      ensures r.Some? ==> r.value.pending + r.value.submitted + r.value.supersededByOwner == |runs[id].drafts|
    {
      var run := ReadRun(id);
      if run.None? { return None; }
      var state := StateFromRun(run.value);
      CountsSum(run.value.drafts);
      return Some(state);
    }

    method NextDraft(id: string) returns (r: Option<(nat, CampaignSpec)>)
      ensures r.Some? <==>
        && IsCampaignId(id) && id in runs && RunOk(authoring.specOk, runs[id], id)
        && exists i :: 0 <= i < |runs[id].drafts| && runs[id].drafts[i].status.Pending?
      ensures r.Some? ==> var drafts := runs[id].drafts;
        && r.value.0 < |drafts| && drafts[r.value.0].status.Pending? && drafts[r.value.0].spec == r.value.1
        && forall i :: 0 <= i < r.value.0 ==> !drafts[i].status.Pending?
    {
      var state := Resume(id);
      if state.None? || state.value.nextIndex < 0 { return None; }
      return Some((state.value.nextIndex, state.value.run.drafts[state.value.nextIndex].spec));
    }

    // The claim is written before the run file: when anything stops in between, the run still
    // has the draft pending.
    method Submit(a: Call) returns (ok: bool)
      requires IsClaimId(a.claimId)
      modifies this
      ensures State() == AfterCall(authoring, rules, old(State()), a)
      ensures ok <==> Advances(authoring, rules, old(State()), a) && a.runWrite.Reported?
    {
      var run := ReadRun(a.runId);
      if run.None? || !Submittable(run.value, a.index) { return false; }
      var c := Authored(authoring, run.value.drafts[a.index].spec, a.body, a.claimId, a.now);
      if !L.DraftAccepted(rules, claims, c) || a.claimWrite.NotCommitted? { return false; }
      claims := claims[a.claimId := L.Drafted(rules, claims, c)];
      if !a.claimWrite.Reported? { return false; }
      SubmissionMovesOne(authoring.specOk, run.value, a.runId, a.index, a.claimId, a.later);
      ok := WriteRun(SubmittedRun(run.value, a.index, a.claimId, a.later), a.runWrite);
    }

    method Finish(id: string, now: int, write: L.CommitOutcome) returns (r: Option<CampaignRun>)
      modifies this`runs
      ensures var done := IsCampaignId(id) && id in old(runs) && RunOk(authoring.specOk, old(runs)[id], id)
          && forall i :: 0 <= i < |old(runs)[id].drafts| ==> !old(runs)[id].drafts[i].status.Pending?;
        && (r.Some? <==> done && write.Reported?)
        && runs == if done && !write.NotCommitted? then old(runs)[id := FinishedRun(old(runs)[id], now)] else old(runs)
      ensures r.Some? ==> r.value == FinishedRun(old(runs)[id], now) && RunOk(authoring.specOk, r.value, id)
    {
      r := ReadRun(id);
      if r.None? { return; }
      var run := r.value;
      for i := 0 to |run.drafts|
        invariant forall k :: 0 <= k < i ==> !run.drafts[k].status.Pending?
      {
        if run.drafts[i].status.Pending? { return None; }
      }
      var ok := WriteRun(FinishedRun(run, now), write);
      return if ok then Some(FinishedRun(run, now)) else None;
    }
  }
}
