/** Checking evidence: the memoising validator, the source closure of an approved claim, and
    the line spans it quotes. */
module EvidenceCheck {
  import opened Wrappers
  import opened Clock
  import opened Ordering
  import opened Digests
  import opened Identifiers
  import opened Evidence
  import opened EvidenceDigest

  // ----- lines -----

  // Lines end with their newline; only the last may lack one.
  ghost predicate IsLine(line: string, last: bool) {
    && (forall k :: 0 <= k < |line| - 1 ==> line[k] != '\n')
    && (line == "" || line[|line| - 1] == '\n' || last)
  }

  ghost predicate AreLines(lines: seq<string>, raw: string) {
    && Concat(lines) == raw && lines != []
    && (raw == "" ==> lines == [""])
    && forall i :: 0 <= i < |lines| ==> IsLine(lines[i], i == |lines| - 1) && (raw != "" ==> lines[i] != "")
  }

  method SplitEvidenceLines(raw: string) returns (lines: seq<string>)
    ensures AreLines(lines, raw)
  {
    if raw == "" { return [""]; }
    lines := [];
    var start := 0;
    for i := 0 to |raw|
      invariant start <= i && Concat(lines) == raw[..start] && forall k :: start <= k < i ==> raw[k] != '\n'
      invariant start < i || start == 0 || lines != []
      invariant forall k :: 0 <= k < |lines| ==> IsLine(lines[k], false) && lines[k] != ""
      invariant start > 0 ==> lines != []
    {
      if raw[i] == '\n' {
        TakesLine(lines, raw, start, i + 1);
        lines := lines + [raw[start..i + 1]];
        start := i + 1;
      }
    }
    if start < |raw| {
      TakesLine(lines, raw, start, |raw|);
      lines := lines + [raw[start..|raw|]];
    }
    assert raw[..|raw|] == raw;
  }

  // The next line ends at the first newline, or at the end of the text.
  lemma TakesLine(lines: seq<string>, raw: string, start: nat, end: nat)
    requires start < end <= |raw| && Concat(lines) == raw[..start]
    requires forall k :: start <= k < end - 1 ==> raw[k] != '\n'
    ensures Concat(lines + [raw[start..end]]) == raw[..end]
    ensures IsLine(raw[start..end], raw[end - 1] != '\n')
  {
    var line := raw[start..end];
    assert forall k :: 0 <= k < |line| ==> line[k] == raw[start + k];
    ConcatAppend(lines, line);
    assert raw[..end] == raw[..start] + line;
  }

  lemma {:induction false} ConcatAppend(parts: seq<string>, part: string)
    ensures Concat(parts + [part]) == Concat(parts) + part
  {
    ConcatSnoc(parts + [part], |parts|);
    assert (parts + [part])[..|parts|] == parts && (parts + [part])[..|parts| + 1] == parts + [part];
  }

  lemma {:induction false} ConcatSplit(parts: seq<string>, i: nat)
    requires i <= |parts|
    ensures Concat(parts) == Concat(parts[..i]) + Concat(parts[i..])
  {
    if i == 0 {
      assert parts[..0] == [] && parts[0..] == parts;
    } else {
      ConcatSplit(parts[1..], i - 1);
      assert parts[..i][1..] == parts[1..][..i - 1] && parts[1..][i - 1..] == parts[i..];
    }
  }

  ghost predicate LineEndsAt(raw: string, n: nat) {
    && 0 < n <= |raw| && (raw[n - 1] == '\n' || n == |raw|)
    && forall k :: 0 <= k < n - 1 ==> raw[k] != '\n'
  }

  lemma FirstLine(a: seq<string>, raw: string)
    requires AreLines(a, raw) && raw != ""
    ensures LineEndsAt(raw, |a[0]|) && a[0] == raw[..|a[0]|] && raw[|a[0]|..] == Concat(a[1..])
    ensures |a| == 1 <==> |a[0]| == |raw|
  {
    assert Concat(a) == a[0] + Concat(a[1..]);
    assert IsLine(a[0], 0 == |a| - 1);
    if |a| > 1 {
      assert a[1..][0] == a[1] && a[1] != "";
    }
  }

  // The lines of a text are determined by it.
  lemma {:induction false} LinesUnique(a: seq<string>, b: seq<string>, raw: string)
    requires AreLines(a, raw) && AreLines(b, raw)
    ensures a == b
    decreases |a|
  {
    if raw != "" {
      FirstLine(a, raw);
      FirstLine(b, raw);
      if |a| > 1 {
        TailLines(a, raw);
        TailLines(b, raw);
        LinesUnique(a[1..], b[1..], raw[|a[0]|..]);
      }
      assert a == [a[0]] + a[1..] && b == [b[0]] + b[1..];
    }
  }

  lemma TailLines(a: seq<string>, raw: string)
    requires AreLines(a, raw) && raw != "" && |a| > 1
    ensures AreLines(a[1..], Concat(a[1..])) && Concat(a[1..]) != ""
  {
    var t := a[1..];
    assert Concat(t) == t[0] + Concat(t[1..]) && t[0] == a[1];
    forall i | 0 <= i < |t| ensures IsLine(t[i], i == |t| - 1) && t[i] != "" {
      assert t[i] == a[i + 1];
    }
  }

  // ----- one snapshot -----

  datatype Reason = UnsafeId | NoMetadata | BadMetadata | InvalidMetadata | NoRaw | WrongLength | WrongHash

  datatype Failure = Failure(id: string, reason: Reason)

  // The reader of metadata, the two text checks it relies on, and SHA-256.
  datatype Checker = Checker(codec: Codec, mediaTypeOk: string -> bool, isUtf8: string -> bool, hash: Hash)

  predicate MetadataOk(checker: Checker, id: string, e: Snapshot) {
    && IsEvidenceId(e.id) && e.id == id && !IsBlank(e.origin) && Parse(e.capturedAt).Some?
    && checker.mediaTypeOk(e.mediaType) && e.byteLength >= 0 && e.sha256.Sha256?
  }

  function Problem(checker: Checker, sources: Sources, id: string): Option<Reason> {
    if !IsEvidenceId(id) then Some(UnsafeId)
    else if id !in sources || sources[id].metadata.None? then Some(NoMetadata)
    else match checker.codec.parse(sources[id].metadata.value)
      case None => Some(BadMetadata)
      case Some(e) =>
        if !MetadataOk(checker, id, e) then Some(InvalidMetadata)
        else if sources[id].raw.None? then Some(NoRaw)
        else if |sources[id].raw.value| != e.byteLength then Some(WrongLength)
        else if Sha256(sources[id].raw.value) != e.sha256 then Some(WrongHash)
        else None
  }

  // A snapshot passes exactly when it is described by metadata of its own id that is complete
  // and acceptable, and its raw bytes have the recorded length and hash.
  lemma PassesExactly(checker: Checker, sources: Sources, id: string)
    ensures Verdict(checker, sources, id).None? <==>
      && IsEvidenceId(id) && id in sources && sources[id].metadata.Some? && sources[id].raw.Some?
      && exists e :: checker.codec.parse(sources[id].metadata.value) == Some(e)
           && e.id == id && !IsBlank(e.origin) && Parse(e.capturedAt).Some? && checker.mediaTypeOk(e.mediaType)
           && e.byteLength == |sources[id].raw.value| && e.sha256 == Sha256(sources[id].raw.value)
    ensures Verdict(checker, sources, id).Some? ==>
      var failure := Verdict(checker, sources, id).value;
      failure.id == id && Applies(checker, sources, id, failure.reason)
  {
  }

  // What the reason of a failure says.
  predicate Applies(checker: Checker, sources: Sources, id: string, reason: Reason) {
    if reason == UnsafeId then !IsEvidenceId(id)
    else if reason == NoMetadata then id !in sources || sources[id].metadata == None
    else
      && id in sources && sources[id].metadata.Some?
      && var e := checker.codec.parse(sources[id].metadata.value);
         if e == None then reason == BadMetadata
         else match reason
           case InvalidMetadata => !MetadataOk(checker, id, e.value)
           case NoRaw => sources[id].raw == None
           case WrongLength => sources[id].raw.Some? && |sources[id].raw.value| != e.value.byteLength
           case WrongHash =>
             && sources[id].raw.Some? && |sources[id].raw.value| == e.value.byteLength
             && Sha256(sources[id].raw.value) != e.value.sha256
           case _ => false
  }

  function Verdict(checker: Checker, sources: Sources, id: string): Option<Failure> {
    match Problem(checker, sources, id)
    case None => None
    case Some(reason) => Some(Failure(id, reason))
  }

  function DigestOf(checker: Checker, sources: Sources, id: string): string
    requires Verdict(checker, sources, id).None?
  {
    var e := checker.codec.parse(sources[id].metadata.value).value;
    SnapshotDigest(checker.hash, sources[id].metadata.value, e.byteLength, e.sha256)
  }

  // What a passing snapshot has on disk is what its digest says.
  lemma DigestPinsBytes(checker: Checker, a: Sources, b: Sources, id: string)
    requires IsHash(checker.hash) && Verdict(checker, a, id).None? && Verdict(checker, b, id).None?
    ensures DigestOf(checker, a, id) == DigestOf(checker, b, id) <==> a[id] == b[id]
  {
    var e, f := checker.codec.parse(a[id].metadata.value).value, checker.codec.parse(b[id].metadata.value).value;
    if DigestOf(checker, a, id) == DigestOf(checker, b, id) {
      SnapshotDigestInjective(checker.hash, a[id].metadata.value, e.byteLength, a[id].raw.value,
                              b[id].metadata.value, f.byteLength, b[id].raw.value);
    }
  }

  // A snapshot just added passes exactly when its media type is acceptable, which is not
  // looked at when it is added.
  lemma AddedPasses(checker: Checker, s: Store, a: Attempt)
    requires RoundTrips(checker.codec) && IsEvidenceId(a.id)
    requires Answered(checker.codec, s, a, Added(Captured(a)))
    ensures Verdict(checker, After(checker.codec, s, a).sources, a.id).None? <==> checker.mediaTypeOk(MediaType(a))
  {
    assert checker.codec.parse(checker.codec.render(Captured(a))) == Some(Captured(a));
  }

  // What is left by a clean-up that removed the raw bytes alone counts as stored, by
  // `Evidence.FailedIsRepeatable`, and never passes.
  lemma TornNeverPasses(checker: Checker, s: Store, a: Attempt, later: seq<Attempt>)
    requires RoundTrips(checker.codec) && Orderly(checker.codec, s.sources) && AllPossible(checker.codec, [a] + later)
    requires !IsBlank(a.origin) && !Known(checker.codec, s, a) && a.id !in s.sources && Torn(checker.codec, a)
    ensures Verdict(checker, AfterAll(checker.codec, After(checker.codec, s, a), later).sources, a.id).Some?
  {
    var t := After(checker.codec, s, a);
    assert ([a] + later)[0] == a && forall i :: 0 <= i < |later| ==> later[i] == ([a] + later)[i + 1];
    AfterIsOrderly(checker.codec, s, a);
    AddsKeepSnapshots(checker.codec, t, later);
  }

  // ----- claims -----

  datatype Span = Span(evidenceId: string, startLine: int, endLine: int, digest: string)

  datatype ClaimSource = ClaimSource(id: string, resource: string, title: string, digest: string, spans: seq<Span>)

  datatype EvidenceClaim = EvidenceClaim(approved: bool, evidenceIds: seq<string>, sources: seq<ClaimSource>)

  function SourceId(s: ClaimSource): string { s.id }

  function RawPath(id: string): string { "evidence/sources/" + id + "/raw" }

  // The lines a span names, as they are now.
  function Quote(lines: seq<string>, span: Span): string
    requires 1 <= span.startLine <= span.endLine <= |lines|
  {
    Concat(lines[span.startLine - 1..span.endLine])
  }

  ghost predicate SpanOk(hash: Hash, lines: seq<string>, id: string, digest: string, span: Span) {
    && span.evidenceId == id && 1 <= span.startLine <= span.endLine <= |lines|
    && span.digest == SpanDigest(hash, digest, span.startLine, span.endLine, Quote(lines, span))
  }

  ghost predicate SpansOk(checker: Checker, sources: Sources, id: string, source: ClaimSource, digest: string) {
    source.spans != [] ==>
      && id in sources && sources[id].raw.Some? && checker.isUtf8(sources[id].raw.value)
      && forall lines :: AreLines(lines, sources[id].raw.value) ==>
        SpansFit(checker.hash, lines, id, digest, source.spans)
  }

  ghost predicate SpansFit(hash: Hash, lines: seq<string>, id: string, digest: string, spans: seq<Span>) {
    forall i :: 0 <= i < |spans| ==> SpanOk(hash, lines, id, digest, spans[i])
  }

  // The list of lines is unique, so the one that was split decides.
  lemma SpansByLines(checker: Checker, sources: Sources, id: string, source: ClaimSource, digest: string,
                     lines: seq<string>)
    requires source.spans != [] && id in sources && sources[id].raw.Some? && checker.isUtf8(sources[id].raw.value)
    requires AreLines(lines, sources[id].raw.value)
    ensures SpansOk(checker, sources, id, source, digest) <==> SpansFit(checker.hash, lines, id, digest, source.spans)
  {
    var raw := sources[id].raw.value;
    forall other | AreLines(other, raw) ensures other == lines { LinesUnique(other, lines, raw); }
  }

  method ValidateSpans(checker: Checker, sources: Sources, id: string, source: ClaimSource, digest: string)
    returns (ok: bool)
    ensures ok == SpansOk(checker, sources, id, source, digest)
  {
    if source.spans == [] { return true; }
    if id !in sources || sources[id].raw.None? { return false; }
    var raw := sources[id].raw.value;
    if !checker.isUtf8(raw) { return false; }
    var lines := SplitEvidenceLines(raw);
    SpansByLines(checker, sources, id, source, digest, lines);
    ok := CheckSpans(checker.hash, lines, id, digest, source.spans);
  }

  method CheckSpans(hash: Hash, lines: seq<string>, id: string, digest: string, spans: seq<Span>) returns (ok: bool)
    ensures ok == SpansFit(hash, lines, id, digest, spans)
  {
    for i := 0 to |spans|
      invariant forall k :: 0 <= k < i ==> SpanOk(hash, lines, id, digest, spans[k])
    {
      var span := spans[i];
      if span.evidenceId != id { return false; }
      if span.startLine < 1 || span.endLine < span.startLine || span.endLine > |lines| { return false; }
      var joined := Concat(lines[span.startLine - 1..span.endLine]);
      if span.digest != SpanDigest(hash, digest, span.startLine, span.endLine, joined) { return false; }
    }
    return true;
  }

  // ----- the validator -----

  // One check of one id, and the digest of a snapshot that passes.
  type Check = (Sources, string) -> Option<Failure>
  type Digesting = (Sources, string) -> string

  function CheckOf(checker: Checker): Check {
    (sources: Sources, id: string) => Verdict(checker, sources, id)
  }

  function DigestsOf(checker: Checker): Digesting {
    (sources: Sources, id: string) => if Verdict(checker, sources, id).None? then DigestOf(checker, sources, id) else ""
  }

  // The cache holds the verdict, and for passing snapshots the digest, of each first check.
  ghost predicate Remembers(check: Check, digestOf: Digesting, first: map<string, Sources>,
                            cache: map<string, Option<Failure>>, digests: map<string, string>)
  {
    && cache.Keys == first.Keys
    && (forall id :: id in cache ==> cache[id] == check(first[id], id))
    && (forall id :: id in digests <==> id in cache && cache[id].None?)
    && (forall id :: id in digests ==> digests[id] == digestOf(first[id], id))
  }

  lemma RemembersStep(check: Check, digestOf: Digesting, first: map<string, Sources>,
                      cache: map<string, Option<Failure>>, digests: map<string, string>, sources: Sources, id: string)
    requires Remembers(check, digestOf, first, cache, digests) && id !in cache
    ensures var r := check(sources, id);
      Remembers(check, digestOf, first[id := sources], cache[id := r],
        if r.None? then digests[id := digestOf(sources, id)] else digests)
  {
  }

  class EvidenceValidator {
    const check: Check
    const digestOf: Digesting
    var cache: map<string, Option<Failure>>
    var digests: map<string, string>
    var counts: map<string, nat>
    ghost var first: map<string, Sources>  // the disk as it was when an id was first checked

    ghost predicate Valid()
      reads this
    {
      Remembers(check, digestOf, first, cache, digests) && CountedOnce(counts, first.Keys)
    }

    constructor (check: Check, digestOf: Digesting)
      ensures Valid() && cache == map[] && this.check == check && this.digestOf == digestOf
    {
      this.check, this.digestOf := check, digestOf;
      cache, digests, counts, first := map[], map[], map[], map[];
    }

    method Verify(sources: Sources, id: string) returns (r: Option<Failure>)
      requires Valid()
      modifies this
      ensures Valid() && Grew(old(first), first, sources)
      ensures r == check(Seen(old(first), sources, id), id)
      ensures cache == old(cache)[id := r]
    {
      if id in cache {
        assert cache == cache[id := cache[id]];
        return cache[id];
      }
      r := CheckNew(sources, id);
    }

    method CheckNew(sources: Sources, id: string) returns (r: Option<Failure>)
      requires Valid() && id !in cache
      modifies this
      ensures Valid() && first == old(first)[id := sources]
      ensures r == check(sources, id) && cache == old(cache)[id := r]
    {
      RemembersStep(check, digestOf, first, cache, digests, sources, id);
      CountStep(counts, first.Keys, id);
      assert first[id := sources].Keys == first.Keys + {id};
      counts := Bump(counts, id);
      r := check(sources, id);
      if r.None? { digests := digests[id := digestOf(sources, id)]; }
      cache := cache[id := r];
      first := first[id := sources];
    }

    // First the evidence of the claim, in the order of the ids.
    method VerifyAll(sources: Sources, evidenceIds: seq<string>) returns (ok: bool)
      requires Valid()
      modifies this
      ensures Valid() && Grew(old(first), first, sources)
      ensures ok <==> Distinct(evidenceIds) && AllPass(check, old(first), sources, evidenceIds)
      ensures ok ==> AllHold(digests, digestOf, old(first), sources, evidenceIds)
    {
      var ids := SortedCopy(evidenceIds);
      for i := 0 to |ids|
        invariant Valid() && Grew(old(first), first, sources) && Distinct(ids[..i]) && Cleared(cache, ids[..i])
      {
        if ids[i] in ids[..i] {
          RepeatedId(ids, i);
          return false;
        }
        DistinctStep(ids, i);
        SeenStays(old(first), first, sources, ids[i]);
        ClearedStep(cache, ids, i);
        ghost var mid := first;
        var failure := Verify(sources, ids[i]);
        GrewOn(old(first), mid, first, sources);
        if failure.Some? {
          OneFails(check, old(first), sources, evidenceIds, ids[i]);
          return false;
        }
      }
      assert ids[..|ids|] == ids;
      Concluded(check, digestOf, old(first), first, cache, digests, sources, evidenceIds);
      return true;
    }

    method ValidateClaimEvidence(checker: Checker, sources: Sources, claim: EvidenceClaim) returns (ok: bool)
      requires Valid()
      modifies this
      ensures Valid() && Grew(old(first), first, sources)
      ensures ok <==>
        && Distinct(claim.evidenceIds) && AllPass(check, old(first), sources, claim.evidenceIds)
        && (claim.approved ==> Closed(checker, sources, claim, DigestSeen(digestOf, old(first), sources)))
    {
      var verified := VerifyAll(sources, claim.evidenceIds);
      if !verified { return false; }
      if !claim.approved { return true; }
      ok := ValidateClosure(checker, sources, claim, Lookup(digests));
      SameDigests(checker, sources, claim, Lookup(digests), DigestSeen(digestOf, old(first), sources));
    }
  }

  function Bump(counts: map<string, nat>, id: string): map<string, nat> {
    counts[id := (if id in counts then counts[id] else 0) + 1]
  }

  ghost predicate CountedOnce(counts: map<string, nat>, ids: set<string>) {
    counts.Keys == ids && forall id :: id in counts ==> counts[id] == 1
  }

  lemma CountStep(counts: map<string, nat>, ids: set<string>, id: string)
    requires CountedOnce(counts, ids) && id !in ids
    ensures CountedOnce(Bump(counts, id), ids + {id})
  {
  }

  // The disk an id was first checked on, or the disk now.
  ghost function Seen(first: map<string, Sources>, sources: Sources, id: string): Sources {
    if id in first then first[id] else sources
  }

  // Earlier answers stay, and every new one comes from the disk as it is now.
  ghost predicate Grew(before: map<string, Sources>, after: map<string, Sources>, sources: Sources) {
    && (forall id :: id in before ==> id in after && after[id] == before[id])
    && (forall id :: id in after && id !in before ==> after[id] == sources)
  }

  lemma SeenStays(before: map<string, Sources>, after: map<string, Sources>, sources: Sources, id: string)
    requires Grew(before, after, sources)
    ensures Seen(after, sources, id) == Seen(before, sources, id)
  {
  }

  lemma GrewOn(a: map<string, Sources>, b: map<string, Sources>, c: map<string, Sources>, sources: Sources)
    requires Grew(a, b, sources) && Grew(b, c, sources)
    ensures Grew(a, c, sources)
  {
  }

  lemma Concluded(check: Check, digestOf: Digesting, before: map<string, Sources>, after: map<string, Sources>,
                  cache: map<string, Option<Failure>>, digests: map<string, string>, sources: Sources, ids: seq<string>)
    requires Remembers(check, digestOf, after, cache, digests) && Grew(before, after, sources)
    requires Cleared(cache, ids)
    ensures AllPass(check, before, sources, ids) && AllHold(digests, digestOf, before, sources, ids)
  {
    forall id | id in ids ensures Seen(before, sources, id) == after[id] { SeenStays(before, after, sources, id); }
  }

  ghost predicate AllPass(check: Check, first: map<string, Sources>, sources: Sources, ids: seq<string>) {
    forall id :: id in ids ==> check(Seen(first, sources, id), id).None?
  }

  ghost predicate Cleared(cache: map<string, Option<Failure>>, ids: seq<string>) {
    forall id :: id in ids ==> id in cache && cache[id].None?
  }

  lemma ClearedStep(cache: map<string, Option<Failure>>, ids: seq<string>, i: nat)
    requires i < |ids| && Cleared(cache, ids[..i])
    ensures Cleared(cache[ids[i] := None], ids[..i + 1])
  {
    assert ids[..i + 1] == ids[..i] + [ids[i]];
  }

  lemma OneFails(check: Check, first: map<string, Sources>, sources: Sources, ids: seq<string>, id: string)
    requires id in ids && check(Seen(first, sources, id), id).Some?
    ensures !AllPass(check, first, sources, ids)
  {
  }

  ghost predicate AllHold(digests: map<string, string>, digestOf: Digesting, first: map<string, Sources>,
                          sources: Sources, ids: seq<string>)
  {
    forall id :: id in ids ==> id in digests && digests[id] == digestOf(Seen(first, sources, id), id)
  }

  ghost function DigestSeen(digestOf: Digesting, first: map<string, Sources>, sources: Sources): string -> string {
    (id: string) => digestOf(Seen(first, sources, id), id)
  }

  // ----- the source closure of an approved claim -----

  ghost predicate SourceOk(checker: Checker, sources: Sources, source: ClaimSource, digest: string) {
    var e := Read(checker.codec, sources, source.id);
    && e.Some? && source.resource == RawPath(source.id) && source.title == e.value.origin
    && source.digest == digest && SpansOk(checker, sources, source.id, source, digest)
  }

  // One source for each evidence id, bound to the snapshot as it is now.
  ghost predicate Closed(checker: Checker, sources: Sources, claim: EvidenceClaim, digest: string -> string) {
    && DistinctBy(claim.sources, SourceId)
    && (forall i :: 0 <= i < |claim.sources| ==> claim.sources[i].id in claim.evidenceIds)
    && |claim.sources| == |claim.evidenceIds|
    && forall i :: 0 <= i < |claim.sources| ==>
      SourceOk(checker, sources, claim.sources[i], digest(claim.sources[i].id))
  }

  lemma SameDigests(checker: Checker, sources: Sources, claim: EvidenceClaim, a: string -> string, b: string -> string)
    requires forall id :: id in claim.evidenceIds ==> a(id) == b(id)
    ensures Closed(checker, sources, claim, a) <==> Closed(checker, sources, claim, b)
  {
  }

  function Lookup(digests: map<string, string>): string -> string {
    (id: string) => if id in digests then digests[id] else ""
  }

  ghost predicate ById(sources: seq<ClaimSource>, approved: map<string, ClaimSource>) {
    && (forall i :: 0 <= i < |sources| ==> sources[i].id in approved && approved[sources[i].id] == sources[i])
    && (forall id :: id in approved ==> approved[id].id == id && approved[id] in sources)
    && |approved| == |sources|
  }

  ghost predicate Gathered(sources: seq<ClaimSource>, evidenceIds: seq<string>, approved: map<string, ClaimSource>) {
    && DistinctBy(sources, SourceId) && ById(sources, approved)
    && forall i :: 0 <= i < |sources| ==> sources[i].id in evidenceIds
  }

  lemma RepeatedSource(sources: seq<ClaimSource>, i: nat, evidenceIds: seq<string>, approved: map<string, ClaimSource>)
    requires i < |sources| && Gathered(sources[..i], evidenceIds, approved) && sources[i].id in approved
    ensures !DistinctBy(sources, SourceId)
  {
    var k :| 0 <= k < i && sources[..i][k] == approved[sources[i].id];
    assert SourceId(sources[k]) == SourceId(sources[i]);
  }

  lemma GatheredStep(sources: seq<ClaimSource>, i: nat, evidenceIds: seq<string>, approved: map<string, ClaimSource>)
    requires i < |sources| && Gathered(sources[..i], evidenceIds, approved)
    requires sources[i].id !in approved && sources[i].id in evidenceIds
    ensures Gathered(sources[..i + 1], evidenceIds, approved[sources[i].id := sources[i]])
  {
    assert sources[..i + 1] == sources[..i] + [sources[i]];
    forall k | 0 <= k < i ensures sources[k].id != sources[i].id {
      assert sources[..i][k].id in approved;
    }
  }

  method SourcesById(sources: seq<ClaimSource>, evidenceIds: seq<string>) returns (r: Option<map<string, ClaimSource>>)
    ensures r.Some? <==>
      DistinctBy(sources, SourceId) && forall i :: 0 <= i < |sources| ==> sources[i].id in evidenceIds
    ensures r.Some? ==> ById(sources, r.value)
  {
    var approved: map<string, ClaimSource> := map[];
    for i := 0 to |sources|
      invariant Gathered(sources[..i], evidenceIds, approved)
    {
      if sources[i].id in approved {
        RepeatedSource(sources, i, evidenceIds, approved);
        return None;
      }
      if sources[i].id !in evidenceIds { return None; }
      GatheredStep(sources, i, evidenceIds, approved);
      approved := approved[sources[i].id := sources[i]];
    }
    assert sources[..|sources|] == sources;
    return Some(approved);
  }

  method ValidateSource(checker: Checker, sources: Sources, source: ClaimSource, digest: string) returns (ok: bool)
    ensures ok == SourceOk(checker, sources, source, digest)
  {
    var e := Read(checker.codec, sources, source.id);
    if e.None? || source.resource != RawPath(source.id) || source.title != e.value.origin || source.digest != digest {
      return false;
    }
    ok := ValidateSpans(checker, sources, source.id, source, digest);
  }

  // `digest` gives the snapshot digest the validator holds for an id.
  method ValidateClosure(checker: Checker, sources: Sources, claim: EvidenceClaim, digest: string -> string)
    returns (ok: bool)
    requires Distinct(claim.evidenceIds)
    ensures ok == Closed(checker, sources, claim, digest)
  {
    var byId := SourcesById(claim.sources, claim.evidenceIds);
    if byId.None? || |byId.value| != |claim.evidenceIds| { return false; }
    var ids := SortedCopy(claim.evidenceIds);
    EachHasSource(claim.evidenceIds, byId.value);
    ok := ValidateEach(checker, sources, claim, byId.value, ids, digest);
    if ok { AllSources(checker, sources, claim, digest, byId.value, ids); }
  }

  method ValidateEach(checker: Checker, sources: Sources, claim: EvidenceClaim, approved: map<string, ClaimSource>,
                      ids: seq<string>, digest: string -> string) returns (ok: bool)
    requires forall k :: 0 <= k < |ids| ==>
      ids[k] in approved && approved[ids[k]] in claim.sources && approved[ids[k]].id == ids[k]
    ensures ok ==> forall k :: 0 <= k < |ids| ==> SourceOk(checker, sources, approved[ids[k]], digest(ids[k]))
    ensures !ok ==> !Closed(checker, sources, claim, digest)
  {
    for i := 0 to |ids|
      invariant forall k :: 0 <= k < i ==> SourceOk(checker, sources, approved[ids[k]], digest(ids[k]))
    {
      ok := ValidateSource(checker, sources, approved[ids[i]], digest(ids[i]));
      if !ok {
        BadSource(checker, sources, claim, digest, approved[ids[i]]);
        return;
      }
    }
    return true;
  }

  lemma AllSources(checker: Checker, sources: Sources, claim: EvidenceClaim, digest: string -> string,
                   approved: map<string, ClaimSource>, ids: seq<string>)
    requires ById(claim.sources, approved) && forall id :: id in claim.evidenceIds ==> id in ids
    requires DistinctBy(claim.sources, SourceId)
    requires forall i :: 0 <= i < |claim.sources| ==> claim.sources[i].id in claim.evidenceIds
    requires |claim.sources| == |claim.evidenceIds|
    requires forall k :: 0 <= k < |ids| ==>
      ids[k] in approved && SourceOk(checker, sources, approved[ids[k]], digest(ids[k]))
    ensures Closed(checker, sources, claim, digest)
  {
    forall i | 0 <= i < |claim.sources|
      ensures SourceOk(checker, sources, claim.sources[i], digest(claim.sources[i].id))
    {
      var k :| 0 <= k < |ids| && ids[k] == claim.sources[i].id;
    }
  }

  lemma BadSource(checker: Checker, sources: Sources, claim: EvidenceClaim, digest: string -> string,
                  source: ClaimSource)
    requires source in claim.sources && !SourceOk(checker, sources, source, digest(source.id))
    ensures !Closed(checker, sources, claim, digest)
  {
    var j :| 0 <= j < |claim.sources| && claim.sources[j] == source;
  }

  lemma EachHasSource(evidenceIds: seq<string>, approved: map<string, ClaimSource>)
    requires Distinct(evidenceIds) && |approved| == |evidenceIds|
    requires forall id :: id in approved ==> id in evidenceIds
    ensures forall id :: id in evidenceIds ==> id in approved
  {
    DistinctSize(evidenceIds);
    SubsetOfSameSize(approved.Keys, set id | id in evidenceIds);
    assert |approved.Keys| == |approved|;
  }

  // The closure holds exactly when the sources are as many as the evidence ids, no two the same,
  // each of one of the ids, under its path and origin, with the digest held for it, and with
  // spans that lie in the text and carry the digest of what they quote.
  lemma ClosedExactly(checker: Checker, sources: Sources, claim: EvidenceClaim, digest: string -> string)
    ensures Closed(checker, sources, claim, digest) <==>
      && |claim.sources| == |claim.evidenceIds|
      && (forall i, j | 0 <= i < j < |claim.sources| :: claim.sources[i].id != claim.sources[j].id)
      && forall source :: source in claim.sources ==>
           && source.id in claim.evidenceIds && source.digest == digest(source.id)
           && Described(checker, sources, source)
           && forall span :: span in source.spans ==>
                SpanQuoted(checker, sources, source.id, digest(source.id), span)
  {
    if Closed(checker, sources, claim, digest) {
      forall i, j | 0 <= i < j < |claim.sources| ensures claim.sources[i].id != claim.sources[j].id {
        DistinctIndices(claim.sources, SourceId, i, j);
      }
    }
    forall source: ClaimSource
      ensures SourceOk(checker, sources, source, digest(source.id)) <==>
        && source.digest == digest(source.id) && Described(checker, sources, source)
        && forall span: Span :: span in source.spans ==>
          SpanQuoted(checker, sources, source.id, digest(source.id), span)
    {
      SourceExactly(checker, sources, source, digest(source.id));
    }
  }

  ghost predicate Described(checker: Checker, sources: Sources, source: ClaimSource) {
    && source.resource == "evidence/sources/" + source.id + "/raw"
    && IsEvidenceId(source.id) && source.id in sources && sources[source.id].metadata.Some?
    && exists e :: checker.codec.parse(sources[source.id].metadata.value) == Some(e)
         && e.id == source.id && e.origin == source.title
  }

  // The span names lines of the raw text and has the digest of their bytes.
  ghost predicate SpanQuoted(checker: Checker, sources: Sources, id: string, digest: string, span: Span) {
    && span.evidenceId == id && id in sources && sources[id].raw.Some? && checker.isUtf8(sources[id].raw.value)
    && exists lines :: AreLines(lines, sources[id].raw.value)
         && 1 <= span.startLine <= span.endLine <= |lines|
         && span.digest == SpanDigest(checker.hash, digest, span.startLine, span.endLine,
                                      Concat(lines[span.startLine - 1..span.endLine]))
  }

  lemma SourceExactly(checker: Checker, sources: Sources, source: ClaimSource, digest: string)
    ensures SourceOk(checker, sources, source, digest) <==>
      && source.digest == digest && Described(checker, sources, source)
      && forall span: Span :: span in source.spans ==> SpanQuoted(checker, sources, source.id, digest, span)
  {
    var id := source.id;
    if id in sources && sources[id].raw.Some? && checker.isUtf8(sources[id].raw.value) && source.spans != [] {
      var lines := LinesThere(sources[id].raw.value);
      SpansByLines(checker, sources, id, source, digest, lines);
      forall span
        ensures SpanQuoted(checker, sources, id, digest, span) <==> SpanOk(checker.hash, lines, id, digest, span)
      {
        forall other | AreLines(other, sources[id].raw.value) ensures other == lines {
          LinesUnique(other, lines, sources[id].raw.value);
        }
      }
    } else if source.spans != [] {
      assert source.spans[0] in source.spans;
    }
  }

  // Every text has its list of lines.
  lemma {:induction false} LinesThere(raw: string) returns (lines: seq<string>)
    ensures AreLines(lines, raw)
    decreases |raw|
  {
    if raw == "" { return [""]; }
    var n := FirstEnd(raw);
    if n == |raw| {
      assert raw[..n] == raw;
      assert Concat([raw]) == raw + Concat([]) by { assert [raw][1..] == []; }
      return [raw];
    }
    var rest := LinesThere(raw[n..]);
    lines := [raw[..n]] + rest;
    assert lines[1..] == rest && raw == raw[..n] + raw[n..];
    forall i | 0 <= i < |lines| ensures IsLine(lines[i], i == |lines| - 1) && lines[i] != "" {
      if i > 0 { assert lines[i] == rest[i - 1]; }
    }
  }

  // Where the first line ends.
  function FirstEnd(raw: string): (n: nat)
    requires raw != ""
    ensures 0 < n <= |raw| && (raw[n - 1] == '\n' || n == |raw|) && forall k :: 0 <= k < n - 1 ==> raw[k] != '\n'
  {
    if raw[0] == '\n' || |raw| == 1 then 1
    else
      var n := 1 + FirstEnd(raw[1..]);
      assert forall k :: 1 <= k < n ==> raw[k] == raw[1..][k - 1];
      n
  }

  // The sources of an accepted claim correspond one to one to its evidence ids.
  lemma OneSourceEach(checker: Checker, sources: Sources, claim: EvidenceClaim, digest: string -> string, id: string)
    requires Closed(checker, sources, claim, digest) && Distinct(claim.evidenceIds)
    ensures id in claim.evidenceIds <==> exists i :: 0 <= i < |claim.sources| && claim.sources[i].id == id
    ensures forall i, j | 0 <= i < |claim.sources| && 0 <= j < |claim.sources| ::
      claim.sources[i].id == claim.sources[j].id ==> i == j
  {
    var ids := seq(|claim.sources|, i requires 0 <= i < |claim.sources| => claim.sources[i].id);
    assert Distinct(ids) by {
      forall i, j | 0 <= i < j < |ids| ensures ids[i] != ids[j] { DistinctIndices(claim.sources, SourceId, i, j); }
    }
    DistinctSize(ids);
    DistinctSize(claim.evidenceIds);
    var a, b := set x | x in ids, set x | x in claim.evidenceIds;
    SubsetOfSameSize(a, b);
    assert id in a <==> id in b;
    if id in claim.evidenceIds {
      assert id in a;
      var i :| 0 <= i < |ids| && ids[i] == id;
      assert claim.sources[i].id == id;
    }
  }

  // An approved claim that a fresh validator accepts pins its evidence: if it is accepted
  // again after the disk has changed, every metadata file and every raw file it rests on is
  // still the same.
  lemma AcceptedPinsEvidence(checker: Checker, a: Sources, b: Sources, claim: EvidenceClaim, id: string)
    requires IsHash(checker.hash) && Distinct(claim.evidenceIds) && id in claim.evidenceIds
    requires AllPass(CheckOf(checker), map[], a, claim.evidenceIds)
      && AllPass(CheckOf(checker), map[], b, claim.evidenceIds)
    requires Closed(checker, a, claim, DigestSeen(DigestsOf(checker), map[], a))
    requires Closed(checker, b, claim, DigestSeen(DigestsOf(checker), map[], b))
    ensures a[id] == b[id]
  {
    FreshVerdict(checker, a, claim.evidenceIds, id);
    FreshVerdict(checker, b, claim.evidenceIds, id);
    OneSourceEach(checker, a, claim, DigestSeen(DigestsOf(checker), map[], a), id);
    var i :| 0 <= i < |claim.sources| && claim.sources[i].id == id;
    assert SourceOk(checker, a, claim.sources[i], DigestSeen(DigestsOf(checker), map[], a)(claim.sources[i].id));
    assert SourceOk(checker, b, claim.sources[i], DigestSeen(DigestsOf(checker), map[], b)(claim.sources[i].id));
    FreshDigest(checker, a, id);
    FreshDigest(checker, b, id);
    DigestPinsBytes(checker, a, b, id);
  }

  lemma FreshVerdict(checker: Checker, sources: Sources, ids: seq<string>, id: string)
    requires AllPass(CheckOf(checker), map[], sources, ids) && id in ids
    ensures Verdict(checker, sources, id).None?
  {
    assert Seen(map[], sources, id) == sources;
    assert CheckOf(checker)(Seen(map[], sources, id), id).None?;
  }

  lemma FreshDigest(checker: Checker, sources: Sources, id: string)
    requires Verdict(checker, sources, id).None?
    ensures DigestSeen(DigestsOf(checker), map[], sources)(id) == DigestOf(checker, sources, id)
  {
    assert Seen(map[], sources, id) == sources;
    assert DigestsOf(checker)(sources, id) == DigestOf(checker, sources, id);
  }

  // A span that is accepted quotes a contiguous part of the raw file.
  lemma SpanQuotes(hash: Hash, lines: seq<string>, raw: string, id: string, digest: string, span: Span)
    requires AreLines(lines, raw) && SpanOk(hash, lines, id, digest, span)
    ensures raw == Concat(lines[..span.startLine - 1]) + Quote(lines, span) + Concat(lines[span.endLine..])
  {
    ConcatSplit(lines, span.startLine - 1);
    ConcatMiddle(lines, span.startLine - 1, span.endLine);
  }

  lemma ConcatMiddle(lines: seq<string>, n: nat, m: nat)
    requires n <= m <= |lines|
    ensures Concat(lines[n..]) == Concat(lines[n..m]) + Concat(lines[m..])
  {
    var rest := lines[n..];
    ConcatSplit(rest, m - n);
    assert rest[..m - n] == lines[n..m];
    assert rest[m - n..] == lines[m..];
  }

  // A span accepted twice quotes the same bytes of the same snapshot both times.
  lemma SpanPinsQuote(hash: Hash, a: seq<string>, b: seq<string>, id: string, digestA: string, digestB: string,
                      span: Span)
    requires IsHash(hash) && '\n' !in digestA && '\n' !in digestB
    requires SpanOk(hash, a, id, digestA, span) && SpanOk(hash, b, id, digestB, span)
    ensures digestA == digestB && Quote(a, span) == Quote(b, span)
  {
    SpanDigestInjective(hash, digestA, span.startLine, span.endLine, Quote(a, span),
                        digestB, span.startLine, span.endLine, Quote(b, span));
  }

  // The digest a validator holds for a passing snapshot is such a one-line text.
  lemma HeldDigestOneLine(checker: Checker, sources: Sources, id: string)
    requires IsHash(checker.hash) && Verdict(checker, sources, id).None?
    ensures '\n' !in DigestOf(checker, sources, id)
  {
    var e := checker.codec.parse(sources[id].metadata.value).value;
    SnapshotDigestOneLine(checker.hash, sources[id].metadata.value, e.byteLength, e.sha256);
  }

  // So a span that is accepted for two states of one snapshot pins all of it: metadata, raw
  // bytes and the quoted lines.
  lemma SpanPinsSnapshot(checker: Checker, a: Sources, b: Sources, id: string, linesA: seq<string>, linesB: seq<string>,
                         span: Span)
    requires IsHash(checker.hash) && Verdict(checker, a, id).None? && Verdict(checker, b, id).None?
    requires SpanOk(checker.hash, linesA, id, DigestOf(checker, a, id), span)
    requires SpanOk(checker.hash, linesB, id, DigestOf(checker, b, id), span)
    ensures a[id] == b[id] && Quote(linesA, span) == Quote(linesB, span)
  {
    HeldDigestOneLine(checker, a, id);
    HeldDigestOneLine(checker, b, id);
    SpanPinsQuote(checker.hash, linesA, linesB, id, DigestOf(checker, a, id), DigestOf(checker, b, id), span);
    DigestPinsBytes(checker, a, b, id);
  }
}
