/** The deduplicating store of evidence snapshots. A snapshot is a directory with the raw bytes
    and a metadata file written after them; a directory without metadata is the trace of an
    interrupted capture. */
module Evidence {
  import opened Wrappers
  import opened Clock
  import opened Ordering
  import opened Digests
  import opened Identifiers

  datatype Snapshot = Snapshot(
    id: string,
    origin: string,
    capturedAt: TimeText,
    mediaType: string,
    byteLength: int,
    sha256: ContentDigest
  )

  datatype SourceDir = SourceDir(raw: Option<string>, metadata: Option<string>)

  type Sources = map<string, SourceDir>

  // The reader and writer of metadata files.
  datatype Codec = Codec(render: Snapshot -> string, parse: string -> Option<Snapshot>)

  ghost predicate RoundTrips(codec: Codec) {
    forall e :: codec.parse(codec.render(e)) == Some(e)
  }

  // The metadata of one directory, as `read` returns it.
  function Read(codec: Codec, sources: Sources, id: string): Option<Snapshot> {
    if !IsEvidenceId(id) || id !in sources || sources[id].metadata.None? then None
    else
      var e := codec.parse(sources[id].metadata.value);
      if e.Some? && e.value.id == id then e else None
  }

  predicate Holds(codec: Codec, sources: Sources, id: string, hash: ContentDigest) {
    Read(codec, sources, id).Some? && Read(codec, sources, id).value.sha256 == hash
  }

  // ----- one attempt to add a file -----

  // How the capture goes once the workspace is marked: a failed one is cleaned up after, an
  // interrupted one leaves what it had written.
  datatype Fate = Completes | Fails | Interrupted(left: SourceDir)

  datatype Attempt = Attempt(
    hashed: string,        // the source file when it is hashed
    captured: string,      // the source file when it is copied
    origin: string,
    mediaType: string,
    id: string,            // the random id drawn for it
    now: int,
    fate: Fate,
    kept: Option<SourceDir>  // what the clean-up after a failure could not remove
  )

  datatype Answer = Refused | Deduped(snapshot: Snapshot) | Added(snapshot: Snapshot)

  datatype Store = Store(sources: Sources, generation: nat, dirty: bool)

  function MediaType(a: Attempt): string {
    if IsBlank(a.mediaType) then "application/octet-stream" else a.mediaType
  }

  function Captured(a: Attempt): Snapshot {
    Snapshot(a.id, a.origin, Rfc3339(a.now), MediaType(a), |a.captured|, Sha256(a.captured))
  }

  // What the attempt leaves in its directory, if anything.
  function Left(codec: Codec, a: Attempt): Option<SourceDir> {
    match a.fate
    case Interrupted(left) => Some(left)
    case Fails => a.kept
    case Completes =>
      if a.captured == a.hashed then Some(SourceDir(Some(a.captured), Some(codec.render(Captured(a))))) else a.kept
  }

  // The metadata is written after all of the raw bytes, and only when they were those that had
  // been hashed. A clean-up removes whole files.
  predicate Written(codec: Codec, a: Attempt, d: SourceDir) {
    d.metadata.Some? ==>
      a.captured == a.hashed && d.metadata == Some(codec.render(Captured(a)))
        && (d.raw.Some? ==> d.raw == Some(a.captured))
  }

  predicate Possible(codec: Codec, a: Attempt) {
    && IsEvidenceId(a.id)
    && (a.kept.Some? ==> Written(codec, a, a.kept.value))
    && (a.fate.Interrupted? ==>
          Written(codec, a, a.fate.left) && (a.fate.left.metadata.Some? ==> a.fate.left.raw.Some?))
  }

  // A clean-up that removed the raw bytes and then failed on the metadata.
  predicate Torn(codec: Codec, a: Attempt) {
    Left(codec, a).Some? && Left(codec, a).value.metadata.Some? && Left(codec, a).value.raw.None?
  }

  function Opened(codec: Codec, s: Store, a: Attempt): Store {
    Store(if Left(codec, a).Some? then s.sources[a.id := Left(codec, a).value] else s.sources, s.generation + 1, true)
  }

  // ----- the store -----

  // Every metadata file describes a snapshot of its directory, and no two the same content.
  ghost predicate Orderly(codec: Codec, sources: Sources) {
    && (forall id :: id in sources ==> IsEvidenceId(id))
    && (forall id :: id in sources && sources[id].metadata.Some? ==> Described(codec, sources[id], id))
    && (forall i, j, hash :: Holds(codec, sources, i, hash) && Holds(codec, sources, j, hash) ==> i == j)
  }

  ghost predicate Described(codec: Codec, dir: SourceDir, id: string) {
    && dir.metadata.Some? && codec.parse(dir.metadata.value).Some?
    && var e := codec.parse(dir.metadata.value).value;
       && e.id == id && !IsBlank(e.origin) && Parse(e.capturedAt).Some?
       && dir.metadata.value == codec.render(e)
       && (dir.raw.Some? ==> e.byteLength == |dir.raw.value| && e.sha256 == Sha256(dir.raw.value))
  }

  // No described snapshot lacks its bytes.
  ghost predicate Complete(sources: Sources) {
    forall id :: id in sources && sources[id].metadata.Some? ==> sources[id].raw.Some?
  }

  class EvidenceStore {
    const codec: Codec
    var sources: Sources
    var generation: nat
    var dirty: bool

    ghost predicate Valid()
      reads this
    {
      RoundTrips(codec) && Orderly(codec, sources)
    }

    function State(): Store
      reads this
    {
      Store(sources, generation, dirty)
    }

    constructor (codec: Codec)
      requires RoundTrips(codec)
      ensures Valid() && State() == Store(map[], 0, false) && this.codec == codec
    {
      this.codec := codec;
      sources, generation, dirty := map[], 0, false;
    }

    // The directories in the order of their ids, those that cannot be read passed over.
    method LookupBySha256(hash: ContentDigest) returns (r: Option<Snapshot>)
      requires Valid()
      ensures r.None? ==> forall id :: !Holds(codec, sources, id, hash)
      ensures r.Some? ==> Holds(codec, sources, r.value.id, hash) && Read(codec, sources, r.value.id) == r
    {
      var ids := SortedKeys(set id | id in sources && IsEvidenceId(id));
      for i := 0 to |ids|
        invariant forall k :: 0 <= k < i ==> !Holds(codec, sources, ids[k], hash)
      {
        var e := Read(codec, sources, ids[i]);
        if e.Some? && e.value.sha256 == hash { return e; }
      }
      assert forall id :: Holds(codec, sources, id, hash) ==> id in ids;
      return None;
    }

    method AddFile(chunks: seq<string>, a: Attempt) returns (r: Answer)
      requires Valid() && Possible(codec, a) && Concat(chunks) == a.captured
      modifies this
      ensures Valid()
      ensures Answered(codec, old(State()), a, r)
      ensures State() == After(codec, old(State()), a)
    {
      if IsBlank(a.origin) { return Refused; }
      var hash := Sha256(a.hashed);
      var existing := LookupBySha256(hash);
      if existing.Some? { return Deduped(existing.value); }
      if a.id in sources { return Refused; }
      generation, dirty := generation + 1, true;
      NewDirectoryIsOrderly(codec, sources, a);
      match a.fate
      case Fails =>
        CleanUp(a);
        return Refused;
      case Interrupted(left) =>
        sources := sources[a.id := left];
        return Refused;
      case Completes =>
        var evidence := Capture(chunks, a);
        if evidence.None? {
          CleanUp(a);
          return Refused;
        }
        sources := sources[a.id := SourceDir(Some(a.captured), Some(codec.render(evidence.value)))];
        return Added(evidence.value);
    }

    // Whether the directory could be removed is not looked at.
    method CleanUp(a: Attempt)
      modifies this`sources
      ensures sources == if a.kept.Some? then old(sources)[a.id := a.kept.value] else old(sources)
    {
      if a.kept.Some? { sources := sources[a.id := a.kept.value]; }
    }

    // Copies the file chunk by chunk, hashing as it goes.
    method Capture(chunks: seq<string>, a: Attempt) returns (r: Option<Snapshot>)
      requires Concat(chunks) == a.captured
      ensures r == if a.captured == a.hashed then Some(Captured(a)) else None
    {
      var raw, written := "", 0;
      for i := 0 to |chunks|
        invariant raw == Concat(chunks[..i]) && written == |raw|
      {
        ConcatSnoc(chunks, i);
        raw := raw + chunks[i];
        written := written + |chunks[i]|;
      }
      assert chunks[..|chunks|] == chunks;
      if Sha256(raw) != Sha256(a.hashed) { return None; }
      return Some(Snapshot(a.id, a.origin, Rfc3339(a.now), MediaType(a), written, Sha256(raw)));
    }
  }

  function Concat(parts: seq<string>): string {
    if parts == [] then "" else parts[0] + Concat(parts[1..])
  }

  lemma {:induction false} ConcatSnoc(parts: seq<string>, i: nat)
    requires i < |parts|
    ensures Concat(parts[..i + 1]) == Concat(parts[..i]) + parts[i]
  {
    if i == 0 {
      assert parts[..1] == [parts[0]];
    } else {
      ConcatSnoc(parts[1..], i - 1);
      assert parts[..i + 1][1..] == parts[1..][..i] && parts[..i][1..] == parts[1..][..i - 1];
    }
  }

  ghost predicate Known(codec: Codec, s: Store, a: Attempt) {
    exists id :: Holds(codec, s.sources, id, Sha256(a.hashed))
  }

  // Only a new content under a new id changes anything.
  ghost function After(codec: Codec, s: Store, a: Attempt): Store {
    if IsBlank(a.origin) || Known(codec, s, a) || a.id in s.sources then s else Opened(codec, s, a)
  }

  ghost predicate Answered(codec: Codec, s: Store, a: Attempt, r: Answer) {
    if IsBlank(a.origin) then r == Refused
    else if Known(codec, s, a) then
      && r.Deduped? && r.snapshot.sha256 == Sha256(a.hashed)
      && Read(codec, s.sources, r.snapshot.id) == Some(r.snapshot)
    else if a.id in s.sources || !a.fate.Completes? || a.captured != a.hashed then r == Refused
    else r == Added(Captured(a))
  }

  lemma NewDirectoryIsOrderly(codec: Codec, sources: Sources, a: Attempt)
    requires RoundTrips(codec) && Orderly(codec, sources) && Possible(codec, a) && !IsBlank(a.origin)
      && a.id !in sources
    requires forall id :: !Holds(codec, sources, id, Sha256(a.hashed))
    ensures Left(codec, a).Some? ==> Orderly(codec, sources[a.id := Left(codec, a).value])
  {
    if Left(codec, a).Some? {
      var t := sources[a.id := Left(codec, a).value];
      assert codec.parse(codec.render(Captured(a))) == Some(Captured(a));
      forall i, hash ensures Holds(codec, t, i, hash) ==>
        (i != a.id && Holds(codec, sources, i, hash)) || (i == a.id && hash == Sha256(a.hashed))
      {
      }
    }
  }

  // ----- any sequence of attempts -----

  ghost function AfterAll(codec: Codec, s: Store, attempts: seq<Attempt>): Store
    decreases |attempts|
  {
    if attempts == [] then s else AfterAll(codec, After(codec, s, attempts[0]), attempts[1..])
  }

  ghost predicate AllPossible(codec: Codec, attempts: seq<Attempt>) {
    forall i :: 0 <= i < |attempts| ==> Possible(codec, attempts[i])
  }

  // What is stored once stays as it is; and a store of complete snapshots becomes one with an
  // incomplete one exactly by a clean-up that removed the raw bytes and then failed.
  lemma AfterIsOrderly(codec: Codec, s: Store, a: Attempt)
    requires RoundTrips(codec) && Orderly(codec, s.sources) && Possible(codec, a)
    ensures var t := After(codec, s, a);
      && Orderly(codec, t.sources) && s.generation <= t.generation
      && (forall id :: id in s.sources ==> id in t.sources && t.sources[id] == s.sources[id])
      && (t.sources != s.sources ==> t.generation == s.generation + 1 && t.dirty)
      && (Complete(t.sources) <==> Complete(s.sources) && (t == s || !Torn(codec, a)))
  {
    var t := After(codec, s, a);
    if !IsBlank(a.origin) && !Known(codec, s, a) && a.id !in s.sources {
      NewDirectoryIsOrderly(codec, s.sources, a);
      OpenedComplete(codec, s, a);
      assert t.generation != s.generation;
    }
  }

  lemma OpenedComplete(codec: Codec, s: Store, a: Attempt)
    requires a.id !in s.sources
    ensures Complete(Opened(codec, s, a).sources) <==> Complete(s.sources) && !Torn(codec, a)
  {
    var t := Opened(codec, s, a).sources;
    if Complete(t) {
      forall id | id in s.sources && s.sources[id].metadata.Some? ensures s.sources[id].raw.Some? {
        assert t[id] == s.sources[id];
      }
      assert Left(codec, a).Some? ==> t[a.id] == Left(codec, a).value;
    }
  }

  // No two snapshots ever share a hash, and what is stored once stays as it is; each records
  // its own bytes as long as no clean-up left metadata without them.
  lemma {:induction false} AddsKeepSnapshots(codec: Codec, s: Store, attempts: seq<Attempt>)
    requires RoundTrips(codec) && Orderly(codec, s.sources) && AllPossible(codec, attempts)
    ensures var t := AfterAll(codec, s, attempts);
      && Orderly(codec, t.sources) && s.generation <= t.generation
      && (forall id :: id in s.sources ==> id in t.sources && t.sources[id] == s.sources[id])
      && (Complete(s.sources) && (forall i :: 0 <= i < |attempts| ==> !Torn(codec, attempts[i])) ==>
        Complete(t.sources))
    decreases |attempts|
  {
    if attempts != [] {
      AfterIsOrderly(codec, s, attempts[0]);
      AddsKeepSnapshots(codec, After(codec, s, attempts[0]), attempts[1..]);
    }
  }

  // What is stored of a content that was added.
  lemma AddedRecords(codec: Codec, s: Store, a: Attempt)
    requires RoundTrips(codec) && Answered(codec, s, a, Added(Captured(a)))
    ensures var t := After(codec, s, a);
      && a.id !in s.sources && a.id in t.sources && t.sources[a.id].raw == Some(a.hashed)
      && t.sources[a.id].metadata.Some?
      && exists e :: codec.parse(t.sources[a.id].metadata.value) == Some(e)
           && e.id == a.id && e.origin == a.origin && Parse(e.capturedAt) == Some(a.now / NANOS * NANOS)
           && e.mediaType == (if IsBlank(a.mediaType) then "application/octet-stream" else a.mediaType)
           && e.byteLength == |a.hashed| && e.sha256 == Sha256(a.hashed)
  {
    assert codec.parse(codec.render(Captured(a))) == Some(Captured(a));
  }

  // A content once added is added for good: after any further attempts, adding it again
  // changes nothing, not even the generation, and answers with the first snapshot.
  lemma AddedOnce(codec: Codec, s: Store, first: Attempt, between: seq<Attempt>, again: Attempt, r: Answer)
    requires RoundTrips(codec) && Orderly(codec, s.sources) && AllPossible(codec, [first] + between)
    requires Answered(codec, s, first, Added(Captured(first))) && again.hashed == first.hashed && !IsBlank(again.origin)
    ensures var t := AfterAll(codec, After(codec, s, first), between);
      && After(codec, t, again) == t
      && (Answered(codec, t, again, r) <==> r == Deduped(Captured(first)))
  {
    var u := After(codec, s, first);
    var t := AfterAll(codec, u, between);
    assert forall i :: 0 <= i < |between| ==> between[i] == ([first] + between)[i + 1];
    assert Possible(codec, ([first] + between)[0]);
    AfterIsOrderly(codec, s, first);
    AddsKeepSnapshots(codec, u, between);
    assert codec.parse(codec.render(Captured(first))) == Some(Captured(first));
    assert Holds(codec, t.sources, first.id, Sha256(again.hashed));
    forall x | Answered(codec, t, again, x) ensures x == Deduped(Captured(first)) {
      assert Holds(codec, t.sources, x.snapshot.id, Sha256(again.hashed));
    }
  }

  // After an attempt that did not succeed, the same content can be added under another id
  // exactly when it left no metadata. Otherwise it is taken for stored, also where the raw bytes
  // are gone.
  lemma FailedIsRepeatable(codec: Codec, s: Store, failed: Attempt, again: Attempt)
    requires RoundTrips(codec) && Orderly(codec, s.sources) && Possible(codec, failed) && failed.id !in s.sources
    requires !Known(codec, s, failed) && !IsBlank(failed.origin) && Answered(codec, s, failed, Refused)
    requires !IsBlank(again.origin) && again.hashed == failed.hashed && again.captured == again.hashed
    requires again.fate.Completes? && again.id != failed.id && again.id !in s.sources
    ensures var t, left := After(codec, s, failed), Left(codec, failed);
      if left.Some? && left.value.metadata.Some? then Answered(codec, t, again, Deduped(Captured(failed)))
      else Answered(codec, t, again, Added(Captured(again)))
  {
    var t, left := After(codec, s, failed), Left(codec, failed);
    if left.Some? && left.value.metadata.Some? {
      assert codec.parse(codec.render(Captured(failed))) == Some(Captured(failed));
      assert Holds(codec, t.sources, failed.id, Sha256(again.hashed));
    } else {
      forall id ensures !Holds(codec, t.sources, id, Sha256(again.hashed)) {
        assert !Holds(codec, s.sources, id, Sha256(failed.hashed));
      }
    }
  }
}
