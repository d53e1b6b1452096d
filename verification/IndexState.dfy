/** The manifest as the index stores it, and the merge walk that names the first trusted
    file on which two manifests differ. */
module IndexState {
  import opened Wrappers
  import opened Ordering
  import opened Identifiers
  import opened Paths
  import opened TrustTree
  import opened TrustManifest
  import opened MendedTree

  // ----- the merge walk -----

  // The manifests disagree about this path: one of them has an entry there that the other
  // does not have.
  ghost predicate DiffersAt(a: seq<TrustInput>, b: seq<TrustInput>, path: string) {
    exists x: TrustInput :: x.path == path && (x in a) != (x in b)
  }

  ghost predicate LeastDifference(a: seq<TrustInput>, b: seq<TrustInput>, path: string) {
    DiffersAt(a, b, path) && forall q :: DiffersAt(a, b, q) ==> Le(path, q)
  }

  // An entry of a strictly sorted manifest at or after position i is in the other manifest
  // only at or after position i, when the first i entries agree.
  lemma BeyondPrefix(a: seq<TrustInput>, b: seq<TrustInput>, i: nat, x: TrustInput)
    requires StrictBy(a, PathOf) && i <= |a| && i <= |b| && a[..i] == b[..i]
    ensures (x in a) != (x in b) ==> x in a[i..] || x in b[i..]
    ensures x in a[i..] && x in b ==> x in b[i..]
  {
    assert a == a[..i] + a[i..] && b == b[..i] + b[i..];
  }

  lemma FirstOfTail(a: seq<TrustInput>, i: nat, x: TrustInput)
    requires StrictBy(a, PathOf) && i < |a| && x in a[i..]
    ensures Le(a[i].path, x.path) && (x.path == a[i].path ==> x == a[i])
  {
    var k :| i <= k < |a| && a[k] == x;
    LeTotal(x.path, x.path);
    StrictIsDistinct(a, PathOf, i, k);
  }

  // The lesser of the two heads is the least difference.
  lemma HeadDiffers(a: seq<TrustInput>, b: seq<TrustInput>, i: nat)
    requires StrictBy(a, PathOf) && StrictBy(b, PathOf) && i < |a| && i <= |b| && a[..i] == b[..i]
    requires i < |b| ==> Le(a[i].path, b[i].path) && a[i] != b[i]
    ensures LeastDifference(a, b, a[i].path)
  {
    var h := a[i];
    BeyondPrefix(a, b, i, h);
    assert h in a[i..] by { assert a[i..][0] == h; }
    if h in b[i..] {
      FirstOfTail(b, i, h);
      LeAntisymmetric(h.path, b[i].path);
    }
    assert h in a && h !in b;
    forall q | DiffersAt(a, b, q) ensures Le(h.path, q) {
      var x: TrustInput :| x.path == q && (x in a) != (x in b);
      BeyondPrefix(a, b, i, x);
      if x in a[i..] {
        FirstOfTail(a, i, x);
      } else {
        FirstOfTail(b, i, x);
        LeTransitive(h.path, b[i].path, x.path);
      }
    }
  }

  lemma DifferenceSymmetric(a: seq<TrustInput>, b: seq<TrustInput>, path: string)
    requires LeastDifference(a, b, path)
    ensures LeastDifference(b, a, path)
  {
    var x: TrustInput :| x.path == path && (x in a) != (x in b);
    assert (x in b) != (x in a);
    forall q | DiffersAt(b, a, q) ensures Le(path, q) {
      var y: TrustInput :| y.path == q && (y in b) != (y in a);
      assert (y in a) != (y in b);
      assert DiffersAt(a, b, q);
    }
  }

  method FindManifestOffender(recorded: seq<TrustInput>, current: seq<TrustInput>) returns (offender: Option<string>)
    ensures offender.None? <==> recorded == current
    ensures offender.Some? && StrictBy(recorded, PathOf) && StrictBy(current, PathOf) ==>
      LeastDifference(recorded, current, offender.value)
  {
    var i, j := 0, 0;
    ghost var strict := StrictBy(recorded, PathOf) && StrictBy(current, PathOf);
    while i < |recorded| || j < |current|
      invariant i == j && i <= |recorded| && j <= |current| && recorded[..i] == current[..j]
      decreases |recorded| - i + |current| - j
    {
      if i >= |recorded| {
        if strict { HeadDiffers(current, recorded, j); DifferenceSymmetric(current, recorded, current[j].path); }
        return Some(current[j].path);
      }
      if j >= |current| {
        if strict { HeadDiffers(recorded, current, i); }
        return Some(recorded[i].path);
      }
      var r, c := recorded[i], current[j];
      LeTotal(r.path, c.path);
      if Lt(r.path, c.path) {
        if strict { HeadDiffers(recorded, current, i); }
        return Some(r.path);
      }
      if Lt(c.path, r.path) {
        if strict { HeadDiffers(current, recorded, j); DifferenceSymmetric(current, recorded, c.path); }
        return Some(c.path);
      }
      if r != c {
        if strict { LeTotal(r.path, r.path); HeadDiffers(recorded, current, i); }
        return Some(r.path);
      }
      i, j := i + 1, j + 1;
    }
    assert recorded[..i] == recorded && current[..j] == current;
    return None;
  }

  // ----- validity -----

  predicate CanonicalPath(path: string) {
    && path != "" && !Blank(path[0]) && !Blank(path[|path| - 1])
    && '\\' !in path && '\0' !in path && path[0] != '/'
    && forall part :: part in Split(path) ==> part != "" && part != "." && part != ".."
  }

  predicate ValidInput(e: TrustInput) {
    CanonicalPath(e.path) && e.byteLength >= 0 && e.sha256.Sha256? && KindFits(e.path, Split(e.path), e.kind)
  }

  predicate KindFits(path: string, parts: seq<string>, kind: Kind) {
    match kind
    case ClaimFile => |parts| >= 3 && parts[0] == "wiki" && parts[1] in TIERS && EndsWith(path, ".md")
    case EvidenceMetadata => SourcePath(parts) && parts[3] == "source.yaml"
    case EvidenceRaw => SourcePath(parts) && parts[3] == "raw"
  }

  predicate SourcePath(parts: seq<string>) {
    |parts| == 4 && parts[0] == "evidence" && parts[1] == "sources" && parts[2] != ""
  }

  // One pass with the previous path, as the reader and the writer of the table make it.
  function Unsorted(entries: seq<TrustInput>): bool {
    exists i :: 0 <= i < |entries| - 1 && !Lt(entries[i].path, entries[i + 1].path)
  }

  predicate ValidManifest(m: Manifest) {
    && (forall e :: e in m.entries ==> ValidInput(e))
    && !Unsorted(m.entries)
    && m.digest == Sha256Of(m.entries)
  }

  lemma {:induction false} ConsecutiveIsStrict(entries: seq<TrustInput>, i: nat, j: nat)
    requires !Unsorted(entries) && i < j < |entries|
    ensures Lt(entries[i].path, entries[j].path)
    decreases j - i
  {
    assert Lt(entries[j - 1].path, entries[j - 1 + 1].path);
    if i < j - 1 {
      ConsecutiveIsStrict(entries, i, j - 1);
      LeTransitive(entries[i].path, entries[j - 1].path, entries[j].path);
      if entries[i].path == entries[j].path {
        LeAntisymmetric(entries[i].path, entries[j - 1].path);
      }
    }
  }

  lemma StrictIffSorted(entries: seq<TrustInput>)
    ensures StrictBy(entries, PathOf) <==> !Unsorted(entries)
  {
    if !Unsorted(entries) {
      forall i, j | 0 <= i < j < |entries| ensures Lt(PathOf(entries[i]), PathOf(entries[j])) {
        ConsecutiveIsStrict(entries, i, j);
      }
    }
  }

  // ----- which built manifests are valid -----

  // What the reader and writer ask of a path beyond what every built manifest gives.
  predicate Storable(path: string) {
    '\\' !in path && '\0' !in path && forall part :: part in Split(path) ==> part != "." && part != ".."
  }

  lemma {:induction false} JoinEnds(parts: seq<string>)
    requires Parts(parts)
    ensures Join(parts) != "" && Join(parts)[0] == parts[0][0] && EndsWith(Join(parts), Last(parts))
  {
    if |parts| > 1 {
      JoinEnds(parts[1..]);
      var rest := Join(parts[1..]);
      assert Join(parts) == parts[0] + "/" + rest;
      var n := |rest| - |Last(parts)|;
      assert Join(parts)[|parts[0]| + 1 + n..] == rest[n..];
    }
  }

  lemma LastChar(path: string, name: string)
    requires EndsWith(path, name) && name != ""
    ensures path[|path| - 1] == name[|name| - 1]
  {
    assert path[|path| - |name|..][|name| - 1] == name[|name| - 1];
  }

  lemma MdEnd(path: string, name: string)
    requires EndsWith(path, name) && HasMdExtension(name)
    ensures EndsWith(path, ".md") && path[|path| - 1] == 'd'
  {
    LastChar(path, name);
    assert name[|name| - 3..] == ".md";
    assert path[|path| - 3..] == path[|path| - |name|..][|name| - 3..];
    LastChar(name, ".md");
  }

  lemma TrustPathEnds(parts: seq<string>, kind: Kind)
    requires Parts(parts) && TrustPath(parts, kind)
    ensures var path := Join(parts);
      && path != "" && path[0] in ['w', 'e'] && path[|path| - 1] in ['d', 'l', 'w']
      && (kind.ClaimFile? ==> EndsWith(path, ".md"))
  {
    JoinEnds(parts);
    if kind.ClaimFile? { MdEnd(Join(parts), Last(parts)); } else { LastChar(Join(parts), Last(parts)); }
  }

  lemma CanonicalIffStorable(path: string)
    requires path != "" && path[0] in ['w', 'e'] && path[|path| - 1] in ['d', 'l', 'w'] && Parts(Split(path))
    ensures CanonicalPath(path) <==> Storable(path)
  {
    forall part | part in Split(path) ensures part != "" {
      var i :| 0 <= i < |Split(path)| && Split(path)[i] == part;
    }
  }

  lemma EntryIsCanonical(root: seq<Child>, parts: seq<string>, kind: Kind, x: TrustInput)
    requires Proper(root) && TrustEntry(root, parts, kind, x)
    ensures Parts(parts) && Split(x.path) == parts && (CanonicalPath(x.path) <==> Storable(x.path))
    ensures kind.ClaimFile? ==> EndsWith(x.path, ".md")
  {
    ProperThrough(root, parts);
    SplitJoin(parts);
    TrustPathEnds(parts, kind);
    CanonicalIffStorable(x.path);
  }

  lemma EntryIsValid(root: seq<Child>, parts: seq<string>, kind: Kind, x: TrustInput)
    requires Proper(root) && TrustEntry(root, parts, kind, x)
    ensures ValidInput(x) <==> Storable(x.path)
  {
    EntryIsCanonical(root, parts, kind, x);
  }

  // An entry is valid exactly when its path is that of a trusted file of its kind, or of a file
  // named just ".md" below a tier, and can be stored, and its size and hash are in order.
  lemma InputExactly(parts: seq<string>, e: TrustInput)
    requires Parts(parts) && e.path == Join(parts)
    ensures ValidInput(e) <==>
      && (TrustPath(parts, e.kind)
          || (e.kind == ClaimFile && TierPath(parts) && |parts| >= 3 && Last(parts) == ".md"))
      && Storable(e.path) && e.byteLength >= 0 && e.sha256.Sha256?
  {
    SplitJoin(parts);
    KindExactly(parts, e.kind);
    if KindFits(e.path, parts, e.kind) {
      FittingEnds(parts, e.kind);
      CanonicalIffStorable(e.path);
    }
  }

  lemma KindExactly(parts: seq<string>, kind: Kind)
    requires Parts(parts)
    ensures KindFits(Join(parts), parts, kind) <==>
      TrustPath(parts, kind) || (kind == ClaimFile && TierPath(parts) && |parts| >= 3 && Last(parts) == ".md")
  {
    if |parts| >= 3 {
      JoinEndsIn(parts);
      MdEnding(Join(parts), Last(parts));
    }
  }

  lemma FittingEnds(parts: seq<string>, kind: Kind)
    requires Parts(parts) && KindFits(Join(parts), parts, kind)
    ensures var path := Join(parts); path != "" && path[0] in ['w', 'e'] && path[|path| - 1] in ['d', 'l', 'w']
  {
    JoinEnds(parts);
    if kind.ClaimFile? { LastChar(Join(parts), ".md"); } else { LastChar(Join(parts), parts[3]); }
  }

  // A manifest that was built can be stored exactly when no trusted path holds a backslash, a
  // NUL, or a part "." or ".."; otherwise the rebuild fails where it writes the manifest.
  lemma BuiltIsValid(root: seq<Child>)
    requires Proper(root) && BuildManifest(root).Ok?
    ensures var m := BuildManifest(root).value;
      ValidManifest(m) <==> forall e :: e in m.entries ==> Storable(e.path)
  {
    var m := BuildManifest(root).value;
    BuildStrict(root);
    StrictIffSorted(m.entries);
    forall e | e in m.entries ensures ValidInput(e) <==> Storable(e.path) {
      BuildEntries(root, e);
      var parts, kind :| TrustEntry(root, parts, kind, e);
      EntryIsValid(root, parts, kind, e);
    }
  }

  // A claim file with such a name in every tier: the manifest is built and cannot be stored.
  lemma BackslashStops(c: Child)
    requires c.node.File? && Part(c.name) && HasMdExtension(c.name) && '\\' in c.name
    ensures Proper(OneFileEach(c)) && BuildManifest(OneFileEach(c)).Ok?
    ensures !ValidManifest(BuildManifest(OneFileEach(c)).value)
  {
    var root := OneFileEach(c);
    var parts := ["wiki", TIERS[0], c.name];
    var x := InputOf(parts, ClaimFile, c.node.bytes);
    OneFileBuilds(c);
    OneFileShows(c, TIERS[0], [c.name]);
    assert ["wiki", TIERS[0]] + [c.name] == parts;
    assert TrustEntry(root, parts, ClaimFile, x);
    BuildEntries(root, x);
    BuiltIsValid(root);
    NameInPath(parts);
  }

  lemma NameInPath(parts: seq<string>)
    requires |parts| == 3
    ensures forall c :: c in parts[2] ==> c in Join(parts)
  {
    assert Join(parts[1..][1..]) == parts[2];
    assert Join(parts[1..]) == parts[1] + "/" + parts[2];
    assert Join(parts) == parts[0] + "/" + Join(parts[1..]);
  }

  datatype Status = Clean | Rejected | OtherStatus(text: string)

  datatype RebuildState = RebuildState(status: Status, invalidCount: int, digest: ManifestDigest, rebuiltAt: string,
    rebuiltAtParses: bool)

  predicate ValidState(s: RebuildState, digest: ManifestDigest) {
    && (s.status == Clean || s.status == Rejected)
    && (s.status == Clean ==> s.invalidCount == 0)
    && (s.status == Rejected ==> s.invalidCount > 0)
    && s.digest == digest && s.digest.Sha256Of?
    && s.rebuiltAt != "" && s.rebuiltAtParses
  }

  // The state of a rebuild is valid exactly when its status says whether there were invalid
  // claims, it carries the digest of a manifest, and it is dated.
  lemma StateExactly(s: RebuildState, entries: seq<TrustInput>)
    ensures ValidState(s, Sha256Of(entries)) <==>
      && s.invalidCount >= 0 && s.status == (if s.invalidCount == 0 then Clean else Rejected)
      && s.digest == Sha256Of(entries) && s.rebuiltAt != "" && s.rebuiltAtParses
  {
  }

  // ----- the tables -----

  // The table of trust inputs is keyed by path and has no order of its own.
  class IndexDatabase {
    var trustInputs: map<string, TrustInput>
    var rebuildState: seq<RebuildState>

    // The tables hold exactly this manifest and this state.
    ghost predicate Holds(m: Manifest, s: RebuildState)
      reads this
    {
      && (forall p :: p in trustInputs ==> trustInputs[p].path == p)
      && (forall e :: e in m.entries <==> e.path in trustInputs && trustInputs[e.path] == e)
      && rebuildState == [s]
    }

    constructor ()
      ensures trustInputs == map[] && rebuildState == []
    {
      trustInputs, rebuildState := map[], [];
    }

    method WriteIndexState(m: Manifest, s: RebuildState) returns (ok: bool)
      modifies this
      ensures ok == (ValidManifest(m) && ValidState(s, m.digest))
      ensures ok ==> Holds(m, s)
      ensures !ok ==> trustInputs == old(trustInputs) && rebuildState == old(rebuildState)
    {
      if !ValidManifest(m) || !ValidState(s, m.digest) { return false; }
      StrictIffSorted(m.entries);
      var table: map<string, TrustInput> := map[];
      for i := 0 to |m.entries|
        invariant forall p :: p in table ==> table[p].path == p && table[p] in m.entries[..i]
        invariant forall k :: 0 <= k < i ==> m.entries[k].path in table && table[m.entries[k].path] == m.entries[k]
      {
        forall k | 0 <= k < i ensures m.entries[k].path != m.entries[i].path {
          StrictIsDistinct(m.entries, PathOf, k, i);
        }
        table := table[m.entries[i].path := m.entries[i]];
      }
      trustInputs := table;
      rebuildState := [s];
      return true;
    }

    // Rows come back ordered by path; the digest is computed anew from what was read.
    method ReadIndexState() returns (r: Option<(Manifest, RebuildState)>)
      ensures r.Some? ==> ValidManifest(r.value.0) && ValidState(r.value.1, r.value.0.digest)
      ensures forall m, s :: Holds(m, s) && ValidManifest(m) && ValidState(s, m.digest) ==> r == Some((m, s))
      ensures r.Some? && (forall p :: p in trustInputs ==> trustInputs[p].path == p) ==> Holds(r.value.0, r.value.1)
    {
      var rows: seq<TrustInput> := [];
      var left := trustInputs.Keys;
      while left != {}
        invariant left <= trustInputs.Keys
        invariant forall x :: x in rows <==> exists p :: p in trustInputs && p !in left && trustInputs[p] == x
        invariant (forall p :: p in trustInputs ==> trustInputs[p].path == p) ==> DistinctBy(rows, PathOf)
        decreases left
      {
        var p :| p in left;
        forall k | 0 <= k < |rows|
          ensures (forall q :: q in trustInputs ==> trustInputs[q].path == q) ==> rows[k].path != p
        {
          assert rows[k] in rows;
        }
        rows := rows + [trustInputs[p]];
        left := left - {p};
      }
      var entries := SortBy(rows, PathOf);
      forall x ensures x in entries <==> x in rows { SortMembers(rows, PathOf, x); }
      var manifest := Manifest(entries, Sha256Of(entries));
      forall m, s | Holds(m, s) && ValidManifest(m) ensures manifest == m {
        SortStrict(rows, PathOf);
        StrictIffSorted(m.entries);
        StrictUnique(entries, m.entries, PathOf);
      }
      if !ValidManifest(manifest) || |rebuildState| != 1 || !ValidState(rebuildState[0], manifest.digest) {
        return None;
      }
      return Some((manifest, rebuildState[0]));
    }
  }

  // What is written is read back unchanged, and nothing invalid is ever read.
  method WriteThenRead(db: IndexDatabase, m: Manifest, s: RebuildState) returns (r: Option<(Manifest, RebuildState)>)
    requires ValidManifest(m) && ValidState(s, m.digest)
    modifies db
    ensures r == Some((m, s))
  {
    var _ := db.WriteIndexState(m, s);
    r := db.ReadIndexState();
  }
}
