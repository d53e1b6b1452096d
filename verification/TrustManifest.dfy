/** What BuildManifest returns, told by lookups in the tree: when it succeeds, which entries
    it holds, and that the order of enumeration is forgotten. */
module TrustManifest {
  import opened Wrappers
  import opened Ordering
  import opened Paths
  import opened Digests
  import opened TrustTree

  // ----- the whole tree, told by views -----

  ghost predicate TierPath(parts: seq<string>) {
    |parts| >= 2 && parts[0] == "wiki" && parts[1] in TIERS
  }

  ghost predicate TrustPath(parts: seq<string>, kind: Kind) {
    match kind
    case ClaimFile => TierPath(parts) && |parts| >= 3 && HasMdExtension(Last(parts))
    case _ => |parts| == 4 && parts[0] == "evidence" && parts[1] == "sources" && SourceKind(parts[3], kind)
  }

  ghost predicate TrustEntry(root: seq<Child>, parts: seq<string>, kind: Kind, x: TrustInput) {
    && TrustPath(parts, kind) && ViewAt(root, parts).FileView?
    && x.path == Join(parts) && x.kind == kind
    && x.byteLength == |ViewAt(root, parts).bytes| && x.sha256 == Sha256(ViewAt(root, parts).bytes)
  }

  lemma {:induction false} JoinEndsIn(parts: seq<string>)
    requires Parts(parts)
    ensures EndsWith(Join(parts), Last(parts))
    ensures |parts| > 1 ==> EndsWith(Join(parts), "/" + Last(parts))
  {
    if |parts| > 1 {
      var rest := Join(parts[1..]);
      JoinEndsIn(parts[1..]);
      assert Last(parts[1..]) == Last(parts);
      var tail := if |parts| > 2 then "/" + Last(parts) else Last(parts);
      assert Join(parts) == parts[0] + "/" + rest;
      assert EndsWith(Join(parts), rest) && EndsWith(rest, Last(parts));
      if |parts| == 2 { assert rest == Last(parts); }
    }
  }

  lemma MdEnding(path: string, name: string)
    requires EndsWith(path, "/" + name) && '/' !in name
    ensures EndsWith(path, ".md") <==> EndsWith(name, ".md")
  {
    var n, m := |path|, |name|;
    assert path[n - m - 1..] == "/" + name;
    assert path[n - m - 1] == '/' && path[n - m..] == name;
    if m >= 3 {
      assert name[m - 3..] == path[n - 3..];
    } else if n >= 3 {
      var last := path[n - 3..];
      assert last[2 - m] == '/' && '/' !in ".md";
    }
  }

  // Looking up a path below a directory.
  lemma {:induction false} ViewThrough(root: seq<Child>, at: seq<string>, rel: seq<string>)
    requires at != [] && rel != []
    ensures ViewAt(root, at + rel) ==
      (match Resolve(root, at) case Some(Dir(_, kids)) => ViewAt(kids, rel) case _ => Missing)
    decreases |at|
  {
    assert (at + rel)[1..] == at[1..] + rel;
    if |at| > 1 {
      var found := Find(root, at[0]);
      if found.Some? && found.value.Dir? {
        ViewThrough(found.value.children, at[1..], rel);
      }
    } else {
      assert at[1..] + rel == rel;
    }
  }

  lemma {:induction false} ProperThrough(root: seq<Child>, at: seq<string>)
    requires Proper(root) && at != []
    ensures Resolve(root, at).Some? ==> Parts(at)
    ensures Resolve(root, at).Some? && Resolve(root, at).value.Dir? ==> Proper(Resolve(root, at).value.children)
    decreases |at|
  {
    FindIs(root, at[0]);
    var found := Find(root, at[0]);
    if |at| > 1 && found.Some? && found.value.Dir? {
      ProperThrough(found.value.children, at[1..]);
      assert Resolve(root, at).Some? ==> forall i :: 0 < i < |at| ==> at[i] == at[1..][i - 1];
    }
  }

  // ----- one tier and the sources -----

  lemma TierView(root: seq<Child>, tier: string)
    requires Proper(root)
    ensures WalkTier(root, tier).Ok? <==>
      ViewAt(root, ["wiki", tier]).DirView? && CleanClaims(Resolve(root, ["wiki", tier]).value.children)
  {
    ProperThrough(root, ["wiki", tier]);
    if r :| Resolve(root, ["wiki", tier]) == Some(r) && r.Dir? {
      WalkClaimsOk(["wiki", tier], r.children);
    }
  }

  ghost predicate CleanTier(root: seq<Child>, tier: string) {
    && ViewAt(root, ["wiki", tier]).DirView?
    && forall parts :: |parts| >= 3 && parts[0] == "wiki" && parts[1] == tier ==>
         !ViewAt(root, parts).LinkView?
         && (HasMdExtension(Last(parts)) ==> ViewAt(root, parts).Missing? || ViewAt(root, parts).FileView?)
  }

  lemma TierOk(root: seq<Child>, tier: string)
    requires Proper(root)
    ensures WalkTier(root, tier).Ok? <==> CleanTier(root, tier)
  {
    TierView(root, tier);
    var at := ["wiki", tier];
    if ViewAt(root, at).DirView? {
      var kids := Resolve(root, at).value.children;
      if CleanClaims(kids) {
        forall parts: seq<string> | |parts| >= 3 && parts[0] == "wiki" && parts[1] == tier
          ensures !ViewAt(root, parts).LinkView?
          ensures HasMdExtension(Last(parts)) ==> ViewAt(root, parts).Missing? || ViewAt(root, parts).FileView?
        {
          assert parts == at + parts[2..];
          ViewThrough(root, at, parts[2..]);
          assert Last(parts) == Last(parts[2..]);
        }
      }
      if CleanTier(root, tier) {
        forall rel: seq<string> | rel != []
          ensures !ViewAt(kids, rel).LinkView?
          ensures HasMdExtension(Last(rel)) ==> ViewAt(kids, rel).Missing? || ViewAt(kids, rel).FileView?
        {
          ViewThrough(root, at, rel);
          assert Last(at + rel) == Last(rel);
        }
      }
    }
  }

  ghost predicate TierEntry(root: seq<Child>, tier: string, parts: seq<string>, x: TrustInput) {
    && |parts| >= 3 && parts[0] == "wiki" && parts[1] == tier && HasMdExtension(Last(parts))
    && ViewAt(root, parts).FileView? && x == InputOf(parts, ClaimFile, ViewAt(root, parts).bytes)
  }

  lemma TierEntryBelow(root: seq<Child>, tier: string, rel: seq<string>, x: TrustInput)
    requires WalkTier(root, tier).Ok? && rel != []
    ensures ClaimEntry(["wiki", tier], Resolve(root, ["wiki", tier]).value.children, rel, x)
       <==> TierEntry(root, tier, ["wiki", tier] + rel, x)
  {
    ViewThrough(root, ["wiki", tier], rel);
    assert Last(["wiki", tier] + rel) == Last(rel);
  }

  lemma TierEntries(root: seq<Child>, tier: string, x: TrustInput)
    requires Proper(root) && WalkTier(root, tier).Ok?
    ensures x in WalkTier(root, tier).value <==> exists parts :: TierEntry(root, tier, parts, x)
  {
    var at := ["wiki", tier];
    var kids := Resolve(root, at).value.children;
    ProperThrough(root, at);
    WalkClaimsEntries(at, kids, x);
    if rel :| ClaimEntry(at, kids, rel, x) {
      TierEntryBelow(root, tier, rel, x);
    }
    if parts :| TierEntry(root, tier, parts, x) {
      assert parts == at + parts[2..];
      TierEntryBelow(root, tier, parts[2..], x);
    }
  }

  ghost predicate CleanSources(root: seq<Child>) {
    && ViewAt(root, ["evidence", "sources"]).DirView?
    && (forall id :: !ViewAt(root, ["evidence", "sources", id]).LinkView?)
    && (forall id, name, kind :: SourceKind(name, kind) ==>
          ViewAt(root, ["evidence", "sources", id, name]).Missing?
          || ViewAt(root, ["evidence", "sources", id, name]).FileView?)
  }

  lemma SourcesViews(root: seq<Child>, id: string, name: string)
    requires Resolve(root, ["evidence", "sources"]).Some? && Resolve(root, ["evidence", "sources"]).value.Dir?
    ensures var kids := Resolve(root, ["evidence", "sources"]).value.children;
      ViewAt(root, ["evidence", "sources", id]) == ViewAt(kids, [id])
      && ViewAt(root, ["evidence", "sources", id, name]) == ViewAt(kids, [id, name])
  {
    var at := ["evidence", "sources"];
    assert at + [id] == ["evidence", "sources", id] && at + [id, name] == ["evidence", "sources", id, name];
    ViewThrough(root, at, [id]);
    ViewThrough(root, at, [id, name]);
  }

  lemma SourcesOk(root: seq<Child>)
    requires Proper(root)
    ensures WalkSources(root).Ok? <==> CleanSources(root)
  {
    var at := ["evidence", "sources"];
    ProperThrough(root, at);
    if ViewAt(root, at).DirView? {
      var kids := Resolve(root, at).value.children;
      WalkEvidenceOk(at, kids);
      forall id ensures ViewAt(root, ["evidence", "sources", id]).LinkView? <==> ViewAt(kids, [id]).LinkView? {
        SourcesViews(root, id, "raw");
      }
      forall id, name ensures ViewAt(root, ["evidence", "sources", id, name]) == ViewAt(kids, [id, name]) {
        SourcesViews(root, id, name);
      }
      if CleanSources(root) {
        forall id ensures !ViewAt(kids, [id]).LinkView? {
          assert !ViewAt(root, ["evidence", "sources", id]).LinkView?;
        }
        forall id, name, kind | SourceKind(name, kind)
          ensures ViewAt(kids, [id, name]).Missing? || ViewAt(kids, [id, name]).FileView?
        {
          assert ViewAt(root, ["evidence", "sources", id, name]) == ViewAt(kids, [id, name]);
        }
      }
    }
  }

  lemma SourcesEntries(root: seq<Child>, x: TrustInput)
    requires Proper(root) && WalkSources(root).Ok?
    ensures x in WalkSources(root).value <==>
      exists id, name, kind :: SourceKind(name, kind) && TrustEntry(root, ["evidence", "sources", id, name], kind, x)
  {
    var at := ["evidence", "sources"];
    var kids := Resolve(root, at).value.children;
    ProperThrough(root, at);
    WalkEvidenceEntries(at, kids, x);
    forall id, name, kind
      ensures EvidenceEntry(at, kids, id, name, kind, x) <==>
        SourceKind(name, kind) && TrustEntry(root, ["evidence", "sources", id, name], kind, x)
    {
      SourcesViews(root, id, name);
      assert at + [id, name] == ["evidence", "sources", id, name];
    }
  }

  // ----- the manifest -----

  // The conditions under which a manifest can be built: the tiers and the sources are
  // directories, nothing trusted is a link, everything named like a trust input is a file.
  ghost predicate CleanTree(root: seq<Child>) {
    (forall tier :: tier in TIERS ==> CleanTier(root, tier)) && CleanSources(root)
  }

  lemma FourTiers(root: seq<Child>)
    ensures WalkTiers(root, TIERS) ==
      Append(WalkTier(root, TIERS[0]), Append(WalkTier(root, TIERS[1]),
        Append(WalkTier(root, TIERS[2]), Append(WalkTier(root, TIERS[3]), Ok([])))))
    ensures forall tier :: tier in TIERS <==>
      tier == TIERS[0] || tier == TIERS[1] || tier == TIERS[2] || tier == TIERS[3]
  {
    assert TIERS[1..][1..][1..][1..] == [];
    assert WalkTiers(root, TIERS[1..][1..][1..]) == Append(WalkTier(root, TIERS[3]), Ok([]));
    assert WalkTiers(root, TIERS[1..][1..]) == Append(WalkTier(root, TIERS[2]), WalkTiers(root, TIERS[1..][1..][1..]));
    assert WalkTiers(root, TIERS[1..]) == Append(WalkTier(root, TIERS[1]), WalkTiers(root, TIERS[1..][1..]));
  }

  lemma BuildOk(root: seq<Child>)
    requires Proper(root)
    ensures BuildManifest(root).Ok? <==> CleanTree(root)
  {
    FourTiers(root);
    forall tier ensures WalkTier(root, tier).Ok? <==> CleanTier(root, tier) { TierOk(root, tier); }
    SourcesOk(root);
  }

  lemma TiersEntries(root: seq<Child>, x: TrustInput)
    requires Proper(root) && WalkTiers(root, TIERS).Ok?
    ensures x in WalkTiers(root, TIERS).value <==> exists parts :: TrustEntry(root, parts, ClaimFile, x)
  {
    FourTiers(root);
    TierEntries(root, TIERS[0], x);
    TierEntries(root, TIERS[1], x);
    TierEntries(root, TIERS[2], x);
    TierEntries(root, TIERS[3], x);
    if x in WalkTiers(root, TIERS).value {
      var tier :| tier in TIERS && x in WalkTier(root, tier).value;
      var parts :| TierEntry(root, tier, parts, x);
      assert TrustEntry(root, parts, ClaimFile, x);
    }
    if parts :| TrustEntry(root, parts, ClaimFile, x) {
      assert TierEntry(root, parts[1], parts, x);
    }
  }

  // The manifest holds one entry for each trusted file a lookup can reach, and no other.
  lemma BuildEntries(root: seq<Child>, x: TrustInput)
    requires Proper(root) && BuildManifest(root).Ok?
    ensures x in BuildManifest(root).value.entries <==> exists parts, kind :: TrustEntry(root, parts, kind, x)
  {
    var inputs := Append(WalkTiers(root, TIERS), WalkSources(root)).value;
    SortMembers(inputs, PathOf, x);
    TiersEntries(root, x);
    if x in WalkSources(root).value { SourceInward(root, x); }
    if parts, kind :| TrustEntry(root, parts, kind, x) && !kind.ClaimFile? { SourceOutward(root, parts, kind, x); }
  }

  lemma SourceInward(root: seq<Child>, x: TrustInput)
    requires Proper(root) && WalkSources(root).Ok? && x in WalkSources(root).value
    ensures exists parts, kind :: TrustEntry(root, parts, kind, x)
  {
    SourcesEntries(root, x);
    var id, name, kind :| SourceKind(name, kind) && TrustEntry(root, ["evidence", "sources", id, name], kind, x);
  }

  lemma SourceOutward(root: seq<Child>, parts: seq<string>, kind: Kind, x: TrustInput)
    requires Proper(root) && WalkSources(root).Ok? && TrustEntry(root, parts, kind, x) && !kind.ClaimFile?
    ensures x in WalkSources(root).value
  {
    SourcesEntries(root, x);
    assert parts == ["evidence", "sources", parts[2], parts[3]];
  }

  // ----- no path twice -----

  lemma DistinctAppend(a: seq<TrustInput>, b: seq<TrustInput>)
    requires DistinctBy(a, PathOf) && DistinctBy(b, PathOf)
    requires forall x, y :: x in a && y in b ==> x.path != y.path
    ensures DistinctBy(a + b, PathOf)
  {
  }

  // The n-th part of the path of every entry.
  ghost predicate PartIn(a: seq<TrustInput>, n: nat, names: set<string>) {
    forall x :: x in a ==> |Split(x.path)| > n && Split(x.path)[n] in names
  }

  lemma AppendApart(a: seq<TrustInput>, b: seq<TrustInput>, n: nat, s: set<string>, t: set<string>)
    requires DistinctBy(a, PathOf) && DistinctBy(b, PathOf)
    requires PartIn(a, n, s) && PartIn(b, n, t) && s !! t
    ensures DistinctBy(a + b, PathOf)
  {
    forall x, y | x in a && y in b ensures x.path != y.path {
      assert Split(x.path)[n] in s && Split(y.path)[n] in t;
    }
    DistinctAppend(a, b);
  }

  function Names(children: seq<Child>): set<string> {
    set i | 0 <= i < |children| :: children[i].name
  }

  lemma ReachedParts(at: seq<string>, children: seq<Child>, rel: seq<string>)
    requires Parts(at) && Proper(children) && rel != [] && !ViewAt(children, rel).Missing?
    ensures Split(Join(at + rel)) == at + rel && rel[0] in Names(children)
  {
    ProperThrough(children, rel);
    FindIs(children, rel[0]);
    SplitJoin(at + rel);
  }

  lemma WalkClaimsParts(at: seq<string>, children: seq<Child>)
    requires Parts(at) && Proper(children) && WalkClaims(at, children).Ok?
    ensures PartIn(WalkClaims(at, children).value, |at|, Names(children))
    ensures forall x :: x in WalkClaims(at, children).value ==> |Split(x.path)| > |at| && Split(x.path)[..|at|] == at
  {
    forall x | x in WalkClaims(at, children).value
      ensures |Split(x.path)| > |at| && Split(x.path)[..|at|] == at && Split(x.path)[|at|] in Names(children)
    {
      WalkClaimsEntries(at, children, x);
      var rel :| ClaimEntry(at, children, rel, x);
      ReachedParts(at, children, rel);
    }
  }

  lemma TailApart(children: seq<Child>)
    requires Proper(children) && children != []
    ensures Proper(children[1..]) && {children[0].name} !! Names(children[1..]) && Part(children[0].name)
  {
    ProperTail(children);
    forall i | 0 <= i < |children[1..]| ensures children[1..][i].name != children[0].name {
      assert children[1..][i] == children[i + 1];
    }
  }

  lemma {:induction false} WalkClaimsDistinct(at: seq<string>, children: seq<Child>)
    requires Parts(at) && Proper(children) && WalkClaims(at, children).Ok?
    ensures DistinctBy(WalkClaims(at, children).value, PathOf)
    decreases children
  {
    if children != [] {
      var c, tail := children[0], children[1..];
      TailApart(children);
      WalkClaimsDistinct(at, tail);
      WalkClaimsParts(at, tail);
      var all, rest := WalkClaims(at, children).value, WalkClaims(at, tail).value;
      var here := all[..|all| - |rest|];
      assert all == here + rest;
      var below := at + [c.name];
      if c.node.Dir? {
        WalkClaimsDistinct(below, c.node.children);
        WalkClaimsParts(below, c.node.children);
        assert here == WalkClaims(below, c.node.children).value;
        forall x | x in here ensures |Split(x.path)| > |at| && Split(x.path)[|at|] == c.name {
          assert Split(x.path)[..|below|][|at|] == c.name;
        }
      } else if here != [] {
        SplitJoin(below);
        assert here == [InputOf(below, ClaimFile, c.node.bytes)];
      }
      AppendApart(here, rest, |at|, {c.name}, Names(tail));
    }
  }

  lemma SourceFileParts(at: seq<string>, kids: seq<Child>, name: string, kind: Kind)
    requires Parts(at) && Part(name) && SourceFile(at, kids, name, kind).Ok?
    ensures var a := SourceFile(at, kids, name, kind).value;
      |a| <= 1 && PartIn(a, |at|, {name}) && (forall x :: x in a ==> Split(x.path)[..|at|] == at)
  {
    SplitJoin(at + [name]);
  }

  lemma {:induction false} WalkEvidenceDistinct(at: seq<string>, children: seq<Child>)
    requires Parts(at) && Proper(children) && WalkEvidence(at, children).Ok?
    ensures DistinctBy(WalkEvidence(at, children).value, PathOf)
    ensures PartIn(WalkEvidence(at, children).value, |at|, Names(children))
    ensures forall x :: x in WalkEvidence(at, children).value ==> Split(x.path)[..|at|] == at
  {
    if children != [] {
      var c, tail := children[0], children[1..];
      TailApart(children);
      WalkEvidenceDistinct(at, tail);
      var rest := WalkEvidence(at, tail).value;
      var below := at + [c.name];
      assert forall n :: n in Names(tail) ==> n in Names(children) by {
        forall i | 0 <= i < |tail| ensures tail[i].name in Names(children) { assert tail[i] == children[i + 1]; }
      }
      if c.node.Dir? {
        var a := SourceFile(below, c.node.children, "source.yaml", EvidenceMetadata).value;
        var b := SourceFile(below, c.node.children, "raw", EvidenceRaw).value;
        SourceFileParts(below, c.node.children, "source.yaml", EvidenceMetadata);
        SourceFileParts(below, c.node.children, "raw", EvidenceRaw);
        AppendApart(a, b, |below|, {"source.yaml"}, {"raw"});
        forall x: TrustInput | x in a + b
          ensures |Split(x.path)| > |at| && Split(x.path)[|at|] == c.name && Split(x.path)[..|at|] == at
        {
          assert Split(x.path)[..|below|][|at|] == c.name;
          assert Split(x.path)[..|below|][..|at|] == Split(x.path)[..|at|];
        }
        AppendApart(a + b, rest, |at|, {c.name}, Names(tail));
        assert children[0].name in Names(children);
        assert WalkEvidence(at, children).value == (a + b) + rest;
      } else {
        assert WalkEvidence(at, children).value == rest;
      }
    }
  }

  lemma TierDistinct(root: seq<Child>, tier: string)
    requires Proper(root) && WalkTier(root, tier).Ok? && Part(tier)
    ensures var a := WalkTier(root, tier).value;
      DistinctBy(a, PathOf) && PartIn(a, 0, {"wiki"}) && PartIn(a, 1, {tier})
  {
    var at := ["wiki", tier];
    assert Part("wiki");
    ProperThrough(root, at);
    var kids := Resolve(root, at).value.children;
    WalkClaimsDistinct(at, kids);
    WalkClaimsParts(at, kids);
    forall x | x in WalkTier(root, tier).value
      ensures |Split(x.path)| > 1 && Split(x.path)[0] == "wiki" && Split(x.path)[1] == tier
    {
      assert Split(x.path)[..2][0] == "wiki" && Split(x.path)[..2][1] == tier;
    }
  }

  lemma {:induction false} TiersDistinct(root: seq<Child>, tiers: seq<string>)
    requires Proper(root) && WalkTiers(root, tiers).Ok?
    requires forall i :: 0 <= i < |tiers| ==> Part(tiers[i])
    requires forall i, j :: 0 <= i < j < |tiers| ==> tiers[i] != tiers[j]
    ensures var a := WalkTiers(root, tiers).value;
      DistinctBy(a, PathOf) && PartIn(a, 0, {"wiki"}) && PartIn(a, 1, set t | t in tiers)
  {
    if tiers != [] {
      TiersDistinct(root, tiers[1..]);
      TierDistinct(root, tiers[0]);
      assert tiers == [tiers[0]] + tiers[1..];
      AppendApart(WalkTier(root, tiers[0]).value, WalkTiers(root, tiers[1..]).value, 1,
        {tiers[0]}, set t | t in tiers[1..]);
    }
  }

  lemma SourcesDistinct(root: seq<Child>)
    requires Proper(root) && WalkSources(root).Ok?
    ensures DistinctBy(WalkSources(root).value, PathOf) && PartIn(WalkSources(root).value, 0, {"evidence"})
  {
    var at := ["evidence", "sources"];
    assert Part("evidence") && Part("sources");
    ProperThrough(root, at);
    WalkEvidenceDistinct(at, Resolve(root, at).value.children);
    forall x | x in WalkSources(root).value ensures |Split(x.path)| > 0 && Split(x.path)[0] == "evidence" {
      assert Split(x.path)[..2][0] == "evidence";
    }
  }

  lemma InputsDistinct(root: seq<Child>)
    requires Proper(root) && BuildManifest(root).Ok?
    ensures DistinctBy(Append(WalkTiers(root, TIERS), WalkSources(root)).value, PathOf)
  {
    TiersDistinct(root, TIERS);
    SourcesDistinct(root);
    AppendApart(WalkTiers(root, TIERS).value, WalkSources(root).value, 0, {"wiki"}, {"evidence"});
  }

  // A manifest that was built is strictly sorted by path and carries its own digest.
  lemma BuildStrict(root: seq<Child>)
    requires Proper(root) && BuildManifest(root).Ok?
    ensures StrictBy(BuildManifest(root).value.entries, PathOf)
    ensures BuildManifest(root).value.digest == Sha256Of(BuildManifest(root).value.entries)
  {
    InputsDistinct(root);
    SortStrict(Append(WalkTiers(root, TIERS), WalkSources(root)).value, PathOf);
  }

  // Two trees with the same trusted files give the same manifest.
  lemma SameEntriesSameManifest(a: seq<Child>, b: seq<Child>)
    requires Proper(a) && Proper(b) && BuildManifest(a).Ok? && BuildManifest(b).Ok?
    requires forall parts, kind, x :: TrustEntry(a, parts, kind, x) <==> TrustEntry(b, parts, kind, x)
    ensures BuildManifest(a) == BuildManifest(b)
  {
    BuildStrict(a);
    BuildStrict(b);
    var m, n := BuildManifest(a).value.entries, BuildManifest(b).value.entries;
    forall x ensures x in m <==> x in n {
      BuildEntries(a, x);
      BuildEntries(b, x);
      if parts, kind :| TrustEntry(a, parts, kind, x) { assert TrustEntry(b, parts, kind, x); }
      if parts, kind :| TrustEntry(b, parts, kind, x) { assert TrustEntry(a, parts, kind, x); }
    }
    StrictUnique(m, n, PathOf);
  }

  // The same tree, possibly enumerated in another order at every level.
  ghost predicate SameViews(a: seq<Child>, b: seq<Child>) {
    forall parts :: ViewAt(a, parts) == ViewAt(b, parts)
  }

  lemma SameTierClean(a: seq<Child>, b: seq<Child>, tier: string)
    requires SameViews(a, b) && CleanTier(a, tier)
    ensures CleanTier(b, tier)
  {
    assert ViewAt(a, ["wiki", tier]) == ViewAt(b, ["wiki", tier]);
    forall parts | |parts| >= 3 && parts[0] == "wiki" && parts[1] == tier
      ensures !ViewAt(b, parts).LinkView?
      ensures HasMdExtension(Last(parts)) ==> ViewAt(b, parts).Missing? || ViewAt(b, parts).FileView?
    {
      assert ViewAt(a, parts) == ViewAt(b, parts);
    }
  }

  lemma SameSourcesClean(a: seq<Child>, b: seq<Child>)
    requires SameViews(a, b) && CleanSources(a)
    ensures CleanSources(b)
  {
    assert ViewAt(a, ["evidence", "sources"]) == ViewAt(b, ["evidence", "sources"]);
    forall id ensures !ViewAt(b, ["evidence", "sources", id]).LinkView? {
      assert ViewAt(a, ["evidence", "sources", id]) == ViewAt(b, ["evidence", "sources", id]);
    }
    forall id, name, kind | SourceKind(name, kind)
      ensures var v := ViewAt(b, ["evidence", "sources", id, name]); v.Missing? || v.FileView?
    {
      assert ViewAt(a, ["evidence", "sources", id, name]) == ViewAt(b, ["evidence", "sources", id, name]);
    }
  }

  lemma SameCleanTree(a: seq<Child>, b: seq<Child>)
    requires SameViews(a, b) && CleanTree(a)
    ensures CleanTree(b)
  {
    forall tier | tier in TIERS ensures CleanTier(b, tier) { SameTierClean(a, b, tier); }
    SameSourcesClean(a, b);
  }

  // Whether a manifest can be built, and which one it is, does not depend on the order in
  // which directories are enumerated.
  lemma EnumerationOrderForgotten(a: seq<Child>, b: seq<Child>)
    requires Proper(a) && Proper(b) && SameViews(a, b)
    ensures BuildManifest(a) == BuildManifest(b)
  {
    BuildOk(a);
    BuildOk(b);
    if BuildManifest(a).Ok? {
      SameCleanTree(a, b);
      forall parts, kind, x ensures TrustEntry(a, parts, kind, x) <==> TrustEntry(b, parts, kind, x) {
        assert ViewAt(a, parts) == ViewAt(b, parts);
      }
      SameEntriesSameManifest(a, b);
    } else if BuildManifest(b).Ok? {
      assert SameViews(b, a);
      SameCleanTree(b, a);
    }
  }
}
