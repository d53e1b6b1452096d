/** The trusted part of a workspace directory as a tree, the walks over it, and the
    trust-input manifest.

    A directory lists its children in the order the file system happens to enumerate them.
    The lemmas say of each walk, for any such order, when it goes through and that it collects
    exactly the files a lookup by path can reach. */
module TrustTree {
  import opened Wrappers
  import opened Ordering
  import opened Paths
  import opened Digests

  datatype Stamp = Stamp(modifiedAt: int, changeToken: int)

  datatype Node =
    | File(stamp: Stamp, bytes: string)
    | Dir(stamp: Stamp, children: seq<Child>)
    | Link
    | Special

  datatype Child = Child(name: string, node: Node)

  // Names in one directory are distinct and have no slash.
  ghost predicate Proper(children: seq<Child>) {
    && (forall i :: 0 <= i < |children| ==> Part(children[i].name))
    && (forall i, j :: 0 <= i < j < |children| ==> children[i].name != children[j].name)
    && (forall i :: 0 <= i < |children| && children[i].node.Dir? ==> Proper(children[i].node.children))
  }

  // What a stat, a read and a lookup of one path show.
  datatype View = Missing | FileView(stamp: Stamp, bytes: string) | DirView(stamp: Stamp) | LinkView | SpecialView

  function Find(children: seq<Child>, name: string): Option<Node> {
    if children == [] then None
    else if children[0].name == name then Some(children[0].node)
    else Find(children[1..], name)
  }

  function ViewOf(n: Node): View {
    match n
    case File(s, b) => FileView(s, b)
    case Dir(s, _) => DirView(s)
    case Link => LinkView
    case Special => SpecialView
  }

  function Resolve(children: seq<Child>, path: seq<string>): Option<Node>
    decreases |path|
  {
    if path == [] then None
    else
      var found := Find(children, path[0]);
      if |path| == 1 || found.None? then found
      else if found.value.Dir? then Resolve(found.value.children, path[1..])
      else None
  }

  function ViewAt(children: seq<Child>, path: seq<string>): View {
    match Resolve(children, path)
    case None => Missing
    case Some(n) => ViewOf(n)
  }

  // ----- manifest entries -----

  datatype Kind = ClaimFile | EvidenceMetadata | EvidenceRaw

  datatype TrustInput = TrustInput(path: string, kind: Kind, byteLength: int, sha256: ContentDigest)

  datatype ManifestDigest = Sha256Of(entries: seq<TrustInput>) | NotADigest(text: string)

  datatype Manifest = Manifest(entries: seq<TrustInput>, digest: ManifestDigest)

  function InputOf(path: seq<string>, kind: Kind, bytes: string): TrustInput {
    TrustInput(Join(path), kind, |bytes|, Sha256(bytes))
  }

  function Append<T>(a: Result<seq<T>>, b: Result<seq<T>>): Result<seq<T>> {
    if a.Ok? && b.Ok? then Ok(a.value + b.value) else Err
  }

  function WalkClaims(at: seq<string>, children: seq<Child>): Result<seq<TrustInput>>
    decreases children
  {
    if children == [] then Ok([])
    else
      var c := children[0];
      var here: Result<seq<TrustInput>> :=
        match c.node
        case Link => Err
        case Dir(_, kids) => if HasMdExtension(c.name) then Err else WalkClaims(at + [c.name], kids)
        case File(_, bytes) => Ok(if HasMdExtension(c.name) then [InputOf(at + [c.name], ClaimFile, bytes)] else [])
        case Special => if HasMdExtension(c.name) then Err else Ok([]);
      Append(here, WalkClaims(at, children[1..]))
  }

  // The two files of one evidence directory.
  function SourceFile(at: seq<string>, kids: seq<Child>, name: string, kind: Kind): Result<seq<TrustInput>> {
    match Find(kids, name)
    case None => Ok([])
    case Some(File(_, bytes)) => Ok([InputOf(at + [name], kind, bytes)])
    case Some(_) => Err
  }

  function WalkEvidence(at: seq<string>, children: seq<Child>): Result<seq<TrustInput>> {
    if children == [] then Ok([])
    else
      var c := children[0];
      var here: Result<seq<TrustInput>> :=
        match c.node
        case Link => Err
        case Dir(_, kids) =>
          Append(SourceFile(at + [c.name], kids, "source.yaml", EvidenceMetadata),
                 SourceFile(at + [c.name], kids, "raw", EvidenceRaw))
        case _ => Ok([]);
      Append(here, WalkEvidence(at, children[1..]))
  }

  function WalkTier(root: seq<Child>, tier: string): Result<seq<TrustInput>> {
    match Resolve(root, ["wiki", tier])
    case Some(Dir(_, kids)) => WalkClaims(["wiki", tier], kids)
    case _ => Err
  }

  function WalkTiers(root: seq<Child>, tiers: seq<string>): Result<seq<TrustInput>> {
    if tiers == [] then Ok([]) else Append(WalkTier(root, tiers[0]), WalkTiers(root, tiers[1..]))
  }

  function WalkSources(root: seq<Child>): Result<seq<TrustInput>> {
    match Resolve(root, ["evidence", "sources"])
    case Some(Dir(_, kids)) => WalkEvidence(["evidence", "sources"], kids)
    case _ => Err
  }

  function PathOf(e: TrustInput): string { e.path }

  function BuildManifest(root: seq<Child>): Result<Manifest> {
    match Append(WalkTiers(root, TIERS), WalkSources(root))
    case Err => Err
    case Ok(inputs) =>
      var entries := SortBy(inputs, PathOf);
      Ok(Manifest(entries, Sha256Of(entries)))
  }

  // ----- what the walks see, told by views -----

  lemma {:induction false} FindFirst(children: seq<Child>, i: nat)
    requires Proper(children) && i < |children|
    ensures Find(children, children[i].name) == Some(children[i].node)
  {
    if i > 0 {
      ProperTail(children);
      FindFirst(children[1..], i - 1);
    }
  }

  lemma {:induction false} FindIs(children: seq<Child>, name: string)
    requires Proper(children)
    ensures Find(children, name).Some? ==>
      exists i :: 0 <= i < |children| && children[i].name == name && children[i].node == Find(children, name).value
    ensures Find(children, name).None? ==> forall i :: 0 <= i < |children| ==> children[i].name != name
  {
    if children != [] {
      ProperTail(children);
      FindIs(children[1..], name);
      if children[0].name != name && Find(children, name).Some? {
        var i :| 0 <= i < |children[1..]| && children[1..][i].name == name
          && children[1..][i].node == Find(children, name).value;
        assert children[i + 1].name == name && children[i + 1].node == Find(children, name).value;
      }
    }
  }

  lemma ProperTail(children: seq<Child>)
    requires Proper(children) && children != []
    ensures Proper(children[1..])
    ensures Find(children[1..], children[0].name).None?
  {
    var tail := children[1..];
    forall i | 0 <= i < |tail| ensures Part(tail[i].name) && tail[i].name != children[0].name {
      assert tail[i] == children[i + 1];
    }
    forall i | 0 <= i < |tail| && tail[i].node.Dir? ensures Proper(tail[i].node.children) {
      assert tail[i] == children[i + 1];
    }
    NotFound(tail, children[0].name);
  }

  lemma {:induction false} NotFound(children: seq<Child>, name: string)
    requires forall i :: 0 <= i < |children| ==> children[i].name != name
    ensures Find(children, name).None?
  {
    if children != [] { NotFound(children[1..], name); }
  }

  function Last(path: seq<string>): string
    requires path != []
  {
    path[|path| - 1]
  }

  lemma TailNames(children: seq<Child>, rel: seq<string>)
    requires Proper(children) && children != [] && rel != [] && !ViewAt(children[1..], rel).Missing?
    ensures rel[0] != children[0].name
  {
    ProperTail(children);
  }

  // Below a tier: no symbolic link, and only regular files are named like claims.
  ghost predicate CleanClaims(children: seq<Child>) {
    forall rel: seq<string> :: rel != [] ==>
      !ViewAt(children, rel).LinkView?
      && (HasMdExtension(Last(rel)) ==> ViewAt(children, rel).Missing? || ViewAt(children, rel).FileView?)
  }

  ghost predicate ClaimEntry(at: seq<string>, children: seq<Child>, rel: seq<string>, x: TrustInput) {
    && rel != [] && HasMdExtension(Last(rel)) && ViewAt(children, rel).FileView?
    && x == InputOf(at + rel, ClaimFile, ViewAt(children, rel).bytes)
  }

  // Below a directory, a path is its first name and the rest.
  function ViewUnder(n: Node, rel: seq<string>): View {
    if rel == [] then ViewOf(n) else if n.Dir? then ViewAt(n.children, rel) else Missing
  }

  lemma ViewInTail(children: seq<Child>, rel: seq<string>)
    requires children != [] && rel != []
    ensures rel[0] != children[0].name ==> ViewAt(children, rel) == ViewAt(children[1..], rel)
    ensures rel[0] == children[0].name ==> ViewAt(children, rel) == ViewUnder(children[0].node, rel[1..])
  {
  }

  lemma {:induction false} WalkClaimsOk(at: seq<string>, children: seq<Child>)
    requires Proper(children)
    ensures WalkClaims(at, children).Ok? <==> CleanClaims(children)
    decreases children
  {
    if children == [] {
      forall rel: seq<string> | rel != [] ensures ViewAt(children, rel).Missing? {}
    } else {
      ProperTail(children);
      var c, tail := children[0], children[1..];
      WalkClaimsOk(at, tail);
      if c.node.Dir? {
        WalkClaimsOk(at + [c.name], c.node.children);
      }
      CleanSplits(children);
    }
  }

  ghost predicate CleanNode(c: Child) {
    match c.node
    case Link => false
    case Dir(_, kids) => !HasMdExtension(c.name) && CleanClaims(kids)
    case File(_, _) => true
    case Special => !HasMdExtension(c.name)
  }

  lemma CleanSplits(children: seq<Child>)
    requires Proper(children) && children != []
    ensures CleanClaims(children) <==> CleanNode(children[0]) && CleanClaims(children[1..])
  {
    var c, tail := children[0], children[1..];
    ProperTail(children);
    if CleanClaims(children) {
      assert ViewAt(children, [c.name]) == ViewOf(c.node) by { ViewInTail(children, [c.name]); }
      assert Last([c.name]) == c.name;
      if c.node.Dir? {
        forall rel: seq<string> | rel != []
          ensures !ViewAt(c.node.children, rel).LinkView?
          ensures HasMdExtension(Last(rel)) ==>
            ViewAt(c.node.children, rel).Missing? || ViewAt(c.node.children, rel).FileView?
        {
          var full := [c.name] + rel;
          assert full[1..] == rel && Last(full) == Last(rel);
          ViewInTail(children, full);
        }
      }
      forall rel: seq<string> | rel != []
        ensures !ViewAt(tail, rel).LinkView?
        ensures HasMdExtension(Last(rel)) ==> ViewAt(tail, rel).Missing? || ViewAt(tail, rel).FileView?
      {
        ViewInTail(children, rel);
        if rel[0] == c.name { assert ViewAt(tail, rel).Missing?; }
      }
    }
    if CleanNode(c) && CleanClaims(tail) {
      forall rel: seq<string> | rel != []
        ensures !ViewAt(children, rel).LinkView?
        ensures HasMdExtension(Last(rel)) ==> ViewAt(children, rel).Missing? || ViewAt(children, rel).FileView?
      {
        ViewInTail(children, rel);
        if |rel| > 1 { assert Last(rel) == Last(rel[1..]); }
      }
    }
  }

  // The walk collects exactly the claim files that a lookup can reach.
  lemma {:induction false} WalkClaimsEntries(at: seq<string>, children: seq<Child>, x: TrustInput)
    requires Proper(children) && WalkClaims(at, children).Ok?
    ensures x in WalkClaims(at, children).value <==> exists rel :: ClaimEntry(at, children, rel, x)
    decreases children
  {
    if children == [] {
      forall rel ensures !ClaimEntry(at, children, rel, x) {}
    } else {
      ProperTail(children);
      var c, tail := children[0], children[1..];
      WalkClaimsEntries(at, tail, x);
      if c.node.Dir? {
        WalkClaimsEntries(at + [c.name], c.node.children, x);
      }
      EntrySplits(at, children, x);
    }
  }

  ghost predicate NodeEntry(at: seq<string>, c: Child, x: TrustInput) {
    match c.node
    case File(_, bytes) => HasMdExtension(c.name) && x == InputOf(at + [c.name], ClaimFile, bytes)
    case Dir(_, kids) => exists rel :: ClaimEntry(at + [c.name], kids, rel, x)
    case _ => false
  }

  lemma EntryInward(at: seq<string>, children: seq<Child>, rel: seq<string>, x: TrustInput)
    requires Proper(children) && children != [] && ClaimEntry(at, children, rel, x)
    ensures NodeEntry(at, children[0], x) || ClaimEntry(at, children[1..], rel, x)
  {
    ViewInTail(children, rel);
    if rel[0] == children[0].name {
      if |rel| == 1 { assert rel == [children[0].name]; } else { EntryBelow(at, children, rel, x); }
    }
  }

  lemma EntryBelow(at: seq<string>, children: seq<Child>, rel: seq<string>, x: TrustInput)
    requires Proper(children) && children != [] && ClaimEntry(at, children, rel, x) && |rel| > 1
      && rel[0] == children[0].name
    ensures NodeEntry(at, children[0], x)
  {
    var c := children[0];
    ViewInTail(children, rel);
    assert at + rel == (at + [c.name]) + rel[1..] && Last(rel) == Last(rel[1..]);
    assert ClaimEntry(at + [c.name], c.node.children, rel[1..], x);
  }

  lemma EntryOutward(at: seq<string>, children: seq<Child>, rel: seq<string>, x: TrustInput)
    requires Proper(children) && children != [] && ClaimEntry(at, children[1..], rel, x)
    ensures ClaimEntry(at, children, rel, x)
  {
    TailNames(children, rel);
    ViewInTail(children, rel);
  }

  lemma NodeOutward(at: seq<string>, children: seq<Child>, x: TrustInput) returns (rel: seq<string>)
    requires Proper(children) && children != [] && NodeEntry(at, children[0], x)
    ensures ClaimEntry(at, children, rel, x)
  {
    var c := children[0];
    if c.node.File? {
      rel := [c.name];
    } else {
      var sub :| ClaimEntry(at + [c.name], c.node.children, sub, x);
      rel := [c.name] + sub;
      assert rel[1..] == sub && Last(rel) == Last(sub) && at + rel == (at + [c.name]) + sub;
    }
    ViewInTail(children, rel);
  }

  lemma EntrySplits(at: seq<string>, children: seq<Child>, x: TrustInput)
    requires Proper(children) && children != []
    ensures (exists rel :: ClaimEntry(at, children, rel, x)) <==>
      NodeEntry(at, children[0], x) || exists rel :: ClaimEntry(at, children[1..], rel, x)
  {
    if rel :| ClaimEntry(at, children, rel, x) {
      EntryInward(at, children, rel, x);
    }
    if rel :| ClaimEntry(at, children[1..], rel, x) {
      EntryOutward(at, children, rel, x);
    }
    if NodeEntry(at, children[0], x) {
      var _ := NodeOutward(at, children, x);
    }
  }

  // ----- evidence -----

  predicate SourceKind(name: string, kind: Kind) {
    (name == "source.yaml" && kind == EvidenceMetadata) || (name == "raw" && kind == EvidenceRaw)
  }

  // Each source is a real entry; its two files, where present, are regular files.
  ghost predicate CleanEvidence(children: seq<Child>) {
    && (forall id :: !ViewAt(children, [id]).LinkView?)
    && (forall id, name, kind :: SourceKind(name, kind) ==>
          ViewAt(children, [id, name]).Missing? || ViewAt(children, [id, name]).FileView?)
  }

  ghost predicate EvidenceEntry(at: seq<string>, children: seq<Child>, id: string, name: string, kind: Kind,
                                x: TrustInput)
  {
    && SourceKind(name, kind) && ViewAt(children, [id, name]).FileView?
    && x == InputOf(at + [id, name], kind, ViewAt(children, [id, name]).bytes)
  }

  lemma ViewPair(children: seq<Child>, id: string, name: string)
    requires children != []
    ensures id != children[0].name ==>
      ViewAt(children, [id]) == ViewAt(children[1..], [id])
        && ViewAt(children, [id, name]) == ViewAt(children[1..], [id, name])
    ensures id == children[0].name ==>
      ViewAt(children, [id]) == ViewOf(children[0].node)
      && ViewAt(children, [id, name]) == (if children[0].node.Dir? then ViewAt(children[0].node.children, [name])
        else Missing)
  {
    assert [id, name][1..] == [name];
  }

  ghost predicate CleanSource(c: Child) {
    !c.node.Link? &&
    (c.node.Dir? ==> forall name, kind :: SourceKind(name, kind) ==>
       ViewAt(c.node.children, [name]).Missing? || ViewAt(c.node.children, [name]).FileView?)
  }

  lemma CleanEvidenceSplits(children: seq<Child>)
    requires Proper(children) && children != []
    ensures CleanEvidence(children) <==> CleanSource(children[0]) && CleanEvidence(children[1..])
  {
    var c, tail := children[0], children[1..];
    ProperTail(children);
    assert ViewAt(tail, [c.name]).Missing?;
    forall id, name ensures id == c.name ==> ViewAt(tail, [id, name]).Missing? {}
    forall id, name
      ensures ViewAt(children, [id]) == if id == c.name then ViewOf(c.node) else ViewAt(tail, [id])
      ensures ViewAt(children, [id, name]) ==
        if id == c.name then (if c.node.Dir? then ViewAt(c.node.children, [name]) else Missing)
          else ViewAt(tail, [id, name])
    {
      ViewPair(children, id, name);
    }
    if CleanEvidence(children) {
      forall name, kind | c.node.Dir? && SourceKind(name, kind)
        ensures ViewAt(c.node.children, [name]).Missing? || ViewAt(c.node.children, [name]).FileView?
      {
        assert ViewAt(children, [c.name, name]) == ViewAt(c.node.children, [name]);
      }
      assert !ViewAt(children, [c.name]).LinkView?;
    }
  }

  lemma SourceFileOk(at: seq<string>, kids: seq<Child>, name: string, kind: Kind)
    ensures SourceFile(at, kids, name, kind).Ok? <==> ViewAt(kids, [name]).Missing? || ViewAt(kids, [name]).FileView?
    ensures SourceFile(at, kids, name, kind).Ok? ==> forall x ::
      x in SourceFile(at, kids, name, kind).value <==>
        ViewAt(kids, [name]).FileView? && x == InputOf(at + [name], kind, ViewAt(kids, [name]).bytes)
  {
  }

  lemma {:induction false} WalkEvidenceOk(at: seq<string>, children: seq<Child>)
    requires Proper(children)
    ensures WalkEvidence(at, children).Ok? <==> CleanEvidence(children)
  {
    if children != [] {
      ProperTail(children);
      WalkEvidenceOk(at, children[1..]);
      CleanEvidenceSplits(children);
      var c := children[0];
      if c.node.Dir? {
        SourceFileOk(at + [c.name], c.node.children, "source.yaml", EvidenceMetadata);
        SourceFileOk(at + [c.name], c.node.children, "raw", EvidenceRaw);
        assert SourceKind("raw", EvidenceRaw) && SourceKind("source.yaml", EvidenceMetadata);
      }
    }
  }

  // The entry is a file of this very source directory.
  ghost predicate HeadEntry(at: seq<string>, c: Child, id: string, name: string, kind: Kind, x: TrustInput) {
    id == c.name && c.node.Dir? && SourceKind(name, kind) && ViewAt(c.node.children, [name]).FileView?
    && x == InputOf(at + [c.name] + [name], kind, ViewAt(c.node.children, [name]).bytes)
  }

  lemma EvidenceEntrySplits(at: seq<string>, children: seq<Child>, id: string, name: string, kind: Kind, x: TrustInput)
    requires Proper(children) && children != []
    ensures EvidenceEntry(at, children, id, name, kind, x) <==>
      EvidenceEntry(at, children[1..], id, name, kind, x) || HeadEntry(at, children[0], id, name, kind, x)
  {
    ProperTail(children);
    ViewPair(children, id, name);
    assert at + [id, name] == at + [id] + [name];
    assert id == children[0].name ==> ViewAt(children[1..], [id, name]).Missing?;
  }

  lemma {:induction false} WalkEvidenceEntries(at: seq<string>, children: seq<Child>, x: TrustInput)
    requires Proper(children) && WalkEvidence(at, children).Ok?
    ensures x in WalkEvidence(at, children).value <==>
      exists id, name, kind :: EvidenceEntry(at, children, id, name, kind, x)
  {
    if children != [] {
      ProperTail(children);
      var c, tail := children[0], children[1..];
      WalkEvidenceEntries(at, tail, x);
      if c.node.Dir? {
        SourceFileOk(at + [c.name], c.node.children, "source.yaml", EvidenceMetadata);
        SourceFileOk(at + [c.name], c.node.children, "raw", EvidenceRaw);
      }
      forall id, name, kind ensures EvidenceEntry(at, children, id, name, kind, x) <==>
        EvidenceEntry(at, tail, id, name, kind, x) || HeadEntry(at, c, id, name, kind, x)
      {
        EvidenceEntrySplits(at, children, id, name, kind, x);
      }
      if x in WalkEvidence(at, children).value && x !in WalkEvidence(at, tail).value {
        assert c.node.Dir?;
        if x in SourceFile(at + [c.name], c.node.children, "raw", EvidenceRaw).value {
          assert EvidenceEntry(at, children, c.name, "raw", EvidenceRaw, x);
        } else {
          assert EvidenceEntry(at, children, c.name, "source.yaml", EvidenceMetadata, x);
        }
      }
    }
  }
}
