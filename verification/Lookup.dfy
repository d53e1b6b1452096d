/** Finding the claims of one id: by their file name in each tier, or by reading every file
    of the wiki. */
module Lookup {
  import opened Wrappers
  import opened Ordering
  import opened Paths
  import opened Identifiers
  import opened TrustTree
  import opened Scan

  function FlatPath(tier: string, id: string): string { tier + "/" + id + ".md" }

  function FileAt(files: seq<WikiFile>, path: string): Option<WikiFile> {
    if files == [] then None
    else if files[0].path == path then Some(files[0])
    else FileAt(files[1..], path)
  }

  // The file of this name in each tier, if it is there; a file that is no claim is an error.
  function FlatOf(parser: Parser, files: seq<WikiFile>, id: string, tiers: seq<string>): Result<seq<Doc>> {
    if tiers == [] then Ok([])
    else
      var n := |tiers| - 1;
      match FlatOf(parser, files, id, tiers[..n])
      case Err => Err
      case Ok(docs) =>
        match FileAt(files, FlatPath(tiers[n], id))
        case None => Ok(docs)
        case Some(f) => if Parse(parser, f).Good? then Ok(docs + [Parse(parser, f).doc]) else Err
  }

  // Every file is read; one claim document that cannot be parsed fails the whole walk.
  function TreeOf(parser: Parser, files: seq<WikiFile>, id: string): Result<seq<Doc>> {
    if files == [] then Ok([])
    else
      var n := |files| - 1;
      match TreeOf(parser, files[..n], id)
      case Err => Err
      case Ok(docs) =>
        if !parser.isClaim(files[n].bytes) then Ok(docs)
        else if !Parse(parser, files[n]).Good? then Err
        else if Parse(parser, files[n]).doc.id == id then Ok(docs + [Parse(parser, files[n]).doc])
        else Ok(docs)
  }

  function Sorted(r: Result<seq<Doc>>): Result<seq<Doc>> {
    if r.Ok? then Ok(SortBy(r.value, DocPath)) else Err
  }

  method ReadFlat(parser: Parser, files: seq<WikiFile>, id: string) returns (r: Result<seq<Doc>>)
    ensures r == FlatOf(parser, files, id, TIERS)
  {
    var matches: seq<Doc> := [];
    for i := 0 to |TIERS|
      invariant FlatOf(parser, files, id, TIERS[..i]) == Ok(matches)
    {
      assert TIERS[..i + 1][..i] == TIERS[..i];
      FlatErrs(parser, files, id, TIERS, i + 1);
      match FileAt(files, FlatPath(TIERS[i], id))
      case None =>
      case Some(f) =>
        match Parse(parser, f)
        case Good(d) => matches := matches + [d];
        case _ => return Err;
    }
    assert TIERS[..|TIERS|] == TIERS;
    return Ok(matches);
  }

  lemma {:induction false} FlatErrs(parser: Parser, files: seq<WikiFile>, id: string, tiers: seq<string>, n: nat)
    requires n <= |tiers|
    ensures FlatOf(parser, files, id, tiers[..n]).Err? ==> FlatOf(parser, files, id, tiers).Err?
    decreases |tiers| - n
  {
    if n < |tiers| {
      assert tiers[..n + 1][..n] == tiers[..n];
      FlatErrs(parser, files, id, tiers, n + 1);
    } else {
      assert tiers[..n] == tiers;
    }
  }

  lemma {:induction false} TreeErrs(parser: Parser, files: seq<WikiFile>, id: string, n: nat)
    requires n <= |files|
    ensures TreeOf(parser, files[..n], id).Err? ==> TreeOf(parser, files, id).Err?
    decreases |files| - n
  {
    if n < |files| {
      assert files[..n + 1][..n] == files[..n];
      TreeErrs(parser, files, id, n + 1);
    } else {
      assert files[..n] == files;
    }
  }

  // A tier that is no directory, or has a directory in it.
  predicate NestedTier(tier: Node) {
    !tier.Dir? || exists i :: 0 <= i < |tier.children| && tier.children[i].node.Dir?
  }

  predicate Nested(wiki: seq<Child>) {
    exists tier :: tier in TIERS && Find(wiki, tier).Some? && NestedTier(Find(wiki, tier).value)
  }

  method WikiHasNestedDirectories(wiki: seq<Child>) returns (nested: bool)
    ensures nested <==> Nested(wiki)
  {
    for i := 0 to |TIERS|
      invariant forall k :: 0 <= k < i && Find(wiki, TIERS[k]).Some? ==> !NestedTier(Find(wiki, TIERS[k]).value)
    {
      var found := Find(wiki, TIERS[i]);
      if found.None? { continue; }
      if !found.value.Dir? { return true; }
      var children := found.value.children;
      for j := 0 to |children|
        invariant forall k :: 0 <= k < j ==> !children[k].node.Dir?
      {
        if children[j].node.Dir? { return true; }
      }
    }
    return false;
  }

  // So it is where a tier shows as something else than a directory, or shows one in it.
  lemma NestedExactly(wiki: seq<Child>)
    requires Proper(wiki)
    ensures Nested(wiki) <==> exists tier :: tier in TIERS && ShowsNesting(wiki, tier)
  {
    forall tier ensures (Find(wiki, tier).Some? && NestedTier(Find(wiki, tier).value)) <==> ShowsNesting(wiki, tier) {
      FindIs(wiki, tier);
      assert Resolve(wiki, [tier]) == Find(wiki, tier);
      if Find(wiki, tier).Some? && Find(wiki, tier).value.Dir? { NestedChild(wiki, tier); }
    }
  }

  ghost predicate ShowsNesting(wiki: seq<Child>, tier: string) {
    var v := ViewAt(wiki, [tier]);
    v.FileView? || v.LinkView? || v.SpecialView? || exists name :: ViewAt(wiki, [tier, name]).DirView?
  }

  lemma NestedChild(wiki: seq<Child>, tier: string)
    requires Proper(wiki) && Find(wiki, tier).Some? && Find(wiki, tier).value.Dir?
    ensures NestedTier(Find(wiki, tier).value) <==> exists name :: ViewAt(wiki, [tier, name]).DirView?
  {
    var kids := Find(wiki, tier).value.children;
    FindIs(wiki, tier);
    forall name
      ensures ViewAt(wiki, [tier, name]) == ViewAt(kids, [name]) && Resolve(kids, [name]) == Find(kids, name)
    {
      assert [tier, name][1..] == [name];
      FindIs(kids, name);
    }
    forall i | 0 <= i < |kids| ensures ViewAt(wiki, [tier, kids[i].name]) == ViewOf(kids[i].node) {
      FindFirst(kids, i);
    }
    forall name | ViewAt(wiki, [tier, name]).DirView? ensures NestedTier(Find(wiki, tier).value) { FindIs(kids, name); }
  }

  // The files are read one by one only where some tier is nested.
  method ReadCanonicalClaims(parser: Parser, wiki: seq<Child>, files: seq<WikiFile>, id: string)
    returns (r: Result<seq<Doc>>)
    ensures r == if IsClaimId(id) then
        (if !Nested(wiki) then Sorted(FlatOf(parser, files, id, TIERS))
         else if FlatOf(parser, files, id, TIERS).Err? then Err
         else Sorted(TreeOf(parser, files, id)))
      else Err
  {
    if !IsClaimId(id) { return Err; }
    var matches := ReadFlat(parser, files, id);
    if matches.Err? { return Err; }
    var nested := WikiHasNestedDirectories(wiki);
    if !nested { return Sorted(matches); }
    var found: seq<Doc> := [];
    for i := 0 to |files|
      invariant TreeOf(parser, files[..i], id) == Ok(found)
    {
      assert files[..i + 1][..i] == files[..i];
      TreeErrs(parser, files, id, i + 1);
      if !parser.isClaim(files[i].bytes) { continue; }
      match Parse(parser, files[i])
      case Good(d) => if d.id == id { found := found + [d]; }
      case _ => return Err;
    }
    assert files[..|files|] == files;
    return Sorted(Ok(found));
  }

  // ----- the paths -----

  lemma {:induction false} BaseOf(prefix: string, name: string)
    requires '/' !in name
    ensures Base(prefix + "/" + name) == name
  {
    var path := prefix + "/" + name;
    if name != "" {
      var n := |name| - 1;
      BaseOf(prefix, name[..n]);
      assert path[..|path| - 1] == prefix + "/" + name[..n];
      assert path[|path| - 1] == name[n];
      assert name == name[..n] + [name[n]];
    }
  }

  lemma FlatStem(tier: string, id: string)
    requires IsClaimId(id)
    ensures Stem(FlatPath(tier, id)) == id
  {
    var name := id + ".md";
    assert '/' !in name by {
      assert id[..4] == "clm_";
      forall i | 0 <= i < |name| ensures name[i] != '/' {
        if i < 4 { assert name[i] == id[..4][i]; }
      }
    }
    BaseOf(tier, name);
    assert FlatPath(tier, id) == tier + "/" + name;
    assert name[|name| - 3..] == ".md" && name[..|name| - 3] == id;
  }

  lemma FlatPathsDistinct(a: string, b: string, id: string)
    ensures FlatPath(a, id) == FlatPath(b, id) ==> a == b
  {
    var p, q := FlatPath(a, id), FlatPath(b, id);
    if p == q {
      assert |a| == |b|;
      assert p[..|a|] == a && q[..|b|] == b;
    }
  }

  // ----- both ways find the same claims -----

  // Only a claim document parses as a claim.
  ghost predicate OnlyClaimsParse(parser: Parser) {
    forall tier, path, bytes :: parser.document(tier, path, bytes).Good? ==> parser.isClaim(bytes)
  }

  ghost predicate HoldsClaim(parser: Parser, f: WikiFile, d: Doc) {
    parser.isClaim(f.bytes) && Parse(parser, f) == Good(d)
  }

  ghost predicate AtTier(files: seq<WikiFile>, tier: string, id: string, f: WikiFile) {
    FileAt(files, FlatPath(tier, id)) == Some(f)
  }

  lemma {:induction false} FileAtIs(files: seq<WikiFile>, path: string, f: WikiFile)
    requires DistinctBy(files, FilePath)
    ensures FileAt(files, path) == Some(f) <==> f in files && f.path == path
  {
    if files != [] {
      var tail := files[1..];
      assert DistinctBy(tail, FilePath);
      FileAtIs(tail, path, f);
      assert files == [files[0]] + tail;
      HeadApart(files, f);
    }
  }

  lemma HeadApart(files: seq<WikiFile>, f: WikiFile)
    requires DistinctBy(files, FilePath) && files != []
    ensures f in files[1..] ==> f.path != files[0].path
  {
  }

  // A file named after the id that parses holds the claim of this id.
  lemma FlatHolds(parser: Parser, f: WikiFile, tier: string, id: string)
    requires IsClaimId(id) && OnlyClaimsParse(parser) && f.path == FlatPath(tier, id) && Parse(parser, f).Good?
    ensures HoldsClaim(parser, f, Parse(parser, f).doc)
    ensures Parse(parser, f).doc.id == id && Parse(parser, f).doc.path == f.path
  {
    FlatStem(tier, id);
  }

  ghost predicate InTier(parser: Parser, files: seq<WikiFile>, tier: string, id: string, d: Doc) {
    exists f :: AtTier(files, tier, id, f) && HoldsClaim(parser, f, d)
  }

  // What the last tier adds.
  lemma FlatLast(parser: Parser, files: seq<WikiFile>, id: string, tiers: seq<string>, d: Doc)
    requires DistinctBy(files, FilePath) && IsClaimId(id) && OnlyClaimsParse(parser)
      && FlatOf(parser, files, id, tiers).Ok?
    requires tiers != []
    ensures var n := |tiers| - 1;
      && FlatOf(parser, files, id, tiers[..n]).Ok?
      && (d in FlatOf(parser, files, id, tiers).value <==>
            d in FlatOf(parser, files, id, tiers[..n]).value || InTier(parser, files, tiers[n], id, d))
  {
    var n := |tiers| - 1;
    match FileAt(files, FlatPath(tiers[n], id))
    case None =>
    case Some(f) =>
      FileAtIs(files, FlatPath(tiers[n], id), f);
      FlatHolds(parser, f, tiers[n], id);
      assert AtTier(files, tiers[n], id, f);
  }

  lemma {:induction false} FlatMembers(parser: Parser, files: seq<WikiFile>, id: string, tiers: seq<string>, d: Doc)
    requires DistinctBy(files, FilePath) && IsClaimId(id) && OnlyClaimsParse(parser)
      && FlatOf(parser, files, id, tiers).Ok?
    ensures d in FlatOf(parser, files, id, tiers).value <==>
      exists tier :: tier in tiers && InTier(parser, files, tier, id, d)
  {
    if tiers != [] {
      FlatLast(parser, files, id, tiers, d);
      FlatMembers(parser, files, id, tiers[..|tiers| - 1], d);
      SomeTier(parser, files, id, tiers, d);
    }
  }

  lemma SomeTier(parser: Parser, files: seq<WikiFile>, id: string, tiers: seq<string>, d: Doc)
    requires tiers != []
    ensures (exists tier :: tier in tiers && InTier(parser, files, tier, id, d)) <==>
      (exists tier :: tier in tiers[..|tiers| - 1] && InTier(parser, files, tier, id, d))
      || InTier(parser, files, tiers[|tiers| - 1], id, d)
  {
    assert tiers == tiers[..|tiers| - 1] + [tiers[|tiers| - 1]];
  }

  lemma {:induction false} FlatDistinct(parser: Parser, files: seq<WikiFile>, id: string, tiers: seq<string>)
    requires DistinctBy(files, FilePath) && IsClaimId(id) && OnlyClaimsParse(parser)
      && FlatOf(parser, files, id, tiers).Ok?
    requires DistinctBy(tiers, Self)
    ensures DistinctBy(FlatOf(parser, files, id, tiers).value, DocPath)
  {
    if tiers != [] {
      var n := |tiers| - 1;
      DistinctInit(tiers, Self);
      FlatDistinct(parser, files, id, tiers[..n]);
      var docs := FlatOf(parser, files, id, tiers[..n]).value;
      forall i | 0 <= i < |docs| ensures docs[i].path != FlatPath(tiers[n], id) {
        FlatMembers(parser, files, id, tiers[..n], docs[i]);
        var tier :| tier in tiers[..n] && InTier(parser, files, tier, id, docs[i]);
        var f :| AtTier(files, tier, id, f) && HoldsClaim(parser, f, docs[i]);
        FileAtIs(files, FlatPath(tier, id), f);
        FlatPathsDistinct(tier, tiers[n], id);
        var k :| 0 <= k < n && tiers[..n][k] == tier;
        DistinctIndices(tiers, Self, k, n);
      }
      match FileAt(files, FlatPath(tiers[n], id))
      case None =>
      case Some(f) => FileAtIs(files, FlatPath(tiers[n], id), f);
    }
  }

  lemma {:induction false} TreeMembers(parser: Parser, files: seq<WikiFile>, id: string, d: Doc)
    requires TreeOf(parser, files, id).Ok?
    ensures d in TreeOf(parser, files, id).value <==> d.id == id && exists f :: f in files && HoldsClaim(parser, f, d)
  {
    if files != [] {
      var n := |files| - 1;
      TreeMembers(parser, files[..n], id, d);
      assert files == files[..n] + [files[n]];
      assert files[n] in files;
    }
  }

  lemma {:induction false} TreeDistinct(parser: Parser, files: seq<WikiFile>, id: string)
    requires DistinctBy(files, FilePath) && TreeOf(parser, files, id).Ok?
    ensures DistinctBy(TreeOf(parser, files, id).value, DocPath)
  {
    if files != [] {
      var n := |files| - 1;
      DistinctInit(files, FilePath);
      TreeDistinct(parser, files[..n], id);
      var docs := TreeOf(parser, files[..n], id).value;
      forall i | 0 <= i < |docs| ensures docs[i].path != files[n].path {
        TreeMembers(parser, files[..n], id, docs[i]);
        var f :| f in files[..n] && HoldsClaim(parser, f, docs[i]);
        var k :| 0 <= k < n && files[..n][k] == f;
        DistinctIndices(files, FilePath, k, n);
      }
    }
  }

  // Every claim of this id lies in a tier under its own name.
  ghost predicate AllFlat(parser: Parser, files: seq<WikiFile>, id: string) {
    forall f, d :: f in files && HoldsClaim(parser, f, d) && d.id == id ==>
      exists tier :: tier in TIERS && f.path == FlatPath(tier, id)
  }

  // When both lookups go through, they agree exactly when every claim of this id lies in a
  // tier under its own name.
  lemma FlatAgreesWithTree(parser: Parser, files: seq<WikiFile>, id: string)
    requires DistinctBy(files, FilePath) && IsClaimId(id) && OnlyClaimsParse(parser)
    requires FlatOf(parser, files, id, TIERS).Ok? && TreeOf(parser, files, id).Ok?
    ensures Sorted(FlatOf(parser, files, id, TIERS)) == Sorted(TreeOf(parser, files, id)) <==>
      AllFlat(parser, files, id)
  {
    var flat, tree := FlatOf(parser, files, id, TIERS).value, TreeOf(parser, files, id).value;
    forall d ensures d in SortBy(flat, DocPath) <==> d in flat { SortMembers(flat, DocPath, d); }
    forall d ensures d in SortBy(tree, DocPath) <==> d in tree { SortMembers(tree, DocPath, d); }
    forall d ensures d in flat ==> d in tree { FlatInTree(parser, files, id, d); }
    if AllFlat(parser, files, id) {
      forall d ensures d in tree ==> d in flat { TreeInFlat(parser, files, id, d); }
      TiersDistinct();
      FlatDistinct(parser, files, id, TIERS);
      TreeDistinct(parser, files, id);
      SortStrict(flat, DocPath);
      SortStrict(tree, DocPath);
      StrictUnique(SortBy(flat, DocPath), SortBy(tree, DocPath), DocPath);
    } else if SortBy(flat, DocPath) == SortBy(tree, DocPath) {
      forall f, d | f in files && HoldsClaim(parser, f, d) && d.id == id
        ensures exists tier :: tier in TIERS && f.path == FlatPath(tier, id)
      {
        TreeMembers(parser, files, id, d);
        FlatAt(parser, files, id, f, d);
      }
    }
  }

  lemma TiersDistinct()
    ensures DistinctBy(TIERS, Self)
  {
  }

  lemma FlatInTree(parser: Parser, files: seq<WikiFile>, id: string, d: Doc)
    requires DistinctBy(files, FilePath) && IsClaimId(id) && OnlyClaimsParse(parser)
    requires FlatOf(parser, files, id, TIERS).Ok? && TreeOf(parser, files, id).Ok?
    ensures d in FlatOf(parser, files, id, TIERS).value ==> d in TreeOf(parser, files, id).value
  {
    FlatMembers(parser, files, id, TIERS, d);
    TreeMembers(parser, files, id, d);
    if tier :| tier in TIERS && InTier(parser, files, tier, id, d) {
      var f :| AtTier(files, tier, id, f) && HoldsClaim(parser, f, d);
      FileAtIs(files, FlatPath(tier, id), f);
      FlatHolds(parser, f, tier, id);
    }
  }

  lemma TreeInFlat(parser: Parser, files: seq<WikiFile>, id: string, d: Doc)
    requires DistinctBy(files, FilePath) && IsClaimId(id) && OnlyClaimsParse(parser) && AllFlat(parser, files, id)
    requires FlatOf(parser, files, id, TIERS).Ok? && TreeOf(parser, files, id).Ok?
    ensures d in TreeOf(parser, files, id).value ==> d in FlatOf(parser, files, id, TIERS).value
  {
    FlatMembers(parser, files, id, TIERS, d);
    TreeMembers(parser, files, id, d);
    if f :| d.id == id && f in files && HoldsClaim(parser, f, d) {
      var tier :| tier in TIERS && f.path == FlatPath(tier, id);
      FileAtIs(files, FlatPath(tier, id), f);
      assert AtTier(files, tier, id, f);
    }
  }

  // A document the flat lookup returns was read from a file of this name.
  lemma FlatAt(parser: Parser, files: seq<WikiFile>, id: string, f: WikiFile, d: Doc)
    requires DistinctBy(files, FilePath) && IsClaimId(id) && OnlyClaimsParse(parser)
    requires FlatOf(parser, files, id, TIERS).Ok? && d in FlatOf(parser, files, id, TIERS).value
      && HoldsClaim(parser, f, d)
    ensures exists tier :: tier in TIERS && f.path == FlatPath(tier, id)
  {
    FlatMembers(parser, files, id, TIERS, d);
    var tier :| tier in TIERS && InTier(parser, files, tier, id, d);
    var g :| AtTier(files, tier, id, g) && HoldsClaim(parser, g, d);
    FileAtIs(files, FlatPath(tier, id), g);
    assert d.path == f.path && d.path == g.path;
  }

  // Every file was read from the wiki.
  ghost predicate WalkedFrom(wiki: seq<Child>, files: seq<WikiFile>) {
    forall f :: f in files ==> ViewAt(wiki, Split(f.path)).FileView? && HasMdExtension(Base(f.path))
  }

  // Claim files lie below a tier and are named after some claim id.
  ghost predicate NamedAfterIds(parser: Parser, files: seq<WikiFile>) {
    forall f :: f in files && parser.isClaim(f.bytes) ==>
      |Split(f.path)| >= 2 && Split(f.path)[0] in TIERS && IsClaimId(Stem(f.path))
  }

  // A file deeper below a tier than in it needs a directory there.
  lemma DeepIsNested(wiki: seq<Child>, parts: seq<string>)
    requires Proper(wiki) && |parts| > 2 && parts[0] in TIERS && ViewAt(wiki, parts).FileView?
    ensures Nested(wiki)
  {
    var tier := Find(wiki, parts[0]).value;
    var rest := parts[1..];
    FindIs(wiki, parts[0]);
    assert Resolve(wiki, parts) == Resolve(tier.children, rest);
    FindIs(tier.children, rest[0]);
    assert NestedTier(tier);
  }

  lemma SplitPair(path: string)
    requires |Split(path)| == 2
    ensures path == Split(path)[0] + "/" + Split(path)[1] && '/' !in Split(path)[1]
  {
    var n := Slash(path);
    var rest := path[n + 1..];
    assert Split(path) == [path[..n]] + Split(rest);
    assert Slash(rest) == |rest| && rest[..|rest|] == rest;
  }

  // In such a wiki, where the program looks no further than the tiers, the check of the path
  // id makes this so: no claim of the id is missed.
  lemma NamedFilesAreFlat(parser: Parser, wiki: seq<Child>, files: seq<WikiFile>, id: string)
    requires Proper(wiki) && !Nested(wiki) && WalkedFrom(wiki, files)
    requires IsClaimId(id) && NamedAfterIds(parser, files)
    ensures AllFlat(parser, files, id)
  {
    forall f, d | f in files && HoldsClaim(parser, f, d) && d.id == id
      ensures exists tier :: tier in TIERS && f.path == FlatPath(tier, id)
    {
      if |Split(f.path)| > 2 { DeepIsNested(wiki, Split(f.path)); }
      FlatName(f.path);
      ParsedNames(parser, f, d);
      assert f.path == FlatPath(Split(f.path)[0], id);
    }
  }

  lemma FlatName(path: string)
    requires |Split(path)| == 2 && HasMdExtension(Base(path))
    ensures path == FlatPath(Split(path)[0], Stem(path))
  {
    SplitPair(path);
    BaseOf(Split(path)[0], Split(path)[1]);
    MdName(Base(path));
    FlatJoins(Split(path)[0], Stem(path));
  }

  lemma MdName(name: string)
    requires HasMdExtension(name)
    ensures StripMd(name) + ".md" == name
  {
  }

  lemma FlatJoins(tier: string, stem: string)
    ensures tier + "/" + (stem + ".md") == FlatPath(tier, stem)
  {
  }

  // The flat lookup fails where the walk does not exactly when a file named after the id is
  // not a claim document.
  lemma {:induction false} FlatGoesThrough(parser: Parser, files: seq<WikiFile>, id: string, tiers: seq<string>)
    requires DistinctBy(files, FilePath) && OnlyClaimsParse(parser) && TreeOf(parser, files, id).Ok?
    ensures FlatOf(parser, files, id, tiers).Ok? <==>
      forall tier, f :: tier in tiers && AtTier(files, tier, id, f) ==> parser.isClaim(f.bytes)
  {
    if tiers != [] {
      var n := |tiers| - 1;
      FlatGoesThrough(parser, files, id, tiers[..n]);
      assert tiers == tiers[..n] + [tiers[n]];
      match FileAt(files, FlatPath(tiers[n], id))
      case None =>
      case Some(f) =>
        assert AtTier(files, tiers[n], id, f);
        FileAtIs(files, FlatPath(tiers[n], id), f);
        if parser.isClaim(f.bytes) { TreeParses(parser, files, id, f); }
    }
  }

  // The walk goes through exactly when every claim document can be parsed.
  lemma {:induction false} TreeGoesThrough(parser: Parser, files: seq<WikiFile>, id: string)
    ensures TreeOf(parser, files, id).Ok? <==>
      forall f :: f in files && parser.isClaim(f.bytes) ==> Parse(parser, f).Good?
  {
    if files != [] {
      var n := |files| - 1;
      TreeGoesThrough(parser, files[..n], id);
      assert files == files[..n] + [files[n]] && files[n] in files;
    }
  }

  // The flat lookup goes through exactly when every file named after the id can be parsed.
  lemma {:induction false} FlatOkExactly(parser: Parser, files: seq<WikiFile>, id: string, tiers: seq<string>)
    ensures FlatOf(parser, files, id, tiers).Ok? <==>
      forall tier :: tier in tiers ==> TierParses(parser, files, id, tier)
  {
    if tiers != [] {
      var n := |tiers| - 1;
      FlatOkExactly(parser, files, id, tiers[..n]);
      LastTier(parser, files, id, tiers);
    }
  }

  lemma LastTier(parser: Parser, files: seq<WikiFile>, id: string, tiers: seq<string>)
    requires tiers != []
    ensures (forall tier :: tier in tiers ==> TierParses(parser, files, id, tier)) <==>
      && (forall tier :: tier in tiers[..|tiers| - 1] ==> TierParses(parser, files, id, tier))
      && TierParses(parser, files, id, tiers[|tiers| - 1])
  {
    assert tiers == tiers[..|tiers| - 1] + [tiers[|tiers| - 1]];
  }

  predicate TierParses(parser: Parser, files: seq<WikiFile>, id: string, tier: string) {
    match FileAt(files, FlatPath(tier, id))
    case None => true
    case Some(f) => Parse(parser, f).Good?
  }

  lemma {:induction false} TreeParses(parser: Parser, files: seq<WikiFile>, id: string, f: WikiFile)
    requires TreeOf(parser, files, id).Ok? && f in files && parser.isClaim(f.bytes)
    ensures Parse(parser, f).Good?
  {
    var n := |files| - 1;
    assert files == files[..n] + [files[n]];
    if f != files[n] { TreeParses(parser, files[..n], id, f); }
  }

  // ----- where the two lookups differ -----

  // A parser for which every file that is not empty holds the claim of one id.
  function OneClaim(id: string): Parser {
    Parser((bytes: string) => bytes != "",
           (tier: string, path: string, bytes: string) => if bytes != "" then Good(Doc(id, path, bytes)) else NoClaim)
  }

  lemma OtherParses(id: string, f: WikiFile)
    requires !IsClaimId(Stem(f.path)) && f.bytes != ""
    ensures Parse(OneClaim(id), f) == Good(Doc(id, f.path, f.bytes))
  {
  }

  // A claim under any name that is no claim id is missed by the flat lookup alone.
  lemma OtherNameMissed(id: string, f: WikiFile)
    requires IsClaimId(id) && !IsClaimId(Stem(f.path)) && f.bytes != ""
    ensures OnlyClaimsParse(OneClaim(id)) && DistinctBy([f], FilePath)
    ensures FlatOf(OneClaim(id), [f], id, TIERS) == Ok([])
    ensures TreeOf(OneClaim(id), [f], id) == Ok([Doc(id, f.path, f.bytes)])
  {
    forall tier ensures FileAt([f], FlatPath(tier, id)).None? {
      FlatStem(tier, id);
      NotTheOne(f, FlatPath(tier, id));
    }
    FlatNone(OneClaim(id), [f], id, TIERS);
    OtherParses(id, f);
    TreeOfOne(OneClaim(id), f, id);
  }

  lemma OtherStem()
    ensures !IsClaimId(Stem("axioms" + "/" + "other.md"))
  {
    BaseOf("axioms", "other.md");
  }

  // One such file.
  lemma OtherFileMissed(id: string)
    requires IsClaimId(id)
    ensures var f := WikiFile("axioms" + "/" + "other.md", "claim");
      FlatOf(OneClaim(id), [f], id, TIERS) == Ok([]) && TreeOf(OneClaim(id), [f], id) == Ok([Doc(id, f.path, f.bytes)])
  {
    var f := WikiFile("axioms" + "/" + "other.md", "claim");
    OtherStem();
    OtherNameMissed(id, f);
  }

  lemma NotTheOne(f: WikiFile, path: string)
    requires f.path != path
    ensures FileAt([f], path).None?
  {
    assert [f][1..] == [];
  }

  lemma TreeOfOne(parser: Parser, f: WikiFile, id: string)
    ensures TreeOf(parser, [f], id) ==
      if !parser.isClaim(f.bytes) then Ok([])
      else if !Parse(parser, f).Good? then Err
      else Ok(if Parse(parser, f).doc.id == id then [Parse(parser, f).doc] else [])
  {
    assert [f][..0] == [] && TreeOf(parser, [], id) == Ok([]);
    if Parse(parser, f).Good? { assert [] + [Parse(parser, f).doc] == [Parse(parser, f).doc]; }
  }

  lemma {:induction false} FlatNone(parser: Parser, files: seq<WikiFile>, id: string, tiers: seq<string>)
    requires forall tier :: FileAt(files, FlatPath(tier, id)).None?
    ensures FlatOf(parser, files, id, tiers) == Ok([])
  {
    if tiers != [] { FlatNone(parser, files, id, tiers[..|tiers| - 1]); }
  }

  // A file named after the id that holds no claim stops the flat lookup alone.
  lemma ForeignFileStops(id: string)
    ensures var parser, files := OneClaim(id), [WikiFile(FlatPath("axioms", id), "")];
      && OnlyClaimsParse(parser) && DistinctBy(files, FilePath)
      && FlatOf(parser, files, id, TIERS).Err?
      && TreeOf(parser, files, id) == Ok([])
  {
    var parser, files := OneClaim(id), [WikiFile(FlatPath("axioms", id), "")];
    assert TIERS[..1][..0] == [] && TIERS[..1][0] == "axioms";
    assert FlatOf(parser, files, id, TIERS[..1]).Err?;
    FlatErrs(parser, files, id, TIERS, 1);
    TreeOfOne(parser, files[0], id);
  }
}
