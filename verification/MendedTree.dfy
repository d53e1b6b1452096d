/** A workspace tree in which every tier that is no directory is replaced by one. */
module MendedTree {
  import opened Wrappers
  import opened Paths
  import opened TrustTree
  import opened TrustManifest
  import opened Freshness

  const NoToken: Stamp := Stamp(0, UNAVAILABLE)
  const SomeToken: Stamp := Stamp(0, 1)

  // The same tree, with a token for every file.
  function Restamped(children: seq<Child>): seq<Child>
    decreases children
  {
    if children == [] then []
    else
      var c := children[0];
      var node :=
        match c.node
        case Dir(stamp, kids) => Dir(stamp, Restamped(kids))
        case File(_, bytes) => File(SomeToken, bytes)
        case other => other;
      [Child(c.name, node)] + Restamped(children[1..])
  }

  function RestampedNode(n: Node): Node {
    match n
    case Dir(stamp, kids) => Dir(stamp, Restamped(kids))
    case File(_, bytes) => File(SomeToken, bytes)
    case other => other
  }

  function RestampedView(v: View): View {
    if v.FileView? then FileView(SomeToken, v.bytes) else v
  }

  // The same names with other nodes.
  function Renewed(children: seq<Child>, f: Child -> Node): seq<Child> {
    if children == [] then [] else [Child(children[0].name, f(children[0]))] + Renewed(children[1..], f)
  }

  function MendedTier(kids: seq<Child>): Child -> Node {
    (c: Child) => if c.name in TIERS && !c.node.Dir? then Dir(NoToken, kids) else RestampedNode(c.node)
  }

  function MendedTop(kids: seq<Child>): Child -> Node {
    (c: Child) =>
      if c.name == "wiki" && c.node.Dir? then Dir(NoToken, Renewed(c.node.children, MendedTier(kids)))
        else RestampedNode(c.node)
  }

  // Each tier that is something other than a directory becomes one that holds `kids`; the wiki
  // directory, which lists the tiers, loses its token.
  function Mended(root: seq<Child>, kids: seq<Child>): seq<Child> { Renewed(root, MendedTop(kids)) }

  lemma {:induction false} RenewedFind(children: seq<Child>, f: Child -> Node, name: string)
    ensures Find(Renewed(children, f), name) ==
      match Find(children, name) case None => None case Some(n) => Some(f(Child(name, n)))
  {
    if children != [] { RenewedFind(children[1..], f, name); }
  }

  lemma {:induction false} RestampedFind(children: seq<Child>, name: string)
    ensures Find(Restamped(children), name) ==
      match Find(children, name) case None => None case Some(n) => Some(RestampedNode(n))
  {
    if children != [] { RestampedFind(children[1..], name); }
  }

  lemma OneStep(children: seq<Child>, parts: seq<string>)
    requires parts != []
    ensures ViewAt(children, parts) ==
      match Find(children, parts[0])
      case None => Missing
      case Some(n) => ViewUnder(n, parts[1..])
  {
  }

  lemma {:induction false} RestampedShows(children: seq<Child>, parts: seq<string>)
    ensures ViewAt(Restamped(children), parts) == RestampedView(ViewAt(children, parts))
    decreases |parts|
  {
    if parts != [] {
      OneStep(children, parts);
      OneStep(Restamped(children), parts);
      RestampedFind(children, parts[0]);
      if n :| Find(children, parts[0]) == Some(n) && n.Dir? { RestampedShows(n.children, parts[1..]); }
    }
  }

  lemma RestampedUnder(n: Node, rel: seq<string>)
    ensures ViewUnder(RestampedNode(n), rel) == RestampedView(ViewUnder(n, rel))
  {
    if n.Dir? { RestampedShows(n.children, rel); }
  }

  // A path in a tier that was put in place.
  ghost predicate InMended(root: seq<Child>, parts: seq<string>) {
    && TierPath(parts)
    && !ViewAt(root, ["wiki", parts[1]]).Missing? && !ViewAt(root, ["wiki", parts[1]]).DirView?
  }

  lemma TierNode(root: seq<Child>, parts: seq<string>, wiki: Node)
    requires |parts| >= 2 && parts[0] == "wiki" && Find(root, "wiki") == Some(wiki) && wiki.Dir?
    ensures var found := Find(wiki.children, parts[1]);
      && ViewAt(root, ["wiki", parts[1]]) == (if found.None? then Missing else ViewOf(found.value))
      && ViewAt(root, parts) == (if found.None? then Missing else ViewUnder(found.value, parts[2..]))
  {
    var at := ["wiki", parts[1]];
    OneStep(root, at);
    OneStep(wiki.children, at[1..]);
    OneStep(root, parts);
    OneStep(wiki.children, parts[1..]);
    assert parts[1..][1..] == parts[2..];
  }

  lemma MendedWiki(root: seq<Child>, kids: seq<Child>, parts: seq<string>)
    requires |parts| >= 2 && parts[0] == "wiki"
    ensures ViewAt(Mended(root, kids), parts) ==
      if InMended(root, parts) then ViewUnder(Dir(NoToken, kids), parts[2..]) else RestampedView(ViewAt(root, parts))
  {
    RenewedFind(root, MendedTop(kids), "wiki");
    if wiki :| Find(root, "wiki") == Some(wiki) && wiki.Dir? {
      TierNode(root, parts, wiki);
      TierNode(Mended(root, kids), parts, Dir(NoToken, Renewed(wiki.children, MendedTier(kids))));
      RenewedFind(wiki.children, MendedTier(kids), parts[1]);
      if n :| Find(wiki.children, parts[1]) == Some(n) { RestampedUnder(n, parts[2..]); }
    } else {
      OneStep(root, parts);
      OneStep(root, ["wiki", parts[1]]);
      OneStep(Mended(root, kids), parts);
    }
  }

  // What the mended tree shows: directories as before, files as before but for their stamps,
  // and `kids` in the tiers that were put in place.
  lemma MendedShows(root: seq<Child>, kids: seq<Child>, parts: seq<string>)
    ensures InMended(root, parts) ==> ViewAt(Mended(root, kids), parts) == ViewUnder(Dir(NoToken, kids), parts[2..])
    ensures !InMended(root, parts) ==>
      ViewAt(Mended(root, kids), parts) ==
        if parts == ["wiki"] && ViewAt(root, parts).DirView? then DirView(NoToken)
          else RestampedView(ViewAt(root, parts))
  {
    if |parts| >= 2 && parts[0] == "wiki" {
      MendedWiki(root, kids, parts);
    } else if parts != [] {
      OneStep(root, parts);
      OneStep(Mended(root, kids), parts);
      RenewedFind(root, MendedTop(kids), parts[0]);
      if n :| Find(root, parts[0]) == Some(n) { RestampedUnder(n, parts[1..]); }
      if parts[0] == "wiki" { assert parts == ["wiki"]; }
    }
  }

  lemma MendedSources(root: seq<Child>, kids: seq<Child>)
    requires CleanSources(root)
    ensures CleanSources(Mended(root, kids))
  {
    var mended := Mended(root, kids);
    MendedShows(root, kids, ["evidence", "sources"]);
    forall id ensures !ViewAt(mended, ["evidence", "sources", id]).LinkView? {
      MendedShows(root, kids, ["evidence", "sources", id]);
      assert !ViewAt(root, ["evidence", "sources", id]).LinkView?;
    }
    forall id, name, kind | SourceKind(name, kind)
      ensures var v := ViewAt(mended, ["evidence", "sources", id, name]); v.Missing? || v.FileView?
    {
      MendedShows(root, kids, ["evidence", "sources", id, name]);
      var v := ViewAt(root, ["evidence", "sources", id, name]);
      assert v.Missing? || v.FileView?;
    }
  }

  // ----- names stay proper -----

  lemma ProperCons(c: Child, tail: seq<Child>)
    requires Part(c.name) && (c.node.Dir? ==> Proper(c.node.children)) && Proper(tail)
    requires forall i :: 0 <= i < |tail| ==> tail[i].name != c.name
    ensures Proper([c] + tail)
  {
  }

  lemma {:induction false} RenewedNames(children: seq<Child>, f: Child -> Node)
    ensures |Renewed(children, f)| == |children|
    ensures forall i :: 0 <= i < |children| ==> Renewed(children, f)[i].name == children[i].name
  {
    if children != [] { RenewedNames(children[1..], f); }
  }

  lemma {:induction false} RenewedProper(children: seq<Child>, f: Child -> Node)
    requires Proper(children)
    requires forall c :: c in children && f(c).Dir? ==> Proper(f(c).children)
    ensures Proper(Renewed(children, f))
  {
    if children != [] {
      TailApart(children);
      RenewedProper(children[1..], f);
      RenewedNames(children[1..], f);
      forall i | 0 <= i < |children[1..]| ensures children[1..][i].name in Names(children[1..]) {}
      ProperCons(Child(children[0].name, f(children[0])), Renewed(children[1..], f));
    }
  }

  lemma {:induction false} RestampedProper(children: seq<Child>)
    requires Proper(children)
    ensures Proper(Restamped(children)) && Names(Restamped(children)) == Names(children)
    decreases children
  {
    if children != [] {
      var c, tail := children[0], children[1..];
      TailApart(children);
      RestampedProper(tail);
      if c.node.Dir? { RestampedProper(c.node.children); }
      forall i | 0 <= i < |Restamped(tail)| ensures Restamped(tail)[i].name != c.name {
        assert Restamped(tail)[i].name in Names(Restamped(tail));
      }
      ProperCons(Restamped(children)[0], Restamped(tail));
      NamesCons(children);
      NamesCons(Restamped(children));
      assert Restamped(children)[1..] == Restamped(tail);
    }
  }

  lemma NamesCons(children: seq<Child>)
    requires children != []
    ensures Names(children) == {children[0].name} + Names(children[1..])
  {
    var tail := children[1..];
    forall x | x in Names(children) ensures x in {children[0].name} + Names(tail) {
      var i :| 0 <= i < |children| && children[i].name == x;
      if i > 0 { assert tail[i - 1].name == x; }
    }
    forall x | x in Names(tail) ensures x in Names(children) {
      var i :| 0 <= i < |tail| && tail[i].name == x;
      assert children[i + 1].name == x;
    }
  }

  lemma MendedProper(root: seq<Child>, kids: seq<Child>)
    requires Proper(root) && Proper(kids)
    ensures Proper(Mended(root, kids))
  {
    forall c | c in root && MendedTop(kids)(c).Dir? ensures Proper(MendedTop(kids)(c).children) {
      if c.name == "wiki" {
        WikiProper(c.node.children, kids);
      } else {
        RestampedProper(c.node.children);
      }
    }
    RenewedProper(root, MendedTop(kids));
  }

  lemma WikiProper(wiki: seq<Child>, kids: seq<Child>)
    requires Proper(wiki) && Proper(kids)
    ensures Proper(Renewed(wiki, MendedTier(kids)))
  {
    forall c | c in wiki && MendedTier(kids)(c).Dir? ensures Proper(MendedTier(kids)(c).children) {
      if c.node.Dir? { RestampedProper(c.node.children); }
    }
    RenewedProper(wiki, MendedTier(kids));
  }

  // ----- a tree in which no tier is a directory -----

  // Regular files stand where the tiers should be, and there is no evidence.
  const Wiki: seq<Child> := [
    Child("axioms", File(SomeToken, "")), Child("mental-models", File(SomeToken, "")),
    Child("projects", File(SomeToken, "")), Child("decisions", File(SomeToken, ""))]
  const Evidence: seq<Child> := [Child("sources", Dir(SomeToken, []))]
  const TiersAreFiles: seq<Child> := [Child("wiki", Dir(SomeToken, Wiki)), Child("evidence", Dir(SomeToken, Evidence))]

  lemma FindInTail(children: seq<Child>, name: string)
    requires children != []
    ensures Find(children, name) == if children[0].name == name then Some(children[0].node)
      else Find(children[1..], name)
  {
  }

  lemma WikiFinds(name: string)
    ensures Find(Wiki, name) == if name in TIERS then Some(File(SomeToken, "")) else None
  {
    FindInTail(Wiki, name);
    FindInTail(Wiki[1..], name);
    FindInTail(Wiki[1..][1..], name);
    FindInTail(Wiki[1..][1..][1..], name);
    assert Find(Wiki[1..][1..][1..][1..], name) == None;
  }

  lemma TopFinds()
    ensures Find(TiersAreFiles, "wiki") == Some(Dir(SomeToken, Wiki))
    ensures Find(TiersAreFiles, "evidence") == Some(Dir(SomeToken, Evidence))
    ensures Find(Evidence, "sources") == Some(Dir(SomeToken, []))
  {
    FindInTail(TiersAreFiles, "wiki");
    FindInTail(TiersAreFiles, "evidence");
    FindInTail(TiersAreFiles[1..], "evidence");
    FindInTail(Evidence, "sources");
  }

  lemma TierAt(tier: string)
    requires tier in TIERS
    ensures Resolve(TiersAreFiles, ["wiki", tier]) == Some(File(SomeToken, ""))
  {
    TopFinds();
    WikiFinds(tier);
    assert ["wiki", tier][1..] == [tier];
    assert Resolve(Wiki, [tier]) == Some(File(SomeToken, ""));
  }

  lemma SourcesAt()
    ensures Resolve(TiersAreFiles, ["evidence", "sources"]) == Some(Dir(SomeToken, []))
  {
    TopFinds();
    assert ["evidence", "sources"][1..] == ["sources"];
    assert Resolve(Evidence, ["sources"]) == Some(Dir(SomeToken, []));
  }

  lemma SourcesClean()
    ensures CleanSources(TiersAreFiles)
  {
    SourcesAt();
    forall id ensures ViewAt(TiersAreFiles, ["evidence", "sources", id]).Missing? {
      SourcesViews(TiersAreFiles, id, "");
      OneStep([], [id]);
    }
    forall id, name ensures ViewAt(TiersAreFiles, ["evidence", "sources", id, name]).Missing? {
      SourcesViews(TiersAreFiles, id, name);
      OneStep([], [id, name]);
    }
  }

  lemma WikiIsProper()
    ensures Proper(Wiki)
  {
    assert Proper(Wiki[3..]) && Wiki[2..] == [Wiki[2]] + Wiki[3..];
    ProperCons(Wiki[2], Wiki[3..]);
    assert Wiki[1..] == [Wiki[1]] + Wiki[2..];
    ProperCons(Wiki[1], Wiki[2..]);
    assert Wiki == [Wiki[0]] + Wiki[1..];
    ProperCons(Wiki[0], Wiki[1..]);
  }

  lemma FilesProper()
    ensures Proper(TiersAreFiles)
  {
    WikiIsProper();
    var tail := TiersAreFiles[1..];
    assert Proper(Evidence);
    ProperCons(TiersAreFiles[1], []);
    assert tail == [TiersAreFiles[1]] + [];
    assert TiersAreFiles == [TiersAreFiles[0]] + tail;
    ProperCons(TiersAreFiles[0], tail);
  }

  // ----- one file in each of its tiers -----

  function OneFileEach(c: Child): seq<Child> { Mended(TiersAreFiles, [c]) }

  lemma OneFileShows(c: Child, tier: string, rel: seq<string>)
    requires c.node.File? && tier in TIERS
    ensures ViewAt(OneFileEach(c), ["wiki", tier] + rel) ==
      if rel == [] then DirView(NoToken) else if rel == [c.name] then ViewOf(c.node) else Missing
  {
    var parts := ["wiki", tier] + rel;
    TierAt(tier);
    assert InMended(TiersAreFiles, parts) && parts[2..] == rel;
    MendedShows(TiersAreFiles, [c], parts);
    if rel != [] {
      OneStep([c], rel);
      assert [c][1..] == [];
    }
  }

  lemma OneFileClean(c: Child, tier: string)
    requires c.node.File? && tier in TIERS
    ensures CleanTier(OneFileEach(c), tier)
  {
    OneFileShows(c, tier, []);
    assert ["wiki", tier] + [] == ["wiki", tier];
    forall parts | |parts| >= 3 && parts[0] == "wiki" && parts[1] == tier
      ensures ViewAt(OneFileEach(c), parts).Missing? || ViewAt(OneFileEach(c), parts).FileView?
    {
      OneFileShows(c, tier, parts[2..]);
      assert ["wiki", tier] + parts[2..] == parts;
    }
  }

  lemma OneFileBuilds(c: Child)
    requires c.node.File? && Part(c.name)
    ensures Proper(OneFileEach(c)) && BuildManifest(OneFileEach(c)).Ok?
  {
    FilesProper();
    assert Proper([c]);
    MendedProper(TiersAreFiles, [c]);
    forall tier | tier in TIERS ensures CleanTier(OneFileEach(c), tier) { OneFileClean(c, tier); }
    SourcesClean();
    MendedSources(TiersAreFiles, [c]);
    BuildOk(OneFileEach(c));
  }
}
