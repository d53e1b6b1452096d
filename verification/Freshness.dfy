/** The freshness check: modification times and change tokens recorded at index time stand
    in for rehashing the trusted files, and the check falls back to rehashing where they
    cannot be relied on. */
module Freshness {
  import opened Wrappers
  import opened Clock
  import opened Ordering
  import opened Identifiers
  import opened Paths
  import opened TrustTree
  import opened TrustManifest

  // ----- the change token -----

  const I64_MIN: int := -0x8000_0000_0000_0000
  const I64_MAX: int := 0x7FFF_FFFF_FFFF_FFFF
  const UNAVAILABLE: int := -1

  // Division that truncates toward zero, as in the source language.
  function Quot(a: int, b: int): int
    requires b > 0
  {
    if a >= 0 then a / b else -((-a) / b)
  }

  function CombineChangeStamp(seconds: int, nanoseconds: int): int {
    if !(0 <= nanoseconds < NANOS) then UNAVAILABLE
    else if seconds < Quot(I64_MIN, NANOS) || seconds > Quot(I64_MAX - nanoseconds, NANOS) then UNAVAILABLE
    else seconds * NANOS + nanoseconds
  }

  // The guards keep the product and the sum in range, and the result is a token exactly
  // for a normalized stamp in range other than the one that reads as "unavailable".
  lemma ChangeStampInRange(s: int, n: int)
    requires I64_MIN <= s <= I64_MAX && I64_MIN <= n <= I64_MAX
    ensures I64_MIN <= CombineChangeStamp(s, n) <= I64_MAX
    ensures 0 <= n < NANOS && Quot(I64_MIN, NANOS) <= s <= Quot(I64_MAX - n, NANOS) ==>
      I64_MIN <= s * NANOS <= I64_MAX && I64_MIN <= s * NANOS + n <= I64_MAX
    ensures CombineChangeStamp(s, n) != UNAVAILABLE <==>
      0 <= n < NANOS && -9_223_372_036 <= s && s * NANOS + n <= I64_MAX && s * NANOS + n != UNAVAILABLE
    ensures CombineChangeStamp(s, n) != UNAVAILABLE ==> CombineChangeStamp(s, n) == s * 1_000_000_000 + n
  {
    assert Quot(I64_MIN, NANOS) == -9_223_372_036;
    if 0 <= n < NANOS {
      var q := (I64_MAX - n) / NANOS;
      assert Quot(I64_MAX - n, NANOS) == q;
      assert q * NANOS <= I64_MAX - n < (q + 1) * NANOS;
      if s <= q {
        assert s * NANOS <= q * NANOS;
      } else {
        assert s * NANOS >= (q + 1) * NANOS;
      }
    }
  }

  // An available token identifies the change time to the nanosecond.
  lemma ChangeStampInjective(s: int, n: int, s': int, n': int)
    requires CombineChangeStamp(s, n) == CombineChangeStamp(s', n') != UNAVAILABLE
    ensures s == s' && n == n'
  {
    assert (s - s') * NANOS == n' - n;
  }

  // ----- what an index records -----

  datatype DirectoryStamp = DirectoryStamp(path: string, stamp: Stamp)

  datatype Recorded = Recorded(
    manifest: Manifest,
    inputs: map<string, Stamp>,
    directories: seq<DirectoryStamp>
  )

  function WalkDirectories(at: seq<string>, children: seq<Child>): Result<seq<DirectoryStamp>>
    decreases children
  {
    if children == [] then Ok([])
    else
      var c := children[0];
      var here: Result<seq<DirectoryStamp>> :=
        match c.node
        case Link => Err
        case Dir(stamp, kids) =>
          Append(Ok([DirectoryStamp(Join(at + [c.name]), stamp)]), WalkDirectories(at + [c.name], kids))
        case _ => Ok([]);
      Append(here, WalkDirectories(at, children[1..]))
  }

  function TierDirectories(root: seq<Child>, tier: string): Result<seq<DirectoryStamp>> {
    match Resolve(root, ["wiki", tier])
    case Some(Dir(stamp, kids)) =>
      Append(Ok([DirectoryStamp(Join(["wiki", tier]), stamp)]), WalkDirectories(["wiki", tier], kids))
    case None => Err
    case Some(Link) => Err
    case Some(_) => Ok([])
  }

  // Only the immediate subdirectories of the sources are recorded.
  function SourceDirectories(at: seq<string>, children: seq<Child>): Result<seq<DirectoryStamp>> {
    if children == [] then Ok([])
    else
      var c := children[0];
      var here: Result<seq<DirectoryStamp>> :=
        match c.node
        case Link => Err
        case Dir(stamp, _) => Ok([DirectoryStamp(Join(at + [c.name]), stamp)])
        case _ => Ok([]);
      Append(here, SourceDirectories(at, children[1..]))
  }

  function SourcesDirectories(root: seq<Child>): Result<seq<DirectoryStamp>> {
    match Resolve(root, ["evidence", "sources"])
    case Some(Dir(stamp, kids)) =>
      Append(Ok([DirectoryStamp(Join(["evidence", "sources"]), stamp)]),
        SourceDirectories(["evidence", "sources"], kids))
    case _ => Err
  }

  function TiersDirectories(root: seq<Child>, tiers: seq<string>): Result<seq<DirectoryStamp>> {
    if tiers == [] then Ok([]) else Append(TierDirectories(root, tiers[0]), TiersDirectories(root, tiers[1..]))
  }

  function CollectDirectories(root: seq<Child>): Result<seq<DirectoryStamp>> {
    Append(TiersDirectories(root, TIERS), SourcesDirectories(root))
  }

  function StampAt(root: seq<Child>, path: string): Stamp {
    match ViewAt(root, Split(path))
    case FileView(stamp, _) => stamp
    case DirView(stamp) => stamp
    case _ => Stamp(0, UNAVAILABLE)
  }

  function Record(root: seq<Child>): Result<Recorded> {
    match (BuildManifest(root), CollectDirectories(root))
    case (Ok(m), Ok(dirs)) =>
      Ok(Recorded(m, StampsOf(root, m), dirs))
    case _ => Err
  }

  // A rebuild takes no lock while it records: the stamps of the files, then the directories,
  // then the manifest are read in three passes, between which files may be edited by hand. The
  // manifest is compared with the one the file list came from.
  datatype Times = Times(files: seq<Child>, directories: seq<Child>, last: seq<Child>, now: seq<Child>)

  ghost predicate AllThere(root: seq<Child>, m: Manifest) {
    forall i :: 0 <= i < |m.entries| ==> ViewAt(root, Split(m.entries[i].path)).FileView?
  }

  ghost function RecordAcross(h: Times): Result<Recorded> {
    match (BuildManifest(h.last), CollectDirectories(h.directories))
    case (Ok(m), Ok(dirs)) =>
      if AllThere(h.files, m) then Ok(Recorded(m, StampsOf(h.files, m), dirs)) else Err
    case _ => Err
  }

  function StampsOf(root: seq<Child>, m: Manifest): map<string, Stamp> {
    map p | p in (set i | 0 <= i < |m.entries| :: m.entries[i].path) :: StampAt(root, p)
  }

  // ----- the check -----

  predicate TrustInputPath(path: string) {
    var parts := Split(path);
    (|parts| >= 3 && parts[0] == "wiki" && parts[1] in TIERS && EndsWith(path, ".md"))
    || (|parts| == 4 && parts[0] == "evidence" && parts[1] == "sources" && parts[2] != ""
        && (parts[3] == "source.yaml" || parts[3] == "raw"))
  }

  // The walk over a directory whose stamp changed: does some trusted file differ from its
  // recorded stamp? Err stands for the error branches. The walk stops at the first find.
  function Offender(at: seq<string>, children: seq<Child>, known: map<string, Stamp>): Result<bool>
    decreases children
  {
    if children == [] then Ok(false)
    else
      var c := children[0];
      var path := Join(at + [c.name]);
      var here: Result<bool> :=
        match c.node
        case Link => Err
        case Dir(_, kids) => if TrustInputPath(path) then Err else Offender(at + [c.name], kids, known)
        case File(stamp, _) => Ok(TrustInputPath(path) && !(path in known && known[path] == stamp))
        case Special => if TrustInputPath(path) then Err else Ok(false);
      if here == Ok(false) then Offender(at, children[1..], known) else here
  }

  predicate DirectoryAccepted(root: seq<Child>, d: DirectoryStamp, known: map<string, Stamp>) {
    match Resolve(root, Split(d.path))
    case Some(Dir(stamp, kids)) =>
      stamp == d.stamp || (!TrustInputPath(d.path) && Offender(Split(d.path), kids, known) == Ok(false))
    case _ => false
  }

  predicate Doubtful(root: seq<Child>, d: DirectoryStamp) {
    StampAt(root, d.path) != d.stamp || StampAt(root, d.path).changeToken < 0 || d.stamp.changeToken < 0
  }

  predicate EntryAccepted(root: seq<Child>, e: TrustInput, known: map<string, Stamp>) {
    e.path in known && ViewAt(root, Split(e.path)).FileView? && ViewAt(root, Split(e.path)).stamp == known[e.path]
  }

  // When the stamps may not be relied on, so that everything is rehashed.
  ghost predicate MustRehash(root: seq<Child>, r: Recorded) {
    || (exists i :: 0 <= i < |r.directories| && Doubtful(root, r.directories[i]))
    || (exists p :: p in r.inputs && r.inputs[p].changeToken < 0)
  }

  ghost predicate Accepts(root: seq<Child>, r: Recorded) {
    && |r.inputs| == |r.manifest.entries|
    && (forall i :: 0 <= i < |r.directories| ==> DirectoryAccepted(root, r.directories[i], r.inputs))
    && (MustRehash(root, r) ==> BuildManifest(root) == Ok(r.manifest))
    && (forall i :: 0 <= i < |r.manifest.entries| ==> EntryAccepted(root, r.manifest.entries[i], r.inputs))
  }

  method CheckFresh(root: seq<Child>, r: Recorded) returns (ok: bool)
    ensures ok <==> Accepts(root, r)
  {
    if |r.inputs| != |r.manifest.entries| { return false; }
    var directoryChanged, tokenUnavailable := false, false;
    for i := 0 to |r.directories|
      invariant forall k :: 0 <= k < i ==> DirectoryAccepted(root, r.directories[k], r.inputs)
      invariant directoryChanged || tokenUnavailable <==> exists k :: 0 <= k < i && Doubtful(root, r.directories[k])
    {
      var d := r.directories[i];
      var node := Resolve(root, Split(d.path));
      if node.None? || !node.value.Dir? { return false; }
      if node.value.stamp.changeToken < 0 || d.stamp.changeToken < 0 {
        tokenUnavailable := true;
      }
      assert Doubtful(root, d) <==>
        node.value.stamp != d.stamp || node.value.stamp.changeToken < 0 || d.stamp.changeToken < 0;
      if node.value.stamp == d.stamp { continue; }
      directoryChanged := true;
      if TrustInputPath(d.path) { return false; }
      if Offender(Split(d.path), node.value.children, r.inputs) != Ok(false) { return false; }
    }
    var inputTokenUnavailable := false;
    var left := r.inputs.Keys;
    while left != {} && !inputTokenUnavailable
      invariant left <= r.inputs.Keys
      invariant inputTokenUnavailable ==> exists p :: p in r.inputs && r.inputs[p].changeToken < 0
      invariant !inputTokenUnavailable ==> forall p :: p in r.inputs && p !in left ==> r.inputs[p].changeToken >= 0
      decreases left
    {
      var p :| p in left;
      if r.inputs[p].changeToken < 0 { inputTokenUnavailable := true; }
      left := left - {p};
    }
    if directoryChanged || tokenUnavailable || inputTokenUnavailable {
      if BuildManifest(root) != Ok(r.manifest) { return false; }
    }
    for i := 0 to |r.manifest.entries|
      invariant forall k :: 0 <= k < i ==> EntryAccepted(root, r.manifest.entries[k], r.inputs)
    {
      if !EntryAccepted(root, r.manifest.entries[i], r.inputs) { return false; }
    }
    return true;
  }

  // ----- what is accepted, told by views -----

  // The paths that are taken for trust inputs are those of trusted files, and those of files
  // named just ".md" below a tier.
  lemma NamedLikeInput(parts: seq<string>)
    requires Parts(parts)
    ensures TrustInputPath(Join(parts)) <==>
      || TrustPath(parts, ClaimFile) || TrustPath(parts, EvidenceMetadata) || TrustPath(parts, EvidenceRaw)
      || (TierPath(parts) && |parts| >= 3 && Last(parts) == ".md")
  {
    SplitJoin(parts);
    JoinEndsIn(parts);
    if |parts| >= 3 { MdEnding(Join(parts), Last(parts)); }
  }

  // What may stand at a path: nothing, or anything but a link, and where the path is that of a
  // trust input, only the file with its recorded stamp.
  type Allowed = (seq<string>, View) -> bool

  function Quiet(known: map<string, Stamp>): Allowed {
    (parts: seq<string>, v: View) =>
      var path := Join(parts);
      && !v.LinkView?
      && (TrustInputPath(path) && !v.Missing? ==> v.FileView? && path in known && known[path] == v.stamp)
  }

  ghost predicate AllBelow(at: seq<string>, children: seq<Child>, allowed: Allowed) {
    forall rel: seq<string> :: rel != [] ==> allowed(at + rel, ViewAt(children, rel))
  }

  ghost predicate AllowedNode(at: seq<string>, n: Node, allowed: Allowed) {
    allowed(at, ViewOf(n)) && (n.Dir? ==> AllBelow(at, n.children, allowed))
  }

  ghost predicate AllowsNothing(allowed: Allowed) {
    forall parts :: allowed(parts, Missing)
  }

  lemma {:induction false} OffenderIs(at: seq<string>, children: seq<Child>, known: map<string, Stamp>)
    requires Proper(children)
    ensures Offender(at, children, known) == Ok(false) <==> AllBelow(at, children, Quiet(known))
    decreases children
  {
    if children == [] {
      forall rel: seq<string> | rel != [] ensures ViewAt(children, rel).Missing? {}
    } else {
      ProperTail(children);
      var c := children[0];
      OffenderIs(at, children[1..], known);
      if c.node.Dir? { OffenderIs(at + [c.name], c.node.children, known); }
      AllSplits(at, children, Quiet(known));
    }
  }

  lemma AllSplits(at: seq<string>, children: seq<Child>, allowed: Allowed)
    requires Proper(children) && children != [] && AllowsNothing(allowed)
    ensures AllBelow(at, children, allowed) <==>
      AllowedNode(at + [children[0].name], children[0].node, allowed) && AllBelow(at, children[1..], allowed)
  {
    if AllBelow(at, children, allowed) {
      FirstAllowed(at, children, allowed);
      RestAllowed(at, children, allowed);
    }
    if AllowedNode(at + [children[0].name], children[0].node, allowed) && AllBelow(at, children[1..], allowed) {
      forall rel: seq<string> | rel != [] ensures allowed(at + rel, ViewAt(children, rel)) {
        AllowedOutward(at, children, allowed, rel);
      }
    }
  }

  lemma AllowedOutward(at: seq<string>, children: seq<Child>, allowed: Allowed, rel: seq<string>)
    requires children != [] && rel != [] && AllowsNothing(allowed)
    requires AllowedNode(at + [children[0].name], children[0].node, allowed) && AllBelow(at, children[1..], allowed)
    ensures allowed(at + rel, ViewAt(children, rel))
  {
    var c := children[0];
    ViewInTail(children, rel);
    if rel[0] == c.name {
      AllowedUnder(at + [c.name], c.node, allowed, rel[1..]);
      assert (at + [c.name]) + rel[1..] == at + rel;
    } else {
      assert allowed(at + rel, ViewAt(children[1..], rel));
    }
  }

  lemma AllowedUnder(at: seq<string>, n: Node, allowed: Allowed, rel: seq<string>)
    requires AllowedNode(at, n, allowed) && AllowsNothing(allowed)
    ensures allowed(at + rel, ViewUnder(n, rel))
  {
    if rel == [] { assert at + rel == at; }
  }

  lemma FirstAllowed(at: seq<string>, children: seq<Child>, allowed: Allowed)
    requires children != [] && AllBelow(at, children, allowed)
    ensures AllowedNode(at + [children[0].name], children[0].node, allowed)
  {
    var c := children[0];
    ViewInTail(children, [c.name]);
    assert allowed(at + [c.name], ViewAt(children, [c.name]));
    if c.node.Dir? {
      forall rel: seq<string> | rel != [] ensures allowed((at + [c.name]) + rel, ViewAt(c.node.children, rel)) {
        var full := [c.name] + rel;
        assert full[1..] == rel && at + full == (at + [c.name]) + rel;
        ViewInTail(children, full);
        assert allowed(at + full, ViewAt(children, full));
      }
    }
  }

  lemma RestAllowed(at: seq<string>, children: seq<Child>, allowed: Allowed)
    requires Proper(children) && children != [] && AllBelow(at, children, allowed) && AllowsNothing(allowed)
    ensures AllBelow(at, children[1..], allowed)
  {
    forall rel: seq<string> | rel != [] ensures allowed(at + rel, ViewAt(children[1..], rel)) {
      ViewInTail(children, rel);
      ProperTail(children);
      assert allowed(at + rel, ViewAt(children, rel));
    }
  }

  // A recorded directory passes as long as it is one, and has its stamp or shows nothing below
  // that is trusted and not recorded.
  ghost predicate DirectoryPasses(root: seq<Child>, d: DirectoryStamp, known: map<string, Stamp>) {
    var parts := Split(d.path);
    && ViewAt(root, parts).DirView?
    && (ViewAt(root, parts).stamp == d.stamp
        || (!TrustInputPath(d.path)
            && forall rel: seq<string> :: rel != [] ==> Quiet(known)(parts + rel, ViewAt(root, parts + rel))))
  }

  lemma DirectoryPassesIff(root: seq<Child>, d: DirectoryStamp, known: map<string, Stamp>)
    requires Proper(root)
    ensures DirectoryAccepted(root, d, known) <==> DirectoryPasses(root, d, known)
  {
    var parts := Split(d.path);
    ProperThrough(root, parts);
    if n :| Resolve(root, parts) == Some(n) && n.Dir? {
      OffenderIs(parts, n.children, known);
      forall rel: seq<string> | rel != [] ensures ViewAt(root, parts + rel) == ViewAt(n.children, rel) {
        ViewThrough(root, parts, rel);
      }
    }
  }

  // No recorded directory has changed, and every stamp has a token.
  ghost predicate StampsSuffice(root: seq<Child>, r: Recorded) {
    && (forall d :: d in r.directories ==>
          ViewAt(root, Split(d.path)) == DirView(d.stamp) && d.stamp.changeToken >= 0)
    && (forall p :: p in r.inputs ==> r.inputs[p].changeToken >= 0)
  }

  // A tree is accepted exactly when every recorded directory passes, every recorded file is
  // there with its recorded stamp, and the manifest is the recorded one wherever some directory
  // changed its stamp or some stamp has no token. So a change that touches nothing trusted and
  // adds nothing trusted raises no alarm, whatever it does to the stamps of directories.
  lemma AcceptsExactly(root: seq<Child>, r: Recorded)
    requires Proper(root)
    ensures Accepts(root, r) <==>
      && |r.inputs| == |r.manifest.entries|
      && (forall d :: d in r.directories ==> DirectoryPasses(root, d, r.inputs))
      && (forall e :: e in r.manifest.entries ==>
            e.path in r.inputs && ViewAt(root, Split(e.path)).FileView?
            && ViewAt(root, Split(e.path)).stamp == r.inputs[e.path])
      && (StampsSuffice(root, r) || BuildManifest(root) == Ok(r.manifest))
  {
    forall d ensures DirectoryAccepted(root, d, r.inputs) <==> DirectoryPasses(root, d, r.inputs) {
      DirectoryPassesIff(root, d, r.inputs);
    }
    if forall d :: d in r.directories ==> DirectoryPasses(root, d, r.inputs) { RehashIff(root, r); }
  }

  lemma RehashIff(root: seq<Child>, r: Recorded)
    requires forall d :: d in r.directories ==> ViewAt(root, Split(d.path)).DirView?
    ensures MustRehash(root, r) <==> !StampsSuffice(root, r)
  {
    forall d | d in r.directories
      ensures Doubtful(root, d) <==> !(ViewAt(root, Split(d.path)) == DirView(d.stamp) && d.stamp.changeToken >= 0)
    {
    }
    if !StampsSuffice(root, r) && forall p :: p in r.inputs ==> r.inputs[p].changeToken >= 0 {
      var d :| d in r.directories && !(ViewAt(root, Split(d.path)) == DirView(d.stamp) && d.stamp.changeToken >= 0);
      var i :| 0 <= i < |r.directories| && r.directories[i] == d;
      assert Doubtful(root, r.directories[i]);
    }
  }

  // ----- which directories are recorded -----

  lemma {:induction false} WalkDirectoriesHas(at: seq<string>, children: seq<Child>, rel: seq<string>)
    requires Proper(children) && WalkDirectories(at, children).Ok? && rel != [] && ViewAt(children, rel).DirView?
    ensures DirectoryStamp(Join(at + rel), ViewAt(children, rel).stamp) in WalkDirectories(at, children).value
    decreases children
  {
    if children != [] {
      var c := children[0];
      ProperTail(children);
      ViewInTail(children, rel);
      if rel[0] == c.name {
        if |rel| == 1 {
          assert rel == [c.name];
        } else {
          assert at + rel == (at + [c.name]) + rel[1..];
          WalkDirectoriesHas(at + [c.name], c.node.children, rel[1..]);
        }
      } else {
        WalkDirectoriesHas(at, children[1..], rel);
      }
    }
  }

  lemma {:induction false} SourceDirectoriesHas(at: seq<string>, children: seq<Child>, id: string)
    requires SourceDirectories(at, children).Ok? && ViewAt(children, [id]).DirView?
    ensures DirectoryStamp(Join(at + [id]), ViewAt(children, [id]).stamp) in SourceDirectories(at, children).value
  {
    if children != [] && children[0].name != id {
      ViewInTail(children, [id]);
      SourceDirectoriesHas(at, children[1..], id);
    }
  }

  lemma {:induction false} TiersDirectoriesHas(root: seq<Child>, tiers: seq<string>, tier: string, d: DirectoryStamp)
    requires TiersDirectories(root, tiers).Ok? && tier in tiers
    ensures TierDirectories(root, tier).Ok?
    ensures d in TierDirectories(root, tier).value ==> d in TiersDirectories(root, tiers).value
  {
    if tiers[0] != tier {
      TiersDirectoriesHas(root, tiers[1..], tier, d);
    }
  }

  // The directories whose listing matters for the manifest.
  ghost predicate TrustDirectory(parts: seq<string>) {
    || TierPath(parts)
    || parts == ["evidence", "sources"]
    || (|parts| == 3 && parts[0] == "evidence" && parts[1] == "sources")
  }

  lemma CollectedDirectory(root: seq<Child>, parts: seq<string>)
    requires Proper(root) && CollectDirectories(root).Ok?
    requires TrustDirectory(parts) && ViewAt(root, parts).DirView?
    ensures DirectoryStamp(Join(parts), ViewAt(root, parts).stamp) in CollectDirectories(root).value
  {
    var d := DirectoryStamp(Join(parts), ViewAt(root, parts).stamp);
    var at, rel := parts[..2], parts[2..];
    assert parts == at + rel;
    if TierPath(parts) {
      assert at == ["wiki", parts[1]];
      TiersDirectoriesHas(root, TIERS, parts[1], d);
      ProperThrough(root, at);
      if rel == [] {
        assert parts == at;
      } else {
        ViewThrough(root, at, rel);
        WalkDirectoriesHas(at, Resolve(root, at).value.children, rel);
      }
    } else {
      assert at == ["evidence", "sources"];
      if rel == [] {
        assert parts == at;
      } else {
        assert rel == [parts[2]];
        ViewThrough(root, at, rel);
        SourceDirectoriesHas(at, Resolve(root, at).value.children, parts[2]);
      }
    }
  }

  // ----- the file-system assumption -----

  predicate SameKind(a: View, b: View) {
    a.Missing? == b.Missing? && a.FileView? == b.FileView? && a.DirView? == b.DirView?
    && a.LinkView? == b.LinkView? && a.SpecialView? == b.SpecialView?
  }

  // An equal stamp with an available token, at the pass that recorded it and now, means that
  // nothing happened in between: a file was not written, a directory was not relisted. Nothing
  // is assumed about stamps that differ or have no token.
  ghost predicate SameStamp(a: View, b: View) {
    ((a.FileView? && b.FileView?) || (a.DirView? && b.DirView?)) && a.stamp == b.stamp && a.stamp.changeToken >= 0
  }

  ghost predicate FilesTell(recorded: seq<Child>, between: seq<Child>, now: seq<Child>) {
    forall parts :: ViewAt(recorded, parts).FileView? && SameStamp(ViewAt(recorded, parts), ViewAt(now, parts)) ==>
      ViewAt(between, parts) == ViewAt(now, parts)
  }

  ghost predicate DirectoriesTell(recorded: seq<Child>, between: seq<Child>, now: seq<Child>) {
    forall parts, name :: DirectoryTells(recorded, between, now, parts, name)
  }

  ghost predicate DirectoryTells(recorded: seq<Child>, between: seq<Child>, now: seq<Child>, parts: seq<string>,
                                 name: string)
  {
    ViewAt(recorded, parts).DirView? && SameStamp(ViewAt(recorded, parts), ViewAt(now, parts)) ==>
      && ViewAt(between, parts) == ViewAt(now, parts)
      && SameKindBelow(recorded, now, parts, name) && SameKindBelow(between, now, parts, name)
  }

  ghost predicate SameKindBelow(a: seq<Child>, b: seq<Child>, parts: seq<string>, name: string) {
    SameKind(ViewAt(a, parts + [name]), ViewAt(b, parts + [name]))
  }

  ghost predicate StampsTell(h: Times) {
    FilesTell(h.files, h.last, h.now) && DirectoriesTell(h.directories, h.last, h.now)
  }

  // When the directories were recorded, each tier was one.
  ghost predicate TiersThere(root: seq<Child>) {
    forall tier :: tier in TIERS ==> ViewAt(root, ["wiki", tier]).DirView?
  }

  // The check accepts the tree as it is now, after these passes.
  ghost predicate Accepted(h: Times, r: Recorded) {
    Proper(h.last) && Proper(h.now) && RecordAcross(h) == Ok(r) && StampsTell(h) && Accepts(h.now, r)
  }

  // It does so by the stamps alone.
  ghost predicate Trusting(h: Times, r: Recorded) {
    Proper(h.directories) && Accepted(h, r) && !MustRehash(h.now, r)
  }

  // A path shows the same kind of thing at the three times that matter for directories.
  ghost predicate SameKinds(h: Times, parts: seq<string>) {
    && SameKind(ViewAt(h.directories, parts), ViewAt(h.now, parts))
    && SameKind(ViewAt(h.last, parts), ViewAt(h.now, parts))
  }

  // A recorded directory that need not be rehashed still has its stamp, with a token.
  lemma DirectoryUntouched(h: Times, r: Recorded, parts: seq<string>)
    requires Trusting(h, r) && TrustDirectory(parts) && ViewAt(h.directories, parts).DirView?
    ensures SameStamp(ViewAt(h.directories, parts), ViewAt(h.now, parts)) && SameKinds(h, parts)
    ensures forall name :: SameKindBelow(h.directories, h.now, parts, name) && SameKindBelow(h.last, h.now, parts, name)
  {
    var d := DirectoryStamp(Join(parts), ViewAt(h.directories, parts).stamp);
    CollectedDirectory(h.directories, parts);
    ProperThrough(h.directories, parts);
    SplitJoin(parts);
    var i :| 0 <= i < |r.directories| && r.directories[i] == d;
    assert DirectoryAccepted(h.now, r.directories[i], r.inputs) && !Doubtful(h.now, r.directories[i]);
    assert SameStamp(ViewAt(h.directories, parts), ViewAt(h.now, parts));
    forall name ensures SameKindBelow(h.directories, h.now, parts, name) && SameKindBelow(h.last, h.now, parts, name) {
      assert DirectoryTells(h.directories, h.last, h.now, parts, name);
    }
    assert DirectoryTells(h.directories, h.last, h.now, parts, "");
  }

  lemma ChildSameKind(h: Times, r: Recorded, parent: seq<string>, name: string)
    requires Trusting(h, r) && TrustDirectory(parent) && SameKinds(h, parent)
    ensures SameKinds(h, parent + [name])
  {
    if ViewAt(h.directories, parent).DirView? {
      DirectoryUntouched(h, r, parent);
      assert SameKindBelow(h.directories, h.now, parent, name);
    } else {
      ViewThrough(h.directories, parent, [name]);
      ViewThrough(h.last, parent, [name]);
      ViewThrough(h.now, parent, [name]);
    }
  }

  // Every path below a recorded tier is still what it was, by induction along the path.
  lemma {:induction false} TierSameKind(h: Times, r: Recorded, parts: seq<string>)
    requires Trusting(h, r) && TierPath(parts) && ViewAt(h.directories, ["wiki", parts[1]]).DirView?
    ensures SameKinds(h, parts)
    decreases |parts|
  {
    if |parts| == 2 {
      assert parts == ["wiki", parts[1]];
      DirectoryUntouched(h, r, parts);
    } else {
      var parent, name := parts[..|parts| - 1], Last(parts);
      assert TierPath(parent) && parts == parent + [name];
      TierSameKind(h, r, parent);
      ChildSameKind(h, r, parent, name);
    }
  }

  lemma SourcesCollected(root: seq<Child>)
    requires CollectDirectories(root).Ok?
    ensures ViewAt(root, ["evidence", "sources"]).DirView?
  {
  }

  lemma SourceSameKind(h: Times, r: Recorded, id: string, name: string)
    requires Trusting(h, r)
    ensures ViewAt(h.now, ["evidence", "sources"]).DirView?
    ensures SameKinds(h, ["evidence", "sources", id]) && SameKinds(h, ["evidence", "sources", id, name])
  {
    var at := ["evidence", "sources"];
    SourcesCollected(h.directories);
    DirectoryUntouched(h, r, at);
    ChildSameKind(h, r, at, id);
    assert at + [id] == ["evidence", "sources", id];
    ChildSameKind(h, r, at + [id], name);
    assert (at + [id]) + [name] == ["evidence", "sources", id, name];
  }

  lemma StillCleanTier(h: Times, r: Recorded, tier: string)
    requires Trusting(h, r) && tier in TIERS && ViewAt(h.directories, ["wiki", tier]).DirView?
    ensures CleanTier(h.now, tier)
  {
    BuildOk(h.last);
    assert CleanTier(h.last, tier);
    TierSameKind(h, r, ["wiki", tier]);
    forall parts | |parts| >= 3 && parts[0] == "wiki" && parts[1] == tier
      ensures !ViewAt(h.now, parts).LinkView?
      ensures HasMdExtension(Last(parts)) ==> ViewAt(h.now, parts).Missing? || ViewAt(h.now, parts).FileView?
    {
      TierSameKind(h, r, parts);
      assert !ViewAt(h.last, parts).LinkView?;
    }
  }

  lemma StillCleanSources(h: Times, r: Recorded)
    requires Trusting(h, r)
    ensures CleanSources(h.now)
  {
    BuildOk(h.last);
    SourceSameKind(h, r, "", "");
    forall id ensures !ViewAt(h.now, ["evidence", "sources", id]).LinkView? {
      SourceSameKind(h, r, id, "");
      assert !ViewAt(h.last, ["evidence", "sources", id]).LinkView?;
    }
    forall id, name, kind | SourceKind(name, kind)
      ensures var v := ViewAt(h.now, ["evidence", "sources", id, name]); v.Missing? || v.FileView?
    {
      SourceSameKind(h, r, id, name);
      var v := ViewAt(h.last, ["evidence", "sources", id, name]);
      assert v.Missing? || v.FileView?;
    }
  }

  lemma TrustedSameKind(h: Times, r: Recorded, parts: seq<string>, kind: Kind)
    requires Trusting(h, r) && TiersThere(h.directories) && TrustPath(parts, kind)
    ensures SameKinds(h, parts)
  {
    if kind.ClaimFile? {
      TierSameKind(h, r, parts);
    } else {
      SourceSameKind(h, r, parts[2], parts[3]);
      assert parts == ["evidence", "sources", parts[2], parts[3]];
    }
  }

  lemma EntryOfTrusted(root: seq<Child>, parts: seq<string>, kind: Kind) returns (i: nat)
    requires Proper(root) && BuildManifest(root).Ok? && TrustPath(parts, kind) && ViewAt(root, parts).FileView?
    ensures i < |BuildManifest(root).value.entries| && BuildManifest(root).value.entries[i].path == Join(parts)
    ensures Split(Join(parts)) == parts
  {
    var x := InputOf(parts, kind, ViewAt(root, parts).bytes);
    BuildEntries(root, x);
    assert TrustEntry(root, parts, kind, x);
    ProperThrough(root, parts);
    SplitJoin(parts);
    i :| 0 <= i < |BuildManifest(root).value.entries| && BuildManifest(root).value.entries[i] == x;
  }

  // A trusted file that is still there is still the same, byte for byte.
  lemma TrustedSameBytes(h: Times, r: Recorded, parts: seq<string>, kind: Kind)
    requires Trusting(h, r) && TiersThere(h.directories) && TrustPath(parts, kind) && ViewAt(h.last, parts).FileView?
    ensures ViewAt(h.now, parts) == ViewAt(h.last, parts)
  {
    var i := EntryOfTrusted(h.last, parts, kind);
    var path := Join(parts);
    assert EntryAccepted(h.now, r.manifest.entries[i], r.inputs);
    assert ViewAt(h.files, Split(r.manifest.entries[i].path)).FileView?;
    assert r.inputs[path] == StampAt(h.files, path);
    assert r.inputs[path].changeToken >= 0;
  }

  lemma TrustedEntries(h: Times, r: Recorded, parts: seq<string>, kind: Kind, x: TrustInput)
    requires Trusting(h, r) && TiersThere(h.directories)
    ensures TrustEntry(h.last, parts, kind, x) <==> TrustEntry(h.now, parts, kind, x)
  {
    if TrustPath(parts, kind) {
      TrustedSameKind(h, r, parts, kind);
      if ViewAt(h.last, parts).FileView? {
        TrustedSameBytes(h, r, parts, kind);
      }
    }
  }

  // The stamp check refines rehashing, also when files were edited by hand between the passes
  // of the rebuild that recorded them: whenever it accepts the tree as it is now, building the
  // manifest from scratch would give the recorded manifest.
  lemma AcceptedMeansUnchanged(h: Times, r: Recorded)
    requires Proper(h.directories) && TiersThere(h.directories) && Accepted(h, r)
    ensures BuildManifest(h.now) == Ok(r.manifest)
  {
    if !MustRehash(h.now, r) {
      forall tier | tier in TIERS ensures CleanTier(h.now, tier) { StillCleanTier(h, r, tier); }
      StillCleanSources(h, r);
      BuildOk(h.now);
      forall parts, kind, x ensures TrustEntry(h.last, parts, kind, x) <==> TrustEntry(h.now, parts, kind, x) {
        TrustedEntries(h, r, parts, kind, x);
      }
      SameEntriesSameManifest(h.last, h.now);
    }
  }

  lemma EntriesThere(root: seq<Child>)
    requires Proper(root) && BuildManifest(root).Ok?
    ensures AllThere(root, BuildManifest(root).value)
  {
    var m := BuildManifest(root).value;
    forall i | 0 <= i < |m.entries| ensures ViewAt(root, Split(m.entries[i].path)).FileView? {
      BuildEntries(root, m.entries[i]);
      var parts, kind :| TrustEntry(root, parts, kind, m.entries[i]);
      ProperThrough(root, parts);
      SplitJoin(parts);
    }
  }

  // Recording from one tree that nobody touches is the special case.
  lemma RecordAtOnce(a: seq<Child>, now: seq<Child>)
    requires Proper(a)
    ensures RecordAcross(Times(a, a, a, now)) == Record(a)
    ensures Record(a).Ok? ==> TiersThere(a)
  {
    if BuildManifest(a).Ok? {
      BuildOk(a);
      EntriesThere(a);
      forall tier | tier in TIERS ensures ViewAt(a, ["wiki", tier]).DirView? { assert CleanTier(a, tier); }
    }
  }

  // ----- no false alarm -----

  lemma {:induction false} WalkDirectoriesIs(at: seq<string>, children: seq<Child>, d: DirectoryStamp)
    returns (rel: seq<string>)
    requires Proper(children) && WalkDirectories(at, children).Ok? && d in WalkDirectories(at, children).value
    ensures rel != [] && ViewAt(children, rel) == DirView(d.stamp) && d.path == Join(at + rel)
    decreases children
  {
    var c := children[0];
    ProperTail(children);
    if d in WalkDirectories(at, children[1..]).value {
      rel := WalkDirectoriesIs(at, children[1..], d);
      TailNames(children, rel);
    } else if d == DirectoryStamp(Join(at + [c.name]), c.node.stamp) {
      rel := [c.name];
    } else {
      var sub := WalkDirectoriesIs(at + [c.name], c.node.children, d);
      rel := [c.name] + sub;
      assert rel[1..] == sub && at + rel == (at + [c.name]) + sub;
    }
    ViewInTail(children, rel);
  }

  lemma {:induction false} SourceDirectoriesIs(at: seq<string>, children: seq<Child>, d: DirectoryStamp)
    returns (id: string)
    requires Proper(children) && SourceDirectories(at, children).Ok? && d in SourceDirectories(at, children).value
    ensures ViewAt(children, [id]) == DirView(d.stamp) && d.path == Join(at + [id])
  {
    ProperTail(children);
    if d in SourceDirectories(at, children[1..]).value {
      id := SourceDirectoriesIs(at, children[1..], d);
      TailNames(children, [id]);
    } else {
      id := children[0].name;
    }
    ViewInTail(children, [id]);
  }

  lemma {:induction false} TiersDirectoriesIs(root: seq<Child>, tiers: seq<string>, d: DirectoryStamp)
    returns (tier: string)
    requires TiersDirectories(root, tiers).Ok? && d in TiersDirectories(root, tiers).value
    ensures tier in tiers && TierDirectories(root, tier).Ok? && d in TierDirectories(root, tier).value
  {
    if d in TierDirectories(root, tiers[0]).value {
      tier := tiers[0];
    } else {
      tier := TiersDirectoriesIs(root, tiers[1..], d);
    }
  }

  // Every recorded directory is one, under its recorded stamp.
  lemma RecordedDirectory(root: seq<Child>, d: DirectoryStamp)
    requires Proper(root) && CollectDirectories(root).Ok? && d in CollectDirectories(root).value
    ensures ViewAt(root, Split(d.path)) == DirView(d.stamp) && TrustDirectory(Split(d.path))
  {
    var parts: seq<string>;
    var at: seq<string>;
    var rel: seq<string> := [];
    if d in TiersDirectories(root, TIERS).value {
      var tier := TiersDirectoriesIs(root, TIERS, d);
      at := ["wiki", tier];
      ProperThrough(root, at);
      if d.path != Join(at) || d.stamp != Resolve(root, at).value.stamp {
        rel := WalkDirectoriesIs(at, Resolve(root, at).value.children, d);
      }
    } else {
      at := ["evidence", "sources"];
      ProperThrough(root, at);
      if d.path != Join(at) || d.stamp != Resolve(root, at).value.stamp {
        var id := SourceDirectoriesIs(at, Resolve(root, at).value.children, d);
        rel := [id];
      }
    }
    parts := at + rel;
    if rel == [] {
      assert parts == at;
    } else {
      ViewThrough(root, at, rel);
    }
    ProperThrough(root, parts);
    SplitJoin(parts);
  }

  lemma DistinctPathsCount(entries: seq<TrustInput>)
    requires StrictBy(entries, PathOf)
    ensures |set i | 0 <= i < |entries| :: entries[i].path| == |entries|
  {
    var paths := seq(|entries|, i requires 0 <= i < |entries| => entries[i].path);
    forall i, j | 0 <= i < j < |paths| ensures paths[i] != paths[j] { StrictIsDistinct(entries, PathOf, i, j); }
    DistinctSize(paths);
    var whole := set i | 0 <= i < |entries| :: entries[i].path;
    forall p ensures p in whole <==> p in paths {
      if p in whole {
        var i :| 0 <= i < |entries| && entries[i].path == p;
        assert paths[i] == p;
      }
    }
    assert whole == set p | p in paths;
  }

  // One stamp for each entry.
  lemma StampsCount(root: seq<Child>, files: seq<Child>)
    requires Proper(root) && BuildManifest(root).Ok?
    ensures var m := BuildManifest(root).value; |StampsOf(files, m)| == |m.entries|
  {
    var m := BuildManifest(root).value;
    BuildStrict(root);
    DistinctPathsCount(m.entries);
    assert StampsOf(files, m).Keys == set i | 0 <= i < |m.entries| :: m.entries[i].path;
  }

  lemma RecordedEntry(root: seq<Child>, r: Recorded, i: nat)
    requires Proper(root) && Record(root) == Ok(r) && i < |r.manifest.entries|
    ensures EntryAccepted(root, r.manifest.entries[i], r.inputs)
  {
    var x := r.manifest.entries[i];
    BuildEntries(root, x);
    var parts, kind :| TrustEntry(root, parts, kind, x);
    ProperThrough(root, parts);
    SplitJoin(parts);
  }

  // A tree that was not touched, even if its directories now enumerate in another order,
  // is accepted, with or without available change tokens.
  lemma UntouchedIsAccepted(a: seq<Child>, b: seq<Child>, r: Recorded)
    requires Proper(a) && Proper(b) && Record(a) == Ok(r) && SameViews(a, b)
    ensures Accepts(b, r)
  {
    EnumerationOrderForgotten(a, b);
    StampsCount(a, a);
    forall i | 0 <= i < |r.directories| ensures DirectoryAccepted(b, r.directories[i], r.inputs) {
      RecordedDirectory(a, r.directories[i]);
      assert ViewAt(b, Split(r.directories[i].path)) == ViewAt(a, Split(r.directories[i].path));
    }
    forall i | 0 <= i < |r.manifest.entries| ensures EntryAccepted(b, r.manifest.entries[i], r.inputs) {
      RecordedEntry(a, r, i);
      assert ViewAt(b, Split(r.manifest.entries[i].path)) == ViewAt(a, Split(r.manifest.entries[i].path));
    }
  }
}
