/** Reading the canonical claims of a workspace: the scan that sorts every walked Markdown
    file into claims, invalid and legacy, and the two ways of finding one claim by its id. */
module Scan {
  import opened Wrappers
  import opened Ordering
  import opened Paths
  import opened Identifiers

  datatype WikiFile = WikiFile(path: string, bytes: string)

  // `content` stands for all that the document says apart from its id.
  datatype Doc = Doc(id: string, path: string, content: string)

  datatype Reading = NoClaim | Refused(why: string) | Good(doc: Doc)

  // `document` reads a file given its tier and path, up to the check of its path.
  datatype Parser = Parser(
    isClaim: string -> bool,
    document: (string, string, string) -> Reading
  )

  datatype Reader = Reader(
    read: WikiFile -> Reading,
    digestError: Doc -> Option<string>
  )

  datatype InvalidClaim = InvalidClaim(path: string, error: string)

  datatype ClaimScan = ClaimScan(claims: seq<Doc>, legacy: seq<string>, invalid: seq<InvalidClaim>)

  function FilePath(f: WikiFile): string { f.path }
  function DocPath(d: Doc): string { d.path }
  function InvalidPath(x: InvalidClaim): string { x.path }

  // ----- the reader -----

  function TierOf(path: string): string { path[..Slash(path)] }

  // What follows the last slash.
  function Base(path: string): (b: string)
    ensures |b| <= |path| && b == path[|path| - |b|..] && '/' !in b
    ensures |b| < |path| ==> path[|path| - |b| - 1] == '/'
  {
    if path == "" || path[|path| - 1] == '/' then ""
    else
      var b := Base(path[..|path| - 1]);
      b + [path[|path| - 1]]
  }

  function StripMd(name: string): string {
    if EndsWith(name, ".md") then name[..|name| - 3] else name
  }

  function Stem(path: string): string { StripMd(Base(path)) }

  const MISNAMED: string := "claim path id does not match frontmatter id"

  // A file named after a claim id must hold the claim of that id.
  function Parse(parser: Parser, f: WikiFile): Reading {
    match parser.document(TierOf(f.path), f.path, f.bytes)
    case Good(d) =>
      if IsClaimId(Stem(f.path)) && Stem(f.path) != d.id then Refused(MISNAMED) else Good(d.(path := f.path))
    case Refused(why) => Refused(why)
    case NoClaim => Refused("claim type")
  }

  // The check of the path id: a file named after a claim id holds the claim of that id.
  lemma ParsedNames(parser: Parser, f: WikiFile, d: Doc)
    requires Parse(parser, f) == Good(d)
    ensures d.path == f.path && (IsClaimId(Stem(f.path)) ==> Stem(f.path) == d.id)
  {
  }

  // A file reads as what its text says, under its tier and at its own path, unless it is named
  // after a claim id that is not the id of its claim.
  lemma ParseMeans(parser: Parser, f: WikiFile, tier: string, rest: string, d: Doc)
    requires f.path == tier + "/" + rest && '/' !in tier
    ensures Parse(parser, f) == Good(d) <==>
      exists e: Doc :: parser.document(tier, f.path, f.bytes) == Good(e) && d == Doc(e.id, f.path, e.content)
        && (IsClaimId(Stem(f.path)) ==> Stem(f.path) == e.id)
  {
    SlashOf(tier, "/" + rest);
    assert f.path == tier + ("/" + rest) && f.path[..|tier|] == tier;
  }

  function ReaderOf(parser: Parser, digestError: Doc -> Option<string>): Reader {
    Reader((f: WikiFile) => if parser.isClaim(f.bytes) then Parse(parser, f) else NoClaim, digestError)
  }

  // A document knows the path it was read from.
  ghost predicate Located(reader: Reader) {
    forall f :: reader.read(f).Good? ==> reader.read(f).doc.path == f.path
  }

  lemma ReaderLocates(parser: Parser, digestError: Doc -> Option<string>)
    ensures Located(ReaderOf(parser, digestError))
  {
  }

  // ----- what a scan is -----

  ghost predicate IsParsed(reader: Reader, files: seq<WikiFile>, d: Doc) {
    exists k :: 0 <= k < |files| && reader.read(files[k]) == Good(d)
  }

  ghost predicate Accepted(reader: Reader, files: seq<WikiFile>, verify: bool, d: Doc) {
    && IsParsed(reader, files, d)
    && (verify ==> reader.digestError(d).None?)
    && forall e :: IsParsed(reader, files, e) && e.id == d.id ==> e == d
  }

  function ParsedOf(reader: Reader, files: seq<WikiFile>): seq<Doc> {
    if files == [] then []
    else
      var f := files[|files| - 1];
      ParsedOf(reader, files[..|files| - 1])
      + if reader.read(f).Good? then [reader.read(f).doc] else []
  }

  function LegacyOf(reader: Reader, files: seq<WikiFile>): seq<string> {
    if files == [] then []
    else
      var f := files[|files| - 1];
      LegacyOf(reader, files[..|files| - 1]) + if reader.read(f).NoClaim? then [f.path] else []
  }

  function WithId(docs: seq<Doc>, id: string): seq<Doc> {
    if docs == [] then []
    else WithId(docs[..|docs| - 1], id) + if docs[|docs| - 1].id == id then [docs[|docs| - 1]] else []
  }

  function PathsOf(docs: seq<Doc>): seq<string> {
    seq(|docs|, i requires 0 <= i < |docs| => docs[i].path)
  }

  function DuplicateText(docs: seq<Doc>, id: string): string {
    "duplicate canonical claim ID \"" + id + "\" found at paths: " + JoinWith(Sort(PathsOf(WithId(docs, id))), ", ")
  }

  predicate Duplicated(docs: seq<Doc>, id: string) {
    |WithId(docs, id)| > 1
  }

  // What the file says against itself.
  function OwnReasons(reader: Reader, verify: bool, f: WikiFile): seq<string> {
    match reader.read(f)
    case NoClaim => []
    case Refused(why) => [why]
    case Good(d) => if verify && reader.digestError(d).Some? then [reader.digestError(d).value] else []
  }

  // What the other files say against it.
  function SharedReasons(reader: Reader, docs: seq<Doc>, f: WikiFile): seq<string> {
    if reader.read(f).Good? && Duplicated(docs, reader.read(f).doc.id) then [DuplicateText(docs, reader.read(f).doc.id)]
      else []
  }

  function Reasons(reader: Reader, files: seq<WikiFile>, verify: bool, f: WikiFile): seq<string> {
    OwnReasons(reader, verify, f) + SharedReasons(reader, ParsedOf(reader, files), f)
  }

  function InvalidOf(path: string, reasons: seq<string>): InvalidClaim {
    InvalidClaim(path, JoinWith(Sort(reasons), "; "))
  }

  ghost predicate IsFault(reader: Reader, files: seq<WikiFile>, verify: bool, f: WikiFile, x: InvalidClaim) {
    Reasons(reader, files, verify, f) != [] && x == InvalidOf(f.path, Reasons(reader, files, verify, f))
  }

  // The three lists, each sorted by path and without a repeated path.
  ghost predicate IsScan(reader: Reader, files: seq<WikiFile>, verify: bool, scan: ClaimScan) {
    && StrictBy(scan.claims, DocPath) && StrictBy(scan.legacy, Self) && StrictBy(scan.invalid, InvalidPath)
    && (forall d :: d in scan.claims <==> Accepted(reader, files, verify, d))
    && (forall p :: p in scan.legacy <==>
      exists k :: 0 <= k < |files| && reader.read(files[k]).NoClaim? && files[k].path == p)
    && (forall x :: x in scan.invalid <==> exists k :: 0 <= k < |files| && IsFault(reader, files, verify, files[k], x))
  }

  // ----- maps of reasons -----

  type ReasonMap = map<string, seq<string>>

  function At(m: ReasonMap, path: string): seq<string> {
    if path in m then m[path] else []
  }

  function Push(m: ReasonMap, path: string, reason: string): ReasonMap {
    m[path := At(m, path) + [reason]]
  }

  predicate NoneEmpty(m: ReasonMap) {
    forall path :: path in m ==> m[path] != []
  }

  method MarkAll(m: ReasonMap, docs: seq<Doc>, reason: string) returns (r: ReasonMap)
    requires DistinctBy(docs, DocPath) && NoneEmpty(m)
    ensures NoneEmpty(r)
    ensures forall path :: At(r, path) == At(m, path) + if path in PathsOf(docs) then [reason] else []
  {
    r := m;
    for i := 0 to |docs|
      invariant NoneEmpty(r)
      invariant forall path :: At(r, path) == At(m, path) + if path in PathsOf(docs)[..i] then [reason] else []
    {
      assert docs[i].path !in PathsOf(docs)[..i] by {
        forall k | 0 <= k < i ensures PathsOf(docs)[k] != docs[i].path { DistinctIndices(docs, DocPath, k, i); }
      }
      assert PathsOf(docs)[..i + 1] == PathsOf(docs)[..i] + [docs[i].path];
      r := Push(r, docs[i].path, reason);
    }
    assert PathsOf(docs)[..|docs|] == PathsOf(docs);
  }

  // ----- the lists the scan builds up -----

  lemma {:induction false} ParsedMembers(reader: Reader, files: seq<WikiFile>, d: Doc)
    ensures d in ParsedOf(reader, files) <==> IsParsed(reader, files, d)
  {
    if files != [] {
      var n := |files| - 1;
      var init := files[..n];
      ParsedMembers(reader, init, d);
      if IsParsed(reader, init, d) {
        var k :| 0 <= k < |init| && reader.read(init[k]) == Good(d);
        assert files[k] == init[k];
      }
      forall k | 0 <= k < n ensures init[k] == files[k] {}
    }
  }

  lemma {:induction false} ParsedDistinct(reader: Reader, files: seq<WikiFile>)
    requires DistinctBy(files, FilePath) && Located(reader)
    ensures DistinctBy(ParsedOf(reader, files), DocPath)
  {
    if files != [] {
      var n := |files| - 1;
      var init := files[..n];
      DistinctInit(files, FilePath);
      ParsedDistinct(reader, init);
      var docs := ParsedOf(reader, init);
      forall i | 0 <= i < |docs| ensures docs[i].path != files[n].path {
        ParsedMembers(reader, init, docs[i]);
        var k :| 0 <= k < |init| && reader.read(init[k]) == Good(docs[i]);
        DistinctIndices(files, FilePath, k, n);
      }
    }
  }

  lemma DistinctInit<T>(s: seq<T>, key: T -> string)
    requires DistinctBy(s, key) && s != []
    ensures DistinctBy(s[..|s| - 1], key)
  {
  }

  lemma {:induction false} LegacyMembers(reader: Reader, files: seq<WikiFile>, p: string)
    ensures p in LegacyOf(reader, files) <==>
      exists k :: 0 <= k < |files| && reader.read(files[k]).NoClaim? && files[k].path == p
  {
    if files != [] {
      var n := |files| - 1;
      LegacyMembers(reader, files[..n], p);
      forall k | 0 <= k < n ensures files[..n][k] == files[k] {}
    }
  }

  lemma {:induction false} LegacyDistinct(reader: Reader, files: seq<WikiFile>)
    requires DistinctBy(files, FilePath)
    ensures DistinctBy(LegacyOf(reader, files), Self)
  {
    if files != [] {
      var n := |files| - 1;
      DistinctInit(files, FilePath);
      LegacyDistinct(reader, files[..n]);
      var init := LegacyOf(reader, files[..n]);
      forall i | 0 <= i < |init| ensures init[i] != files[n].path {
        LegacyMembers(reader, files[..n], init[i]);
        var k :| 0 <= k < n && files[..n][k].path == init[i];
        DistinctIndices(files, FilePath, k, n);
      }
    }
  }

  lemma {:induction false} WithIdMembers(docs: seq<Doc>, id: string, d: Doc)
    ensures d in WithId(docs, id) <==> d in docs && d.id == id
  {
    if docs != [] {
      WithIdMembers(docs[..|docs| - 1], id, d);
      assert docs == docs[..|docs| - 1] + [docs[|docs| - 1]];
    }
  }

  lemma {:induction false} WithIdDistinct(docs: seq<Doc>, id: string)
    requires DistinctBy(docs, DocPath)
    ensures DistinctBy(WithId(docs, id), DocPath)
  {
    if docs != [] {
      var n := |docs| - 1;
      DistinctInit(docs, DocPath);
      WithIdDistinct(docs[..n], id);
      var init := WithId(docs[..n], id);
      forall i | 0 <= i < |init| ensures init[i].path != docs[n].path {
        WithIdMembers(docs[..n], id, init[i]);
        var k :| 0 <= k < n && docs[..n][k] == init[i];
        DistinctIndices(docs, DocPath, k, n);
      }
    }
  }

  // Counting more than one is finding another.
  lemma DuplicatedIsAnother(docs: seq<Doc>, d: Doc)
    requires DistinctBy(docs, DocPath) && d in docs
    ensures Duplicated(docs, d.id) <==> exists e :: e in docs && e.id == d.id && e != d
  {
    var same := WithId(docs, d.id);
    WithIdDistinct(docs, d.id);
    WithIdMembers(docs, d.id, d);
    if |same| > 1 {
      DistinctIndices(same, DocPath, 0, 1);
      var e := if same[0] == d then same[1] else same[0];
      WithIdMembers(docs, d.id, e);
    }
    if e :| e in docs && e.id == d.id && e != d {
      WithIdMembers(docs, d.id, e);
      var i :| 0 <= i < |same| && same[i] == d;
      var j :| 0 <= j < |same| && same[j] == e;
      assert i != j;
    }
  }

  // Another claim was read under the same id.
  ghost predicate SharesId(reader: Reader, files: seq<WikiFile>, d: Doc) {
    exists e :: IsParsed(reader, files, e) && e.id == d.id && e != d
  }

  // Each reason against a file: what the reader refused it for; or that its digest does not
  // hold, and that its id is taken, with all the paths under which it was found, in order.
  lemma ReasonsMean(reader: Reader, files: seq<WikiFile>, verify: bool, f: WikiFile) returns (paths: seq<string>)
    requires DistinctBy(files, FilePath) && Located(reader) && f in files
    ensures reader.read(f).NoClaim? ==> Reasons(reader, files, verify, f) == []
    ensures reader.read(f).Refused? ==> Reasons(reader, files, verify, f) == [reader.read(f).why]
    ensures reader.read(f).Good? ==>
      var d := reader.read(f).doc;
      var text := "duplicate canonical claim ID \"" + d.id + "\" found at paths: " + JoinWith(paths, ", ");
      && StrictBy(paths, Self)
      && (forall p :: p in paths <==> exists e :: IsParsed(reader, files, e) && e.id == d.id && e.path == p)
      && Reasons(reader, files, verify, f)
        == (if verify && reader.digestError(d).Some? then [reader.digestError(d).value] else [])
         + (if SharesId(reader, files, d) then [text] else [])
  {
    paths := [];
    if reader.read(f).Good? {
      var d, docs := reader.read(f).doc, ParsedOf(reader, files);
      var same := WithId(docs, d.id);
      paths := Sort(PathsOf(same));
      ParsedDistinct(reader, files);
      PathsStrict(docs, d.id);
      forall p ensures p in paths <==> exists e :: IsParsed(reader, files, e) && e.id == d.id && e.path == p {
        SortMembers(PathsOf(same), Self, p);
        PathsWithId(reader, files, d.id, p);
      }
      ParsedMembers(reader, files, d);
      DuplicatedIsAnother(docs, d);
      forall e ensures e in docs <==> IsParsed(reader, files, e) { ParsedMembers(reader, files, e); }
    }
  }

  lemma PathsStrict(docs: seq<Doc>, id: string)
    requires DistinctBy(docs, DocPath)
    ensures StrictBy(Sort(PathsOf(WithId(docs, id))), Self)
  {
    var same := WithId(docs, id);
    WithIdDistinct(docs, id);
    forall i, j | 0 <= i < j < |same| ensures PathsOf(same)[i] != PathsOf(same)[j] {
      DistinctIndices(same, DocPath, i, j);
    }
    SortStrict(PathsOf(same), Self);
  }

  lemma PathsWithId(reader: Reader, files: seq<WikiFile>, id: string, p: string)
    ensures p in PathsOf(WithId(ParsedOf(reader, files), id)) <==>
      exists e :: IsParsed(reader, files, e) && e.id == id && e.path == p
  {
    var docs := ParsedOf(reader, files);
    var same := WithId(docs, id);
    if p in PathsOf(same) {
      var i :| 0 <= i < |same| && PathsOf(same)[i] == p;
      WithIdMembers(docs, id, same[i]);
      ParsedMembers(reader, files, same[i]);
    }
    if e :| IsParsed(reader, files, e) && e.id == id && e.path == p {
      ParsedMembers(reader, files, e);
      WithIdMembers(docs, id, e);
      var i :| 0 <= i < |same| && same[i] == e;
      assert PathsOf(same)[i] == p;
    }
  }

  // A file with reasons against it is listed with all of them, sorted.
  lemma FaultMeans(reader: Reader, files: seq<WikiFile>, verify: bool, f: WikiFile, x: InvalidClaim)
    returns (reasons: seq<string>)
    requires IsFault(reader, files, verify, f, x)
    ensures x.path == f.path && x.error == JoinWith(reasons, "; ")
    ensures SortedBy(reasons, Self) && multiset(reasons) == multiset(Reasons(reader, files, verify, f)) && reasons != []
  {
    reasons := Sort(Reasons(reader, files, verify, f));
    SortSorts(Reasons(reader, files, verify, f), Self);
  }

  // ----- the passes of the scan -----

  ghost predicate Grouped(docs: seq<Doc>, byId: map<string, seq<Doc>>) {
    forall id :: (id in byId <==> WithId(docs, id) != []) && (id in byId ==> byId[id] == WithId(docs, id))
  }

  ghost predicate OwnMarks(reader: Reader, files: seq<WikiFile>, verify: bool, m: ReasonMap) {
    && NoneEmpty(m)
    && (forall k :: 0 <= k < |files| ==> At(m, files[k].path) == OwnReasons(reader, verify, files[k]))
    && (forall p :: p in m ==> exists k :: 0 <= k < |files| && files[k].path == p)
  }

  function Group(byId: map<string, seq<Doc>>, d: Doc): map<string, seq<Doc>> {
    byId[d.id := (if d.id in byId then byId[d.id] else []) + [d]]
  }

  lemma GroupedStep(docs: seq<Doc>, byId: map<string, seq<Doc>>, d: Doc)
    requires Grouped(docs, byId)
    ensures Grouped(docs + [d], Group(byId, d))
  {
    assert (docs + [d])[..|docs|] == docs;
  }

  lemma OwnMarksStep(reader: Reader, files: seq<WikiFile>, verify: bool, m: ReasonMap, f: WikiFile)
    requires OwnMarks(reader, files, verify, m) && DistinctBy(files + [f], FilePath)
    ensures f.path !in m
    ensures var own := OwnReasons(reader, verify, f);
      OwnMarks(reader, files + [f], verify, if own == [] then m else Push(m, f.path, own[0]))
  {
    var all := files + [f];
    forall k | 0 <= k < |files| ensures files[k].path != f.path && all[k] == files[k] {
      DistinctIndices(all, FilePath, k, |files|);
    }
    assert all[|files|] == f;
  }

  lemma ListsStep(reader: Reader, files: seq<WikiFile>, i: nat)
    requires i < |files|
    ensures ParsedOf(reader, files[..i + 1]) == ParsedOf(reader, files[..i])
      + if reader.read(files[i]).Good? then [reader.read(files[i]).doc] else []
    ensures LegacyOf(reader, files[..i + 1]) == LegacyOf(reader, files[..i])
      + if reader.read(files[i]).NoClaim? then [files[i].path] else []
  {
    assert files[..i + 1][..i] == files[..i];
  }

  // Puts one file where it belongs.
  method ReadOne(reader: Reader, f: WikiFile, verify: bool,
                 parsed: seq<Doc>, byId: map<string, seq<Doc>>, reasons: ReasonMap, legacy: seq<string>)
    returns (parsed2: seq<Doc>, byId2: map<string, seq<Doc>>, reasons2: ReasonMap, legacy2: seq<string>)
    requires Grouped(parsed, byId)
    ensures parsed2 == parsed + (if reader.read(f).Good? then [reader.read(f).doc] else []) && Grouped(parsed2, byId2)
    ensures legacy2 == legacy + if reader.read(f).NoClaim? then [f.path] else []
    ensures reasons2 == var own := OwnReasons(reader, verify, f); if own == [] then reasons
      else Push(reasons, f.path, own[0])
  {
    parsed2, byId2, reasons2, legacy2 := parsed, byId, reasons, legacy;
    match reader.read(f)
    case NoClaim =>
      legacy2 := legacy + [f.path];
    case Refused(why) =>
      reasons2 := Push(reasons, f.path, why);
    case Good(d) =>
      GroupedStep(parsed, byId, d);
      byId2 := Group(byId, d);
      if verify && reader.digestError(d).Some? {
        reasons2 := Push(reasons, f.path, reader.digestError(d).value);
      }
      parsed2 := parsed + [d];
  }

  ghost predicate ReadSoFar(reader: Reader, files: seq<WikiFile>, verify: bool,
                            parsed: seq<Doc>, byId: map<string, seq<Doc>>, reasons: ReasonMap, legacy: seq<string>)
  {
    && parsed == ParsedOf(reader, files) && Grouped(parsed, byId) && legacy == LegacyOf(reader, files)
    && OwnMarks(reader, files, verify, reasons)
  }

  lemma ReadStep(reader: Reader, files: seq<WikiFile>, i: nat, verify: bool, parsed: seq<Doc>,
                 byId: map<string, seq<Doc>>, reasons: ReasonMap, legacy: seq<string>, byId2: map<string, seq<Doc>>)
    requires i < |files| && DistinctBy(files, FilePath)
    requires ReadSoFar(reader, files[..i], verify, parsed, byId, reasons, legacy)
    requires Grouped(parsed + (if reader.read(files[i]).Good? then [reader.read(files[i]).doc] else []), byId2)
    ensures var own := OwnReasons(reader, verify, files[i]);
      ReadSoFar(reader, files[..i + 1], verify,
        parsed + (if reader.read(files[i]).Good? then [reader.read(files[i]).doc] else []), byId2,
        if own == [] then reasons else Push(reasons, files[i].path, own[0]),
        legacy + if reader.read(files[i]).NoClaim? then [files[i].path] else [])
  {
    assert files[..i + 1] == files[..i] + [files[i]];
    OwnMarksStep(reader, files[..i], verify, reasons, files[i]);
    ListsStep(reader, files, i);
  }

  method ReadAll(reader: Reader, files: seq<WikiFile>, verify: bool)
    returns (parsed: seq<Doc>, byId: map<string, seq<Doc>>, reasons: ReasonMap, legacy: seq<string>)
    requires DistinctBy(files, FilePath)
    ensures ReadSoFar(reader, files, verify, parsed, byId, reasons, legacy)
  {
    parsed, byId, reasons, legacy := [], map[], map[], [];
    for i := 0 to |files|
      invariant ReadSoFar(reader, files[..i], verify, parsed, byId, reasons, legacy)
    {
      ghost var p, b, r, l := parsed, byId, reasons, legacy;
      parsed, byId, reasons, legacy := ReadOne(reader, files[i], verify, parsed, byId, reasons, legacy);
      ReadStep(reader, files, i, verify, p, b, r, l, byId);
    }
    assert files[..|files|] == files;
  }

  function OwnerOf(docs: seq<Doc>, path: string): Option<Doc> {
    if docs == [] then None
    else if docs[|docs| - 1].path == path then Some(docs[|docs| - 1])
    else OwnerOf(docs[..|docs| - 1], path)
  }

  lemma LastApart(docs: seq<Doc>, d: Doc)
    requires DistinctBy(docs, DocPath) && docs != []
    ensures d in docs[..|docs| - 1] ==> d.path != docs[|docs| - 1].path
  {
  }

  lemma {:induction false} OwnerIs(docs: seq<Doc>, path: string, d: Doc)
    requires DistinctBy(docs, DocPath)
    ensures OwnerOf(docs, path) == Some(d) <==> d in docs && d.path == path
  {
    if docs != [] {
      var n := |docs| - 1;
      DistinctInit(docs, DocPath);
      OwnerIs(docs[..n], path, d);
      assert docs == docs[..n] + [docs[n]];
      LastApart(docs, d);
    }
  }

  function MarksAmong(docs: seq<Doc>, ids: seq<string>, path: string): seq<string> {
    match OwnerOf(docs, path)
    case None => []
    case Some(d) => if d.id in ids then [DuplicateText(docs, d.id)] else []
  }

  function MarksAt(docs: seq<Doc>, path: string): seq<string> {
    match OwnerOf(docs, path)
    case None => []
    case Some(d) => if Duplicated(docs, d.id) then [DuplicateText(docs, d.id)] else []
  }

  lemma InPathsOf(docs: seq<Doc>, path: string)
    ensures path in PathsOf(docs) <==> exists d :: d in docs && d.path == path
  {
    if d :| d in docs && d.path == path {
      var i :| 0 <= i < |docs| && docs[i] == d;
      assert PathsOf(docs)[i] == path;
    }
  }

  lemma MarksStep(docs: seq<Doc>, ids: seq<string>, i: nat, path: string)
    requires DistinctBy(docs, DocPath) && StrictBy(ids, Self) && i < |ids|
    ensures MarksAmong(docs, ids[..i + 1], path)
      == MarksAmong(docs, ids[..i], path) + if path in PathsOf(WithId(docs, ids[i])) then [DuplicateText(docs, ids[i])]
        else []
  {
    InPathsOf(WithId(docs, ids[i]), path);
    assert ids[..i + 1] == ids[..i] + [ids[i]];
    forall k | 0 <= k < i ensures ids[..i][k] != ids[i] { StrictIsDistinct(ids, Self, k, i); }
    forall d: Doc
      ensures d in WithId(docs, ids[i]) && d.path == path <==> OwnerOf(docs, path) == Some(d) && d.id == ids[i]
    {
      WithIdMembers(docs, ids[i], d);
      OwnerIs(docs, path, d);
    }
  }

  lemma MarksAll(docs: seq<Doc>, byId: map<string, seq<Doc>>, ids: seq<string>, path: string)
    requires Grouped(docs, byId) && DistinctBy(docs, DocPath)
    requires forall id :: id in ids <==> id in byId && |byId[id]| > 1
    ensures MarksAmong(docs, ids, path) == MarksAt(docs, path)
  {
  }

  lemma MarkedBehind(own: seq<string>, some: seq<string>, before: seq<string>, after: seq<string>, more: seq<string>)
    requires before == own + some && after == before + more
    ensures after == own + (some + more)
  {
  }

  method MarkDuplicates(docs: seq<Doc>, byId: map<string, seq<Doc>>, reasons: ReasonMap) returns (r: ReasonMap)
    requires DistinctBy(docs, DocPath) && Grouped(docs, byId) && NoneEmpty(reasons)
    ensures NoneEmpty(r)
    ensures forall path :: At(r, path) == At(reasons, path) + MarksAt(docs, path)
  {
    var ids := SortedKeys(set id | id in byId && |byId[id]| > 1);
    r := reasons;
    for i := 0 to |ids|
      invariant NoneEmpty(r)
      invariant forall path :: At(r, path) == At(reasons, path) + MarksAmong(docs, ids[..i], path)
    {
      assert ids[i] in ids;
      WithIdDistinct(docs, ids[i]);
      ghost var before := r;
      r := MarkAll(r, byId[ids[i]], DuplicateText(docs, ids[i]));
      forall path ensures At(r, path) == At(reasons, path) + MarksAmong(docs, ids[..i + 1], path) {
        MarksStep(docs, ids, i, path);
        MarkedBehind(At(reasons, path), MarksAmong(docs, ids[..i], path), At(before, path), At(r, path),
          if path in PathsOf(WithId(docs, ids[i])) then [DuplicateText(docs, ids[i])] else []);
      }
    }
    assert ids[..|ids|] == ids;
    forall path ensures MarksAmong(docs, ids, path) == MarksAt(docs, path) {
      MarksAll(docs, byId, ids, path);
    }
  }

  method Collect(parsed: seq<Doc>, m: ReasonMap) returns (claims: seq<Doc>, invalid: seq<InvalidClaim>)
    requires DistinctBy(parsed, DocPath) && NoneEmpty(m)
    ensures StrictBy(claims, DocPath) && forall d :: d in claims <==> d in parsed && d.path !in m
    ensures StrictBy(invalid, InvalidPath)
    ensures forall x :: x in invalid <==> x.path in m && x == InvalidOf(x.path, m[x.path])
  {
    var sorted := SortBy(parsed, DocPath);
    SortStrict(parsed, DocPath);
    claims := [];
    for i := 0 to |sorted|
      invariant StrictBy(claims, DocPath) && forall d :: d in claims <==> d in sorted[..i] && d.path !in m
    {
      forall d | d in claims ensures Lt(d.path, sorted[i].path) {
        var k :| 0 <= k < i && sorted[k] == d;
      }
      if At(m, sorted[i].path) == [] { claims := claims + [sorted[i]]; }
    }
    forall d ensures d in sorted[..|sorted|] <==> d in parsed {
      assert sorted[..|sorted|] == sorted;
      SortMembers(parsed, DocPath, d);
    }
    var paths := SortedKeys(m.Keys);
    invalid := [];
    for i := 0 to |paths|
      invariant |invalid| == i
      invariant forall k :: 0 <= k < i ==> paths[k] in m && invalid[k] == InvalidOf(paths[k], m[paths[k]])
    {
      assert paths[i] in paths;
      invalid := invalid + [InvalidOf(paths[i], m[paths[i]])];
    }
    forall x ensures x in invalid <==> x.path in m && x == InvalidOf(x.path, m[x.path]) {
      if x.path in m && x == InvalidOf(x.path, m[x.path]) {
        var k :| 0 <= k < |paths| && paths[k] == x.path;
        assert invalid[k] == x;
      }
    }
  }

  lemma MarksAreReasons(reader: Reader, files: seq<WikiFile>, verify: bool, k: nat)
    requires DistinctBy(files, FilePath) && Located(reader) && k < |files|
    ensures OwnReasons(reader, verify, files[k]) + MarksAt(ParsedOf(reader, files), files[k].path)
      == Reasons(reader, files, verify, files[k])
  {
    var docs, f := ParsedOf(reader, files), files[k];
    ParsedDistinct(reader, files);
    match OwnerOf(docs, f.path)
    case Some(d) =>
      OwnerIs(docs, f.path, d);
      ParsedMembers(reader, files, d);
      var i :| 0 <= i < |files| && reader.read(files[i]) == Good(d);
      DistinctIndices(files, FilePath, i, k);
    case None =>
      if reader.read(f).Good? {
        OwnerIs(docs, f.path, reader.read(f).doc);
        ParsedMembers(reader, files, reader.read(f).doc);
      }
  }

  lemma CleanIsAccepted(reader: Reader, files: seq<WikiFile>, verify: bool, d: Doc, k: nat)
    requires DistinctBy(files, FilePath) && Located(reader) && k < |files| && reader.read(files[k]) == Good(d)
    ensures Accepted(reader, files, verify, d) <==> Reasons(reader, files, verify, files[k]) == []
  {
    var docs := ParsedOf(reader, files);
    ParsedDistinct(reader, files);
    forall e ensures e in docs <==> IsParsed(reader, files, e) { ParsedMembers(reader, files, e); }
    DuplicatedIsAnother(docs, d);
  }

  method ScanWorkspace(reader: Reader, files: seq<WikiFile>, verify: bool) returns (scan: ClaimScan)
    requires DistinctBy(files, FilePath) && Located(reader)
    ensures IsScan(reader, files, verify, scan)
  {
    var parsed, byId, reasons, legacy := ReadAll(reader, files, verify);
    ParsedDistinct(reader, files);
    ghost var own := reasons;
    reasons := MarkDuplicates(parsed, byId, reasons);
    var claims, invalid := Collect(parsed, reasons);
    scan := ClaimScan(claims, Sort(legacy), invalid);
    LegacyDistinct(reader, files);
    SortStrict(legacy, Self);
    forall p
      ensures p in scan.legacy <==> exists k :: 0 <= k < |files| && reader.read(files[k]).NoClaim? && files[k].path == p
    {
      SortMembers(legacy, Self, p);
      LegacyMembers(reader, files, p);
    }
    forall k | 0 <= k < |files| ensures At(reasons, files[k].path) == Reasons(reader, files, verify, files[k]) {
      MarksAreReasons(reader, files, verify, k);
    }
    ClaimsAreAccepted(reader, files, verify, reasons, claims);
    InvalidAreFaults(reader, files, verify, own, reasons, invalid);
  }

  lemma ClaimsAreAccepted(reader: Reader, files: seq<WikiFile>, verify: bool, m: ReasonMap, claims: seq<Doc>)
    requires DistinctBy(files, FilePath) && Located(reader) && NoneEmpty(m)
    requires forall k :: 0 <= k < |files| ==> At(m, files[k].path) == Reasons(reader, files, verify, files[k])
    requires forall d :: d in claims <==> d in ParsedOf(reader, files) && d.path !in m
    ensures forall d :: d in claims <==> Accepted(reader, files, verify, d)
  {
    forall d ensures d in claims <==> Accepted(reader, files, verify, d) {
      ParsedMembers(reader, files, d);
      if IsParsed(reader, files, d) {
        var k :| 0 <= k < |files| && reader.read(files[k]) == Good(d);
        CleanIsAccepted(reader, files, verify, d, k);
      }
    }
  }

  lemma InvalidAreFaults(reader: Reader, files: seq<WikiFile>, verify: bool, own: ReasonMap, m: ReasonMap,
                         invalid: seq<InvalidClaim>)
    requires DistinctBy(files, FilePath) && Located(reader) && NoneEmpty(m) && OwnMarks(reader, files, verify, own)
    requires forall path :: At(m, path) == At(own, path) + MarksAt(ParsedOf(reader, files), path)
    requires forall k :: 0 <= k < |files| ==> At(m, files[k].path) == Reasons(reader, files, verify, files[k])
    requires forall x :: x in invalid <==> x.path in m && x == InvalidOf(x.path, m[x.path])
    ensures forall x :: x in invalid <==> exists k :: 0 <= k < |files| && IsFault(reader, files, verify, files[k], x)
  {
    forall x ensures x in invalid <==> exists k :: 0 <= k < |files| && IsFault(reader, files, verify, files[k], x) {
      if x.path in m && x == InvalidOf(x.path, m[x.path]) {
        MarkedIsWalked(reader, files, verify, own, x.path);
        var k :| 0 <= k < |files| && files[k].path == x.path;
        assert At(m, files[k].path) == m[x.path];
      }
      if k :| 0 <= k < |files| && IsFault(reader, files, verify, files[k], x) {
        assert At(m, files[k].path) != [];
      }
    }
  }

  lemma MarkedIsWalked(reader: Reader, files: seq<WikiFile>, verify: bool, own: ReasonMap, path: string)
    requires DistinctBy(files, FilePath) && Located(reader) && OwnMarks(reader, files, verify, own)
    requires At(own, path) + MarksAt(ParsedOf(reader, files), path) != []
    ensures exists k :: 0 <= k < |files| && files[k].path == path
  {
    if path !in own {
      var docs := ParsedOf(reader, files);
      var d := OwnerOf(docs, path).value;
      ParsedDistinct(reader, files);
      OwnerIs(docs, path, d);
      ParsedMembers(reader, files, d);
    }
  }

  // ----- what a scan says -----

  // Every walked file is in exactly one of the three lists, and the lists hold nothing else.
  lemma EachFileOnce(reader: Reader, files: seq<WikiFile>, verify: bool, scan: ClaimScan, k: nat)
    requires DistinctBy(files, FilePath) && Located(reader) && IsScan(reader, files, verify, scan) && k < |files|
    ensures var p := files[k].path;
      var claimed := exists d :: d in scan.claims && d.path == p;
      var invalid := exists x :: x in scan.invalid && x.path == p;
      && (claimed <==> !invalid && p !in scan.legacy)
      && (invalid <==> !claimed && p !in scan.legacy)
  {
    var f := files[k];
    forall i | 0 <= i < |files| && files[i].path == f.path ensures i == k { DistinctIndices(files, FilePath, i, k); }
    if reader.read(f).Good? {
      CleanIsAccepted(reader, files, verify, reader.read(f).doc, k);
      assert IsParsed(reader, files, reader.read(f).doc);
    }
    if d :| d in scan.claims && d.path == f.path {
      var i :| 0 <= i < |files| && reader.read(files[i]) == Good(d);
    }
    if Reasons(reader, files, verify, f) != [] {
      assert IsFault(reader, files, verify, f, InvalidOf(f.path, Reasons(reader, files, verify, f)));
    }
  }

  lemma ClaimIdsDistinct(reader: Reader, files: seq<WikiFile>, verify: bool, scan: ClaimScan, i: nat, j: nat)
    requires IsScan(reader, files, verify, scan) && i < j < |scan.claims|
    ensures scan.claims[i].id != scan.claims[j].id
  {
    assert Accepted(reader, files, verify, scan.claims[i]) && Accepted(reader, files, verify, scan.claims[j]);
    StrictIsDistinct(scan.claims, DocPath, i, j);
  }

  // Nothing is left open: the files determine the scan.
  lemma ScanIsDetermined(reader: Reader, files: seq<WikiFile>, verify: bool, a: ClaimScan, b: ClaimScan)
    requires IsScan(reader, files, verify, a) && IsScan(reader, files, verify, b)
    ensures a == b
  {
    StrictUnique(a.claims, b.claims, DocPath);
    StrictUnique(a.legacy, b.legacy, Self);
    StrictUnique(a.invalid, b.invalid, InvalidPath);
  }

  // ----- the scan with the path-id check -----

  // The claim stands in one of the files, and a file named after a claim id holds that claim.
  ghost predicate ReadFromFile(parser: Parser, files: seq<WikiFile>, d: Doc) {
    && (IsClaimId(Stem(d.path)) ==> Stem(d.path) == d.id)
    && exists f :: f in files && f.path == d.path && parser.isClaim(f.bytes) && Parse(parser, f) == Good(d)
  }

  method ScanClaims(parser: Parser, digestError: Doc -> Option<string>, files: seq<WikiFile>, verify: bool)
    returns (scan: ClaimScan)
    requires DistinctBy(files, FilePath)
    ensures IsScan(ReaderOf(parser, digestError), files, verify, scan)
    ensures forall i, j :: 0 <= i < j < |scan.claims| ==> scan.claims[i].id != scan.claims[j].id
    ensures forall d :: d in scan.claims ==> ReadFromFile(parser, files, d)
  {
    var reader := ReaderOf(parser, digestError);
    ReaderLocates(parser, digestError);
    scan := ScanWorkspace(reader, files, verify);
    forall i, j | 0 <= i < j < |scan.claims| ensures scan.claims[i].id != scan.claims[j].id {
      ClaimIdsDistinct(reader, files, verify, scan, i, j);
    }
    forall d | d in scan.claims ensures ReadFromFile(parser, files, d) {
      ClaimWasRead(parser, digestError, files, verify, scan, d);
    }
  }

  lemma ClaimWasRead(parser: Parser, digestError: Doc -> Option<string>, files: seq<WikiFile>, verify: bool,
                     scan: ClaimScan, d: Doc)
    requires IsScan(ReaderOf(parser, digestError), files, verify, scan) && d in scan.claims
    ensures ReadFromFile(parser, files, d)
  {
    var reader := ReaderOf(parser, digestError);
    assert Accepted(reader, files, verify, d);
    var k :| 0 <= k < |files| && reader.read(files[k]) == Good(d);
    ParsedNames(parser, files[k], d);
    assert files[k] in files;
  }
}
