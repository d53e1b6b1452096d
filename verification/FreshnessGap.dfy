/** When the stamp check can miss a change. A rebuild records the stamps of the directories in
    a pass of its own, and skips a tier that is a regular file at that moment. When it is a
    directory again for the manifest, the index is published, and a claim file added to the
    tier later goes unseen. */
module FreshnessGap {
  import opened Wrappers
  import opened Paths
  import opened TrustTree
  import opened TrustManifest
  import opened Freshness
  import opened MendedTree

  // Whatever the other passes saw and whatever was done since, the check is right.
  ghost predicate Sound(directories: seq<Child>) {
    forall files, last, now, r :: Accepted(Times(files, directories, last, now), r) ==>
      BuildManifest(now) == Ok(r.manifest)
  }

  // Some recorded directory has no change token, so that everything is rehashed.
  ghost predicate Tokenless(root: seq<Child>) {
    CollectDirectories(root).Ok? && exists d :: d in CollectDirectories(root).value && d.stamp.changeToken < 0
  }

  // The tiers that are recorded, and the sources, let a manifest be built.
  ghost predicate RecordedClean(root: seq<Child>) {
    (forall tier :: tier in TIERS && ViewAt(root, ["wiki", tier]).DirView? ==> CleanTier(root, tier))
      && CleanSources(root)
  }

  // ----- the check is right -----

  lemma TokenlessRehashes(h: Times, r: Recorded)
    requires Accepted(h, r) && Tokenless(h.directories)
    ensures MustRehash(h.now, r)
  {
    var d :| d in CollectDirectories(h.directories).value && d.stamp.changeToken < 0;
    var i :| 0 <= i < |r.directories| && r.directories[i] == d;
    assert Doubtful(h.now, r.directories[i]);
  }

  // What is recorded was still the same when the manifest was built.
  lemma TrustingClean(h: Times, r: Recorded)
    requires Trusting(h, r)
    ensures RecordedClean(h.directories)
  {
    BuildOk(h.last);
    forall tier | tier in TIERS && ViewAt(h.directories, ["wiki", tier]).DirView?
      ensures CleanTier(h.directories, tier)
    {
      WasCleanTier(h, r, tier);
    }
    WasCleanSources(h, r);
  }

  lemma WasCleanTier(h: Times, r: Recorded, tier: string)
    requires Trusting(h, r) && tier in TIERS && ViewAt(h.directories, ["wiki", tier]).DirView?
      && CleanTier(h.last, tier)
    ensures CleanTier(h.directories, tier)
  {
    forall parts | |parts| >= 3 && parts[0] == "wiki" && parts[1] == tier
      ensures !ViewAt(h.directories, parts).LinkView?
      ensures HasMdExtension(Last(parts)) ==>
        ViewAt(h.directories, parts).Missing? || ViewAt(h.directories, parts).FileView?
    {
      TierSameKind(h, r, parts);
      assert !ViewAt(h.last, parts).LinkView?;
    }
  }

  lemma WasCleanSources(h: Times, r: Recorded)
    requires Trusting(h, r) && CleanSources(h.last)
    ensures CleanSources(h.directories)
  {
    SourcesCollected(h.directories);
    forall id ensures !ViewAt(h.directories, ["evidence", "sources", id]).LinkView? {
      SourceSameKind(h, r, id, "");
      assert !ViewAt(h.last, ["evidence", "sources", id]).LinkView?;
    }
    forall id, name, kind | SourceKind(name, kind)
      ensures var v := ViewAt(h.directories, ["evidence", "sources", id, name]); v.Missing? || v.FileView?
    {
      SourceSameKind(h, r, id, name);
      var v := ViewAt(h.last, ["evidence", "sources", id, name]);
      assert v.Missing? || v.FileView?;
    }
  }

  // ----- a manifest can be built of it -----

  lemma {:induction false} TierCollected(root: seq<Child>, tiers: seq<string>, tier: string)
    requires TiersDirectories(root, tiers).Ok? && tier in tiers
    ensures !ViewAt(root, ["wiki", tier]).Missing?
  {
    if tiers[0] != tier { TierCollected(root, tiers[1..], tier); }
  }

  lemma MendedCleanTier(root: seq<Child>, tier: string)
    requires RecordedClean(root) && tier in TIERS && !ViewAt(root, ["wiki", tier]).Missing?
    ensures CleanTier(Mended(root, []), tier)
  {
    MendedShows(root, [], ["wiki", tier]);
    forall parts | |parts| >= 3 && parts[0] == "wiki" && parts[1] == tier
      ensures !ViewAt(Mended(root, []), parts).LinkView?
      ensures HasMdExtension(Last(parts)) ==>
        ViewAt(Mended(root, []), parts).Missing? || ViewAt(Mended(root, []), parts).FileView?
    {
      MendedShows(root, [], parts);
      if !InMended(root, parts) { assert CleanTier(root, tier) && !ViewAt(root, parts).LinkView?; }
    }
  }

  lemma WasClean(root: seq<Child>)
    requires CleanTree(Mended(root, []))
    ensures RecordedClean(root)
  {
    forall tier | tier in TIERS && ViewAt(root, ["wiki", tier]).DirView? ensures CleanTier(root, tier) {
      WasCleanBefore(root, tier);
    }
    MendedShows(root, [], ["evidence", "sources"]);
    forall id ensures !ViewAt(root, ["evidence", "sources", id]).LinkView? {
      MendedShows(root, [], ["evidence", "sources", id]);
      assert !ViewAt(Mended(root, []), ["evidence", "sources", id]).LinkView?;
    }
    forall id, name, kind | SourceKind(name, kind)
      ensures var v := ViewAt(root, ["evidence", "sources", id, name]); v.Missing? || v.FileView?
    {
      MendedShows(root, [], ["evidence", "sources", id, name]);
      var v := ViewAt(Mended(root, []), ["evidence", "sources", id, name]);
      assert v.Missing? || v.FileView?;
    }
  }

  lemma WasCleanBefore(root: seq<Child>, tier: string)
    requires CleanTier(Mended(root, []), tier) && ViewAt(root, ["wiki", tier]).DirView?
    ensures CleanTier(root, tier)
  {
    forall parts | |parts| >= 3 && parts[0] == "wiki" && parts[1] == tier
      ensures !ViewAt(root, parts).LinkView?
      ensures HasMdExtension(Last(parts)) ==> ViewAt(root, parts).Missing? || ViewAt(root, parts).FileView?
    {
      MendedShows(root, [], parts);
      assert !ViewAt(Mended(root, []), parts).LinkView?;
    }
  }

  // What was recorded is clean exactly when a manifest can be built with the missing tiers put
  // in place, empty.
  lemma MendedBuilds(root: seq<Child>)
    requires Proper(root) && CollectDirectories(root).Ok?
    ensures Proper(Mended(root, []))
    ensures BuildManifest(Mended(root, [])).Ok? <==> RecordedClean(root)
  {
    MendedProper(root, []);
    BuildOk(Mended(root, []));
    if RecordedClean(root) {
      forall tier | tier in TIERS ensures CleanTier(Mended(root, []), tier) {
        TierCollected(root, TIERS, tier);
        MendedCleanTier(root, tier);
      }
      MendedSources(root, []);
    }
    if CleanTree(Mended(root, [])) { WasClean(root); }
  }

  // ----- a change that goes unseen -----

  const NewClaim: seq<Child> := [Child("x.md", File(SomeToken, ""))]

  // The new claim file alone is there afterwards and not before.
  lemma BeforeAndAfter(root: seq<Child>, parts: seq<string>)
    ensures InMended(root, parts) && parts[2..] == ["x.md"] ==>
      ViewAt(Mended(root, []), parts).Missing? && ViewAt(Mended(root, NewClaim), parts).FileView?
    ensures !(InMended(root, parts) && parts[2..] == ["x.md"]) ==>
      ViewAt(Mended(root, NewClaim), parts) == ViewAt(Mended(root, []), parts)
    ensures ViewAt(Mended(root, []), parts).FileView? ==> ViewAt(Mended(root, []), parts).stamp == SomeToken
  {
    MendedShows(root, [], parts);
    MendedShows(root, NewClaim, parts);
    if InMended(root, parts) && parts[2..] != [] {
      OneStep(NewClaim, parts[2..]);
      OneStep([], parts[2..]);
      OnlyNewClaim(parts[2]);
    }
  }

  lemma OnlyNewClaim(name: string)
    ensures Find(NewClaim, name) == if name == "x.md" then Some(File(SomeToken, "")) else None
  {
    assert NewClaim[1..] == [];
  }

  // A directory that shows the same stamp, with a token, in the mended tree as in the given one.
  lemma MendedDirectory(root: seq<Child>, kids: seq<Child>, parts: seq<string>, name: string)
    requires Proper(kids) && ViewAt(root, parts).DirView?
      && SameStamp(ViewAt(root, parts), ViewAt(Mended(root, kids), parts))
    ensures !InMended(root, parts) && !InMended(root, parts + [name])
    ensures ViewAt(Mended(root, kids), parts) == ViewAt(root, parts)
    ensures SameKindBelow(root, Mended(root, kids), parts, name)
  {
    MendedShows(root, kids, parts);
    MendedShows(root, kids, parts + [name]);
    DirectoryNotMended(root, parts);
  }

  lemma StampsTellOfMended(root: seq<Child>)
    ensures StampsTell(Times(Mended(root, []), root, Mended(root, []), Mended(root, NewClaim)))
  {
    var before, after := Mended(root, []), Mended(root, NewClaim);
    forall parts ensures ViewAt(before, parts).FileView? ==> ViewAt(before, parts) == ViewAt(after, parts) {
      BeforeAndAfter(root, parts);
    }
    forall parts, name ensures DirectoryTells(root, before, after, parts, name) {
      BeforeAndAfter(root, parts);
      if ViewAt(root, parts).DirView? && SameStamp(ViewAt(root, parts), ViewAt(after, parts)) {
        MendedDirectory(root, NewClaim, parts, name);
        MendedDirectory(root, [], parts, name);
      }
    }
  }

  lemma DirectoryNotMended(root: seq<Child>, parts: seq<string>)
    requires ViewAt(root, parts).DirView?
    ensures !InMended(root, parts)
  {
    if TierPath(parts) {
      var at := ["wiki", parts[1]];
      assert parts == at + parts[2..];
      if parts[2..] != [] { ViewThrough(root, at, parts[2..]); } else { assert parts == at; }
    }
  }

  lemma DirectoriesAccepted(root: seq<Child>, d: DirectoryStamp, known: map<string, Stamp>)
    requires Proper(root) && CollectDirectories(root).Ok? && d in CollectDirectories(root).value
      && d.stamp.changeToken >= 0
    ensures DirectoryAccepted(Mended(root, NewClaim), d, known) && !Doubtful(Mended(root, NewClaim), d)
  {
    RecordedDirectory(root, d);
    DirectoryNotMended(root, Split(d.path));
    MendedShows(root, NewClaim, Split(d.path));
    SameStampAccepted(Mended(root, NewClaim), d, known);
  }

  lemma SameStampAccepted(root: seq<Child>, d: DirectoryStamp, known: map<string, Stamp>)
    requires ViewAt(root, Split(d.path)) == DirView(d.stamp) && d.stamp.changeToken >= 0
    ensures DirectoryAccepted(root, d, known) && !Doubtful(root, d)
  {
  }

  lemma EntryStays(root: seq<Child>, m: Manifest, i: nat)
    requires i < |m.entries| && AllThere(Mended(root, []), m)
    ensures var known := StampsOf(Mended(root, []), m);
      EntryAccepted(Mended(root, NewClaim), m.entries[i], known) && known[m.entries[i].path] == SomeToken
  {
    BeforeAndAfter(root, Split(m.entries[i].path));
  }

  lemma UnseenAccepted(root: seq<Child>, r: Recorded)
    requires Proper(root) && CollectDirectories(root).Ok? && !Tokenless(root)
    requires Proper(Mended(root, [])) && BuildManifest(Mended(root, [])) == Ok(r.manifest)
    requires r.inputs == StampsOf(Mended(root, []), r.manifest) && r.directories == CollectDirectories(root).value
    ensures AllThere(Mended(root, []), r.manifest) && Accepts(Mended(root, NewClaim), r)
  {
    var before, after := Mended(root, []), Mended(root, NewClaim);
    EntriesThere(before);
    StampsCount(before, before);
    forall i | 0 <= i < |r.directories|
      ensures DirectoryAccepted(after, r.directories[i], r.inputs) && !Doubtful(after, r.directories[i])
    {
      assert r.directories[i] in CollectDirectories(root).value;
      DirectoriesAccepted(root, r.directories[i], r.inputs);
    }
    forall i | 0 <= i < |r.manifest.entries|
      ensures EntryAccepted(after, r.manifest.entries[i], r.inputs) && r.inputs[r.manifest.entries[i].path] == SomeToken
    {
      EntryStays(root, r.manifest, i);
    }
  }

  lemma ManifestDiffers(root: seq<Child>, tier: string)
    requires Proper(root) && tier in TIERS && InMended(root, ["wiki", tier])
    requires Proper(Mended(root, [])) && BuildManifest(Mended(root, [])).Ok?
    ensures Proper(Mended(root, NewClaim)) && BuildManifest(Mended(root, NewClaim)) != BuildManifest(Mended(root, []))
  {
    var before, after := Mended(root, []), Mended(root, NewClaim);
    var parts := ["wiki", tier, "x.md"];
    var x := InputOf(parts, ClaimFile, "");
    NewClaimProper();
    MendedProper(root, NewClaim);
    assert parts[2..] == ["x.md"] && InMended(root, parts);
    BeforeAndAfter(root, parts);
    NewEntry(root, tier);
    ProperThrough(after, parts);
    SplitJoin(parts);
    BuildEntries(before, x);
    if BuildManifest(after).Ok? { BuildEntries(after, x); }
    if other, kind :| TrustEntry(before, other, kind, x) {
      ProperThrough(before, other);
      SplitJoin(other);
    }
  }

  lemma NewClaimProper()
    ensures Proper(NewClaim)
  {
    assert Part("x.md");
  }

  lemma NewEntry(root: seq<Child>, tier: string)
    requires tier in TIERS && InMended(root, ["wiki", tier])
    ensures TrustEntry(Mended(root, NewClaim), ["wiki", tier, "x.md"], ClaimFile,
      InputOf(["wiki", tier, "x.md"], ClaimFile, ""))
  {
    var parts := ["wiki", tier, "x.md"];
    assert parts[2..] == ["x.md"] && "x.md"[1..] == ".md";
    MendedShows(root, NewClaim, parts);
    OneStep(NewClaim, ["x.md"]);
    OnlyNewClaim("x.md");
  }

  // In every other case there is a run of the passes, and a claim file added after it, that the
  // check does not see.
  lemma TierSwapUnseen(directories: seq<Child>) returns (h: Times, r: Recorded)
    requires Proper(directories) && CollectDirectories(directories).Ok?
    requires !TiersThere(directories) && !Tokenless(directories) && RecordedClean(directories)
    ensures h.directories == directories && Accepted(h, r) && BuildManifest(h.now) != Ok(r.manifest)
  {
    var before, after := Mended(directories, []), Mended(directories, NewClaim);
    h := Times(before, directories, before, after);
    MendedBuilds(directories);
    var m := BuildManifest(before).value;
    r := Recorded(m, StampsOf(before, m), CollectDirectories(directories).value);
    UnseenAccepted(directories, r);
    StampsTellOfMended(directories);
    var tier :| tier in TIERS && !ViewAt(directories, ["wiki", tier]).DirView?;
    TierCollected(directories, TIERS, tier);
    ManifestDiffers(directories, tier);
  }

  // The check is right whatever else happened exactly when each tier was a directory in the
  // pass over the directories, or some recorded directory has no token, or what was recorded
  // could not be part of a manifest.
  lemma SoundExactly(directories: seq<Child>)
    requires Proper(directories)
    ensures Sound(directories) <==>
      || CollectDirectories(directories).Err?
      || TiersThere(directories) || Tokenless(directories) || !RecordedClean(directories)
  {
    if CollectDirectories(directories).Ok? && !TiersThere(directories) && !Tokenless(directories)
      && RecordedClean(directories)
    {
      var h, r := TierSwapUnseen(directories);
      assert h == Times(h.files, directories, h.last, h.now);
    } else {
      forall files, last, now, r | Accepted(Times(files, directories, last, now), r)
        ensures BuildManifest(now) == Ok(r.manifest)
      {
        var h := Times(files, directories, last, now);
        if TiersThere(directories) {
          AcceptedMeansUnchanged(h, r);
        } else if !MustRehash(now, r) {
          if Tokenless(directories) { TokenlessRehashes(h, r); } else { TrustingClean(h, r); }
        }
      }
    }
  }

  // ----- one such tree -----

  lemma AppendNone<T>(a: seq<T>)
    ensures Append(Ok(a), Ok([])) == Ok(a) && Append(Ok([]), Ok(a)) == Ok(a)
  {
    assert a + [] == a && [] + a == a;
  }

  lemma {:induction false} TiersSkipped(tiers: seq<string>)
    requires forall tier :: tier in tiers ==> tier in TIERS
    ensures TiersDirectories(TiersAreFiles, tiers) == Ok([])
  {
    if tiers != [] {
      assert tiers[0] in tiers;
      TierAt(tiers[0]);
      TiersSkipped(tiers[1..]);
      AppendNone<DirectoryStamp>([]);
    }
  }

  lemma SourcesThere()
    ensures SourcesDirectories(TiersAreFiles) == Ok([DirectoryStamp(Join(["evidence", "sources"]), SomeToken)])
  {
    SourcesAt();
    assert SourceDirectories(["evidence", "sources"], []) == Ok([]);
    AppendNone([DirectoryStamp(Join(["evidence", "sources"]), SomeToken)]);
  }

  // The check is not right about every change after such a pass.
  lemma NotAlwaysSound()
    ensures Proper(TiersAreFiles) && CollectDirectories(TiersAreFiles).Ok? && !Sound(TiersAreFiles)
  {
    FilesProper();
    TiersSkipped(TIERS);
    SourcesThere();
    SourcesClean();
    AppendNone([DirectoryStamp(Join(["evidence", "sources"]), SomeToken)]);
    forall tier | tier in TIERS ensures ViewAt(TiersAreFiles, ["wiki", tier]).FileView? {
      TierAt(tier);
    }
    assert TIERS[0] in TIERS;
    SoundExactly(TiersAreFiles);
  }
}
