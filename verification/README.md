# zbrain in Dafny

zbrain keeps claims as Markdown files and evidence as snapshots in a workspace directory, with an
index derived from them, an approval ceremony that only the owner can grant, and a life cycle of
claims whose history can be checked later. This project models the protocols and loops underneath
and proves what they promise.

| part | files | what it is about |
|---|---|---|
| protocol | `DiskFiles`, `Protocol`, `ProtocolProgress`, `Workspace` | generation, dirty marker, journal and rebuild, with concurrent actors and a crash between any two file writes |
| freshness | `TrustTree`, `TrustManifest`, `Freshness`, `MendedTree`, `FreshnessGap`, `IndexState` | the manifest of trusted files, and the stamp check that stands in for rehashing them |
| ceremony | `ChallengeEncoding`, `ChallengeRecord`, `ChallengeStore`, `Ceremony`, `CeremonyRun`, `CeremonyHistory` | challenges from prepare over grant to apply, and every run of them |
| life cycle | `Lifecycle`, `CommitFiles`, `Migration` | draft, approved, superseded, revoked; attestations; their files through crashes |
| reading | `Scan`, `Lookup`, `Evidence`, `EvidenceDigest`, `EvidenceCheck`, `Trust` | the workspace scan, the lookup by id, the evidence store and the memoising validators |
| the rest | `Campaign`, `Fts`, `FtsMeaning`, `Eval`, `Mcnemar` | resumable authoring, the full-text query builder, ranking metrics |
| shared | `Wrappers`, `Ordering`, `Paths`, `Identifiers`, `Digests`, `Clock` | sorting, paths, ids, digests, times |

Check everything with `dafny verify dfyconfig.toml`.

## Conventions

* Text is a sequence of UTF-8 bytes, one `char` for each byte. White space is that of ASCII.
* SHA-256 is taken to be injective: where that matters, a lemma assumes it of the function parameter
  that stands for it (`Digests.IsHash`, `Rules.sum`), or the digest is a datatype value that carries
  what it is a digest of. The byte strings that the program hashes are built as it builds them.
  Rendering a document is a parameter too, and parsing it gives the document back.
* Random ids and tokens are parameters. Times are integer nanoseconds; a written time is cut to
  whole seconds (RFC 3339, section 5.6, as clock.rs writes it).
* What becomes of a file write is a parameter of the operation. A rename replaces a file in one step.
  A commit can fail before its commit point, go through, or fail after it (`Lifecycle.CommitOutcome`).
* Classes carry the fields that the program updates in place. Each of their methods is proved
  against functions of the old state, and the lemmas speak about those functions; state machines
  over the same functions cover whole runs.
* The life cycle commits an approval with all its supersessions in one step. `CommitFiles.CommitIsAtomic`
  proves that the files behave so, through crashes; with others around, `Protocol.StepSettles` does.

## Where the program and its promise differ

* `ChallengeRecord.PreparedIsReadable`: the general prepare accepts items but leaves them out of the
  record it writes, and that record never passes the reader. Only the batch prepare writes a
  readable batch record.
* `EvidenceCheck.AddedPasses`: adding a file does not look at its media type, so a snapshot with an
  unacceptable one is stored and then never passes verification.
* `Eval.AveragePrecisionExactly`: with more results and more relevant ids than the limit, average
  precision can exceed one, and only then.
* `Evidence.FailedIsRepeatable` and `EvidenceCheck.TornNeverPasses`: whether the clean-up after a failed
  add succeeds is not looked at. When it removes the raw bytes and leaves the metadata, the content
  counts as stored and its snapshot never passes; `Evidence.AfterIsOrderly` says that nothing else does this.
* `Lookup.OtherFileMissed` and `Lookup.ForeignFileStops`: the flat lookup misses a claim that is
  stored under another file name, and fails on a file of that name which is no claim document;
  `Lookup.FlatAgreesWithTree` and `Lookup.FlatGoesThrough` say exactly when.
* `Trust.IncoherentRootMisleads`: a root whose id is stored as another approved claim can be refused
  although its supports are trusted, and leaves wrong decisions behind. `Trust.CacheStaysRight` says
  when that cannot happen.
* `ProtocolProgress.ReachesStuck`: with an exhausted generation counter and a pending journal,
  recovery and rebuild stop for good; `ProtocolProgress.CanBeMadeFresh` shows that nothing else does this.
* `Campaign.ResubmissionLeavesTwo`: a submission interrupted after its claim was written leaves that
  claim behind, and submitting the same draft again creates a second one.
* `CommitFiles.CommitIsAtomic`: an approval can report failure and yet be made, namely when it stops
  after its third file write; `Ceremony.ClaimStore.Approve` and its like say which.
* `FreshnessGap.NotAlwaysSound`: a tier replaced by a regular file at the moment a rebuild records the
  directories, and put back for the manifest, is not watched afterwards; `FreshnessGap.SoundExactly`
  says exactly when a change can go unseen.
* `Migration.SuccessorInFormerForm` and `Migration.RevokedInFormerForm`: a demoted claim that superseded
  others leaves them without a settled successor and can never be approved again, and a claim revoked
  or superseded in the earlier form need not verify any more; `Migration.MigrationKeepsInv` is the exact condition.
* `IndexState.BackslashStops`: a trusted file with a backslash in its name lets no rebuild go through;
  `IndexState.BuiltIsValid` is the exact condition.

## Model

| member | source | states |
|---|---|---|
| Protocol.PublishedIndexIsCurrent | crates/zbrain/src/index.rs:284-337 | In every interleaving of mutators, concurrent rebuilds and crashes between any two file writes: when the marker, journal, database and generation checks pass, the published index was built from exactly the canonical files now on disk, and none of them is half of a supersession. |
| Protocol.LateRenameIsHarmless | crates/zbrain/src/index.rs:599-648 | A rebuild that is about to rename its database, even after another rebuild has cleared the marker, holds one built from the canonical files now on disk. |
| Protocol.BuiltFromPasses | crates/zbrain/src/index.rs:495-598 | In every run, what a rebuild goes on to publish was read in four passes: the manifest before the scan and twice after it, each time the same, with the scan in between. |
| Protocol.RunInv | crates/zbrain/src/index.rs:483-657 | Every state of every run keeps the invariant that ties marker, journal, generations, database, lock and all scans in flight together. |
| Protocol.ExecKeepsInv | crates/zbrain/src/coordination.rs:654-685 | One file write of a lock holder keeps that invariant: canonical bytes change only after the marker and the new generation, so every scan in flight is then out of date. |
| Protocol.StepSettles | crates/zbrain/src/transition.rs:284-365 | The tree seen through the journal changes only by whole changes: one file write, or all targets of a journal at once; a crash, a recovery and a publication change nothing. |
| Protocol.NobodyActsOnHalfDone | crates/zbrain/src/transition.rs:252-276 | A mutator plans a change only on a tree without a pending journal. |
| Protocol.RecoveryNeverRefuses | crates/zbrain/src/transition.rs:252-276 | In every reachable state recovery can go through, except exactly when a journal is pending and the generation counter is exhausted. |
| Protocol.GenerationNeverFalls | crates/zbrain/src/coordination.rs:654-685 | Over any stretch of a run the current generation never falls. |
| Protocol.QuietRebuildMakesFresh | crates/zbrain/src/index.rs:483-657 | The whole program of a rebuild makes every check pass and leaves the settled tree alone; it cannot exactly when a journal is pending and the generation is exhausted. |
| ProtocolProgress.CanBeMadeFresh | crates/zbrain/src/index.rs:483-657 | Every run, whatever its actors are in the middle of, goes on to a state in which all checks pass for the same settled tree, unless a journal is pending and the generation is exhausted. |
| ProtocolProgress.StuckForGood | crates/zbrain/src/transition.rs:252-276 | In that case, once nobody holds the lock, no later state of the run passes the checks and the journal stays. |
| ProtocolProgress.ReachesStuck | crates/zbrain/src/coordination.rs:654-685 | A run of sessions reaches that state: the last change the counter allows is a supersession that stops with its journal published. |
| DiskFiles.RecoverSafe | crates/zbrain/src/transition.rs:284-365 | Recovery replays every target, removes the journal and ends with the settled tree, one generation on and marked dirty; where it cannot go through it leaves every file alone. |
| DiskFiles.RecoveryIsRestartable | crates/zbrain/src/transition.rs:284-365 | Recovery that is cut after any number of file writes and started again ends with the same canonical tree and no journal. |
| DiskFiles.SupersessionIsAtomic | crates/zbrain/src/lifecycle.rs:171-187 | A supersession cut after its first k file writes and recovered has changed nothing (journal not yet written) or every target (journal written). |
| CommitFiles.JournalFits | crates/zbrain/src/lifecycle.rs:285-325 | The journal of an approval plan has the present bytes as preimages, at different files, and the claims read through it are the store with the whole plan committed. |
| CommitFiles.CommitIsAtomic | crates/zbrain/src/lifecycle.rs:171-187 | A commit that stops after any number of file writes, and the recovery after it, read as the old store or as the whole plan, the latter exactly from the third write on; a commit that stops there without reporting success has changed the claims although its caller sees a failure. |
| CommitFiles.RevokeFits | crates/zbrain/src/lifecycle.rs:210-255 | The plan of a revocation is one that `CommitFiles.CommitIsAtomic` speaks about. |
| CommitFiles.ApprovalThroughCrash | crates/zbrain/src/lifecycle.rs:67-187 | After a crash anywhere in an approval and a replay of the journal, the claim is approved, every claim it supersedes is superseded and all others are as they were, or nothing has changed. |
| DiskFiles.CommitSafe | crates/zbrain/src/lifecycle.rs:171-187 | Each file write of a commit finds marker, generation and journal as it needs them. |
| DiskFiles.DirectWrites | crates/zbrain/src/lifecycle.rs:423-430 | A commit of separate writes makes all of them, in order: after any number of its file writes each path holds the bytes of the last write to it so far, is gone where that was a removal, and is as before where there was none. |
| DiskFiles.StartSafe | crates/zbrain/src/index.rs:483-494 | The same of the first locked part of a rebuild, and which files it leaves. |
| DiskFiles.PublishSafe | crates/zbrain/src/index.rs:599-648 | The same of the second locked part: the database is renamed, the generation published and the marker cleared exactly if the observed generation is still current and no journal is pending; otherwise only the marker is set. |
| Workspace.Workspace.MarkIndexDirty | crates/zbrain/src/coordination.rs:641-649 | Sets the marker; the disk image after this one write is recorded. |
| Workspace.Workspace.WriteWorkspaceGeneration | crates/zbrain/src/coordination.rs:407-462 | Writes the generation file, or refuses a published number above the current one and changes nothing. |
| Workspace.Workspace.BeginCanonicalMutation | crates/zbrain/src/coordination.rs:654-685 | Marks the index dirty and then bumps the generation, in this order; an exhausted generation stops it before the first write. |
| Workspace.Workspace.WritePendingTransition | crates/zbrain/src/transition.rs:125-190 | Publishes a journal only where none is pending. |
| Workspace.Workspace.DecideTargets | crates/zbrain/src/transition.rs:284-340 | Decides for every target whether it is still to be written, before any is written; refuses a file that is neither preimage nor target. |
| Workspace.Workspace.ApplyTargets | crates/zbrain/src/transition.rs:284-365 | Makes exactly the replay writes, in order, and every target then holds its bytes. |
| Workspace.Workspace.RecoverPendingTransition | crates/zbrain/src/transition.rs:284-365 | Replays the journal and then removes it, as the replay program says. |
| Workspace.Workspace.RecoverForMutation | crates/zbrain/src/transition.rs:252-276 | Recovery at the start of a session: barrier, replay, removal, or the refusals before the first or the third write. |
| Workspace.Workspace.CommitSupersession | crates/zbrain/src/lifecycle.rs:171-187 | Commits all targets of a journal; every disk image on the way settles to the tree before or to the tree after. |
| Workspace.Workspace.StartRebuild | crates/zbrain/src/index.rs:483-494 | First locked part of a rebuild; returns the generation it observed. |
| Workspace.Workspace.PublishRebuild | crates/zbrain/src/index.rs:599-648 | Renames, publishes and clears the marker in this order if the generation is unchanged, sets the marker otherwise. |
| Workspace.Workspace.Rebuild | crates/zbrain/src/index.rs:483-657 | A rebuild that nobody disturbs, with its four file-by-file passes: what it leaves on disk, and it succeeds exactly when the checks then pass. |
| Workspace.Workspace.CheckMarkers | crates/zbrain/src/index.rs:284-337 | Answers true exactly when no journal is pending, the marker is clear, a database exists and the generations agree. |
| Freshness.ChangeStampInRange | crates/zbrain/src/index.rs:1048-1063 | The combined stamp never overflows 64 bits, is a token exactly for a normalized stamp in range other than the one that reads as unavailable, and is then the change time in nanoseconds. |
| Freshness.ChangeStampInjective | crates/zbrain/src/index.rs:1048-1063 | An available token identifies the change time to the nanosecond. |
| Freshness.CheckFresh | crates/zbrain/src/index.rs:339-481 | The check accepts exactly when every recorded directory is accepted, every recorded file has its recorded stamp, and, where a directory changed or a token is missing, a full rehash gives the recorded manifest. |
| Freshness.AcceptsExactly | crates/zbrain/src/index.rs:339-481 | What that means, told by lookups in the tree: each recorded directory is one still, and either has its stamp, or no link lies below it and nothing there is named like a trust input but regular files with their recorded stamps; each recorded file has its stamp; and the recorded manifest is the one built now, which need not be looked at only where every directory and file has a token and every directory its stamp. |
| Freshness.OffenderIs | crates/zbrain/src/index.rs:910-961 | The walk over a changed directory finds nothing exactly when no path below it shows such a thing. |
| Freshness.NamedLikeInput | crates/zbrain/src/index.rs:1174-1190 | The paths taken for trust inputs are those of trusted files, and those of files named just ".md" below a tier. |
| Freshness.AcceptedMeansUnchanged | crates/zbrain/src/index.rs:339-481 | File stamps, directory stamps and manifest may be recorded at different times, with hand edits in between. Under the file-system stamp assumption over that stretch, and where each tier was a directory when the directories were recorded, whenever the check accepts a tree, building the manifest of that tree from scratch gives the recorded manifest. |
| Freshness.RecordAtOnce | crates/zbrain/src/index.rs:513-547 | Recording from one tree that nobody touches is the special case of this in which the condition on the tiers holds. |
| FreshnessGap.TierSwapUnseen | crates/zbrain/src/index.rs:1065-1121 | For every tree at the pass over the directories in which some tier is no directory, every recorded directory has a token and what is recorded is clean: there are a record and a later change that the check does not see. |
| FreshnessGap.SoundExactly | crates/zbrain/src/index.rs:339-481 | Whatever the other passes saw and whatever was done since, an accepted tree has the recorded manifest, if and only if the pass over the directories failed, or found every tier to be a directory, or a directory without a token, or something that can be part of no manifest. |
| FreshnessGap.MendedBuilds | crates/zbrain/src/manifest.rs:63-123 | The last case is that no manifest can be built even with the other tiers put in place, empty. |
| FreshnessGap.NotAlwaysSound | crates/zbrain/src/index.rs:1108-1121 | One such tree: regular files stand where the tiers should be. |
| Freshness.UntouchedIsAccepted | crates/zbrain/src/index.rs:339-481 | No false alarm: a tree that shows the same files and stamps is accepted, in whatever order its directories enumerate. |
| TrustTree.WalkClaimsEntries | crates/zbrain/src/manifest.rs:125-164 | The claim walk collects exactly the Markdown files a lookup can reach below a tier. |
| TrustTree.WalkEvidenceEntries | crates/zbrain/src/manifest.rs:166-215 | The evidence walk collects exactly the metadata and raw files of the source directories. |
| TrustManifest.BuildOk | crates/zbrain/src/manifest.rs:63-123 | A manifest can be built exactly when tiers and sources are directories, nothing trusted is a link and everything named like a trust input is a file. |
| TrustManifest.BuildEntries | crates/zbrain/src/manifest.rs:63-123 | The manifest holds one entry for each trusted file a lookup can reach, and no other. |
| TrustManifest.BuildStrict | crates/zbrain/src/manifest.rs:63-123 | A built manifest is strictly sorted by path and carries the digest of its entries. |
| TrustManifest.EnumerationOrderForgotten | crates/zbrain/src/manifest.rs:63-123 | Whether a manifest can be built, and which one, does not depend on directory enumeration order. |
| Paths.MdExtensionMeans | crates/zbrain/src/manifest.rs:125-164 | A claim file is one named by something that is not empty followed by ".md". |
| Ordering.LeMeans | crates/zbrain/src/manifest.rs:63-123 | The order of the paths: the one is a prefix of the other, or less at the first byte where they differ. |
| IndexState.FindManifestOffender | crates/zbrain/src/index.rs:963-991 | The merge walk finds nothing exactly when the manifests are equal, and otherwise, on strictly sorted ones, the least path on which they differ. |
| IndexState.StrictIffSorted | crates/zbrain/src/index_state.rs:250-276 | The one-pass comparison with the previous path accepts exactly the strictly sorted lists. |
| IndexState.IndexDatabase.WriteIndexState | crates/zbrain/src/index_state.rs:29-63 | Writes a valid manifest and state, and refuses an invalid one without a change. |
| IndexState.IndexDatabase.ReadIndexState | crates/zbrain/src/index_state.rs:66-84 | Returns only valid state, and exactly what the tables hold, whatever order the rows come in. |
| IndexState.InputExactly | crates/zbrain/src/index_state.rs:278-356 | An entry is valid exactly when its path is that of a trusted file of its kind, or of a file named just ".md" below a tier, can be stored, and its size and hash are in order. |
| IndexState.StateExactly | crates/zbrain/src/index_state.rs:358-394 | A rebuild state is valid exactly when its status says whether there were invalid claims and it is dated and carries the digest of the manifest. |
| IndexState.WriteThenRead | crates/zbrain/src/index_state.rs:29-84 | A valid manifest and rebuild state are read back exactly as written. |
| IndexState.BuiltIsValid | crates/zbrain/src/index_state.rs:250-345 | A manifest that was built can be stored exactly when no trusted path holds a backslash, a NUL or a part "." or ".."; otherwise the rebuild fails. |
| IndexState.BackslashStops | crates/zbrain/src/index_state.rs:278-292 | A claim file with a backslash in its name: the manifest is built and cannot be stored. |
| Fts.BuildQuery | crates/zbrain/src/index.rs:1297-1389 | The loops over the bytes of a query compute the query that the lemmas below speak about. |
| Fts.SplitAlnum | crates/zbrain/src/index.rs:1392-1406 | Splits a text into its maximal runs of letters and digits. |
| Fts.AppendWord | crates/zbrain/src/index.rs:1331-1378 | A word becomes quoted fields, the last one a prefix when the word ends in a star; the word near refuses the query. |
| FtsMeaning.ScanBlank | crates/zbrain/src/index.rs:1297-1311 | White space between the pieces of a query is passed over. |
| FtsMeaning.ScanQuoted | crates/zbrain/src/index.rs:1312-1329 | Text up to the next quote is a phrase, and the scan goes on behind it. |
| FtsMeaning.ScanUnclosed | crates/zbrain/src/index.rs:1312-1329 | A quote that is not closed refuses the whole query. |
| FtsMeaning.ScanWord | crates/zbrain/src/index.rs:1331-1345 | Text up to the next white space or quote is a word. |
| FtsMeaning.PhraseMeans | crates/zbrain/src/index.rs:1312-1329 | A phrase becomes its maximal runs of non-blank characters in lower case, with single spaces between them, in quotes; nothing when there are none. |
| FtsMeaning.WordMeans | crates/zbrain/src/index.rs:1331-1378 | A word becomes one part for each maximal run of letters and digits, in lower case and quoted, the last one of a starred word a prefix instead; it refuses the query exactly when "near" is one of the runs. |
| FtsMeaning.FieldsAreRuns | crates/zbrain/src/index.rs:1392-1406 | The fields of a text, with the gaps between them, make up the text; no gap holds a kept character, and none but the outer two is empty. |
| FtsMeaning.QueryMeans | crates/zbrain/src/index.rs:1380-1389 | The query is the parts of all pieces, each once, with single spaces between them, and empty when it was refused. |
| Fts.ScanParts | crates/zbrain/src/index.rs:1297-1389 | Every part of a query is a quoted lower-case phrase or an alphanumeric prefix ending in a star. |
| Fts.DedupFirstSeen | crates/zbrain/src/index.rs:1380-1389 | Deduplication keeps exactly the first occurrence of each part, in first-seen order. |
| Fts.AnswerReadsBack | crates/zbrain/src/index.rs:1297-1389 | The answer parses back to its own list of distinct parts. |
| Fts.QueryTwice | crates/zbrain/src/index.rs:1297-1389 | Building a query from an answer changes nothing. |
| Fts.NormalizeTwice | crates/zbrain/src/index.rs:1312-1329 | Normalizing a phrase twice is normalizing it once. |
| Eval.NdcgAtK | crates/zbrain/src/eval.rs:114-143 | The accumulator loops compute DCG over ideal DCG. |
| Eval.Rearrangement | crates/zbrain/src/eval.rs:114-143 | With decreasing gains, c hits gain at most what they gain on the first c positions, and that much only there. |
| Eval.NdcgBounds | crates/zbrain/src/eval.rs:114-143 | On a ranking without repetition NDCG lies in [0,1] and is 1 exactly when the first min(relevant, k) positions are all relevant. |
| Eval.ScoreQuery | crates/zbrain/src/eval.rs:45-112 | The loops compute every metric of the score; what each metric is, the rows below say. |
| Eval.PrecisionMeans | crates/zbrain/src/eval.rs:55-64 | Precision times the number of results is the number of hits, the positions that hold a relevant id. |
| Eval.RecallMeans | crates/zbrain/src/eval.rs:65-69 | Recall times the number of relevant ids is the number of hits. |
| Eval.FullRecall | crates/zbrain/src/eval.rs:55-69 | Without repetition the hits are the relevant ids that were retrieved, and recall is 1 exactly when all of them were. |
| Eval.RankMeans | crates/zbrain/src/eval.rs:70-78 | The rank is the position of the first hit, and zero exactly without one. |
| Eval.MrrMeans | crates/zbrain/src/eval.rs:70-78 | Reciprocal rank is 1/r exactly when the first hit stands at position r, and zero exactly without one. |
| Eval.ApMeans | crates/zbrain/src/eval.rs:79-95 | Average precision is the sum, over the hits, of the share of hits so far, divided by min(relevant, limit). |
| Eval.NdcgMeans | crates/zbrain/src/eval.rs:114-143 | NDCG is the sum of the gains at the hits within the limit over the sum of the first min(relevant, limit) gains. |
| Eval.ScoreBounds | crates/zbrain/src/eval.rs:45-112 | Without repetition every metric lies in [0,1], average precision where the hits fit; when each of precision, reciprocal rank and average precision is 1 is said exactly. |
| Eval.AveragePrecision | crates/zbrain/src/eval.rs:45-112 | The same for average precision alone, on every ranking that has at most `limit` results, or at most `limit` relevant ids, or no limit. |
| Eval.MoreResultsThanLimit | crates/zbrain/src/eval.rs:45-112 | More hits in front than the limit, and more relevant ids than the limit: average precision exceeds 1. |
| Eval.AveragePrecisionExactly | crates/zbrain/src/eval.rs:45-112 | All duplicate-free rankings of n results against R relevant ids have average precision at most 1 if and only if the limit is 0, or n is within the limit, or R is. |
| Mcnemar.Compare | crates/zbrain/src/eval.rs:247-304 | The four counts are the sizes of the four outcome sets of the paired ids, sum to the number of pairs and do not depend on hash-map order. |
| Mcnemar.LaterCounts | crates/zbrain/src/eval.rs:248-251 | Of two entries with one id the later one counts. |
| Mcnemar.NoOtherIds | crates/zbrain/src/eval.rs:248-251 | Exactly the ids that occur have an entry. |
| Mcnemar.Chi2Means | crates/zbrain/src/eval.rs:276-290 | The statistic times the number of discordant pairs is the squared difference of the two counts, and with the correction the square of that difference less one. |
| Mcnemar.SwapRuns | crates/zbrain/src/eval.rs:247-304 | Comparing the other way round swaps the two discordant counts only. |
| Mcnemar.Chi2Range | crates/zbrain/src/eval.rs:276-294 | The statistic lies between zero and the number of discordant pairs; it is zero exactly for equal counts and maximal exactly when one count is zero. |
| Mcnemar.CorrectionLowers | crates/zbrain/src/eval.rs:276-294 | The continuity correction never raises the statistic and leaves it only when the counts are equal. |
| ChallengeEncoding.EncodeInjective | crates/zbrain/src/approval.rs:158-182 | Two valid challenges hash the same byte string exactly when they bind the same workspace, operation, claim, digests, reason, ordered items and the same superseded ids up to order. |
| ChallengeEncoding.SingleReads | crates/zbrain/src/approval.rs:158-182 | A reader of length-prefixed fields reads the hashed bytes of a challenge of one claim back as exactly its seven texts, in this order: workspace, operation, claim, draft digest, sorted superseded ids joined by NUL, prior digest, reason. |
| ChallengeEncoding.BatchReads | crates/zbrain/src/approval.rs:158-182 | Those of a batch read back as workspace, operation, the number of items, and claim and digest of each item in order. |
| ChallengeEncoding.BatchIsNotSingle | crates/zbrain/src/approval.rs:158-182 | No batch byte string is a single-claim byte string. |
| ChallengeEncoding.StoredRederives | crates/zbrain/src/approval.rs:228-254 | Sorting the superseded ids before storing leaves the digest as it was. |
| ChallengeRecord.PreparedIsReadable | crates/zbrain/src/approval.rs:228-254 | A request for one claim is accepted exactly when the record made of it passes the reader and a revocation has a reason. A request with items never gives a readable record: the general prepare drops them and the digest then cannot match. |
| ChallengeRecord.PreparedBatchIsReadable | crates/zbrain/src/approval.rs:268-294 | A record written by batch prepare passes the reader exactly when its items are well formed, not empty and name no claim twice. |
| ChallengeRecord.RecordExactly | crates/zbrain/src/approval.rs:664-809 | A record passes the reader exactly when, under its own digest, it binds one well-formed claim or a well-formed batch and is either open, with nothing of a grant in it, or released: with a token that does not outlive it and with lists that together are the bound ids, each once. |
| ChallengeRecord.PreparedBinds | crates/zbrain/src/approval.rs:228-254 | A prepared record binds what it was given, its superseded ids sorted, is open for fifteen minutes, and is neither granted nor consumed. |
| ChallengeRecord.PreparedBatchBinds | crates/zbrain/src/approval.rs:268-294 | So does and is a prepared batch record. |
| ChallengeRecord.TokenWindow | crates/zbrain/src/approval.rs:361-395 | With times cut to whole seconds the token never outlives its challenge and is valid at the instant it is granted; exactly this token is accepted, exactly up to the expiry of the challenge and to five minutes after the grant, cut to the second. |
| ChallengeRecord.GrantWrites | crates/zbrain/src/approval.rs:361-395 | A grant records the two lists it was given, the time and the hash of the token, and changes nothing that is bound. |
| ChallengeRecord.GrantIsReadable | crates/zbrain/src/approval.rs:361-395 | Granting a single-claim challenge writes a readable record; granting a batch this way never does. |
| ChallengeRecord.GrantItemsIsReadable | crates/zbrain/src/approval.rs:402-499 | A batch grant writes a readable record exactly when its decisions meet the partition rule. |
| ChallengeRecord.ConsumedIsReadable | crates/zbrain/src/approval.rs:514-531 | A consumed record passes the reader exactly when it was granted. |
| ChallengeRecord.PartitionCovers | crates/zbrain/src/approval.rs:897-935 | The record check only compares lengths; it follows by counting that each bound item is granted or skipped and none is both. |
| ChallengeStore.ChallengeStore.WriteChallenge | crates/zbrain/src/approval.rs:835-851 | Writes a record that passes the reader and refuses any other. |
| ChallengeStore.ChallengeStore.Prepare | crates/zbrain/src/approval.rs:219-254 | Writes the prepared record or changes nothing. |
| ChallengeStore.ChallengeStore.PrepareBatch | crates/zbrain/src/approval.rs:259-294 | Writes the prepared batch record or changes nothing. |
| ChallengeStore.ChallengeStore.Grant | crates/zbrain/src/approval.rs:361-395 | Grants an ungranted, unexpired single-claim challenge and nothing else. |
| ChallengeStore.ChallengeStore.GrantItems | crates/zbrain/src/approval.rs:402-499 | Grants a batch exactly when the decisions partition its items and at least one is granted. |
| ChallengeStore.ChallengeStore.Consume | crates/zbrain/src/approval.rs:504-577 | Marks exactly an accepted token consumed; a refused one leaves every record as it was. |
| ChallengeStore.ChallengeStore.RunGrantBatch | crates/zbrain/src/approval.rs:1583-1641 | Over the text of the answers: any answer other than "skip" in any case or the last sixteen characters of that item's digest ends the walk before anything is recorded. Otherwise the record written holds exactly the confirmed ids as granted and the skipped ids as skipped, in item order, the same binding and the hash of the token; the grant can fail only because nothing was confirmed, the challenge expired or it was granted meanwhile. |
| ChallengeStore.WalkAnswers | crates/zbrain/src/approval.rs:1583-1641 | The loop ends early exactly at such an answer; otherwise its lists are exactly the confirmed and the skipped ids, in item order, and meet the partition rule. |
| ChallengeStore.ReplyIs | crates/zbrain/src/approval.rs:1470-1475 | How one answer is read, by its characters: white space around it is ignored, "skip" in any case skips, exactly the digest suffix confirms, anything else denies. |
| ChallengeStore.WalkDecides | crates/zbrain/src/approval.rs:1583-1641 | Each item is in the one list exactly when it was confirmed and in the other exactly when it was skipped, and both lists keep the order of the items. |
| ChallengeStore.WalkPartitions | crates/zbrain/src/approval.rs:1583-1641 | The same of the decision lists themselves. |
| ChallengeStore.CheckItems | crates/zbrain/src/approval.rs:867-893 | The loop over the items accepts exactly the well-formed lists without a repeated claim. |
| ChallengeStore.CheckPartition | crates/zbrain/src/approval.rs:897-935 | The loop over the decisions accepts exactly the lists that are bound, distinct and as many as the items. |
| Lifecycle.ApproveKeepsInv | crates/zbrain/src/lifecycle.rs:87-187 | An approval, with all the supersessions it carries, keeps every store invariant: attestations, supersession links and approval order. |
| Lifecycle.RevokeKeepsInv | crates/zbrain/src/lifecycle.rs:210-255 | A revocation keeps them; the revoked claim verifies again with its last transition dropped, and that transition records the same digest. |
| Lifecycle.DraftKeepsInv | crates/zbrain/src/claims.rs:1497-1563 | Writing a draft keeps them. |
| Lifecycle.CommitAt | crates/zbrain/src/lifecycle.rs:126-187 | Which document stands under each id after an approval; the approved claim is not among those it supersedes. |
| Lifecycle.CommitMeans | crates/zbrain/src/lifecycle.rs:126-187 | The same without a look at the plan: the draft becomes approved, what it supersedes becomes superseded by it, each with one exact new history entry, and every other claim stays as it is. |
| Lifecycle.PlannedExactly | crates/zbrain/src/lifecycle.rs:87-169 | An approval is planned exactly when nothing is refused, and the plan is then the only one with these documents: the draft approved, with the sources bound to its evidence, attested at the time cut to whole seconds by the given actor or "owner", with one more entry of that time and actor that lists what it supersedes, is a supersession exactly when it supersedes something, and carries the authorization of the call; and each superseded claim with one more entry that names the draft. |
| Lifecycle.RevokedExactly | crates/zbrain/src/lifecycle.rs:210-244 | The same of a revocation: its one more entry has the trimmed reason, the digest that was held, the actor, the time and the authorization. |
| Lifecycle.DraftRecords | crates/zbrain/src/claims.rs:1497-1563 | A written draft has no attestation and no sources; its history and all it says are as given. |
| Lifecycle.LinkedBothWays | crates/zbrain/src/lifecycle.rs:126-162 | The approving entry of a settled claim lists exactly the claims whose last entry names that claim. |
| Lifecycle.ApprovedVerifies | crates/zbrain/src/claims.rs:1157-1181 | The signed claim verifies against its own digest. |
| Lifecycle.SupersededByExactlyOne | crates/zbrain/src/lifecycle.rs:126-162 | Each superseded claim was superseded by exactly one claim, and not by itself. |
| Lifecycle.NoSupersessionCycle | crates/zbrain/src/lifecycle.rs:126-162 | Along any path of supersessions each claim was approved before the one that superseded it, so no path is a circle. |
| Lifecycle.ApproveGrows | crates/zbrain/src/lifecycle.rs:126-162 | An approval changes a settled claim at most by its status and one more transition. |
| Lifecycle.RevokeGrows | crates/zbrain/src/lifecycle.rs:210-244 | So does a revocation. |
| Migration.PlanMigration | crates/zbrain/src/lifecycle.rs:390-421 | The counters of a migration: legacy claims, others, broken ones, and the ids to be approved again, in order. |
| Migration.MigrateMeans | crates/zbrain/src/lifecycle.rs:456-471 | What a migration makes of one claim: back to draft, without its attestation and otherwise as it was, exactly when it is legacy and approved and its digest does not hold; any other legacy claim only takes the present form. |
| Migration.LegacyCounted | crates/zbrain/src/lifecycle.rs:390-421 | The first counter is the number of legacy claims. |
| Migration.BrokenCounted | crates/zbrain/src/lifecycle.rs:390-421 | What is added to the invalid files is the number of other approved claims whose digest does not hold. |
| Migration.CandidatesListed | crates/zbrain/src/lifecycle.rs:390-421 | The ids to be approved again are those of exactly the claims that go back to draft, in the order of the claims. |
| Migration.WriteMigrated | crates/zbrain/src/lifecycle.rs:423-430 | A migration stopped after any number of writes has migrated exactly the claims up to that many legacy ones, and left the others as they were. |
| Migration.MigrationResumes | crates/zbrain/src/lifecycle.rs:390-471 | A migration after an interrupted one ends as one that went through. |
| Migration.MigratedIsSettled | crates/zbrain/src/lifecycle.rs:456-471 | Afterwards nothing is legacy, and a migrated claim is approved exactly when it was approved and its digest holds. |
| Migration.MigrationKeepsInv | crates/zbrain/src/lifecycle.rs:390-471 | For any store that was settled by the former rules: the migrated store is settled by the new ones, in some order or in the one that is left, if and only if no demoted claim supersedes another and every claim that is not demoted reverifies, an approved one as it is and a superseded or revoked one with its last transition dropped. |
| Migration.ReapprovedExactly | crates/zbrain/src/lifecycle.rs:456-471 | From any such store, a demoted claim can be approved again exactly when it supersedes nothing and passes the checks of any lone draft. |
| Migration.RevokedInFormerForm | crates/zbrain/src/lifecycle.rs:456-471 | A claim revoked in the earlier form is not demoted, keeps a digest of that form, and the invariant is lost. |
| Migration.SuccessorInFormerForm | crates/zbrain/src/lifecycle.rs:456-471 | A claim approved in the earlier form over another one is demoted, the other one stays superseded, the invariant is lost, and no approval of it can be planned again. |
| Ceremony.ClaimStore.PrepareApprove | crates/zbrain/src/lifecycle.rs:87-169 | Refusals first, then the documents: the loops compute the approval plan, and its documents are those that `Lifecycle.PlannedExactly` describes. |
| Ceremony.ClaimStore.WriteDraft | crates/zbrain/src/claims.rs:1497-1563 | Writes a draft over nothing but a draft. |
| Ceremony.ClaimStore.WriteSupersedingDraft | crates/zbrain/src/lifecycle.rs:258-278 | Writes a draft that lists, behind what it listed before and once, an approved claim it is not itself. |
| Ceremony.ClaimStore.Approve | crates/zbrain/src/lifecycle.rs:67-85 | The whole plan is in place exactly when the commit got past its commit point, and then also when it reports a failure; otherwise nothing changed. |
| Ceremony.ClaimStore.PrepareRevoke | crates/zbrain/src/lifecycle.rs:210-244 | A revocation as planned: of an approved, verifying claim, with a reason; the file is checked where it is written. |
| Ceremony.ClaimStore.Revoke | crates/zbrain/src/lifecycle.rs:189-255 | A revocation as planned or nothing, and which of the two for each fate of the write. |
| Ceremony.ClaimStore.ApplyChallenge | crates/zbrain/src/approval.rs:1168-1222 | Consumes the token exactly when every check, the plan and the second token check pass; an apply that fails earlier leaves records and claims as they were, and a consumed one has changed the claims exactly when its commit got past the commit point, reported or not. |
| Ceremony.ApplicableExactly | crates/zbrain/src/approval.rs:1331-1440 | The checks pass exactly for the token of a granted, unconsumed challenge within both expiries, with an authorization that names no other challenge, and a claim that is byte for byte the bound one: a draft that supersedes nothing, or supersedes the bound claims, the first of which has the bound digest, or an approved claim that verifies with it. |
| Ceremony.ConsumedExactly | crates/zbrain/src/approval.rs:1168-1222 | A challenge of one claim is consumed exactly with such a token at both times it is looked at, when the change can be planned; a revocation always can, unless its authorization is malformed. |
| Ceremony.BatchConsumedExactly | crates/zbrain/src/approval.rs:1231-1329 | A batch is consumed exactly with such a token, whatever has become of its claims. |
| Ceremony.ClaimStore.CheckItems | crates/zbrain/src/approval.rs:1274-1302 | First pass of a batch: each item is skipped, failed or pending, against the claims as they are. |
| Ceremony.ClaimStore.ApplyItem | crates/zbrain/src/approval.rs:1304-1324 | Second pass for one item: it is committed exactly when it is pending, can be planned in the store as it now is, and its write gets past the commit point; applied exactly when that is reported too; it changes that claim and no other. |
| Ceremony.ClaimStore.ApplyChallengeBatch | crates/zbrain/src/approval.rs:1231-1329 | Results keep item order with exactly one of applied, skipped or failed each; the stores between the turns are given, and each turn commits exactly as `ApplyItem` does; only granted items change, each from exactly the draft whose digest was bound. |
| Ceremony.GrantedIsApplied | crates/zbrain/src/approval.rs:1304-1317 | An item is applied exactly when it was granted, stood at the check, can be planned in the store its turn finds, and its write is reported; then its claim is the approved form of the draft that was checked, and otherwise, unless it was committed unreported, as before. |
| Ceremony.OnlyGrantedChange | crates/zbrain/src/approval.rs:1231-1329 | In a batch exactly the granted items are applied or fail, and only granted and not skipped items change. |
| Ceremony.ProgressItem | crates/zbrain/src/approval.rs:1304-1324 | An item whose turn comes finds its claim as it was when the batch was checked: approving one item never alters another. |
| CeremonyRun.StepKeepsInv | crates/zbrain/src/approval.rs:1096-1329 | Every step of drafts, direct approvals, challenges, grants, applies and clock ticks keeps records, grants, uses, bindings and store consistent. |
| CeremonyRun.ApplyIsSound | crates/zbrain/src/approval.rs:1331-1440 | A claim changed by an apply had, just before, the digest bound at prepare, within both expiries. |
| CeremonyRun.GrantedItemsChange | crates/zbrain/src/approval.rs:1231-1329 | In every reachable state a batch that is consumed commits exactly such items. |
| CeremonyRun.PromotionsKeepInv | crates/zbrain/src/approval.rs:1304-1324 | A set of lone drafts becoming approved keeps the store invariants. |
| CeremonyRun.BatchPromotes | crates/zbrain/src/approval.rs:1231-1329 | What a batch does to the store is the promotion of exactly the items whose files were replaced. |
| CeremonyHistory.EveryUseIsTraced | crates/zbrain/src/approval.rs:1168-1222 | In every run each change made through a challenge was prepared, then granted, then applied, in this order, before both expiries and within five minutes of the grant; in a batch the owner granted this very item and did not skip it; the claim was byte for byte the same at prepare and at apply; and the change is the one that was asked for, an approval or the revocation with the bound reason, whose history entry has the time, the actor and the authorization of the call, which names no other challenge. |
| CeremonyHistory.AtMostOneApply | crates/zbrain/src/approval.rs:514-577 | In every run each challenge is consumed at most once, changes no claim twice, and a single-claim challenge makes at most one change. |
| CeremonyHistory.NothingIsTakenBack | crates/zbrain/src/approval.rs:361-531 | Over any stretch of a run binding fields never change, granted and consumed never revert, and a settled claim keeps its document and only adds to its history. |
| CeremonyHistory.AttestationsSurvive | crates/zbrain/src/claims.rs:1157-1181 | In every reachable store each approved claim verifies, each later revoked or superseded one verifies with its last transition dropped, what is superseded has exactly one successor, and the approving entry of a claim lists exactly the claims whose last entry names it. |
| Scan.ScanWorkspace | crates/zbrain/src/claims.rs:1684-1791 | The scan loops compute three path-sorted lists: accepted claims, files with their reasons, and files that are no claims. |
| Scan.ReasonsMean | crates/zbrain/src/claims.rs:1700-1767 | The reasons against a file: what the reader refused it for; or that its digest does not hold, where digests are checked, and that another file has its id, with all the paths of that id in order. |
| Scan.FaultMeans | crates/zbrain/src/claims.rs:1768-1791 | A file with reasons against it is listed with all of them, sorted, and only such a file is. |
| Scan.ScanClaims | crates/zbrain/src/claims.rs:1684-1791 | With the reader that checks the id in a path: ids in claims are distinct, and each accepted claim was read from the file at its own path, under whose name it may stand. |
| Scan.ParseMeans | crates/zbrain/src/claims.rs:728-737 | A file reads as what its text says under its tier and at its own path, unless it is named after a claim id that is not the id of its claim. |
| Scan.EachFileOnce | crates/zbrain/src/claims.rs:1684-1791 | Every walked file is in exactly one of claims, invalid and legacy. |
| Scan.ClaimIdsDistinct | crates/zbrain/src/claims.rs:1684-1791 | Ids in claims are distinct. |
| Scan.DuplicatedIsAnother | crates/zbrain/src/claims.rs:1747-1767 | Counting more than one file under an id is finding another file with that id. |
| Scan.ScanIsDetermined | crates/zbrain/src/claims.rs:1684-1791 | The walked files determine the scan. |
| Lookup.ReadCanonicalClaims | crates/zbrain/src/claims.rs:1595-1663 | The flat lookup where no tier is nested, the walking lookup elsewhere, with their error branches. |
| Lookup.WikiHasNestedDirectories | crates/zbrain/src/claims.rs:1831-1850 | Answers true exactly when some tier is no directory or has a directory in it. |
| Lookup.NestedExactly | crates/zbrain/src/claims.rs:1831-1850 | The same told by lookups: some tier shows as something else than a directory, or shows a directory in it. |
| Lookup.FlatAgreesWithTree | crates/zbrain/src/claims.rs:1595-1663 | When both go through they agree exactly when every claim of this id lies in a tier under its own name. |
| Lookup.NamedFilesAreFlat | crates/zbrain/src/claims.rs:728-737 | Where no tier is nested and claim files are named after claim ids, the path-id check makes this so: the flat lookup misses nothing. |
| Lookup.FlatGoesThrough | crates/zbrain/src/claims.rs:1642-1663 | The flat lookup fails where the walk does not exactly when a file named after the id is not a claim document. |
| Lookup.TreeGoesThrough | crates/zbrain/src/claims.rs:1595-1641 | The walk goes through exactly when every claim document can be parsed. |
| Lookup.FlatOkExactly | crates/zbrain/src/claims.rs:1642-1663 | The flat lookup goes through exactly when every file named after the id can be parsed. |
| Lookup.OtherNameMissed | crates/zbrain/src/claims.rs:1642-1663 | A claim in a file whose name is no claim id is found by the walk alone. |
| Lookup.OtherFileMissed | crates/zbrain/src/claims.rs:1642-1663 | So is one in `axioms/other.md`. |
| Lookup.ForeignFileStops | crates/zbrain/src/claims.rs:1642-1663 | A file named after the id that holds no claim stops the flat lookup alone. |
| Evidence.EvidenceStore.LookupBySha256 | crates/zbrain/src/evidence.rs:431-458 | Finds a snapshot with this hash exactly when one can be read. |
| Evidence.EvidenceStore.AddFile | crates/zbrain/src/evidence.rs:190-252 | The whole new state: a known content changes nothing, not even the generation; a new one is added, refused with its directory removed as far as the clean-up went, or left as far as it was written by a crash. |
| Evidence.EvidenceStore.Capture | crates/zbrain/src/evidence.rs:255-322 | The chunk loop records length and hash of the copied bytes, and refuses a file that changed since it was hashed. |
| Evidence.AddsKeepSnapshots | crates/zbrain/src/evidence.rs:190-322 | Over any sequence of adds no two snapshots share a hash and earlier ones never change; each has the bytes its metadata records, as long as no clean-up removed the bytes and left the metadata. |
| Evidence.AfterIsOrderly | crates/zbrain/src/evidence.rs:190-252 | One add keeps the store in order, and leaves a snapshot without its bytes exactly where a clean-up removed them and then failed on the metadata. |
| Evidence.AddedOnce | crates/zbrain/src/evidence.rs:190-252 | After any further adds, adding a content again changes nothing and answers with its first snapshot. |
| Evidence.AddedRecords | crates/zbrain/src/evidence.rs:190-322 | What an add that went through stores: the raw bytes, and metadata with the id, origin, media type, length and hash of them and the time cut to whole seconds. |
| Evidence.FailedIsRepeatable | crates/zbrain/src/evidence.rs:190-322 | After an add that failed or was interrupted, the same content can be added under another id exactly when no metadata was left; otherwise it counts as stored. |
| EvidenceCheck.AddedPasses | crates/zbrain/src/evidence.rs:772-798 | A snapshot just added passes verification exactly when its media type is acceptable, which adding does not check. |
| EvidenceCheck.TornNeverPasses | crates/zbrain/src/evidence.rs:245-250 | A snapshot left by such a clean-up never passes verification, whatever is added later. |
| EvidenceCheck.SplitEvidenceLines | crates/zbrain/src/evidence.rs:622-638 | The lines concatenate to the raw bytes; each ends with its newline, only the last may lack one. |
| EvidenceCheck.LinesUnique | crates/zbrain/src/evidence.rs:622-638 | No other list of lines has this property. |
| EvidenceCheck.ValidateSpans | crates/zbrain/src/evidence.rs:723-770 | Accepts exactly in-range spans whose digest is that of their lines. |
| EvidenceCheck.SpanQuotes | crates/zbrain/src/evidence.rs:723-770 | An accepted span quotes a contiguous part of the raw file, at its line. |
| EvidenceCheck.EvidenceValidator.Verify | crates/zbrain/src/evidence.rs:506-601 | Answers each id as its first check did, checks each id at most once, and holds a digest exactly for ids that passed. |
| EvidenceCheck.PassesExactly | crates/zbrain/src/evidence.rs:506-601 | A snapshot passes exactly when metadata of its own id describes it, is complete and acceptable, and its raw bytes have the recorded length and hash; a failure names its id and a reason that applies. |
| EvidenceCheck.EvidenceValidator.VerifyAll | crates/zbrain/src/evidence.rs:643-663 | Passes exactly distinct ids that all pass, and then holds their digests. |
| EvidenceCheck.EvidenceValidator.ValidateClaimEvidence | crates/zbrain/src/evidence.rs:643-721 | Accepts exactly a claim whose evidence passes and, if approved, whose sources are closed. |
| EvidenceCheck.ValidateClosure | crates/zbrain/src/evidence.rs:667-721 | The loops over sources and ids decide the closure. |
| EvidenceCheck.ClosedExactly | crates/zbrain/src/evidence.rs:667-721 | Closed are exactly as many sources as evidence ids, no two the same, each of one of the ids, under its path and origin, with the digest held for it and with spans that lie in the text and carry the digest of what they quote. |
| EvidenceCheck.OneSourceEach | crates/zbrain/src/evidence.rs:667-691 | The sources of an accepted claim correspond one to one to its evidence ids. |
| EvidenceCheck.AcceptedPinsEvidence | crates/zbrain/src/evidence.rs:643-721 | An approved claim accepted on two states of the disk rests on the same metadata and raw bytes in both, given only that the hash function is injective. |
| EvidenceCheck.DigestPinsBytes | crates/zbrain/src/evidence.rs:141-155 | The snapshot digests of two passing snapshots are equal exactly when both files are. |
| EvidenceCheck.SpanPinsQuote | crates/zbrain/src/evidence.rs:608-620 | A span accepted on two states of the disk quotes the same bytes of the same snapshot in both. |
| EvidenceCheck.SpanPinsSnapshot | crates/zbrain/src/evidence.rs:723-770 | A span accepted for two passing states of one snapshot pins its metadata, its raw bytes and the quoted lines. |
| EvidenceDigest.SnapshotBytesInjective | crates/zbrain/src/evidence.rs:141-155 | Equal hashed byte strings of two snapshots mean equal metadata, recorded length and raw hash: the decimal length says where the metadata ends. |
| EvidenceDigest.SnapshotReads | crates/zbrain/src/evidence.rs:141-155 | A reader of its lines gets metadata, recorded length and raw hash back from the hashed string of a snapshot. |
| EvidenceDigest.SnapshotDigestInjective | crates/zbrain/src/evidence.rs:141-155 | So do equal snapshot digests, down to the raw bytes. |
| EvidenceDigest.SpanBytesInjective | crates/zbrain/src/evidence.rs:608-620 | Equal hashed byte strings of two spans mean the same snapshot, line range and quoted bytes. |
| EvidenceDigest.SpanReads | crates/zbrain/src/evidence.rs:608-620 | A reader of its lines gets snapshot, first line, last line and quoted bytes back from the hashed string of a span. |
| EvidenceDigest.SpanDigestInjective | crates/zbrain/src/evidence.rs:608-620 | So do equal span digests. |
| Trust.TrustValidator.ValidateClaim | crates/zbrain/src/trust.rs:103-163 | For any root and any earlier decisions: accepts exactly when the supports are distinct, well formed and trusted by what was decided before and without the id of the root; all that is newly decided is right in the same sense. |
| Trust.TrustValidator.Visit | crates/zbrain/src/trust.rs:165-337 | The memoising depth-first walk decides this trust for every claim; earlier decisions stay, no claim is visited twice, and every claim found trusted was visited once. |
| Trust.TrustValidator.Cycle | crates/zbrain/src/trust.rs:339-368 | Marks every claim of a found circle, all of them rightly. |
| Trust.TrustedIff | crates/zbrain/src/trust.rs:259-336 | The rule that defines trust, in both directions: neither barred nor missing, approved, sound by its own checks, with distinct well-formed supports that are all trusted. |
| Trust.OnCircleNotTrusted | crates/zbrain/src/trust.rs:339-368 | No claim on a circle of supports is trusted. |
| Trust.WalkTrusts | crates/zbrain/src/trust.rs:165-337 | With right decisions so far, a walk trusts exactly the claims trusted in the least set over the stored claims that do not lead back to the id of the root. |
| Trust.Accepts | crates/zbrain/src/trust.rs:103-163 | A root is accepted exactly when its supports are trusted in that least set and none leads back to its id; for a root that is the stored claim, or is not stored as approved, exactly when its supports are trusted. |
| Trust.CacheStaysRight | crates/zbrain/src/trust.rs:103-163 | The cache stays right exactly when the walk did not mark the id of the root although the claim stored under it is trusted; so for every accepted root and every root that agrees with what is stored, and never when a root with trusted supports is refused. |
| Trust.IncoherentRootMisleads | crates/zbrain/src/trust.rs:103-163 | Two stored claims and a root that takes the id of one of them: it is refused, and from then on a claim that rests on a trusted one is refused as well. |
| Campaign.ValidateRunFile | crates/zbrain/src/campaign.rs:441-509 | The loop accepts exactly the run files that keep the file invariant. |
| Campaign.RunFileExactly | crates/zbrain/src/campaign.rs:441-509 | That is: its header is in order, each draft has a known status and, exactly unless it is pending, a claim id of its own and a time, and a finished run has none pending. |
| Campaign.StateFromRun | crates/zbrain/src/campaign.rs:396-416 | Counts by status, and the least pending index or -1. |
| Campaign.CountsSum | crates/zbrain/src/campaign.rs:396-416 | The three counts sum to the number of drafts. |
| Campaign.CountIsSize | crates/zbrain/src/campaign.rs:396-416 | Each count is the number of drafts with that status. |
| Campaign.SubmissionMovesOne | crates/zbrain/src/campaign.rs:259-264 | A submission moves exactly one draft out of pending; the file it leaves is valid exactly when no other draft records the claim. |
| Campaign.SubmissionsInAnyOrder | crates/zbrain/src/campaign.rs:209-274 | Submissions of different drafts may come in any order. |
| Campaign.FinishesWhenCovered | crates/zbrain/src/campaign.rs:290-309 | A finished run file is valid exactly when the submissions covered every pending draft. |
| Campaign.CampaignStore.Begin | crates/zbrain/src/campaign.rs:152-186 | Writes a valid drafting run or changes nothing. |
| Campaign.BegunMeans | crates/zbrain/src/campaign.rs:152-186 | A run begins with one pending draft for each spec, in order. |
| Campaign.RunChanges | crates/zbrain/src/campaign.rs:209-309 | A submission records claim and time with its draft and touches nothing else but the time of the last change; finishing changes the phase and that time. |
| Campaign.AuthoredMeans | crates/zbrain/src/campaign.rs:209-258 | The claim written for a draft has the tier, the evidence and the supports of its spec and is a draft without history. |
| Campaign.CampaignStore.Resume | crates/zbrain/src/campaign.rs:278-287 | Returns the state of a valid run file and refuses any other. |
| Campaign.CampaignStore.NextDraft | crates/zbrain/src/campaign.rs:190-203 | Returns the least pending draft, and fails exactly when there is none. |
| Campaign.CampaignStore.Submit | crates/zbrain/src/campaign.rs:209-274 | The claim is written before the run file; the new state of both for each fate of the two writes. |
| Campaign.LeavesUnrecorded | crates/zbrain/src/campaign.rs:209-274 | A submission leaves its claim unrecorded exactly when the claim write was reported as failed or the run file was not written; the run is then as it was and takes the draft again. |
| Campaign.CallWrites | crates/zbrain/src/campaign.rs:209-274 | A call writes its claim exactly when the draft is waiting, the claim passes the document check and replaces nothing but a draft, and the write goes through; it records it exactly when that was also reported, the id is free in the run and the run file is written. |
| Campaign.ResubmissionLeavesTwo | crates/zbrain/src/campaign.rs:209-274 | Submitting the same draft again after that leaves two claims, of which the run records the second only. |
| Campaign.CampaignStore.Finish | crates/zbrain/src/campaign.rs:290-309 | Succeeds exactly when no draft is pending and the write is reported. |

## Left out

- Workspace: the advisory lock is a field that one actor holds; `flock`, file modes, symbolic-link and path-boundary checks, temporary file names and `fsync` are foreign calls and have no counterpart.
- Protocol: the listing at the start of a scan pass is one atomic step, and each locked section reads the clock once.
- A write of the marker, the generation, the journal or the database that reports an error after its rename went through; for claims and runs it is part of the model.
- Power loss that reorders completed renames, and hand edits that bypass the tool, outside the freshness model.
- The journal's own validation (ids, base64, digest texts) and its JSON form: a journal is the list of its targets.
- SQLite tables, transactions, integrity checks, WAL files and FTS5 ranking: the database is a map and a state record.
- The stamps of symbolic links in the freshness walk beyond "is a link", and the sort inside each directory of the walks, which `TrustManifest.EnumerationOrderForgotten` shows not to matter for the manifest.
- The YAML and JSON forms of claims, challenges, evidence metadata and runs; the document checks of `validate_claim`; media-type syntax: each is a parameter.
- Contradiction detection between claims and its word lists: a parameter of writing a draft.
- Lifecycle: a draft written to a requested path of its own choice, the trimming of its tier, and the file path of a claim; claims are keyed by id, and the path side is in `Scan` and `Lookup`.
- The texts of refusals, apart from the reasons the scan reports; which of several refusals is reported first.
- The journal replay that precedes an evidence add and a campaign submission; it is proved once, for `Workspace.Workspace.RecoverForMutation`.
- Evidence: a metadata file is written in one step; one torn in the middle reads as no metadata.
- Trust: the path and reason reported with a refusal; reading a stored claim lazily, which gives the same claim while the lock is held.
- Fts.BuildQuery: speaks for ASCII queries; outside ASCII the program lower-cases and trims by Unicode rules, and about that nothing is claimed.
- Floating point, the error function and p-values of the paired comparison, drift deltas and summaries; the embedder.
- Search, catalog, command line, configuration, set-up, lint, view and MCP code, and the JavaScript and Go sources.
