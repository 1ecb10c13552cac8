# data-olympus: verified models

Dafny models of the parts of data-olympus in which a mistake is hard to see: the release pipeline's remote
protocols, the audit log, the enforcement gate, the co-occurrence builder, the version engine and the ranking
arithmetic. `dafny verify dfyconfig.toml` checks everything.

## What is modelled

**Recut protocol** (`RecutPlan`, `RecutApply`, `RecutRun`). The remote is a map from ref to commit. A script
decides, for every call, which refs a rival moves just before it, whether a read succeeds, and whether a push is
answered truthfully, refused, or answered falsely. Server rules: a leased deletion removes a ref only at the leased
commit, and a creation makes only an absent ref, as the protected-branch rule described at
`scripts/sdlc_recut.py:396-402` has it. Everything proved holds for every script.

**Candidate publication** (`Publication`). Tag, release, PyPI and image form one state that only grows; a script
decides at which write a phase dies and what a lagging read shows. The promotion lock makes phases exclusive, so a
phase is a method, and a schedule is any list of phases of any identities. Digests are free constructors.

**Co-occurrence builder** (`Cooccurrence`, `PairCounter`, `CooccurrenceBuild`, `CooccurrenceTable`). The association
score is any real-valued function of the counts; no fact about logarithms is used. Sets and dictionaries are walked
in any order, so the table is shown to be independent of arrival order.

**Audit log** (`AuditChain`, `SegmentNames`, `AuditSegments`, `AuditFiles`, `AuditRuns`, `AuditOrder`, `AuditScan`).
The digest is an injective function that is never the empty string, and there is one
(`AuditChain.SomeDigestIsSound`); the keyed form is HMAC, section 2 of RFC 2104, and is not modelled inside. A
timestamp is a numeral, and a parameter of the query says which number it denotes. Files are a map from name to
lines, names are strings in Python's order, and an instant is what `gmtime` breaks it down to, with microseconds.

**Ledger and gate** (`Ledger`, `LedgerStore`, `Classifier`, `Clearance`, `Suggestion`, `Excerpts`, `Gate`). Times
are reals. The ledger is compared with the list of all consultations ever recorded. The classifier's tokenising,
quoted spans, word boundaries and substring rules are written out; character classes, lower-casing and `fnmatch` are
parameters.

**Release completion** (`ReleaseRecord`, `ReleaseCompletion`). A release only grows, a public one never changes, and
each read may return any state there has been; uploads and publication may fail in part or behind a lost reply.

**Version engine** (`SemVer`, `VersionEngine`, `VersionRun`). Commits are numbered so that parents come first;
ancestry, merge bases, ranges and logs are computed over that graph. Base, adoption, hotfix, GA and bootstrap
branches are all there.

**Ranking** (`Cosine`, `Reranker`, `Metrics`, with `Ranking` and `Lexical` below them). Floats are reals; the square
root and the position weights are parameters of which only what the code relies on is assumed.

## Where a promise does not hold as stated

- Sorting rotated segment names (`src/data_olympus/audit_log.py:100-109`) does not always restore their order. For a
  log path with a suffix it does if and only if the rotations come at ever later instants: a second one within a
  microsecond takes a `-1` name, which sorts first, and `verify` then rejects an untouched log
  (`AuditOrder.TwoRotationsAtOnce`). For a path without a suffix it does if and only if the clock does not run back
  and no instant has more than ten rotations (`AuditOrder.SortedExactly`). `AuditOrder.RunReadsBack` shows that over
  whole runs `verify` accepts exactly when the order is restored, crashes between rename and write included.
- The early stop of `iter_filtered` loses nothing exactly when nothing wanted lies below the line it stops at
  (`AuditScan.ScanExactWhenStopsSafely`). An event without `ts` counts as time 0 and can stop it
  (`AuditScan.MissingTimeHides`).
- The intent a denial suggests is said to clear every uncovered signal (`src/data_olympus/tools_enforce.py:74-79`).
  It does, for every action without a path and every coverage, if and only if each configured keyword begins and ends
  with a word character (`Suggestion.AdviceWorksExactly`); `c++` is one that does not
  (`Suggestion.AdviceThatDoesNotClear`). An intent that covers the action exists all the same
  (`Excerpts.ShortIntentExists`). This is about the whole text: a consult reads only its first 4000 characters, so
  following the advice clears an action when the text is not longer (`Gate.FollowAdvice`).
- `complete_release` publishes only what holds all expected bytes. It holds nothing else if and only if no foreign name
  was on the release at the start and none was added before the publication (`ReleaseCompletion.CompleteRelease`);
  otherwise a stale read can hide the foreign asset, and the run publishes it and ends in an error
  (`ReleaseCompletion.HiddenAsset` is such a run).
- Targets never fall along descendants of a cut, except where a GA decision is withdrawn before version 1
  (`VersionRun.CandidatesRise` is an equivalence; `VersionRun.WithdrawnDecision` computes two candidates that fall).
- `stage-upload` accepts a reservation that died right after its tag, which strands the version: no reservation that
  reads the current state passes again (`Publication.StageBeforeReserve`). An upload leaves a recoverable state if and
  only if it has no files or the provenance asset is on the release (`Publication.UploadStrands`), so phases in the
  documented order never get there.
- `ndcg_at_k` can exceed 1 on a ranking with duplicates (`Metrics.DuplicateScoresAboveOne`): it stays within 1 for all
  falling weights if and only if the hits are no more than the ideal counts (`Metrics.BoundedExactly`). For the
  benchmark's own logarithmic weights that is only sufficient: one gold result listed at places 3 and 4 gains less than
  at place 1.

## Model

| member | source | states |
|---|---|---|
| `RecutPlan.ApplyOperations` | scripts/sdlc_recut.py:350-380 | the loop returns exactly the operations of the plan, or its first error |
| `RecutPlan.OperationsExactly` | scripts/sdlc_recut.py:350-380 | a plan has operations if and only if it names allowed refs, backs up to free refs, gives release/new a commit and treats hotfix/new as it stands; then they are backups first, release/new next, hotfix/new last |
| `RecutPlan.OperationsRealizeUpdates` | scripts/sdlc_recut.py:350-380 | the operations are legal one after the other (a creation finds its ref absent, a deletion the commit it names), and folding them over the expected refs gives exactly the expected refs overlaid with the updates |
| `RecutPlan.BackupsFoldAt` | scripts/sdlc_recut.py:358-362 | the backup operations change the preservation refs as planned and no other ref |
| `RecutPlan.FoldConcat` | scripts/sdlc_recut.py:350-380 | folding is compositional, and legality with it |
| `RecutPlan.RecutPlanIsExact` | scripts/sdlc_recut.py:125-149 | a recut is planned if and only if release/new exists, its preservation ref is free or already holds its head, the acknowledgements are commit names and a hotfix to delete is there; it is ready if and only if each pending commit is acknowledged once and nothing else is; the refs it asks for keep the old head and every other ref |
| `RecutPlan.BackupRefs` | scripts/sdlc_recut.py:125-134 | different heads are kept under different preservation refs |
| `RecutPlan.IsShaMeans` | scripts/sdlc_recut.py:125-136 | a commit name has 40 or 64 lower-case hexadecimal digits |
| `RecutPlan.HotfixPlanIsExact` | scripts/sdlc_recut.py:152-164 | a hotfix cut is planned if and only if hotfix/new is absent, is ready, and only creates it |
| `RecutApply.Remote.Read` | scripts/sdlc_recut.py:71-83 | a read sees the remote after the rival's move, or fails; it changes nothing |
| `RecutApply.Remote.Push` | scripts/sdlc_recut.py:393-408 | a leased deletion takes effect only at the leased commit, a creation only on an absent ref; the reply may be lost or false |
| `RecutApply.RequireState` | scripts/sdlc_recut.py:415-420 | succeeds if and only if the remote is readable and shows the expected refs |
| `RecutApply.ReadHead` | scripts/sdlc_recut.py:423-428 | absent, at a commit, or unreadable, as the remote is |
| `RecutApply.ApplyOperation` | scripts/sdlc_recut.py:461-489 | at most one change, the planned one, made only where it is permitted; refs the rival leaves alone are otherwise untouched; done means that the last read showed exactly this one effect; an error names the operation or an unreadable or stale remote; undisturbed it succeeds |
| `RecutApply.Recover` | scripts/sdlc_recut.py:431-458 | at most one push, which only recreates the absent branch at its old head; on a calm remote that the rival leaves alone the branch is then back |
| `RecutApply.OnError` | scripts/sdlc_recut.py:514-525 | walks the branches awaiting recreation, the first of which it recovers and reports as certainly deleted; with none it recovers a deletion that has just failed, and reports it as uncertain; otherwise it writes nothing and passes the error on; at most four calls, which only recreate that branch at its old head, and on a calm remote bring it back |
| `RecutRun.OrderOfOperations` | scripts/sdlc_recut.py:350-380 | where each deletion and creation stands in the operations of a plan |
| `RecutRun.AtMostOneOutstanding` | scripts/sdlc_recut.py:503-529 | at every turn the map of branches awaiting recreation holds exactly the branch the operation before has deleted, or none; so stopping at the first recovery skips nothing |
| `RecutRun.AttemptOperation` | scripts/sdlc_recut.py:508-527 | one turn of the loop keeps what holds of the run and of the awaiting map; on failure the recovery follows within four calls |
| `RecutRun.RunOperations` | scripts/sdlc_recut.py:503-529 | the loop: every change is allowed and backed up, a normal end leaves the folded refs, an error leaves release/new restored where the remote is calm for the at most four calls since it was caught, and undisturbed there is no error |
| `RecutRun.ApplyPlan` | scripts/sdlc_recut.py:492-529 | for every behaviour of rival and network: each change of the run is one the plan allows; a deletion finds its backups in place; a normal return means that the last read showed exactly the overlaid refs; after an error a release/new that the run deleted, confirmed or not, is back if the remote is calm from the moment the error was caught, at most four calls before the end; the error of a run that has deleted release/new and not made it again names its old head and its backup; an unready or inapplicable plan touches nothing; and undisturbed the run succeeds if and only if the plan is ready and applicable and the remote shows the expected refs |
| `RecutRun.ApplyRecut` | scripts/sdlc_recut.py:125-149 | a planned recut applied: without exactly the pending commits acknowledged it raises and writes nothing; done means release/new at the new base, its old head kept, a released hotfix gone and every other ref as it was read; undisturbed it is done if and only if the commits are acknowledged and the remote still shows those refs |
| `RecutRun.RecutDeletesOnlyTheBackedUpHead` | scripts/sdlc_recut.py:125-149 | on a plan of plan_recut each deletion of release/new removes exactly the planned head, while the preservation ref holds it |
| `RecutRun.FailedRestores` | scripts/sdlc_recut.py:431-458 | however an operation fails, a release/new deleted earlier or just now is at its old head or at the new base |
| `Publication.TagBindsIdentity` | scripts/rc_verify_and_publish.py:341-356 | the tag message binds the identity: equal tags mean equal assets, files, image and head |
| `Publication.PassesMeans` | scripts/rc_verify_and_publish.py:371-411 | without a tag nothing at all passes; under a tag only this identity's surfaces, a public release complete, and PyPI files or an image only behind the provenance asset of a visible release |
| `Publication.PassingMeansOwner` | scripts/rc_verify_and_publish.py:371-411 | passing the inventory means that the surfaces are empty or already this identity's |
| `Publication.Inventory` | scripts/rc_verify_and_publish.py:371-411 | reads every surface and passes if and only if the checks hold of what it read |
| `Publication.InventoryPassesIffRecoverable` | scripts/rc_verify_and_publish.py:371-411 | without lag the inventory passes exactly in the recoverable states |
| `Publication.Registries.Commit` | scripts/rc_verify_and_publish.py:703-736 | a write takes effect, is lost, or takes effect while the caller dies |
| `Publication.UploadAssets` | scripts/rc_verify_and_publish.py:718-725 | missing assets are added and none replaced; done means exactly the verified assets |
| `Publication.PollRelease` | scripts/rc_verify_and_publish.py:96-108 | none only after seven reads that each showed none, else what the first of the seven to show a release showed, and never more than the release holds |
| `Publication.PollInventory` | scripts/rc_verify_and_publish.py:436-439 | succeeds with all assets if and only if one of seven inventories shows them and none before it fails |
| `Publication.ReserveSurfaces` | scripts/rc_verify_and_publish.py:703-725 | only the tag and the draft change, and all that exists stays one identity's; when the writes take effect and there is no release yet, it fails if and only if none of the seven reads after the creation shows the draft |
| `Publication.Reserve` | scripts/rc_verify_and_publish.py:424-441 | a foreign identity is refused without a change; done means tag and assets are exactly the verified ones; on calm surfaces it succeeds if and only if the state is recoverable, and otherwise changes nothing; when all writes take effect and the first reads are current it succeeds if and only if the state is recoverable and the listing shows the new draft within seven reads and all assets within seven inventories |
| `Publication.ReservationBound` | scripts/rc_verify_and_publish.py:414-421 | passing means that the tag is this identity's |
| `Publication.StageUpload` | scripts/rc_verify_and_publish.py:444-452 | only PyPI changes; done means it holds exactly the verified files; on calm surfaces it succeeds if and only if a tag is there and the surfaces pass the checks of the later phases |
| `Publication.Publish` | scripts/rc_verify_and_publish.py:455-491 | only the image changes, and only when PyPI is complete; done means the verified digest; when the reservation stands, the first reads are current and the writes take effect, it succeeds if and only if one of twenty reads shows all files |
| `Publication.Finalize` | scripts/rc_verify_and_publish.py:494-510 | the release becomes public only when everything is published exactly; when all is there but the publication, the first reads are current and the writes take effect, it succeeds if and only if the readback passes and shows the release public |
| `Publication.RunJob` | scripts/rc_verify_and_publish.py:371-510 | every phase keeps the surfaces one identity's and growing, and a foreign phase changes nothing |
| `Publication.RunSchedule` | scripts/rc_verify_and_publish.py:371-510 | any phases of any identities in any order, dying anywhere under any lag: surfaces only grow, never mix identities, and a public release implies that its identity is complete on all four surfaces |
| `Publication.CompleteIsFinal` | scripts/rc_verify_and_publish.py:371-510 | no state that may follow the complete one differs from it |
| `Publication.RunPipeline` | scripts/rc_verify_and_publish.py:9-32 | one run: it keeps recoverability, and without crashes or lag it completes if and only if the state was recoverable or, resumed later, what the phase needs was there |
| `Publication.RerunWhenComplete` | scripts/rc_verify_and_publish.py:9-32 | a rerun on the complete state changes nothing |
| `Publication.CrashedRuns` | scripts/rc_verify_and_publish.py:9-32 | any runs of one identity with phases in the documented order, dying anywhere under any lag, leave a recoverable state |
| `Publication.CalmRun` | scripts/rc_verify_and_publish.py:9-32 | from every recoverable state one run without crashes or lag ends in the one complete state |
| `Publication.StageBeforeReserve` | scripts/rc_verify_and_publish.py:444-452 | the order matters: an upload on a reservation that died at its tag goes through, and then the reservation, reading the current state, fails |
| `Publication.UploadStrands` | scripts/rc_verify_and_publish.py:444-452 | where an upload goes through on a recoverable state, what it leaves is recoverable if and only if there was nothing to upload or the provenance asset is on the release |
| `Lexical.BeforeMeans` | src/data_olympus/cooccurrence.py:181-185 | the alphabetical order of texts: at the first place where they differ the smaller character comes first, and a beginning before the whole |
| `Cooccurrence.PlainTableUnique` | src/data_olympus/cooccurrence.py:310-422 | the plain definition determines the table, whatever the memory ceiling |
| `Cooccurrence.RelatedTermsAreCounted` | src/data_olympus/cooccurrence.py:352-362 | the vocabulary prefilter is lossless |
| `Cooccurrence.TogetherBounded` | src/data_olympus/cooccurrence.py:365-382 | a pair occurs at most as often as each of its terms, in either order |
| `Cooccurrence.ScoreMeans` | src/data_olympus/cooccurrence.py:401-406 | the score is taken of how often two tokens occur together, times the documents, and of the product of how often each occurs |
| `PairCounter.Counter.Add` | src/data_olympus/cooccurrence.py:208-209 | one key counts one more and at most one entry is added |
| `PairCounter.Counter.Flush` | src/data_olympus/cooccurrence.py:220-237 | moving the counts to disk changes no total |
| `PairCounter.Counter.Checkpoint` | src/data_olympus/cooccurrence.py:211-218 | totals are kept, the high-water mark is noted, and fewer than the ceiling stay resident |
| `PairCounter.Counter.Items` | src/data_olympus/cooccurrence.py:239-251 | each pair that reaches the minimum once, with its whole count, and no other |
| `CooccurrenceBuild.CappedDocTokens` | src/data_olympus/cooccurrence.py:174-186 | the kept tokens of one document, alphabetically: all of them, or as many as the cap, none shorter than one left out, and among equally long ones the first in the alphabet |
| `CooccurrenceBuild.CountTerms` | src/data_olympus/cooccurrence.py:337-350 | in how many capped documents each token occurs |
| `CooccurrenceBuild.KeyIsPair` | src/data_olympus/cooccurrence.py:365-382 | the integer key names one pair and no other |
| `CooccurrenceBuild.CountRow` | src/data_olympus/cooccurrence.py:373-382 | one document adds each of its pairs once |
| `CooccurrenceBuild.CountDocuments` | src/data_olympus/cooccurrence.py:370-382 | after the pass each key's total is the number of documents with that pair, the mark is the most pairs resident at any moment and respects the bound, and every flush but the last is full |
| `CooccurrenceTable.Offer` | src/data_olympus/cooccurrence.py:392-397 | early pruning keeps the top k of everything offered so far, and keeps no list longer than 4k |
| `CooccurrenceTable.OfferedArePartners` | src/data_olympus/cooccurrence.py:384-412 | over all delivered pairs a term is offered exactly its partners of the plain definition |
| `CooccurrenceTable.FinalRow` | src/data_olympus/cooccurrence.py:413-420 | the final cut is the top k of everything offered, strongest first |
| `Cooccurrence.RowMeans` | src/data_olympus/cooccurrence.py:384-420 | a row names related terms, k of them or all there are; each has a higher score than those after it and those left out, or the same and more documents in common, or the same again and comes first in the alphabet |
| `CooccurrenceTable.Build` | src/data_olympus/cooccurrence.py:310-422 | for every corpus and all parameters the table is the plain one; the recorded mark is the most pairs ever resident, with a positive ceiling M and document cap D at most M - 1 + D(D-1)/2, and every flush but the last holds at least M |
| `AuditChain.IntactMeansLinked` | src/data_olympus/audit_log.py:160-211 | verify accepts exactly the logs whose hashed events link up from the start, with other JSON lines only in front |
| `AuditChain.SomeDigestIsSound` | src/data_olympus/audit_log.py:61-72 | an injective digest into non-empty texts exists, so the hypothesis of the theorems about the chain can be met |
| `AuditChain.SameHashSameEvents` | src/data_olympus/audit_log.py:61-72 | two logs that verify and end in the same hash hold the same hashed events in the same order |
| `AuditChain.LostHeadDetected` | src/data_olympus/audit_log.py:160-211 | losing the head of the chain is detected |
| `AuditChain.LostMiddleDetected` | src/data_olympus/audit_log.py:160-211 | losing a middle stretch is detected |
| `AuditChain.SwapDetected` | src/data_olympus/audit_log.py:160-211 | two hashed stretches cannot change places, whatever is appended |
| `SegmentNames.StampsSortAsNumbers` | src/data_olympus/audit_log.py:111-114 | fixed-width timestamps sort as their numbers, and equal ones leave the order to what follows |
| `SegmentNames.NumberOrders` | src/data_olympus/audit_log.py:111-114 | the numbers order instants field by field, from year to microsecond |
| `SegmentNames.NumberedSortsFirst` | src/data_olympus/audit_log.py:115-120 | within one instant a numbered name sorts before the plain one, if the path has a suffix |
| `SegmentNames.PlainSortsFirst` | src/data_olympus/audit_log.py:111-121 | and after it, if the path has none |
| `SegmentNames.TailsInTurn` | src/data_olympus/audit_log.py:111-121 | without a suffix the first ten names of an instant sort in turn, and the eleventh before the third |
| `SegmentNames.NamesAreDistinct` | src/data_olympus/audit_log.py:111-121 | different instants or numbers give different names |
| `SegmentNames.IsSegmentMeans` | src/data_olympus/audit_log.py:100-109 | the pattern is the stem, a hyphen, anything and the suffix |
| `AuditSegments.NamesInOrder` | src/data_olympus/audit_log.py:100-109 | while rotations come at ever later instants, sorting the names restores their order |
| `AuditSegments.RotateLater` | src/data_olympus/audit_log.py:123-136 | a rotation at a later instant leaves the log's lines as they were |
| `AuditSegments.RotateLast` | src/data_olympus/audit_log.py:123-136 | so does every rotation whose name sorts last |
| `AuditSegments.RotateTooEarly` | src/data_olympus/audit_log.py:123-136 | a rotation at an earlier instant, or for a path with a suffix at the same one, puts the live lines in front of an older segment |
| `AuditFiles.AuditLog.constructor` | src/data_olympus/audit_log.py:43-59 | opening existing files loads the end of their chain |
| `AuditFiles.AuditLog.RotatedPaths` | src/data_olympus/audit_log.py:100-109 | the segments that exist, sorted by name |
| `AuditFiles.AuditLog.LoadLastHash` | src/data_olympus/audit_log.py:74-97 | the last hash over all segments and the live file |
| `AuditFiles.AuditLog.RotatedPathFor` | src/data_olympus/audit_log.py:111-121 | the first free name; the search always ends |
| `AuditFiles.AuditLog.MaybeRotate` | src/data_olympus/audit_log.py:123-136 | the live file moves to the first free name exactly when it has reached the threshold |
| `AuditFiles.AuditLog.Append` | src/data_olympus/audit_log.py:139-158 | the whole new state; the log ends with the caller's event, every field as it was given, under its identifier, linked to the last hash and hashed; from a good state the log gains exactly that line and stays good if a due rotation comes at a later instant; on a fully chained log verify still accepts if and only if a due rotation did not come too early |
| `AuditFiles.AuditLog.AppendThenQuery` | src/data_olympus/audit_log.py:139-287 | an event just appended is the first that a query for its time, agent and status yields |
| `AuditFiles.RecordedIsWanted` | src/data_olympus/audit_log.py:263-287 | a recorded event is wanted if and only if the query asks for the caller's event |
| `AuditFiles.AuditLog.Restart` | src/data_olympus/audit_log.py:74-97 | a restart of a good log loads the hash it had |
| `AuditFiles.AuditLog.Verify` | src/data_olympus/audit_log.py:160-211 | (True, -1) if and only if the log is intact, else the first line that does not fit, counted over all segments |
| `AuditFiles.AuditLog.IterFiltered` | src/data_olympus/audit_log.py:213-287 | the bounded reverse scan; on a log in time order it yields exactly the wanted lines among the last N that are not blank, newest first, and without a bound all of them |
| `AuditScan.ScanExactWhenStopsSafely` | src/data_olympus/audit_log.py:213-287 | the early stop loses nothing if and only if nothing wanted lies below the line it stops at |
| `AuditScan.ScanInTimeOrder` | src/data_olympus/audit_log.py:213-287 | nondecreasing numeric timestamps are enough for that |
| `AuditScan.RecentMeans` | src/data_olympus/audit_log.py:249-256 | a bounded scan examines the last N lines that are not blank |
| `AuditScan.MissingTimeHides` | src/data_olympus/audit_log.py:249-287 | under any positive since an event without ts hides the wanted event before it |
| `AuditRuns.Run` | src/data_olympus/audit_log.py:99-211 | every run of appends, rotations, restarts and crashes between rename and write, from any good state, whose rotations came at ever later instants ends good and has gained exactly the appended events |
| `AuditRuns.NewLinesAre` | src/data_olympus/audit_log.py:139-158 | the lines of a run are its appended events one for one and in order, every field as it was given, each linked to the hash of the one before |
| `AuditRuns.LegacyIsGood` | src/data_olympus/audit_log.py:160-179 | an unhashed legacy log is a good state to start from |
| `AuditOrder.FirstFreeIs` | src/data_olympus/audit_log.py:111-121 | the number a rotation takes is the number of rotations at its instant so far |
| `AuditOrder.SortedExactly` | src/data_olympus/audit_log.py:100-121 | the names sort in the order of the rotations if and only if these come at ever later instants (with a suffix), or never run back with at most ten at an instant (without) |
| `AuditOrder.InvertedBreaks` | src/data_olympus/audit_log.py:160-211 | a log with an event in a segment that sorts before the one it links to is not intact, whatever else it holds |
| `AuditOrder.RunReadsBack` | src/data_olympus/audit_log.py:99-211 | over every run of appends, rotations, restarts and crashes between rename and write from an empty log, verify accepts if and only if the rotations kept the order, and then the log is exactly the appended events |
| `AuditOrder.RunThenVerify` | src/data_olympus/audit_log.py:99-211 | playing any script on an empty log object takes it through the states of the run, and verify answers as the run's log says: accepting if and only if the rotations kept the order, with exactly the appended events in the log, and else naming the first line that does not fit |
| `AuditOrder.TwoRotationsAtOnce` | src/data_olympus/audit_log.py:100-136 | three events and two rotations at one instant: the lines link up as written, and verify rejects them as read |
| `Ledger.EnforceCap` | src/data_olympus/enforce_policy.py:358-366 | the newest entries up to the cap, and no older one in place of a newer |
| `Ledger.NotedIsJustified` | src/data_olympus/enforce_policy.py:368-400 | at any clock, whatever is evicted, everything held was recorded |
| `Ledger.NotedIsComplete` | src/data_olympus/enforce_policy.py:342-400 | with a clock that does not run backwards nothing within the retention time is lost, except to the cap |
| `Ledger.AnswersAreSound` | src/data_olympus/enforce_policy.py:402-438 | the ledger never says more than the unbounded history |
| `Ledger.AnswersAreExact` | src/data_olympus/enforce_policy.py:402-438 | and says exactly as much for a pair the cap has not dropped, a ttl within the retention time and a query not before the last record |
| `Ledger.HookNeverClears` | src/data_olympus/enforce_policy.py:368-400 | a prompt-hook record never makes an answer of the gate more permissive |
| `Ledger.MalformedSpoilsAll` | src/data_olympus/enforce_policy.py:286-316 | one unreadable row anywhere empties the ledger |
| `Ledger.LegacyRow` | src/data_olympus/enforce_policy.py:286-316 | a row without explicit_at counts as explicit at the time it consulted, one with null as not explicit |
| `LedgerStore.LoadRows` | src/data_olympus/enforce_policy.py:286-316 | rows in order with later ones winning, legacy rows read as explicit, or nothing |
| `LedgerStore.SaveRows` | src/data_olympus/enforce_policy.py:318-327 | what is written reads back as exactly the entries |
| `LedgerStore.ConsultationLedger.constructor` | src/data_olympus/enforce_policy.py:252-284 | a corrupt or missing file gives an empty ledger; an oversized one is cut to its newest entries |
| `LedgerStore.ConsultationLedger.Evict` | src/data_olympus/enforce_policy.py:342-356 | rows and signals older than the cutoff go, then the cap applies |
| `LedgerStore.ConsultationLedger.Note` | src/data_olympus/enforce_policy.py:368-400 | the new entries and their file; the ledger stays justified at any clock and exact on one that does not run backwards, and a prompt hook makes nothing more permissive |
| `LedgerStore.ConsultationLedger.Restart` | src/data_olympus/enforce_policy.py:286-316 | a restart changes no entry |
| `LedgerStore.ConsultationLedger.IsFresh` | src/data_olympus/enforce_policy.py:402-425 | the stored answer; yes only if the unbounded history says so, and exactly then where the ledger is exact |
| `LedgerStore.ConsultationLedger.FreshSignals` | src/data_olympus/enforce_policy.py:427-438 | the stored signals; only ones the unbounded history covers, and exactly those where the ledger is exact |
| `LedgerStore.NothingDropped` | src/data_olympus/enforce_policy.py:358-366 | while no more pairs than the cap have consulted within the retention time, the cap drops nothing |
| `LedgerStore.Play` | src/data_olympus/enforce_policy.py:244-442 | every run of records and restarts keeps the ledger sound, exact on a clock that does not run backwards, and complete while no more pairs than the cap are active within the retention time |
| `Classifier.KeywordSignalMeans` | src/data_olympus/enforce_policy.py:196-197 | a keyword signal is reported exactly when the keyword stands between word boundaries |
| `Classifier.CommandSignalMeans` | src/data_olympus/enforce_policy.py:199-201 | a command signal is reported exactly when the fragment occurs |
| `Classifier.HasKeywordMeans` | src/data_olympus/enforce_policy.py:131-137 | a keyword is found if and only if the text is some beginning, the keyword and some rest with a word boundary at both cuts |
| `Classifier.PathSignalMeans` | src/data_olympus/enforce_policy.py:203-210 | a path has a signal if and only if some glob matches it with forward slashes or its last component, and then it is that of the first such glob |
| `Classifier.TokensAre` | src/data_olympus/enforce_policy.py:80-83 | the tokens of an intent are its stretches between white space and quotes |
| `Classifier.SpansAre` | src/data_olympus/enforce_policy.py:80-83 | from left to right a quote that closes later opens a span, if something is between, and other quotes none |
| `Classifier.Coverage` | src/data_olympus/enforce_policy.py:167-186 | exactly the signals of the keywords, fragments and tried path candidates of the intent |
| `Classifier.CoversMeans` | src/data_olympus/enforce_policy.py:167-186 | a consult covers the keywords and command fragments of its intent, and the first glob of every token, trimmed token and span |
| `Classifier.NextQuote` | src/data_olympus/enforce_policy.py:80-83 | a quoted span runs to the next occurrence of its quote |
| `Clearance.UncoveredSignals` | src/data_olympus/enforce_policy.py:95-108 | the signals that nothing in the coverage clears, in their order |
| `Clearance.UncoveredMeans` | src/data_olympus/enforce_policy.py:95-108 | exactly the signals nothing clears; none if and only if all are cleared |
| `Clearance.WordClearsExactly` | src/data_olympus/enforce_policy.py:54-108 | a keyword clears itself and the families of its topic, and nothing else |
| `Clearance.FamilyMeans` | src/data_olympus/enforce_policy.py:86-93 | a glob below any directory and the same glob alone are one family, every other signal is its own |
| `Clearance.ActionSignalsAre` | src/data_olympus/enforce_policy.py:138-165 | an action has a signal if and only if it is a command fragment of its content, the first glob its path matches, or, without a path, a keyword of its content |
| `Clearance.QuotedIsSpan` | src/data_olympus/enforce_policy.py:80-83 | the first quoted text of an intent is read back whole |
| `Clearance.NamingCovers` | src/data_olympus/enforce_policy.py:138-186 | an intent that quotes the path and contains the content covers every signal of the action |
| `Clearance.NamingExists` | src/data_olympus/enforce_policy.py:167-186 | such an intent exists when the path avoids one of the three quote characters |
| `Suggestion.SuggestIntent` | src/data_olympus/tools_enforce.py:71-91 | the part of each uncovered signal stands in the intent between separators; for an action's signals, keywords with word ends and a path that avoids a quote, the intent covers every one of them |
| `Suggestion.SuggestionCovers` | src/data_olympus/tools_enforce.py:71-91 | the suggested intent covers every uncovered signal, if configured keywords begin and end with word characters |
| `Suggestion.KeywordAloneCovered` | src/data_olympus/tools_enforce.py:71-91 | for a single keyword the suggestion covers it if and only if it begins and ends with word characters |
| `Suggestion.AdviceWorksExactly` | src/data_olympus/tools_enforce.py:71-91 | for all actions without a path and all coverages the suggestion covers all that is uncovered, if and only if every configured keyword begins and ends with a word character |
| `Suggestion.AdviceThatDoesNotClear` | src/data_olympus/tools_enforce.py:71-91 | a configured keyword c++ governs an action that the advice does not clear |
| `Excerpts.ShortIntentExists` | src/data_olympus/enforce_policy.py:138-186 | every action whose path avoids a quote character is covered by an intent no longer than the vocabulary and the path, however long its content (442 characters for the built-in vocabulary, or 199 and the path) |
| `Gate.Consult` | src/data_olympus/tools_enforce.py:94-163 | an explicit or prompt-hook consult records exactly what the first 4000 characters of its intent cover |
| `Gate.GateCheck` | src/data_olympus/tools_enforce.py:223-302 | a governed action passes only when explicit consults within the ttl clear all its signals, and where the ledger is exact whenever they do; before any consult it passes if and only if nothing governs it |
| `Gate.ConsultThenAct` | src/data_olympus/tools_enforce.py:94-302 | the run records the consult and then its own records; the gate answers what the ledger then leaves uncovered; and after a consult that covers the action it passes for the whole ttl in both clearance modes, whatever records and restarts come between, while the records are in order and the pair was not dropped, which the cap does not do while no more pairs than it are active |
| `Gate.FollowAdvice` | src/data_olympus/tools_enforce.py:223-302 | a denied action's uncovered signals are turned into the suggested intent, which is consulted once; the retry is answered by what is then left uncovered, and passes when the intent is not longer than a consult reads and the pair was not dropped |
| `ReleaseRecord.Validate` | scripts/release_record.py:954-985 | accepts exactly wanted bytes under wanted names, all of them once public or required complete, and tells a burned version from the rest |
| `ReleaseRecord.Server.Upload` | scripts/release_record.py:1074-1078 | names are added and never replaced, possibly half-way, and never to a public release |
| `ReleaseRecord.Server.Publish` | scripts/release_record.py:1082-1083 | the draft flag goes, possibly behind a lost reply |
| `ReleaseCompletion.ReadRelease` | scripts/release_record.py:1009-1056 | a state the release has been in; with nobody else and no failure the first of seven reads that lists the names, else the seventh |
| `ReleaseCompletion.CompleteRelease` | scripts/release_record.py:1059-1086 | only a release that really holds all expected bytes is published, and it holds exactly them if and only if no foreign name was there at the start or added before the publication, so always with nobody else; a normal return means it is public, no prerelease and exactly complete, and a burned version is reported only when it is public and incomplete for good; nothing is replaced and a public release never changed; a complete draft is published with whatever the other party has added since the read; from its own states a calm run completes; and with nobody else, no failure and a current first read, an unfinished draft is completed if and only if one of seven reads after the upload lists all names and the read after the publication shows it |
| `ReleaseCompletion.FailedRuns` | scripts/release_record.py:1059-1086 | any number of failed runs, with nobody else about, leave a release of their own |
| `ReleaseCompletion.CalmRun` | scripts/release_record.py:1059-1086 | from every such release a calm run completes it |
| `ReleaseCompletion.SeenHolds` | scripts/release_record.py:1059-1086 | what was once read complete still holds all expected bytes |
| `ReleaseCompletion.ExactWhen` | scripts/release_record.py:1059-1086 | what a run publishes is exact if and only if the names at the start and those others added before the publication are expected |
| `ReleaseCompletion.HiddenAsset` | scripts/release_record.py:1059-1086 | a run on which an asset added after the read is published with the rest, and which ends in an error |
| `SemVer.CandidatesOrder` | scripts/sdlc_version.py:334-341 | candidates of one kind are ordered by target, then by number, in the precedence of section 11 of Semantic Versioning 2.0.0 |
| `SemVer.PrecedesIsTotal` | scripts/sdlc_version.py:334-341 | precedence orders any two versions, one way only and transitively |
| `SemVer.PrecedenceExample` | scripts/sdlc_version.py:334-341 | the example chain of section 11.4 |
| `VersionEngine.MainIsTheMergeBase` | scripts/sdlc_version.py:241-249 | where main is an ancestor of the head it is the one merge base |
| `VersionEngine.SomeMergeBase` | scripts/sdlc_version.py:241-245 | there is a merge base if and only if there is a common ancestor |
| `VersionEngine.RangeEmpty` | scripts/sdlc_version.py:98-100 | nothing lies between two commits exactly when the later is an ancestor of the earlier |
| `VersionEngine.RangeGrows` | scripts/sdlc_version.py:315 | along descendants the counted commits strictly grow |
| `VersionEngine.AncestorsAre` | scripts/sdlc_version.py:98-100 | the ancestors of a commit are those a chain of parents leads to |
| `VersionRun.FindCut` | scripts/sdlc_version.py:240-249 | a cut is found if and only if main is an ancestor of the head, and is main; which error otherwise |
| `VersionRun.AdoptionBase` | scripts/sdlc_version.py:126-176 | an adoption base if and only if the record on the cut meets every condition |
| `VersionRun.FindBase` | scripts/sdlc_version.py:255-269 | the base of a cut, or an error exactly when it has none |
| `VersionRun.OneBase` | scripts/sdlc_version.py:255-269 | a cut has at most one base, whatever tags are ignored |
| `VersionRun.HighestImpact` | scripts/sdlc_version.py:316-323 | three for a breaking change in the log, else two for a feature, else one for a fix; an error exactly when a message is malformed or, for a hotfix, a breaking change or a feature |
| `VersionRun.NextRises` | scripts/sdlc_version.py:324-334 | the next version is above its base and grows with the impact; only a GA decision withdrawn before version 1 takes it back |
| `VersionRun.ComputeVersion` | scripts/sdlc_version.py:212-346 | an answer as specified, or an error exactly when no base makes the request computable; every error says what was found: a bad record on the cut, a hotfix without a base or with a feature, no ratification, and so on |
| `VersionRun.TargetMeans` | scripts/sdlc_version.py:315-342 | which version follows the base, from the commits alone: from version 1 on the next major for a breaking change, else the next minor for a feature, else the next patch; before, 1.0.0 under an approved GA decision, else the next minor for a breaking change, else the next patch; and the candidate is its numbered prerelease |
| `VersionRun.BaseMeans` | scripts/sdlc_version.py:126-176 | what a version is counted from: the only stable tag of the cut, else what the adoption record names, which is the newest tag, else nothing where no stable tag is; and for a hotfix the newest tag, on the cut |
| `VersionRun.AnswersLieAboveTheBase` | scripts/sdlc_version.py:240-346 | B is M and the only merge base, N is zero exactly when H is B, the target is above the base, and the candidate lies between base and target |
| `VersionRun.CandidatesRise` | scripts/sdlc_version.py:315-342 | along descendants of one cut N strictly rises, and the candidates rise in precedence if and only if no GA decision has been withdrawn before version 1 |
| `VersionRun.WithdrawnDecision` | scripts/sdlc_version.py:324-342 | a repository and two heads, both computed, whose candidates fall: v1.0.0-rc.1 under a GA decision, then v0.1.1-rc.2 without it |
| `VersionRun.HotfixRaisesThePatch` | scripts/sdlc_version.py:266-334 | a hotfix raises the patch of the newest released version and nothing else |
| `Cosine.CauchySchwarz` | src/data_olympus/embeddings.py:135-152 | the accumulated square never exceeds the product of the norms |
| `Cosine.Similarity` | src/data_olympus/embeddings.py:135-152 | an error exactly on a length mismatch, else the cosine, in [-1, 1] |
| `Cosine.CosineOfItself` | src/data_olympus/embeddings.py:135-152 | a vector with a direction has similarity 1 to itself and -1 to its opposite |
| `Cosine.CosineMeans` | src/data_olympus/embeddings.py:135-152 | the similarity times the norms is the product of the vectors, and 0 where one has no direction |
| `Reranker.GoodnessBounds` | src/data_olympus/embeddings.py:240-257 | the goodness of every hit, and of nothing else, lies in [0, 1] |
| `Reranker.GoodnessEnds` | src/data_olympus/embeddings.py:240-257 | it is 1 for the best score and, unless all are equal, 0 for the worst |
| `Reranker.BlendedInRange` | src/data_olympus/embeddings.py:296-306 | for a weight in [0, 1] every blended score lies in [0, 1] |
| `Reranker.Rerank` | src/data_olympus/embeddings.py:288-315 | the hits that came in, each once and changed in nothing but the score, by class, then blended score, then arrival |
| `Reranker.OrderAtTheEnds` | src/data_olympus/embeddings.py:257-315 | at weight 0 the order within a class is that of the scores, at weight 1 that of the similarities |
| `Reranker.EveryPlaceFound` | src/data_olympus/embeddings.py:288-315 | no hit is dropped |
| `Reranker.PrimariesFirst` | src/data_olympus/embeddings.py:307-312 | no hit of a later class stands before one of an earlier class |
| `Reranker.StableSortSorts` | src/data_olympus/index.py:456-459 | the later sort rearranges the hits by class, then score |
| `Reranker.StableSortIsStable` | src/data_olympus/index.py:456-459 | hits of one class and score stay in their order |
| `Reranker.LaterSortKeepsOrder` | src/data_olympus/index.py:456-459 | a later stable sort by class and score keeps the order |
| `Metrics.GainBelowIdeal` | benchmarks/metrics.py:43-50 | no arrangement of the hits gains more than the ideal one |
| `Metrics.HitsAreGold` | benchmarks/metrics.py:43-50 | without duplicates there are no more hits than gold results |
| `Metrics.NdcgAtK` | benchmarks/metrics.py:43-50 | the quotient of gain and ideal gain, in [0, 1] for a ranking without duplicates |
| `Metrics.DuplicateScoresAboveOne` | benchmarks/metrics.py:43-50 | a listed duplicate exceeds the ideal gain |
| `Metrics.BoundedExactly` | benchmarks/metrics.py:43-50 | for every ranking, duplicates or not: the gain stays within the ideal one for all falling weights if and only if the hits are no more than the ideal counts |
| `Metrics.Dedupe` | benchmarks/methods/base.py:14-21 | every result once, where it first stands |
| `Metrics.PercentileBounds` | benchmarks/metrics.py:171-183 | a quantile of a sorted list lies between its extremes |
| `Metrics.PercentileGrows` | benchmarks/metrics.py:171-183 | a higher quantile is never lower |
| `Metrics.PercentileMeans` | benchmarks/metrics.py:171-183 | between two neighbouring values the quantile moves in a straight line |
| `Metrics.BootstrapMeanCI` | benchmarks/metrics.py:126-168 | the ends are the quantiles of the sorted resample means that leave out half of what the confidence leaves out on either side, each mean that of n draws; for a confidence in [0, 1] they are in order and lie inside the sample's range |

## Left out

- Git, `gh`, PyPI, GHCR, HTTP and SQLite calls: only their effect on refs, surfaces, graph and tables is there.
- SHA-256 and HMAC, JSON and YAML encoding, locks and threads: each locked section is one step.
- Floating point: scores, times and ratios are reals, so rounding, infinities and NaN are not modelled.
- Field-by-field validators of evidence, provenance and readiness: conjunctions settled by one reading.
- Replay checks, released-candidate checks and archive normalisation: subprocess and archive plumbing.
- The rc channel tag, attestation outputs and the text of error messages.
- Two drafts under one tag, and uploads that leave a partial asset: an upload of one asset is atomic.
- The exact text of the candidate tag message: the model keeps what it binds.
- A fast-forward of an unprotected ref by a plain creation: the protected-branch rule is taken to refuse it.
- The co-occurrence expanders and the lookup beside the builder.
- Lines of an audit log torn by a crash in the middle of a write, and hashes that are not strings.
- Foreign files in the log's directory whose names match the segment pattern.
- Lower-casing that changes a string's length or depends on the neighbouring characters.
- Ties at the ledger's cap may fall either way; a save that fails is not modelled.
- Release listings with duplicate names or missing digests: assets are a map from name to hash.
- Stripping of white space around the GA decision, ratification documents and their dates, PyPI version spelling.
- ReleaseRecord.Server.Upload: does not say in which order missing assets arrive, because any subset may be left by a failure.
- VersionRun.HighestImpact: does not say which of two bad messages is reported, because the log's order is by date.
- LedgerStore.ConsultationLedger.constructor: says nothing of the history behind an existing file, because the file does not hold it.
