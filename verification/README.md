# A verified model of Songbird's API

Songbird keeps a shared catalogue of songs. Users edit songs, keep a queue, import files; an
administrator reads the error list and tidies the folder of audio files. This project models the
logic behind those features and proves what it keeps. `dafny verify dfyconfig.toml` checks it all.

**The audio editor** (`Basics`, `StableSort`, `Timeline`, `CutSweep`, `FadeFilter`, `SpeedChain`,
`EditPlan`, `EditCorrect`, `EditTheorems`, `EditShortcut`, `EditUntrimmed`, `EditMeaning`, `EditRequest`). An edit
(trim, cuts, fades, speed, volume, levelling) is compiled to one of four ffmpeg plans. A plan's meaning
says which source instant is heard at each output instant, with which gain. It is compared with one
reference for all edits, which reads the request as it comes in and mentions neither sweep nor filter
chain: an instant is kept when it is in the trimmed window, or before the file's end, and in no cut; it
is heard once as much buffer time has passed as there is kept time before it; its gain is the volume
asked for times the fades times the fades of the cuts next to its run. Kept time is characterised by a measure that is shown to be unique, and so
is the layout of kept pieces.

* An edit the API accepts is played as it is meant, whichever plan is chosen, if and only if two things
  are avoided (`EditRequest.EditPlaysIff`). One is a lone audible piece with a cut fade longer than the
  piece: the branch for one remaining segment squeezes such a fade into the piece instead of cutting it
  off (`EditMeaning.OverlongFadeMisplays`). The other is, without cuts and without a trim end, a fade
  that is still running when the file ends: that branch takes the file to end at a sentinel of 10^9
  seconds and stretches the fade accordingly (`EditMeaning.FadePastEndMisplays`), while next to a cut
  that removes nothing the same fade is right (`EditMeaning.IdleCutCures`). Both conditions can be
  decided from the parameters and the file's length; `CutSweep.KeptPieces` computes the layout.
* The audio is copied without encoding it anew exactly when a request asks for nothing but which parts
  to keep (`EditRequest.CopiesIff`).
* A volume of zero means "not given" and becomes one, as coded; a volume within 10^-6 of one is played
  as one. A trim end past the end of the file is
  taken as asked for, and fades are placed against it.
* Numbers are reals. The length that ffprobe reports is taken to be the file's length, at most the
  sentinel. The plan's tempo is the product of its factors, within 0.001 of the speed asked for.

**The edit lineage** (`Lineage`, `LineageInvariant`, `LineageRuns`, `LineagePublish`, `LineageWalks`,
`LineageEffects`, `LineageTheorems`, `LineageDamage`, `LineageFamily`, `LineageEditCap`, `Catalog`). Songs point at the
version they were made from and at their root. `Catalog.Store` changes rows, library entries and files in
place, as the routers do;
`Lineage` says what each operation does; the theorems are about every interleaving of users coming
and going, downloads, edits (request, snapshot, render, finalise), restores, publishes, library
changes and deletes. An edit's background task is kept apart from its job's row: the row goes with its
source song and with its user, the task goes on.

* Two things break the lineage, and no step but these two does (`LineageTheorems.StepKeepsInvIff`);
  what they break is seen in some song's pointers, at once or when a running edit is saved
  (`LineageDamage.ForbiddenStepShows`). One is publishing a version whose edited versions stay behind
  unpublished, or that a running edit was made from; the condition is exact for any list of songs and
  is read off the rows as they are before (`LineagePublish.PublishIff`, `LineagePublish.CollectedByIs`;
  the smallest instance is `LineagePublish.PublishedParentStrandsChild`). The other is a failure between
  two commits of an edit's second half, after the version that the source hangs below was deleted and
  before the source is hung under the root (`LineageRuns.RaiseIff`, with the smallest instance in
  `LineageTheorems.HalfCollapseStrandsSource`). Runs leave out these two and nothing else.
* What a restore takes, what publishing leaves and what a whole edit saves is written out on the rows
  (`LineageEffects.RestoreTakes`, `PublishLeaves`, `WholeEdit`).
* The two-edit cap of one user's lineage holds whatever happens at other songs in the meantime
  (`LineageEditCap.TwoEditCap`).
* An edit that raises after its version's row has been committed removes the file and leaves the row,
  for instance when its user was deleted while the audio rendered. In every state of a run exactly
  those songs lack a file (`LineageTheorems.EveryRunKeepsLineage`, `UserGoneLosesFile`).
* Identifiers are numbers in the order they are drawn, never drawn twice, and name the song's file.
  `Descending`, which the walks require so that they end, holds in every state a run reaches
  (`EveryRunKeepsLineage`); the precondition asks nothing more of a caller.

**The player queue** (`PlayQueue`, `QueueTheorems`, `QueueEffects`). `PlayQueue.PlayerRow` is the stored row with its
queue, index, shuffle order and shuffle position. Over any run of insertions, removals and reorders
it refines a plain list of what plays when. Runs start from a queue without duplicates and, when
shuffling, an order that is a permutation: replacing the whole row checks neither.

**Renaming** (`RenamePlan`, `RenamePass`, `RenameResults`). A pass over a folder gives every file its cleaned name or
the least free numbered one. No file is lost, the plan is determined name by name, and a dry run
announces exactly what the real run does under a condition that is exact.

**Error list, imports, plays** (`ErrorPage`, `ErrorPageLater`, `ImportJobs`, `ImportDesk`,
`ImportTitles`, `ImportTwins`, `PlayLog`). The page merged from two sources, import jobs stepping side by side
behind a semaphore of five, and the rule for counting plays. The duplicate check of an
import is not atomic with the insertion; `ImportTwins.TwinsIff` says exactly which interleavings
import one track twice. A play is stamped with the start of its request's transaction but looked up
with a clock reading taken later; five minutes lie between a play and the next one's reading, always,
and between their stamps if and only if no play falls in that lag (`PlayLog.RunSpacedIff`).

## Model

| member | source | states |
|---|---|---|
| Timeline.OrigToBufOffset | songbirdapi/editor.py:54-63 | the accumulating loop computes the offset that the next six rows characterise, for any list of segments |
| Timeline.OffsetIsKeptMeasure | songbirdapi/editor.py:54-63 | the offset measures kept time: it advances at rate one over kept time, stands still over removed time, and is zero until something has been kept |
| Timeline.KeptMeasureUnique | songbirdapi/editor.py:54-63 | nothing else measures kept time: any measure of the same kept set equals the offset everywhere |
| Timeline.OffsetMonotone | songbirdapi/editor.py:54-63 | the offset never decreases, never runs faster than source time, and stays between zero and the total kept length |
| Timeline.LocateInvertsOffset | songbirdapi/editor.py:54-63 | on kept instants the offset can be undone, and lies below the total |
| Timeline.OffsetInvertsLocate | songbirdapi/editor.py:54-63 | every offset from zero up to the total is reached, by a kept instant, and no other offset is |
| Timeline.OffsetStandsStill | songbirdapi/editor.py:54-63 | two instants share an offset if and only if nothing between them is kept |
| StableSort.SortIsStable | songbirdapi/editor.py:207 | sorting cuts by start yields a sorted permutation in which cuts of one start keep their order |
| StableSort.StableSortUnique | songbirdapi/editor.py:318 | a sorted list is settled by its elements key by key, so any stable sort gives the same list |
| CutSweep.SweepForCopy | songbirdapi/editor.py:206-220 | the segment loop of the stream copy yields the segments of the kept pieces |
| CutSweep.SweepForEncode | songbirdapi/editor.py:316-337 | the re-encode's loop yields the same pieces, each with one pair of fades: the two copies of the loop agree |
| CutSweep.KeptPiecesAreLayout | songbirdapi/editor.py:320-337 | an instant of the window lies in a piece if and only if no cut contains it; pieces are non-empty, in order, with positive gaps, at most one more than the cuts; a piece's fade-out is that of the first effective cut starting at its end, its fade-in that of the effective cut ending at its start |
| CutSweep.LayoutUnique | songbirdapi/editor.py:320-337 | that description leaves no choice: any two layouts of the same cuts are equal, segments and fades |
| CutSweep.NothingKept | songbirdapi/editor.py:339-340 | the error "cuts remove the entire audio" is due if and only if no instant survives |
| FadeFilter.BuildVolumeAndFadesFilter | songbirdapi/editor.py:66-107 | the loop builds the expression whose value the next rows give, or none |
| FadeFilter.VolumeFilterMeans | songbirdapi/editor.py:77-107 | at the buffer instant of a kept instant the expression, or its absence, is the volume times every fade's gain over kept time |
| FadeFilter.SingleRamp | songbirdapi/editor.py:71-93 | fades that do not overlap in original time do not overlap in the buffer: while one runs the expression is the volume times its ramp and all others are one |
| FadeFilter.FactorsUnit | songbirdapi/editor.py:84-93 | whatever the fades, their product lies between zero and one at every instant |
| FadeFilter.FadeDropped | songbirdapi/editor.py:78-83 | a fade leaves no factor if and only if no kept instant lies inside it |
| SpeedChain.BuildSpeedFilters | songbirdapi/editor.py:37-51 | the two loops end for every positive speed and emit the chain the next rows describe |
| SpeedChain.ChainProduct | songbirdapi/editor.py:43-50 | the factors times what is left over give the speed back; what is left over is within 0.001 of one, and is one exactly when the speed that the loops end on is emitted as a factor of its own or is one |
| SpeedChain.PrintedProduct | songbirdapi/editor.py:43-50 | the factors as the command prints them multiply up to the speed within the same 0.001 |
| SpeedChain.TempoChainCorrect | songbirdapi/editor.py:37-51 | every factor is within atempo's range, also after printing to four decimals; the product, computed or printed, is within 0.001 of the speed; the chain is empty if and only if the speed is within 0.001 of one; the length is logarithmic, and at most two on the API's range |
| EditPlan.BuildFilterChain | songbirdapi/editor.py:373-379 | the filters assembled step by step are the chain whose meaning `FilterChainMeans` gives |
| EditPlan.StreamCopyWithCuts | songbirdapi/editor.py:199-256 | the copying branch chooses the plan that `CopyWithCuts` proves right, or raises |
| EditPlan.ApplyWithCuts | songbirdapi/editor.py:305-402 | the re-encoding branch, with its shortcut for one segment, chooses the plan that `EncodeWithCuts` proves right, or raises |
| EditPlan.ApplyEdits | songbirdapi/editor.py:131-180 | defaults, dropped ranges and the choice among four plans give the plan that `EditRequest.EditPlaysIff` compares with the request itself |
| EditCorrect.PlaySeparated | songbirdapi/editor.py:370-371 | pieces played one after the other, stopping where the file stops, play the located source instant and its piece, for every buffer time |
| EditCorrect.FilterChainMeans | songbirdapi/editor.py:373-379 | the filter chain reads the stream at the tempo's instant, scales it by the expression there, and levels it last if asked |
| EditCorrect.MergedFadesFit | songbirdapi/editor.py:342-354 | a lone piece's fades turned into fades over original time give the gain of the piece's own ramps, when both fit inside it |
| EditTheorems.CopyWithoutCuts | songbirdapi/editor.py:183-196 | copying one window plays the reference of a lossless-eligible edit |
| EditTheorems.CopyWithCuts | songbirdapi/editor.py:199-256 | copying and concatenating the segments plays the reference of a lossless-eligible edit, and raises if and only if nothing is kept |
| EditTheorems.EncodeTrimmed | songbirdapi/editor.py:270-302 | re-encoding one window with a trim end plays the reference |
| EditUntrimmed.UntrimmedIff | songbirdapi/editor.py:287-302 | re-encoding without cuts and trim end plays the reference if and only if no fade is running when the file ends |
| EditUntrimmed.SomeGainDiffers | songbirdapi/editor.py:287-292 | however many fades there are, their deviations never cancel: one fade past the end is enough for an instant at which the gain is not the one meant |
| EditTheorems.EncodeWithCuts | songbirdapi/editor.py:305-402 | re-encoding pieces plays the reference, and raises if and only if nothing is kept, when a lone piece's cut fades fit |
| EditMeaning.EditPlaysItsMeaning | songbirdapi/editor.py:131-180 | whatever the edit, the plan chosen plays its meaning when a lone piece's cut fades fit and no fade of an uncut, untrimmed edit runs past the file's end |
| EditMeaning.LosslessIsSound | songbirdapi/editor.py:110-128 | when an edit counts as lossless, copying and re-encoding raise in the same cases and otherwise sound the same at every instant |
| EditTheorems.ReferenceExists | songbirdapi/editor.py:131-180 | every edit and file has a meaning, so the theorems are never about nothing |
| EditShortcut.ShortcutIffFits | songbirdapi/editor.py:342-354 | the one-segment shortcut plays the edit's meaning if and only if both cut fades fit inside the segment |
| EditMeaning.CleanedPlaysIff | songbirdapi/editor.py:152-180 | once the defaults are filled in and empty ranges dropped, the plan plays the edit's meaning if and only if a lone piece that is heard is not shorter than its cut fades, and with neither cuts nor a trim end no fade runs past the file's end |
| EditRequest.EditPlaysIff | songbirdapi/editor.py:131-402 | the same against the request as it came in, for every request the API accepts: kept is what the trim and the cuts asked for leave, the gain is the volume asked for (one for zero, within a millionth) times the fades asked for and those of the cuts, levelling is as asked for and the tempo is within 0.001 of the speed asked for; an error is due if and only if cuts were asked for and leave nothing |
| EditRequest.CopiesIff | songbirdapi/editor.py:110-180 | the audio is copied and not encoded anew if and only if volume and speed are one within their tolerances, levelling is off, every fade is empty, and every cut that removes something has no fades |
| EditRequest.MeaningExists | songbirdapi/editor.py:131-180 | every request and file length has a meaning |
| EditMeaning.OverlongFadeMisplays | songbirdapi/editor.py:342-354 | a request that the plan does not play as meant: of eight seconds the first five are cut, with a fade-in of ten |
| EditMeaning.FadePastEndMisplays | songbirdapi/editor.py:287-289 | another: a fade-in of sixteen seconds on a file of eight, at a quarter of the volume where half is meant |
| EditMeaning.IdleCutCures | songbirdapi/editor.py:316-337 | the same fade next to a cut that removes nothing is played as meant |
| Catalog.Store.LibraryRefCount | songbirdapi/crud.py:283-285 | zero if and only if the song is in no library |
| Catalog.Store.ChildRefCount | songbirdapi/crud.py:288-295 | zero if and only if no song but the excluded one was made from it |
| Catalog.Store.DeleteSong | songbirdapi/crud.py:298-311 | the row, its library entries, the job rows of edits of it and its file go, pointers at it become null, and all else stays, running tasks included |
| Catalog.Store.DeleteUser | songbirdapi/crud.py:193-196 | the user's library and job rows go; songs and running tasks stay |
| Catalog.Store.UpdateEditJob | songbirdapi/crud.py:620-636 | the status is recorded if and only if the job still has a row |
| Catalog.Store.CollectChain | songbirdapi/routers/library.py:236-248 | the walk ends and has the effect that `WalkCollectsPrefix` describes |
| Catalog.Store.RestoreSong | songbirdapi/routers/library.py:215-248 | refused exactly for a missing song, one of another owner, or a missing target; else the swap and the deletions that `RestoreTakes` writes out |
| Catalog.Store.PublishSongs | songbirdapi/routers/library.py:126-158 | one walk a song, then one update of all of them: the rows that `PublishLeaves` writes out |
| Catalog.Store.DeleteDownload | songbirdapi/routers/downloads.py:222-231 | refused exactly while some version was made from the song |
| Catalog.Store.CreateEditJob | songbirdapi/routers/edit.py:238-253 | refused exactly for a missing song; else a pending job row and its task |
| Catalog.Store.SnapshotEdit | songbirdapi/routers/edit.py:95-129 | a missing source stops the task; else parent, root (the song itself if it has none) and requester are remembered; the job's row, if there is one, follows |
| Catalog.Store.CollectGrandparent | songbirdapi/routers/edit.py:188-198 | the version below the last save is deleted exactly when it is no root and nothing but the last save refers to it |
| Catalog.Store.FinaliseEdit | songbirdapi/routers/edit.py:170-214 | with a fault after any commit, or none: the version saved and the job closed, or stopped with no row and no file, or broken with a row and no file, as `FinaliseKeepsInv` and `RaiseIff` are about |
| LineageInvariant.ClimbReachesRoot | songbirdapi/models.py:78-83 | in a sound lineage following parents from any song ends at its root, and parent is null if and only if root is |
| LineageInvariant.RootHasChild | songbirdapi/crud.py:288-295 | a root with any version below it has a direct child, so the child count protects it |
| LineageInvariant.DeleteKeepsInv | songbirdapi/crud.py:298-311 | deleting a song that is nobody's root, and the parent only of songs about to be detached, keeps lineage, files, snapshots and job rows sound |
| LineageRuns.FinaliseKeepsInv | songbirdapi/routers/edit.py:170-214 | finalising any task, its source and its user still there or not, keeps all of that sound |
| LineageRuns.RaiseIff | songbirdapi/routers/edit.py:183-214 | raising after a commit keeps it sound if and only if it is not right after deleting the version that the source hangs below |
| LineageRuns.RestoreKeepsInv | songbirdapi/routers/library.py:233-248 | a restore keeps it sound |
| LineagePublish.PublishIff | songbirdapi/routers/library.py:126-157 | publishing any list keeps it sound if and only if, for each version on it that is not collected, each of its children is on the list or collected, and no edit of it is running |
| LineagePublish.CollectedByIs | songbirdapi/routers/library.py:127-141 | what the walks delete one after the other is read off the rows as they were before: references from libraries, and children not gone by then |
| LineagePublish.PublishOneIff | songbirdapi/routers/library.py:126-157 | for one song: it is a root, or no version was made from it and no edit of it is running |
| LineagePublish.UpdateKeepsInvIffSafe | songbirdapi/routers/library.py:143-157 | after the walks, clearing the songs' pointers keeps it sound if and only if no song outside the list hangs below one of them and no edit of them is running |
| LineagePublish.PublishedParentStrandsChild | songbirdapi/routers/library.py:147-156 | root, version, version of that: publishing the middle one breaks the lineage |
| LineageWalks.WalkCollectsPrefix | songbirdapi/routers/library.py:127-141 | a walk deletes an unbroken stretch from the bottom of the chain, never the stop, and each song deleted was in no library and had no child but the excluded one and the one deleted just before |
| LineageWalks.RestoreIsSafe | songbirdapi/routers/library.py:233-248 | the target stays, the library changes by exactly the two rows swapped, every surviving root pointer names a song, and no song deleted was in a library but for the row swapped out |
| LineageEffects.AdminDeletesIff | songbirdapi/routers/downloads.py:222-231 | a song is deleted, with its file, library entries and job rows, pointers at it becoming null and all else staying, if and only if no song was made from it |
| LineageEffects.UserGoes | songbirdapi/crud.py:193-196 | exactly the user's library entries and job rows go with the user |
| LineageEffects.RestoreTakes | songbirdapi/routers/library.py:215-248 | a restore is refused without effect, or swaps the one library entry and then deletes, with their files, exactly those songs from the song up to the target that nothing refers to, read off the rows before any of them goes |
| LineageEffects.RestoredFromGoesIff | songbirdapi/routers/library.py:233-248 | the song restored from is deleted if and only if it is not the target, no other user's library holds it and no song was made from it |
| LineageEffects.PublishLeaves | songbirdapi/routers/library.py:126-157 | every song but the collected ones is left; those listed have no owner, parent or root; every other one keeps its owner, and its pointers but for those at collected songs; libraries stay, and exactly the collected songs' files and job rows go |
| LineageEffects.WholeEdit | songbirdapi/routers/edit.py:95-207 | an edit with nothing in between: the version has a row under its source and root, belongs to its user, has its file and stands in the library for the source; the version before the source is gone, and the source hung under the root, if and only if it was no root, in no library and the parent of nothing else; the job shows done; no other song, entry or file changes |
| LineageEffects.FinaliseLeaves | songbirdapi/routers/edit.py:170-214 | the same at the end of any rendered edit, whatever happened since: nothing is saved without source or root, and without the user all but the listing is, minus the file |
| LineageEffects.RaiseLeaves | songbirdapi/routers/edit.py:183-214 | what a failure after each of the commits leaves: rows, library and deletions up to that commit, no file, the job failed |
| LineageEffects.FailureLeaves | songbirdapi/routers/edit.py:208-214 | a failure before the first commit leaves songs and libraries alone, no file it drew, and the job failed |
| LineageTheorems.StepKeepsInvIff | songbirdapi/routers/edit.py:95-214 | of all steps of all operations exactly the unsafe publish and the failure between deleting and re-hanging break what runs keep |
| LineageDamage.ForbiddenStepShows | songbirdapi/routers/library.py:147-156 | after either of them some song's pointers are wrong, its parent without a root or its climb ending elsewhere than at its root, at once or as soon as a running edit of a published version is saved |
| LineageTheorems.EveryRunKeepsLineage | songbirdapi/routers/edit.py:95-214 | in every state of every interleaving: parent null if and only if root null, every root pointer names an existing song that is a root, parents lead to it; a song has its file if and only if its edit did not raise after saving it; all other files are rendered and not saved yet; a task has a job row if and only if its source and its user exist |
| LineageTheorems.FailureRecordedIff | songbirdapi/crud.py:620-636 | over every run, a job shows as failed if and only if its task failed and both its source and its user still exist |
| LineageTheorems.CollectedSourceLeavesNothing | songbirdapi/routers/edit.py:208-214 | once the source of an unfinished edit is gone, however the run goes on: no song and no job row for it ever, and no file once its task has stopped |
| LineageTheorems.HalfCollapseStrandsSource | songbirdapi/routers/edit.py:198-202 | a third edit that fails right after deleting the oldest version leaves the one below it without a parent |
| LineageTheorems.UserGoneLosesFile | songbirdapi/routers/edit.py:204-214 | whenever the user was deleted while the audio rendered and the source is there, the new version keeps its row and loses its file, and no job row tells |
| LineageFamily.ForeignLeavesAlone | songbirdapi/routers/edit.py:95-214 | any step at songs outside a lineage leaves the lineage's rows alone, adds nothing to it and lists none of it |
| LineageEditCap.SaveNewest | songbirdapi/routers/edit.py:170-207 | saving an edit of the newest version appends it, and drops the oldest exactly when there were two, whatever happened elsewhere since the snapshot |
| LineageEditCap.TwoEditCap | songbirdapi/routers/edit.py:188-202 | over any run in which one user edits the newest version, renderings fail at will and anything happens at other songs: at most two versions besides the root, in a chain, and exactly two once two have been saved |
| PlayQueue.FindPosition | songbirdapi/crud.py:890-894 | the search finds the first place of the index, and none if and only if it is absent |
| PlayQueue.PopAndInsert | songbirdapi/crud.py:938-941 | the element taken out stands where the clamped target says once what was behind it has moved up |
| PlayQueue.PlayerRow.QueueInsert | songbirdapi/crud.py:832-869 | every field of the row after an insertion, as `InsertLands` and `CurrentFollows` are about |
| PlayQueue.PlayerRow.QueueRemove | songbirdapi/crud.py:872-918 | every field of the row after a removal, as `RemoveClears`, `CurrentFollows` and `CurrentRemoved` are about |
| PlayQueue.PlayerRow.QueueReorder | songbirdapi/crud.py:921-970 | every field of the row after a reorder, as `ReorderLands` and `CurrentFollows` are about |
| QueueTheorems.InsertRefines | songbirdapi/crud.py:848-856 | what plays gains the song at its end when shuffling, else at the clamped position, and the shuffle order stays a permutation of the indices |
| QueueTheorems.RemoveRefines | songbirdapi/crud.py:881-899 | what plays loses just that song, and the shuffle order stays a permutation |
| QueueTheorems.ReorderRefines | songbirdapi/crud.py:931-957 | what plays has one element moved, and shuffling leaves the queue untouched |
| QueueTheorems.RunRefines | songbirdapi/crud.py:832-970 | over every run of commands the row stays well formed and plays what the same commands make of a plain list |
| QueueTheorems.RunBounded | songbirdapi/crud.py:858-904 | in every state reached the index is from -1 to the queue's length and the shuffle position from 0 to the order's |
| QueueTheorems.CurrentFollows | songbirdapi/crud.py:858-965 | the index stays in range if and only if the command does not remove the one song left, and unless the current song itself is removed it still points at it |
| QueueTheorems.InRangeIff | songbirdapi/crud.py:832-970 | over a whole run the index is in range at every moment if and only if the last song is never removed |
| QueueTheorems.StaysCurrentIff | songbirdapi/crud.py:832-970 | over whole runs the current song is current at every moment if and only if it is never removed |
| QueueTheorems.CurrentSurvivesRun | songbirdapi/crud.py:832-970 | a run that never removes the current song ends with it current |
| QueueTheorems.ShuffleCurrentFollows | songbirdapi/crud.py:889-948 | when shuffling, inserting or removing another song keeps what is at the shuffle position, and a reorder puts the current song there |
| QueueTheorems.StaysShuffledIff | songbirdapi/crud.py:889-948 | over whole runs with shuffle on, the song that plays at the shuffle position and is recorded as current stays there if and only if it is never removed |
| QueueTheorems.EmptiedQueueOverruns | songbirdapi/crud.py:903-904 | removing the last song and inserting another leaves the index one past the queue |
| QueueTheorems.InsertRemoveRoundTrip | songbirdapi/crud.py:844-913 | inserting a new song and removing it restores queue, order, index and position, and the whole row if and only if the song was in neither the manual list nor the sources |
| QueueTheorems.ReorderRoundTrip | songbirdapi/crud.py:931-965 | after any reorder that is not refused, moving the song back restores queue, order and index |
| QueueEffects.CurrentRemoved | songbirdapi/crud.py:901-904 | when the current song is removed, the song right behind it becomes current, or, if it was last, the one before it |
| QueueEffects.ShuffledRemoved | songbirdapi/crud.py:889-899 | when the song at the shuffle position is removed the position stays, and what plays next stands there; if it played last the position is one past the order |
| QueueEffects.InsertLands | songbirdapi/crud.py:844-866 | a new song stands right before the one at the position asked for, or at an end; shuffled it plays last; its source is recorded, and nothing else of the row's lists changes |
| QueueEffects.RemoveClears | songbirdapi/crud.py:881-913 | a removed song leaves the queue, its source and its first place in the manual list; all others keep order and sources |
| QueueEffects.ReorderLands | songbirdapi/crud.py:928-957 | what plays: the song moved stands right before the one that was at the target, or at an end, and all others keep their order |
| QueueEffects.IndexOutside | songbirdapi/crud.py:858-965 | an index before the queue stays there, and one past its end stays as far past it, under every command |
| RenamePlan.FreeNumber | scripts/enrich_tags.py:258-266 | the unbounded search ends, at the least free number from two on, and no later than two more than there are names taken |
| RenamePlan.PlanUnique | scripts/enrich_tags.py:255-266 | the files to rename settle the whole plan: each goes to the first name free at its turn |
| RenamePlan.PlansAgreeIff | scripts/enrich_tags.py:296-305 | planning with old names freed and planning without agree if and only if no rename passes over a name that an earlier one gives up |
| RenamePass.Folder.ChooseTarget | scripts/enrich_tags.py:255-266 | a clean name is kept; another file gets its cleaned name if free, else the least free numbered one, never its own |
| RenamePass.Folder.DealWith | scripts/enrich_tags.py:247-299 | one file: titled if it has no title, then renamed to the name chosen; a refused tag leaves it alone, a raise ends the pass before anything is changed |
| RenamePass.Folder.Pass | scripts/enrich_tags.py:236-299 | a real pass reaches the first file for which the tag writer raises, or the end; every file that was there is then under exactly one name with its audio untouched, dealt with or left alone as its name and tags demand; the renames are exactly the determined plan; at the end the titles are counted, and the collisions too when every tag can be written |
| RenamePass.Folder.DryRun | scripts/enrich_tags.py:296-305 | nothing changes; the planned targets are pairwise distinct and unused; plan and counters are determined |
| RenamePass.HousedKeepsCount | scripts/enrich_tags.py:285-299 | no two files become one: there are as many names as before |
| RenamePass.DryRunForecastsIff | scripts/enrich_tags.py:285-305 | when every tag can be written the dry run announces what the real run does if and only if no file is numbered because of a name that an earlier rename gives up |
| RenamePass.DryRunCanMislead | scripts/enrich_tags.py:285-305 | two files for which the dry run announces another name than the real run chooses |
| RenameResults.PassMeans | scripts/enrich_tags.py:236-299 | file by file: one reached whose name cleans to something, and which has a title or can be given one, is under its cleaned name or a numbered one, with its audio, and with its title or else its cleaned stem; any other is as it was found |
| RenameResults.PlanMoves | scripts/enrich_tags.py:285-305 | the files renamed are exactly those of them whose name is not clean already, in the order found |
| RenameResults.TitlesCounted | scripts/enrich_tags.py:284-303 | the titles counted are the files without one that could be given one |
| RenameResults.SuffixesCounted | scripts/enrich_tags.py:258-266 | the collisions of a plan are its renames to another than the cleaned name |
| ErrorPage.GetErrors | songbirdapi/routers/admin.py:575-627 | the total and the counts by source, without empty sources, and the page that the next rows compare with the true one |
| ErrorPage.SortIsMerge | songbirdapi/routers/admin.py:621 | sorting two newest-first lists put end to end merges them, the first list's entries first at equal times |
| ErrorPage.FirstPageIsTopK | songbirdapi/routers/admin.py:583-627 | the first page is the newest entries of both sources together |
| ErrorPageLater.PageIsMerge | songbirdapi/routers/admin.py:583-627 | the page served merges what each source has left once the offset is dropped from both; the true one drops it from the merge |
| ErrorPageLater.LaterPageIff | songbirdapi/routers/admin.py:583-627 | a later page is the true one if and only if nothing is left to show or everything up to its end, in merged order, comes from one source |
| ErrorPageLater.SecondPageCanMiss | songbirdapi/routers/admin.py:583-627 | three entries for which the second page skips one |
| ImportJobs.EveryInterleaving | songbirdapi/routers/imports.py:57-162 | under any interleaving, songs being deleted, entries taken out and users removed meanwhile: at most five jobs in the guarded part; the songs are those inserted and not deleted; a finished job has row and file unless deleted, and its entry unless that was taken out or went; a duplicate has no file and names another song, there or deleted since; a missing title keeps its file; a failure has none, and its row if and only if that was committed and not deleted; a job can be looked up as long as its user is there |
| ImportJobs.FinalForever | songbirdapi/routers/imports.py:57-162 | however a run goes on after a job's final status, the status stays, file and row stay until the song is deleted, and each library entry until it is taken out or its user goes as well |
| ImportJobs.OthersLeaveAlone | songbirdapi/routers/imports.py:57-162 | any number of other jobs' events leave a job, its file and its row as they were, and its library entries but for users that go |
| ImportDesk.Desk.Acquire | songbirdapi/routers/imports.py:29-59 | a job enters if and only if a slot is free |
| ImportDesk.Desk.ReadTags | songbirdapi/routers/imports.py:61-88 | title from the tags, else from the file name, else failure, on the rows in place, as the state machine's step |
| ImportDesk.Desk.CheckDuplicate | songbirdapi/routers/imports.py:91-106 | some matching song is reported if there is one, and the file removed, as the state machine's step |
| ImportDesk.Desk.InsertRow | songbirdapi/routers/imports.py:108-141 | owner and source by eligibility and wish, as the state machine's step |
| ImportDesk.Desk.RunImport | songbirdapi/routers/imports.py:57-162 | one job by itself, something raising at any step or none, is a run of the state machine that ends in a final status, not by raising unless something raised or the user is gone, or waits if and only if no slot is free |
| ImportTitles.TagsDecide | songbirdapi/routers/imports.py:75-141 | over every run: a job whose tags are read fails on the title if and only if the title found is blank and its file's stem is empty; its song has the title found, or the stem for a blank one, and the artist found; it has no owner if and only if title, artist, album, genre and an artwork are there, else its uploader; it is the community's if and only if, besides, it was not uploaded as an original |
| ImportTitles.DuplicateIff | songbirdapi/routers/imports.py:91-106 | a check ends a job as a duplicate, without its file, if and only if title and artist are there and some song has both |
| ImportTitles.EntriesAreSound | songbirdapi/crud.py:193-196 | over every run each library entry is of a song that is there and a user who is |
| ImportTwins.TwinsIff | songbirdapi/routers/imports.py:92-141 | two songs carry one title and artist if and only if, of two jobs for that track whose songs were not deleted, one inserted between the other's check and the other's insertion |
| ImportTwins.DifferentTracksHaveNoTwins | songbirdapi/routers/imports.py:92-141 | jobs for pairwise different tracks import no twins, however they interleave |
| ImportTwins.OneAtATimeHasNoTwins | songbirdapi/routers/imports.py:92-141 | nor do jobs that enter the guarded part one at a time, whatever their tracks |
| ImportTwins.TwoAtOnceCanTwin | songbirdapi/routers/imports.py:92-141 | a run of two jobs that both import the same track |
| PlayLog.Log.RecordPlay | songbirdapi/crud.py:325-338 | a play is recorded if and only if none of that song and user is in the five minutes before the reading, and the look-up raises if and only if it finds two; if of any two plays the earlier had left that window, it finds at most one and that remains so |
| PlayLog.AtMostOneMatch | songbirdapi/crud.py:327-334 | if of any two plays of one song and user the earlier has left the window, the window holds at most one row of them |
| PlayLog.RunIsSpaced | songbirdapi/crud.py:325-338 | over any run, whatever the clocks: more than five minutes lie between a play's stamp and the reading of a later request recorded for the same song and user, and five minutes less that request's lag between the stamps |
| PlayLog.LagIsTight | songbirdapi/crud.py:326-336 | for every lag up to the window there is a run whose plays are no further apart than that |
| PlayLog.RunSpacedIff | songbirdapi/crud.py:326-336 | all plays of one song and user are more than five minutes apart if and only if no request comes when a play has left the window before its reading but not the one before its stamp |
| PlayLog.PlaysCanBeCloser | songbirdapi/crud.py:326-336 | two requests, one after the other with ten microseconds of lag each, whose plays are within five minutes |
| PlayLog.RequestLeavesRecent | songbirdapi/crud.py:327-337 | every request has found a play in its window or left its own |
| PlayLog.LookUpNeverFails | songbirdapi/crud.py:334 | after any run whose readings are not ahead of the next one, the look-up finds at most one row, so `scalar_one_or_none` cannot fail |

## Left out

- Everything inside ffmpeg and ffprobe: codecs, packet boundaries of a stream copy, its refusal of an empty window, encoder arguments; levelling is only a mark on what is heard, lost when anything is done after it.
- Floating-point rounding, and the rounding of numbers printed into filter expressions, except for the speed factors.
- The case in which ffprobe fails and reports a length of zero: the plans are modelled for any reported length, the theorems for the true one.
- EditShortcut.ShortcutIffFits: is about a piece that starts before the end of the file; a silent one is covered by `CleanedPlaysIff`.
- EditTheorems.EncodeTrimmed: is about edits with a trim end; the others are covered by `UntrimmedIff`.
- EditMeaning.EditPlaysItsMeaning: one direction, the other is in `CleanedPlaysIff`.
- EditTheorems.EncodeWithCuts: one direction, the other is in `CleanedPlaysIff`.
- EditCorrect.MergedFadesFit: one direction, the other is in `ShortcutIffFits`.
- FadeFilter.SingleRamp: fades that overlap multiply, which is covered by `VolumeFilterMeans` alone.
- The overwrite branch of an edit, edit drafts, properties, artwork and re-tagging.
- Interleaving inside one restore, publish or finalise: each is one step of a run, a finalise also with a failure after any of its commits. A refused removal of a file from disk is not modelled.
- The process dying with tasks in flight, and failures of the status update itself.
- LineageTheorems.EveryRunKeepsLineage: the run has no unsafe publish and no failure between deleting and re-hanging, since with either the statement is false (`StepKeepsInvIff`). A song arrives with its file in one step: uploads waiting to be imported, and those kept after a missing title, are files of `ImportJobs` and not of this statement.
- LineageEditCap.TwoEditCap: for one user who always edits the newest version of a lineage nobody else refers to; a save of it that raises halfway, and the deletion of the user, are not among the steps.
- Catalog.Store.PublishSongs: takes the songs the owner filter returned, the filter itself being a query; no second walk starts at a song of the list that an earlier walk has collected.
- Creating a missing player row, the fields that only travel along (repeat mode, play context, shuffle seed), and JSON nulls, which count as empty.
- PlayQueue.PlayerRow.QueueInsert: a source that is an empty object counts as not given.
- How a file name is cleaned and how a title is read and written: any cleaning and any outcome of writing is allowed, as parameters.
- RenamePass.Folder.Pass: a raise comes before anything is changed, a half-written file is not modelled, nor is a rename that the system refuses. With a tag that cannot be written the collision counter is only bounded from below, since the code counts a number it then does not use.
- File systems that ignore case, and other programs changing the folder meanwhile.
- ErrorPage.GetErrors: filters and the order of rows with equal times come with the two lists, as the database returns them; an entry's other fields (level, message, path, user) only travel along.
- The state machine of import jobs is on values, because its point is the interleaving; `ImportDesk` takes the same steps on rows in place. A file's stem comes trimmed. Trimming knows blanks, tabs and line ends; a failure to write the final status itself, songs that arrive by other routes, and entries that other users add, are not modelled.
- ImportTwins.OneAtATimeHasNoTwins: one direction, as is `DifferentTracksHaveNoTwins`; the exact condition is `TwinsIff`.
- Two requests recording the same play at once: plays are recorded by requests served one after the other.
- PlayLog.LookUpNeverFails: the readings of earlier requests are not ahead of the next one's; stamps may be anything.
- Playlists, range streaming, offline sync, settings, statistics, explore queries, sharing, authentication, migrations and the other scripts.
