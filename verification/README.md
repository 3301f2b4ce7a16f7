# Verification of the library tools

This project models eight parts of the music library's Python tools and proves what they promise. Each
module names the file it follows in its first lines.

- **Class probabilities** (`PairwiseCoupling`, `CouplingConvergence`, `SvmPrediction`): the libsvm
  pairwise-coupling solver and the one-against-one evaluation that feeds it, over exact reals. The solver keeps
  a strictly positive distribution, keeps its incremental products equal to the recomputed ones, lowers its
  objective by a known amount at every step, passes its own stopping test after a bounded number of sweeps, and
  is then within 0.01/k of the optimum.
- **Title similarity and release ranking** (`JaroWinkler`, `ReleaseRanking`, `ReleaseScores`): greedy windowed
  matching proved to find a maximum matching, and the tiered ranking with its scores, its orders and its in-place
  collapse by release group.
- **Boundary reviews** (`BoundaryReviews`): two commits to two files that are not atomic together, with a
  crash possible at any point.
- **Dangling links** (`CatalogueIntegrity`, `LinkDecisions`): finding rows that name nothing, and applying what
  was decided about them, each finding in its own savepoint; when a removal is held, and what a repair brings.
- **Moving a rip** (`FileMove`, `MoveEnds`, `FolderName`): an all-or-nothing move in which any operation may fail, and
  the choice of a folder name that holds every file.
- **Merging another machine's decisions** (`ThreeWayMerge`, `MergeOutcomes`, `MergeTwice`): the three-way merge,
  what becomes of each change and that a diverged value is kept, and what a second run of the same list does.
- **Disc contents and disc ids** (`DiscToc`, `DiscTracks`, `DiscIds`): the CUE reader and what it makes of a
  sheet's lines, rounding between frames, milliseconds and sectors, and the MusicBrainz and CDDB ids.
- **Passage boundaries** (`BoundaryDetect`, `BoundaryPoints`): run scanning over a loudness envelope, and the
  span, leads and fades made from it.

`RealArithmetic`, `Sums`, `Rounding`, `Sorting`, `OrderedIds`, `Decimal` and `Optional` are shared helpers.

Code that changes things step by step is a class or a method over arrays, proved equal to a function of its
inputs or old state; what the tools promise is then proved of those functions.

## Where the code does less than it says

The model follows the code. In these places a property that the code's own text states, or that a reader
would expect, is not true in general; each has a lemma giving the exact condition under which it holds, and
one at an input for which it does not.

- A rehearsal of boundary edits does not always report what a commit applies: it judges every edit against
  unmoved rows (`BoundaryReviews.RehearsalExactIff`; `BoundaryReviews.RehearsalReportsLess`). One span with its
  end before its start fails the whole run (`BoundaryReviews.AbortsIff`; `BoundaryReviews.ImproperSpanAborts`).
- The first release is not always an original of least year: `year(date) or 9999` reads the year 0 as none
  (`ReleaseRanking.OriginalFirst`; `ReleaseRanking.YearZeroLosesItsPlace`).
- "The rip is as the ripper left it" is printed even when a CUE sheet could not be restored or the folder not
  cleared (`FileMove.MessageTrueIff`; `FileMove.SpoiltSheetPutBack`).
- Counting distinct final names does not keep a copied cover off a moved file in one case
  (`FolderName.ApartIff`; `FolderName.CoverMeetsBareFile`).
- A change list sent again can write, though `resolve_boundary_passage` argues that it does not
  (tools/apply_changes.py:172-178): an id change anchored where a later boundary change puts its passage is not
  found the first time and lands the second. The exporter makes such lists, as it anchors an id change at the
  passage's present span and lists id changes first (tools/export_changes.py:121-140, 258-263). Of two changes,
  the list is idle when sent again exactly when the later does not wake the earlier, and a longer list is idle
  if no later change wakes an earlier one (`MergeTwice.PairSentTwiceIff`, `MergeTwice.ListSentTwice`;
  `MergeTwice.ExportedListWritesLater`).
- A refused change is not rolled back: what it wrote before the refusal stands
  (`ThreeWayMerge.RefusedWritesNothingIff`). A boundary change without a decision time has moved its passage, an
  id change without one has replaced the recording, and an artist change without a name has erased the artist
  (`ThreeWayMerge.UndatedMoves`, `ThreeWayMerge.UndatedReassigns`, `ThreeWayMerge.RefusedArtistErases`). Only a
  change file written by hand does so: the columns that these values are exported from are NOT NULL
  (tools/apply_changes.py:77-89).
- A track's pregap is measured whenever INDEX 01 is not timed before INDEX 00, though the comment in the code says
  only within one file (tools/cd_toc.py:281-285): a FILE line between the two is not asked about
  (`DiscTracks.SheetTracks`; `DiscTracks.PregapAcrossFiles`).
- Beyond 99 tracks the MusicBrainz text drops offsets (`DiscIds.TextTellsIff`; `DiscIds.HundredthTrackUnseen`);
  the CDDB length field is readable exactly within 16 bits (`DiscIds.CddbFields`; `DiscIds.LongDiscMisread`).
- A detected passage can cut into sound at a negative pad (`BoundaryDetect.StartKeepsSoundIff`,
  `BoundaryDetect.EndKeepsSoundIff`; `BoundaryDetect.NegativePadCuts`), and windows of no whole number of
  samples run past some region (`BoundaryDetect.WindowsFitIff`; `BoundaryDetect.DriftAtCdRate`).
- A release is removed if no file was taken from it when the run began; a file copied earlier in the same run
  is not looked at again (`CatalogueIntegrity.RemovedReleaseTakenIff`; `CatalogueIntegrity.RemovedReleaseTaken`).

## Model

| member | source | states |
|---|---|---|
| PairwiseCoupling.PositiveSemidefinite | tools/gaia_predict.py:174-178 | x'Qx is never negative, for every table and vector |
| PairwiseCoupling.FormIsSumOfSquares | tools/gaia_predict.py:174-178 | twice x'Qx is the sum over pairs of the squared difference of the shares two classes give each other |
| PairwiseCoupling.MovedPositive | tools/gaia_predict.py:187-188 | p[t] + diff stays positive |
| PairwiseCoupling.ScalePositive | tools/gaia_predict.py:187-192 | 1 + diff, the divisor of the update, is positive |
| PairwiseCoupling.CoordinateGradient | tools/gaia_predict.py:187-191 | the incremental update of every Qp[s] equals the product recomputed from the new p |
| PairwiseCoupling.CoordinateObjective | tools/gaia_predict.py:189 | the incremental update of p'Qp equals the form recomputed from the new p |
| PairwiseCoupling.CoordinateDescends | tools/gaia_predict.py:187-192 | a step lowers p'Qp by exactly (diff/(1+diff))^2 (p'Qp + Q[t][t]), by nothing only when diff is 0 |
| PairwiseCoupling.SweepDescends | tools/gaia_predict.py:184-192 | a sweep lowers p'Qp, strictly unless p is stationary, and then leaves p alone |
| PairwiseCoupling.SettledIsNearOptimal | tools/gaia_predict.py:182-183 | when the tolerance test passes, p'Qp is below q'Qq + 0.01/k for every q of the simplex |
| PairwiseCoupling.StationaryIffOptimal | tools/gaia_predict.py:179-192 | the points a sweep leaves alone are exactly the minimisers |
| PairwiseCoupling.SolveEnds | tools/gaia_predict.py:179-192 | a run ends settled or after all its sweeps, never above where it began |
| CouplingConvergence.OutsideStepFalls | tools/gaia_predict.py:185-192 | a coordinate at least half the tolerance away from p'Qp lowers the objective, when it is moved, by an amount that depends on the table alone |
| CouplingConvergence.UnsettledSweepFalls | tools/gaia_predict.py:182-192 | every sweep that starts with the test failing lowers the objective by that amount |
| CouplingConvergence.SettlesWithin | tools/gaia_predict.py:179-192 | allowed more sweeps than its first objective holds such amounts, a run stops by its own test, within 0.01/k of the optimum |
| CouplingConvergence.SettlesFromEverywhere | tools/gaia_predict.py:179-192 | for every table one number of sweeps is enough from every start |
| PairwiseCoupling.ZeroIffBalanced | tools/gaia_predict.py:174-181 | the objective is 0 exactly at a distribution that explains the table |
| PairwiseCoupling.BalancedUnique | tools/gaia_predict.py:174-181 | at most one distribution explains the table |
| PairwiseCoupling.SolvesConsistentTable | tools/gaia_predict.py:164-194 | for an explainable table a settled run has an objective below 0.01/k, and a run ending at 0 has found the explanation |
| PairwiseCoupling.BuildMatrix | tools/gaia_predict.py:173-178 | the array holds Q |
| PairwiseCoupling.ComputeProducts | tools/gaia_predict.py:180-181 | Qp and p'Qp computed afresh equal the sums they stand for |
| PairwiseCoupling.TestSettled | tools/gaia_predict.py:182-183 | the test passes exactly when every component is within 0.005/k of p'Qp |
| PairwiseCoupling.UpdateCoordinate | tools/gaia_predict.py:185-192 | the in-place update leaves p, Qp and p'Qp as recomputation would |
| PairwiseCoupling.SweepInPlace | tools/gaia_predict.py:184-192 | one pass over the coordinates in place is one recomputed sweep |
| PairwiseCoupling.Normalise | tools/gaia_predict.py:193-194 | the final division, which changes nothing when the total is 1; uniform when it is 0 |
| PairwiseCoupling.MulticlassProbability | tools/gaia_predict.py:164-194 | the solver in arrays computes what the recomputing solver computes |
| SvmPrediction.PairsNumbered | tools/gaia_predict.py:295-307 | positions and class pairs correspond one to one, k(k-1)/2 of them |
| SvmPrediction.PairSum | tools/gaia_predict.py:298-305 | the two block sums of a pair equal the sum of every support vector's vote |
| SvmPrediction.DecisionValues | tools/gaia_predict.py:282-308 | each pair's decision stands at its own position |
| SvmPrediction.DecisionBinary | tools/gaia_predict.py:278-280 | for two classes the short form equals the general one |
| SvmPrediction.SigmoidBranchesAgree | tools/gaia_predict.py:311-313 | the two branches are one function, strictly between 0 and 1 |
| SvmPrediction.PairwiseTable | tools/gaia_predict.py:323-331 | the counter meets each pair where its decision was put |
| SvmPrediction.TableEntry | tools/gaia_predict.py:328-330 | r[i][j] + r[j][i] = 1, each within [1e-7, 1 - 1e-7] |
| SvmPrediction.TableIsPairwise | tools/gaia_predict.py:323-331 | the table is what the solver needs: off-diagonal entries positive |
| SvmPrediction.ProbabilityBinary | tools/gaia_predict.py:335-340 | 1/(1+exp f) of the one decision's f and what is left of 1, a distribution |
| SvmPrediction.ProbabilityMany | tools/gaia_predict.py:315-333 | the coupling of a table in which each pair's entry is 1/(1+exp f) of its own decision's f = d*A + B, kept 1e-7 from 0 and 1, and the other way round what is left of 1; a distribution |
| SvmPrediction.ClampedFalls | tools/gaia_predict.py:311-330 | a larger f never has the larger table entry |
| SvmPrediction.Probability | tools/gaia_predict.py:315-340 | two classes by the sigmoid, more by the coupling of their table: a distribution for every kernel vector |
| SvmPrediction.SquaredDistance | tools/gaia_predict.py:261-271 | the sparse sum over named and unnamed indices equals the dense squared distance |
| SvmPrediction.SparseDot | tools/gaia_predict.py:275 | the sparse product equals the dense dot product |
| JaroWinkler.Exchange | tools/choose_release.py:77-82 | any matching that agrees with the greedy choices so far can be changed, losing no pair, to make the next one too |
| JaroWinkler.MatchGreedily | tools/choose_release.py:74-82 | the greedy marks are a maximum one-to-one pairing of equal characters at most reach apart, each taking the first that no earlier character took; each end marked once |
| JaroWinkler.MatchCountSymmetric | tools/choose_release.py:71-82 | swapping the strings leaves the number of matches the same |
| JaroWinkler.CountTranspositions | tools/choose_release.py:86-93 | the scan never runs off the marks, and counts the positions at which the matched characters differ |
| JaroWinkler.CommonPrefix | tools/choose_release.py:96-100 | the longest common prefix, at most four |
| JaroWinkler.ScoreBound | tools/choose_release.py:94-100 | the score lies in [0, 1] and is 1 only for equal strings |
| JaroWinkler.Similarity | tools/choose_release.py:59-100 | in [0, 1]; 1 exactly when the lower-cased non-empty strings are equal; otherwise, of the gap that the three shares of the matching leave to 1, each common leading character up to four takes a tenth |
| ReleaseRanking.NamedTier | tools/choose_release.py:187-192 | with a match of 0.85, the tier is exactly what is within 0.05 of the best, sorted by score, date and title |
| ReleaseRanking.OriginalTier | tools/choose_release.py:193-205 | otherwise, with some dated official undemoted album, the tier is those, earliest first |
| ReleaseRanking.WholeTier | tools/choose_release.py:206-209 | otherwise the tier is everything, sorted by score and date |
| ReleaseScores.ScoreIs | tools/choose_release.py:128-173 | a score is five times the name, three times the kind less what its secondary types take, once the status and half the age, rounded to thousandths; name and kind are rounded too |
| ReleaseScores.BetterNeverLower | tools/choose_release.py:147-173 | a release at least as good by name, kind, status and date is never scored lower |
| ReleaseScores.NamedTierIs | tools/choose_release.py:180-192 | with a name of 0.85 the tier is what is named within 0.05 as well as any, by falling score, then date with none last, then title |
| ReleaseScores.OriginalTierIs | tools/choose_release.py:193-205 | without, and with an official dated undemoted album, the tier is those by rising year, then title |
| ReleaseScores.WholeTierIs | tools/choose_release.py:206-209 | with neither, everything by falling score, then date with none last |
| ReleaseScores.RestIs | tools/choose_release.py:230-232 | what follows the tier is in that order too |
| ReleaseScores.TextLeIs | tools/choose_release.py:190-209 | texts compare by a beginning or by their first difference |
| Sorting.SortedStable | tools/choose_release.py:190-209 | the sort keeps the order of what counts as equal |
| ReleaseRanking.Collapse | tools/choose_release.py:215-230 | replacing in place yields, in the order their slots opened, each group's best member and every groupless one |
| ReleaseRanking.CollapseFacts | tools/choose_release.py:210-230 | the collapsed tier holds each group at most once, by its best member, and loses no group |
| ReleaseScores.RepresentedByEarliestOfficial | tools/choose_release.py:221-229 | a group is represented by an official edition if it has one, and by one of the earliest of its like |
| ReleaseRanking.ScoreAll | tools/choose_release.py:147-232 | the result is a permutation: the collapsed tier, then the rest by score and date |
| ReleaseRanking.NamedRecordFirst | tools/choose_release.py:187-230 | with a match of 0.85 the first result is a named one, the representative of the named one that every other follows by score, date and title |
| ReleaseRanking.OriginalFirst | tools/choose_release.py:193-230 | otherwise the first result is an original album, and of least year exactly unless a year 0 was displaced |
| ReleaseRanking.YearZeroLosesItsPlace | tools/choose_release.py:226-229 | of two rows of one album, dated 0000 and 1975, the later comes first |
| ReleaseRanking.PlainAlbum | tools/choose_release.py:128-134 | an album is undemoted exactly when no secondary type demotes it |
| BoundaryReviews.RunFacts | tools/apply_boundary_reviews.py:113-177 | exactly the stamped passages carry their reviews, value by value, all others are untouched, and (file, kind, start, end) stays unique |
| BoundaryReviews.StampedIff | tools/apply_boundary_reviews.py:124-177 | a review is stamped exactly when no other passage of its file and kind is on its span at its turn |
| BoundaryReviews.AbortsIff | tools/apply_boundary_reviews.py:135-145 | a run fails exactly when some pending span is improper |
| BoundaryReviews.ImproperSpanAborts | tools/apply_boundary_reviews.py:135-145 | one review with its end before its start, beside a good one, fails the run |
| BoundaryReviews.StepCache | tools/apply_boundary_reviews.py:147-164 | a step deletes exactly the cached extract no passage is on any more |
| BoundaryReviews.RunCache | tools/apply_boundary_reviews.py:127-164 | over a batch every cached extract keeps a passage, and survives exactly if it was occupied after every edit |
| BoundaryReviews.RehearsalExactIff | tools/apply_boundary_reviews.py:124-133 | a rehearsal equals the commit exactly when spans are proper and no edit interferes with an earlier accepted one |
| BoundaryReviews.RehearsalReportsLess | tools/apply_boundary_reviews.py:124-133 | two pending edits, the second to the span the first leaves: the rehearsal refuses it and the commit makes it |
| BoundaryReviews.CrashesAreHarmless | tools/apply_boundary_reviews.py:185-211 | after any crashes the catalogue is that of as many uninterrupted runs as reached the first commit, and no stamp is there too many |
| BoundaryReviews.CrashThenRerun | tools/apply_boundary_reviews.py:185-211 | a crash between the commits and a rerun end where two whole runs do |
| BoundaryReviews.StampedHaveLanded | tools/apply_boundary_reviews.py:185-211 | at no durable point is a review stamped whose every value has not landed, and a passage is as it was or as its review says |
| BoundaryReviews.FinishedRunStamps | tools/apply_boundary_reviews.py:185-211 | after any crashes, one whole run stamps every pending review whose span is free at its turn and no other, with its values in place |
| BoundaryReviews.StampsFirstLosesEdits | tools/apply_boundary_reviews.py:199-201 | stamped first, an edit would never land |
| BoundaryReviews.Installation.SelectPending | tools/apply_boundary_reviews.py:81-95 | the unstamped reviews with a passage, by passage id |
| BoundaryReviews.Installation.Rehearse | tools/apply_boundary_reviews.py:113-133 | counts and refusals of the rehearsed set, with nothing written |
| BoundaryReviews.Installation.Work | tools/apply_boundary_reviews.py:113-177 | the loop does what `Run` says, and collects what to stamp |
| BoundaryReviews.Installation.Stamp | tools/apply_boundary_reviews.py:206-211 | every collected review is stamped, the catalogue untouched |
| BoundaryReviews.Installation.Commit | tools/apply_boundary_reviews.py:185-211 | the durable state after a run cut at any point |
| CatalogueIntegrity.BrokenFound | tools/catalogue_integrity.py:71-108 | a finding holds exactly the rows of one owner that name nothing, and what they miss is not held |
| CatalogueIntegrity.TracklessFound | tools/catalogue_integrity.py:111-129 | an empty release is held, no tracklist row names it, and it is known whether a file does |
| LinkDecisions.AllFound | tools/catalogue_integrity.py:71-129 | every dangling row, and every release without a tracklist, is some finding's |
| LinkDecisions.FoundTogether | tools/catalogue_integrity.py:71-108 | a finding's rows are those of its table that dangle in its column and share the rest of their key; what they miss is its missing keys |
| CatalogueIntegrity.InsertAllFacts | tools/catalogue_integrity.py:361-370 | inserting changes no row held, and holds every key inserted |
| CatalogueIntegrity.AddRecordingsFacts | tools/catalogue_integrity.py:389-405 | recordings are added parents first, nothing added names a row not held, and the keys asked for are held |
| CatalogueIntegrity.RepairBroken | tools/catalogue_integrity.py:408-433 | a repair of missing rows only adds, and holds every key it was offered |
| CatalogueIntegrity.RepairTracklist | tools/catalogue_integrity.py:421-429 | a repaired release is named by its tracklist |
| LinkDecisions.RepairBrings | tools/catalogue_integrity.py:389-433 | a repair adds exactly the node's rows that the finding misses, and the artists, credits and flavor that come with recordings |
| CatalogueIntegrity.CopyFileFacts | tools/catalogue_integrity.py:476-496 | one file is copied under fresh ids, each row hanging on the copy of its own parent |
| CatalogueIntegrity.FilesGetNewIds | tools/catalogue_integrity.py:458-499 | a file comes in exactly when its audio is wanted and not held, with its tags, its release, all its passages and their checks and credits, under an injective renaming to ids no row had; held rows are untouched, wanted audio is held |
| LinkDecisions.CopiesExactly | tools/catalogue_integrity.py:458-499 | exactly the wanted files whose audio is not held come in, each with the node's values under its own place and date; none at all exactly when one of them has no place |
| CatalogueIntegrity.StepSound | tools/catalogue_integrity.py:526-550 | whatever is decided, a step keeps the run sound |
| CatalogueIntegrity.CorrectSound | tools/catalogue_integrity.py:502-553 | so does a run over any findings, with any failures |
| CatalogueIntegrity.NothingNewDangles | tools/catalogue_integrity.py:502-553 | rows that name nothing afterwards named nothing before |
| CatalogueIntegrity.OnlyWhatMayGo | tools/catalogue_integrity.py:373-386 | only dangling links, and fileless empty releases with their cover, are deleted; every other row stands unchanged |
| CatalogueIntegrity.StaysToTheEnd | tools/catalogue_integrity.py:516-550 | what a finding leaves, and no removal takes, is there unchanged at the end |
| CatalogueIntegrity.RemovedIsGone | tools/catalogue_integrity.py:373-386 | a finding removed is none of the catalogue's after the run |
| CatalogueIntegrity.RepairedIsGone | tools/catalogue_integrity.py:408-433 | nor is one repaired from a node that offered all it misses |
| LinkDecisions.RemovedIff | tools/catalogue_integrity.py:274-308 | a finding decided for removal is removed exactly when it is of a kind that may go, the database does not refuse it, and every node that sends what it misses was seen when it was decided; else its turn changes nothing |
| LinkDecisions.EachTurn | tools/catalogue_integrity.py:516-550 | every turn of a run: a removal takes its rows alone, a repair brings what it is to bring, and a finding undecided, left, held or refused changes nothing |
| LinkDecisions.LostByDecision | tools/catalogue_integrity.py:516-550 | a row of the start is missing at the end only if such a removal took it |
| CatalogueIntegrity.NamedIffBrought | tools/catalogue_integrity.py:516-550 | after a run a file row names a release exactly when one did before it, or some repair with files brought one |
| CatalogueIntegrity.RemovedReleaseTakenIff | tools/catalogue_integrity.py:516-550 | a removed release is gone, and is named by a file row all the same exactly when some repair of the run brought that row |
| CatalogueIntegrity.RemovedReleaseTaken | tools/catalogue_integrity.py:516-550 | a run of one repair with files and one removal that ends so |
| CatalogueIntegrity.Hub.Put | tools/catalogue_integrity.py:361-370 | a row is inserted exactly where its key is not held |
| CatalogueIntegrity.Hub.Delete | tools/catalogue_integrity.py:373-386 | the finding's rows are deleted and no others |
| CatalogueIntegrity.Hub.RepairFrom | tools/catalogue_integrity.py:408-433 | the repair in place is the repair specified |
| CatalogueIntegrity.Hub.PutFiles | tools/catalogue_integrity.py:458-499 | the files in place are those specified, unless one has no place to go |
| CatalogueIntegrity.Hub.Apply | tools/catalogue_integrity.py:526-550 | one finding inside its savepoint: a failure leaves what the savepoint had |
| CatalogueIntegrity.Hub.Correct | tools/catalogue_integrity.py:516-550 | every finding, one after the other |
| FileMove.Inbox.MoveAll | tools/cd_import.py:438-442 | the files moved up to the first failure lie under their new names with their bytes |
| FileMove.Inbox.CopyCovers | tools/cd_import.py:443-445 | the covers copied lie beside them |
| FileMove.Inbox.RewriteSheets | tools/cd_import.py:446-451 | every sheet touched was recorded as it was |
| FileMove.Inbox.RestoreSheets | tools/cd_import.py:452-458 | each recorded sheet is written back as far as that goes |
| FileMove.Inbox.PutBackAll | tools/cd_import.py:459-464 | what will not go back is listed, the rest is back |
| FileMove.Inbox.MoveIn | tools/cd_import.py:427-468 | each ending means what `Fate` says of the whole disk |
| MoveEnds.EndsAs | tools/cd_import.py:427-468 | a job is refused when its folder cannot be made, moves all exactly when no move, copy or rewriting fails, and is else put back, or stuck exactly when some file it had moved will not go back |
| MoveEnds.MovedMeans | tools/cd_import.py:427-468 | a job that goes well: each file gone from the source and under its new name, sheets with their new text, covers beside, nothing else changed |
| FileMove.NothingLost | tools/cd_import.py:427-468 | under any failures every file but a rewritten sheet keeps its bytes, in the source or the target |
| FileMove.InOnePlace | tools/cd_import.py:427-468 | if no move broke off part-way, each file is in exactly one of the two |
| FileMove.AllOrNothing | tools/cd_import.py:427-468 | a job that fails and whose undoing does not leaves the disk exactly as it was |
| FileMove.MessageTrueIff | tools/cd_import.py:452-468 | "as the ripper left it" is true exactly when no sheet is spoilt and the folder is cleared |
| FileMove.SpoiltSheetPutBack | tools/cd_import.py:452-468 | a job of one sheet whose rewriting breaks off and whose restoring is refused may be started, and however it goes ends with the message and with a changed disk |
| FileMove.LosslessIffApart | tools/cd_import.py:421-424 | a job that goes well keeps every file, whatever its bytes, exactly when the final names are apart |
| FolderName.CountTells | tools/cd_import.py:421-422 | the count of final names falls short exactly when two files get one name |
| FolderName.ApartIff | tools/cd_import.py:392-424 | with distinct final names the job's names are apart, except for a file without extension and a cover of the folder's name |
| FolderName.CoverMeetsBareFile | tools/cd_import.py:392-445 | that exception occurs: a rip whose search picks a cut name that its cover already has, beside a file without extension |
| FolderName.TagTells | tools/cd_import.py:410-411 | names with different numbers differ |
| FolderName.OwnFolder | tools/cd_import.py:404-424 | the search ends: with a free name that fits, every earlier one taken; or refused, for length or for a name given twice |
| FolderName.ChosenIs | tools/cd_import.py:392-424 | under the first tag that does not lead to a name taken, the longest name that Windows can open with every file in it, files of the disc's name taking the folder's; refused when there is none, or when two files would have one name |
| ThreeWayMerge.StepSound | tools/apply_changes.py:584-673 | uniqueness, references and cache coverage hold after any change, refused or not |
| ThreeWayMerge.RunSound | tools/apply_changes.py:584-673 | and after any list |
| ThreeWayMerge.MovedCovered | tools/apply_changes.py:370-381 | a cached extract goes exactly when the last passage with that audio leaves its span |
| ThreeWayMerge.MovedIsNoop | tools/apply_changes.py:169-186 | a landed boundary change is found at the passage it moved, and reads back as in sync |
| ThreeWayMerge.LandedIsNoop | tools/apply_changes.py:233-242 | a change applied, by fast-forward or as theirs, is in sync when read again |
| MergeOutcomes.WhatBecomes | tools/apply_changes.py:584-673 | a change that applies nowhere is missing; one whose value is held is in sync; else it goes ahead exactly when the value it was made over is held or it is ruled theirs, and otherwise is a conflict with nothing touched |
| MergeOutcomes.DivergedIsKept | tools/apply_changes.py:233-242 | with no ruling a change is written, refused or rehearsed only over the value it was made over, and a library with another value keeps it |
| MergeOutcomes.WrittenIff | tools/apply_changes.py:311-450 | a change that goes ahead is written exactly when it can be written whole, and then its values, its stamp and its subjects' flags are all that changed |
| ThreeWayMerge.Undisturbed | tools/apply_changes.py:584-673 | a change reads the same after one that writes nothing it reads, whatever became of that one |
| MergeTwice.StaysQuiet | tools/apply_changes.py:584-673 | a change with nothing to write still has nothing to write after one that does not wake it |
| MergeTwice.ListSentTwice | tools/apply_changes.py:584-673 | a list none of whose changes wakes an earlier one and none of which is refused writes nothing when it is sent again, whatever its changes were and whether the run writes or rehearses |
| MergeTwice.PairSentTwiceIff | tools/apply_changes.py:584-673 | of two changes, every library finds nothing to write when they are sent again exactly when the later does not wake the earlier |
| MergeTwice.NoneWakesIff | tools/apply_changes.py:584-673 | the hypothesis of `ListSentTwice` holds exactly when every two changes of the list, in their order, are idle when sent again |
| MergeTwice.ExportedListWritesLater | tools/export_changes.py:121-140 | an id change and then the boundary change that brings its passage to the id change's anchor: the first run misses the passage, the second gives it another recording |
| ThreeWayMerge.RefusedWritesNothingIff | tools/apply_changes.py:658-673 | a refused change leaves the library as it was exactly when it is refused before its first write |
| ThreeWayMerge.UndatedMoves | tools/apply_changes.py:345-419 | a boundary change without a decision time is refused, the passage moved and its cached extract dropped |
| ThreeWayMerge.UndatedReassigns | tools/apply_changes.py:311-342 | an id change without one is refused, the recording replaced |
| ThreeWayMerge.RefusedArtistErases | tools/apply_changes.py:422-434 | an artist change without a name is refused, and the recording is left without the artist it had |
| ThreeWayMerge.Database.ApplyIdReview | tools/apply_changes.py:311-342 | its statements in order, and whether it lands |
| ThreeWayMerge.Database.ApplyBoundaryReview | tools/apply_changes.py:345-419 | the same |
| ThreeWayMerge.Database.ApplyArtistReview | tools/apply_changes.py:422-450 | the same, with what a refusal leaves |
| ThreeWayMerge.Database.Merge | tools/apply_changes.py:584-673 | the whole list, and what became of each change |
| DiscToc.SheetAndLogAgree | tools/cd_toc.py:48-57 | a sheet's position and a log's of one sector are one millisecond |
| DiscToc.SectorRoundTrip | tools/cd_toc.py:437-438 | sector to milliseconds to sector is the identity |
| DiscToc.FrameRoundTrip | tools/cd_toc.py:48-57 | frames to milliseconds to sectors is the sector |
| DiscToc.SheetRead | tools/cd_toc.py:168-246 | one pass reads, for each TRACK line, the track that the lines up to the next describe |
| DiscToc.ScanReads | tools/cd_toc.py:168-245 | so after every prefix of the sheet, disc fields included |
| DiscToc.TilesIffInOrder | tools/cd_toc.py:270-293 | the finished tracks of a one-file sheet tile the disc exactly when its positions are in order |
| DiscToc.LengthsAndPregaps | tools/cd_toc.py:662-672 | then lengths and the pregaps between tracks add up to the total after the first start |
| DiscToc.SheetTiles | tools/cd_toc.py:141-297 | for a sheet under one FILE line: the tracks made of it start where its own lines say, tile the disc exactly when those positions are in order, and then add up to the total after the first start |
| DiscTracks.SheetTracks | tools/cd_toc.py:141-297 | each track of any sheet, in one file or several: number, code, file and names as its own lines give them, a made-up name dropped only with the disc's, and start, pregap and end; the next track of the same file ends it, the audio ends the last |
| DiscTracks.MadeUpIs | tools/cd_toc.py:266-270 | the title dropped for track n is "Track" and n, in two digits at least |
| DiscTracks.SheetDisc | tools/cd_toc.py:192-268 | the disc's names and barcode as the lines before the first track give them, without what stands for none; its first file; its leadout |
| DiscTracks.PregapAcrossFiles | tools/cd_toc.py:278-285 | a track with INDEX 00 at 0 s of one file and INDEX 01 at 2 s of the next has a pregap of 2 s |
| DiscToc.LogOffsets | tools/cd_toc.py:425-440 | a log's offsets are its own sectors past the lead-in |
| DiscTracks.LogTracksAre | tools/cd_toc.py:425-440 | a log's tracks are its rows, and tile the disc up to its leadout where the rows follow on one another |
| DiscToc.SheetAndLogOffsets | tools/cd_toc.py:677-684 | a sheet, read line by line and finished with the length that a log gives, and the log, whose tracks start in the sectors that the sheet's lines name, give the same offsets and leadout |
| DiscToc.CueReader.Take | tools/cd_toc.py:192-244 | one line, with the fields it changes |
| DiscToc.CueReader.Close | tools/cd_toc.py:181-190 | the open track closed and its fields cleared |
| DiscToc.CueReader.BoundTracks | tools/cd_toc.py:277-293 | the boundaries filled in place, track by track |
| DiscToc.CueReader.Parse | tools/cd_toc.py:141-297 | the whole sheet |
| DiscToc.Disc.FinalizeLeadout | tools/cd_toc.py:662-672 | the last end and the leadout, and nothing else |
| DiscIds.PaddedReads | tools/cd_toc.py:724-727 | a number that fits its width is written in exactly that width and can be read back |
| DiscIds.TextRoundTrip | tools/cd_toc.py:722-727 | the text begins with the first track, 01; leadout and offsets can be read back from it, up to 99 tracks and 32 bits, and the slots after the last are zero |
| DiscIds.TextInjective | tools/cd_toc.py:722-727 | so two discs have one text only if they are one |
| DiscIds.HundredthTrackUnseen | tools/cd_toc.py:726-727 | a hundredth offset leaves no trace |
| DiscIds.TextTellsIff | tools/cd_toc.py:710-727 | among discs of 32-bit sectors, of any count of tracks, no other has this disc's text exactly when it has no more than 99 tracks |
| DiscIds.Base64RoundTrip | tools/cd_toc.py:728 | the bytes can be read back from the letters |
| DiscIds.RemapRoundTrip | tools/cd_toc.py:728-729 | the three letters a URL does not take are the three replaced, each by its own, and the bytes can still be read |
| DiscIds.LetterIs | tools/cd_toc.py:728 | the alphabet is that of section 4 of RFC 4648 |
| DiscIds.IdReads | tools/cd_toc.py:710-729 | an id has no letter a URL does not take, and the digest of the disc's text can be read back from it |
| DiscIds.SharedIdMeans | tools/cd_toc.py:710-729 | two discs share an id only if they are one, or the digest collides on two different texts |
| DiscIds.SumDigits | tools/cd_toc.py:697-702 | the loop computes the digit sum |
| DiscIds.DigitSumIs | tools/cd_toc.py:697-702 | the digit sum is that of the digits the number is written with in decimal |
| DiscIds.SumSeconds | tools/cd_toc.py:704 | the digit sums of the starting seconds, added |
| DiscIds.OrInParts | tools/cd_toc.py:706 | a bitwise or splits at any bit |
| DiscIds.CddbFields | tools/cd_toc.py:704-707 | the count can always be read off, the length exactly when it has 16 bits, and then the digit sums too |
| DiscIds.LongDiscMisread | tools/cd_toc.py:704-707 | a disc of 65536 seconds reads as one of none, its digit sums 3 for 2 |
| DiscIds.CddbIdReads | tools/cd_toc.py:687-707 | eight digits, and what they stand for |
| DiscIds.CddbId | tools/cd_toc.py:687-707 | the id printed is that of the three fields |
| BoundaryDetect.FirstRun | tools/analyze_amplitude.py:154-160 | the start of the earliest run of k windows, or -1 exactly when there is none |
| BoundaryDetect.LastRun | tools/analyze_amplitude.py:163-169 | the end of the latest run of k windows, or -1 exactly when there is none |
| BoundaryDetect.LastRunIsLast | tools/analyze_amplitude.py:154-169 | the latest run is the earliest of the reversed envelope |
| BoundaryDetect.LeadInBeforeContent | tools/analyze_amplitude.py:172-187 | a lead-in ends no later than full content begins |
| BoundaryDetect.LeadOutAfterContent | tools/analyze_amplitude.py:190-208 | a lead-out begins no earlier than full content ends |
| BoundaryDetect.LastAtMirrors | tools/analyze_amplitude.py:190-194 | a lead-out counts one window more than the reversed audio's lead-in |
| BoundaryDetect.Detect | tools/analyze_amplitude.py:225-273 | every point at once, as specified |
| BoundaryPoints.PointsFound | tools/analyze_amplitude.py:225-273 | start and end at the first and last run of sound with their pads, within the region; leads and fades of that span, each fade its own length or the lead's where that is longer and fades go by leads |
| BoundaryPoints.LeadInFound | tools/analyze_amplitude.py:172-187 | a lead-in reaches to the first window at the lead level, up to its longest; none where the content level is nowhere, or comes soon, which is then called a quick ramp |
| BoundaryPoints.LeadOutFound | tools/analyze_amplitude.py:190-208 | the same from the end, where a window counts from its own start |
| BoundaryDetect.SpanInRegion | tools/analyze_amplitude.py:245-273 | lo <= start < end <= hi and leads and fades fit, for pads of any sign |
| BoundaryDetect.NothingNegative | tools/analyze_amplitude.py:261-273 | no lead or fade is negative where no parameter is |
| BoundaryDetect.StartKeepsSoundIff | tools/analyze_amplitude.py:247-252 | no run begins before the start, exactly when there is none, the pad is not negative, or the start is not taken from the envelope |
| BoundaryDetect.EndKeepsSoundIff | tools/analyze_amplitude.py:253-258 | no run ends after the end, exactly when there is none, or the last fits the region and the pad is not negative or the end is not taken from the envelope |
| BoundaryDetect.NegativePadCuts | tools/analyze_amplitude.py:247-258 | a pad of -50 ms on a second of loud audio cuts 50 ms of it off at either end |
| BoundaryDetect.WindowsFit | tools/analyze_amplitude.py:235-240 | windows of a whole number of samples fit their region |
| BoundaryDetect.WindowsFitIff | tools/analyze_amplitude.py:115-121 | above 1000 samples a second, windows fit every region of any audio exactly when they are whole numbers of samples |
| BoundaryDetect.WindowsDrift | tools/analyze_amplitude.py:115-121 | for any that are not: a region, `rate` windows long by the samples, that they run past |
| BoundaryDetect.DriftAtCdRate | tools/analyze_amplitude.py:115-121 | so at 44100 samples a second and 33 ms |

## Left out

- Floating-point error, the exponential, decibels, the digest and the reference level of an envelope: exact
  reals, or parameters of which only what is needed is used.
- SQLite itself, schema migration, timestamps, reports, argument parsing, and the counts that the tools print.
- HTTP, ssh, MusicBrainz and AcoustID, covers, ffmpeg, Essentia, and the console.
- Parsing of model files and recognising of CUE and log lines: the models start from parsed values and lines.
- Lower-casing of a title is a parameter, and so is `name_match`; NULL and empty text are one in a release row.
- SvmPrediction.Probability: the labels' order is left out.
- Ids of findings by hash, the words describing them, and why a decision is held: a finding is its own key.
- The order of findings, of a node's files and of moved files is any order; the source sorts them.
- A node's answer lists no file, no audio, no passage and no audio's release twice, as its own keys ensure; an
  insert is skipped exactly when its primary key is held.
- CouplingConvergence.SettlesWithin: its number of sweeps is far above the hundred the source allows, so whether a
  hundred are enough for a given table is left open; a run that used them all is `PairwiseCoupling.SolveEnds`.
- BoundaryDetect.WindowsFitIff: only above 1000 samples a second; the source works at 44100.
- CatalogueIntegrity.OnlyWhatMayGo: whether a file is taken from a release is as the run found it at its start.
- Comparison of file names is exact: two names that a filesystem takes for one are not modelled.
- A file operation fails by doing nothing or by leaving other bytes at its destination; files changed by others
  meanwhile are not modelled.
- Cutting a name at a word (`shorten`), the disc suffix, and the length of the inbox path are parameters.
- ThreeWayMerge: a review stamp is only that it is there; NULL in a target's fade and a NULL artist id are left
  out of the tables; which of several matching rows a query returns first is a parameter, so ties by name are not
  modelled. A key missing from a change file stops the whole run with nothing committed, and is not modelled.
- MergeTwice.ListSentTwice: both runs have the same resolutions, and for three changes or more its condition is
  asked of every two of them; that a third change may undo what a later one woke is not used.
- `--emit-sql`, the rest of `parse_eac_log`, `parse_cdrdao_toc`, document checkers, backfills and exports: easy
  members only.
