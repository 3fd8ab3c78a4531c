# Kanji stroke-order practice: a verified model

This project models the stroke-validation core of an Anki add-on. The add-on lets a
learner draw a kanji stroke by stroke on a canvas. Each stroke's points are scaled into
KanjiVG's 109×109 coordinate grid and checked there against the canonical KanjiVG
strokes. The add-on also records per-character statistics. It also
models the two small dataset tools that ship with the add-on: the training-data
preparation (`data_prep.py`) and the dataset viewer's grid layout and summary
(`view_dataset.py`).

Modules, roughly in the order the add-on runs them:

- `Wrappers`, `Geometry`, `Sorting`: option/result types, a few real-arithmetic facts,
  and a generic insertion sort by a total preorder (used for Python's `sorted` and for
  the stroke-number sort). `Sorting` also defines the code-point order on strings.
- `PathEndpoints`: the endpoint walk over an SVG path's commands (section 8.3 of the
  SVG 1.1 specification, path data). It tracks a cursor starting at (0, 0). The first
  usable `M`/`m` is the start; the final cursor is the end.
- `StrokeExtraction`: `extract_stroke_paths_from_svg` after the XML step. Empty `d`
  attributes are skipped. The stroke-number labels are paired with the paths when
  there are exactly as many labels as paths; otherwise strokes are numbered 1..N.
- `Corridor`: `isStrokeCloseEnough`, the shape test on the rasterized corridor.
- `Direction`: `isDirectionCorrect`, the normalized dot-product test.
- `StrokeOrder`: the two completion policies of `endDraw`. The strict policy keeps a
  counter; the unordered policy keeps a set of completed indices.
- `KanjiStats`: the per-character statistics record and its roll-up on completion.
- `Visibility`: the due-mode `showStroke`/`showNumber` predicates of `drawBase`, and
  the gate of the animated guide stroke.
- `PracticeSession`: the canvas session as a class whose fields are the script's
  variables. Each handler is a method proved to produce the state a pure function of
  the old state describes. The lemmas about those functions state the session's
  invariant, how progress is kept per character, and what counts as an error.
- `DataPrep`: `prepare_training_data` and `get_dataset_stats`.
- `ViewDataset`: `create_character_grid` (layout arithmetic and the paste loop) and
  the ordering of `display_dataset_summary`.

Inputs the JavaScript gets from the browser are parameters of the model:

- The rendered corridor is a 109×109 `seq<seq<bool>>` of "alpha > 0" pixels.
- `Math.hypot` results are real inputs tied to their squares by a precondition:
  segment lengths of the freehand trace, and the canonical diagonal.
- The direction test is stated on squared lengths. `AgreesWithNormalizedDot` proves
  this equals the source's division form for the true lengths.
- `Date.now()` is a `now` parameter.

Coordinates are `real`. `Math.round` is modelled as floor(v + 0.5), JavaScript's rule
of rounding halves upward.

Behaviours of the code the model reproduces as written:

- Sampling: the stride is max(1, ⌊n/40⌋) (`__init__.py:939`), so traces of up to 79
  points are sampled at every point. `SampledPointCount` shows 40–60 samples from 80
  points on.
- Unordered direction errors: every candidate that passes the shape test but fails
  the direction test adds a direction error, and the scan goes on.
- Strict direction errors: a shape-pass/direction-fail in strict mode adds a direction
  error too.
- Every unmatched stroke adds a stroke error, including after a direction-only failure.
- Counters are shared and never cleared: the counters are session-wide rather than
  per character, and they are not cleared after a completion. The reset in
  `loadCurrentKanji` (`__init__.py:693`) is guarded by a condition that is always
  false at that point (`LoadNeverResetsCounters`).
- Session time: `sessionStartTime` is only assigned in that dead branch, so the
  recorded session time is `now - 0` (`sessionStart` stays `None`).
- Strict mode after completion: once every stroke is complete, `strokePaths[count]`
  is missing, and every further stroke counts a stroke error
  (`StrictStrokeAfterCompletion`).
- A character with zero samples makes `create_character_grid` divide by zero. It is
  modelled as the `ZeroDivision` error.

`DataPrep` takes a dataset as a sequence of entries with pairwise different
characters (`DistinctKeys`), which is what a JSON object gives. A sample's decoded
and preprocessed image is `Sample.prepared`, absent when decoding fails. Its decoded
picture for the viewer is `Sample.picture`.

## Model

| member | source | states |
|---|---|---|
| PathEndpoints.Advance | __init__.py:151-212 | A command with fewer parameters than its letter needs (2 for M/L/T, 4 for S/Q, 6 for C), or a letter with no endpoint (H, V, A, Z), leaves the cursor unchanged. Otherwise a moveto uses its first pair and every other command its last pair: taken as is by the upper-case letter, added to the cursor by the lower-case one. |
| PathEndpoints.ExtractEndpoints | __init__.py:148-219 | The loop over the commands returns exactly the endpoints the specification functions define: the first moveto's cursor and the final cursor, or none without a moveto. |
| PathEndpoints.NoMoveToNoStart | __init__.py:166-167 | No start is recorded exactly when no command is a usable moveto. |
| PathEndpoints.StartIsFirstMoveTo | __init__.py:159-167 | The start is the cursor right after the first usable moveto. |
| PathEndpoints.LaterCommandsKeepStart | __init__.py:166-167 | Once a start is recorded, later commands, movetos included, never change it. |
| PathEndpoints.InertCommandKeepsCursor | __init__.py:155-212 | A command without enough parameters, or with a letter that has no endpoint, does not move the final cursor. |
| PathEndpoints.AbsoluteCommandForgetsHistory | __init__.py:159-212 | After an upper-case command with enough parameters, the cursor does not depend on the commands before it. |
| PathEndpoints.RelativeCommandAddsPair | __init__.py:159-212 | A lower-case command with enough parameters adds its pair (the first for `m`, the last otherwise) to the previous cursor. |
| StrokeExtraction.Drawn | __init__.py:138-142 | No more paths are kept than given, and none of the kept ones has an empty `d`. |
| StrokeExtraction.SortedLabels | __init__.py:245 | The sorted labels are a permutation of the labels, in non-decreasing stroke number. |
| StrokeExtraction.StrokeData | __init__.py:243-271 | There is one stroke record per non-empty path. |
| StrokeExtraction.CollectDrawn | __init__.py:136-219 | The first loop yields, for each non-empty path in order, its `d` string and its endpoints. |
| StrokeExtraction.BuildRecords | __init__.py:243-271 | The second loop builds the k-th record from the k-th path, endpoints and (when paired) sorted label. |
| StrokeExtraction.ExtractStrokePaths | __init__.py:136-273 | The two loops together produce exactly the stroke records the pairing rule defines. |
| StrokeExtraction.UnpairedStrokesNumberedInOrder | __init__.py:259-271 | Without a full set of labels, the records are numbered 1..N in path order and have no label position. |
| StrokeExtraction.PairedStrokesAscend | __init__.py:244-258 | With a full set of labels, every record has a label position and the numbers ascend along the strokes. |
| StrokeExtraction.PairedIndicesAreSortedNumbers | __init__.py:245-250 | With a full set of labels, the i-th record's number is the i-th smallest label number. |
| StrokeExtraction.PairedStrokesPermuteLabels | __init__.py:244-250 | With a full set of labels, the record numbers are a permutation of the label numbers. |
| StrokeExtraction.StrokeEndpointsFromPath | __init__.py:214-219 | Each record carries its path's `d`. Its start is missing exactly when the path has no moveto. When present, all four coordinates are present and the end is the path's final cursor. |
| Sorting.SortBy | view_dataset.py:51 | Sorting returns a permutation of its input, ordered by the given total preorder. |
| Sorting.StrLeIsTotalPreorder | data_prep.py:89 | Python's string order (code-point lexicographic) is a total preorder, so sorting by it is defined. |
| Corridor.CanonicalBounds | __init__.py:891-905 | The pixel scan over the mask computes the bounding box the specification function defines. |
| Corridor.ScanRowsDescribes | __init__.py:894-905 | After scanning k rows, the box bounds exactly the opaque pixels of those rows, each edge attained. |
| Corridor.OpaqueBoundsAreTight | __init__.py:891-908 | The box is empty iff no pixel is opaque. It contains every opaque pixel, lies inside the grid, and each of its four edges is attained by an opaque pixel. |
| Corridor.MinX | __init__.py:916-929 | The running minimum x bounds every point from below. MaxX, MinY and MaxY, defined alike, are declared beside it. |
| Corridor.TraceBoxAttained | __init__.py:925-928 | The freehand box's four edges are each attained by a point of the trace. |
| Corridor.MeasureTrace | __init__.py:915-929 | The loop over the points computes the trace's total length and bounding box. |
| Corridor.ExtentWithinLength | __init__.py:915-935 | The freehand width and height never exceed the traversed length. |
| Corridor.Stride | __init__.py:940 | The sampling stride is at least 1. |
| Corridor.Round | __init__.py:944-945 | Rounding lands within half a unit, halves rounding upward. |
| Corridor.SampleCorridor | __init__.py:938-955 | The sampling loop counts the on-grid samples and the hits exactly as the specification function does. |
| Corridor.TallyWithinSamples | __init__.py:942-955 | Hits never exceed on-grid samples, which never exceed the points sampled. |
| Corridor.SampleCountIsCeiling | __init__.py:942 | The number of sampled indices is the ceiling of the remaining points over the stride. |
| Corridor.SampledPointCount | __init__.py:940-942 | Under 80 points every point is sampled; from 80 points on, between 40 and 60 are. |
| Corridor.SizeFactor | __init__.py:965-972 | The interpolation factor lies in [0, 1]. |
| Corridor.SizeFactorIsClampedRamp | __init__.py:965-972 | The three-way branch equals the ramp (diag − 20)/60 clamped to [0, 1]. |
| Corridor.ThresholdsFor | __init__.py:974-988 | The thresholds lie between their small and large values. They are exactly 0.50/0.50/5 at diagonal ≤ 20 and 0.85/0.80/10 at diagonal ≥ 80. |
| Corridor.ThresholdsTightenWithSize | __init__.py:965-988 | A larger canonical diagonal never loosens any threshold. |
| Corridor.MidSizeThresholds | __init__.py:971-988 | At diagonal 50 the factor is 0.5 and the thresholds are 0.675/0.65/7.5. |
| Corridor.IsStrokeCloseEnough | __init__.py:870-1001 | The method returns the shape verdict: the four conditions together, with the extent measured on the canonical stroke's longer axis. |
| Corridor.ShapeRejections | __init__.py:871-958 | Fewer than 5 points, an empty corridor, or no on-grid sample are each rejected. |
| Corridor.AcceptedTraceCoversCorridor | __init__.py:990-1000 | An accepted trace has at least 5 points and a non-empty corridor. It is at least 5 units long and at least half the canonical diagonal. At least a `HIT_RATIO` share of its on-grid samples hit the corridor. |
| Corridor.DiagonalIsPositive | __init__.py:910-912 | A non-empty corridor has a positive diagonal. |
| Corridor.LengthAndRatioBounds | __init__.py:990-1000 | Meeting the thresholds means length ≥ 5, length ≥ half the diagonal, and ratio ≥ `HIT_RATIO`. |
| Direction.AgreesWithNormalizedDot | __init__.py:1003-1064 | For the true Euclidean lengths, the squared-length test equals the source's test in every case: the early returns and dot/(‖u‖‖c‖) ≥ 0.3. |
| Direction.UnjudgedStrokesPass | __init__.py:1005-1025 | Validation off, a missing record, fewer than 2 points or a missing canonical endpoint all pass. |
| Direction.ShortDisplacementsPass | __init__.py:1037-1053 | A freehand displacement under 5, or a canonical one under 1, passes. |
| Direction.ReversedStrokeFails | __init__.py:1055-1063 | A judged stroke drawn along any positive multiple of the reversed canonical vector fails. |
| Direction.AlignedStrokePasses | __init__.py:1055-1056 | A stroke drawn along any positive multiple of the canonical vector passes. |
| StrokeOrder.Initial | __init__.py:564 | The strict policy starts with a counter, the unordered one with a set. |
| StrokeOrder.Mark | __init__.py:1195-1199 | Marking keeps the policy and every completed stroke. It completes the matched stroke: every match in unordered mode, and the expected stroke in strict mode. |
| StrokeOrder.MarkKeepsInRange | __init__.py:1195-1199 | The counter stays ≤ N, and the set stays within 0..N−1. |
| StrokeOrder.NextExpected | __init__.py:1202-1210 | The expected index is the lowest incomplete stroke, or N when all are complete. |
| StrokeOrder.FirstIncompleteFrom | __init__.py:1202-1210 | From i onward, the result is the first incomplete index, or N. |
| StrokeOrder.LowestIncomplete | __init__.py:1202-1210 | The `currentStrokeIndex` loop computes the lowest incomplete index. |
| StrokeOrder.StrictNextIsCounter | __init__.py:1204-1205 | In strict mode the expected index is min(counter, N). |
| StrokeOrder.AllCompleteMeansEveryStroke | __init__.py:1216-1218 | Counter or set size ≥ N holds iff every stroke 0..N−1 is complete. |
| StrokeOrder.CompleteMeansNothingExpected | __init__.py:1202-1218 | Once all is complete, the expected index is N. |
| StrokeOrder.Verdicts | __init__.py:1158-1159 | One shape/direction verdict per canonical stroke, at its index. |
| StrokeOrder.StrictCheck | __init__.py:1153-1166 | Strict mode can only match the stroke at the counter, and counts at most one direction error. |
| StrokeOrder.ScanFrom | __init__.py:1171-1190 | The unordered scan only matches an incomplete candidate at or after its start. |
| StrokeOrder.ScanTakesLowestPassing | __init__.py:1171-1185 | The scan matches k iff k is incomplete and passes both tests, and no lower incomplete candidate does. |
| StrokeOrder.ScanFailsOnlyIfNothingPasses | __init__.py:1171-1190 | The scan matches nothing iff no incomplete candidate passes both tests. |
| StrokeOrder.Reached | __init__.py:1171-1190 | The candidates the scan visits are incomplete ones at or after its start. |
| StrokeOrder.ScanDirectionErrors | __init__.py:1186-1189 | The scan's direction errors are the number of visited candidates that pass the shape test and fail the direction test. |
| StrokeOrder.NoDirectionErrorsWhenAllPass | __init__.py:1153-1190 | If every direction test passes, neither policy counts a direction error. |
| StrokeOrder.NoDirectionErrorsWhenOff | __init__.py:1005-1008 | With direction validation off, no direction error is ever counted. |
| StrokeOrder.ScanUnordered | __init__.py:1167-1190 | The unordered loop, breaking at the first match, computes the scan's outcome. |
| StrokeOrder.CheckStrict | __init__.py:1153-1166 | The strict branch computes the strict outcome. |
| StrokeOrder.CheckKeepsInRange | __init__.py:1153-1199 | A match is an in-range, not yet complete stroke, and marking it keeps the state in range. |
| StrokeOrder.MarkAll | __init__.py:1195-1199 | Marking a sequence of matches keeps the policy. |
| StrokeOrder.MarkAllDone | __init__.py:1198 | Marking from the empty set gives exactly the set of matched indices. |
| StrokeOrder.DistinctMatchesComplete | __init__.py:1193-1218 | Distinct unordered matches in range keep the set in range, and complete the character iff there are at least N of them. |
| StrokeOrder.StrictMatchesCount | __init__.py:1196 | Strict matches advance the counter to min(count + matches, N). |
| KanjiStats.LoadStats | __init__.py:594-607 | A cached record is returned as is; otherwise the all-zero record with no last attempt. |
| KanjiStats.RecordCompletion | __init__.py:1224-1239 | A completion adds one attempt and sets the last attempt to now. The streak grows by one iff the attempt had no stroke and no direction error; otherwise it resets to 0. |
| KanjiStats.CompleteKanji | __init__.py:1222-1241 | Saving puts the character in the cache and leaves every other character's record alone. |
| KanjiStats.ResetStats | __init__.py:1305-1321 | Resetting removes the character's record and keeps every other one. |
| KanjiStats.ResetThenLoadIsFresh | __init__.py:1305-1321 | After a reset, loading the character's stats gives the fresh record. |
| KanjiStats.ReplayTotals | __init__.py:1224-1239 | After any sequence of completions, the attempts, errors, direction errors, redraws and time totals are the sums over the attempts. The streak is the count of trailing clean attempts, added to the old streak when every attempt was clean. The last attempt is the last completion's time. |
| KanjiStats.TrailingClean | __init__.py:1234-1239 | The trailing clean run is maximal: its attempts are clean and the one before it is not. |
| KanjiStats.StreakMeansLastClean | __init__.py:1234-1239 | A positive streak starting from fresh stats means the last attempt was clean. |
| Visibility.VisibleStrokes | __init__.py:764-775 | Only positions passing `showStroke` are drawn, in ascending order. |
| Visibility.VisibleStrokesComplete | __init__.py:765-767 | Every position passing `showStroke` is drawn. |
| Visibility.VisibleNumbers | __init__.py:778-790 | Only positions with a label position that pass `showNumber` get a number, in ascending order. |
| Visibility.DrawBase | __init__.py:764-790 | The two drawing loops produce exactly those positions. |
| Visibility.CompletedStrokesShown | __init__.py:729-760 | A completed stroke is always shown. Outside procedural mode its number is shown too. |
| Visibility.NumberOnlyWithStroke | __init__.py:719-790 | A number is only drawn for a stroke that is shown. |
| Visibility.HintOnlyReveals | __init__.py:729-748 | Turning the hint on never hides a stroke, a number or the guide animation. |
| Visibility.ProceduralMode | __init__.py:753-760 | Procedural mode shows exactly the completed and current strokes, and never a number. |
| Visibility.FullHelpShowsAll | __init__.py:720-752 | Learning cards and full-help mode show every stroke and number. |
| Visibility.MinimalHelpAtStart | __init__.py:724-738 | In minimal help with nothing completed, exactly the first stroke is shown, plus the current one under the hint. |
| Visibility.MinimalHelpAnimation | __init__.py:800-807 | In minimal help, the guide animates exactly for the first stroke of an untouched character, or under the hint. |
| PracticeSession.StrokesOf | __init__.py:653-655 | The strokes loaded are the character's, or none past the end of the list. |
| PracticeSession.PracticeSession.constructor | __init__.py:562-706 | Opening the canvas loads the first character into a state satisfying the invariant. |
| PracticeSession.PracticeSession.SaveCurrentKanjiState | __init__.py:641-650 | The current progress is stored under the current index when the character has strokes. |
| PracticeSession.PracticeSession.LoadCurrentKanji | __init__.py:652-704 | The strokes are loaded. The stored progress is restored, or a fresh one is started and stored. The counters' guard follows. |
| PracticeSession.PracticeSession.ClearCanvas | __init__.py:1276-1296 | The clear handler keeps the invariant and produces the cleared state. |
| PracticeSession.PracticeSession.PrevKanji | __init__.py:1323-1329 | The previous button saves, steps back and loads, and does nothing at the first character. |
| PracticeSession.PracticeSession.NextKanji | __init__.py:1331-1337 | The next button saves, steps forward and loads, and does nothing at the last character. |
| PracticeSession.PracticeSession.RestartAll | __init__.py:1339-1344 | The restart handler drops all progress and loads the first character. |
| PracticeSession.PracticeSession.ShowHint | __init__.py:1298-1299 | The hint button sets the hint and changes nothing else. |
| PracticeSession.PracticeSession.HintExpired | __init__.py:1300-1302 | The timer clears the hint and changes nothing else. |
| PracticeSession.PracticeSession.RecordKanjiStats | __init__.py:1220-1243 | On completion, the current character's stats are rolled up with the session counters. |
| PracticeSession.PracticeSession.MarkMatched | __init__.py:1193-1210 | The match is marked, the stroke kept, and the expected index moved to the lowest incomplete stroke. |
| PracticeSession.PracticeSession.FinishKanji | __init__.py:1220-1249 | Completion rolls up the stats, then auto-advances when configured. |
| PracticeSession.PracticeSession.AcceptStroke | __init__.py:1193-1249 | An accepted stroke is marked and saved, and on completion rolled up and maybe advanced. |
| PracticeSession.PracticeSession.TestStroke | __init__.py:1150-1191 | The candidate test returns the current policy's outcome for the stroke. |
| PracticeSession.PracticeSession.ApplyOutcome | __init__.py:1193-1253 | Direction errors are added; then the match is accepted, or a stroke error is counted. |
| PracticeSession.PracticeSession.EndDrawStroke | __init__.py:1138-1257 | `endDraw` keeps the invariant and produces the state `EndDraw` describes. |
| PracticeSession.StartSatisfiesInv | __init__.py:652-706 | The opening state satisfies the session invariant: the loaded strokes are the current character's, every stored progress fits its character's policy and stroke count, and the current index has an entry. |
| PracticeSession.LoadKeepsInv | __init__.py:652-704 | Loading from a state whose stored progress fits establishes the invariant. |
| PracticeSession.SaveKeepsFits | __init__.py:641-650 | Saving stores the current progress and keeps every stored progress fitting. |
| PracticeSession.SaveKeepsInv | __init__.py:641-650 | Saving keeps the invariant. |
| PracticeSession.ClearKeepsInv | __init__.py:1276-1296 | Clearing keeps the invariant. |
| PracticeSession.PrevKeepsInv | __init__.py:1323-1329 | The previous button keeps the invariant. |
| PracticeSession.NextKeepsInv | __init__.py:1331-1337 | The next button keeps the invariant. |
| PracticeSession.RestartKeepsInv | __init__.py:1339-1344 | Restart establishes the invariant from any state. |
| PracticeSession.MarkKeepsInv | __init__.py:1193-1210 | Marking an in-range match keeps the invariant. |
| PracticeSession.RollUpKeepsInv | __init__.py:1220-1243 | The stats roll-up keeps the invariant. |
| PracticeSession.AutoAdvanceKeepsInv | __init__.py:1245-1248 | Auto-advance keeps the invariant. |
| PracticeSession.AcceptKeepsInv | __init__.py:1193-1249 | Accepting an in-range match keeps the invariant. |
| PracticeSession.ApplyKeepsInv | __init__.py:1193-1253 | Applying an outcome whose match is in range keeps the invariant. |
| PracticeSession.EndDrawKeepsInv | __init__.py:1138-1257 | Every finished stroke keeps the invariant. |
| PracticeSession.LoadNeverResetsCounters | __init__.py:679-698 | Loading never changes the error, direction and redraw counters or the session start: the reset branch is dead. |
| PracticeSession.SaveThenLoadRestores | __init__.py:641-684 | Saving and then loading the same character restores its strokes, completion and expected index. |
| PracticeSession.NextThenPrevRestores | __init__.py:1323-1337 | Going to the next character and back reproduces the exact progress that was there before. |
| PracticeSession.LoadKeepsEntries | __init__.py:666-684 | Loading leaves an entry for the current index and every other stored entry unchanged. |
| PracticeSession.LoadRestoresEntry | __init__.py:666-671 | Loading a character with a stored entry restores that entry as the current progress. |
| PracticeSession.ClearResetsOnlyCurrent | __init__.py:1276-1296 | Clear resets the current progress and its stored entry to empty and leaves every other entry alone. It counts a redraw iff strokes were drawn. |
| PracticeSession.RestartForgetsAll | __init__.py:1339-1344 | Restart leaves index 0 with only its fresh entry stored. |
| PracticeSession.ShortStrokeIgnored | __init__.py:1143-1148 | A stroke of fewer than 5 points changes nothing. |
| PracticeSession.UnmatchedStrokeCountsError | __init__.py:1250-1253 | An unmatched stroke adds exactly one stroke error (besides its direction errors) and changes nothing else. |
| PracticeSession.WrongDirectionCountsTwice | __init__.py:1163-1165 | In strict mode a right-shape, wrong-direction stroke counts a direction error and a stroke error. |
| PracticeSession.StrictStrokeAfterCompletion | __init__.py:1155-1157 | In strict mode after completion, every stroke counts one stroke error and nothing else changes. |
| PracticeSession.AcceptedStrokeRecorded | __init__.py:1193-1213 | A non-final match keeps the stroke and every completed stroke, completes the match, and moves the expected index to the lowest incomplete one. It saves the progress and leaves the stroke errors alone. |
| PracticeSession.CompletionRollsUpStats | __init__.py:1220-1243 | A completing stroke rolls the character's stats up with the session's counters. |
| PracticeSession.CompletingAcceptRollsUp | __init__.py:1215-1243 | Accepting the last stroke rolls up the character's stats with the current counters. |
| DataPrep.ValidChars | data_prep.py:82-83 | The kept entries are exactly the dataset's entries with at least `min_samples` samples, and their characters stay distinct. |
| DataPrep.SortedKeys | data_prep.py:89 | The keys are the qualifying characters, sorted, without duplicates. |
| DataPrep.SortedKeysLength | data_prep.py:89 | There are as many keys as qualifying characters. |
| DataPrep.DecodedOf | data_prep.py:98-109 | A character's decoded samples are at most its samples, each labelled with that character. |
| DataPrep.Decoded | data_prep.py:95-109 | Each decoded sample belongs to a character of the dataset. |
| DataPrep.PrepareTrainingData | data_prep.py:78-119 | The method returns the error when nothing qualifies, and otherwise the images, labels and both mappings. |
| DataPrep.CollectSamples | data_prep.py:95-109 | The nested loop appends image and label together, one pair per decoding sample in order, skipping the rest. |
| DataPrep.FailsIffNoneQualifies | data_prep.py:85-86 | Preparation fails iff no character has at least `min_samples` samples. |
| DataPrep.IndexedAreQualifying | data_prep.py:82-89 | A character has an index iff it qualifies. |
| DataPrep.IndexFollowsStringOrder | data_prep.py:89 | Indices follow the string order strictly, so different characters get different indices. |
| DataPrep.InverseMappings | data_prep.py:89-90 | Indices range over exactly 0..k−1, and `idx_to_char` and `char_to_idx` are inverses both ways. |
| DataPrep.LabelsMatchImages | data_prep.py:95-109 | X and y have one element per decoded sample; the j-th label is the index of the j-th image's character. |
| DataPrep.DecodedOfCount | data_prep.py:98-109 | All of a character's samples are kept iff all of them decode. |
| DataPrep.DecodedCount | data_prep.py:95-109 | Decoded samples never exceed the total, and equal it iff every sample decodes. |
| DataPrep.TrainingWithinDataset | data_prep.py:95-124 | The training set is never larger than the dataset's total sample count. |
| DataPrep.Fewest | data_prep.py:130 | The minimum bounds every sample count from below and is attained. |
| DataPrep.Most | data_prep.py:131 | The maximum bounds every sample count from above and is attained. |
| DataPrep.SamplesPerChar | data_prep.py:132 | The map has exactly the dataset's characters as keys and their sample counts as values. |
| DataPrep.GetDatasetStats | data_prep.py:122-135 | Totals and per-character counts are right. On an empty dataset average, min and max are 0. Otherwise the average is total samples over characters, and min ≤ every count ≤ max, both attained. |
| DataPrep.SampleCountBounds | data_prep.py:124-131 | The total lies between n·min and n·max. |
| DataPrep.SampleCountAdds | data_prep.py:124 | The total over two datasets is the sum of their totals. |
| DataPrep.AverageBetweenBounds | data_prep.py:129-131 | On a non-empty dataset, min ≤ average ≤ max. |
| ViewDataset.Columns | view_dataset.py:103 | At most 5 columns, at most one per sample, at least one when there are samples. |
| ViewDataset.GridLayout | view_dataset.py:102-112 | The layout fails with a division by zero iff there are no samples. |
| ViewDataset.RowsAreCeiling | view_dataset.py:104 | For n ≥ 1: 1 ≤ cols ≤ 5, rows·cols ≥ n and (rows−1)·cols < n. |
| ViewDataset.CellsDistinct | view_dataset.py:123-124 | Different samples get different cells. |
| ViewDataset.CellInGrid | view_dataset.py:123-124 | Every sample's cell is inside the grid. |
| ViewDataset.TileInsideCanvas | view_dataset.py:107-126 | Every tile keeps the padding from the canvas edge and fits inside it. |
| ViewDataset.TilesDisjoint | view_dataset.py:123-126 | Tiles of different samples do not overlap. |
| ViewDataset.GridImage.constructor | view_dataset.py:113 | A new white canvas of the given size with nothing pasted. |
| ViewDataset.GridImage.Paste | view_dataset.py:129 | Pasting appends one tile. |
| ViewDataset.Tiles | view_dataset.py:118-132 | Each tile is of a sample that decodes, at that sample's position. |
| ViewDataset.Lookup | view_dataset.py:95-99 | The character's samples are found iff the dataset has that character. |
| ViewDataset.CreateCharacterGrid | view_dataset.py:93-147 | A missing character and a sampleless one (division by zero) build no grid. Otherwise the canvas has the layout's size, holds one tile per decoding sample, and the output file name is returned. |
| ViewDataset.TilesInSampleOrder | view_dataset.py:118-129 | Tiles are pasted in sample order. |
| ViewDataset.EveryDecodedSamplePasted | view_dataset.py:118-132 | A sample has a tile iff its picture decodes. |
| ViewDataset.GridTilesInside | view_dataset.py:107-129 | Every pasted tile lies inside the canvas. |
| ViewDataset.GridTilesApart | view_dataset.py:118-129 | Any two pasted tiles do not overlap. |
| ViewDataset.DisplaySummary | view_dataset.py:35-56 | The listing is a permutation of the dataset in non-increasing sample count; the average is absent iff the dataset is empty. |
| ViewDataset.SummaryAgreesWithStats | view_dataset.py:41-44 | The summary's totals and average agree with the dataset statistics. |
| ViewDataset.ListingExtremes | view_dataset.py:51-54 | The first listed character has the most samples and the last the fewest. |

## Left out

- XML parsing (ElementTree) and the regular-expression tokenizing of path data and
  label transforms are not modelled. Paths arrive as command lists and labels as
  numbers with positions.
- Path2D rasterization of the canonical corridor is not modelled; the mask is an input.
- Canvas drawing, colours, theme detection and the animation timing of `drawScene`
  are left out. Only the visibility decisions of `drawBase` and `drawAnimatedStroke`
  are modelled.
- Mouse and touch event handling is left out: `startDraw`/`moveDraw`, the pushing and popping of
  the on-screen stroke list, and the canvas/SVG coordinate scaling. The model's
  `userStrokes` holds the accepted strokes only, which is what the plumbing leaves
  behind.
- `Math.hypot` lengths are inputs tied to their squares, not computed. The finite
  check of the freehand box is not modelled: a non-empty trace always has a finite box.
- The clock (`Date.now()`) is one `now` parameter per handler, including the roll-up's
  two reads.
- The hint's 3-second `setTimeout` is a separate `HintExpired` method, with no timing.
- The `confirm` dialog of the stats reset, `pycmd` messaging and the stats text shown
  in the panel are left out.
- The Anki hooks, card-HTML kanji detection, the configuration file, the Jisho fetch,
  the JSON cache and stats files and the debug log are host glue and I/O, not modelled.
- The handwriting-recognition and OCR scripts are not part of this model; they wrap
  TensorFlow, Flask and PaddleOCR.
  - Files: `train_model.py`, `model_server.py`, `test_model.py`, `ocr_server.py`,
    `ocr_client.py`, `test_ocr.py`, `install_paddleocr.py`.
- Image decoding and preprocessing (`decode_image`, `preprocess_image`) are abstracted
  as the optional fields of a sample. A failed decode is an absent value.
- Printing, file saving and `os.startfile` of the dataset tools are left out, and so
  are `view_character_samples`, `export_all_grids` and the interactive menu.
- `print_stats` is left out; it only prints.
- DataPrep.Prepared: `idx_to_char` is built from the sorted keys rather than by
  inverting the dictionary. `InverseMappings` proves the two agree.
- ViewDataset.DisplaySummary: the stability of Python's sort among characters with
  equal counts is not stated. Only the order by count and the permutation are.
- ViewDataset.DisplaySummary: when the dataset is empty the source prints `0` for the
  average; the model gives no average.
