# Diarization interval algebra and CHiME-7 transcript normalisation, in Dafny

This project models two pieces of a speech-recognition code base and proves
what they promise.

**Speaker-diarization utilities** (`speaker_utils.py`):
- the algebra of time ranges:
  - merging integer ranges, and the integer core of merging float ranges;
  - overlap tests and intersections, and picking the parts of source ranges that fall inside a target range;
  - checking range order, cutting a segment into sub-segments, and the cursor search of the streaming diarizer;
- the speaker stamps `start end speaker`: making them contiguous, merging a speaker's adjacent turns, labelling segments with cluster labels, overlap stamps and per-speaker assignment lists;
- validation of the multiscale window/shift configuration;
- the session table keyed by unique id: its construction from a manifest, its pruning by voice-activity output, and the per-session segment lists.

**The CHiME-7 submission normaliser** (`text_normalize_krishna.py`):
- the manifest record rewrite;
- the fixed chain of transcript rewrites: collapsing space runs, deleting U+2047, `' aw '` → `' oh '`, and whole-word canonicalisation of filler words;
- the main block: it normalises every manifest found under the input folder and gathers the records per scenario into one file per scenario.

## How the model is built

- **Data.** Times are `real`, or `int` ticks where the source works on integers. A stamp is a record rather than a string. A manifest line is a map from keys to JSON scalars (text, number or null). The segment lists of `extract_timestamps` hold the JSON values themselves, because Python's `+` adds two numbers but joins two strings.
- **Errors.** An exception the source raises becomes an `Err` of its Python class, and the model keeps the source's order of checks.
- **Loops.** Each loop the source runs is a `method` with invariants. It is proved equal to a function over its inputs, and the properties are lemmas about that function.
- **In-place updates.** The dictionary `validate_vad_manifest` deletes from in place is the field of a class.
- **Inputs instead of I/O.** File contents are given as their parsed lines, and the folder search's file list is an input.

### Where the model follows the code rather than the docstring

- **`merge_int_intervals`.** The docstring says `[(1, 10), (11, 20)]` becomes `[(1, 20)]`. The code merges only when the running end reaches the next start, so those ranges stay apart and only touching ranges such as `(1, 10), (10, 20)` merge. The model follows the code (`MergeKeepsAdjacentApart`, `MergeTouching`).
- **`merge_float_intervals`.** Its table of examples disagrees with the code twice. It lists `[(1, 10), (11, 20)]` as merged at margin 0, and `[(1, 10), (10, 20)]` as merged at margin 1. In both cases the shifted ranges do not meet, so the code keeps the two ranges apart. The model follows the code (`MergeFloatNoMarginKeepsAdjacentApart`, `MergeFloatMarginOneKeepsTouchingApart`).
- **The three regular expressions.** Their `$` also matches just before a final newline, so the model rewrites a last token that carries that newline.

## Model

The source paths are:
- `nemo/collections/asr/parts/utils/speaker_utils.py`, for the `Sorting`, `Intervals`, `Stamps`, `ScaleConfig` and `Sessions` modules;
- `chime7/tn_process_for_submit/text_normalize_krishna.py`, for the `TextOps`, `Normalize` and `Submission` modules.

| member | source | states |
|---|---|---|
| Sorting.Sort | nemo/collections/asr/parts/utils/speaker_utils.py:1245 | The sorted column is in ascending order and is a permutation of the input column. |
| Sorting.InsertSorted | nemo/collections/asr/parts/utils/speaker_utils.py:1245 | Inserting a value into a sorted column keeps it sorted. |
| Sorting.InsertMultiset | nemo/collections/asr/parts/utils/speaker_utils.py:1245 | Insertion adds exactly one occurrence of the value and removes nothing. |
| Sorting.SortedUnique | nemo/collections/asr/parts/utils/speaker_utils.py:1245 | Two sorted columns with the same multiset of values are equal. |
| Sorting.SortDependsOnMultiset | nemo/collections/asr/parts/utils/speaker_utils.py:1245 | The sorted column depends only on the multiset of the column's values. |
| Sorting.BelowSort | nemo/collections/asr/parts/utils/speaker_utils.py:1245 | Sorting a column keeps the number of its values below any bound. |
| Sorting.SortDominated | nemo/collections/asr/parts/utils/speaker_utils.py:1244-1246 | If one column is row by row at most another, the sorted columns keep that bound index by index. So sorting starts and ends separately still pairs each start with an end at least as large. |
| Intervals.MergeIntIntervals | nemo/collections/asr/parts/utils/speaker_utils.py:1233-1262 | The loop computes the merged list: `[]` for no input, the input unchanged for one range, otherwise the scan over the independently sorted start and end columns. |
| Intervals.MergeRunGaps | nemo/collections/asr/parts/utils/speaker_utils.py:1249-1262 | The scan emits between one and n + 1 ranges. The first starts at the first start, and every emitted range ends strictly before the next one starts. |
| Intervals.MergeRunWellFormed | nemo/collections/asr/parts/utils/speaker_utils.py:1249-1262 | When every remaining start is at most its end, every emitted range has start at most end. |
| Intervals.MergeRunEndpoints | nemo/collections/asr/parts/utils/speaker_utils.py:1249-1262 | Every emitted start is the initial start or one of the starts scanned, and every emitted end is the initial end or one of the ends scanned. |
| Intervals.MergedIntervalsOrdered | nemo/collections/asr/parts/utils/speaker_utils.py:1233-1262 | For ranges with start at most end, the output ranges are well formed, their starts strictly increase, and each output range starts after the previous one ends. |
| Intervals.MergeRunCover | nemo/collections/asr/parts/utils/speaker_utils.py:1249-1262 | When the remaining starts are sorted and no earlier than the current start, and every remaining pair is well formed, the emitted ranges cover exactly the points of the current range and of the remaining pairs. |
| Intervals.MergedIntervalsCover | nemo/collections/asr/parts/utils/speaker_utils.py:1227-1262 | For ranges with start at most end, a point lies in some merged range exactly when it lies in some input range: merging keeps the covered points, although starts and ends are sorted separately. |
| Intervals.MergedIntervalsEndpoints | nemo/collections/asr/parts/utils/speaker_utils.py:1243-1262 | Every output start is one of the input starts and every output end is one of the input ends. |
| Intervals.MergedIntervalsDependsOnColumns | nemo/collections/asr/parts/utils/speaker_utils.py:1243-1246 | The result depends only on the multiset of starts and the multiset of ends, not on how they were paired. |
| Intervals.MergeTouching | nemo/collections/asr/parts/utils/speaker_utils.py:1252-1253 | `[(1, 10), (10, 20)]` merges to `[(1, 20)]`: touching ranges merge. |
| Intervals.MergeKeepsAdjacentApart | nemo/collections/asr/parts/utils/speaker_utils.py:1214-1215 | `[(1, 10), (11, 20)]` stays two ranges, contrary to the docstring example. |
| Intervals.MergeFloatNoMarginKeepsAdjacentApart | nemo/collections/asr/parts/utils/speaker_utils.py:1295-1297 | At margin 0, `[(1, 10), (11, 20)]` stays two ranges, contrary to the docstring example. |
| Intervals.MergeFloatMarginOneKeepsTouchingApart | nemo/collections/asr/parts/utils/speaker_utils.py:1298-1299 | At margin 1, `[(1, 10), (10, 20)]` stays two ranges, contrary to the docstring example. |
| Intervals.ShiftedRanges | nemo/collections/asr/parts/utils/speaker_utils.py:1312-1315 | The ranges kept for merging are no more than the input ranges. Each is an input range with its start moved `margin` ticks later, and each is still nonempty after the move. |
| Intervals.MergeFloatIntervals | nemo/collections/asr/parts/utils/speaker_utils.py:1310-1319 | On ranges already in ticks: move starts by the margin, drop emptied ranges, merge, and move the starts back. |
| Intervals.MergedShiftedSeparated | nemo/collections/asr/parts/utils/speaker_utils.py:1310-1319 | Every output range is at least `margin` ticks long and the starts strictly increase. Each next range starts less than `margin` ticks before the previous one ends, so ranges overlapping by the margin or more were joined. |
| Intervals.IsOverlapCommonPoint | nemo/collections/asr/parts/utils/speaker_utils.py:1183-1185 | For nonempty ranges, `is_overlap` holds exactly when the two share an interior point, and it is symmetric. |
| Intervals.GetOverlapRange | nemo/collections/asr/parts/utils/speaker_utils.py:1202-1203 | Defined only for overlapping ranges, as the source asserts. The result covers exactly the points both ranges cover, and it is nonempty when both ranges are. |
| Intervals.GetSubRangeList | nemo/collections/asr/parts/utils/speaker_utils.py:1346-1354 | `[]` when there is no target. Otherwise the intersections with the target of the overlapping source ranges, in source order. |
| Intervals.SubRangesCover | nemo/collections/asr/parts/utils/speaker_utils.py:1346-1354 | A point lies in some output range exactly when it lies in the target and in a source range that overlaps the target. |
| Intervals.CheckRanges | nemo/collections/asr/parts/utils/speaker_utils.py:1556-1560 | Passes exactly when no range ends before it starts; otherwise raises `ValueError`. |
| Intervals.Ceil | nemo/collections/asr/parts/utils/speaker_utils.py:1512 | `math.ceil`: the least integer at or above its argument. |
| Intervals.SliceCount | nemo/collections/asr/parts/utils/speaker_utils.py:1512-1513 | At least one window is cut from every segment. |
| Intervals.GetSubsegments | nemo/collections/asr/parts/utils/speaker_utils.py:1498-1520 | Raises `ZeroDivisionError` exactly when the shift is zero. Otherwise it cuts `SliceCount` windows, and window k starts k shifts after the offset and is clipped at the segment's end. |
| Intervals.SubsegmentsReachEnd | nemo/collections/asr/parts/utils/speaker_utils.py:1511-1519 | With a positive shift, the last sub-segment ends exactly at the end of the segment. |
| Intervals.SubsegmentsNonEmpty | nemo/collections/asr/parts/utils/speaker_utils.py:1514-1519 | With 0 < shift ≤ window and a positive duration, every sub-segment is nonempty and no longer than the window. |
| Intervals.GetNewCursorForUpdate | nemo/collections/asr/parts/utils/speaker_utils.py:1657-1668 | Empty input gives `(frame_start, 0)`. When every segment ends at or after the frame start, the walk runs past the front and raises `IndexError`. Otherwise the index is the first of the trailing segments that end at or after the frame start (the segment before it ends earlier), and the position is that segment's start, or the frame start when there is none. |
| Stamps.GetContiguousStamps | nemo/collections/asr/parts/utils/speaker_utils.py:294-313 | The loop that rewrites the next stamp in place computes `Contiguous`, and `[]` for no stamps. |
| Stamps.ContiguousProperties | nemo/collections/asr/parts/utils/speaker_utils.py:294-313 | Same length and speakers. Each stamp lies within its input stamp, and the first start and the last end are unchanged. Every stamp ends no later than the next starts. |
| Stamps.ContiguousIdempotent | nemo/collections/asr/parts/utils/speaker_utils.py:294-313 | Stamps that are already contiguous are left as they are, so a second pass changes nothing. |
| Stamps.MergeStamps | nemo/collections/asr/parts/utils/speaker_utils.py:316-333 | The loop computes `Merged`, and `[]` for no stamps. |
| Stamps.MergedProperties | nemo/collections/asr/parts/utils/speaker_utils.py:316-333 | The output is never longer than the input and is empty only for empty input. It keeps the first start and the last end. No two consecutive output stamps are the same speaker meeting end to start. Contiguous input gives contiguous output, and every output speaker is an input speaker. |
| Stamps.MergedIdempotent | nemo/collections/asr/parts/utils/speaker_utils.py:316-333 | Merging merged stamps changes nothing. |
| Stamps.LabelledStamps | nemo/collections/asr/parts/utils/speaker_utils.py:449-453 | One raw line per cluster label: line i is segment i's range tagged `speaker_<label i>`. |
| Stamps.GenerateClusterLabels | nemo/collections/asr/parts/utils/speaker_utils.py:429-456 | Raises `IndexError` exactly when there are more labels than segments. Otherwise it returns the raw lines, and the hypothesis is those lines made contiguous and then merged. |
| Stamps.ClusterLabelsTurns | nemo/collections/asr/parts/utils/speaker_utils.py:429-456 | The hypothesis has no more turns than labels and is empty only for no labels. It is contiguous, has no two fusable neighbours, and tags every turn with the label of some segment. |
| Stamps.LabelledSpeakers | nemo/collections/asr/parts/utils/speaker_utils.py:449-454 | Every contiguous stamp is tagged with the label of some segment. |
| Stamps.Selected | nemo/collections/asr/parts/utils/speaker_utils.py:1864-1867 | The stamps picked for one overlap speaker are at most the input stamps, and each is tagged `speaker_<that index>`. |
| Stamps.GetOverlapStamps | nemo/collections/asr/parts/utils/speaker_utils.py:1862-1872 | The loops compute each speaker's selected stamps, merge the nonempty lists and concatenate them in speaker order. |
| Stamps.OverlapStampsSpeakers | nemo/collections/asr/parts/utils/speaker_utils.py:1862-1872 | Every output stamp is tagged `speaker_k` for an index k of the overlap list. |
| Stamps.Column | nemo/collections/asr/parts/utils/speaker_utils.py:2075-2079 | A speaker's list holds at most one range per segment. |
| Stamps.GenerateSpeakerAssignmentIntervals | nemo/collections/asr/parts/utils/speaker_utils.py:2072-2080 | One list per speaker column, and list k is that speaker's column. |
| Stamps.ColumnMembers | nemo/collections/asr/parts/utils/speaker_utils.py:2075-2079 | A range is in speaker k's list exactly when some segment assigned to k has that range as its timestamp. |
| ScaleConfig.SingleScale | nemo/collections/asr/parts/utils/speaker_utils.py:174-212 | Two bare floats give the single scale `{0: (w, s)}` with weights `[1.0]` when the window is longer than the shift, whatever the weights parameter is. Otherwise they raise `ValueError`. |
| ScaleConfig.ListsAccepted | nemo/collections/asr/parts/utils/speaker_utils.py:181-210 | Three lists are accepted exactly when all of these hold: one common nonzero length; windows and shifts each non-increasing; every window longer than its shift. Scale k is then `(w_k, s_k)`, the weights are kept, and single-scale clustering is off. |
| ScaleConfig.ListsRejected | nemo/collections/asr/parts/utils/speaker_utils.py:196-212 | A rejected list configuration raises `IndexError` exactly when there is no window, or one window and no shift, and `ValueError` otherwise. |
| ScaleConfig.MixedOrAbsent | nemo/collections/asr/parts/utils/speaker_utils.py:214-219 | Any list mixed with non-lists raises `ValueError`. With no list and not two floats, the result is `None`. |
| ScaleConfig.AcceptedScalesOrdered | nemo/collections/asr/parts/utils/speaker_utils.py:187-210 | Any accepted configuration numbers its scales 0..n-1 with n > 0 and one weight per scale. It orders the scales from the longest window and shift to the shortest, and every window is longer than its shift. |
| Sessions.UniqnameFromFilepath | nemo/collections/asr/parts/utils/speaker_utils.py:59-63 | Raises `TypeError` exactly when the path is not a string. |
| Sessions.BasenameNoSlash | nemo/collections/asr/parts/utils/speaker_utils.py:60 | The base name holds no `/`. |
| Sessions.SplitextRootIsPrefix | nemo/collections/asr/parts/utils/speaker_utils.py:60 | Removing the extension leaves a prefix of the name. |
| Sessions.UniqNameIsPrefixOfBasename | nemo/collections/asr/parts/utils/speaker_utils.py:60 | The unique name is a prefix of the base name and holds no `/`. |
| Sessions.UniqNameOfPath | nemo/collections/asr/parts/utils/speaker_utils.py:60 | `dir/name.ext` gives `name`, when the name has a non-dot character and the extension no dot. |
| Sessions.UniqNameWithoutExtension | nemo/collections/asr/parts/utils/speaker_utils.py:60 | `dir/name` with no dot in the name gives `name`. |
| Sessions.HiddenFileKeepsName | nemo/collections/asr/parts/utils/speaker_utils.py:60 | `data/.wav` gives `.wav`: leading dots do not start an extension. |
| Sessions.LineKeyCases | nemo/collections/asr/parts/utils/speaker_utils.py:116-132 | A line has no key exactly when it lacks an audio path, or lacks `uniq_id` and its audio path is not a string. The key is `uniq_id` when present, and otherwise the unique name of the audio path. |
| Sessions.AudioRttmMap | nemo/collections/asr/parts/utils/speaker_utils.py:108-143 | The loop that fills the dictionary computes `RttmMap`. |
| Sessions.RttmMapErrSticks | nemo/collections/asr/parts/utils/speaker_utils.py:112-141 | An error in the first n lines is the result for the whole manifest. |
| Sessions.RttmMapLast | nemo/collections/asr/parts/utils/speaker_utils.py:129-141 | One line's step: an earlier error stands. A line without a key raises its error, and a key already present raises the duplicate `KeyError`. Otherwise the line's metadata is added under its key. |
| Sessions.RttmMapAccepts | nemo/collections/asr/parts/utils/speaker_utils.py:112-141 | The table is built exactly when every line has a key and the keys are pairwise distinct. When every line has a key but the build fails, the error is the duplicate `KeyError`. |
| Sessions.RttmMapSize | nemo/collections/asr/parts/utils/speaker_utils.py:134-135 | A built table has one entry per manifest line. |
| Sessions.RttmMapContents | nemo/collections/asr/parts/utils/speaker_utils.py:116-135 | In a built table, every line's key maps to that line's metadata. |
| Sessions.RttmMapKeyOrigin | nemo/collections/asr/parts/utils/speaker_utils.py:129-135 | Every key of a built table is the key of some manifest line. |
| Sessions.VadLine | nemo/collections/asr/parts/utils/speaker_utils.py:1156-1158 | A voice-activity line contributes an id exactly when it has a positive numeric duration and a `uniq_id`, and the id is that `uniq_id`. |
| Sessions.ReadSpeechIds | nemo/collections/asr/parts/utils/speaker_utils.py:1152-1158 | The reading loop computes `SpeechIds`. |
| Sessions.SpeechIdsErrSticks | nemo/collections/asr/parts/utils/speaker_utils.py:1153-1158 | An error in the first n voice-activity lines is the result for the whole file. |
| Sessions.SpeechIdsCharacterized | nemo/collections/asr/parts/utils/speaker_utils.py:1152-1158 | The file is read exactly when every line is. An id then has speech exactly when some line with a positive duration names it. |
| Sessions.Restrict | nemo/collections/asr/parts/utils/speaker_utils.py:1160-1163 | The pruned table keeps exactly the sessions whose ids have speech, with their metadata unchanged. |
| Sessions.SessionTable.ValidateVadManifest | nemo/collections/asr/parts/utils/speaker_utils.py:1145-1167 | A read error leaves the table as it was. Otherwise exactly the ids without speech are deleted, and the call passes exactly when a session is left; an emptied table raises `ValueError`. |
| Sessions.SessionTable.DeleteSilence | nemo/collections/asr/parts/utils/speaker_utils.py:1160-1164 | Deleting the silent ids one at a time leaves exactly the sessions with speech. |
| Sessions.SegmentLine | nemo/collections/asr/parts/utils/speaker_utils.py:2214-2218 | A segment line is read exactly when it has `uniq_id`, `offset` and `duration`, and the two times are both numbers or both text; otherwise the first missing key raises `KeyError`, and any other pair of times `TypeError`. It gives the id and an entry that starts at the offset. Its end is the offset plus the duration for numbers, and the two texts joined for text. |
| Sessions.SegmentLineJoinsText | nemo/collections/asr/parts/utils/speaker_utils.py:2217-2218 | A line with offset `"1"` and duration `"2"` gives the entry `["1", "12"]`. |
| Sessions.ExtractTimestamps | nemo/collections/asr/parts/utils/speaker_utils.py:2209-2220 | The loop that fills the dictionary computes `Timestamps`. |
| Sessions.TimestampsErrSticks | nemo/collections/asr/parts/utils/speaker_utils.py:2211-2219 | An error in the first n lines is the result for the whole manifest. |
| Sessions.TimestampsAccepts | nemo/collections/asr/parts/utils/speaker_utils.py:2211-2219 | The segment lists are built exactly when every line is read. |
| Sessions.TimestampsContents | nemo/collections/asr/parts/utils/speaker_utils.py:2214-2219 | The table has an entry for exactly the ids some line names. Each entry lists the `[start, end]` entries of that id's lines in manifest order. |
| Sessions.NamesSnoc | nemo/collections/asr/parts/utils/speaker_utils.py:2214-2216 | An id is named by a manifest exactly when it is named before the last line or by the last line. |
| TextOps.SplitPieces | chime7/tn_process_for_submit/text_normalize_krishna.py:127 | No piece of `str.split(sep)` holds the separator. |
| TextOps.JoinSplit | chime7/tn_process_for_submit/text_normalize_krishna.py:141 | `sep.join(s.split(sep)) == s`. |
| TextOps.SplitJoin | chime7/tn_process_for_submit/text_normalize_krishna.py:141 | Splitting a join of separator-free pieces gives the pieces back. |
| TextOps.SplitConcat | chime7/tn_process_for_submit/text_normalize_krishna.py:127 | Splitting `u + sep + v` gives the pieces of `u` followed by the pieces of `v`. |
| TextOps.RemoveChar | chime7/tn_process_for_submit/text_normalize_krishna.py:97 | Deleting a character leaves none of it, and the text is no longer. |
| TextOps.ReplaceCharByNothing | chime7/tn_process_for_submit/text_normalize_krishna.py:97 | Replacing one character by the empty string deletes every occurrence of it and nothing else. |
| TextOps.ReplaceAvoids | chime7/tn_process_for_submit/text_normalize_krishna.py:97-99 | `str.replace` brings in no character that is in neither the text nor the replacement. |
| TextOps.ReplaceAbsent | chime7/tn_process_for_submit/text_normalize_krishna.py:99 | A text in which the pattern never occurs is returned unchanged. |
| TextOps.CollapseDropsRepeatedSpaces | chime7/tn_process_for_submit/text_normalize_krishna.py:95 | Collapsing equals dropping every space that directly follows another space: each run of spaces becomes exactly one space and every other character stays in place. |
| TextOps.CollapseSpacesEnds | chime7/tn_process_for_submit/text_normalize_krishna.py:95 | Collapsing space runs never lengthens the text, and the result ends with a space exactly when the text does. |
| TextOps.CollapseSingleSpaced | chime7/tn_process_for_submit/text_normalize_krishna.py:95 | After collapsing, no two spaces are adjacent. |
| TextOps.CollapseFixed | chime7/tn_process_for_submit/text_normalize_krishna.py:95 | A text without two adjacent spaces is unchanged. |
| TextOps.CollapseIdempotent | chime7/tn_process_for_submit/text_normalize_krishna.py:95 | Collapsing twice is collapsing once. |
| TextOps.CollapseKeepsChars | chime7/tn_process_for_submit/text_normalize_krishna.py:95 | The collapsed text holds exactly the characters the text holds. |
| TextOps.CollapseKeepsNonSpaces | chime7/tn_process_for_submit/text_normalize_krishna.py:95 | With spaces removed, the collapsed text and the text are equal: only spaces are dropped. |
| Normalize.FillersRegular | chime7/tn_process_for_submit/text_normalize_krishna.py:27-29 | No pattern matches its own canonical spelling, and no spelling holds a space or a newline. |
| Normalize.FillersApart | chime7/tn_process_for_submit/text_normalize_krishna.py:27-29 | No two patterns match a common token, and none matches another's canonical spelling. |
| Normalize.SubstituteTokens | chime7/tn_process_for_submit/text_normalize_krishna.py:27-29 | One pattern's substitution rewrites whole space-delimited tokens and keeps the spaces: split into tokens, the output is the rewritten tokens. |
| Normalize.SubstTokenCommutes | chime7/tn_process_for_submit/text_normalize_krishna.py:27-29 | Two apart patterns rewrite a token alike in either order. |
| Normalize.FillerPatternsCommute | chime7/tn_process_for_submit/text_normalize_krishna.py:25-31 | Any two of the three substitutions commute, so their order does not matter. |
| Normalize.CanonTokenComposes | chime7/tn_process_for_submit/text_normalize_krishna.py:27-29 | The three patterns in turn rewrite a token to its canonical spelling. A listed form maps to `hmmm`, `ummm` or `uhhh`, and any other token, such as `human` or `hmmmm`, is unchanged. |
| Normalize.FillersTokenwise | chime7/tn_process_for_submit/text_normalize_krishna.py:25-31 | The three substitutions equal one pass that canonicalises every token. |
| Normalize.CanonTokenIdempotent | chime7/tn_process_for_submit/text_normalize_krishna.py:27-29 | A canonical token is already canonical, and canonicalising brings in no space. |
| Normalize.FillersIdempotent | chime7/tn_process_for_submit/text_normalize_krishna.py:25-31 | Filler substitution applied twice is applied once. |
| Normalize.FillersAvoid | chime7/tn_process_for_submit/text_normalize_krishna.py:25-31 | Filler substitution brings in no character other than those of the canonical spellings. |
| Normalize.NormalizeWordsClean | chime7/tn_process_for_submit/text_normalize_krishna.py:95-101 | A normalised transcript holds no U+2047, since no later step brings one back, and no two adjacent spaces. |
| Normalize.AwReplacedOnce | chime7/tn_process_for_submit/text_normalize_krishna.py:99 | `"x aw aw y"` becomes `"x oh aw y"`: the replacement scans left to right without overlap. |
| Normalize.ReadManifestRecord | chime7/tn_process_for_submit/text_normalize_krishna.py:61-64 | A line is read exactly when it has `pred_text`, `text` and `audio_filepath`. |
| Normalize.ReadManifestRecordFields | chime7/tn_process_for_submit/text_normalize_krishna.py:61-64 | A missing key raises `KeyError` for the first one missing, in the order read. A read line loses the three keys and gains `words`, which holds the old `pred_text`, and every other key keeps its value. |
| Normalize.ReadManifest | chime7/tn_process_for_submit/text_normalize_krishna.py:59-66 | The reading loop computes `ReadManifestSpec`. |
| Normalize.ReadManifestErrSticks | chime7/tn_process_for_submit/text_normalize_krishna.py:60-65 | An error in the first n lines is the result for the whole manifest. |
| Normalize.ReadManifestAccepts | chime7/tn_process_for_submit/text_normalize_krishna.py:60-65 | A manifest is read exactly when every line is. |
| Normalize.ReadManifestRecords | chime7/tn_process_for_submit/text_normalize_krishna.py:60-65 | A read manifest has one record per line, in order, each the rewrite of its line. |
| Normalize.FirstBadItem | chime7/tn_process_for_submit/text_normalize_krishna.py:93-101 | There is no error exactly when every record has a string under `words`. |
| Normalize.NormalizeItem | chime7/tn_process_for_submit/text_normalize_krishna.py:95-101 | The loop body stores the transcript, rewritten step by step, back under `words`. |
| Normalize.RewriteItems | chime7/tn_process_for_submit/text_normalize_krishna.py:93-101 | The in-place loop over the records computes `RewriteAll`: every record rewritten, or the first bad record's error. |
| Normalize.NormText | chime7/tn_process_for_submit/text_normalize_krishna.py:91-105 | `norm_text` computes `NormTextSpec`: read the manifest, then rewrite every record. |
| Normalize.NormTextKeepsRecords | chime7/tn_process_for_submit/text_normalize_krishna.py:91-105 | `norm_text` succeeds exactly when every line has the three keys and a string prediction. It then returns the same number of records in the same order, with only `words` changed, to the normalised prediction. |
| Submission.ScenarioOf | chime7/tn_process_for_submit/text_normalize_krishna.py:127 | Raises `IndexError` exactly when the path has fewer than two components. The scenario holds no `/`. |
| Submission.ScenarioOfPath | chime7/tn_process_for_submit/text_normalize_krishna.py:127 | The scenario of `dir/scenario/file` is `scenario`. |
| Submission.NormalizeFile | chime7/tn_process_for_submit/text_normalize_krishna.py:124-129 | One iteration computes `ProcessFile`: the output path, the scenario, and the normalised records. |
| Submission.NormalizeFiles | chime7/tn_process_for_submit/text_normalize_krishna.py:121-134 | The file loop gives the first error, or else the normalised files in order together with the scenario table of the processed files. |
| Submission.ProcessFilesErrSticks | chime7/tn_process_for_submit/text_normalize_krishna.py:122-129 | An error in the first n files is the result for the whole run. |
| Submission.ProcessFilesLength | chime7/tn_process_for_submit/text_normalize_krishna.py:122-129 | A successful run processes every file once, and no scenario holds `/`. |
| Submission.GroupOfWellFormed | chime7/tn_process_for_submit/text_normalize_krishna.py:121-134 | The scenario table lists `chime6`, `dipco` and `mixer6` first, lists each scenario once, and has a list for exactly the scenarios it lists. |
| Submission.GroupOfContents | chime7/tn_process_for_submit/text_normalize_krishna.py:121-134 | The table has an entry for exactly the three default scenarios and the scenarios of the files. Each entry is the records of that scenario's files, concatenated in file order. |
| Submission.TrackSystemSplit | chime7/tn_process_for_submit/text_normalize_krishna.py:135-137 | Track, system and split are the last three components of the input folder. |
| Submission.CategoryPathsDistinct | chime7/tn_process_for_submit/text_normalize_krishna.py:142-144 | Two different scenario names without `/` get different output paths. |
| Submission.WriteScenarioFiles | chime7/tn_process_for_submit/text_normalize_krishna.py:139-145 | The loop over the table writes one file per scenario, in table order, under the submit path. |
| Submission.SubmitNormalized | chime7/tn_process_for_submit/text_normalize_krishna.py:107-145 | The main block computes `Submit`. |
| Submission.SubmittedPerScenario | chime7/tn_process_for_submit/text_normalize_krishna.py:121-145 | A successful run writes one normalised file per input file. It writes one scenario file per table entry, the three defaults first even when empty, and every scenario seen gets a file. Each scenario file holds that scenario's records in file order. |
| Submission.SubmittedPathsDistinct | chime7/tn_process_for_submit/text_normalize_krishna.py:139-145 | No two scenario files share a path. |

## Left out

- File and JSON I/O is not modelled. This covers `open`, `json.loads`, `json.dump`, `glob`, `os.makedirs`, `print` and `logging`. A manifest is given as its parsed lines, and the folder search as its file list.
- JSON values are text, numbers or null only. Booleans, lists and objects in a manifest line are not modelled.
- Float arithmetic and its rounding are not modelled; times are exact reals.
- Intervals.MergeFloatIntervals: the conversions `fl2int` and `int2fl` (`torch.round` at a number of decimals) are left out. The model takes ranges already scaled to integer ticks and returns ticks.
- `Sorting.Sort` stands in for the column-wise `torch.sort`, and tensors are sequences. `check_ranges` takes a sequence of ranges, and the speaker assignment matrix is a sequence of boolean rows.
- Stamps.GenerateSpeakerAssignmentIntervals: requires at least as many timestamps as segment rows. The source raises `IndexError` only when a row marked for some speaker has no timestamp; that error is not modelled. Its caller passes one timestamp per segment.
- Stamps.GetContiguousStamps: the string form of a stamp is left out. The midpoint it writes is `str(avg)` in the source, which the model takes as exact.
- Stamps.MergeStamps: the string form of a stamp is left out, for the same reason.
- Sessions.AudioRttmMap: the `attach_dur` branch is left out. It keys sessions by `get_uniq_id_with_dur`, which rounds floats.
- `Sessions.MetaOf` reads the audio path with `get` instead of indexing. This is the same value, because `LineKey` has already failed on a line without one.
- Normalize.NormalizeItem: jiwer's `RemoveEmptyStrings` and `RemoveMultipleSpaces` are not part of this model. They are taken, respectively, as the identity and as collapsing runs of `' '`. Any trimming or collapsing of other whitespace they might do is not modelled.
- Submission.SubmitNormalized: a run that fails on a later manifest has already written the earlier normalised files. The model returns only the error.
- `original_folder.split()` in the main block discards its result and is not modelled.
- `get_subsegments` (the tensor path with rounding), `get_timestamps` and `get_embs_and_timestamps` are not part of this model; only `get_subsegments_` is.
- The online segmentation functions and `OnlineSegmentor` are not part of this model. They work on audio tensors and call code that is not shown.
- Clustering, embedding, adaptive thresholds, RTTM and pyannote conversion, and manifest writing are not part of this model. They are tensor numerics or file output.
- `os.path.basename` and `os.path.splitext` are modelled for `/`-separated paths only.
