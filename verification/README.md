# MFCC dataset builder of the asthma predictor, in Dafny

This project models `AI_pipeline/1_ET_mfcc_save.py`, which turns a data set of
subject recordings into per-phoneme MFCC tables. For every subject directory
that holds a `before` recording (`.wav`), its `before` annotation
(`.anote.txt`) and a metadata file (`.json`), the class `ETS_mfcc`:

1. loads channel 0 of the recording and derives the hop and window sizes in
   samples;
2. converts the annotation times to sample indices and groups the spans by
   the seven labels `aa ee ii xx oo uu yy`;
3. slices the audio into one segment per span;
4. turns each segment into MFCC frames, keeping coefficients 1 to 12;
5. builds one table per label, whose rows are tagged with the subject name,
   the instance tag `<label>_<idx>` and the asthma status;
6. appends each table to `<label>.csv`, with the header only when the subject
   counter is 0.

`main` walks the directories and keeps the last matching file of each kind.
It runs the pipeline only on complete directories and counts the subjects it
runs.

The project has one module per concern:

| file | module | models |
|---|---|---|
| `py_builtins.dfy` | `PyBuiltins` | `None`, `int()`, `math.floor`, Python slicing, `str()` of an index |
| `annotations.dfy` | `Annotations` | labels, time-to-sample conversion, label grouping |
| `features.dfy` | `Features` | the MFCC call and the `[1:].T` column drop |
| `tables.dfy` | `Tables` | per-label tables, instance tags, row indices |
| `dataset.dfy` | `Dataset` | the output directory as an append log of CSV lines, header policy |
| `ets_mfcc.dfy` | `MfccSave` | the class `ETS_mfcc` (`EtsMfcc`) and its methods |
| `driver.dfy` | `Driver` | `main`: file discovery, skipping, the subject counter |

Parts of the system are abstract:
- The MFCC transform is a function-typed parameter. All the model assumes is
  that it returns 13 coefficient rows of equal length.
- The loaders for audio, annotations and metadata are functions from path to
  value.
- The three file-name regexes are predicates.
- Each output file is a sequence of header and data lines.

## Behaviour that follows the code

The model does what the code does. In these places the code does something
a reader might not expect:

- **Hop and window sizes are truncated.** `int(hop * sr)` truncates toward
  zero and may yield 0. Nothing rounds, and this file does not check the
  sizes: a zero hop or a window longer than the FFT is handed to the MFCC
  transform, whose errors are outside this model.
- **Other labels are dropped.** An annotation row with any other label is in
  no group and contributes no table. It is not passed through.
- **Bad spans are not errors.**
  - An inverted span with non-negative bounds (`0 <= end <= start`) yields an
    empty segment; a negative bound counts from the end of the audio.
  - An end past the audio is clipped at its length.
  - Both segments are kept in the list, so they still take an instance index.
- **The header goes with subject counter 0.** It is written even when that
  subject's table for a label is empty. A later subject never writes one.
- **Missing metadata stops the run.** If the metadata lacks
  `subjectBiodata.subjectName` or `subjectType`, Python raises `KeyError` out
  of `pipeline` and `main`.
  - The recording and metadata fields have already been set.
  - No table has been replaced and nothing has been written for that subject.
  - The run does not go on to the next subject.
  - `Pipeline` returns `false` in that case, and `RunMain` stops with
    `completed == false`.

## Model

| member | source | states |
|---|---|---|
| PyBuiltins.PyInt | AI_pipeline/1_ET_mfcc_save.py:35-36 | `int()` of a float truncates toward zero: within 1 below a non-negative argument, within 1 above a negative one |
| PyBuiltins.PyFloor | AI_pipeline/1_ET_mfcc_save.py:41-42 | `math.floor` is the greatest integer not above its argument |
| PyBuiltins.SliceBound | AI_pipeline/1_ET_mfcc_save.py:89 | a slice bound inside the sequence is kept, a negative one counts from the end, anything else is clamped to `0..n` |
| PyBuiltins.PySlice | AI_pipeline/1_ET_mfcc_save.py:89 | `a[start:end]` is empty when the adjusted end is not after the adjusted start; otherwise it has their difference as length, and element `k` is `a[start' + k]` |
| PyBuiltins.NatToString | AI_pipeline/1_ET_mfcc_save.py:122 | `str(idx)` is a non-empty string of decimal digits without a leading zero, and those digits denote `idx` (`DigitsValue(str(idx)) == idx`) |
| PyBuiltins.NatToStringInjective | AI_pipeline/1_ET_mfcc_save.py:122 | distinct instance indices print differently |
| Annotations.Name | AI_pipeline/1_ET_mfcc_save.py:52-61 | every label is written with two characters |
| Annotations.NameInjective | AI_pipeline/1_ET_mfcc_save.py:52-61 | the seven label names are distinct |
| Annotations.TimeToSample | AI_pipeline/1_ET_mfcc_save.py:40-43 | a time becomes `floor(t * sr)`: the sample index is at most `t * sr` and less than 1 below it |
| Annotations.TimeToSampleMonotone | AI_pipeline/1_ET_mfcc_save.py:40-43 | for `sr >= 0` the conversion preserves order |
| Annotations.ToSampleRow | AI_pipeline/1_ET_mfcc_save.py:40-43 | both ends of a row become `floor(t * sr)` (at most `t * sr` and less than 1 below it) and the label is kept, so `start_time <= end_time` gives `start <= end` |
| Annotations.ToSamples | AI_pipeline/1_ET_mfcc_save.py:45-50 | the whole file is converted row by row, in order, with nothing added or lost |
| Annotations.Group | AI_pipeline/1_ET_mfcc_save.py:52-61 | a group holds only rows carrying its label and is no longer than the file |
| Annotations.GroupMembership | AI_pipeline/1_ET_mfcc_save.py:52-61 | a row is in the group of `p` if and only if it is in the file with label `p`; a row with another label is in no group |
| Annotations.GroupAppend | AI_pipeline/1_ET_mfcc_save.py:52-61 | grouping keeps file order: the group of `a + b` is the group of `a` followed by that of `b` |
| Annotations.LoadAnnotationAsSamples | AI_pipeline/1_ET_mfcc_save.py:39-63 | all seven labels are keys, each holding the converted rows with that label in file order |
| Annotations.ChunkRowFromFile | AI_pipeline/1_ET_mfcc_save.py:39-63 | every row of a group is the conversion of a file row with that label |
| Features.DropFirstTransposed | AI_pipeline/1_ET_mfcc_save.py:81 | `m[1:].T` has one row per frame, 12 values per row, and value `[f][c]` is coefficient `c + 1` of frame `f` |
| Features.DropFirstRoundTrip | AI_pipeline/1_ET_mfcc_save.py:81 | only the first coefficient is lost: putting it back in front of the transposed features gives the transform output again |
| Features.ConvertAudioToMfcc | AI_pipeline/1_ET_mfcc_save.py:72-81 | the feature matrix of a segment has one row per frame of the transform called with `sr`, 13 coefficients, the hop and window sizes and 32 mel bands; value `[f][c]` is coefficient `c + 1` of frame `f`, so each row has exactly as many values as `feature_cols` (12) |
| Tables.Tag | AI_pipeline/1_ET_mfcc_save.py:122 | the tag is the label, `_`, then `str(idx)` |
| Tables.TagInjective | AI_pipeline/1_ET_mfcc_save.py:122 | two instances share a tag only if they have the same label and index |
| Tables.InstanceRows | AI_pipeline/1_ET_mfcc_save.py:115-123 | one segment's data frame has exactly one row per MFCC frame; row `k` holds frame `k` with index `k`, tag `<label>_<idx>`, the subject's name and status |
| Tables.LabelTable | AI_pipeline/1_ET_mfcc_save.py:110-126 | every row of a label's table carries the subject's name and asthma status |
| Tables.InstanceRowsByTag | AI_pipeline/1_ET_mfcc_save.py:115-123 | selecting one instance's rows by a tag keeps all of them for its own tag and none for the tag of any other index |
| Tables.LabelTableLength | AI_pipeline/1_ET_mfcc_save.py:110-126 | a label's table has as many rows as its instances have frames in total |
| Tables.LabelTableAt | AI_pipeline/1_ET_mfcc_save.py:113-123 | frame `k` of instance `i` sits after the frames of instances `0..i-1`, with row index `k`, the subject's name and status and tag `<label>_<i>`; instances without frames shift no later tag |
| Tables.LabelTableRowOrigin | AI_pipeline/1_ET_mfcc_save.py:113-123 | every row of a table carries the subject's name and status and is a frame of some instance under that instance's tag |
| Tables.LabelTableWidth | AI_pipeline/1_ET_mfcc_save.py:114-118 | when every instance has rows of `w` features, every table row has `w` features |
| Tables.InstanceByTag | AI_pipeline/1_ET_mfcc_save.py:113-126 | selecting a table by the tag of instance `i` gives back exactly that instance's rows, in frame order and indexed from 0, or nothing when there is no instance `i` |
| Dataset.FileName | AI_pipeline/1_ET_mfcc_save.py:136 | the file of a label is `<label>.csv` |
| Dataset.FileNameInjective | AI_pipeline/1_ET_mfcc_save.py:136 | different labels write to different files |
| Dataset.ToCsv | AI_pipeline/1_ET_mfcc_save.py:134-137 | `to_csv` of a table writes one line per row, plus exactly one header line in front when `header` is set and none otherwise; the lines after the header are the rows' data lines in table order |
| Dataset.Appended | AI_pipeline/1_ET_mfcc_save.py:135-136 | mode `'a'` adds the lines at the end of that file and changes no other file |
| Dataset.SaveLabelsAt | AI_pipeline/1_ET_mfcc_save.py:132-143 | after the saving loop over distinct labels, a label's file is its old content followed by that label's table |
| Dataset.SaveLabelsElsewhere | AI_pipeline/1_ET_mfcc_save.py:132-143 | the saving loop leaves every file that is not one of the label files alone |
| Dataset.SaveLabelsOnlyAppends | AI_pipeline/1_ET_mfcc_save.py:132-143 | the saving loop only appends: every file's old content is a prefix of its new content |
| Dataset.SaveSubjectEffect | AI_pipeline/1_ET_mfcc_save.py:129-143 | one subject's save appends to each of the seven files exactly the CSV lines of that label's table |
| Dataset.HeaderWrittenOnce | AI_pipeline/1_ET_mfcc_save.py:129-143 | over a run with counters 0, 1, 2 and so on, each label file receives exactly one header, as its first new line, followed by the data lines of every subject's table in run order |
| Dataset.SaveRunElsewhere | AI_pipeline/1_ET_mfcc_save.py:129-143 | a run writes nothing outside the seven label files |
| Dataset.SaveRunOnlyAppends | AI_pipeline/1_ET_mfcc_save.py:129-143 | a whole run only appends: every file's content before the run is a prefix of its content after |
| Dataset.OutputDir.AppendCsv | AI_pipeline/1_ET_mfcc_save.py:134-137 | the output directory gains the table's CSV lines at the end of the named file |
| MfccSave.SubjectOf | AI_pipeline/1_ET_mfcc_save.py:104-105 | the subject's name and status are found if and only if both keys are present, and are their values |
| MfccSave.SamplesIn | AI_pipeline/1_ET_mfcc_save.py:35-36 | `int(length * sr)` of a non-negative product is the non-negative whole number of samples at most the product and less than 1 below it |
| MfccSave.Segments | AI_pipeline/1_ET_mfcc_save.py:84-92 | one segment per span, and each is a contiguous run of the audio from the span's adjusted start |
| MfccSave.FeatureMatrices | AI_pipeline/1_ET_mfcc_save.py:112-114 | one feature matrix per segment, every row with twelve features |
| MfccSave.SegmentsAt | AI_pipeline/1_ET_mfcc_save.py:84-92 | one segment per span in order: an in-range span gives exactly its samples, an inverted one an empty segment, and an end past the audio is clipped |
| MfccSave.FeatureRowsWidth | AI_pipeline/1_ET_mfcc_save.py:114-118 | every row of a subject's tables has the twelve feature columns |
| MfccSave.SubjectTablesOf | AI_pipeline/1_ET_mfcc_save.py:95-129 | the tables exist if and only if the metadata has the subject's name and type, and then all seven labels have a table |
| MfccSave.SubjectTablesOfAt | AI_pipeline/1_ET_mfcc_save.py:108-129 | a complete table map is the pipeline's result exactly when each label's entry is the table of that label's segments of channel 0 |
| MfccSave.EtsMfcc.constructor | AI_pipeline/1_ET_mfcc_save.py:14-26 | a new object keeps the paths and durations, has the twelve feature columns, and has nothing loaded and an empty `mfcc_df` |
| MfccSave.EtsMfcc.LoadAudio | AI_pipeline/1_ET_mfcc_save.py:29-36 | keeps the file's rate and channel 0 and sets the hop and window sizes to `int(duration * sr)`; metadata and tables are untouched |
| MfccSave.EtsMfcc.LoadMetadata | AI_pipeline/1_ET_mfcc_save.py:66-68 | the metadata field holds the parsed file |
| MfccSave.EtsMfcc.SegmentAudio | AI_pipeline/1_ET_mfcc_save.py:84-92 | all seven labels get a list; a label's list holds the slice of each of its spans, in order |
| MfccSave.EtsMfcc.PhonemeTable | AI_pipeline/1_ET_mfcc_save.py:110-123 | concatenating the instances' rows in the loop yields the label table of the segments' feature matrices, with one row per frame |
| MfccSave.EtsMfcc.BuildTables | AI_pipeline/1_ET_mfcc_save.py:108-129 | after the loop every label's entry of `mfcc_df` is the table of its segments |
| MfccSave.EtsMfcc.SaveTables | AI_pipeline/1_ET_mfcc_save.py:131-143 | every table of `mfcc_df` is appended to its label's file, all with or all without header |
| MfccSave.EtsMfcc.Pipeline | AI_pipeline/1_ET_mfcc_save.py:95-143 | loads the inputs; succeeds if and only if the metadata has the subject's keys; then `mfcc_df` holds the subject's seven tables and each label file gains its table with header iff the counter is 0; on failure no table or file changes |
| Driver.Join | AI_pipeline/1_ET_mfcc_save.py:157-169 | the joined path is the directory, `/`, then the name |
| Driver.LastMatch | AI_pipeline/1_ET_mfcc_save.py:163-169 | a file that is found matches the pattern |
| Driver.LastMatchSpec | AI_pipeline/1_ET_mfcc_save.py:163-169 | a file is found if and only if one matches, and the one found matches with no match after it: the later file wins |
| Driver.FindPaths | AI_pipeline/1_ET_mfcc_save.py:160-169 | each path variable ends as the directory joined to the last matching file, or `None` |
| Driver.FoundPaths | AI_pipeline/1_ET_mfcc_save.py:160-172 | a directory yields paths if and only if each of the three patterns matches one of its files |
| Driver.ProcessedAppend | AI_pipeline/1_ET_mfcc_save.py:154-175 | the subjects processed over two parts of the listing are those of the first part followed by those of the second |
| Driver.ProcessedPrefix | AI_pipeline/1_ET_mfcc_save.py:154-175 | the subjects processed in the first `k` directories are, in order, the first subjects of the whole run |
| Driver.ProcessedNext | AI_pipeline/1_ET_mfcc_save.py:172-175 | a directory with all three files adds exactly its paths as the next subject |
| Driver.ProcessedSkip | AI_pipeline/1_ET_mfcc_save.py:172-175 | a directory missing a file adds no subject |
| Driver.ProcessedIncludes | AI_pipeline/1_ET_mfcc_save.py:172-175 | every directory with all three files is processed |
| Driver.ProcessedFrom | AI_pipeline/1_ET_mfcc_save.py:172-175 | every processed subject comes from a directory with all three files |
| Driver.Processed | AI_pipeline/1_ET_mfcc_save.py:154-175 | each directory of the listing runs at most one subject |
| Driver.SubjectOutcome | AI_pipeline/1_ET_mfcc_save.py:174 | a subject yields tables if and only if its metadata has the subject keys, and then for all seven labels |
| Driver.FrameGeometry | AI_pipeline/1_ET_mfcc_save.py:149-150 | with 10 ms hops and 20 ms windows the sizes are `sr // 100` and `sr // 50` samples (160 and 320 at 16 kHz) |
| Driver.RunMain | AI_pipeline/1_ET_mfcc_save.py:146-175 | the counter equals the number of subjects run, which are the complete directories in order; the files are the run's saves, with headers from counter 0 only; an early stop happens exactly at a subject whose metadata lacks the keys |

## Left out

- The MFCC numerics of librosa (mel filter bank, window, padding, frame-count formula) are an external floating-point library. The transform is a parameter, and nothing is assumed about its frame count.
- Floating-point rounding of `t * sr` and `duration * sr` is not modelled; times and durations are exact reals.
- `librosa.load` is a loader parameter. It always returns at least one channel. A mono file, where `audio[0]` is a single sample, is not modelled.
- `pd.read_csv`, `json.load` and their parse errors, `to_csv`'s text formatting and the index column's header cell are not modelled. Annotation rows, metadata and output files are values.
- The file-name regexes of `main` are predicates in `Matchers`. Regular-expression matching itself is not modelled.
- `os.listdir` is the `listing` argument. Its order is whatever the listing says. `os.path.join` is `Driver.Join`, correct for relative names without a trailing separator.
- The output directory `save_path` is the `OutputDir` object handed to `Pipeline`. Its files are keyed by file name only.
- `tqdm` progress bars and `print` calls produce only console output and are not modelled.
- Dictionary iteration follows the insertion order `aa, ee, ii, xx, oo, uu, yy`, which is the order of `Phonemes`.
- The website files (`website/asthama_pred_site/app/_header.tsx`, `website/asthama_pred_site/app/page.tsx`) are user-interface markup and not part of this model.
- The errors of the MFCC transform are not modelled: librosa raises on a zero hop length or a window longer than the FFT, while `Transform` is a total function.
- A listing entry that is not a directory makes `os.listdir` at line 163 raise `NotADirectoryError`, which ends `main`. In the model every `SubjectDir` has a listing of files.
- `MfccSave.EtsMfcc.SegmentAudio`: a label missing from `chunk` gets an empty list. The code always passes all seven labels, so that branch never occurs in a run.
- Driver.RunMain: the effects of `__load_audio` and `__load_metadata` on the object's fields are stated per call by `Pipeline`, not repeated for the whole run.
