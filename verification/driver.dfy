/** `main` of `AI_pipeline/1_ET_mfcc_save.py`: walk the subject directories
    of the data set, find each one's audio, annotation and metadata file,
    run the pipeline on every subject that has all three and count the
    subjects processed, so that only the first one writes the headers. */
module Driver {
  import opened PyBuiltins
  import opened Annotations
  import opened Features
  import opened Dataset
  import opened MfccSave

  /** `10 * 10**(-3)` seconds between frames. */
  const HopLength: real := 10.0 / 1000.0
  /** `20 * 10**(-3)` seconds per analysis window. */
  const WindowLength: real := 20.0 / 1000.0
  /** `os.path.join('..', '..', 'data', 'SHIVANI_DATA_2016')`. */
  const DataPath: string := "../../data/SHIVANI_DATA_2016"

  /** The three file-name patterns: a `before` recording ending in `.wav`,
      a `before` annotation ending in `.anote.txt`, and a `.json` file. */
  datatype Matchers = Matchers(isAudio: string -> bool, isAnnotation: string -> bool,
                               isMetadata: string -> bool)

  /** One entry of the data directory: its name and its listing. */
  datatype SubjectDir = SubjectDir(name: string, files: seq<string>)

  /** The three paths handed to `pipeline`. */
  datatype SubjectPaths = SubjectPaths(audio: string, annotation: string, metadata: string)

  /** What the loaders return for a path: the decoded recording, the rows of
      an annotation file and the parsed metadata. */
  datatype Inputs = Inputs(audio: string -> DecodedRecording,
                           annotation: string -> seq<AnnotationRow>,
                           metadata: string -> Metadata)

  /** `os.path.join(dir, name)` for a relative `name`. */
  function Join(dir: string, name: string): (path: string)
    ensures |path| == |dir| + 1 + |name|
    ensures path[..|dir|] == dir && path[|dir|] == '/' && path[|dir| + 1..] == name
  {
    dir + "/" + name
  }

  /** The last file of the listing that matches, if any: every match
      overwrites the variable, so the latest one is kept. */
  function LastMatch(files: seq<string>, matches: string -> bool): (r: Option<string>)
    ensures r.Some? ==> matches(r.value)
    decreases |files|
  {
    if files == [] then None
    else if matches(files[|files| - 1]) then Some(files[|files| - 1])
    else LastMatch(files[..|files| - 1], matches)
  }

  /** `LastMatch` finds a file exactly when one matches, and what it finds
      is a matching file with no match after it. */
  lemma {:induction false} LastMatchSpec(files: seq<string>, matches: string -> bool)
    ensures LastMatch(files, matches).Some? <==> exists i :: 0 <= i < |files| && matches(files[i])
    ensures LastMatch(files, matches).Some? ==>
              exists i :: 0 <= i < |files| && files[i] == LastMatch(files, matches).value && matches(files[i]) &&
                          forall j :: i < j < |files| ==> !matches(files[j])
    decreases |files|
  {
    if files != [] {
      var n := |files| - 1;
      var init := files[..n];
      LastMatchSpec(init, matches);
      if !matches(files[n]) {
        if exists i :: 0 <= i < |files| && matches(files[i]) {
          var i :| 0 <= i < |files| && matches(files[i]);
          assert init[i] == files[i];
        }
        if LastMatch(files, matches).Some? {
          var i :| 0 <= i < |init| && init[i] == LastMatch(init, matches).value && matches(init[i]) &&
                   forall j :: i < j < |init| ==> !matches(init[j]);
          assert files[i] == init[i];
        }
      }
    }
  }

  /** The directory's path joined to a found file name. */
  function InDir(dir: string, found: Option<string>): (r: Option<string>)
    ensures r.Some? <==> found.Some?
    ensures r.Some? ==> r.value == Join(dir, found.value)
  {
    match found
    case None => None
    case Some(name) => Some(Join(dir, name))
  }

  /** The three paths of a subject directory, or `None` when one of them is
      missing and the subject is skipped. */
  function FoundPaths(d: SubjectDir, m: Matchers): (r: Option<SubjectPaths>)
    ensures r.Some? <==> LastMatch(d.files, m.isAudio).Some? && LastMatch(d.files, m.isAnnotation).Some?
                         && LastMatch(d.files, m.isMetadata).Some?
  {
    var dir := Join(DataPath, d.name);
    var audio, annotation, metadata := InDir(dir, LastMatch(d.files, m.isAudio)),
      InDir(dir, LastMatch(d.files, m.isAnnotation)), InDir(dir, LastMatch(d.files, m.isMetadata));
    if audio.Some? && annotation.Some? && metadata.Some?
    then Some(SubjectPaths(audio.value, annotation.value, metadata.value))
    else None
  }

  /** The inner loop of `main` over one directory's listing: each pattern's
      variable ends up holding the path of its last matching file. */
  method FindPaths(dir: string, files: seq<string>, m: Matchers)
    returns (audio: Option<string>, annotation: Option<string>, metadata: Option<string>)
    ensures audio == InDir(dir, LastMatch(files, m.isAudio))
    ensures annotation == InDir(dir, LastMatch(files, m.isAnnotation))
    ensures metadata == InDir(dir, LastMatch(files, m.isMetadata))
  {
    audio, annotation, metadata := None, None, None;
    for i := 0 to |files|
      invariant audio == InDir(dir, LastMatch(files[..i], m.isAudio))
      invariant annotation == InDir(dir, LastMatch(files[..i], m.isAnnotation))
      invariant metadata == InDir(dir, LastMatch(files[..i], m.isMetadata))
    {
      var file := files[i];
      assert files[..i + 1][..i] == files[..i];
      if m.isAudio(file) {
        audio := Some(Join(dir, file));
      }
      if m.isAnnotation(file) {
        annotation := Some(Join(dir, file));
      }
      if m.isMetadata(file) {
        metadata := Some(Join(dir, file));
      }
    }
    assert files[..|files|] == files;
  }

  /** The subjects `main` hands to `pipeline`, in listing order. */
  function Processed(listing: seq<SubjectDir>, m: Matchers): (r: seq<SubjectPaths>)
    ensures |r| <= |listing|
    decreases |listing|
  {
    if listing == [] then []
    else
      var n := |listing| - 1;
      Processed(listing[..n], m) + (match FoundPaths(listing[n], m) case Some(p) => [p] case None => [])
  }

  lemma {:induction false} ProcessedAppend(a: seq<SubjectDir>, b: seq<SubjectDir>, m: Matchers)
    ensures Processed(a + b, m) == Processed(a, m) + Processed(b, m)
    decreases |b|
  {
    if b == [] {
      assert a + b == a;
    } else {
      var n := |b| - 1;
      assert (a + b)[..|a + b| - 1] == a + b[..n];
      ProcessedAppend(a, b[..n], m);
    }
  }

  /** The subjects processed after the first `k` directories come first,
      in the same order, among those of the whole listing. */
  lemma ProcessedPrefix(listing: seq<SubjectDir>, k: nat, m: Matchers)
    requires k <= |listing|
    ensures |Processed(listing[..k], m)| <= |Processed(listing, m)|
    ensures Processed(listing, m)[..|Processed(listing[..k], m)|] == Processed(listing[..k], m)
  {
    assert listing[..k] + listing[k..] == listing;
    ProcessedAppend(listing[..k], listing[k..], m);
  }

  /** Every directory that has all three files is processed. */
  lemma {:induction false} ProcessedIncludes(listing: seq<SubjectDir>, m: Matchers, k: nat)
    requires k < |listing| && FoundPaths(listing[k], m).Some?
    ensures FoundPaths(listing[k], m).value in Processed(listing, m)
  {
    ProcessedNext(listing, k, m);
  }

  /** Only directories that have all three files are processed: every
      processed subject comes from one of them. */
  lemma {:induction false} ProcessedFrom(listing: seq<SubjectDir>, m: Matchers, j: nat)
    requires j < |Processed(listing, m)|
    ensures exists k :: 0 <= k < |listing| && FoundPaths(listing[k], m) == Some(Processed(listing, m)[j])
    decreases |listing|
  {
    var n := |listing| - 1;
    var init := listing[..n];
    if j < |Processed(init, m)| {
      ProcessedFrom(init, m, j);
      var k :| 0 <= k < |init| && FoundPaths(init[k], m) == Some(Processed(init, m)[j]);
      assert listing[k] == init[k];
    } else {
      assert FoundPaths(listing[n], m) == Some(Processed(listing, m)[j]);
    }
  }

  /** What `pipeline` leaves in `mfcc_df` for one subject, with the hop and
      window sizes `__load_audio` derives from the recording's rate. */
  function SubjectOutcome(paths: SubjectPaths, inputs: Inputs, transform: Transform): (r: Option<SubjectTables>)
    ensures r.Some? <==> SubjectOf(inputs.metadata(paths.metadata)).Some?
    ensures r.Some? ==> IsComplete(r.value)
  {
    var recording := inputs.audio(paths.audio);
    SubjectTablesOf(recording, inputs.annotation(paths.annotation), inputs.metadata(paths.metadata), transform,
                    SamplesIn(HopLength, recording.sr), SamplesIn(WindowLength, recording.sr))
  }

  /** With the run's constants the hop is `sr // 100` samples and the window
      `sr // 50` samples: 160 and 320 at 16 kHz. */
  lemma FrameGeometry(sr: int)
    requires sr > 0
    ensures SamplesIn(HopLength, sr) == sr / 100
    ensures SamplesIn(WindowLength, sr) == sr / 50
  {
    var q, r := sr / 100, sr % 100;
    assert HopLength * sr as real == q as real + r as real / 100.0;
    var q2, r2 := sr / 50, sr % 50;
    assert WindowLength * sr as real == q2 as real + r2 as real / 50.0;
  }

  /** `written[i]` is what the pipeline leaves for subject `done[i]`, for
      every subject in order. */
  ghost predicate Produced(done: seq<SubjectPaths>, written: seq<SubjectTables>, inputs: Inputs, transform: Transform)
  {
    && |done| == |written|
    && forall i :: 0 <= i < |done| ==> SubjectOutcome(done[i], inputs, transform) == Some(written[i])
  }

  lemma ProducedStep(done: seq<SubjectPaths>, written: seq<SubjectTables>, paths: SubjectPaths,
                     tables: SubjectTables, inputs: Inputs, transform: Transform)
    requires Produced(done, written, inputs, transform)
    requires SubjectOutcome(paths, inputs, transform) == Some(tables)
    ensures Produced(done + [paths], written + [tables], inputs, transform)
  {
  }

  /** The directory after the first `k` holds the next subject to process
      when it has all three files. */
  lemma ProcessedNext(listing: seq<SubjectDir>, k: nat, m: Matchers)
    requires k < |listing| && FoundPaths(listing[k], m).Some?
    ensures Processed(listing[..k + 1], m) == Processed(listing[..k], m) + [FoundPaths(listing[k], m).value]
    ensures |Processed(listing[..k], m)| < |Processed(listing, m)|
    ensures Processed(listing, m)[|Processed(listing[..k], m)|] == FoundPaths(listing[k], m).value
    ensures Processed(listing, m)[..|Processed(listing[..k], m)|] == Processed(listing[..k], m)
  {
    assert listing[..k + 1][..k] == listing[..k];
    ProcessedPrefix(listing, k + 1, m);
  }

  /** A directory without all three files adds no subject. */
  lemma ProcessedSkip(listing: seq<SubjectDir>, k: nat, m: Matchers)
    requires k < |listing| && FoundPaths(listing[k], m).None?
    ensures Processed(listing[..k + 1], m) == Processed(listing[..k], m)
  {
    assert listing[..k + 1][..k] == listing[..k];
  }

  /** `main`: every subject directory with all three files is run through
      the pipeline with the current counter, which then goes up by one.
      The outputs are the saves of the processed subjects' tables in order,
      the first with headers; a subject whose metadata lacks its name or
      type stops the run there. */
  method RunMain(listing: seq<SubjectDir>, m: Matchers, inputs: Inputs, out: OutputDir, transform: Transform)
    returns (subjectCntr: nat, completed: bool, ghost written: seq<SubjectTables>)
    modifies out
    ensures subjectCntr == |written| <= |Processed(listing, m)|
    ensures Produced(Processed(listing, m)[..|written|], written, inputs, transform)
    ensures forall i :: 0 <= i < |written| ==> IsComplete(written[i])
    ensures out.files == SaveRun(old(out.files), written)
    ensures completed ==> |written| == |Processed(listing, m)|
    ensures !completed ==> |written| < |Processed(listing, m)| &&
                           SubjectOutcome(Processed(listing, m)[|written|], inputs, transform).None?
  {
    var mfccMaker := new EtsMfcc(DataPath, HopLength, WindowLength);
    subjectCntr, written := 0, [];
    ghost var done: seq<SubjectPaths> := [];
    for k := 0 to |listing|
      invariant subjectCntr == |written|
      invariant done == Processed(listing[..k], m)
      invariant Produced(done, written, inputs, transform)
      invariant forall i :: 0 <= i < |written| ==> IsComplete(written[i])
      invariant out.files == SaveRun(old(out.files), written)
      invariant mfccMaker.hopLength == HopLength && mfccMaker.windowLength == WindowLength
    {
      var dir := Join(DataPath, listing[k].name);
      var audioPath, annotationPath, metadataPath := FindPaths(dir, listing[k].files, m);
      if audioPath.Some? && annotationPath.Some? && metadataPath.Some? {
        ghost var paths := SubjectPaths(audioPath.value, annotationPath.value, metadataPath.value);
        assert FoundPaths(listing[k], m) == Some(paths);
        ProcessedNext(listing, k, m);
        var ok := mfccMaker.Pipeline(inputs.audio(audioPath.value), inputs.annotation(annotationPath.value),
                                     inputs.metadata(metadataPath.value), out, subjectCntr, transform);
        if !ok {
          completed := false;
          return;
        }
        ProducedStep(done, written, paths, mfccMaker.mfccDf, inputs, transform);
        SaveRunSnoc(old(out.files), written, mfccMaker.mfccDf);
        written := written + [mfccMaker.mfccDf];
        done := done + [paths];
        subjectCntr := subjectCntr + 1;
      } else {
        ProcessedSkip(listing, k, m);
      }
    }
    assert listing[..|listing|] == listing;
    completed := true;
  }
}
