/** The class `ETS_mfcc` of `AI_pipeline/1_ET_mfcc_save.py`: it loads one
    subject's recording, annotation and metadata into its fields, cuts the
    recording into one segment per annotated span, turns every segment into
    MFCC feature rows and appends the seven per-label tables to the output
    directory. */
module MfccSave {
  import opened PyBuiltins
  import opened Annotations
  import opened Features
  import opened Tables
  import opened Dataset

  /** A decoded recording (`librosa.load(..., sr=None, mono=False)`): the
      samples of each channel and the file's own sample rate. */
  datatype Recording = Recording(channels: seq<seq<real>>, sr: int)

  type DecodedRecording = r: Recording | |r.channels| >= 1 && r.sr > 0
    witness Recording([[]], 1)

  /** The parsed metadata file: objects of string fields, by key. */
  type Metadata = map<string, map<string, string>>

  datatype Subject = Subject(mbName: string, asthmaStatus: string)

  /** `metadata['subjectBiodata']['subjectName']` and `['subjectType']`;
      `None` where Python raises `KeyError`. */
  function SubjectOf(meta: Metadata): (s: Option<Subject>)
    ensures s.Some? <==> "subjectBiodata" in meta && "subjectName" in meta["subjectBiodata"]
                         && "subjectType" in meta["subjectBiodata"]
    ensures s.Some? ==> s.value.mbName == meta["subjectBiodata"]["subjectName"]
                        && s.value.asthmaStatus == meta["subjectBiodata"]["subjectType"]
  {
    if "subjectBiodata" in meta && "subjectName" in meta["subjectBiodata"]
       && "subjectType" in meta["subjectBiodata"]
    then Some(Subject(meta["subjectBiodata"]["subjectName"], meta["subjectBiodata"]["subjectType"]))
    else None
  }

  /** The segments of one label group: `audio[row.start:row.end]` per row. */
  function Segments(audio: seq<real>, group: seq<SampleRow>): (s: seq<seq<real>>)
    ensures |s| == |group|
    ensures forall i :: 0 <= i < |group| ==> s[i] <= audio[SliceBound(group[i].start, |audio|)..]
  {
    seq(|group|, i requires 0 <= i < |group| => PySlice(audio, group[i].start, group[i].end))
  }

  /** One segment per annotated span, in annotation order, even an empty
      one: a span inside the audio gives exactly its samples, an inverted
      span gives an empty segment, and an end past the audio is clipped. */
  lemma SegmentsAt(audio: seq<real>, group: seq<SampleRow>, i: nat)
    requires i < |group|
    ensures |Segments(audio, group)| == |group|
    ensures var s, e := group[i].start, group[i].end;
            && (0 <= s <= e <= |audio| ==> Segments(audio, group)[i] == audio[s..e] && |Segments(audio, group)[i]| == e - s)
            && (0 <= e <= s ==> Segments(audio, group)[i] == [])
            && (0 <= s <= |audio| < e ==> Segments(audio, group)[i] == audio[s..])
  {
    var s, e := group[i].start, group[i].end;
    if 0 <= s <= e <= |audio| {
      SliceInRange(audio, s, e);
    }
    if 0 <= e <= s {
      SliceInverted(audio, s, e);
    }
    if 0 <= s <= |audio| < e {
      SliceClipped(audio, s, e);
    }
  }

  /** The feature matrix of every segment, in order. */
  function FeatureMatrices(transform: Transform, segments: seq<seq<real>>, sr: int,
                           shiftSize: int, windowSize: int): (r: seq<seq<seq<real>>>)
    ensures |r| == |segments|
    ensures forall i, f :: 0 <= i < |r| && 0 <= f < |r[i]| ==> |r[i][f]| == NumFeatures
  {
    seq(|segments|, i requires 0 <= i < |segments| =>
      ConvertAudioToMfcc(transform, segments[i], sr, shiftSize, windowSize))
  }

  /** Every row a subject's tables can hold has the twelve feature columns. */
  lemma FeatureRowsWidth(p: Phoneme, transform: Transform, segments: seq<seq<real>>, sr: int,
                         shiftSize: int, windowSize: int, mbName: string, status: string)
    ensures forall row :: row in LabelTable(p, FeatureMatrices(transform, segments, sr, shiftSize, windowSize), mbName, status)
                          ==> |row.features| == NumFeatures
  {
    LabelTableWidth(p, FeatureMatrices(transform, segments, sr, shiftSize, windowSize), mbName, status, NumFeatures);
  }

  /** `int(length * sr)`: a duration in seconds as a whole number of
      samples, truncated. */
  function SamplesIn(length: real, sr: int): (n: int)
    ensures 0.0 <= length * sr as real ==> 0 <= n && n as real <= length * sr as real < n as real + 1.0
  {
    PyInt(length * sr as real)
  }

  /** What `pipeline` leaves in `mfcc_df` for one subject, or `None` when
      the metadata lacks the subject's name or type. */
  function SubjectTablesOf(recording: DecodedRecording, annotation: seq<AnnotationRow>, meta: Metadata,
                           transform: Transform, shiftSize: int, windowSize: int): (r: Option<SubjectTables>)
    ensures r.Some? <==> SubjectOf(meta).Some?
    ensures r.Some? ==> IsComplete(r.value)
  {
    var sr := recording.sr;
    var chunk := LoadAnnotationAsSamples(annotation, sr);
    match SubjectOf(meta)
    case None => None
    case Some(subject) =>
      assert forall p: Phoneme :: p in Phonemes by {
        forall p: Phoneme ensures p in Phonemes { PhonemesListed(p); }
      }
      Some(map p | p in Phonemes ::
        LabelTable(p, FeatureMatrices(transform, Segments(recording.channels[0], chunk[p]), sr, shiftSize, windowSize),
                   subject.mbName, subject.asthmaStatus))
  }

  /** The tables of a subject are fixed label by label: a complete table
      map is the pipeline's result exactly when each label's entry is the
      table of that label's segments of channel 0. */
  lemma SubjectTablesOfAt(recording: DecodedRecording, annotation: seq<AnnotationRow>, meta: Metadata,
                          transform: Transform, shiftSize: int, windowSize: int,
                          subject: Subject, tables: SubjectTables)
    requires SubjectOf(meta) == Some(subject)
    requires IsComplete(tables)
    requires forall p :: tables[p] == LabelTable(p, FeatureMatrices(transform,
                                    Segments(recording.channels[0], LoadAnnotationAsSamples(annotation, recording.sr)[p]),
                                    recording.sr, shiftSize, windowSize),
                                    subject.mbName, subject.asthmaStatus)
    ensures SubjectTablesOf(recording, annotation, meta, transform, shiftSize, windowSize) == Some(tables)
  {
    var r := SubjectTablesOf(recording, annotation, meta, transform, shiftSize, windowSize).value;
    assert r.Keys == tables.Keys by {
      forall p: Phoneme ensures p in r && p in tables { }
    }
    forall p ensures r[p] == tables[p] {
      PhonemesListed(p);
    }
    assert r == tables;
  }

  class EtsMfcc {
    const dataPath: string
    const hopLength: real
    const windowLength: real
    const featureCols: seq<string>

    var sr: Option<int>
    var audio: Option<seq<real>>
    var metadata: Option<Metadata>
    var shiftSize: Option<int>
    var windowSize: Option<int>
    var mfccDf: SubjectTables

    constructor (dataPath: string, hopLength: real, windowLength: real)
      ensures this.dataPath == dataPath && this.hopLength == hopLength && this.windowLength == windowLength
      ensures featureCols == FeatureCols
      ensures sr == None && audio == None && metadata == None
      ensures shiftSize == None && windowSize == None
      ensures mfccDf == map[]
    {
      this.dataPath := dataPath;
      this.hopLength := hopLength;
      this.windowLength := windowLength;
      featureCols := FeatureCols;
      sr, audio, metadata := None, None, None;
      shiftSize, windowSize := None, None;
      mfccDf := map[];
    }

    /** The fields `__load_audio` sets from `recording`: channel 0 only, and
        hop and window sizes truncated with `int()`. */
    ghost predicate Loaded(recording: DecodedRecording)
      reads this
    {
      && sr == Some(recording.sr)
      && audio == Some(recording.channels[0])
      && shiftSize == Some(SamplesIn(hopLength, recording.sr))
      && windowSize == Some(SamplesIn(windowLength, recording.sr))
    }

    method LoadAudio(recording: DecodedRecording)
      modifies this
      ensures Loaded(recording)
      ensures metadata == old(metadata) && mfccDf == old(mfccDf)
    {
      sr := Some(recording.sr);
      audio := Some(recording.channels[0]);
      shiftSize := Some(SamplesIn(hopLength, recording.sr));
      windowSize := Some(SamplesIn(windowLength, recording.sr));
    }

    method LoadMetadata(meta: Metadata)
      modifies this`metadata
      ensures metadata == Some(meta)
    {
      metadata := Some(meta);
    }

    /** `__segment_audio`: all seven labels get a list; the list of a label
        of `chunk` holds one segment per row of its group, in order. */
    method SegmentAudio(chunk: map<Phoneme, seq<SampleRow>>) returns (segments: map<Phoneme, seq<seq<real>>>)
      requires audio.Some?
      ensures forall p :: p in segments
      ensures forall p :: p in segments ==>
                segments[p] == if p in chunk then Segments(audio.value, chunk[p]) else []
    {
      assert forall p: Phoneme :: p in Phonemes by {
        forall p: Phoneme ensures p in Phonemes { PhonemesListed(p); }
      }
      segments := map p | p in Phonemes :: [];
      for t := 0 to |Phonemes|
        invariant forall p :: p in segments
        invariant forall p :: p in Phonemes[..t] && p in chunk ==> segments[p] == Segments(audio.value, chunk[p])
        invariant forall p :: p !in Phonemes[..t] || p !in chunk ==> segments[p] == []
      {
        var p := Phonemes[t];
        assert Phonemes[..t + 1] == Phonemes[..t] + [p];
        if p in chunk {
          var rows := chunk[p];
          ghost var before := segments;
          for i := 0 to |rows|
            invariant forall q :: q in segments
            invariant segments[p] == Segments(audio.value, rows[..i])
            invariant forall q :: q != p ==> segments[q] == before[q]
          {
            assert rows[..i + 1][..i] == rows[..i];
            segments := segments[p := segments[p] + [PySlice(audio.value, rows[i].start, rows[i].end)]];
          }
          assert rows[..|rows|] == rows;
        }
      }
      assert Phonemes[..|Phonemes|] == Phonemes;
    }

    /** The loop over one label's segments in `pipeline`: the table starts
        empty and each instance's rows are appended in turn. */
    method PhonemeTable(p: Phoneme, segments: seq<seq<real>>, mbName: string, status: string,
                        transform: Transform) returns (table: seq<TableRow>)
      requires sr.Some? && shiftSize.Some? && windowSize.Some?
      ensures table == LabelTable(p, FeatureMatrices(transform, segments, sr.value, shiftSize.value, windowSize.value),
                                  mbName, status)
      ensures |table| == TotalFrames(FeatureMatrices(transform, segments, sr.value, shiftSize.value, windowSize.value))
    {
      ghost var matrices := FeatureMatrices(transform, segments, sr.value, shiftSize.value, windowSize.value);
      table := [];
      for idx := 0 to |segments|
        invariant table == LabelTable(p, matrices[..idx], mbName, status)
      {
        var mfccSegment := ConvertAudioToMfcc(transform, segments[idx], sr.value, shiftSize.value, windowSize.value);
        var df := InstanceRows(p, idx, mfccSegment, mbName, status);
        assert matrices[..idx + 1][..idx] == matrices[..idx];
        table := table + df;
      }
      assert matrices[..|segments|] == matrices;
      LabelTableLength(p, matrices, mbName, status);
    }

    /** The loop over the seven groups in `pipeline`: each label's table
        replaces that label's entry of `mfcc_df`. */
    method BuildTables(segments: map<Phoneme, seq<seq<real>>>, mbName: string, status: string,
                       transform: Transform)
      requires sr.Some? && shiftSize.Some? && windowSize.Some?
      requires forall p :: p in segments
      modifies this`mfccDf
      ensures IsComplete(mfccDf)
      ensures forall p :: mfccDf[p] == LabelTable(p, FeatureMatrices(transform, segments[p], sr.value, shiftSize.value,
                                                                     windowSize.value), mbName, status)
    {
      for t := 0 to |Phonemes|
        invariant forall q :: q in Phonemes[..t] ==> (q in mfccDf &&
                    mfccDf[q] == LabelTable(q, FeatureMatrices(transform, segments[q], sr.value, shiftSize.value,
                                                                windowSize.value), mbName, status))
      {
        var p := Phonemes[t];
        var table := PhonemeTable(p, segments[p], mbName, status, transform);
        mfccDf := mfccDf[p := table];
        assert Phonemes[..t + 1] == Phonemes[..t] + [p];
      }
      forall q ensures q in Phonemes[..|Phonemes|] {
        PhonemesListed(q);
        assert Phonemes[..|Phonemes|] == Phonemes;
      }
    }

    /** The saving loop of `pipeline`: every table of `mfcc_df` is appended
        to its label's file, all with a header or all without. */
    method SaveTables(out: OutputDir, header: bool)
      requires IsComplete(mfccDf)
      modifies out
      ensures out.files == SaveSubject(old(out.files), mfccDf, header)
    {
      for t := 0 to |Phonemes|
        invariant out.files == SaveLabels(old(out.files), Phonemes[..t], mfccDf, header)
      {
        var p := Phonemes[t];
        assert Phonemes[..t + 1][..t] == Phonemes[..t];
        out.AppendCsv(FileName(p), mfccDf[p], header);
      }
      assert Phonemes[..|Phonemes|] == Phonemes;
    }

    /** `pipeline`: load the subject's inputs, build the seven tables into
        `mfcc_df` and append each to its label file, with the header iff
        `subject_cntr == 0`. A metadata file without the subject's name or
        type stops it before anything is built or written. */
    method Pipeline(recording: DecodedRecording, annotation: seq<AnnotationRow>, meta: Metadata,
                    out: OutputDir, subjectCntr: int, transform: Transform) returns (ok: bool)
      modifies this, out
      ensures Loaded(recording) && metadata == Some(meta)
      ensures ok == SubjectTablesOf(recording, annotation, meta, transform, shiftSize.value, windowSize.value).Some?
      ensures ok ==> mfccDf == SubjectTablesOf(recording, annotation, meta, transform, shiftSize.value,
                                               windowSize.value).value
      ensures ok ==> IsComplete(mfccDf) && out.files == SaveSubject(old(out.files), mfccDf, subjectCntr == 0)
      ensures !ok ==> mfccDf == old(mfccDf) && out.files == old(out.files)
    {
      LoadAudio(recording);
      LoadMetadata(meta);
      var chunk := LoadAnnotationAsSamples(annotation, sr.value);
      var segments := SegmentAudio(chunk);

      var subject := SubjectOf(metadata.value);
      if subject.None? {
        return false;
      }
      var mbName, status := subject.value.mbName, subject.value.asthmaStatus;
      BuildTables(segments, mbName, status, transform);
      SubjectTablesOfAt(recording, annotation, meta, transform, shiftSize.value, windowSize.value, subject.value, mfccDf);
      SaveTables(out, subjectCntr == 0);
      ok := true;
    }
  }
}
