/** The annotation file of one subject: rows `(start, end, type)` with times
    in seconds, converted to sample indices and split into the seven
    phoneme groups. */
module Annotations {
  import opened PyBuiltins

  /** The seven phoneme labels the pipeline builds tables for. */
  datatype Phoneme = AA | EE | II | XX | OO | UU | YY

  /** The label as it is written in the annotation file and in file names. */
  function Name(p: Phoneme): (s: string)
    ensures |s| == 2
  {
    match p
    case AA => "aa"
    case EE => "ee"
    case II => "ii"
    case XX => "xx"
    case OO => "oo"
    case UU => "uu"
    case YY => "yy"
  }

  /** The labels in the order the pipeline visits them. */
  const Phonemes: seq<Phoneme> := [AA, EE, II, XX, OO, UU, YY]

  lemma NameInjective(p: Phoneme, q: Phoneme)
    requires Name(p) == Name(q)
    ensures p == q
  {
    assert Name(p)[0] == Name(q)[0];
  }

  lemma PhonemesListed(p: Phoneme)
    ensures p in Phonemes
  {
  }

  /** One row of the annotation file as read: times in seconds. */
  datatype AnnotationRow = AnnotationRow(start: real, end: real, kind: string)

  /** The same row with its times converted to sample indices. */
  datatype SampleRow = SampleRow(start: int, end: int, kind: string)

  /** `math.floor(t * sr)`. */
  function TimeToSample(t: real, sr: int): (i: int)
    ensures i as real <= t * sr as real < i as real + 1.0
  {
    PyFloor(t * sr as real)
  }

  /** The same conversion is applied to both ends, so a well-ordered span
      stays well-ordered. */
  lemma TimeToSampleMonotone(t1: real, t2: real, sr: int)
    requires 0 <= sr
    requires t1 <= t2
    ensures TimeToSample(t1, sr) <= TimeToSample(t2, sr)
  {
    assert t1 * sr as real <= t2 * sr as real;
    FloorMonotone(t1 * sr as real, t2 * sr as real);
  }

  function ToSampleRow(row: AnnotationRow, sr: int): (r: SampleRow)
    ensures r.kind == row.kind
    ensures r.start as real <= row.start * sr as real < r.start as real + 1.0
    ensures r.end as real <= row.end * sr as real < r.end as real + 1.0
    ensures row.start <= row.end && 0 <= sr ==> r.start <= r.end
  {
    var r := SampleRow(TimeToSample(row.start, sr), TimeToSample(row.end, sr), row.kind);
    if row.start <= row.end && 0 <= sr then
      TimeToSampleMonotone(row.start, row.end, sr); r
    else r
  }

  /** Every row of the file, converted, in file order. */
  function ToSamples(rows: seq<AnnotationRow>, sr: int): (r: seq<SampleRow>)
    ensures |r| == |rows|
    ensures forall i :: 0 <= i < |rows| ==> r[i] == ToSampleRow(rows[i], sr)
  {
    seq(|rows|, i requires 0 <= i < |rows| => ToSampleRow(rows[i], sr))
  }

  /** The rows labelled `p`, in file order (`df.loc[df['type'] == p]`). */
  function Group(rows: seq<SampleRow>, p: Phoneme): (g: seq<SampleRow>)
    ensures |g| <= |rows|
    ensures forall r :: r in g ==> r.kind == Name(p)
  {
    if rows == [] then []
    else (if rows[0].kind == Name(p) then [rows[0]] else []) + Group(rows[1..], p)
  }

  /** A row is in the group of `p` exactly when it is in the file with
      label `p`; in particular a row with any other label is in no group. */
  lemma {:induction false} GroupMembership(rows: seq<SampleRow>, p: Phoneme, r: SampleRow)
    ensures r in Group(rows, p) <==> r in rows && r.kind == Name(p)
  {
    if rows != [] {
      GroupMembership(rows[1..], p, r);
      assert rows == [rows[0]] + rows[1..];
    }
  }

  /** Grouping keeps file order: the group of a file made of two parts is
      the group of the first part followed by the group of the second. */
  lemma {:induction false} GroupAppend(a: seq<SampleRow>, b: seq<SampleRow>, p: Phoneme)
    ensures Group(a + b, p) == Group(a, p) + Group(b, p)
  {
    if a != [] {
      assert (a + b)[1..] == a[1..] + b;
      GroupAppend(a[1..], b, p);
    } else {
      assert a + b == b;
    }
  }

  /** The label groups of one annotation file (`__load_anotation_as_samples`):
      all seven keys are present, each holding the converted rows with that
      label in file order; rows with other labels are dropped. */
  function LoadAnnotationAsSamples(rows: seq<AnnotationRow>, sr: int): (chunk: map<Phoneme, seq<SampleRow>>)
    ensures forall p :: p in chunk
    ensures forall p :: p in chunk ==> chunk[p] == Group(ToSamples(rows, sr), p)
  {
    assert forall p: Phoneme :: p in Phonemes by {
      forall p: Phoneme ensures p in Phonemes { PhonemesListed(p); }
    }
    map p | p in Phonemes :: Group(ToSamples(rows, sr), p)
  }

  /** The `i`-th row of the `p` group is the conversion of a row of the file
      labelled `p`. */
  lemma ChunkRowFromFile(rows: seq<AnnotationRow>, sr: int, p: Phoneme, i: nat)
    requires i < |LoadAnnotationAsSamples(rows, sr)[p]|
    ensures exists j :: 0 <= j < |rows| && rows[j].kind == Name(p) &&
                        LoadAnnotationAsSamples(rows, sr)[p][i] == ToSampleRow(rows[j], sr)
  {
    var samples := ToSamples(rows, sr);
    var r := LoadAnnotationAsSamples(rows, sr)[p][i];
    GroupMembership(samples, p, r);
    var j :| 0 <= j < |samples| && samples[j] == r;
    assert rows[j].kind == r.kind;
  }
}
