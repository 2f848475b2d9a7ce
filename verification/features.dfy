/** The MFCC step (`__convert_audio_to_mfcc`). The transform itself belongs to
    an external signal-processing library and is a parameter here: all the
    model relies on is that it returns one row per coefficient, every row
    with the same number of frames. */
module Features {

  /** Coefficients requested from the transform. */
  const NumMfcc: nat := 13
  /** Mel bands requested from the transform. */
  const NumMels: nat := 32
  /** Coefficients kept per frame: all but the first. */
  const NumFeatures: nat := 12

  /** The feature column names, one per kept coefficient. */
  const FeatureCols: seq<string> :=
    ["f1", "f2", "f3", "f4", "f5", "f6", "f7", "f8", "f9", "f10", "f11", "f12"]

  /** Coefficient-major output: `NumMfcc` rows of equal length (the frames). */
  predicate IsCoefficientMatrix(m: seq<seq<real>>)
  {
    |m| == NumMfcc && forall c :: 0 <= c < |m| ==> |m[c]| == |m[0]|
  }

  type MfccMatrix = m: seq<seq<real>> | IsCoefficientMatrix(m)
    witness seq(13, c => [])

  /** The arguments the pipeline passes to the transform besides the samples. */
  datatype MfccCall = MfccCall(sr: int, nMfcc: nat, hopLength: int, winLength: int, nMels: nat)

  /** The external MFCC transform. */
  type Transform = (seq<real>, MfccCall) -> MfccMatrix

  /** Number of frames of a transform output. */
  function Frames(m: MfccMatrix): nat
  {
    |m[0]|
  }

  /** `m[1:].T`: drop the first coefficient row and make frames the rows. */
  function DropFirstTransposed(m: MfccMatrix): (r: seq<seq<real>>)
    ensures |r| == Frames(m)
    ensures forall f :: 0 <= f < |r| ==> |r[f]| == NumFeatures
    ensures forall f, c :: 0 <= f < |r| && 0 <= c < NumFeatures ==> r[f][c] == m[c + 1][f]
  {
    seq(Frames(m), f requires 0 <= f < Frames(m) =>
      seq(NumFeatures, c requires 0 <= c < NumFeatures => m[c + 1][f]))
  }

  /** Frame-major rows back to coefficient-major columns. */
  function Columns(r: seq<seq<real>>, width: nat): (cols: seq<seq<real>>)
    requires forall f :: 0 <= f < |r| ==> |r[f]| == width
  {
    seq(width, c requires 0 <= c < width => seq(|r|, f requires 0 <= f < |r| => r[f][c]))
  }

  /** Nothing but the first coefficient is lost: putting the first row back
      in front of the transposed features gives the transform output again. */
  lemma DropFirstRoundTrip(m: MfccMatrix)
    ensures [m[0]] + Columns(DropFirstTransposed(m), NumFeatures) == m
  {
    var r := DropFirstTransposed(m);
    var back := [m[0]] + Columns(r, NumFeatures);
    assert |back| == |m|;
    forall c | 0 <= c < |m|
      ensures back[c] == m[c]
    {
      if c > 0 {
        assert |back[c]| == |r| == |m[c]|;
        forall f | 0 <= f < |m[c]|
          ensures back[c][f] == m[c][f]
        {
          assert back[c][f] == r[f][c - 1];
        }
      }
    }
  }

  /** The feature matrix of one segment: the transform called with the
      pipeline's fixed arguments, then `DropFirstTransposed`. Every row has
      exactly the twelve feature columns, and there is one row per frame. */
  function ConvertAudioToMfcc(transform: Transform, audio: seq<real>, sr: int,
                              shiftSize: int, windowSize: int): (r: seq<seq<real>>)
    ensures |r| == Frames(transform(audio, MfccCall(sr, NumMfcc, shiftSize, windowSize, NumMels)))
    ensures forall f :: 0 <= f < |r| ==> |r[f]| == NumFeatures == |FeatureCols|
    ensures forall f, c :: 0 <= f < |r| && 0 <= c < NumFeatures ==>
              r[f][c] == transform(audio, MfccCall(sr, NumMfcc, shiftSize, windowSize, NumMels))[c + 1][f]
  {
    DropFirstTransposed(transform(audio, MfccCall(sr, NumMfcc, shiftSize, windowSize, NumMels)))
  }
}
