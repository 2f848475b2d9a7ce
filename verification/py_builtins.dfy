/** The few Python built-ins whose exact semantics the pipeline depends on:
    `None`, `int()` on a float, `math.floor`, slicing with `a[start:end]`
    and `str()` of a non-negative integer. */
module PyBuiltins {

  /** Python's `None` next to a present value. */
  datatype Option<+T> = None | Some(value: T)

  /** `int(x)` for a float `x`: truncation toward zero. */
  function PyInt(x: real): (r: int)
    ensures x >= 0.0 ==> r as real <= x < r as real + 1.0
    ensures x < 0.0 ==> r as real - 1.0 < x <= r as real
  {
    if x >= 0.0 then x.Floor else -((-x).Floor)
  }

  /** `math.floor(x)`: the greatest integer not above `x`. */
  function PyFloor(x: real): (r: int)
    ensures r as real <= x < r as real + 1.0
  {
    x.Floor
  }

  /** `math.floor` is monotone. */
  lemma FloorMonotone(x: real, y: real)
    requires x <= y
    ensures PyFloor(x) <= PyFloor(y)
  {
  }

  /** How a slice bound `i` is adjusted against a sequence of length `n`
      (step 1): a negative bound counts from the end, and the result is
      clamped into `0..n`. */
  function SliceBound(i: int, n: nat): (r: nat)
    ensures r <= n
    ensures 0 <= i <= n ==> r == i
    ensures i > n ==> r == n
    ensures -(n as int) <= i < 0 ==> r == i + n
    ensures i < -(n as int) ==> r == 0
  {
    if i < 0 then (if i + n < 0 then 0 else i + n)
    else if i > n then n
    else i
  }

  /** `a[start:end]` with Python's slice semantics: never an error, empty
      when the adjusted end is not after the adjusted start. */
  function PySlice<T>(a: seq<T>, start: int, end: int): (r: seq<T>)
    ensures SliceBound(end, |a|) <= SliceBound(start, |a|) ==> r == []
    ensures SliceBound(start, |a|) < SliceBound(end, |a|) ==>
              |r| == SliceBound(end, |a|) - SliceBound(start, |a|)
    ensures forall k :: 0 <= k < |r| ==> r[k] == a[SliceBound(start, |a|) + k]
  {
    var s, e := SliceBound(start, |a|), SliceBound(end, |a|);
    if s < e then a[s..e] else []
  }

  /** For in-range bounds a Python slice is exactly Dafny's subsequence:
      index-exact, of length `end - start`. */
  lemma SliceInRange<T>(a: seq<T>, start: int, end: int)
    requires 0 <= start <= end <= |a|
    ensures PySlice(a, start, end) == a[start..end]
    ensures |PySlice(a, start, end)| == end - start
  {
  }

  /** An inverted span gives an empty slice, not an error. */
  lemma SliceInverted<T>(a: seq<T>, start: int, end: int)
    requires 0 <= end <= start
    ensures PySlice(a, start, end) == []
  {
  }

  /** An end past the audio is clipped at its length. */
  lemma SliceClipped<T>(a: seq<T>, start: int, end: int)
    requires 0 <= start <= |a| < end
    ensures PySlice(a, start, end) == a[start..]
  {
  }

  /** One decimal digit as a character. */
  function DigitChar(d: nat): (c: char)
    requires d < 10
    ensures '0' <= c <= '9'
  {
    (48 + d) as char
  }

  predicate IsDigits(s: string)
  {
    forall k :: 0 <= k < |s| ==> '0' <= s[k] <= '9'
  }

  /** The number a string of decimal digits denotes (`int(s)`). */
  function DigitsValue(s: string): nat
    requires IsDigits(s)
    decreases |s|
  {
    if s == [] then 0
    else DigitsValue(s[..|s| - 1]) * 10 + (s[|s| - 1] as int - 48)
  }

  /** `str(n)` for a non-negative integer: its decimal digits, no sign,
      no leading zeros. */
  function NatToString(n: nat): (s: string)
    ensures 1 <= |s|
    ensures IsDigits(s)
    ensures |s| > 1 ==> s[0] != '0'
    ensures DigitsValue(s) == n
    decreases n
  {
    if n < 10 then
      assert [DigitChar(n)][..0] == [];
      [DigitChar(n)]
    else
      var front := NatToString(n / 10);
      assert (front + [DigitChar(n % 10)])[..|front|] == front;
      front + [DigitChar(n % 10)]
  }

  /** Distinct numbers print differently. */
  lemma {:induction false} NatToStringInjective(a: nat, b: nat)
    requires NatToString(a) == NatToString(b)
    ensures a == b
    decreases a
  {
    var s := NatToString(a);
    if a < 10 && b < 10 {
      assert DigitChar(a) == s[0] == DigitChar(b);
    } else if a >= 10 && b >= 10 {
      var n := |s|;
      assert NatToString(a)[..n - 1] == NatToString(a / 10);
      assert NatToString(b)[..n - 1] == NatToString(b / 10);
      NatToStringInjective(a / 10, b / 10);
      assert DigitChar(a % 10) == s[n - 1] == DigitChar(b % 10);
    }
  }
}
