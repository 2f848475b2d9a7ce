/** The per-label feature table of one subject (the body of `pipeline`):
    every frame of every instance of a label becomes one row, tagged with the
    subject's name, the instance tag `"<label>_<idx>"` and the asthma status. */
module Tables {
  import opened PyBuiltins
  import opened Annotations

  /** One written row: the row index (the frame's position inside its
      instance), `mb_name`, the twelve features, `phonon`, `asthma_status`. */
  datatype TableRow = TableRow(index: nat, mbName: string, features: seq<real>,
                               phonon: string, asthmaStatus: string)

  /** The instance tag `f'{label}_{idx}'`. */
  function Tag(p: Phoneme, idx: nat): (t: string)
    ensures |t| == 3 + |NatToString(idx)| && t[..2] == Name(p) && t[2] == '_'
    ensures t[3..] == NatToString(idx)
  {
    Name(p) + "_" + NatToString(idx)
  }

  /** Tags are unique: different labels or different instance indices never
      share a tag. */
  lemma TagInjective(p: Phoneme, i: nat, q: Phoneme, j: nat)
    requires Tag(p, i) == Tag(q, j)
    ensures p == q && i == j
  {
    NameInjective(p, q);
    assert NatToString(i) == Tag(p, i)[3..] == Tag(q, j)[3..] == NatToString(j);
    NatToStringInjective(i, j);
  }

  /** The rows of instance `idx` (`df` in the loop): one per frame, indexed
      from 0. */
  function InstanceRows(p: Phoneme, idx: nat, frames: seq<seq<real>>,
                        mbName: string, status: string): (rows: seq<TableRow>)
    ensures |rows| == |frames|
    ensures forall k :: 0 <= k < |rows| ==>
              rows[k].index == k && rows[k].features == frames[k] && rows[k].phonon == Tag(p, idx)
              && rows[k].mbName == mbName && rows[k].asthmaStatus == status
  {
    seq(|frames|, k requires 0 <= k < |frames| => TableRow(k, mbName, frames[k], Tag(p, idx), status))
  }

  /** The table of a label: the instances' rows concatenated in instance
      order (`pd.concat([mfcc_df, df], ignore_index=False)` per instance). */
  function LabelTable(p: Phoneme, instances: seq<seq<seq<real>>>,
                      mbName: string, status: string): (t: seq<TableRow>)
    ensures forall row :: row in t ==> row.mbName == mbName && row.asthmaStatus == status
    decreases |instances|
  {
    if instances == [] then []
    else
      var n := |instances| - 1;
      LabelTable(p, instances[..n], mbName, status) + InstanceRows(p, n, instances[n], mbName, status)
  }

  /** Total number of frames over all instances. */
  function TotalFrames(instances: seq<seq<seq<real>>>): nat
    decreases |instances|
  {
    if instances == [] then 0
    else
      var n := |instances| - 1;
      TotalFrames(instances[..n]) + |instances[n]|
  }

  /** A label's table has one row per frame of its instances. */
  lemma {:induction false} LabelTableLength(p: Phoneme, instances: seq<seq<seq<real>>>,
                                            mbName: string, status: string)
    ensures |LabelTable(p, instances, mbName, status)| == TotalFrames(instances)
    decreases |instances|
  {
    if instances != [] {
      LabelTableLength(p, instances[..|instances| - 1], mbName, status);
    }
  }

  /** Frame `k` of instance `i` is at position `TotalFrames(instances[..i]) + k`
      of the table, with row index `k`, the subject's name and status and the
      tag of instance `i`, whatever the sizes of the earlier instances (an
      instance without frames adds no rows and shifts no later tag). */
  lemma {:induction false} LabelTableAt(p: Phoneme, instances: seq<seq<seq<real>>>,
                                        mbName: string, status: string, i: nat, k: nat)
    requires i < |instances| && k < |instances[i]|
    ensures TotalFrames(instances[..i]) + k < |LabelTable(p, instances, mbName, status)|
    ensures LabelTable(p, instances, mbName, status)[TotalFrames(instances[..i]) + k]
            == TableRow(k, mbName, instances[i][k], Tag(p, i), status)
    decreases |instances|
  {
    var n := |instances| - 1;
    var init := instances[..n];
    LabelTableLength(p, init, mbName, status);
    if i == n {
      assert instances[..i] == init;
    } else {
      assert init[..i] == instances[..i];
      LabelTableAt(p, init, mbName, status, i, k);
    }
  }

  /** Every row of a label's table carries the subject's name and status and
      comes from a frame of some instance, under that instance's tag. */
  lemma {:induction false} LabelTableRowOrigin(p: Phoneme, instances: seq<seq<seq<real>>>,
                                               mbName: string, status: string, j: nat)
    requires j < |LabelTable(p, instances, mbName, status)|
    ensures var row := LabelTable(p, instances, mbName, status)[j];
            row.mbName == mbName && row.asthmaStatus == status &&
            exists i :: 0 <= i < |instances| && row.phonon == Tag(p, i) &&
                        row.index < |instances[i]| && row.features == instances[i][row.index]
    decreases |instances|
  {
    var n := |instances| - 1;
    var init := instances[..n];
    var head := LabelTable(p, init, mbName, status);
    if j < |head| {
      LabelTableRowOrigin(p, init, mbName, status, j);
      var i :| 0 <= i < |init| && head[j].phonon == Tag(p, i) &&
               head[j].index < |init[i]| && head[j].features == init[i][head[j].index];
      assert init[i] == instances[i];
    } else {
      var row := LabelTable(p, instances, mbName, status)[j];
      assert row.phonon == Tag(p, n) && row.index < |instances[n]|;
    }
  }

  /** When every instance yields rows of `width` features, so does every row. */
  lemma LabelTableWidth(p: Phoneme, instances: seq<seq<seq<real>>>,
                        mbName: string, status: string, width: nat)
    requires forall i, f :: 0 <= i < |instances| && 0 <= f < |instances[i]| ==> |instances[i][f]| == width
    ensures forall row :: row in LabelTable(p, instances, mbName, status) ==> |row.features| == width
  {
    var t := LabelTable(p, instances, mbName, status);
    forall row | row in t
      ensures |row.features| == width
    {
      var j :| 0 <= j < |t| && t[j] == row;
      LabelTableRowOrigin(p, instances, mbName, status, j);
    }
  }

  /** The rows whose `phonon` column equals `tag`, in table order. */
  function WithTag(rows: seq<TableRow>, tag: string): seq<TableRow>
  {
    if rows == [] then []
    else (if rows[0].phonon == tag then [rows[0]] else []) + WithTag(rows[1..], tag)
  }

  lemma {:induction false} WithTagAppend(a: seq<TableRow>, b: seq<TableRow>, tag: string)
    ensures WithTag(a + b, tag) == WithTag(a, tag) + WithTag(b, tag)
  {
    if a == [] {
      assert a + b == b;
    } else {
      assert (a + b)[1..] == a[1..] + b;
      WithTagAppend(a[1..], b, tag);
    }
  }

  lemma {:induction false} WithTagUniform(rows: seq<TableRow>, rowTag: string, tag: string)
    requires forall k :: 0 <= k < |rows| ==> rows[k].phonon == rowTag
    ensures WithTag(rows, tag) == if rowTag == tag then rows else []
  {
    if rows != [] {
      WithTagUniform(rows[1..], rowTag, tag);
    }
  }

  /** Selecting one instance's rows by a tag keeps them all when it is the
      instance's own tag and drops them all otherwise. */
  lemma InstanceRowsByTag(p: Phoneme, idx: nat, frames: seq<seq<real>>, mbName: string, status: string, i: nat)
    ensures WithTag(InstanceRows(p, idx, frames, mbName, status), Tag(p, i))
            == if i == idx then InstanceRows(p, idx, frames, mbName, status) else []
  {
    if i != idx && Tag(p, idx) == Tag(p, i) {
      TagInjective(p, idx, p, i);
    }
    WithTagUniform(InstanceRows(p, idx, frames, mbName, status), Tag(p, idx), Tag(p, i));
  }

  /** Selecting a label's table by the tag of instance `i` gives back exactly
      that instance's rows, in frame order, indexed from 0, and nothing for
      an index past the last instance. */
  lemma {:induction false} InstanceByTag(p: Phoneme, instances: seq<seq<seq<real>>>,
                                         mbName: string, status: string, i: nat)
    ensures WithTag(LabelTable(p, instances, mbName, status), Tag(p, i))
            == if i < |instances| then InstanceRows(p, i, instances[i], mbName, status) else []
    decreases |instances|
  {
    if instances != [] {
      var n := |instances| - 1;
      var init := instances[..n];
      var last := InstanceRows(p, n, instances[n], mbName, status);
      WithTagAppend(LabelTable(p, init, mbName, status), last, Tag(p, i));
      InstanceByTag(p, init, mbName, status, i);
      InstanceRowsByTag(p, n, instances[n], mbName, status, i);
      if i < n {
        assert init[i] == instances[i];
      }
    }
  }
}
