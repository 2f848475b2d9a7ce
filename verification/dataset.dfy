/** The output directory: one CSV file per label, only ever appended to
    (`to_csv(..., mode='a', index=True, header=...)`). A file is kept as the
    sequence of its lines; the text formatting of a line is not modelled. */
module Dataset {
  import opened Annotations
  import opened Features
  import opened Tables

  /** The table's columns after the index column. */
  const OutputColumns: seq<string> := ["mb_name"] + FeatureCols + ["phonon", "asthma_status"]

  datatype CsvLine = HeaderLine(columns: seq<string>) | DataLine(row: TableRow)

  /** The files of the output directory, by file name. */
  type Files = map<string, seq<CsvLine>>

  /** The per-label tables of one subject (`self.mfcc_df`). */
  type SubjectTables = map<Phoneme, seq<TableRow>>

  predicate IsComplete(tables: SubjectTables)
  {
    forall p :: p in tables
  }

  /** `f'{label}.csv'`. */
  function FileName(p: Phoneme): (name: string)
    ensures |name| == 6 && name[..2] == Name(p) && name[2..] == ".csv"
  {
    Name(p) + ".csv"
  }

  lemma FileNameInjective(p: Phoneme, q: Phoneme)
    requires FileName(p) == FileName(q)
    ensures p == q
  {
    NameInjective(p, q);
  }

  /** One data line per row, in table order. */
  function DataLines(rows: seq<TableRow>): seq<CsvLine>
  {
    seq(|rows|, k requires 0 <= k < |rows| => DataLine(rows[k]))
  }

  function CountHeaders(lines: seq<CsvLine>): nat
  {
    if lines == [] then 0
    else (if lines[0].HeaderLine? then 1 else 0) + CountHeaders(lines[1..])
  }

  lemma {:induction false} CountHeadersAppend(a: seq<CsvLine>, b: seq<CsvLine>)
    ensures CountHeaders(a + b) == CountHeaders(a) + CountHeaders(b)
  {
    if a == [] {
      assert a + b == b;
    } else {
      assert (a + b)[1..] == a[1..] + b;
      CountHeadersAppend(a[1..], b);
    }
  }

  lemma {:induction false} DataLinesHaveNoHeader(rows: seq<TableRow>)
    ensures CountHeaders(DataLines(rows)) == 0
  {
    if rows != [] {
      assert DataLines(rows)[1..] == DataLines(rows[1..]);
      DataLinesHaveNoHeader(rows[1..]);
    }
  }

  lemma DataLinesAppend(a: seq<TableRow>, b: seq<TableRow>)
    ensures DataLines(a + b) == DataLines(a) + DataLines(b)
  {
  }

  /** The lines one `to_csv` call appends: the header line iff `header`,
      then one line per row, in table order. */
  function ToCsv(rows: seq<TableRow>, header: bool): (lines: seq<CsvLine>)
    ensures |lines| == |rows| + (if header then 1 else 0)
    ensures CountHeaders(lines) == if header then 1 else 0
    ensures header ==> lines[0] == HeaderLine(OutputColumns)
    ensures lines[(if header then 1 else 0)..] == DataLines(rows)
  {
    var h := if header then [HeaderLine(OutputColumns)] else [];
    CountHeadersAppend(h, DataLines(rows));
    DataLinesHaveNoHeader(rows);
    h + DataLines(rows)
  }

  /** What a file holds; a file that does not exist yet reads as empty. */
  function Contents(files: Files, name: string): seq<CsvLine>
  {
    if name in files then files[name] else []
  }

  /** Appending with `mode='a'` creates the file when it is missing. */
  function Appended(files: Files, name: string, lines: seq<CsvLine>): (r: Files)
    ensures Contents(r, name) == Contents(files, name) + lines
    ensures forall other :: other != name ==> Contents(r, other) == Contents(files, other)
  {
    files[name := Contents(files, name) + lines]
  }

  /** The saving loop of `pipeline` over the labels `ps`, in order. */
  function SaveLabels(files: Files, ps: seq<Phoneme>, tables: SubjectTables, header: bool): Files
    requires IsComplete(tables)
    decreases |ps|
  {
    if ps == [] then files
    else
      var n := |ps| - 1;
      Appended(SaveLabels(files, ps[..n], tables, header), FileName(ps[n]), ToCsv(tables[ps[n]], header))
  }

  /** A file that belongs to none of the labels `ps` is left alone. */
  lemma {:induction false} SaveLabelsElsewhere(files: Files, ps: seq<Phoneme>, tables: SubjectTables,
                                               header: bool, name: string)
    requires IsComplete(tables)
    requires forall q :: q in ps ==> FileName(q) != name
    ensures Contents(SaveLabels(files, ps, tables, header), name) == Contents(files, name)
    decreases |ps|
  {
    if ps != [] {
      SaveLabelsElsewhere(files, ps[..|ps| - 1], tables, header, name);
    }
  }

  /** The file of a label visited once receives exactly that label's lines. */
  lemma {:induction false} SaveLabelsAt(files: Files, ps: seq<Phoneme>, tables: SubjectTables,
                                        header: bool, p: Phoneme)
    requires IsComplete(tables)
    requires forall i, j :: 0 <= i < j < |ps| ==> ps[i] != ps[j]
    requires p in ps
    ensures Contents(SaveLabels(files, ps, tables, header), FileName(p))
            == Contents(files, FileName(p)) + ToCsv(tables[p], header)
    decreases |ps|
  {
    var n := |ps| - 1;
    var init := ps[..n];
    if ps[n] == p {
      forall q | q in init
        ensures FileName(q) != FileName(p)
      {
        if FileName(q) == FileName(p) {
          FileNameInjective(q, p);
        }
      }
      SaveLabelsElsewhere(files, init, tables, header, FileName(p));
    } else {
      assert p in init by {
        var i :| 0 <= i < |ps| && ps[i] == p;
        assert init[i] == p;
      }
      if FileName(ps[n]) == FileName(p) {
        FileNameInjective(ps[n], p);
      }
      SaveLabelsAt(files, init, tables, header, p);
    }
  }

  /** The saving loop only appends (`mode='a'`): every file's old content
      is a prefix of its new content. */
  lemma {:induction false} SaveLabelsOnlyAppends(files: Files, ps: seq<Phoneme>, tables: SubjectTables,
                                                 header: bool, name: string)
    requires IsComplete(tables)
    ensures Contents(files, name) <= Contents(SaveLabels(files, ps, tables, header), name)
    decreases |ps|
  {
    if ps != [] {
      SaveLabelsOnlyAppends(files, ps[..|ps| - 1], tables, header, name);
    }
  }

  /** One subject's save step: each of the seven label files gets that
      label's table, with a header line iff `header`. */
  function SaveSubject(files: Files, tables: SubjectTables, header: bool): Files
    requires IsComplete(tables)
  {
    SaveLabels(files, Phonemes, tables, header)
  }

  lemma SaveSubjectEffect(files: Files, tables: SubjectTables, header: bool, p: Phoneme)
    requires IsComplete(tables)
    ensures Contents(SaveSubject(files, tables, header), FileName(p))
            == Contents(files, FileName(p)) + ToCsv(tables[p], header)
  {
    PhonemesListed(p);
    SaveLabelsAt(files, Phonemes, tables, header, p);
  }

  /** The save steps of a whole run, subject by subject; the header flag is
      `subject_cntr == 0`, true for the first subject only. */
  function SaveRun(files: Files, subjects: seq<SubjectTables>): Files
    requires forall i :: 0 <= i < |subjects| ==> IsComplete(subjects[i])
    decreases |subjects|
  {
    if subjects == [] then files
    else
      var n := |subjects| - 1;
      SaveSubject(SaveRun(files, subjects[..n]), subjects[n], n == 0)
  }

  lemma PrefixTransitive<T>(a: seq<T>, b: seq<T>, c: seq<T>)
    requires a <= b && b <= c
    ensures a <= c
  {
  }

  /** A whole run only appends: no file loses or changes a line it held
      before the run. */
  lemma {:induction false} SaveRunOnlyAppends(files: Files, subjects: seq<SubjectTables>, name: string)
    requires forall i :: 0 <= i < |subjects| ==> IsComplete(subjects[i])
    ensures Contents(files, name) <= Contents(SaveRun(files, subjects), name)
    decreases |subjects|
  {
    if subjects != [] {
      var n := |subjects| - 1;
      var before := SaveRun(files, subjects[..n]);
      assert IsComplete(subjects[n]);
      var after := SaveLabels(before, Phonemes, subjects[n], n == 0);
      assert SaveRun(files, subjects) == after;
      SaveRunOnlyAppends(files, subjects[..n], name);
      SaveLabelsOnlyAppends(before, Phonemes, subjects[n], n == 0, name);
      PrefixTransitive(Contents(files, name), Contents(before, name), Contents(after, name));
    }
  }

  /** Saving one more subject: its tables go after the earlier subjects'
      output, with headers only when it is the first. */
  lemma SaveRunSnoc(files: Files, subjects: seq<SubjectTables>, tables: SubjectTables)
    requires forall i :: 0 <= i < |subjects| ==> IsComplete(subjects[i])
    requires IsComplete(tables)
    ensures forall i :: 0 <= i < |subjects + [tables]| ==> IsComplete((subjects + [tables])[i])
    ensures SaveRun(files, subjects + [tables]) == SaveSubject(SaveRun(files, subjects), tables, subjects == [])
  {
    assert (subjects + [tables])[..|subjects|] == subjects;
  }

  /** The rows of label `p` over all subjects, in run order. */
  function RunRows(subjects: seq<SubjectTables>, p: Phoneme): seq<TableRow>
    requires forall i :: 0 <= i < |subjects| ==> IsComplete(subjects[i])
    decreases |subjects|
  {
    if subjects == [] then []
    else
      var n := |subjects| - 1;
      assert IsComplete(subjects[n]);
      RunRows(subjects[..n], p) + subjects[n][p]
  }

  /** The lines a run appends to the file of label `p`. */
  function RunLines(subjects: seq<SubjectTables>, p: Phoneme): seq<CsvLine>
    requires forall i :: 0 <= i < |subjects| ==> IsComplete(subjects[i])
  {
    (if subjects == [] then [] else [HeaderLine(OutputColumns)]) + DataLines(RunRows(subjects, p))
  }

  /** The lines of the last subject of a run extend the lines of the others. */
  lemma RunLinesStep(subjects: seq<SubjectTables>, p: Phoneme)
    requires forall i :: 0 <= i < |subjects| ==> IsComplete(subjects[i])
    requires subjects != []
    ensures var n := |subjects| - 1;
            IsComplete(subjects[n]) &&
            RunLines(subjects, p) == RunLines(subjects[..n], p) + ToCsv(subjects[n][p], n == 0)
  {
    var n := |subjects| - 1;
    var init, last := subjects[..n], subjects[n];
    assert IsComplete(last);
    assert RunRows(subjects, p) == RunRows(init, p) + last[p];
    DataLinesAppend(RunRows(init, p), last[p]);
    if n == 0 {
      assert RunRows(init, p) == [];
    }
  }

  /** The last subject of a run appends its own lines to each label file. */
  lemma SaveRunStep(files: Files, subjects: seq<SubjectTables>, p: Phoneme)
    requires forall i :: 0 <= i < |subjects| ==> IsComplete(subjects[i])
    requires subjects != []
    ensures var n := |subjects| - 1;
            IsComplete(subjects[n]) &&
            Contents(SaveRun(files, subjects), FileName(p))
            == Contents(SaveRun(files, subjects[..n]), FileName(p)) + ToCsv(subjects[n][p], n == 0)
  {
    var n := |subjects| - 1;
    assert IsComplete(subjects[n]);
    SaveSubjectEffect(SaveRun(files, subjects[..n]), subjects[n], n == 0, p);
  }

  lemma Regroup<T>(whole: seq<T>, front: seq<T>, a: seq<T>, b: seq<T>, c: seq<T>, tail: seq<T>)
    requires whole == front + c && front == a + b && tail == b + c
    ensures whole == a + tail
  {
  }

  lemma SaveRunContentsStep(files: Files, subjects: seq<SubjectTables>, p: Phoneme)
    requires forall i :: 0 <= i < |subjects| ==> IsComplete(subjects[i])
    requires subjects != []
    requires Contents(SaveRun(files, subjects[..|subjects| - 1]), FileName(p))
             == Contents(files, FileName(p)) + RunLines(subjects[..|subjects| - 1], p)
    ensures Contents(SaveRun(files, subjects), FileName(p)) == Contents(files, FileName(p)) + RunLines(subjects, p)
  {
    var n := |subjects| - 1;
    var whole, front := Contents(SaveRun(files, subjects), FileName(p)), Contents(SaveRun(files, subjects[..n]), FileName(p));
    var a, b := Contents(files, FileName(p)), RunLines(subjects[..n], p);
    assert IsComplete(subjects[n]);
    var c, tail := ToCsv(subjects[n][p], n == 0), RunLines(subjects, p);
    assert whole == front + c by { SaveRunStep(files, subjects, p); }
    assert tail == b + c by { RunLinesStep(subjects, p); }
    Regroup(whole, front, a, b, c, tail);
  }

  lemma {:induction false} SaveRunContents(files: Files, subjects: seq<SubjectTables>, p: Phoneme)
    requires forall i :: 0 <= i < |subjects| ==> IsComplete(subjects[i])
    ensures Contents(SaveRun(files, subjects), FileName(p)) == Contents(files, FileName(p)) + RunLines(subjects, p)
    decreases |subjects|
  {
    if subjects != [] {
      SaveRunContents(files, subjects[..|subjects| - 1], p);
      SaveRunContentsStep(files, subjects, p);
    }
  }

  /** Header-once: over a run, the file of each label receives exactly one
      header line, as the first line the run writes to it, followed by every
      subject's rows in run order; a run that processes no subject appends
      nothing. */
  lemma HeaderWrittenOnce(files: Files, subjects: seq<SubjectTables>, p: Phoneme)
    requires forall i :: 0 <= i < |subjects| ==> IsComplete(subjects[i])
    ensures Contents(SaveRun(files, subjects), FileName(p)) == Contents(files, FileName(p)) + RunLines(subjects, p)
    ensures CountHeaders(RunLines(subjects, p)) == if subjects == [] then 0 else 1
    ensures subjects != [] ==> RunLines(subjects, p)[0] == HeaderLine(OutputColumns)
    ensures |RunLines(subjects, p)| == |RunRows(subjects, p)| + (if subjects == [] then 0 else 1)
  {
    SaveRunContents(files, subjects, p);
    var h := if subjects == [] then [] else [HeaderLine(OutputColumns)];
    CountHeadersAppend(h, DataLines(RunRows(subjects, p)));
    DataLinesHaveNoHeader(RunRows(subjects, p));
  }

  /** Files whose names belong to no label are never touched by a run. */
  lemma {:induction false} SaveRunElsewhere(files: Files, subjects: seq<SubjectTables>, name: string)
    requires forall i :: 0 <= i < |subjects| ==> IsComplete(subjects[i])
    requires forall p :: FileName(p) != name
    ensures Contents(SaveRun(files, subjects), name) == Contents(files, name)
    decreases |subjects|
  {
    if subjects != [] {
      var n := |subjects| - 1;
      SaveRunElsewhere(files, subjects[..n], name);
      SaveLabelsElsewhere(SaveRun(files, subjects[..n]), Phonemes, subjects[n], n == 0, name);
    }
  }

  /** The save directory, whose files outlive the run. */
  class OutputDir {
    var files: Files

    constructor (existing: Files)
      ensures files == existing
    {
      files := existing;
    }

    /** `DataFrame.to_csv(name, mode='a', index=True, header=header)`. */
    method AppendCsv(name: string, rows: seq<TableRow>, header: bool)
      modifies this
      ensures files == Appended(old(files), name, ToCsv(rows, header))
    {
      files := Appended(files, name, ToCsv(rows, header));
    }
  }
}
