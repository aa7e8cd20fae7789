/** The loop of `PoolsGet` (go_hds_restapi.go:680-1041) over the decoded
    pool records, with its one reused `PoolInfo` struct, and the output
    dispatch `OutputStandardFormat` (1272-1306). In console mode each
    classified pool's table is printed as soon as it is built; in CSV mode
    the rows of all pools are accumulated and printed once, after the
    loop. A record that fails ends the run; what was printed before stays
    printed. */
module PoolListing {
  import opened Wrappers
  import opened Pools
  import opened PoolRows
  import opened Output

  /** `Parameters.OutputStyle`, already restricted to its two valid
      values when the program starts. */
  datatype OutputStyle = Stdout | Csv

  /** `Parameters.CSVString`. */
  const CsvSeparator: string := ","

  /** What one call of `OutputStandardFormat` prints. */
  datatype Printed = TableOutput(table: Option<seq<seq<string>>>) | CsvOutput(lines: seq<string>)

  /** `OutputStandardFormat`: the console table or the CSV text of `data`. */
  method OutputStandardFormat(data: seq<seq<string>>, style: OutputStyle, timestamp: string) returns (printed: Printed)
    requires WellFormed(data, ElementStringStart, ElementStringEnd)
    ensures style == Stdout ==> printed == TableOutput(if data == [] then None else Some(TableRows(data, ElementStringStart, ElementStringEnd)))
    ensures style == Csv ==> printed == CsvOutput(CsvLines(data, ElementStringStart, ElementStringEnd, CsvSeparator, timestamp))
  {
    match style
    case Stdout =>
      var table := OutputTable(data, ElementStringStart, ElementStringEnd);
      printed := TableOutput(table);
    case Csv =>
      var lines := OutputCSV(data, ElementStringStart, ElementStringEnd, CsvSeparator, timestamp);
      printed := CsvOutput(lines);
  }

  /** The figures of the classified records, in order, up to the first
      record that fails, and that failure. */
  function Scan(records: seq<PoolRecord>): (result: (seq<PoolFigures>, Option<PoolError>))
    ensures |result.0| <= |records|
  {
    if records == [] then ([], None)
    else
      var (figures, failure) := Scan(records[..|records| - 1]);
      if failure.Some? then (figures, failure)
      else
        match Derive(records[|records| - 1])
        case Failure(e) => (figures, Some(e))
        case Success(None) => (figures, None)
        case Success(Some(f)) => (figures + [f], None)
  }

  /** The structs shown for the figures: each pool's eight fields written
      over a struct that starts out empty. */
  function Shown(figures: seq<PoolFigures>, format: Formatter): (elements: seq<PoolInfo>)
    ensures |elements| == |figures|
    ensures forall k :: 0 <= k < |figures| ==> elements[k] == Fill(EmptyPoolInfo, figures[k], format)
  {
    seq(|figures|, k requires 0 <= k < |figures| => Fill(EmptyPoolInfo, figures[k], format))
  }

  /** The console tables of the figures, one per pool. */
  function Tables(figures: seq<PoolFigures>, format: Formatter): (printed: seq<Printed>)
    ensures |printed| == |figures|
    ensures forall k :: 0 <= k < |figures| ==>
              printed[k] == TableOutput(Some(LabelledRows(TableLabels, Values(Fill(EmptyPoolInfo, figures[k], format)))))
  {
    seq(|figures|, k requires 0 <= k < |figures| =>
      TableOutput(Some(LabelledRows(TableLabels, Values(Fill(EmptyPoolInfo, figures[k], format))))))
  }

  /** The CSV text of the figures: the header and one line per pool, or
      nothing at all when no pool was classified. */
  function CsvText(figures: seq<PoolFigures>, format: Formatter, timestamp: string): seq<string>
  {
    if figures == [] then []
    else [Joined(TimeLabel, CsvLabels, CsvSeparator)] + ValueLines(Shown(figures, format), CsvSeparator, timestamp)
  }

  /** The end of the loop body for one classified pool: its figures are
      written over the reused struct, whose table is printed at once in
      console mode or whose rows are appended to the CSV data. */
  method ShowPool(element: PoolInfo, f: PoolFigures, style: OutputStyle, format: Formatter, timestamp: string,
                  outData: seq<seq<string>>, printed: seq<Printed>, ghost figures: seq<PoolFigures>)
    returns (element': PoolInfo, outData': seq<seq<string>>, printed': seq<Printed>)
    requires style == Stdout ==> printed == Tables(figures, format)
    requires style == Csv ==> printed == [] && outData == CsvData(Shown(figures, format))
    ensures element' == Fill(element, f, format)
    ensures style == Stdout ==> printed' == Tables(figures + [f], format)
    ensures style == Csv ==> printed' == [] && outData' == CsvData(Shown(figures + [f], format))
  {
    OutputStep(figures, f, element, format);
    element' := Fill(element, f, format);
    printed' := printed;
    match style {
      case Stdout =>
        outData' := PoolInfoFormatTable(element');
        var shown := OutputStandardFormat(outData', style, timestamp);
        printed' := printed + [shown];
      case Csv =>
        outData' := PoolInfoFormatCSV(outData, element');
    }
  }

  /** The loop of `PoolsGet` over the records: console tables are printed
      as pools are classified, CSV rows only accumulated. */
  method ShowPools(records: seq<PoolRecord>, style: OutputStyle, format: Formatter, timestamp: string)
    returns (printed: seq<Printed>, failure: Option<PoolError>, outData: seq<seq<string>>)
    ensures failure == Scan(records).1
    ensures style == Stdout ==> printed == Tables(Scan(records).0, format)
    ensures style == Csv ==> printed == []
    ensures style == Csv && failure.None? ==> outData == CsvData(Shown(Scan(records).0, format))
  {
    var element := EmptyPoolInfo;
    outData := [];
    ghost var figures: seq<PoolFigures> := [];
    printed := [];
    failure := None;
    var i := 0;
    while i < |records|
      invariant 0 <= i <= |records|
      invariant Scan(records[..i]) == (figures, None)
      invariant style == Stdout ==> printed == Tables(figures, format)
      invariant style == Csv ==> printed == [] && outData == CsvData(Shown(figures, format))
    {
      var derived := Derive(records[i]);
      if derived.Failure? {
        failure := Some(derived.error);
        assert Scan(records) == (figures, failure) by {
          ScanStep(records, i);
          ScanKeepsFailure(records[..i + 1], records[i + 1..]);
          assert records[..i + 1] + records[i + 1..] == records;
        }
        return;
      }
      if derived.value.Some? {
        var f := derived.value.value;
        element, outData, printed := ShowPool(element, f, style, format, timestamp, outData, printed, figures);
        assert Scan(records[..i + 1]) == (figures + [f], None) by {
          ScanStep(records, i);
        }
        figures := figures + [f];
      } else {
        assert Scan(records[..i + 1]) == (figures, None) by {
          ScanStep(records, i);
        }
      }
      ghost var done := records[..i + 1];
      assert Scan(done) == (figures, None);
      i := i + 1;
      assert records[..i] == done;
    }
    assert records[..i] == records;
  }

  /** `PoolsGet` after the records have been fetched and decoded: the
      output calls in order, and the failure that ended the run, if any.
      In CSV mode the accumulated rows are printed once, after the loop,
      unless a record failed. */
  method PoolsGet(records: seq<PoolRecord>, style: OutputStyle, format: Formatter, timestamp: string)
    returns (printed: seq<Printed>, failure: Option<PoolError>)
    ensures failure == Scan(records).1
    ensures style == Stdout ==> printed == Tables(Scan(records).0, format)
    ensures style == Csv && failure.None? ==> printed == [CsvOutput(CsvText(Scan(records).0, format, timestamp))]
    ensures style == Csv && failure.Some? ==> printed == []
  {
    var outData;
    printed, failure, outData := ShowPools(records, style, format, timestamp);
    if failure.Some? {
      return;
    }
    if style == Csv {
      CsvTextOfData(Scan(records).0, format, timestamp);
      var shown := OutputStandardFormat(outData, style, timestamp);
      printed := [shown];
    }
  }

  // ---------------------------------------------------------------------
  // Properties
  // ---------------------------------------------------------------------

  /** One step of the scan: a record after a run without failure. */
  lemma ScanStep(records: seq<PoolRecord>, i: nat)
    requires i < |records| && Scan(records[..i]).1 == None
    ensures var d := Derive(records[i]);
            var figures := Scan(records[..i]).0;
            && (d.Failure? ==> Scan(records[..i + 1]) == (figures, Some(d.error)))
            && (d == Success(None) ==> Scan(records[..i + 1]) == (figures, None))
            && (d.Success? && d.value.Some? ==> Scan(records[..i + 1]) == (figures + [d.value.value], None))
  {
    assert records[..i + 1][..i] == records[..i];
  }

  /** What the loop prints or accumulates for one more classified pool,
      whatever the reused struct held before. */
  lemma OutputStep(figures: seq<PoolFigures>, f: PoolFigures, element: PoolInfo, format: Formatter)
    ensures var e := Fill(element, f, format);
            && WellFormed(Block(TableLabels, e), ElementStringStart, ElementStringEnd)
            && Tables(figures + [f], format)
               == Tables(figures, format) + [TableOutput(Some(TableRows(Block(TableLabels, e), ElementStringStart, ElementStringEnd)))]
            && CsvData(Shown(figures + [f], format)) == CsvData(Shown(figures, format)) + Block(CsvLabels, e)
  {
    var e := Fill(element, f, format);
    BlockIgnoresPreviousPool(element, EmptyPoolInfo, f, format, TableLabels);
    BlockIgnoresPreviousPool(element, EmptyPoolInfo, f, format, CsvLabels);
    LabelsArePlain();
    TableShowsLabelledRows(TableLabels, e);
    BlockIsWellFormed(TableLabels, e);
    var shown := Shown(figures + [f], format);
    assert shown[..|shown| - 1] == Shown(figures, format);
    assert Block(CsvLabels, e) == Block(CsvLabels, shown[|shown| - 1]);
  }

  /** The CSV data accumulated for the figures prints as their CSV text. */
  lemma CsvTextOfData(figures: seq<PoolFigures>, format: Formatter, timestamp: string)
    ensures WellFormed(CsvData(Shown(figures, format)), ElementStringStart, ElementStringEnd)
    ensures CsvLines(CsvData(Shown(figures, format)), ElementStringStart, ElementStringEnd, CsvSeparator, timestamp)
            == CsvText(figures, format, timestamp)
  {
    CsvOfBlocks(Shown(figures, format), CsvSeparator, timestamp);
  }

  /** Once a record has failed, later records change nothing. */
  lemma {:induction false} ScanKeepsFailure(done: seq<PoolRecord>, rest: seq<PoolRecord>)
    requires Scan(done).1.Some?
    ensures Scan(done + rest) == Scan(done)
  {
    if rest != [] {
      var front := rest[..|rest| - 1];
      assert (done + rest)[..|done + rest| - 1] == done + front;
      ScanKeepsFailure(done, front);
    } else {
      assert done + rest == done;
    }
  }

  /** The run completes exactly when every record yields figures or is
      skipped as unclassified. */
  lemma {:induction false} ScanCompletesIffAllDerive(records: seq<PoolRecord>)
    ensures Scan(records).1.None? <==> forall i :: 0 <= i < |records| ==> Derive(records[i]).Success?
  {
    if records != [] {
      var front := records[..|records| - 1];
      ScanCompletesIffAllDerive(front);
      assert forall i :: 0 <= i < |front| ==> front[i] == records[i];
    }
  }

  /** A failing run reports the error of its first failing record. */
  lemma {:induction false} ScanReportsFirstFailure(records: seq<PoolRecord>)
    requires Scan(records).1.Some?
    ensures exists i :: 0 <= i < |records| && Derive(records[i]) == Failure(Scan(records).1.value)
                        && forall j :: 0 <= j < i ==> Derive(records[j]).Success?
  {
    var front := records[..|records| - 1];
    assert forall i :: 0 <= i < |front| ==> front[i] == records[i];
    if Scan(front).1.Some? {
      ScanReportsFirstFailure(front);
    } else {
      ScanCompletesIffAllDerive(front);
      var i := |records| - 1;
      assert Derive(records[i]) == Failure(Scan(records).1.value);
    }
  }

  /** Every pool shown comes from a record that yields its figures. */
  lemma {:induction false} ScanShowsOnlyClassified(records: seq<PoolRecord>)
    ensures forall f :: f in Scan(records).0 ==> exists j :: 0 <= j < |records| && Derive(records[j]) == Success(Some(f))
  {
    if records != [] {
      var n := |records| - 1;
      var front := records[..n];
      ScanShowsOnlyClassified(front);
      var figures := Scan(front).0;
      assert Scan(records).0 == figures || Scan(records).0 == figures + [Derive(records[n]).value.value];
      forall f | f in Scan(records).0
        ensures exists j :: 0 <= j < |records| && Derive(records[j]) == Success(Some(f))
      {
        if f in figures {
          var j :| 0 <= j < n && Derive(front[j]) == Success(Some(f));
          assert front[j] == records[j];
        } else {
          assert Derive(records[n]) == Success(Some(f));
        }
      }
    }
  }

  /** When the run completes, every record that yields figures is shown. */
  lemma {:induction false} ScanShowsEveryClassified(records: seq<PoolRecord>)
    requires Scan(records).1.None?
    ensures forall j :: 0 <= j < |records| && Derive(records[j]).Success? && Derive(records[j]).value.Some? ==>
              Derive(records[j]).value.value in Scan(records).0
  {
    if records != [] {
      var n := |records| - 1;
      var front := records[..n];
      assert Scan(front).1.None?;
      ScanShowsEveryClassified(front);
      var figures := Scan(front).0;
      var last := Derive(records[n]);
      assert Scan(records).0 == if last.value.Some? then figures + [last.value.value] else figures;
      forall j | 0 <= j < |records| && Derive(records[j]).Success? && Derive(records[j]).value.Some?
        ensures Derive(records[j]).value.value in Scan(records).0
      {
        if j < n {
          assert front[j] == records[j];
          assert Derive(records[j]).value.value in figures;
        }
      }
    }
  }

  /** A record that yields nothing (an unknown pool type) changes
      neither the figures nor the outcome. */
  lemma SkippedRecordAddsNothing(before: seq<PoolRecord>, r: PoolRecord)
    requires Derive(r) == Success(None)
    ensures Scan(before + [r]) == Scan(before)
  {
    assert (before + [r])[..|before|] == before;
  }
}
