/** The two writers behind `OutputStandardFormat` (go_hds_restapi.go:1272-1436):
    `OutputTable`, which passes every row except the marker rows to the
    table writer, and `OutputCSV`, which prints one header line and one
    value line per element. Printed lines are returned instead. */
module Output {
  import opened Wrappers
  import opened PoolRows

  /** First header field of the CSV output. */
  const TimeLabel: string := "Time(RFC3339)"

  /** Every row has a first cell, which the writers compare with the
      markers. */
  predicate RowsHaveKey(data: seq<seq<string>>)
  {
    forall i :: 0 <= i < |data| ==> |data[i]| >= 1
  }

  /** A row that is neither a start nor an end marker. */
  predicate Plain(row: seq<string>, start: string, end: string)
    requires |row| >= 1
  {
    row[0] != start && row[0] != end
  }

  /** What `OutputCSV` reads without panicking: a first cell in every row,
      and a second cell in every row that is not a marker. */
  predicate WellFormed(data: seq<seq<string>>, start: string, end: string)
  {
    forall i :: 0 <= i < |data| ==> |data[i]| >= 1 && (Plain(data[i], start, end) ==> |data[i]| >= 2)
  }

  /** Rows that all carry a label and a value, and none is a marker. */
  predicate AllPlain(rows: seq<seq<string>>, start: string, end: string)
  {
    forall i :: 0 <= i < |rows| ==> |rows[i]| >= 2 && Plain(rows[i], start, end)
  }

  /** The rows of the console table: every row except the markers, in
      order. */
  function TableRows(data: seq<seq<string>>, start: string, end: string): (rows: seq<seq<string>>)
    requires RowsHaveKey(data)
    ensures |rows| <= |data|
    ensures forall i :: 0 <= i < |rows| ==> |rows[i]| >= 1 && Plain(rows[i], start, end)
  {
    if data == [] then []
    else
      var last := data[|data| - 1];
      var front := TableRows(data[..|data| - 1], start, end);
      if Plain(last, start, end) then front + [last] else front
  }

  /** Appends one field the way both CSV loops do: no separator in front of
      the first field of an empty line. */
  function Extend(acc: string, item: string, sep: string): string
  {
    if acc == "" then item else acc + sep + item
  }

  /** `items` appended to `acc` one after the other with `Extend`. */
  function Joined(acc: string, items: seq<string>, sep: string): string
  {
    if items == [] then acc
    else Extend(Joined(acc, items[..|items| - 1], sep), items[|items| - 1], sep)
  }

  /** The cells in column `c` of `rows`. */
  function Column(rows: seq<seq<string>>, c: nat): (cells: seq<string>)
    requires forall i :: 0 <= i < |rows| ==> |rows[i]| > c
    ensures |cells| == |rows|
    ensures forall i :: 0 <= i < |rows| ==> cells[i] == rows[i][c]
  {
    seq(|rows|, i requires 0 <= i < |rows| => rows[i][c])
  }

  /** The first cells of the rows that are not markers. */
  function Keys(data: seq<seq<string>>, start: string, end: string): seq<string>
    requires RowsHaveKey(data)
  {
    if data == [] then []
    else
      var last := data[|data| - 1];
      var front := Keys(data[..|data| - 1], start, end);
      if Plain(last, start, end) then front + [last[0]] else front
  }

  /** The index of the first end marker, or the length when there is none:
      the header loop stops there. */
  function EndIndex(data: seq<seq<string>>, end: string): (k: nat)
    requires RowsHaveKey(data)
    ensures k <= |data|
    ensures forall j :: 0 <= j < k ==> data[j][0] != end
    ensures k < |data| ==> data[k][0] == end
  {
    if data == [] then 0
    else if data[0][0] == end then 0
    else 1 + EndIndex(data[1..], end)
  }

  /** The header line: the time label followed by the labels of the first
      element, that is, of the rows before the first end marker. */
  function Header(data: seq<seq<string>>, start: string, end: string, sep: string): string
    requires RowsHaveKey(data)
  {
    Joined(TimeLabel, Keys(data[..EndIndex(data, end)], start, end), sep)
  }

  /** The state of the values loop after `data`: the lines printed so far
      and the line being built. A plain row extends the line with its value,
      an end marker prints the line and restarts it from the timestamp, a
      start marker does nothing. */
  function ValueState(data: seq<seq<string>>, start: string, end: string, sep: string, timestamp: string): (state: (seq<string>, string))
    requires WellFormed(data, start, end)
  {
    if data == [] then ([], timestamp)
    else
      var last := data[|data| - 1];
      var (lines, acc) := ValueState(data[..|data| - 1], start, end, sep, timestamp);
      if Plain(last, start, end) then (lines, Extend(acc, last[1], sep))
      else if last[0] == end then (lines + [acc], timestamp)
      else (lines, acc)
  }

  /** Everything `OutputCSV` prints: nothing for empty data, otherwise the
      header and then one line per end marker. */
  function CsvLines(data: seq<seq<string>>, start: string, end: string, sep: string, timestamp: string): seq<string>
    requires WellFormed(data, start, end)
  {
    if data == [] then []
    else [Header(data, start, end, sep)] + ValueState(data, start, end, sep, timestamp).0
  }

  /** `OutputTable`: `None` when there is no data (only an error is
      logged), otherwise the table rows, markers skipped. */
  method OutputTable(data: seq<seq<string>>, start: string, end: string) returns (table: Option<seq<seq<string>>>)
    requires RowsHaveKey(data)
    ensures data == [] <==> table.None?
    ensures table.Some? ==> table.value == TableRows(data, start, end)
  {
    if |data| == 0 {
      return None;
    }
    var rows := [];
    var i := 0;
    while i < |data|
      invariant 0 <= i <= |data|
      invariant rows == TableRows(data[..i], start, end)
    {
      assert data[..i + 1][..i] == data[..i];
      if data[i][0] != end && data[i][0] != start {
        rows := rows + [data[i]];
      }
      i := i + 1;
    }
    assert data[..i] == data;
    return Some(rows);
  }

  /** The header loop of `OutputCSV`: the labels of the rows before the
      first end marker, after the time label. */
  method CsvHeader(data: seq<seq<string>>, start: string, end: string, sep: string) returns (descriptor: string)
    requires RowsHaveKey(data)
    ensures descriptor == Header(data, start, end, sep)
  {
    descriptor := TimeLabel;
    var i := 0;
    while i < |data|
      invariant 0 <= i <= EndIndex(data, end)
      invariant descriptor == Joined(TimeLabel, Keys(data[..i], start, end), sep)
    {
      assert data[..i + 1][..i] == data[..i];
      if data[i][0] == end {
        break;
      }
      if data[i][0] != start {
        descriptor := Extend(descriptor, data[i][0], sep);
      }
      i := i + 1;
    }
  }

  /** The values loop of `OutputCSV`: the lines printed at the end
      markers and the line left unprinted after the last one. */
  method CsvValues(data: seq<seq<string>>, start: string, end: string, sep: string, timestamp: string)
    returns (lines: seq<string>, values: string)
    requires WellFormed(data, start, end)
    ensures (lines, values) == ValueState(data, start, end, sep, timestamp)
  {
    lines := [];
    values := timestamp;
    var i := 0;
    while i < |data|
      invariant 0 <= i <= |data|
      invariant (lines, values) == ValueState(data[..i], start, end, sep, timestamp)
    {
      assert data[..i + 1][..i] == data[..i];
      if data[i][0] != end && data[i][0] != start {
        values := Extend(values, data[i][1], sep);
      } else if data[i][0] == end {
        lines := lines + [values];
        values := timestamp;
      }
      i := i + 1;
    }
    assert data[..i] == data;
  }

  /** `OutputCSV`, with the time of the call given as `timestamp`. */
  method OutputCSV(data: seq<seq<string>>, start: string, end: string, sep: string, timestamp: string) returns (lines: seq<string>)
    requires WellFormed(data, start, end)
    ensures lines == CsvLines(data, start, end, sep, timestamp)
  {
    lines := [];
    if |data| == 0 {
      return;
    }
    var descriptor := CsvHeader(data, start, end, sep);
    var printed, _ := CsvValues(data, start, end, sep, timestamp);
    lines := [descriptor] + printed;
  }

  // ---------------------------------------------------------------------
  // Properties of the writers
  // ---------------------------------------------------------------------

  /** The number of end markers in `data`. */
  function CountEnds(data: seq<seq<string>>, end: string): nat
    requires RowsHaveKey(data)
  {
    if data == [] then 0
    else CountEnds(data[..|data| - 1], end) + (if data[|data| - 1][0] == end then 1 else 0)
  }

  /** One value line is printed per end marker; rows after the last end
      marker are never printed. */
  lemma {:induction false} ValueLinesPerEnd(data: seq<seq<string>>, start: string, end: string, sep: string, timestamp: string)
    requires WellFormed(data, start, end)
    ensures |ValueState(data, start, end, sep, timestamp).0| == CountEnds(data, end)
  {
    if data != [] {
      ValueLinesPerEnd(data[..|data| - 1], start, end, sep, timestamp);
    }
  }

  /** Filtering distributes over concatenation. */
  lemma {:induction false} TableRowsAppend(a: seq<seq<string>>, b: seq<seq<string>>, start: string, end: string)
    requires RowsHaveKey(a) && RowsHaveKey(b)
    ensures TableRows(a + b, start, end) == TableRows(a, start, end) + TableRows(b, start, end)
  {
    if b == [] {
      assert a + b == a;
    } else {
      var front := b[..|b| - 1];
      assert (a + b)[..|a + b| - 1] == a + front;
      TableRowsAppend(a, front, start, end);
    }
  }

  /** Rows that are not markers are all kept. */
  lemma {:induction false} TableRowsKeepsPlain(rows: seq<seq<string>>, start: string, end: string)
    requires AllPlain(rows, start, end)
    ensures TableRows(rows, start, end) == rows
  {
    if rows != [] {
      TableRowsKeepsPlain(rows[..|rows| - 1], start, end);
    }
  }

  /** Key extraction distributes over concatenation. */
  lemma {:induction false} KeysAppend(a: seq<seq<string>>, b: seq<seq<string>>, start: string, end: string)
    requires RowsHaveKey(a) && RowsHaveKey(b)
    ensures Keys(a + b, start, end) == Keys(a, start, end) + Keys(b, start, end)
  {
    if b == [] {
      assert a + b == a;
    } else {
      var front := b[..|b| - 1];
      assert (a + b)[..|a + b| - 1] == a + front;
      KeysAppend(a, front, start, end);
    }
  }

  /** The keys of rows that are not markers are their first column. */
  lemma {:induction false} KeysOfPlain(rows: seq<seq<string>>, start: string, end: string)
    requires AllPlain(rows, start, end)
    ensures Keys(rows, start, end) == Column(rows, 0)
  {
    if rows != [] {
      var front := rows[..|rows| - 1];
      KeysOfPlain(front, start, end);
      assert Column(rows, 0) == Column(front, 0) + [rows[|rows| - 1][0]];
    }
  }

  /** Plain rows appended to the values loop only extend the line being
      built, with their second column. */
  lemma {:induction false} ValueStateOfPlain(pre: seq<seq<string>>, rows: seq<seq<string>>, start: string, end: string, sep: string, timestamp: string)
    requires WellFormed(pre, start, end) && AllPlain(rows, start, end)
    ensures WellFormed(pre + rows, start, end)
    ensures var (lines, acc) := ValueState(pre, start, end, sep, timestamp);
            ValueState(pre + rows, start, end, sep, timestamp) == (lines, Joined(acc, Column(rows, 1), sep))
  {
    if rows == [] {
      assert pre + rows == pre;
    } else {
      var front := rows[..|rows| - 1];
      assert (pre + rows)[..|pre + rows| - 1] == pre + front;
      assert Column(rows, 1)[..|rows| - 1] == Column(front, 1);
      ValueStateOfPlain(pre, front, start, end, sep, timestamp);
    }
  }

  // ---------------------------------------------------------------------
  // The CSV of a sequence of pool blocks
  // ---------------------------------------------------------------------

  /** The rows `PoolInfoFormatCSV` accumulates for `elements`, in order. */
  function CsvData(elements: seq<PoolInfo>): (data: seq<seq<string>>)
    ensures |data| == 10 * |elements|
  {
    if elements == [] then []
    else CsvData(elements[..|elements| - 1]) + Block(CsvLabels, elements[|elements| - 1])
  }

  /** The value line of each element: the timestamp followed by its eight
      values. */
  function ValueLines(elements: seq<PoolInfo>, sep: string, timestamp: string): (lines: seq<string>)
    ensures |lines| == |elements|
    ensures forall k :: 0 <= k < |elements| ==> lines[k] == Joined(timestamp, Values(elements[k]), sep)
  {
    if elements == [] then []
    else ValueLines(elements[..|elements| - 1], sep, timestamp) + [Joined(timestamp, Values(elements[|elements| - 1]), sep)]
  }

  /** The labelled rows of a block are plain and their columns are the
      labels and the values. */
  lemma LabelledRowsArePlain(labels: seq<string>, e: PoolInfo)
    requires |labels| == 8 && PlainLabels(labels)
    ensures AllPlain(LabelledRows(labels, Values(e)), ElementStringStart, ElementStringEnd)
    ensures Column(LabelledRows(labels, Values(e)), 0) == labels
    ensures Column(LabelledRows(labels, Values(e)), 1) == Values(e)
  {
    assert ElementStringStart[0] == 'L' && ElementStringEnd[0] == 'L' by {
      LabelsArePlain();
    }
    var rows := LabelledRows(labels, Values(e));
    forall i | 0 <= i < |rows|
      ensures |rows[i]| >= 2 && Plain(rows[i], ElementStringStart, ElementStringEnd)
    {
      assert rows[i] == [labels[i], Values(e)[i]];
      assert labels[i][0] != ElementStringStart[0];
      assert labels[i][0] != ElementStringEnd[0];
    }
    assert Column(rows, 0) == labels;
    assert Column(rows, 1) == Values(e);
  }

  /** Plain rows framed by a start and an end marker. */
  function Framed(rows: seq<seq<string>>, start: string, end: string): seq<seq<string>>
  {
    [[start]] + rows + [[end]]
  }

  /** A block is its labelled rows framed by the two markers. */
  lemma BlockIsFramed(labels: seq<string>, e: PoolInfo)
    requires |labels| == 8
    ensures Block(labels, e) == Framed(LabelledRows(labels, Values(e)), ElementStringStart, ElementStringEnd)
  {
  }

  /** The table of a framed run of plain rows is those rows. */
  lemma TableOfFramed(rows: seq<seq<string>>, start: string, end: string)
    requires start != end && AllPlain(rows, start, end)
    ensures RowsHaveKey(Framed(rows, start, end))
    ensures TableRows(Framed(rows, start, end), start, end) == rows
  {
    var withStart := [[start]] + rows;
    assert Framed(rows, start, end) == withStart + [[end]];
    assert TableRows(withStart, start, end) == rows by {
      TableRowsAppend([[start]], rows, start, end);
      TableRowsKeepsPlain(rows, start, end);
      assert TableRows([[start]], start, end) == [];
    }
    assert TableRows(withStart + [[end]], start, end) == TableRows(withStart, start, end) by {
      TableRowsAppend(withStart, [[end]], start, end);
      assert TableRows([[end]], start, end) == [];
    }
  }

  /** A block is something the writers read without panicking. */
  lemma BlockIsWellFormed(labels: seq<string>, e: PoolInfo)
    requires |labels| == 8 && PlainLabels(labels)
    ensures WellFormed(Block(labels, e), ElementStringStart, ElementStringEnd)
  {
    LabelsArePlain();
    LabelledRowsArePlain(labels, e);
    BlockIsFramed(labels, e);
    ValueStateOfFramed([], LabelledRows(labels, Values(e)), ElementStringStart, ElementStringEnd, "", "");
    assert [] + Block(labels, e) == Block(labels, e);
  }

  /** The console table of one pool shows exactly its eight labelled rows. */
  lemma TableShowsLabelledRows(labels: seq<string>, e: PoolInfo)
    requires |labels| == 8 && PlainLabels(labels)
    ensures TableRows(Block(labels, e), ElementStringStart, ElementStringEnd) == LabelledRows(labels, Values(e))
  {
    LabelsArePlain();
    LabelledRowsArePlain(labels, e);
    BlockIsFramed(labels, e);
    TableOfFramed(LabelledRows(labels, Values(e)), ElementStringStart, ElementStringEnd);
  }

  /** A framed run of plain rows appended to the values loop prints the
      line being built extended by the rows' values, and restarts the line. */
  lemma ValueStateOfFramed(pre: seq<seq<string>>, rows: seq<seq<string>>, start: string, end: string, sep: string, timestamp: string)
    requires start != end && WellFormed(pre, start, end) && AllPlain(rows, start, end)
    ensures WellFormed(pre + Framed(rows, start, end), start, end)
    ensures var (lines, acc) := ValueState(pre, start, end, sep, timestamp);
            ValueState(pre + Framed(rows, start, end), start, end, sep, timestamp)
              == (lines + [Joined(acc, Column(rows, 1), sep)], timestamp)
  {
    var withStart := pre + [[start]];
    assert ValueState(withStart, start, end, sep, timestamp) == ValueState(pre, start, end, sep, timestamp) by {
      assert withStart[..|withStart| - 1] == pre;
    }
    var body := withStart + rows;
    var (lines, acc) := ValueState(pre, start, end, sep, timestamp);
    assert WellFormed(body, start, end) && ValueState(body, start, end, sep, timestamp) == (lines, Joined(acc, Column(rows, 1), sep)) by {
      ValueStateOfPlain(withStart, rows, start, end, sep, timestamp);
    }
    var all := body + [[end]];
    assert all[..|all| - 1] == body;
    assert all == pre + Framed(rows, start, end);
  }

  /** One CSV block appended to the values loop prints the line being
      built extended by the block's eight values, and restarts the line. */
  lemma ValueStateOfBlock(pre: seq<seq<string>>, e: PoolInfo, sep: string, timestamp: string)
    requires WellFormed(pre, ElementStringStart, ElementStringEnd)
    ensures WellFormed(pre + Block(CsvLabels, e), ElementStringStart, ElementStringEnd)
    ensures var (lines, acc) := ValueState(pre, ElementStringStart, ElementStringEnd, sep, timestamp);
            ValueState(pre + Block(CsvLabels, e), ElementStringStart, ElementStringEnd, sep, timestamp)
              == (lines + [Joined(acc, Values(e), sep)], timestamp)
  {
    LabelsArePlain();
    LabelledRowsArePlain(CsvLabels, e);
    BlockIsFramed(CsvLabels, e);
    ValueStateOfFramed(pre, LabelledRows(CsvLabels, Values(e)), ElementStringStart, ElementStringEnd, sep, timestamp);
  }

  /** The values loop over the blocks of `elements` prints their value
      lines, and ends with the line restarted from the timestamp. */
  lemma {:induction false} ValueStateOfBlocks(elements: seq<PoolInfo>, sep: string, timestamp: string)
    ensures WellFormed(CsvData(elements), ElementStringStart, ElementStringEnd)
    ensures ValueState(CsvData(elements), ElementStringStart, ElementStringEnd, sep, timestamp)
            == (ValueLines(elements, sep, timestamp), timestamp)
  {
    if elements != [] {
      var front := elements[..|elements| - 1];
      ValueStateOfBlocks(front, sep, timestamp);
      ValueStateOfBlock(CsvData(front), elements[|elements| - 1], sep, timestamp);
    }
  }

  /** The blocks of `elements` begin with the block of the first one. */
  lemma {:induction false} CsvDataStartsWithFirst(elements: seq<PoolInfo>)
    requires |elements| >= 1
    ensures CsvData(elements)[..10] == Block(CsvLabels, elements[0])
  {
    var last := elements[|elements| - 1];
    var front := elements[..|elements| - 1];
    if |elements| > 1 {
      assert CsvData(elements)[..10] == CsvData(front)[..10] by {
        assert CsvData(elements) == CsvData(front) + Block(CsvLabels, last);
      }
      assert CsvData(front)[..10] == Block(CsvLabels, elements[0]) by {
        CsvDataStartsWithFirst(front);
        assert front[0] == elements[0];
      }
    } else {
      assert CsvData(elements) == Block(CsvLabels, elements[0]) by {
        assert CsvData(front) == [];
        assert CsvData(elements) == CsvData(front) + Block(CsvLabels, last);
      }
    }
  }

  /** The first end marker of data that opens with a framed run of plain
      rows is the one closing that run. */
  lemma FramedEndIndex(data: seq<seq<string>>, rows: seq<seq<string>>, start: string, end: string)
    requires start != end && AllPlain(rows, start, end) && RowsHaveKey(data)
    requires |data| >= |rows| + 2 && data[..|rows| + 2] == Framed(rows, start, end)
    ensures EndIndex(data, end) == |rows| + 1
  {
    var n := |rows| + 1;
    assert data[n] == [end];
    forall j | 0 <= j < n
      ensures data[j][0] != end
    {
      if j > 0 {
        assert data[j] == rows[j - 1];
      }
    }
  }

  /** Data that opens with a framed run of plain rows has those rows'
      labels as its header. */
  lemma HeaderOfFramed(data: seq<seq<string>>, rows: seq<seq<string>>, start: string, end: string, sep: string)
    requires start != end && AllPlain(rows, start, end) && RowsHaveKey(data)
    requires |data| >= |rows| + 2 && data[..|rows| + 2] == Framed(rows, start, end)
    ensures Header(data, start, end, sep) == Joined(TimeLabel, Column(rows, 0), sep)
  {
    var n := |rows| + 1;
    FramedEndIndex(data, rows, start, end);
    assert Keys(data[..n], start, end) == Column(rows, 0) by {
      assert data[..n] == [[start]] + rows;
      KeysAppend([[start]], rows, start, end);
      KeysOfPlain(rows, start, end);
      assert Keys([[start]], start, end) == [];
    }
  }

  /** The header line names the CSV labels once, after the time label,
      whatever the number of elements. */
  lemma HeaderOfBlocks(elements: seq<PoolInfo>, sep: string)
    requires |elements| >= 1
    ensures RowsHaveKey(CsvData(elements))
    ensures Header(CsvData(elements), ElementStringStart, ElementStringEnd, sep) == Joined(TimeLabel, CsvLabels, sep)
  {
    LabelsArePlain();
    ValueStateOfBlocks(elements, sep, "");
    CsvDataStartsWithFirst(elements);
    LabelledRowsArePlain(CsvLabels, elements[0]);
    BlockIsFramed(CsvLabels, elements[0]);
    HeaderOfFramed(CsvData(elements), LabelledRows(CsvLabels, Values(elements[0])), ElementStringStart, ElementStringEnd, sep);
  }

  /** What the CSV output of the pools run looks like: nothing at all for
      no element, otherwise the header line, then one line per element with
      the timestamp and that element's eight values, in order. */
  lemma CsvOfBlocks(elements: seq<PoolInfo>, sep: string, timestamp: string)
    ensures WellFormed(CsvData(elements), ElementStringStart, ElementStringEnd)
    ensures elements == [] ==> CsvLines(CsvData(elements), ElementStringStart, ElementStringEnd, sep, timestamp) == []
    ensures elements != [] ==>
              CsvLines(CsvData(elements), ElementStringStart, ElementStringEnd, sep, timestamp)
              == [Joined(TimeLabel, CsvLabels, sep)] + ValueLines(elements, sep, timestamp)
  {
    ValueStateOfBlocks(elements, sep, timestamp);
    if elements != [] {
      HeaderOfBlocks(elements, sep);
    }
  }

  /** After a non-empty start, every field is preceded by the separator,
      so a header or value line is its first field followed by
      separator-field pairs. */
  lemma {:induction false} JoinedAfterNonEmpty(acc: string, items: seq<string>, sep: string)
    requires acc != ""
    ensures Joined(acc, items, sep) == acc + Prefixed(items, sep)
  {
    if items != [] {
      var front := items[..|items| - 1];
      JoinedAfterNonEmpty(acc, front, sep);
      assert Prefixed(items, sep) == Prefixed(front, sep) + sep + items[|items| - 1];
    }
  }

  /** Each item preceded by the separator. */
  function Prefixed(items: seq<string>, sep: string): seq<char>
  {
    if items == [] then [] else Prefixed(items[..|items| - 1], sep) + sep + items[|items| - 1]
  }
}
