/**
 * The parameter-table sample: a comma-separated file is read into records, the first three
 * fields of each record set the Length, Width and Height parameters, and each record is
 * exported to its own numbered STEP file.
 */
module CsvExport {
  import opened Wrappers
  import opened Seqs
  import opened Text

  // ---------------------------------------------------------------------------------
  // Reading with std::getline (C++)

  /** Repeated `std::getline(stream, piece, sep)` over `s`, character by character: a piece
      ends at each separator, and the piece at the end of the stream is read only when it
      holds at least one character. */
  method GetlineAll(s: string, sep: char) returns (pieces: seq<string>)
    ensures pieces == StreamSplit(s, sep)
    ensures forall k :: 0 <= k < |pieces| ==> sep !in pieces[k]
  {
    pieces := [];
    var piece := "";
    var i := 0;
    while i < |s|
      invariant i <= |s|
      invariant pieces + [piece] == Split(s[..i], sep)
    {
      GetlineStep(s, i, pieces, piece, sep);
      if s[i] == sep {
        pieces := pieces + [piece];
        piece := "";
      } else {
        piece := piece + [s[i]];
      }
      i := i + 1;
    }
    assert s[..i] == s;
    GetlineEnd(s, pieces, piece, sep);
    if piece != "" {
      pieces := pieces + [piece];
    }
  }

  /** One more character read: a separator ends the current piece, anything else extends it. */
  lemma GetlineStep(s: string, i: nat, pieces: seq<string>, piece: string, sep: char)
    requires i < |s| && pieces + [piece] == Split(s[..i], sep)
    ensures s[i] == sep ==> (pieces + [piece]) + [""] == Split(s[..i + 1], sep)
    ensures s[i] != sep ==> pieces + [piece + [s[i]]] == Split(s[..i + 1], sep)
  {
    assert s[..i + 1] == s[..i] + [s[i]];
    if s[i] == sep {
      SplitSnocSeparator(s[..i], sep);
    } else {
      SplitSnocOther(s[..i], s[i], sep);
      var p := Split(s[..i], sep);
      assert p[..|p| - 1] == pieces;
    }
  }

  /** At the end of the stream the last piece is read only when it is not empty. */
  lemma GetlineEnd(s: string, pieces: seq<string>, piece: string, sep: char)
    requires pieces + [piece] == Split(s, sep)
    ensures (if piece != "" then pieces + [piece] else pieces) == StreamSplit(s, sep)
    ensures forall k :: 0 <= k < |pieces| ==> sep !in pieces[k]
    ensures sep !in piece
  {
    SplitPiecesHaveNoSeparator(s, sep);
    var p := Split(s, sep);
    assert p[|p| - 1] == piece;
    assert p[..|p| - 1] == pieces;
    forall k | 0 <= k < |pieces|
      ensures sep !in pieces[k]
    {
      assert pieces[k] == p[k];
    }
  }

  /** No field of the record contains a comma. */
  predicate NoCommas(record: seq<string>)
  {
    forall j :: 0 <= j < |record| ==> ',' !in record[j]
  }

  /** C++ `loadCSVFile` over the file's contents: one record per line, in order, each the
      comma-separated fields of its line. */
  method LoadCsvFile(contents: string) returns (dataSet: seq<seq<string>>)
    ensures |dataSet| == |StreamSplit(contents, '\n')|
    ensures forall k :: 0 <= k < |dataSet| ==> dataSet[k] == StreamSplit(StreamSplit(contents, '\n')[k], ',')
    ensures forall k :: 0 <= k < |dataSet| ==> NoCommas(dataSet[k])
  {
    var lines := GetlineAll(contents, '\n');
    dataSet := [];
    var i := 0;
    while i < |lines|
      invariant i <= |lines|
      invariant |dataSet| == i
      invariant forall k :: 0 <= k < i ==> dataSet[k] == StreamSplit(lines[k], ',')
      invariant forall k :: 0 <= k < i ==> NoCommas(dataSet[k])
    {
      var record := GetlineAll(lines[i], ',');
      AppendRecord(lines, dataSet, record);
      dataSet := dataSet + [record];
      i := i + 1;
    }
  }

  lemma AppendRecord(lines: seq<string>, dataSet: seq<seq<string>>, record: seq<string>)
    requires |dataSet| < |lines|
    requires forall k :: 0 <= k < |dataSet| ==> dataSet[k] == StreamSplit(lines[k], ',')
    requires forall k :: 0 <= k < |dataSet| ==> NoCommas(dataSet[k])
    requires record == StreamSplit(lines[|dataSet|], ',')
    requires forall j :: 0 <= j < |record| ==> ',' !in record[j]
    ensures forall k :: 0 <= k <= |dataSet| ==> (dataSet + [record])[k] == StreamSplit(lines[k], ',')
    ensures forall k :: 0 <= k <= |dataSet| ==> NoCommas((dataSet + [record])[k])
  {
  }

  /** A line that does not end in a comma is recovered by joining its record with commas; an
      empty line gives an empty record. */
  lemma RecordJoin(line: string)
    requires line == [] || line[|line| - 1] != ','
    ensures Join(StreamSplit(line, ','), ',') == line
    ensures line == [] ==> StreamSplit(line, ',') == []
  {
    if line != [] {
      var front := line[..|line| - 1];
      assert line == front + [line[|line| - 1]];
      SplitSnocOther(front, line[|line| - 1], ',');
      JoinSplit(line, ',');
    }
  }

  /** Empty fields inside a line are kept, but the empty field after a final comma is not
      read: the record of `a` followed by a comma is every piece of `a`. */
  lemma TrailingCommaDropped(a: string)
    ensures StreamSplit(a + [','], ',') == Split(a, ',')
  {
    SplitSnocSeparator(a, ',');
    var p := Split(a + [','], ',');
    assert p[..|p| - 1] == Split(a, ',');
  }

  // ---------------------------------------------------------------------------------
  // Reading with file iteration and str.split (Python)

  /** The length of the first line of `s`, its line break included. */
  function LineLength(s: string): (n: nat)
    ensures s != [] ==> 1 <= n <= |s|
    ensures s == [] ==> n == 0
  {
    if s == [] then 0 else if s[0] == '\n' then 1 else 1 + LineLength(s[1..])
  }

  /** The first line ends at the first line break, or at the end of the text. */
  lemma {:induction false} LineLengthEndsLine(s: string)
    requires s != []
    ensures '\n' !in s[..LineLength(s) - 1]
    ensures LineLength(s) < |s| || '\n' in s ==> s[LineLength(s) - 1] == '\n'
  {
    if s[0] != '\n' {
      var n := LineLength(s);
      if s[1..] != [] {
        LineLengthEndsLine(s[1..]);
        assert s[..n - 1] == [s[0]] + s[1..][..n - 2];
        assert s[n - 1] == s[1..][n - 2];
        if '\n' in s {
          var k :| 0 <= k < |s| && s[k] == '\n';
          assert s[1..][k - 1] == '\n';
        }
      }
    }
  }

  /** Iterating over a text file in Python: its lines, each keeping its line break. */
  function PyLines(s: string): seq<string>
    decreases |s|
  {
    if s == [] then [] else [s[..LineLength(s)]] + PyLines(s[LineLength(s)..])
  }

  /** Every line is non-empty and holds a line break only at its end; every line but the last
      ends with one. */
  predicate LinesShaped(lines: seq<string>)
  {
    (forall k :: 0 <= k < |lines| ==> lines[k] != [] && '\n' !in lines[k][..|lines[k]| - 1])
    && (forall k :: 0 <= k < |lines| - 1 ==> lines[k][|lines[k]| - 1] == '\n')
  }

  lemma {:induction false} PyLinesShape(s: string)
    ensures LinesShaped(PyLines(s))
    decreases |s|
  {
    if s != [] {
      var n := LineLength(s);
      var lines, rest := PyLines(s), PyLines(s[n..]);
      LineLengthEndsLine(s);
      PyLinesShape(s[n..]);
      assert lines == [s[..n]] + rest;
      assert s[..n][..n - 1] == s[..n - 1];
      forall k | 0 <= k < |lines|
        ensures lines[k] != [] && '\n' !in lines[k][..|lines[k]| - 1]
        ensures k < |lines| - 1 ==> lines[k][|lines[k]| - 1] == '\n'
      {
        if k == 0 {
          if |lines| > 1 {
            assert rest != [];
            assert n < |s|;
          }
        } else {
          assert lines[k] == rest[k - 1];
        }
      }
    }
  }

  /** The lines put back together are the file. */
  lemma {:induction false} PyLinesConcat(s: string)
    ensures Flatten(PyLines(s)) == s
    decreases |s|
  {
    if s != [] {
      var n := LineLength(s);
      var lines, rest := PyLines(s), PyLines(s[n..]);
      assert lines[0] == s[..n] && lines[1..] == rest;
      assert Flatten(lines) == s[..n] + Flatten(rest);
      PyLinesConcat(s[n..]);
      assert s[..n] + s[n..] == s;
    }
  }

  /** `line.split(',')` on a line as Python reads it: one more piece than commas, the pieces
      joined back give the line, and the line break stays in the last piece. */
  lemma PyPieces(line: string)
    ensures |Split(line, ',')| == CountChar(line, ',') + 1
    ensures Join(Split(line, ','), ',') == line
    ensures line != [] && line[|line| - 1] == '\n' ==>
      var pieces := Split(line, ',');
      var last := pieces[|pieces| - 1];
      last != [] && last[|last| - 1] == '\n'
  {
    SplitCount(line, ',');
    JoinSplit(line, ',');
    if line != [] && line[|line| - 1] == '\n' {
      var front := line[..|line| - 1];
      assert line == front + ['\n'];
      SplitSnocOther(front, '\n', ',');
    }
  }

  /** The records the Python sample works on: each line of the file split at commas. */
  method PyLoadRecords(contents: string) returns (records: seq<seq<string>>)
    ensures |records| == |PyLines(contents)|
    ensures forall k :: 0 <= k < |records| ==> Join(records[k], ',') == PyLines(contents)[k]
    ensures forall k :: 0 <= k < |records| ==> |records[k]| == CountChar(PyLines(contents)[k], ',') + 1
  {
    var lines := PyLines(contents);
    records := [];
    var i := 0;
    while i < |lines|
      invariant i <= |lines|
      invariant |records| == i
      invariant forall k :: 0 <= k < i ==> Join(records[k], ',') == lines[k]
      invariant forall k :: 0 <= k < i ==> |records[k]| == CountChar(lines[k], ',') + 1
    {
      PyPieces(lines[i]);
      records := records + [Split(lines[i], ',')];
      i := i + 1;
    }
  }

  // ---------------------------------------------------------------------------------
  // Setting the parameters and exporting (both samples)

  /** The values given to the three parameters, and the STEP file written. */
  datatype Export = Export(length: string, width: string, height: string, fileName: string)

  /** The name of the `cnt`-th exported file. */
  function FileName(cnt: nat): string
  {
    "C:\\Temp\\test_box" + NatToString(cnt) + ".stp"
  }

  /** Different counters give different file names. */
  lemma FileNameInjective(a: nat, b: nat)
    ensures FileName(a) == FileName(b) <==> a == b
  {
    var prefix := "C:\\Temp\\test_box";
    if FileName(a) == FileName(b) {
      var sa := NatToString(a);
      var sb := NatToString(b);
      assert |sa| == |sb|;
      assert sa == FileName(a)[|prefix|..|prefix| + |sa|];
      assert sb == FileName(b)[|prefix|..|prefix| + |sb|];
      NatToStringInjective(a, b);
    }
  }

  /** The first three fields of a record: `data.at(0..2)` throws and `pieces[0..2]` raises when
      the record is shorter; further fields are ignored. */
  function Fields(record: seq<string>): (r: Result<(string, string, string)>)
    ensures r.Success? <==> |record| >= 3
    ensures r.Success? ==> r.value == (record[0], record[1], record[2])
  {
    if |record| < 3 then Failure("index out of range") else Success((record[0], record[1], record[2]))
  }

  /** The loop over the records: each complete record sets the parameters and is exported
      under the next counter value; the first short record ends the run with an error. */
  method ExportAll(records: seq<seq<string>>) returns (exports: seq<Export>, completed: bool)
    ensures completed <==> forall k :: 0 <= k < |records| ==> |records[k]| >= 3
    ensures completed ==> |exports| == |records|
    ensures !completed ==> |exports| < |records| && |records[|exports|]| < 3
    ensures forall k :: 0 <= k < |exports| ==>
      |records[k]| >= 3 && exports[k] == Export(records[k][0], records[k][1], records[k][2], FileName(k))
  {
    exports := [];
    var cnt := 0;
    while cnt < |records|
      invariant cnt <= |records|
      invariant |exports| == cnt
      invariant forall k :: 0 <= k < cnt ==> |records[k]| >= 3
      invariant forall k :: 0 <= k < cnt ==>
        exports[k] == Export(records[k][0], records[k][1], records[k][2], FileName(k))
    {
      var fields := Fields(records[cnt]);
      if fields.Failure? {
        return exports, false;
      }
      var (length, width, height) := fields.value;
      exports := exports + [Export(length, width, height, FileName(cnt))];
      cnt := cnt + 1;
    }
    completed := true;
  }

  /** No two exports of a run write the same file. */
  lemma ExportNamesDistinct(records: seq<seq<string>>, exports: seq<Export>)
    requires forall k :: 0 <= k < |exports| ==> exports[k].fileName == FileName(k)
    ensures forall i, j :: 0 <= i < j < |exports| ==> exports[i].fileName != exports[j].fileName
  {
    forall i, j | 0 <= i < j < |exports|
      ensures exports[i].fileName != exports[j].fileName
    {
      FileNameInjective(i, j);
    }
  }
}
