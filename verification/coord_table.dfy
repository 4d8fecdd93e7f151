/**
 * The coordinate table of the custom-graphics dialog: rows of x/y/z value inputs and
 * read-only "-- Line Strip --" markers, the buttons that append a row or a marker, the
 * button that deletes the selected row, and the reading of the table into one flat
 * coordinate list plus the lengths of the line strips that the markers delimit.
 */
module CoordTable {
  import opened Wrappers
  import opened Seqs
  import opened Text

  /** The part of a generated input id that follows the table's own id. */
  datatype Tag = X | Y | Z | Strip

  function TagText(t: Tag): (s: string)
    ensures |s| >= 2 && s[0] == '_'
  {
    match t
    case X => "_x"
    case Y => "_y"
    case Z => "_z"
    case Strip => "_strip"
  }

  /** A generated input id: its tag and the value the counter had when the input was made. */
  datatype CellId = CellId(tag: Tag, number: nat)

  /** The id string of an input of the table `tableId`: table id, tag, counter in decimal. */
  function IdString(tableId: string, c: CellId): string
  {
    tableId + TagText(c.tag) + NatToString(c.number)
  }

  /** What a table position holds: a length value input, a read-only string input, or nothing. */
  datatype Cell = ValueCell(id: CellId, value: real) | StringCell(id: CellId, text: string) | NoCell

  /** The inputs at columns 0, 1 and 2 of one row. */
  datatype Row = Row(x: Cell, y: Cell, z: Cell)

  datatype Table = Table(id: string, rows: seq<Row>)

  /** The counters that number new coordinate rows and new strip markers. */
  datatype Counters = Counters(rowNumber: nat, stripNumber: nat)

  datatype TableState = TableState(table: Table, counters: Counters)

  /** The caption of a strip marker. */
  const StripCaption := "-- Line Strip --"

  // ---------------------------------------------------------------------------------
  // Appending rows and markers

  /** The "add" button: three value inputs, each holding the row counter, then the counter steps. */
  function AddRow(s: TableState): (r: TableState)
    ensures r.table.id == s.table.id
    ensures |r.table.rows| == |s.table.rows| + 1 && r.table.rows[..|s.table.rows|] == s.table.rows
    ensures Complete(r.table.rows[|s.table.rows|])
    ensures r.counters == s.counters.(rowNumber := s.counters.rowNumber + 1)
  {
    var n := s.counters.rowNumber;
    var row := Row(ValueCell(CellId(X, n), n as real), ValueCell(CellId(Y, n), n as real),
                   ValueCell(CellId(Z, n), n as real));
    TableState(s.table.(rows := s.table.rows + [row]), s.counters.(rowNumber := n + 1))
  }

  /** The "add strip" button: a read-only marker spanning the row, then the strip counter steps. */
  function AddLineStrip(s: TableState): (r: TableState)
    ensures r.table.id == s.table.id
    ensures |r.table.rows| == |s.table.rows| + 1 && r.table.rows[..|s.table.rows|] == s.table.rows
    ensures r.table.rows[|s.table.rows|].x.StringCell?
    ensures r.counters == s.counters.(stripNumber := s.counters.stripNumber + 1)
  {
    var n := s.counters.stripNumber;
    var row := Row(StringCell(CellId(Strip, n), StripCaption), NoCell, NoCell);
    TableState(s.table.(rows := s.table.rows + [row]), s.counters.(stripNumber := n + 1))
  }

  // ---------------------------------------------------------------------------------
  // Deleting the selected row

  datatype DeleteOutcome = Prompt(message: string) | Deleted(table: Table)

  /** The "delete" button: with no row selected (-1) the user is told to select one, otherwise
      the selected row goes and every other row keeps its order. */
  function DeleteSelectedRow(t: Table, selectedRow: int): (r: DeleteOutcome)
    requires selectedRow == -1 || 0 <= selectedRow < |t.rows|
    ensures r.Prompt? <==> selectedRow == -1
    ensures r.Prompt? ==> r.message == "Select one row to delete"
    ensures r.Deleted? ==> r.table.id == t.id && |r.table.rows| == |t.rows| - 1
    ensures r.Deleted? ==> forall i :: 0 <= i < |r.table.rows| ==>
      r.table.rows[i] == t.rows[if i < selectedRow then i else i + 1]
  {
    if selectedRow == -1 then Prompt("Select one row to delete")
    else Deleted(t.(rows := t.rows[..selectedRow] + t.rows[selectedRow + 1..]))
  }

  // ---------------------------------------------------------------------------------
  // Input ids never repeat

  function CellIds(c: Cell): seq<CellId>
  {
    if c.NoCell? then [] else [c.id]
  }

  function RowIds(r: Row): seq<CellId>
  {
    CellIds(r.x) + CellIds(r.y) + CellIds(r.z)
  }

  /** The ids of all inputs of the rows, row by row. */
  function TableIds(rows: seq<Row>): seq<CellId>
  {
    if rows == [] then [] else TableIds(rows[..|rows| - 1]) + RowIds(rows[|rows| - 1])
  }

  /** The counter that numbers inputs with tag `t`. */
  function Limit(c: Counters, t: Tag): nat
  {
    if t == Strip then c.stripNumber else c.rowNumber
  }

  /** The table invariant: no id twice, and every id numbered below its counter. */
  predicate WellNumbered(s: TableState)
  {
    var ids := TableIds(s.table.rows);
    NoDuplicates(ids) && forall id :: id in ids ==> id.number < Limit(s.counters, id.tag)
  }

  lemma {:induction false} NoDuplicatesAppend<T>(a: seq<T>, b: seq<T>)
    requires NoDuplicates(a) && NoDuplicates(b)
    requires forall k :: 0 <= k < |b| ==> b[k] !in a
    ensures NoDuplicates(a + b)
  {
    var s := a + b;
    forall i, j | 0 <= i < j < |s|
      ensures s[i] != s[j]
    {
      if j >= |a| && i < |a| {
        assert s[j] == b[j - |a|];
        assert s[i] in a;
      } else if j >= |a| {
        assert s[i] == b[i - |a|] && s[j] == b[j - |a|];
      }
    }
  }

  lemma {:induction false} NoDuplicatesDropMiddle<T>(a: seq<T>, m: seq<T>, b: seq<T>)
    requires NoDuplicates(a + m + b)
    ensures NoDuplicates(a + b)
  {
    var s, t := a + m + b, a + b;
    forall p, q | 0 <= p < q < |t|
      ensures t[p] != t[q]
    {
      var p' := if p < |a| then p else p + |m|;
      var q' := if q < |a| then q else q + |m|;
      assert t[p] == s[p'] && t[q] == s[q'];
    }
  }

  /** The ids of two runs of rows, one after the other. */
  lemma {:induction false} TableIdsAppend(a: seq<Row>, b: seq<Row>)
    ensures TableIds(a + b) == TableIds(a) + TableIds(b)
    decreases |b|
  {
    if b == [] {
      assert a + b == a;
    } else {
      var init, last := b[..|b| - 1], b[|b| - 1];
      var ab := a + b;
      assert ab[..|ab| - 1] == a + init;
      assert ab[|ab| - 1] == last;
      var lastIds := RowIds(last);
      assert TableIds(ab) == TableIds(a + init) + lastIds;
      assert TableIds(b) == TableIds(init) + lastIds;
      TableIdsAppend(a, init);
      AppendAssoc(TableIds(a), TableIds(init), lastIds);
    }
  }

  lemma AppendAssoc<T>(a: seq<T>, b: seq<T>, c: seq<T>)
    ensures (a + b) + c == a + (b + c)
  {
  }

  lemma {:induction false} AddRowKeepsWellNumbered(s: TableState)
    requires WellNumbered(s)
    ensures WellNumbered(AddRow(s))
  {
    var r := AddRow(s);
    var n := s.counters.rowNumber;
    var old_ := TableIds(s.table.rows);
    var fresh_ := [CellId(X, n), CellId(Y, n), CellId(Z, n)];
    assert r.table.rows[..|r.table.rows| - 1] == s.table.rows;
    assert TableIds(r.table.rows) == old_ + fresh_;
    forall k | 0 <= k < |fresh_|
      ensures fresh_[k] !in old_
    {
      assert forall id :: id in old_ ==> id.number < Limit(s.counters, id.tag);
    }
    NoDuplicatesAppend(old_, fresh_);
  }

  lemma {:induction false} AddLineStripKeepsWellNumbered(s: TableState)
    requires WellNumbered(s)
    ensures WellNumbered(AddLineStrip(s))
  {
    var r := AddLineStrip(s);
    var n := s.counters.stripNumber;
    var old_ := TableIds(s.table.rows);
    var fresh_ := [CellId(Strip, n)];
    assert r.table.rows[..|r.table.rows| - 1] == s.table.rows;
    assert TableIds(r.table.rows) == old_ + fresh_;
    assert forall id :: id in old_ ==> id.number < Limit(s.counters, id.tag);
    NoDuplicatesAppend(old_, fresh_);
  }

  lemma {:induction false} DeleteKeepsWellNumbered(s: TableState, selectedRow: int)
    requires WellNumbered(s)
    requires 0 <= selectedRow < |s.table.rows|
    ensures DeleteSelectedRow(s.table, selectedRow).Deleted?
    ensures WellNumbered(TableState(DeleteSelectedRow(s.table, selectedRow).table, s.counters))
  {
    var rows := s.table.rows;
    var i := selectedRow;
    var before, row, after := rows[..i], [rows[i]], rows[i + 1..];
    assert rows == before + row + after;
    TableIdsAppend(before + row, after);
    TableIdsAppend(before, row);
    assert TableIds(row) == RowIds(rows[i]) by {
      assert row[..0] == [];
    }
    TableIdsAppend(before, after);
    var a, m, b := TableIds(before), TableIds(row), TableIds(after);
    assert TableIds(rows) == a + m + b;
    assert TableIds(DeleteSelectedRow(s.table, selectedRow).table.rows) == a + b;
    NoDuplicatesDropMiddle(a, m, b);
    forall id | id in a + b
      ensures id in a + m + b
    {
    }
  }

  predicate NoDigits(s: string)
  {
    forall i :: 0 <= i < |s| ==> !IsDigit(s[i])
  }

  /** The position of the first digit of `s`, or `|s|` when there is none. */
  function FirstDigit(s: string): (k: nat)
    ensures k <= |s|
  {
    if s == [] then 0 else if IsDigit(s[0]) then 0 else 1 + FirstDigit(s[1..])
  }

  lemma {:induction false} FirstDigitAfterPrefix(p: string, d: string)
    requires NoDigits(p) && AllDigits(d) && d != []
    ensures FirstDigit(p + d) == |p|
  {
    if p == [] {
      assert p + d == d;
    } else {
      assert (p + d)[1..] == p[1..] + d;
      FirstDigitAfterPrefix(p[1..], d);
    }
  }

  /** A digit-free text followed by a numeral splits back uniquely at its first digit. */
  lemma DigitBoundary(p1: string, d1: string, p2: string, d2: string)
    requires NoDigits(p1) && NoDigits(p2) && AllDigits(d1) && AllDigits(d2) && d1 != [] && d2 != []
    requires p1 + d1 == p2 + d2
    ensures p1 == p2 && d1 == d2
  {
    var s := p1 + d1;
    FirstDigitAfterPrefix(p1, d1);
    FirstDigitAfterPrefix(p2, d2);
    assert p1 == s[..|p1|] && p2 == s[..|p2|];
    assert d1 == s[|p1|..] && d2 == s[|p2|..];
  }

  /** Within one table, different generated ids give different id strings. */
  lemma IdStringInjective(tableId: string, a: CellId, b: CellId)
    requires IdString(tableId, a) == IdString(tableId, b)
    ensures a == b
  {
    var ta, tb := TagText(a.tag), TagText(b.tag);
    var na, nb := NatToString(a.number), NatToString(b.number);
    assert tableId + ta + na == tableId + (ta + na);
    assert tableId + tb + nb == tableId + (tb + nb);
    assert ta + na == (tableId + ta + na)[|tableId|..];
    assert tb + nb == (tableId + tb + nb)[|tableId|..];
    DigitBoundary(ta, na, tb, nb);
    NatToStringInjective(a.number, b.number);
  }

  /** In a well-numbered table no two inputs share an id string. */
  lemma IdStringsDistinct(s: TableState, i: nat, j: nat)
    requires WellNumbered(s)
    requires i < j < |TableIds(s.table.rows)|
    ensures IdString(s.table.id, TableIds(s.table.rows)[i]) != IdString(s.table.id, TableIds(s.table.rows)[j])
  {
    var ids := TableIds(s.table.rows);
    if IdString(s.table.id, ids[i]) == IdString(s.table.id, ids[j]) {
      IdStringInjective(s.table.id, ids[i], ids[j]);
    }
  }

  // ---------------------------------------------------------------------------------
  // Reading the table

  /** A row whose three positions all hold value inputs. */
  predicate Complete(r: Row)
  {
    r.x.ValueCell? && r.y.ValueCell? && r.z.ValueCell?
  }

  /** A value row missing its y or z value: the C++ sample skips it, the Python sample fails. */
  predicate Broken(r: Row)
  {
    r.x.ValueCell? && !Complete(r)
  }

  /** How one row affects the strips: it adds a point, ends the strip, or is ignored. */
  datatype Kind = Point | Break | Skip

  /** C++ counts complete value rows and ends a strip at a string input only; Python counts
      every value row and ends a strip at anything else in column 0. */
  function KindOf(lang: Lang, r: Row): Kind
  {
    if r.x.ValueCell? then (if Complete(r) || lang == Python then Point else Skip)
    else if r.x.StringCell? || lang == Python then Break
    else Skip
  }

  function CountKind(lang: Lang, rows: seq<Row>, k: Kind): nat
  {
    if rows == [] then 0
    else CountKind(lang, rows[..|rows| - 1], k) + (if KindOf(lang, rows[|rows| - 1]) == k then 1 else 0)
  }

  /** The strip lengths after one more row of kind `k`: a point lengthens the open strip,
      a break closes it and opens an empty one. */
  function Extend(prev: seq<nat>, k: Kind): (r: seq<nat>)
    requires |prev| >= 1
    ensures |r| >= 1
  {
    match k
    case Point => prev[..|prev| - 1] + [prev[|prev| - 1] + 1]
    case Break => prev + [0]
    case Skip => prev
  }

  /** Reference definition of the strip lengths, row by row from a single empty strip. */
  function Runs(lang: Lang, rows: seq<Row>): (r: seq<nat>)
    ensures |r| >= 1
  {
    if rows == [] then [0] else Extend(Runs(lang, rows[..|rows| - 1]), KindOf(lang, rows[|rows| - 1]))
  }

  /** The coordinates a row contributes: x, y, z of a complete row, nothing otherwise. */
  function RowCoords(r: Row): (c: seq<real>)
    ensures |c| == if Complete(r) then 3 else 0
  {
    if Complete(r) then [r.x.value, r.y.value, r.z.value] else []
  }

  /** Reference definition of the coordinate list: the coordinates of every row, in order. */
  function Coords(rows: seq<Row>): seq<real>
  {
    if rows == [] then [] else Coords(rows[..|rows| - 1]) + RowCoords(rows[|rows| - 1])
  }

  lemma RunsStep(lang: Lang, rows: seq<Row>, i: nat)
    requires i < |rows|
    ensures Runs(lang, rows[..i + 1]) == Extend(Runs(lang, rows[..i]), KindOf(lang, rows[i]))
    ensures Coords(rows[..i + 1]) == Coords(rows[..i]) + RowCoords(rows[i])
  {
    assert rows[..i + 1][..i] == rows[..i];
  }

  /** One strip per break, plus the one still open at the end. */
  lemma {:induction false} RunsCount(lang: Lang, rows: seq<Row>)
    ensures |Runs(lang, rows)| == CountKind(lang, rows, Break) + 1
  {
    if rows != [] {
      RunsCount(lang, rows[..|rows| - 1]);
    }
  }

  /** The strips together hold every point once. */
  lemma {:induction false} RunsSum(lang: Lang, rows: seq<Row>)
    ensures Sum(Runs(lang, rows)) == CountKind(lang, rows, Point)
  {
    if rows != [] {
      var init := rows[..|rows| - 1];
      var prev := Runs(lang, init);
      RunsSum(lang, init);
      var n := |prev| - 1;
      assert prev == prev[..n] + [prev[n]];
      SumAppend(prev[..n], [prev[n]]);
      match KindOf(lang, rows[|rows| - 1])
      case Point =>
        SumAppend(prev[..n], [prev[n] + 1]);
      case Break =>
        SumAppend(prev, [0]);
      case Skip =>
    }
  }

  /** Three coordinates per point, in either sample (Python only when no row is broken). */
  lemma {:induction false} CoordsCount(lang: Lang, rows: seq<Row>)
    requires lang == Cpp || forall i :: 0 <= i < |rows| ==> !Broken(rows[i])
    ensures |Coords(rows)| == 3 * CountKind(lang, rows, Point)
  {
    if rows != [] {
      var init := rows[..|rows| - 1];
      assert forall i :: 0 <= i < |init| ==> init[i] == rows[i];
      CoordsCount(lang, init);
    }
  }

  /** `Extend` on the closed strips `done` followed by the open strip `open`. */
  lemma ExtendOpen(done: seq<nat>, open: nat, k: Kind)
    ensures k == Point ==> Extend(done + [open], k) == done + [open + 1]
    ensures k == Break ==> Extend(done + [open], k) == (done + [open]) + [0]
    ensures k == Skip ==> Extend(done + [open], k) == done + [open]
  {
    assert (done + [open])[..|done|] == done;
  }

  /** C++ `getCoordinatesFromTable`: no table gives nothing; otherwise the coordinates of the
      complete rows and one strip length per string marker plus the final strip. */
  method GetCoordinatesFromTable(table: Option<Table>) returns (coords: seq<real>, strips: seq<nat>)
    ensures table.None? ==> coords == [] && strips == []
    ensures table.Some? ==> coords == Coords(table.value.rows) && strips == Runs(Cpp, table.value.rows)
    ensures table.Some? ==> |strips| == CountKind(Cpp, table.value.rows, Break) + 1
    ensures table.Some? ==> Sum(strips) == CountKind(Cpp, table.value.rows, Point)
    ensures |coords| == 3 * Sum(strips)
  {
    coords := [];
    strips := [];
    if table.Some? {
      var rows := table.value.rows;
      var stripLen: nat := 0;
      for i := 0 to |rows|
        invariant coords == Coords(rows[..i])
        invariant strips + [stripLen] == Runs(Cpp, rows[..i])
      {
        RunsStep(Cpp, rows, i);
        ExtendOpen(strips, stripLen, KindOf(Cpp, rows[i]));
        var row := rows[i];
        if row.x.ValueCell? {
          if row.y.ValueCell? && row.z.ValueCell? {
            coords := coords + [row.x.value, row.y.value, row.z.value];
            stripLen := stripLen + 1;
          }
        } else if row.x.StringCell? {
          strips := strips + [stripLen];
          stripLen := 0;
        }
      }
      strips := strips + [stripLen];
      assert rows[..|rows|] == rows;
      RunsCount(Cpp, rows);
      RunsSum(Cpp, rows);
      CoordsCount(Cpp, rows);
    }
  }

  /** Python `getCoordinatesFromTable`: no table gives two empty lists; a broken row makes the
      read of the missing value raise, so the function returns None; otherwise as in C++ but
      with every non-value row ending a strip. */
  method PyGetCoordinatesFromTable(table: Option<Table>) returns (r: Option<(seq<real>, seq<nat>)>)
    ensures table.None? ==> r == Some(([], []))
    ensures table.Some? ==> (r.None? <==> exists i :: 0 <= i < |table.value.rows| && Broken(table.value.rows[i]))
    ensures table.Some? && r.Some? ==>
      r.value.0 == Coords(table.value.rows) && r.value.1 == Runs(Python, table.value.rows)
    ensures table.Some? && r.Some? ==>
      |r.value.1| == CountKind(Python, table.value.rows, Break) + 1 &&
      Sum(r.value.1) == CountKind(Python, table.value.rows, Point)
    ensures r.Some? ==> |r.value.0| == 3 * Sum(r.value.1)
  {
    if table.None? {
      return Some(([], []));
    }
    var rows := table.value.rows;
    var coords: seq<real> := [];
    var strips: seq<nat> := [];
    var stripLen: nat := 0;
    for i := 0 to |rows|
      invariant coords == Coords(rows[..i])
      invariant strips + [stripLen] == Runs(Python, rows[..i])
      invariant forall k :: 0 <= k < i ==> !Broken(rows[k])
    {
      var row := rows[i];
      if Broken(row) {
        return None;
      }
      RunsStep(Python, rows, i);
      ExtendOpen(strips, stripLen, KindOf(Python, row));
      if row.x.ValueCell? {
        stripLen := stripLen + 1;
        coords := coords + [row.x.value, row.y.value, row.z.value];
      } else {
        strips := strips + [stripLen];
        stripLen := 0;
      }
    }
    strips := strips + [stripLen];
    assert rows[..|rows|] == rows;
    RunsCount(Python, rows);
    RunsSum(Python, rows);
    CoordsCount(Python, rows);
    return Some((coords, strips));
  }

  // ---------------------------------------------------------------------------------
  // What the buttons do to what is read

  /** A new row lengthens the open strip by one point with coordinates (n, n, n). */
  lemma {:induction false} AddRowLengthensStrip(lang: Lang, s: TableState)
    ensures var n := s.counters.rowNumber as real;
      Coords(AddRow(s).table.rows) == Coords(s.table.rows) + [n, n, n]
    ensures var prev := Runs(lang, s.table.rows);
      Runs(lang, AddRow(s).table.rows) == prev[..|prev| - 1] + [prev[|prev| - 1] + 1]
  {
    var rows := AddRow(s).table.rows;
    assert rows[..|rows| - 1] == s.table.rows;
  }

  /** A new marker closes the open strip and opens an empty one; no coordinate changes. */
  lemma {:induction false} AddLineStripStartsStrip(lang: Lang, s: TableState)
    ensures Coords(AddLineStrip(s).table.rows) == Coords(s.table.rows)
    ensures Runs(lang, AddLineStrip(s).table.rows) == Runs(lang, s.table.rows) + [0]
  {
    var rows := AddLineStrip(s).table.rows;
    assert rows[..|rows| - 1] == s.table.rows;
  }
}
