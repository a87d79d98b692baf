/** The bounded preview of a workbook: what the nested budgets let through. */
module Workbook {
  import opened Statuses
  import opened CellReferences

  const MAX_SHEETS: nat := 32
  const MAX_ROWS: nat := 500
  const MAX_COLUMNS: int := 100
  const MAX_CELLS: nat := 10000
  const MAX_MERGES: nat := 2000
  const MAX_COLUMN_METADATA: nat := 500

  /** A parsed cell; `value` stands for everything that is rendered of it. */
  datatype Cell = Cell(ref: string, value: string)

  datatype Row = Row(index: int, hidden: bool, cells: seq<Cell>)

  /** A parsed sheet; `target` says whether the workbook names a part for it. */
  datatype Sheet = Sheet(name: string, target: bool, rows: seq<Row>, merges: nat, columns: nat)

  datatype Rendered = Rendered(name: string, rows: seq<Row>, truncated: bool)

  // ---------- filter, then cut ----------

  predicate Usable(c: Cell) {
    Position(c.ref).Some? && Position(c.ref).value.1 <= MAX_COLUMNS
  }

  /** Exactly the cells of the columns A to CV are usable. */
  lemma UsableExactly(c: Cell)
    ensures Usable(c) <==> exists letters, digits ::
                             c.ref == letters + digits && WellWritten(letters, digits) && FirstHundred(letters)
  {
    PositionsExactly(c.ref);
    forall letters, digits | c.ref == letters + digits && WellWritten(letters, digits)
      ensures Usable(c) <==> FirstHundred(letters)
    {
      PositionOf(letters, digits);
      FirstHundredColumns(letters);
    }
  }

  function UsableCells(cells: seq<Cell>): seq<Cell> {
    if cells == [] then []
    else (if Usable(cells[0]) then [cells[0]] else []) + UsableCells(cells[1..])
  }

  /** A row with its usable cells, if it has one or is hidden. */
  function ShownOne(row: Row): seq<Row> {
    var usable := UsableCells(row.cells);
    if usable != [] || row.hidden then [row.(cells := usable)] else []
  }

  /** The rows worth showing. */
  function Shown(rows: seq<Row>): seq<Row> {
    if rows == [] then [] else ShownOne(rows[0]) + Shown(rows[1..])
  }

  function CellCount(rows: seq<Row>): nat {
    if rows == [] then 0 else |rows[0].cells| + CellCount(rows[1..])
  }

  /** The longest beginning of `rows` within both budgets; its last row may be cut. */
  function Cut(rows: seq<Row>, maxRows: nat, maxCells: nat): (r: seq<Row>)
    ensures |r| <= maxRows && |r| <= |rows|
    ensures CellCount(r) <= maxCells
  {
    if rows == [] || maxRows == 0 || maxCells == 0 then []
    else
      var first := Trim(rows[0], maxCells);
      [first] + Cut(rows[1..], maxRows - 1, maxCells - |first.cells|)
  }

  /** The cells of a row that fit. */
  function Trim(row: Row, maxCells: nat): (r: Row)
    ensures |r.cells| <= maxCells
    ensures |row.cells| <= maxCells ==> r == row
  {
    if |row.cells| <= maxCells then row else row.(cells := row.cells[..maxCells])
  }

  predicate AllUsable(rows: seq<Row>) {
    forall i, j :: 0 <= i < |rows| && 0 <= j < |rows[i].cells| ==> Usable(rows[i].cells[j])
  }

  /** The usable cells of a row, cut at a budget. */
  function Fitting(row: Row, budget: nat): (r: seq<Cell>)
    ensures |r| <= budget
  {
    var usable := UsableCells(row.cells);
    if |usable| <= budget then usable else usable[..budget]
  }

  /** The inner loop over the cells of a row. */
  method RenderRow(row: Row, budget: nat) returns (cells: seq<Cell>, truncated: bool)
    ensures cells == Fitting(row, budget)
    ensures !truncated ==> cells == row.cells
    ensures truncated <==> |cells| < |row.cells|
  {
    cells, truncated := [], false;
    var j := 0;
    ghost var usable := UsableCells(row.cells);
    while j < |row.cells|
      invariant 0 <= j <= |row.cells| && |cells| <= budget
      invariant cells + UsableCells(row.cells[j..]) == usable
      invariant |cells| <= j && (truncated <==> |cells| < j) && (!truncated ==> cells == row.cells[..j])
    {
      UsableStep(row.cells, j, cells);
      if !Usable(row.cells[j]) {
        truncated := true;
      } else {
        if |cells| >= budget {
          truncated := true;
          assert cells == usable[..budget];
          return;
        }
        cells := cells + [row.cells[j]];
      }
      j := j + 1;
    }
    assert row.cells[j..] == [] && row.cells[..j] == row.cells;
    assert cells == usable;
  }

  lemma {:induction false} UsableStep(all: seq<Cell>, j: nat, cells: seq<Cell>)
    requires j < |all|
    ensures cells + UsableCells(all[j..]) == (if Usable(all[j]) then cells + [all[j]] else cells) + UsableCells(all[j + 1..])
    ensures Usable(all[j]) ==> |UsableCells(all[j..])| > 0
    ensures cells == all[..j] ==> cells + [all[j]] == all[..j + 1]
  {
    assert all[j..][0] == all[j] && all[j..][1..] == all[j + 1..];
    var rest := UsableCells(all[j + 1..]);
    assert cells + ([all[j]] + rest) == (cells + [all[j]]) + rest;
    assert [] + rest == rest;
  }

  lemma {:induction false} UsableCount(cells: seq<Cell>)
    ensures |UsableCells(cells)| <= |cells|
    ensures |UsableCells(cells)| == |cells| <==> (forall j :: 0 <= j < |cells| ==> Usable(cells[j]))
    ensures |UsableCells(cells)| == |cells| ==> UsableCells(cells) == cells
  {
    if cells != [] {
      UsableCount(cells[1..]);
      if |UsableCells(cells)| == |cells| {
        assert cells == [cells[0]] + cells[1..];
      }
    }
  }

  lemma {:induction false} CountJoins(a: seq<Row>, b: seq<Row>)
    ensures CellCount(a + b) == CellCount(a) + CellCount(b)
  {
    if a == [] {
      assert a + b == b;
    } else {
      assert (a + b)[1..] == a[1..] + b;
      CountJoins(a[1..], b);
    }
  }

  /** The beginning of the rows emitted so far and what the rest may still add. */
  predicate Halfway(shown: seq<Row>, rest: seq<Row>, out: seq<Row>, used: nat, maxRows: nat, remaining: nat) {
    && |out| <= maxRows && used == CellCount(out) <= remaining
    && out + Cut(rest, maxRows - |out|, remaining - used) == Cut(shown, maxRows, remaining)
  }

  /** What is emitted so far has a row for each row worth showing, and none of them is cut. */
  predicate Complete(all: seq<Row>, i: nat, out: seq<Row>) {
    i <= |all| && out + Shown(all[i..]) == Shown(all)
  }

  lemma {:induction false} ShownStep(all: seq<Row>, i: nat)
    requires i < |all|
    ensures Shown(all[i..]) == ShownOne(all[i]) + Shown(all[i + 1..])
  {
    assert all[i..][0] == all[i] && all[i..][1..] == all[i + 1..];
  }

  /** The next shown row is emitted as far as the cells go. */
  lemma {:induction false} NextShown(shown: seq<Row>, row: Row, one: Row, rest: seq<Row>, out: seq<Row>, used: nat, maxRows: nat, remaining: nat)
    requires Halfway(shown, [row] + rest, out, used, maxRows, remaining) && |out| < maxRows && used < remaining
    requires one == Trim(row, remaining - used)
    ensures Halfway(shown, rest, out + [one], used + |one.cells|, maxRows, remaining)
  {
    CountOne(out, one);
    var tail := Cut(rest, maxRows - |out| - 1, remaining - used - |one.cells|);
    assert Cut([row] + rest, maxRows - |out|, remaining - used) == [one] + tail by {
      assert ([row] + rest)[1..] == rest;
    }
    Regroup(out, one, tail);
  }

  lemma {:induction false} Regroup(out: seq<Row>, one: Row, tail: seq<Row>)
    ensures out + ([one] + tail) == (out + [one]) + tail
  {
  }

  lemma {:induction false} CountOne(out: seq<Row>, row: Row)
    ensures CellCount(out + [row]) == CellCount(out) + |row.cells|
  {
    CountJoins(out, [row]);
    assert CellCount([row]) == |row.cells| + CellCount([row][1..]);
  }

  /** A row is emitted if it has a cell to show or is hidden. */
  function Emit(out: seq<Row>, row: Row, cells: seq<Cell>): seq<Row> {
    if cells != [] || row.hidden then out + [row.(cells := cells)] else out
  }

  /** A budget is used up. */
  predicate Full(out: seq<Row>, maxRows: nat, maxCells: nat) {
    |out| >= maxRows || CellCount(out) >= maxCells
  }

  /** The flag of the rows that were emitted as `out`: a cell cannot be shown, something to show is missing,
      or a budget was used up before a last row with nothing to show. */
  predicate RowsFlag(all: seq<Row>, out: seq<Row>, maxRows: nat, maxCells: nat) {
    || !AllUsable(all)
    || out != Shown(all)
    || (all != [] && ShownOne(all[|all| - 1]) == [] && Full(out, maxRows, maxCells))
  }

  /** The flag on the way. */
  predicate Flag(all: seq<Row>, i: nat, out: seq<Row>, maxRows: nat, remaining: nat, truncated: bool) {
    && i <= |all| && |out| + |Shown(all[i..])| == |Shown(all)|
    && (truncated <==> !AllUsable(all[..i]) || !Complete(all, i, out))
    && (!Full(out, maxRows, remaining) ==> Complete(all, i, out))
    && (i > 0 && ShownOne(all[i - 1]) == [] ==> !Full(out, maxRows, remaining))
  }

  lemma {:induction false} UsableSoFar(all: seq<Row>, i: nat)
    requires i < |all|
    ensures AllUsable(all[..i + 1]) <==> AllUsable(all[..i]) && UsableCells(all[i].cells) == all[i].cells
  {
    UsableCount(all[i].cells);
    assert all[..i + 1] == all[..i] + [all[i]];
  }

  /** One more row: whole exactly if all its usable cells fit. */
  lemma {:induction false} NextComplete(all: seq<Row>, i: nat, out: seq<Row>, cells: seq<Cell>, budget: nat)
    requires i < |all| && Complete(all, i, out) && budget > 0 && cells == Fitting(all[i], budget)
    ensures |Emit(out, all[i], cells)| + |Shown(all[i + 1..])| == |Shown(all)|
    ensures Complete(all, i + 1, Emit(out, all[i], cells)) <==> cells == UsableCells(all[i].cells)
    ensures ShownOne(all[i]) == [] ==> Emit(out, all[i], cells) == out
  {
    ShownStep(all, i);
    var row, rest := all[i], Shown(all[i + 1..]);
    if ShownOne(row) == [] {
      assert [] + rest == rest;
    } else {
      SameRow(out, row.(cells := cells), row.(cells := UsableCells(row.cells)), rest);
    }
  }

  lemma {:induction false} SameRow(out: seq<Row>, next: Row, usable: Row, rest: seq<Row>)
    ensures |(out + [next]) + rest| == |out + ([usable] + rest)|
    ensures (out + [next]) + rest == out + ([usable] + rest) <==> next == usable
  {
    assert out + ([usable] + rest) == (out + [usable]) + rest;
    assert ((out + [usable]) + rest)[|out|] == usable && ((out + [next]) + rest)[|out|] == next;
  }

  lemma {:induction false} NextFlag(all: seq<Row>, i: nat, out: seq<Row>, cells: seq<Cell>, cut: bool, maxRows: nat, remaining: nat, truncated: bool)
    requires i < |all| && Flag(all, i, out, maxRows, remaining, truncated) && !Full(out, maxRows, remaining)
    requires cells == Fitting(all[i], remaining - CellCount(out)) && (cut <==> |cells| < |all[i].cells|)
    ensures Flag(all, i + 1, Emit(out, all[i], cells), maxRows, remaining, truncated || cut)
  {
    NextComplete(all, i, out, cells, remaining - CellCount(out));
    UsableSoFar(all, i);
    UsableCount(all[i].cells);
    CountOne(out, all[i].(cells := cells));
  }

  /** The loop stops early, and the flag is raised for good. */
  lemma {:induction false} StoppedFlag(all: seq<Row>, i: nat, out: seq<Row>, maxRows: nat, remaining: nat, truncated: bool)
    requires i < |all| && Flag(all, i, out, maxRows, remaining, truncated) && Full(out, maxRows, remaining)
    ensures RowsFlag(all, out, maxRows, remaining)
  {
    var last := all[|all| - 1];
    if ShownOne(last) != [] {
      LastShown(all, i);
    }
  }

  lemma {:induction false} LastShown(all: seq<Row>, i: nat)
    requires i < |all| && ShownOne(all[|all| - 1]) != []
    ensures |Shown(all[i..])| > 0
    decreases |all| - i
  {
    ShownStep(all, i);
    if i + 1 < |all| {
      LastShown(all, i + 1);
    }
  }

  /** The loop over the rows: those worth showing, cut at both budgets, and exactly when it is flagged. */
  method RenderRows(all: seq<Row>, maxRows: nat, remaining: nat) returns (out: seq<Row>, used: nat, truncated: bool)
    ensures out == Cut(Shown(all), maxRows, remaining) && used == CellCount(out)
    ensures truncated <==> RowsFlag(all, out, maxRows, remaining)
    ensures truncated ==> !AllUsable(all) || Full(out, maxRows, remaining)
  {
    out, used, truncated := [], 0, false;
    var i := 0;
    Begin(all, maxRows, remaining);
    while i < |all|
      invariant 0 <= i <= |all| && Halfway(Shown(all), Shown(all[i..]), out, used, maxRows, remaining)
      invariant Flag(all, i, out, maxRows, remaining, truncated)
    {
      if |out| >= maxRows || used >= remaining {
        Finish(Shown(all), Shown(all[i..]), out, used, maxRows, remaining);
        StoppedFlag(all, i, out, maxRows, remaining, truncated);
        truncated := true;
        return;
      }
      var cells, cut := RenderRow(all[i], remaining - used);
      NextOne(all, i, out, used, cells, maxRows, remaining);
      NextFlag(all, i, out, cells, cut, maxRows, remaining, truncated);
      out := Emit(out, all[i], cells);
      used := used + |cells|;
      truncated := truncated || cut;
      i := i + 1;
    }
    Finish(Shown(all), Shown(all[i..]), out, used, maxRows, remaining);
    FinishFlag(all, out, maxRows, remaining, truncated);
  }

  /** What is emitted of the rows `first`, one at most. */
  function Emission(first: seq<Row>, budget: nat): seq<Row> {
    if first == [] then [] else [Trim(first[0], budget)]
  }

  lemma {:induction false} Emitted(out: seq<Row>, row: Row, cells: seq<Cell>, budget: nat)
    requires budget > 0 && cells == Fitting(row, budget)
    ensures Emit(out, row, cells) == out + Emission(ShownOne(row), budget)
    ensures |cells| == CellCount(Emission(ShownOne(row), budget))
  {
    CountOne([], row.(cells := cells));
    assert [] + [row.(cells := cells)] == [row.(cells := cells)];
    assert out + [] == out;
  }

  lemma {:induction false} NextRest(shown: seq<Row>, first: seq<Row>, rest: seq<Row>, out: seq<Row>, used: nat, maxRows: nat, remaining: nat)
    requires Halfway(shown, first + rest, out, used, maxRows, remaining) && |out| < maxRows && used < remaining && |first| <= 1
    ensures var more := Emission(first, remaining - used);
            Halfway(shown, rest, out + more, used + CellCount(more), maxRows, remaining)
  {
    if first == [] {
      assert [] + rest == rest && out + [] == out;
    } else {
      assert first == [first[0]];
      NextShown(shown, first[0], Trim(first[0], remaining - used), rest, out, used, maxRows, remaining);
      CountOne([], Trim(first[0], remaining - used));
      assert [] + [Trim(first[0], remaining - used)] == [Trim(first[0], remaining - used)];
    }
  }

  lemma {:induction false} NextOne(all: seq<Row>, i: nat, out: seq<Row>, used: nat, cells: seq<Cell>, maxRows: nat, remaining: nat)
    requires i < |all| && Halfway(Shown(all), Shown(all[i..]), out, used, maxRows, remaining)
    requires |out| < maxRows && used < remaining && cells == Fitting(all[i], remaining - used)
    ensures Halfway(Shown(all), Shown(all[i + 1..]), Emit(out, all[i], cells), used + |cells|, maxRows, remaining)
  {
    ShownStep(all, i);
    Emitted(out, all[i], cells, remaining - used);
    NextRest(Shown(all), ShownOne(all[i]), Shown(all[i + 1..]), out, used, maxRows, remaining);
  }

  lemma {:induction false} Begin(all: seq<Row>, maxRows: nat, remaining: nat)
    ensures Halfway(Shown(all), Shown(all[0..]), [], 0, maxRows, remaining) && Flag(all, 0, [], maxRows, remaining, false)
  {
    assert all[0..] == all && all[..0] == [];
    assert [] + Shown(all) == Shown(all);
  }

  lemma {:induction false} Finish(shown: seq<Row>, rest: seq<Row>, out: seq<Row>, used: nat, maxRows: nat, remaining: nat)
    requires Halfway(shown, rest, out, used, maxRows, remaining) && (rest == [] || |out| >= maxRows || used >= remaining)
    ensures out == Cut(shown, maxRows, remaining)
  {
    assert out + [] == out;
  }

  lemma {:induction false} FinishFlag(all: seq<Row>, out: seq<Row>, maxRows: nat, remaining: nat, truncated: bool)
    requires Flag(all, |all|, out, maxRows, remaining, truncated)
    ensures truncated <==> RowsFlag(all, out, maxRows, remaining)
    ensures truncated ==> !AllUsable(all) || Full(out, maxRows, remaining)
  {
    assert all[|all|..] == [] && all[..|all|] == all;
    assert out + [] == out;
  }

  /** A sheet under what is left of the cell budget. */
  predicate SheetPreview(sheet: Sheet, r: Rendered, remaining: nat) {
    && r.name == sheet.name && r.rows == Cut(Shown(sheet.rows), 500, remaining)
    && (r.truncated <==> RowsFlag(sheet.rows, r.rows, 500, remaining) || sheet.merges > 2000 || sheet.columns > 500)
  }

  /** `_render_sheet`. */
  method RenderSheet(sheet: Sheet, remaining: nat) returns (r: Rendered, used: nat)
    ensures SheetPreview(sheet, r, remaining) && used == CellCount(r.rows) <= remaining && |r.rows| <= 500
  {
    var rows, count, truncated := RenderRows(sheet.rows, MAX_ROWS, remaining);
    if sheet.merges > MAX_MERGES || sheet.columns > MAX_COLUMN_METADATA {
      truncated := true;
    }
    r := Rendered(sheet.name, rows, truncated);
    used := count;
  }

  // ---------- the workbook ----------

  function Targets(sheets: seq<Sheet>, limit: nat): (t: seq<Sheet>)
    ensures |t| <= limit && |t| <= |sheets|
  {
    if sheets == [] || limit == 0 then []
    else if sheets[0].target then [sheets[0]] + Targets(sheets[1..], limit - 1)
    else Targets(sheets[1..], limit)
  }

  lemma {:induction false} AllTargets(sheets: seq<Sheet>, limit: nat)
    requires |Targets(sheets, limit)| == |sheets|
    ensures Targets(sheets, limit) == sheets
  {
    if sheets != [] {
      assert sheets == [sheets[0]] + sheets[1..];
      AllTargets(sheets[1..], limit - 1);
    }
  }

  function TotalCells(out: seq<Rendered>): nat {
    if out == [] then 0 else TotalCells(out[..|out| - 1]) + CellCount(out[|out| - 1].rows)
  }

  /** A sheet rendered without leaving anything out. */
  predicate Whole(sheet: Sheet, r: Rendered) {
    && !r.truncated && r.name == sheet.name && r.rows == Shown(sheet.rows) && AllUsable(sheet.rows)
    && sheet.merges <= 2000 && sheet.columns <= 500
  }

  /** The sheets share the cell budget in order. */
  predicate Previews(targets: seq<Sheet>, rendered: seq<Rendered>, maxCells: nat) {
    if rendered == [] then true
    else
      var front, last := rendered[..|rendered| - 1], |rendered| - 1;
      && last < |targets| && TotalCells(front) < maxCells && Previews(targets, front, maxCells)
      && SheetPreview(targets[last], rendered[last], maxCells - TotalCells(front))
  }

  /** A sheet that is not flagged is whole. */
  lemma {:induction false} UnflaggedSheet(sheet: Sheet, r: Rendered, remaining: nat)
    requires SheetPreview(sheet, r, remaining) && !r.truncated
    ensures Whole(sheet, r)
  {
  }

  predicate SomeFlagged(rendered: seq<Rendered>) {
    exists k :: 0 <= k < |rendered| && rendered[k].truncated
  }

  /** `render_workbook` once the parts are parsed; `sharedTruncated` is the flag of the shared strings.
      The first sheets with a part share the cell budget in order until it is used up, and the flag is
      exact. */
  method RenderWorkbook(sheets: seq<Sheet>, sharedTruncated: bool) returns (out: Option<seq<Rendered>>, truncated: bool)
    ensures out.None? <==> Targets(sheets, 32) == []
    ensures out.Some? ==>
              var targets := Targets(sheets, 32);
              && Previews(targets, out.value, 10000) && |out.value| <= |targets| && TotalCells(out.value) <= 10000
              && (|out.value| < |targets| ==> TotalCells(out.value) == 10000)
              && (truncated <==> sharedTruncated || |targets| < |sheets| || TotalCells(out.value) == 10000 || SomeFlagged(out.value))
  {
    var targets := Targets(sheets, MAX_SHEETS);
    if targets == [] {
      return None, true;
    }
    var rendered: seq<Rendered> := [];
    var total, flagged := 0, false;
    while |rendered| < |targets| && total < MAX_CELLS
      invariant |rendered| <= |targets| && Previews(targets, rendered, MAX_CELLS) && total == TotalCells(rendered) <= MAX_CELLS
      invariant flagged <==> SomeFlagged(rendered)
    {
      var sheet, used := NextSheet(targets, rendered, MAX_CELLS, total);
      AnotherTotal(rendered, sheet);
      rendered := rendered + [sheet];
      total := total + used;
      flagged := flagged || sheet.truncated;
    }
    truncated := sharedTruncated || |sheets| > |targets| || total >= MAX_CELLS || flagged;
    out := Some(rendered);
  }

  /** One more sheet, with what is left of the cell budget. */
  method NextSheet(targets: seq<Sheet>, rendered: seq<Rendered>, maxCells: nat, total: nat) returns (sheet: Rendered, used: nat)
    requires |rendered| < |targets| && Previews(targets, rendered, maxCells) && total == TotalCells(rendered) < maxCells
    ensures Previews(targets, rendered + [sheet], maxCells) && used == CellCount(sheet.rows) <= maxCells - total
  {
    sheet, used := RenderSheet(targets[|rendered|], maxCells - total);
    AnotherSheet(targets, rendered, sheet, maxCells);
  }

  lemma {:induction false} AnotherSheet(targets: seq<Sheet>, rendered: seq<Rendered>, sheet: Rendered, maxCells: nat)
    requires |rendered| < |targets| && Previews(targets, rendered, maxCells) && TotalCells(rendered) < maxCells
    requires SheetPreview(targets[|rendered|], sheet, maxCells - TotalCells(rendered))
    ensures Previews(targets, rendered + [sheet], maxCells)
  {
    assert (rendered + [sheet])[..|rendered|] == rendered && (rendered + [sheet])[|rendered|] == sheet;
  }

  lemma {:induction false} AnotherTotal(rendered: seq<Rendered>, sheet: Rendered)
    ensures TotalCells(rendered + [sheet]) == TotalCells(rendered) + CellCount(sheet.rows)
    ensures SomeFlagged(rendered + [sheet]) <==> SomeFlagged(rendered) || sheet.truncated
  {
    var more := rendered + [sheet];
    assert more[..|rendered|] == rendered && more[|rendered|] == sheet;
    if SomeFlagged(rendered) {
      var k :| 0 <= k < |rendered| && rendered[k].truncated;
      assert more[k].truncated;
    }
  }

  /** A sheet that is not flagged is whole, wherever the shared budget ends. */
  lemma {:induction false} UnflaggedIsWhole(targets: seq<Sheet>, rendered: seq<Rendered>, k: nat, maxCells: nat)
    requires k < |rendered| <= |targets| && Previews(targets, rendered, maxCells) && !rendered[k].truncated
    ensures Whole(targets[k], rendered[k])
  {
    var last := |rendered| - 1;
    if k == last {
      UnflaggedSheet(targets[k], rendered[k], maxCells - TotalCells(rendered[..last]));
    } else {
      UnflaggedIsWhole(targets, rendered[..last], k, maxCells);
    }
  }
}
