/** The bounded preview of a text document: one block budget and one text budget across the body, the
    headers and the footers, and a cell budget across all tables. */
module Document {
  const MAX_BLOCKS: nat := 5000
  const MAX_TABLE_CELLS: nat := 10000
  const MAX_TEXT_BYTES: nat := 4194304
  const MAX_PARTS: nat := 20
  const MAX_PARAGRAPHS: nat := 200

  // ---------- text of a rendered value ----------

  /** A rendered value: a string, a list or dictionary of values, or anything without text. */
  datatype Json = Text(s: string) | Many(items: Jsons) | Silent

  datatype Jsons = Nil | Cons(head: Json, tail: Jsons)

  /** `json_text`. */
  function JsonText(j: Json): string {
    match j
    case Text(s) => s
    case Many(items) => JsonTexts(items)
    case Silent => ""
  }

  function JsonTexts(js: Jsons): string {
    match js
    case Nil => ""
    case Cons(head, tail) => JsonText(head) + JsonTexts(tail)
  }

  /** The UTF-8 length of a string. */
  function Bytes(s: string): nat {
    if s == "" then 0
    else
      var c := s[0] as int;
      (if c < 0x80 then 1 else if c < 0x800 then 2 else if c < 0x10000 then 3 else 4) + Bytes(s[1..])
  }

  /** Where the code points from `limit` on are. */
  function From(s: string, limit: int): set<nat> {
    set k: nat | k < |s| && s[k] as int >= limit
  }

  lemma {:induction false} FromStep(s: string, limit: int)
    requires s != ""
    ensures |From(s, limit)| == (if s[|s| - 1] as int >= limit then 1 else 0) + |From(s[..|s| - 1], limit)|
  {
    var n := |s| - 1;
    assert From(s, limit) == (if s[n] as int >= limit then {n} else {}) + From(s[..n], limit);
  }

  lemma {:induction false} BytesJoin(a: string, b: string)
    ensures Bytes(a + b) == Bytes(a) + Bytes(b)
  {
    if a == "" {
      assert a + b == b;
    } else {
      assert (a + b)[1..] == a[1..] + b;
      BytesJoin(a[1..], b);
    }
  }

  /** Every character takes a byte, and one more from each of three code points on. */
  lemma {:induction false} BytesCount(s: string)
    ensures Bytes(s) == |s| + |From(s, 0x80)| + |From(s, 0x800)| + |From(s, 0x10000)|
  {
    if s != "" {
      var n := |s| - 1;
      BytesCount(s[..n]);
      assert s == s[..n] + s[n..];
      BytesJoin(s[..n], s[n..]);
      assert s[n..][1..] == "" && s[n..][0] == s[n];
      FromStep(s, 0x80);
      FromStep(s, 0x800);
      FromStep(s, 0x10000);
    }
  }

  /** The strings of a rendered value, in order. */
  function Strings(j: Json): seq<string> {
    if j.Text? then [j.s] else if j.Many? then AllStrings(j.items) else []
  }

  function AllStrings(js: Jsons): seq<string> {
    if js.Nil? then [] else Strings(js.head) + AllStrings(js.tail)
  }

  /** A paragraph with its text and everything rendered of it, or a table of cells. */
  datatype Block = Paragraph(text: string, value: Json) | Table(rows: seq<seq<Json>>)

  function Cells(rows: seq<seq<Json>>): seq<Json> {
    if rows == [] then [] else rows[0] + Cells(rows[1..])
  }

  function CellsText(cells: seq<Json>): string {
    if cells == [] then "" else JsonText(cells[0]) + CellsText(cells[1..])
  }

  function Weight(b: Block): nat {
    match b
    case Paragraph(_, value) => Bytes(JsonText(value))
    case Table(rows) => Bytes("table" + CellsText(Cells(rows)))
  }

  /** All UTF-8 bytes of some strings. */
  function AllBytes(strings: seq<string>): nat {
    if strings == [] then 0 else Bytes(strings[0]) + AllBytes(strings[1..])
  }

  function StringsOfCells(cells: seq<Json>): seq<string> {
    if cells == [] then [] else Strings(cells[0]) + StringsOfCells(cells[1..])
  }

  lemma {:induction false} AllBytesJoin(a: seq<string>, b: seq<string>)
    ensures AllBytes(a + b) == AllBytes(a) + AllBytes(b)
  {
    if a == [] {
      assert a + b == b;
    } else {
      assert (a + b)[1..] == a[1..] + b;
      AllBytesJoin(a[1..], b);
    }
  }

  lemma {:induction false} JsonBytes(j: Json)
    ensures Bytes(JsonText(j)) == AllBytes(Strings(j))
  {
    if j.Many? {
      JsonsBytes(j.items);
    }
  }

  lemma {:induction false} JsonsBytes(js: Jsons)
    ensures Bytes(JsonTexts(js)) == AllBytes(AllStrings(js))
  {
    if js.Cons? {
      JsonBytes(js.head);
      JsonsBytes(js.tail);
      BytesJoin(JsonText(js.head), JsonTexts(js.tail));
      AllBytesJoin(Strings(js.head), AllStrings(js.tail));
    }
  }

  lemma {:induction false} CellsBytes(cells: seq<Json>)
    ensures Bytes(CellsText(cells)) == AllBytes(StringsOfCells(cells))
  {
    if cells != [] {
      JsonBytes(cells[0]);
      CellsBytes(cells[1..]);
      BytesJoin(JsonText(cells[0]), CellsText(cells[1..]));
      AllBytesJoin(Strings(cells[0]), StringsOfCells(cells[1..]));
    }
  }

  /** A block weighs what its strings weigh; a table five bytes more, for its kind. */
  lemma WeightIsBytes(b: Block)
    ensures Weight(b) == if b.Paragraph? then AllBytes(Strings(b.value)) else 5 + AllBytes(StringsOfCells(Cells(b.rows)))
  {
    if b.Paragraph? {
      JsonBytes(b.value);
    } else {
      CellsBytes(Cells(b.rows));
      BytesJoin("table", CellsText(Cells(b.rows)));
      BytesCount("table");
    }
  }

  function TextOf(blocks: seq<Block>): nat {
    if blocks == [] then 0 else TextOf(blocks[..|blocks| - 1]) + Weight(blocks[|blocks| - 1])
  }

  function CellCount(b: Block): nat {
    if b.Table? then |Cells(b.rows)| else 0
  }

  function TableCells(blocks: seq<Block>): nat {
    if blocks == [] then 0 else TableCells(blocks[..|blocks| - 1]) + CellCount(blocks[|blocks| - 1])
  }

  lemma OneMore(blocks: seq<Block>, b: Block)
    ensures TextOf(blocks + [b]) == TextOf(blocks) + Weight(b) && TableCells(blocks + [b]) == TableCells(blocks) + CellCount(b)
  {
    assert (blocks + [b])[..|blocks|] == blocks;
  }

  // ---------- tables ----------

  /** Rows without cells vanish, and the cells stop at the budget. */
  function CutTable(rows: seq<seq<Json>>, n: nat): seq<seq<Json>> {
    if rows == [] then []
    else if |rows[0]| <= n then (if rows[0] == [] then [] else [rows[0]]) + CutTable(rows[1..], n - |rows[0]|)
    else if n == 0 then []
    else [rows[0][..n]]
  }

  function Prefix(cells: seq<Json>, n: nat): seq<Json> {
    if n < |cells| then cells[..n] else cells
  }

  /** The cut table holds exactly the first `n` cells of the table. */
  lemma {:induction false} CutTableCells(rows: seq<seq<Json>>, n: nat)
    ensures Cells(CutTable(rows, n)) == Prefix(Cells(rows), n)
  {
    if rows != [] {
      var first, later := rows[0], rows[1..];
      if |first| <= n {
        CutTableCells(later, n - |first|);
        var rest := CutTable(later, n - |first|);
        assert Cells((if first == [] then [] else [first]) + rest) == first + Cells(rest) by {
          CellsOfOne(first, rest);
        }
        assert first + Prefix(Cells(later), n - |first|) == Prefix(first + Cells(later), n);
      } else if n > 0 {
        CellsOfOne(first[..n], []);
        assert [first[..n]] + [] == [first[..n]];
      }
    }
  }

  lemma CellsOfOne(first: seq<Json>, rest: seq<seq<Json>>)
    ensures Cells((if first == [] then [] else [first]) + rest) == first + Cells(rest)
  {
    if first == [] {
      assert [] + rest == rest;
      assert first + Cells(rest) == Cells(rest);
    } else {
      assert ([first] + rest)[1..] == rest;
    }
  }

  /** `_table`: nothing but the cells past the budget is missing, and the flag says exactly whether
      some are. */
  method RenderTable(rows: seq<seq<Json>>, maxCells: nat) returns (out: seq<seq<Json>>, used: nat, truncated: bool)
    ensures out == CutTable(rows, maxCells) && Cells(out) == Prefix(Cells(rows), maxCells)
    ensures used == |Cells(out)| <= maxCells
    ensures truncated <==> |Cells(rows)| > maxCells
  {
    out, used, truncated := [], 0, false;
    var i := 0;
    StartTable(rows, maxCells);
    while i < |rows|
      invariant 0 <= i <= |rows| && !truncated && TableLoop(rows, i, maxCells, used, out)
    {
      var cells, cut := RenderCells(rows[i], maxCells - used);
      if cut {
        RowCut(rows, i, maxCells, used, out);
      } else {
        assert cells == rows[i];
        RowKept(rows, i, maxCells, used, out);
      }
      out, used := WithRow(out, cells), used + |cells|;
      if cut {
        truncated := true;
        return;
      }
      i := i + 1;
    }
    EndTable(rows, maxCells, used, out);
  }

  /** The cells of one table row, up to the budget. */
  method RenderCells(row: seq<Json>, budget: nat) returns (cells: seq<Json>, cut: bool)
    ensures cells == Prefix(row, budget) && (cut <==> |row| > budget)
  {
    cells := [];
    while |cells| < |row| && |cells| < budget
      invariant |cells| <= |row| && |cells| <= budget && cells == row[..|cells|]
    {
      cells := cells + [row[|cells|]];
    }
    cut := |cells| < |row|;
  }

  /** A row is emitted if it has cells. */
  function WithRow(out: seq<seq<Json>>, cells: seq<Json>): seq<seq<Json>> {
    if cells != [] then out + [cells] else out
  }

  /** In the middle of a table. */
  predicate TableLoop(rows: seq<seq<Json>>, i: nat, maxCells: nat, used: nat, out: seq<seq<Json>>) {
    && i <= |rows| && used <= maxCells
    && out + CutTable(rows[i..], maxCells - used) == CutTable(rows, maxCells)
    && used + |Cells(rows[i..])| == |Cells(rows)|
  }

  lemma StartTable(rows: seq<seq<Json>>, maxCells: nat)
    ensures TableLoop(rows, 0, maxCells, 0, [])
  {
    assert rows[0..] == rows;
  }

  lemma EndTable(rows: seq<seq<Json>>, maxCells: nat, used: nat, out: seq<seq<Json>>)
    requires TableLoop(rows, |rows|, maxCells, used, out)
    ensures out == CutTable(rows, maxCells) && used == |Cells(rows)| && Cells(out) == Prefix(Cells(rows), maxCells)
  {
    assert rows[|rows|..] == [];
    CutTableCells(rows, maxCells);
  }

  lemma RowStep(rows: seq<seq<Json>>, i: nat, n: nat)
    requires i < |rows|
    ensures Cells(rows[i..]) == rows[i] + Cells(rows[i + 1..])
    ensures |rows[i]| <= n ==>
              CutTable(rows[i..], n) == (if rows[i] == [] then [] else [rows[i]]) + CutTable(rows[i + 1..], n - |rows[i]|)
    ensures |rows[i]| > n ==> CutTable(rows[i..], n) == if n == 0 then [] else [rows[i][..n]]
  {
    assert rows[i..][0] == rows[i] && rows[i..][1..] == rows[i + 1..];
  }

  /** The loop stops with the budget used up. */
  lemma RowCut(rows: seq<seq<Json>>, i: nat, maxCells: nat, used: nat, out: seq<seq<Json>>)
    requires i < |rows| && TableLoop(rows, i, maxCells, used, out) && |rows[i]| > maxCells - used
    ensures var cells := rows[i][..maxCells - used];
            WithRow(out, cells) == CutTable(rows, maxCells)
    ensures |Cells(rows)| > maxCells && Cells(CutTable(rows, maxCells)) == Prefix(Cells(rows), maxCells)
  {
    RowStep(rows, i, maxCells - used);
    CutTableCells(rows, maxCells);
    assert out + [] == out;
  }

  /** The loop goes on with the next row. */
  lemma RowKept(rows: seq<seq<Json>>, i: nat, maxCells: nat, used: nat, out: seq<seq<Json>>)
    requires i < |rows| && TableLoop(rows, i, maxCells, used, out) && |rows[i]| <= maxCells - used
    ensures TableLoop(rows, i + 1, maxCells, used + |rows[i]|, WithRow(out, rows[i]))
  {
    RowStep(rows, i, maxCells - used);
    var rest := CutTable(rows[i + 1..], maxCells - used - |rows[i]|);
    assert out + ([rows[i]] + rest) == (out + [rows[i]]) + rest;
    assert [] + rest == rest;
  }

  // ---------- headers and footers ----------

  function Take<T>(s: seq<T>, n: nat): seq<T> {
    if n < |s| then s[..n] else s
  }

  function Texts(paragraphs: seq<Block>): seq<Block> {
    if paragraphs == [] then []
    else (if paragraphs[0].Paragraph? && paragraphs[0].text != "" then [paragraphs[0]] else []) + Texts(paragraphs[1..])
  }

  /** The paragraphs with text of the first 200 of each of the parts given. */
  function PartTexts(parts: seq<seq<Block>>): seq<Block> {
    if parts == [] then [] else Texts(Take(parts[0], MAX_PARAGRAPHS)) + PartTexts(parts[1..])
  }

  function Candidates(parts: seq<seq<Block>>): seq<Block> {
    PartTexts(Take(parts, MAX_PARTS))
  }

  /** As many candidates as fit both budgets, in order. */
  predicate Longest(blocks: seq<Block>, candidates: seq<Block>, maxBlocks: nat, maxText: nat) {
    && blocks <= candidates && |blocks| <= maxBlocks && TextOf(blocks) <= maxText
    && (|blocks| < |candidates| ==> |blocks| == maxBlocks || TextOf(blocks) + Weight(candidates[|blocks|]) > maxText)
  }

  /** The flag says whether some did not. */
  predicate Fits(blocks: seq<Block>, truncated: bool, candidates: seq<Block>, maxBlocks: nat, maxText: nat) {
    Longest(blocks, candidates, maxBlocks, maxText) && (truncated <==> |blocks| < |candidates|)
  }

  lemma TextsStep(paragraphs: seq<Block>, k: nat)
    requires k < |paragraphs|
    ensures var p := paragraphs[k];
            Texts(paragraphs[k..]) == (if p.Paragraph? && p.text != "" then [p] + Texts(paragraphs[k + 1..]) else Texts(paragraphs[k + 1..]))
  {
    assert paragraphs[k..][0] == paragraphs[k] && paragraphs[k..][1..] == paragraphs[k + 1..];
    assert [] + Texts(paragraphs[k + 1..]) == Texts(paragraphs[k + 1..]);
  }

  /** Blocks emitted so far, within the budgets. */
  predicate Within(blocks: seq<Block>, bytes: nat, maxBlocks: nat, maxText: nat) {
    |blocks| <= maxBlocks && bytes == TextOf(blocks) <= maxText
  }

  /** The paragraphs of one part, appended to `blocks`. */
  method PartBlocks(paragraphs: seq<Block>, blocks: seq<Block>, bytes: nat, maxBlocks: nat, maxText: nat)
    returns (out: seq<Block>, bytes': nat, stopped: bool)
    requires Within(blocks, bytes, maxBlocks, maxText)
    ensures Within(out, bytes', maxBlocks, maxText)
    ensures !stopped ==> out == blocks + Texts(paragraphs)
    ensures stopped ==> out < blocks + Texts(paragraphs) && (|out| == maxBlocks || TextOf(out) + Weight((blocks + Texts(paragraphs))[|out|]) > maxText)
  {
    out, bytes', stopped := blocks, bytes, false;
    var k := 0;
    ghost var all := blocks + Texts(paragraphs);
    assert paragraphs[0..] == paragraphs;
    while k < |paragraphs|
      invariant 0 <= k <= |paragraphs| && !stopped && Within(out, bytes', maxBlocks, maxText)
      invariant out + Texts(paragraphs[k..]) == all
    {
      TextsStep(paragraphs, k);
      var p := paragraphs[k];
      if p.Paragraph? && p.text != "" {
        assert out + ([p] + Texts(paragraphs[k + 1..])) == (out + [p]) + Texts(paragraphs[k + 1..]);
        assert all[|out|] == p && all[..|out|] == out;
        var encoded := Weight(p);
        if |out| >= maxBlocks || bytes' + encoded > maxText {
          stopped := true;
          return;
        }
        OneMore(out, p);
        out := out + [p];
        bytes' := bytes' + encoded;
      }
      k := k + 1;
    }
    assert paragraphs[k..] == [];
    assert out + [] == out;
  }

  lemma PartStep(used: seq<seq<Block>>, i: nat, blocks: seq<Block>)
    requires i < |used|
    ensures blocks + PartTexts(used[i..]) == (blocks + Texts(Take(used[i], MAX_PARAGRAPHS))) + PartTexts(used[i + 1..])
  {
    assert used[i..][0] == used[i] && used[i..][1..] == used[i + 1..];
    var first, rest := Texts(Take(used[i], MAX_PARAGRAPHS)), PartTexts(used[i + 1..]);
    assert blocks + (first + rest) == (blocks + first) + rest;
  }

  lemma StoppedInPart(out: seq<Block>, part: seq<Block>, later: seq<Block>, all: seq<Block>)
    requires out < part && all == part + later
    ensures out < all && all[|out|] == part[|out|]
  {
  }

  /** `_peripheral_blocks` on the parsed parts of one kind. */
  method PeripheralBlocks(parts: seq<seq<Block>>, maxBlocks: nat, maxText: nat) returns (blocks: seq<Block>, bytes: nat, truncated: bool)
    ensures Fits(blocks, truncated, Candidates(parts), maxBlocks, maxText) && bytes == TextOf(blocks)
  {
    blocks, bytes, truncated := [], 0, false;
    var used := Take(parts, MAX_PARTS);
    ghost var all := Candidates(parts);
    var i := 0;
    assert used[0..] == used;
    while i < |used|
      invariant 0 <= i <= |used| && !truncated && Within(blocks, bytes, maxBlocks, maxText)
      invariant blocks + PartTexts(used[i..]) == all
    {
      PartStep(used, i, blocks);
      ghost var part := blocks + Texts(Take(used[i], MAX_PARAGRAPHS));
      blocks, bytes, truncated := PartBlocks(Take(used[i], MAX_PARAGRAPHS), blocks, bytes, maxBlocks, maxText);
      if truncated {
        StoppedInPart(blocks, part, PartTexts(used[i + 1..]), all);
        return;
      }
      i := i + 1;
    }
    assert used[i..] == [];
    assert blocks == all;
  }

  // ---------- the document ----------

  datatype Child = Para(text: string, value: Json) | Grid(rows: seq<seq<Json>>) | Unknown

  function WholeBlock(child: Child): Block
    requires !child.Unknown?
  {
    match child
    case Para(text, value) => Paragraph(text, value)
    case Grid(rows) => Table(CutTable(rows, |Cells(rows)|))
  }

  /** Everything the preview can show of the body. */
  function Whole(children: seq<Child>): seq<Block> {
    if children == [] then []
    else
      var front, last := Whole(children[..|children| - 1]), children[|children| - 1];
      if last.Unknown? then front else front + [WholeBlock(last)]
  }

  lemma {:induction false} CutNothing(rows: seq<seq<Json>>, n: nat)
    requires |Cells(rows)| <= n
    ensures CutTable(rows, n) == CutTable(rows, |Cells(rows)|)
  {
    if rows != [] {
      CutNothing(rows[1..], n - |rows[0]|);
      CutNothing(rows[1..], |Cells(rows)| - |rows[0]|);
    }
  }

  lemma WholeStep(children: seq<Child>, i: nat)
    requires i < |children|
    ensures Whole(children[..i + 1]) ==
            if children[i].Unknown? then Whole(children[..i]) else Whole(children[..i]) + [WholeBlock(children[i])]
  {
    assert children[..i + 1][..i] == children[..i];
  }

  /** The block of a child under a cell budget. */
  function BlockOf(child: Child, budget: nat): Block
    requires !child.Unknown?
  {
    match child
    case Para(text, value) => Paragraph(text, value)
    case Grid(rows) => Table(CutTable(rows, budget))
  }

  /** Unknown elements are skipped, and tables once no cell may be shown. */
  predicate Skipped(child: Child, left: nat) {
    child.Unknown? || (child.Grid? && left == 0)
  }

  function Left(blocks: seq<Block>, maxCells: nat): nat {
    if TableCells(blocks) < maxCells then maxCells - TableCells(blocks) else 0
  }

  /** The body under the cell budget alone: each table gets what the tables before it have left, and none
      is shown once nothing is left. */
  function CutTables(children: seq<Child>, maxCells: nat): seq<Block> {
    if children == [] then []
    else
      var front, last := CutTables(children[..|children| - 1], maxCells), children[|children| - 1];
      var left := Left(front, maxCells);
      if Skipped(last, left) then front else front + [BlockOf(last, left)]
  }

  function AllCells(blocks: seq<Block>): seq<Json> {
    if blocks == [] then []
    else
      var front, last := AllCells(blocks[..|blocks| - 1]), blocks[|blocks| - 1];
      if last.Table? then front + Cells(last.rows) else front
  }

  function Paragraphs(blocks: seq<Block>): seq<Block> {
    if blocks == [] then []
    else
      var front, last := Paragraphs(blocks[..|blocks| - 1]), blocks[|blocks| - 1];
      if last.Paragraph? then front + [last] else front
  }

  lemma OneMoreBlock(blocks: seq<Block>, b: Block)
    ensures AllCells(blocks + [b]) == if b.Table? then AllCells(blocks) + Cells(b.rows) else AllCells(blocks)
    ensures Paragraphs(blocks + [b]) == if b.Paragraph? then Paragraphs(blocks) + [b] else Paragraphs(blocks)
    ensures TableCells(blocks + [b]) == TableCells(blocks) + CellCount(b)
  {
    OneMore(blocks, b);
    assert (blocks + [b])[..|blocks|] == blocks;
  }

  /** `cut` shows the first cells and all paragraphs of `whole`. */
  predicate FirstCells(cut: seq<Block>, whole: seq<Block>, maxCells: nat) {
    && AllCells(cut) == Prefix(AllCells(whole), maxCells)
    && TableCells(cut) == |AllCells(cut)| <= maxCells
    && Paragraphs(cut) == Paragraphs(whole)
  }

  /** The cell budget takes the first cells of the whole document, however its tables share them, and no
      paragraph. */
  lemma {:induction false} CutTablesKeepFirstCells(children: seq<Child>, maxCells: nat)
    ensures FirstCells(CutTables(children, maxCells), Whole(children), maxCells)
  {
    if children != [] {
      var front, last := children[..|children| - 1], children[|children| - 1];
      CutTablesKeepFirstCells(front, maxCells);
      if !last.Unknown? {
        ChildKeepsFirstCells(CutTables(front, maxCells), Whole(front), last, maxCells);
      }
    }
  }

  lemma ChildKeepsFirstCells(cut: seq<Block>, whole: seq<Block>, child: Child, maxCells: nat)
    requires FirstCells(cut, whole, maxCells) && !child.Unknown?
    ensures var left := Left(cut, maxCells);
            FirstCells(if Skipped(child, left) then cut else cut + [BlockOf(child, left)], whole + [WholeBlock(child)], maxCells)
  {
    OneMoreBlock(whole, WholeBlock(child));
    OneMoreBlock(cut, BlockOf(child, Left(cut, maxCells)));
    if child.Grid? {
      var left := Left(cut, maxCells);
      CutTableCells(child.rows, left);
      CutTableCells(child.rows, |Cells(child.rows)|);
      PrefixJoins(AllCells(whole), Cells(child.rows), maxCells);
    }
  }

  lemma PrefixJoins(a: seq<Json>, b: seq<Json>, n: nat)
    ensures Prefix(a + b, n) == Prefix(a, n) + Prefix(b, n - |Prefix(a, n)|)
  {
  }

  lemma CutTablesStep(children: seq<Child>, i: nat, maxCells: nat)
    requires i < |children|
    ensures var front := CutTables(children[..i], maxCells);
            var left := Left(front, maxCells);
            CutTables(children[..i + 1], maxCells) ==
            if Skipped(children[i], left) then front else front + [BlockOf(children[i], left)]
  {
    assert children[..i + 1][..i] == children[..i];
  }

  lemma {:induction false} CutTablesGrow(children: seq<Child>, i: nat, maxCells: nat)
    requires i <= |children|
    ensures CutTables(children[..i], maxCells) <= CutTables(children, maxCells)
    decreases |children| - i
  {
    if i == |children| {
      assert children[..i] == children;
    } else {
      CutTablesStep(children, i, maxCells);
      CutTablesGrow(children, i + 1, maxCells);
    }
  }

  /** Every child that is not skipped adds a block. */
  lemma {:induction false} WholeGrows(children: seq<Child>, i: nat)
    requires i <= |children|
    ensures |Whole(children[..i])| <= |Whole(children)|
    ensures i < |children| && !children[|children| - 1].Unknown? ==> |Whole(children[..i])| < |Whole(children)|
    decreases |children| - i
  {
    if i == |children| {
      assert children[..i] == children;
    } else {
      WholeStep(children, i);
      WholeGrows(children, i + 1);
      assert i + 1 == |children| ==> children[..i + 1] == children;
    }
  }

  /** The block of one child; tables get what is left of the cell budget. */
  method RenderChild(child: Child, budget: nat) returns (block: Block, used: nat, cut: bool)
    requires !child.Unknown?
    ensures block == BlockOf(child, budget)
    ensures used == CellCount(block) <= budget
    ensures cut <==> block != WholeBlock(child)
  {
    if child.Para? {
      return Paragraph(child.text, child.value), 0, false;
    }
    var rows, count, truncated := RenderTable(child.rows, budget);
    CutTableCells(child.rows, |Cells(child.rows)|);
    if !truncated {
      CutNothing(child.rows, budget);
    }
    return Table(rows), count, truncated;
  }

  /** In the middle of the body: nothing but cells is missing so far, and the flag says whether some are. */
  predicate BodyLoop(children: seq<Child>, i: nat, blocks: seq<Block>, maxCells: nat, truncated: bool) {
    && i <= |children|
    && blocks == CutTables(children[..i], maxCells) && TableCells(blocks) <= maxCells
    && |blocks| <= |Whole(children[..i])|
    && (truncated <==> blocks != Whole(children[..i]))
  }

  lemma SkipStep(children: seq<Child>, i: nat, blocks: seq<Block>, maxCells: nat, truncated: bool)
    requires i < |children| && BodyLoop(children, i, blocks, maxCells, truncated)
    requires Skipped(children[i], Left(blocks, maxCells))
    ensures BodyLoop(children, i + 1, blocks, maxCells, truncated || children[i].Grid?)
  {
    WholeStep(children, i);
    CutTablesStep(children, i, maxCells);
  }

  lemma BlockStep(children: seq<Child>, i: nat, blocks: seq<Block>, block: Block, maxCells: nat, truncated: bool)
    requires i < |children| && BodyLoop(children, i, blocks, maxCells, truncated)
    requires !Skipped(children[i], Left(blocks, maxCells))
    requires block == BlockOf(children[i], Left(blocks, maxCells)) && CellCount(block) <= Left(blocks, maxCells)
    ensures BodyLoop(children, i + 1, blocks + [block], maxCells, truncated || block != WholeBlock(children[i]))
  {
    WholeStep(children, i);
    CutTablesStep(children, i, maxCells);
    OneMore(blocks, block);
    SameAppended(blocks, block, Whole(children[..i]), WholeBlock(children[i]));
  }

  lemma SameAppended<T>(a: seq<T>, x: T, b: seq<T>, y: T)
    ensures a + [x] == b + [y] <==> a == b && x == y
  {
    if a + [x] == b + [y] {
      assert (a + [x])[..|a|] == a && (b + [y])[..|b|] == b;
      assert (a + [x])[|a|] == x && (b + [y])[|b|] == y;
    }
  }

  /** The flag of the body: something is missing, or the blocks were used up before a child that would have
      been skipped. */
  predicate BodyFlag(children: seq<Child>, blocks: seq<Block>, maxBlocks: nat) {
    blocks != Whole(children) || (|blocks| == maxBlocks && children != [] && children[|children| - 1].Unknown?)
  }

  /** The loop stops before the end. */
  lemma Stopped(children: seq<Child>, i: nat, blocks: seq<Block>, block: Block, maxBlocks: nat, maxText: nat, maxCells: nat, truncated: bool, next: bool)
    requires i < |children| && BodyLoop(children, i, blocks, maxCells, truncated)
    requires Within(blocks, TextOf(blocks), maxBlocks, maxText)
    requires |blocks| < maxBlocks ==> TextOf(blocks) + Weight(block) > maxText
                                      && BodyLoop(children, i + 1, blocks + [block], maxCells, next)
    ensures Longest(blocks, CutTables(children, maxCells), maxBlocks, maxText)
    ensures BodyFlag(children, blocks, maxBlocks)
  {
    CutTablesGrow(children, i, maxCells);
    WholeGrows(children, i);
    if |blocks| < maxBlocks {
      CutTablesGrow(children, i + 1, maxCells);
      WholeGrows(children, i + 1);
    }
  }

  /** The state of the loop over the body. */
  predicate BodyState(children: seq<Child>, i: nat, blocks: seq<Block>, bytes: nat, maxBlocks: nat, maxText: nat, maxCells: nat, truncated: bool) {
    && BodyLoop(children, i, blocks, maxCells, truncated)
    && Within(blocks, bytes, maxBlocks, maxText)
    && (i > 0 && children[i - 1].Unknown? ==> |blocks| < maxBlocks)
  }

  /** What the body ends with. */
  predicate BodyDone(children: seq<Child>, blocks: seq<Block>, bytes: nat, maxBlocks: nat, maxText: nat, maxCells: nat, truncated: bool) {
    && Within(blocks, bytes, maxBlocks, maxText) && TableCells(blocks) <= maxCells
    && Longest(blocks, CutTables(children, maxCells), maxBlocks, maxText)
    && (truncated <==> BodyFlag(children, blocks, maxBlocks))
  }

  /** The turn of the loop for a child that is shown if its text fits. */
  method NextBlock(children: seq<Child>, i: nat, blocks: seq<Block>, bytes: nat, tableCells: nat,
                   maxBlocks: nat, maxText: nat, maxCells: nat, truncated: bool)
    returns (blocks': seq<Block>, bytes': nat, tableCells': nat, truncated': bool, stopped: bool)
    requires i < |children| && BodyState(children, i, blocks, bytes, maxBlocks, maxText, maxCells, truncated)
    requires |blocks| < maxBlocks && tableCells == TableCells(blocks) && !Skipped(children[i], Left(blocks, maxCells))
    ensures stopped ==> BodyDone(children, blocks', bytes', maxBlocks, maxText, maxCells, truncated')
    ensures !stopped ==> && tableCells' == TableCells(blocks')
                         && BodyState(children, i + 1, blocks', bytes', maxBlocks, maxText, maxCells, truncated')
  {
    var block, used, cut := RenderChild(children[i], maxCells - tableCells);
    BlockStep(children, i, blocks, block, maxCells, truncated);
    var encoded := Weight(block);
    if bytes + encoded > maxText {
      Stopped(children, i, blocks, block, maxBlocks, maxText, maxCells, truncated, truncated || cut);
      return blocks, bytes, tableCells, true, true;
    }
    OneMore(blocks, block);
    return blocks + [block], bytes + encoded, tableCells + used, truncated || cut, false;
  }

  /** The loop over the body shows what the cell budget leaves, as far as the other two budgets go, and
      the flag is exact. */
  method RenderBody(children: seq<Child>, maxBlocks: nat, maxText: nat, maxCells: nat) returns (blocks: seq<Block>, bytes: nat, truncated: bool)
    ensures BodyDone(children, blocks, bytes, maxBlocks, maxText, maxCells, truncated)
  {
    blocks, bytes, truncated := [], 0, false;
    var tableCells, i := 0, 0;
    assert children[..0] == [];
    while i < |children|
      invariant 0 <= i <= |children| && tableCells == TableCells(blocks)
      invariant BodyState(children, i, blocks, bytes, maxBlocks, maxText, maxCells, truncated)
    {
      if |blocks| >= maxBlocks {
        Stopped(children, i, blocks, Table([]), maxBlocks, maxText, maxCells, truncated, truncated);
        truncated := true;
        return;
      }
      if children[i].Unknown? || (children[i].Grid? && maxCells - tableCells <= 0) {
        SkipStep(children, i, blocks, maxCells, truncated);
        truncated := truncated || children[i].Grid?;
      } else {
        var stopped;
        blocks, bytes, tableCells, truncated, stopped :=
          NextBlock(children, i, blocks, bytes, tableCells, maxBlocks, maxText, maxCells, truncated);
        if stopped {
          return;
        }
      }
      i := i + 1;
    }
    assert children[..i] == children;
  }

  datatype Preview = Preview(blocks: seq<Block>, headers: seq<Block>, footers: seq<Block>, truncated: bool)

  /** `render_document` once the parts are parsed: each of body, headers and footers goes as far as what the
      ones before it left of the block and text budgets, and the flag says exactly whether some of it is
      missing, up to the fixed limits on header and footer parts. */
  method RenderDocument(children: seq<Child>, headerParts: seq<seq<Block>>, footerParts: seq<seq<Block>>) returns (r: Preview)
    ensures |r.blocks| + |r.headers| + |r.footers| <= 5000
    ensures TextOf(r.blocks) + TextOf(r.headers) + TextOf(r.footers) <= 4194304
    ensures TableCells(r.blocks) <= 10000
    ensures Longest(r.blocks, CutTables(children, 10000), 5000, 4194304)
    ensures Longest(r.headers, Candidates(headerParts), 5000 - |r.blocks|, 4194304 - TextOf(r.blocks))
    ensures Longest(r.footers, Candidates(footerParts), 5000 - |r.blocks| - |r.headers|,
                    4194304 - TextOf(r.blocks) - TextOf(r.headers))
    ensures r.truncated <==> BodyFlag(children, r.blocks, 5000)
                             || r.headers != Candidates(headerParts) || r.footers != Candidates(footerParts)
  {
    var blocks, bytes, truncated := RenderBody(children, MAX_BLOCKS, MAX_TEXT_BYTES, MAX_TABLE_CELLS);
    var remainingBlocks, remainingText := MAX_BLOCKS - |blocks|, MAX_TEXT_BYTES - bytes;
    var headers, headerBytes, headersTruncated := PeripheralBlocks(headerParts, remainingBlocks, remainingText);
    remainingBlocks, remainingText := remainingBlocks - |headers|, remainingText - headerBytes;
    var footers, footerBytes, footersTruncated := PeripheralBlocks(footerParts, remainingBlocks, remainingText);
    r := Preview(blocks, headers, footers, truncated || headersTruncated || footersTruncated);
  }

  // ---------- the limits without a flag ----------

  /** All text there is in the parts. */
  function Everything(parts: seq<seq<Block>>): seq<Block> {
    if parts == [] then [] else Texts(parts[0]) + Everything(parts[1..])
  }

  predicate HasText(p: Block) {
    p.Paragraph? && p.text != ""
  }

  lemma {:induction false} TextsJoin(a: seq<Block>, b: seq<Block>)
    ensures Texts(a + b) == Texts(a) + Texts(b)
  {
    if a == [] {
      assert a + b == b;
    } else {
      assert (a + b)[1..] == a[1..] + b;
      TextsJoin(a[1..], b);
    }
  }

  lemma {:induction false} NoText(paragraphs: seq<Block>)
    ensures Texts(paragraphs) == [] <==> forall k :: 0 <= k < |paragraphs| ==> !HasText(paragraphs[k])
  {
    if paragraphs != [] {
      NoText(paragraphs[1..]);
      assert forall k :: 1 <= k < |paragraphs| ==> paragraphs[k] == paragraphs[1..][k - 1];
    }
  }

  /** No text after the first 200 paragraphs of a part. */
  predicate ShortPart(paragraphs: seq<Block>) {
    forall k :: MAX_PARAGRAPHS <= k < |paragraphs| ==> !HasText(paragraphs[k])
  }

  lemma PartCut(paragraphs: seq<Block>)
    ensures |Texts(Take(paragraphs, MAX_PARAGRAPHS))| <= |Texts(paragraphs)|
    ensures if ShortPart(paragraphs) then Texts(Take(paragraphs, MAX_PARAGRAPHS)) == Texts(paragraphs)
            else |Texts(Take(paragraphs, MAX_PARAGRAPHS))| < |Texts(paragraphs)|
  {
    if |paragraphs| > MAX_PARAGRAPHS {
      var rest := paragraphs[MAX_PARAGRAPHS..];
      assert paragraphs == paragraphs[..MAX_PARAGRAPHS] + rest;
      TextsJoin(paragraphs[..MAX_PARAGRAPHS], rest);
      NoText(rest);
      assert forall k :: MAX_PARAGRAPHS <= k < |paragraphs| ==> paragraphs[k] == rest[k - MAX_PARAGRAPHS];
      assert ShortPart(paragraphs) <==> Texts(rest) == [];
    }
  }

  lemma {:induction false} PartsCut(parts: seq<seq<Block>>)
    ensures |PartTexts(parts)| <= |Everything(parts)|
    ensures if forall i :: 0 <= i < |parts| ==> ShortPart(parts[i]) then PartTexts(parts) == Everything(parts)
            else |PartTexts(parts)| < |Everything(parts)|
  {
    if parts != [] {
      PartCut(parts[0]);
      PartsCut(parts[1..]);
      assert forall i :: 1 <= i < |parts| ==> parts[i] == parts[1..][i - 1];
    }
  }

  lemma {:induction false} EverythingJoins(a: seq<seq<Block>>, b: seq<seq<Block>>)
    ensures Everything(a + b) == Everything(a) + Everything(b)
  {
    if a == [] {
      assert a + b == b;
    } else {
      assert (a + b)[1..] == a[1..] + b;
      EverythingJoins(a[1..], b);
    }
  }

  lemma {:induction false} NothingInParts(parts: seq<seq<Block>>)
    ensures Everything(parts) == [] <==> forall i, k :: 0 <= i < |parts| && 0 <= k < |parts[i]| ==> !HasText(parts[i][k])
  {
    if parts != [] {
      NoText(parts[0]);
      NothingInParts(parts[1..]);
      assert forall i :: 1 <= i < |parts| ==> parts[i] == parts[1..][i - 1];
    }
  }

  /** The flag does not cover the fixed limits of headers and footers: the candidates are all the text there is
      exactly if there is none beyond the first 20 parts and none beyond the first 200 paragraphs of a part. */
  lemma SilentLimitsExactly(parts: seq<seq<Block>>)
    ensures Candidates(parts) == Everything(parts) <==>
            forall i, k :: 0 <= i < |parts| && 0 <= k < |parts[i]| && HasText(parts[i][k]) ==> i < 20 && k < 200
  {
    var head := Take(parts, MAX_PARTS);
    var tail := parts[|head|..];
    assert parts == head + tail;
    EverythingJoins(head, tail);
    PartsCut(head);
    NothingInParts(tail);
    assert forall i :: |head| <= i < |parts| ==> parts[i] == tail[i - |head|];
    BeyondExactly(parts, head, tail);
  }

  lemma BeyondExactly(parts: seq<seq<Block>>, head: seq<seq<Block>>, tail: seq<seq<Block>>)
    requires parts == head + tail && head == Take(parts, MAX_PARTS)
    ensures (forall i, k :: 0 <= i < |parts| && 0 <= k < |parts[i]| && HasText(parts[i][k]) ==> i < MAX_PARTS && k < MAX_PARAGRAPHS)
            <==> (&& (forall i :: 0 <= i < |head| ==> ShortPart(head[i]))
                  && (forall i, k :: 0 <= i < |tail| && 0 <= k < |tail[i]| ==> !HasText(tail[i][k])))
  {
    assert forall i :: 0 <= i < |head| ==> parts[i] == head[i];
    forall i | 0 <= i < |tail|
      ensures tail[i] == parts[|head| + i] && |head| + i >= MAX_PARTS
    {
    }
  }
}
