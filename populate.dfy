/**
 * Filling a composed slide with a request's field values: `{{name}}` tokens
 * replaced in every text frame and table cell, a list field expanded into
 * bullet paragraphs, a table field written cell by cell, and the dispatch
 * on the type each field's placeholder declares in the slide's metadata.
 */
module Populate {
  import opened Wrappers
  import opened Strings
  import opened Values
  import opened Metadata
  import opened Shapes
  import opened Search

  // ----- scalar replacement -----

  /** A text frame or cell after replacement: rebuilt as one paragraph when its text holds the token. */
  function ReplacedFrame(tf: TextFrame, token: string, value: string): (r: TextFrame)
    requires token != []
    ensures Contains(FrameText(tf), token) ==> |r.paragraphs| == 1 && FrameText(r) == Replace(FrameText(tf), token, value)
    ensures !Contains(FrameText(tf), token) ==> r == tf
  {
    if Contains(FrameText(tf), token) then Rebuilt(tf, Replace(FrameText(tf), token, value)) else tf
  }

  function ReplacedRow(row: seq<TextFrame>, token: string, value: string): (r: seq<TextFrame>)
    requires token != []
    ensures |r| == |row| && forall c :: 0 <= c < |row| ==> r[c] == ReplacedFrame(row[c], token, value)
  {
    seq(|row|, c requires 0 <= c < |row| => ReplacedFrame(row[c], token, value))
  }

  function ReplacedTable(t: Table, token: string, value: string): (r: Table)
    requires token != []
    ensures SameGrid(t, r)
    ensures forall i :: 0 <= i < |t.rows| ==> r.rows[i] == ReplacedRow(t.rows[i], token, value)
  {
    Table(seq(|t.rows|, i requires 0 <= i < |t.rows| => ReplacedRow(t.rows[i], token, value)))
  }

  /** One shape after `_replace_text_in_slide`: its text frame and its table cells, each replaced on its own. */
  function ReplacedShape(s: Shape, token: string, value: string): (r: Shape)
    requires token != []
    ensures r.(frame := s.frame, table := s.table) == s
    ensures r.frame.Some? <==> s.frame.Some?
    ensures r.table.Some? <==> s.table.Some?
  {
    s.(frame := if s.frame.Some? then Some(ReplacedFrame(s.frame.value, token, value)) else None,
       table := if s.table.Some? then Some(ReplacedTable(s.table.value, token, value)) else None)
  }

  function ReplacedShapes(shapes: seq<Shape>, token: string, value: string): (r: seq<Shape>)
    requires token != []
    ensures |r| == |shapes| && forall k :: 0 <= k < |shapes| ==> r[k] == ReplacedShape(shapes[k], token, value)
  {
    seq(|shapes|, k requires 0 <= k < |shapes| => ReplacedShape(shapes[k], token, value))
  }

  /**
   * Every text frame and table cell whose text holds the token is rebuilt as
   * one paragraph reading as its old text with every occurrence replaced;
   * every other frame and cell, and everything but text, is left as it was.
   */
  lemma ReplacedShapesSpec(shapes: seq<Shape>, token: string, value: string, k: nat)
    requires token != [] && k < |shapes|
    ensures var r := ReplacedShapes(shapes, token, value)[k];
      var s := shapes[k];
      r.(frame := s.frame, table := s.table) == s
      && (s.frame.Some? ==>
            r.frame.Some?
            && (Contains(FrameText(s.frame.value), token) ==>
                  |r.frame.value.paragraphs| == 1 && FrameText(r.frame.value) == Replace(FrameText(s.frame.value), token, value))
            && (!Contains(FrameText(s.frame.value), token) ==> r.frame == s.frame))
      && (s.table.Some? ==>
            r.table.Some? && SameGrid(s.table.value, r.table.value)
            && forall i, c :: 0 <= i < |s.table.value.rows| && 0 <= c < |s.table.value.rows[i]| ==>
                 var cell := s.table.value.rows[i][c];
                 (Contains(FrameText(cell), token) ==> FrameText(r.table.value.rows[i][c]) == Replace(FrameText(cell), token, value))
                 && (!Contains(FrameText(cell), token) ==> r.table.value.rows[i][c] == cell))
  {
    var s := shapes[k];
    if s.table.Some? {
      var t := s.table.value;
      var u := ReplacedTable(t, token, value);
      forall i, c | 0 <= i < |t.rows| && 0 <= c < |t.rows[i]|
        ensures u.rows[i][c] == ReplacedFrame(t.rows[i][c], token, value)
      {
        assert u.rows[i] == ReplacedRow(t.rows[i], token, value);
      }
    }
  }

  /** A slide where no text mentions the token is left exactly as it was. */
  lemma {:induction false} ReplaceAbsentTokenChangesNothing(shapes: seq<Shape>, token: string, value: string)
    requires token != []
    requires forall k :: 0 <= k < |shapes| && shapes[k].frame.Some? ==> !Contains(FrameText(shapes[k].frame.value), token)
    requires forall k :: 0 <= k < |shapes| && shapes[k].table.Some? ==> !TableContains(shapes[k].table.value, token)
    ensures ReplacedShapes(shapes, token, value) == shapes
  {
    forall k | 0 <= k < |shapes|
      ensures ReplacedShape(shapes[k], token, value) == shapes[k]
    {
      var s := shapes[k];
      if s.table.Some? {
        var t := s.table.value;
        forall i | 0 <= i < |t.rows|
          ensures ReplacedRow(t.rows[i], token, value) == t.rows[i]
        {
          forall c | 0 <= c < |t.rows[i]|
            ensures ReplacedFrame(t.rows[i][c], token, value) == t.rows[i][c]
          {
            assert !Contains(FrameText(t.rows[i][c]), token);
          }
        }
        assert ReplacedTable(t, token, value) == t;
      }
    }
  }

  /** A frame reading exactly `{{name}}` reads as the value afterwards. */
  lemma TokenAloneBecomesValue(tf: TextFrame, name: string, value: string)
    requires FrameText(tf) == Token(name)
    ensures FrameText(ReplacedFrame(tf, Token(name), value)) == value
  {
    var t := Token(name);
    ContainsAt(t, t, 0);
    assert t + [] == t;
    ReplaceAtFront([], t, value);
  }

  /** Filling one brace-free field never touches a frame that reads as another brace-free field's token. */
  lemma OtherFieldTokenUntouched(tf: TextFrame, name: string, other: string, value: string)
    requires BraceFree(name) && BraceFree(other) && name != other
    requires FrameText(tf) == Token(other)
    ensures ReplacedFrame(tf, Token(name), value) == tf
  {
    if Contains(Token(other), Token(name)) {
      TokenInToken(other, name);
    }
  }

  /** Replacement inside one table, row by row and cell by cell. */
  method ReplaceInTable(t: Table, token: string, value: string) returns (u: Table)
    requires token != []
    ensures u == ReplacedTable(t, token, value)
  {
    var rows := t.rows;
    for i := 0 to |rows|
      invariant |rows| == |t.rows|
      invariant forall r :: 0 <= r < i ==> rows[r] == ReplacedRow(t.rows[r], token, value)
      invariant forall r :: i <= r < |rows| ==> rows[r] == t.rows[r]
    {
      var row := rows[i];
      for c := 0 to |row|
        invariant |row| == |t.rows[i]|
        invariant forall d :: 0 <= d < c ==> row[d] == ReplacedFrame(t.rows[i][d], token, value)
        invariant forall d :: c <= d < |row| ==> row[d] == t.rows[i][d]
      {
        var cellText := FrameText(row[c]);
        if Contains(cellText, token) {
          row := row[c := Rebuilt(row[c], Replace(cellText, token, value))];
        }
      }
      rows := rows[i := row];
    }
    u := Table(rows);
  }

  /**
   * `_replace_text_in_slide`: every shape's text frame, then its table, in
   * z-order; ValueError when a shape is a graphic frame without a table.
   */
  method ReplaceTextInSlide(slide: LiveSlide, token: string, value: string) returns (r: Outcome<Error>)
    requires token != []
    modifies slide
    ensures HasNoTableFrame(old(slide.shapes)) ==> r == Fail(NoTable)
    ensures !HasNoTableFrame(old(slide.shapes)) ==> r == Pass && slide.shapes == ReplacedShapes(old(slide.shapes), token, value)
  {
    ghost var original := slide.shapes;
    for k := 0 to |slide.shapes|
      invariant |slide.shapes| == |original|
      invariant forall j :: 0 <= j < k ==> !NoTableFrame(original[j])
      invariant forall j :: 0 <= j < k ==> slide.shapes[j] == ReplacedShape(original[j], token, value)
      invariant forall j :: k <= j < |slide.shapes| ==> slide.shapes[j] == original[j]
    {
      var shape := slide.shapes[k];
      if shape.frame.Some? {
        var allText := FrameText(shape.frame.value);
        if Contains(allText, token) {
          shape := shape.(frame := Some(Rebuilt(shape.frame.value, Replace(allText, token, value))));
        }
      }
      if shape.graphicFrame && shape.table.None? {
        return Fail(NoTable);
      }
      if shape.table.Some? {
        var table := ReplaceInTable(shape.table.value, token, value);
        shape := shape.(table := Some(table));
      }
      slide.shapes := slide.shapes[k := shape];
    }
    return Pass;
  }

  // ----- list fields -----

  /** Paragraph i of a filled list: the paragraph `clear()` kept for the first item, a new one for the others. */
  function ListParagraph(tf: TextFrame, items: seq<Value>, i: nat): Paragraph
    requires i < |items|
  {
    WithText(if i == 0 then Clear(tf).paragraphs[0] else EmptyParagraph, Str(items[i])).(level := 0)
  }

  /** The frame a list field leaves: one level-0 paragraph per item, or one empty paragraph for no items. */
  function ListFrame(tf: TextFrame, items: seq<Value>): (r: TextFrame)
    ensures |r.paragraphs| == if items == [] then 1 else |items|
    ensures forall i :: 0 <= i < |items| ==> ParagraphText(r.paragraphs[i]) == Str(items[i]) && r.paragraphs[i].level == 0
    ensures items == [] ==> r == Clear(tf) && FrameText(r) == []
  {
    if items == [] then Clear(tf)
    else TextFrame(seq(|items|, i requires 0 <= i < |items| => ListParagraph(tf, items, i)))
  }

  /** Shape k has a text frame whose text holds the token. */
  predicate HasText(s: Shape, token: string)
  {
    s.frame.Some? && Contains(FrameText(s.frame.value), token)
  }

  /**
   * `_populate_list_field`: the first shape whose text holds `{{name}}`
   * becomes the list; TypeError when the value cannot be iterated; nothing
   * happens when no shape holds the token.
   */
  function ListFilled(shapes: seq<Shape>, name: string, v: Value): Result<seq<Shape>, Error>
  {
    match FirstWhere(shapes, (s: Shape) => HasText(s, Token(name)))
    case None => Success(shapes)
    case Some(k) =>
      match Iterate(v)
      case None => Failure(NotIterable)
      case Some(items) => Success(shapes[k := shapes[k].(frame := Some(ListFrame(shapes[k].frame.value, items)))])
  }

  /**
   * Only the first shape holding the token changes, and only its text: it
   * ends with one level-0 paragraph per item reading as `str(item)`, or one
   * empty paragraph when there are no items. The field fails only when some
   * shape holds the token and the value is neither a list nor a string.
   */
  lemma ListFilledSpec(shapes: seq<Shape>, name: string, v: Value)
    ensures ListFilled(shapes, name, v).Failure? <==>
      (exists k :: 0 <= k < |shapes| && HasText(shapes[k], Token(name))) && Iterate(v).None?
    ensures ListFilled(shapes, name, v).Failure? ==> ListFilled(shapes, name, v).error == NotIterable
    ensures (forall k :: 0 <= k < |shapes| ==> !HasText(shapes[k], Token(name))) ==> ListFilled(shapes, name, v) == Success(shapes)
    ensures ListFilled(shapes, name, v).Success? && ListFilled(shapes, name, v).value != shapes ==>
      exists k :: 0 <= k < |shapes| && HasText(shapes[k], Token(name))
        && (forall j :: 0 <= j < k ==> !HasText(shapes[j], Token(name)))
        && var r := ListFilled(shapes, name, v).value;
           var items := Iterate(v).value;
           |r| == |shapes|
           && (forall j :: 0 <= j < |shapes| && j != k ==> r[j] == shapes[j])
           && r[k].(frame := shapes[k].frame) == shapes[k] && r[k].frame.Some?
           && |r[k].frame.value.paragraphs| == (if items == [] then 1 else |items|)
           && (forall i :: 0 <= i < |items| ==>
                 ParagraphText(r[k].frame.value.paragraphs[i]) == Str(items[i]) && r[k].frame.value.paragraphs[i].level == 0)
  {
    var p := (s: Shape) => HasText(s, Token(name));
    if FirstWhere(shapes, p).Some? {
      var k := FirstWhere(shapes, p).value;
      assert HasText(shapes[k], Token(name));
    }
  }

  /** `_populate_list_field`: returns Fail with the exception it raises. */
  method PopulateListField(slide: LiveSlide, name: string, v: Value) returns (r: Outcome<Error>)
    modifies slide
    ensures ListFilled(old(slide.shapes), name, v).Success? ==> r == Pass && slide.shapes == ListFilled(old(slide.shapes), name, v).value
    ensures ListFilled(old(slide.shapes), name, v).Failure? ==> r == Fail(ListFilled(old(slide.shapes), name, v).error)
  {
    var token := Token(name);
    var k := 0;
    while k < |slide.shapes|
      invariant k <= |slide.shapes| && slide.shapes == old(slide.shapes)
      invariant forall j :: 0 <= j < k ==> !HasText(slide.shapes[j], token)
    {
      var shape := slide.shapes[k];
      if shape.frame.Some? && Contains(FrameText(shape.frame.value), token) {
        FirstWhereIs(slide.shapes, (s: Shape) => HasText(s, Token(name)), k);
        var items := Iterate(v);
        if items.None? {
          return Fail(NotIterable);
        }
        var tf := shape.frame.value;
        var paragraphs := Clear(tf).paragraphs;
        for i := 0 to |items.value|
          invariant i == 0 ==> paragraphs == Clear(tf).paragraphs
          invariant i > 0 ==> paragraphs == seq(i, m requires 0 <= m < i => ListParagraph(tf, items.value, m))
        {
          var p := if i == 0 then paragraphs[0] else EmptyParagraph;
          p := WithText(p, Str(items.value[i])).(level := 0);
          if i == 0 {
            paragraphs := [p];
          } else {
            paragraphs := paragraphs + [p];
          }
        }
        assert TextFrame(paragraphs) == ListFrame(tf, items.value);
        slide.shapes := slide.shapes[k := shape.(frame := Some(TextFrame(paragraphs)))];
        return Pass;
      }
      k := k + 1;
    }
    return Pass;
  }

  // ----- table fields -----

  /** `cell.text = cell.text.replace(token, "")`: the cell rewritten as fresh paragraphs without the token. */
  function ClearedCell(cell: TextFrame, token: string): (r: TextFrame)
    requires token != []
    ensures FrameText(r) == Replace(FrameText(cell), token, "")
  {
    WithFrameText(Replace(FrameText(cell), token, ""))
  }

  /**
   * The rows of table data the fill loop reads for a table of `rowCount`
   * rows: the data's items, each of the first `rowCount` iterated in turn;
   * TypeError when the data, or one of those rows, cannot be iterated.
   */
  function TableData(data: Value, rowCount: nat): (r: Result<seq<seq<Value>>, Error>)
    ensures r.Failure? ==> r.error == NotIterable
    ensures r.Success? <==> (Iterate(data).Some? &&
      forall i :: 0 <= i < |Iterate(data).value| && i < rowCount ==> Iterate(Iterate(data).value[i]).Some?)
    ensures r.Success? ==> (|r.value| == (if |Iterate(data).value| < rowCount then |Iterate(data).value| else rowCount)
      && forall i :: 0 <= i < |r.value| ==> r.value[i] == Iterate(Iterate(data).value[i]).value)
  {
    match Iterate(data)
    case None => Failure(NotIterable)
    case Some(rows) =>
      var n := if |rows| < rowCount then |rows| else rowCount;
      if forall i :: 0 <= i < n ==> Iterate(rows[i]).Some? then
        Success(seq(n, i requires 0 <= i < n => Iterate(rows[i]).value))
      else Failure(NotIterable)
  }

  /** Cell (i, c) of a filled table: the data value when the data reaches it, else the cell with the token removed. */
  function FilledCell(t: Table, token: string, grid: seq<seq<Value>>, i: nat, c: nat): TextFrame
    requires token != [] && i < |t.rows| && c < |t.rows[i]|
  {
    if i < |grid| && c < |grid[i]| then WithFrameText(Str(grid[i][c])) else ClearedCell(t.rows[i][c], token)
  }

  function FilledRow(t: Table, token: string, grid: seq<seq<Value>>, i: nat): (r: seq<TextFrame>)
    requires token != [] && i < |t.rows|
    ensures |r| == |t.rows[i]| && forall c :: 0 <= c < |r| ==> r[c] == FilledCell(t, token, grid, i, c)
  {
    seq(|t.rows[i]|, c requires 0 <= c < |t.rows[i]| => FilledCell(t, token, grid, i, c))
  }

  /** The filled table: same rows and cells, every cell either cleared of the token or overwritten by the data. */
  function FilledTable(t: Table, token: string, grid: seq<seq<Value>>): (r: Table)
    requires token != []
    ensures SameGrid(t, r)
    ensures forall i, c :: 0 <= i < |t.rows| && 0 <= c < |t.rows[i]| ==> r.rows[i][c] == FilledCell(t, token, grid, i, c)
  {
    var r := Table(seq(|t.rows|, i requires 0 <= i < |t.rows| => FilledRow(t, token, grid, i)));
    assert forall i :: 0 <= i < |t.rows| ==> r.rows[i] == FilledRow(t, token, grid, i);
    r
  }

  /** Cells the data reaches read as `str` of the data; every other cell reads as its old text with the token removed. */
  lemma FilledTableCells(t: Table, token: string, grid: seq<seq<Value>>, i: nat, c: nat)
    requires token != [] && i < |t.rows| && c < |t.rows[i]|
    ensures i < |grid| && c < |grid[i]| ==> FrameText(FilledTable(t, token, grid).rows[i][c]) == Str(grid[i][c])
    ensures !(i < |grid| && c < |grid[i]|) ==> FrameText(FilledTable(t, token, grid).rows[i][c]) == Replace(FrameText(t.rows[i][c]), token, "")
  {
  }

  predicate HasTable(s: Shape, token: string)
  {
    s.table.Some? && TableContains(s.table.value, token)
  }

  /**
   * Where the shape scan of `_populate_table_field` stops: at a graphic
   * frame without a table, which raises, or at a table holding the token
   * when the data is truthy, which is filled.
   */
  predicate StopsTableScan(s: Shape, token: string, data: Value)
  {
    NoTableFrame(s) || (Truthy(data) && HasTable(s, token))
  }

  /**
   * `_populate_table_field`: when the data is truthy, the first table with
   * a cell holding `{{name}}` is filled; ValueError when a graphic frame
   * without a table comes before it; otherwise nothing changes.
   */
  function TableFilled(shapes: seq<Shape>, name: string, data: Value): Result<seq<Shape>, Error>
  {
    match FirstWhere(shapes, (s: Shape) => StopsTableScan(s, Token(name), data))
    case None => Success(shapes)
    case Some(k) =>
      if NoTableFrame(shapes[k]) then Failure(NoTable)
      else
        var t := shapes[k].table.value;
        match TableData(data, |t.rows|)
        case Failure(e) => Failure(e)
        case Success(grid) => Success(shapes[k := shapes[k].(table := Some(FilledTable(t, Token(name), grid)))])
  }

  /**
   * Falsy data, or no table holding the token, changes nothing, unless a
   * graphic frame without a table makes the scan raise ValueError; that
   * happens exactly when such a frame comes before every table the data
   * would fill. Otherwise only the first table holding the token changes:
   * it keeps its rows and cells (no row is added, no write goes past a
   * row's last cell), the data's TypeError is the only other exception,
   * and nothing else on the slide changes.
   */
  lemma TableFilledSpec(shapes: seq<Shape>, name: string, data: Value)
    ensures !Truthy(data) ==> TableFilled(shapes, name, data) == if HasNoTableFrame(shapes) then Failure(NoTable) else Success(shapes)
    ensures (forall k :: 0 <= k < |shapes| ==> !HasTable(shapes[k], Token(name))) ==>
      TableFilled(shapes, name, data) == if HasNoTableFrame(shapes) then Failure(NoTable) else Success(shapes)
    ensures TableFilled(shapes, name, data) == Failure(NoTable) <==>
      exists k :: 0 <= k < |shapes| && NoTableFrame(shapes[k])
        && forall j :: 0 <= j < k ==> !(Truthy(data) && HasTable(shapes[j], Token(name)))
    ensures TableFilled(shapes, name, data).Failure? ==>
      TableFilled(shapes, name, data).error == NoTable || (TableFilled(shapes, name, data).error == NotIterable && Truthy(data))
    ensures TableFilled(shapes, name, data).Success? && TableFilled(shapes, name, data).value != shapes ==>
      exists k :: 0 <= k < |shapes| && HasTable(shapes[k], Token(name))
        && (forall j :: 0 <= j < k ==> !HasTable(shapes[j], Token(name)) && !NoTableFrame(shapes[j]))
        && var r := TableFilled(shapes, name, data).value;
           |r| == |shapes|
           && (forall j :: 0 <= j < |shapes| && j != k ==> r[j] == shapes[j])
           && r[k].(table := shapes[k].table) == shapes[k] && r[k].table.Some?
           && SameGrid(shapes[k].table.value, r[k].table.value)
  {
    var token := Token(name);
    var first := FirstWhere(shapes, (s: Shape) => StopsTableScan(s, token, data));
    if first.None? {
      TableScanFindsNothing(shapes, name, data);
    } else {
      var k := first.value;
      TableScanStopsAt(shapes, name, data, k);
      if NoTableFrame(shapes[k]) {
        assert TableFilled(shapes, name, data) == Failure(NoTable);
      } else {
        TableFilledAtTable(shapes, name, data, k);
        forall i | 0 <= i < |shapes| && NoTableFrame(shapes[i])
          ensures exists j :: 0 <= j < i && Truthy(data) && HasTable(shapes[j], token)
        {
          assert i > k;
        }
      }
    }
  }

  /** When nothing stops the scan, no shape is a graphic frame without a table, none would be filled, and nothing changes. */
  lemma TableScanFindsNothing(shapes: seq<Shape>, name: string, data: Value)
    requires FirstWhere(shapes, (s: Shape) => StopsTableScan(s, Token(name), data)).None?
    ensures forall j :: 0 <= j < |shapes| ==> !NoTableFrame(shapes[j]) && !(Truthy(data) && HasTable(shapes[j], Token(name)))
    ensures TableFilled(shapes, name, data) == Success(shapes)
  {
    var p := (s: Shape) => StopsTableScan(s, Token(name), data);
    forall j | 0 <= j < |shapes|
      ensures !NoTableFrame(shapes[j]) && !(Truthy(data) && HasTable(shapes[j], Token(name)))
    {
      assert !p(shapes[j]);
    }
  }

  /** Where the scan stops, the shape stops it and none before it does. */
  lemma TableScanStopsAt(shapes: seq<Shape>, name: string, data: Value, k: nat)
    requires FirstWhere(shapes, (s: Shape) => StopsTableScan(s, Token(name), data)) == Some(k)
    ensures k < |shapes| && StopsTableScan(shapes[k], Token(name), data)
    ensures forall j :: 0 <= j < k ==> !NoTableFrame(shapes[j]) && !(Truthy(data) && HasTable(shapes[j], Token(name)))
  {
    var p := (s: Shape) => StopsTableScan(s, Token(name), data);
    assert p(shapes[k]);
    forall j | 0 <= j < k
      ensures !NoTableFrame(shapes[j]) && !(Truthy(data) && HasTable(shapes[j], Token(name)))
    {
      assert !p(shapes[j]);
    }
  }

  /**
   * When the scan stops at a table, that table holds the token and the data
   * is truthy; ValueError is not raised, the data's TypeError is the only
   * exception, and otherwise only that table changes, keeping its grid.
   */
  lemma TableFilledAtTable(shapes: seq<Shape>, name: string, data: Value, k: nat)
    requires k < |shapes| && !NoTableFrame(shapes[k])
    requires FirstWhere(shapes, (s: Shape) => StopsTableScan(s, Token(name), data)) == Some(k)
    ensures Truthy(data) && HasTable(shapes[k], Token(name))
    ensures TableFilled(shapes, name, data).Failure? ==> TableFilled(shapes, name, data).error == NotIterable
    ensures TableFilled(shapes, name, data).Success? ==>
      var r := TableFilled(shapes, name, data).value;
      |r| == |shapes|
      && (forall j :: 0 <= j < |shapes| && j != k ==> r[j] == shapes[j])
      && r[k].(table := shapes[k].table) == shapes[k] && r[k].table.Some?
      && SameGrid(shapes[k].table.value, r[k].table.value)
  {
    TableScanStopsAt(shapes, name, data, k);
    var t := shapes[k].table.value;
    var d := TableData(data, |t.rows|);
    if d.Success? {
      var filled := FilledTable(t, Token(name), d.value);
      assert TableFilled(shapes, name, data) == Success(shapes[k := shapes[k].(table := Some(filled))]);
    }
  }

  /** The `has_placeholder` search: a nested scan over rows and cells with early exit. */
  method TableHasToken(t: Table, token: string) returns (found: bool)
    ensures found == TableContains(t, token)
  {
    found := false;
    var i := 0;
    while i < |t.rows|
      invariant i <= |t.rows|
      invariant !found ==> forall r, c :: 0 <= r < i && 0 <= c < |t.rows[r]| ==> !Contains(FrameText(t.rows[r][c]), token)
      invariant found ==> TableContains(t, token)
    {
      var c := 0;
      while c < |t.rows[i]|
        invariant c <= |t.rows[i]|
        invariant !found ==> forall d :: 0 <= d < c ==> !Contains(FrameText(t.rows[i][d]), token)
        invariant found ==> TableContains(t, token)
      {
        if Contains(FrameText(t.rows[i][c]), token) {
          found := true;
          break;
        }
        c := c + 1;
      }
      if found {
        break;
      }
      i := i + 1;
    }
  }

  /** The clearing pass: every cell rewritten without the token. */
  method ClearTable(t: Table, token: string) returns (rows: seq<seq<TextFrame>>)
    requires token != []
    ensures SameGrid(t, Table(rows))
    ensures forall i, c :: 0 <= i < |t.rows| && 0 <= c < |t.rows[i]| ==> rows[i][c] == ClearedCell(t.rows[i][c], token)
  {
    rows := t.rows;
    for i := 0 to |rows|
      invariant SameGrid(t, Table(rows))
      invariant forall r, c :: 0 <= r < i && 0 <= c < |t.rows[r]| ==> rows[r][c] == ClearedCell(t.rows[r][c], token)
      invariant forall r :: i <= r < |rows| ==> rows[r] == t.rows[r]
    {
      var row := rows[i];
      for c := 0 to |row|
        invariant |row| == |t.rows[i]|
        invariant forall d :: 0 <= d < c ==> row[d] == ClearedCell(t.rows[i][d], token)
        invariant forall d :: c <= d < |row| ==> row[d] == t.rows[i][d]
      {
        row := row[c := WithFrameText(Replace(FrameText(row[c]), token, ""))];
      }
      rows := rows[i := row];
    }
  }

  /** The column loop: cell c of the row set to the c-th value, values past the last cell ignored. */
  method FillRow(row: seq<TextFrame>, cells: seq<Value>) returns (r: seq<TextFrame>)
    ensures |r| == |row|
    ensures forall d :: 0 <= d < |row| ==> r[d] == if d < |cells| then WithFrameText(Str(cells[d])) else row[d]
  {
    r := row;
    for c := 0 to |cells|
      invariant |r| == |row|
      invariant forall d :: 0 <= d < |row| ==> r[d] == if d < c then WithFrameText(Str(cells[d])) else row[d]
    {
      if c < |r| {
        r := r[c := WithFrameText(Str(cells[c]))];
      }
    }
  }

  /** The clearing pass, then the data written row by row, each row only as far as the table's cells go. */
  method FillTable(t: Table, token: string, data: Value) returns (r: Result<Table, Error>)
    requires token != []
    ensures TableData(data, |t.rows|).Failure? ==> r == Failure(TableData(data, |t.rows|).error)
    ensures TableData(data, |t.rows|).Success? ==> r == Success(FilledTable(t, token, TableData(data, |t.rows|).value))
  {
    var rows := ClearTable(t, token);
    var items := Iterate(data);
    if items.None? {
      return Failure(NotIterable);
    }
    var n := if |items.value| < |t.rows| then |items.value| else |t.rows|;
    ghost var cleared := rows;
    for i := 0 to |items.value|
      invariant SameGrid(t, Table(rows))
      invariant forall m :: 0 <= m < i && m < n ==> Iterate(items.value[m]).Some?
      invariant forall m, c :: 0 <= m < |t.rows| && 0 <= c < |t.rows[m]| ==>
        rows[m][c] == if m < i && m < n && c < |Iterate(items.value[m]).value| then WithFrameText(Str(Iterate(items.value[m]).value[c])) else cleared[m][c]
    {
      if i < |rows| {
        var cells := Iterate(items.value[i]);
        if cells.None? {
          assert TableData(data, |t.rows|).Failure?;
          return Failure(NotIterable);
        }
        var row := FillRow(rows[i], cells.value);
        rows := rows[i := row];
      }
    }
    var grid := TableData(data, |t.rows|).value;
    forall m, c | 0 <= m < |t.rows| && 0 <= c < |t.rows[m]|
      ensures rows[m][c] == FilledCell(t, token, grid, m, c)
    {
    }
    CellsMakeFilledTable(t, token, grid, rows);
    return Success(Table(rows));
  }

  /** Rows whose every cell is the filled cell make up the filled table. */
  lemma CellsMakeFilledTable(t: Table, token: string, grid: seq<seq<Value>>, rows: seq<seq<TextFrame>>)
    requires token != [] && SameGrid(t, Table(rows))
    requires forall m, c :: 0 <= m < |t.rows| && 0 <= c < |t.rows[m]| ==> rows[m][c] == FilledCell(t, token, grid, m, c)
    ensures Table(rows) == FilledTable(t, token, grid)
  {
    forall m | 0 <= m < |t.rows|
      ensures rows[m] == FilledRow(t, token, grid, m)
    {
    }
  }

  /** `_populate_table_field`: returns Fail with the exception it raises. */
  method PopulateTableField(slide: LiveSlide, name: string, data: Value) returns (r: Outcome<Error>)
    modifies slide
    ensures TableFilled(old(slide.shapes), name, data).Success? ==> r == Pass && slide.shapes == TableFilled(old(slide.shapes), name, data).value
    ensures TableFilled(old(slide.shapes), name, data).Failure? ==> r == Fail(TableFilled(old(slide.shapes), name, data).error)
  {
    var token := Token(name);
    var k := 0;
    while k < |slide.shapes|
      invariant k <= |slide.shapes| && slide.shapes == old(slide.shapes)
      invariant forall j :: 0 <= j < k ==> !StopsTableScan(slide.shapes[j], token, data)
    {
      var shape := slide.shapes[k];
      if shape.graphicFrame && shape.table.None? {
        FirstWhereIs(slide.shapes, (s: Shape) => StopsTableScan(s, Token(name), data), k);
        return Fail(NoTable);
      }
      if shape.table.Some? {
        var found := TableHasToken(shape.table.value, token);
        if found && Truthy(data) {
          FirstWhereIs(slide.shapes, (s: Shape) => StopsTableScan(s, Token(name), data), k);
          var filled := FillTable(shape.table.value, token, data);
          if filled.Failure? {
            return Fail(filled.error);
          }
          slide.shapes := slide.shapes[k := shape.(table := Some(filled.value))];
          return Pass;
        }
      }
      k := k + 1;
    }
    return Pass;
  }

  // ----- dispatch on the declared field type -----

  /** `metadata.get("placeholders", {}) if metadata else {}`. */
  function PlaceholdersInfo(metadata: map<string, Json>): (r: Json)
    ensures metadata == map[] || "placeholders" !in metadata ==> r == JObj(map[])
    ensures metadata != map[] && "placeholders" in metadata ==> r == metadata["placeholders"]
  {
    if metadata == map[] then JObj(map[]) else GetOr(metadata, "placeholders", JObj(map[]))
  }

  /**
   * `placeholders_info.get(name, {}).get("type", "text")`: a field the
   * metadata does not describe, or describes without a type, is "text";
   * AttributeError when either value is not an object.
   */
  function FieldType(info: Json, name: string): (r: Result<Json, Error>)
    ensures r.Failure? ==> r.error == NoSuchMethod
    ensures r.Success? <==> info.JObj? && (name !in info.members || info.members[name].JObj?)
    ensures info.JObj? && name !in info.members ==> r == Success(JStr("text"))
    ensures r.Success? && name in info.members ==> r.value == GetOr(info.members[name].members, "type", JStr("text"))
  {
    if !info.JObj? then Failure(NoSuchMethod)
    else match GetOr(info.members, name, JObj(map[]))
      case JObj(pm) => Success(GetOr(pm, "type", JStr("text")))
      case _ => Failure(NoSuchMethod)
  }

  /** The field types filled by plain token replacement. */
  predicate IsTextKind(t: Json)
  {
    t == JStr("text") || t == JStr("paragraph") || t == JStr("number") || t == JStr("date")
  }

  /**
   * One field of `_populate_slide`: text kinds replace `{{name}}` by
   * `str(value)` (ValueError when a graphic frame without a table is on the
   * slide), "list" and "table" expand, "image" is a stub that does nothing,
   * and any other type has no branch.
   */
  function PopulateField(shapes: seq<Shape>, f: Field, info: Json): Result<seq<Shape>, Error>
  {
    match FieldType(info, f.name)
    case Failure(e) => Failure(e)
    case Success(t) =>
      if IsTextKind(t) then
        if HasNoTableFrame(shapes) then Failure(NoTable) else Success(ReplacedShapes(shapes, Token(f.name), Str(f.value)))
      else if t == JStr("list") then ListFilled(shapes, f.name, f.value)
      else if t == JStr("table") then TableFilled(shapes, f.name, f.value)
      else Success(shapes)
  }

  /** A field the metadata does not describe is filled as text. */
  lemma UndescribedFieldIsText(shapes: seq<Shape>, f: Field, info: Json)
    requires info.JObj? && f.name !in info.members
    ensures HasNoTableFrame(shapes) ==> PopulateField(shapes, f, info) == Failure(NoTable)
    ensures !HasNoTableFrame(shapes) ==> PopulateField(shapes, f, info) == Success(ReplacedShapes(shapes, Token(f.name), Str(f.value)))
  {
  }

  /** An "image" field, or a field of a type no branch handles, leaves the slide as it was. */
  lemma OtherFieldTypesChangeNothing(shapes: seq<Shape>, f: Field, info: Json)
    requires FieldType(info, f.name).Success?
    requires var t := FieldType(info, f.name).value; !IsTextKind(t) && t != JStr("list") && t != JStr("table")
    ensures PopulateField(shapes, f, info) == Success(shapes)
  {
  }

  /** The slide after the first n fields, in the request's order. */
  function PopulatedUpTo(shapes: seq<Shape>, fields: Fields, info: Json, n: nat): Result<seq<Shape>, Error>
    requires n <= |fields|
  {
    if n == 0 then Success(shapes)
    else match PopulatedUpTo(shapes, fields, info, n - 1)
      case Failure(e) => Failure(e)
      case Success(cur) => PopulateField(cur, fields[n - 1], info)
  }

  function Populated(shapes: seq<Shape>, fields: Fields, metadata: map<string, Json>): Result<seq<Shape>, Error>
  {
    PopulatedUpTo(shapes, fields, PlaceholdersInfo(metadata), |fields|)
  }

  /** Two shape lists that differ at most in the text of their frames and cells, and not in their table grids. */
  ghost predicate SameLayout(a: seq<Shape>, b: seq<Shape>)
  {
    |a| == |b|
    && forall k :: 0 <= k < |a| ==>
      a[k].(frame := b[k].frame, table := b[k].table) == b[k]
      && (a[k].frame.Some? <==> b[k].frame.Some?)
      && (a[k].table.Some? <==> b[k].table.Some?)
      && (a[k].table.Some? ==> SameGrid(a[k].table.value, b[k].table.value))
  }

  /** Changing only text keeps every graphic frame and whether it holds a table. */
  lemma SameLayoutKeepsNoTableFrames(a: seq<Shape>, b: seq<Shape>)
    requires SameLayout(a, b)
    ensures HasNoTableFrame(a) <==> HasNoTableFrame(b)
  {
    forall k | 0 <= k < |a|
      ensures NoTableFrame(a[k]) <==> NoTableFrame(b[k])
    {
      assert a[k].(frame := b[k].frame, table := b[k].table).graphicFrame == a[k].graphicFrame;
    }
  }

  lemma SameLayoutTransitive(a: seq<Shape>, b: seq<Shape>, c: seq<Shape>)
    requires SameLayout(a, b) && SameLayout(b, c)
    ensures SameLayout(a, c)
  {
  }

  /** One field keeps every shape, its kind, place and image, and every table grid; only text changes. */
  lemma PopulateFieldKeepsLayout(shapes: seq<Shape>, f: Field, info: Json)
    requires PopulateField(shapes, f, info).Success?
    ensures SameLayout(shapes, PopulateField(shapes, f, info).value)
  {
    var t := FieldType(info, f.name).value;
    if IsTextKind(t) {
      ReplacedKeepsLayout(shapes, Token(f.name), Str(f.value));
    } else if t == JStr("list") {
      ListFilledKeepsLayout(shapes, f.name, f.value);
    } else if t == JStr("table") {
      TableFilledKeepsLayout(shapes, f.name, f.value);
    }
  }

  /** Replacing a token's text keeps the layout. */
  lemma ReplacedKeepsLayout(shapes: seq<Shape>, token: string, value: string)
    requires token != []
    ensures SameLayout(shapes, ReplacedShapes(shapes, token, value))
  {
    forall k | 0 <= k < |shapes|
      ensures shapes[k].table.Some? ==> SameGrid(shapes[k].table.value, ReplacedShapes(shapes, token, value)[k].table.value)
    {
      ReplacedShapesSpec(shapes, token, value, k);
    }
  }

  /** Filling a list field keeps the layout. */
  lemma ListFilledKeepsLayout(shapes: seq<Shape>, name: string, v: Value)
    requires ListFilled(shapes, name, v).Success?
    ensures SameLayout(shapes, ListFilled(shapes, name, v).value)
  {
    ListFilledSpec(shapes, name, v);
  }

  /** Filling a table field keeps the layout. */
  lemma TableFilledKeepsLayout(shapes: seq<Shape>, name: string, data: Value)
    requires TableFilled(shapes, name, data).Success?
    ensures SameLayout(shapes, TableFilled(shapes, name, data).value)
  {
    TableFilledSpec(shapes, name, data);
  }

  /**
   * Populating a slide keeps its shapes, their kinds, places, images and
   * table grids: no shape or row is added or removed, only text changes.
   */
  lemma {:induction false} PopulateKeepsLayout(shapes: seq<Shape>, fields: Fields, info: Json, n: nat)
    requires n <= |fields| && PopulatedUpTo(shapes, fields, info, n).Success?
    ensures SameLayout(shapes, PopulatedUpTo(shapes, fields, info, n).value)
  {
    if n > 0 {
      PopulateKeepsLayout(shapes, fields, info, n - 1);
      var cur := PopulatedUpTo(shapes, fields, info, n - 1).value;
      PopulateFieldKeepsLayout(cur, fields[n - 1], info);
      SameLayoutTransitive(shapes, cur, PopulatedUpTo(shapes, fields, info, n).value);
    }
  }

  /** Once a field has raised, the slide's population has raised with that exception. */
  lemma {:induction false} PopulateFailureSticks(shapes: seq<Shape>, fields: Fields, info: Json, n: nat)
    requires n <= |fields| && PopulatedUpTo(shapes, fields, info, n).Failure?
    ensures PopulatedUpTo(shapes, fields, info, |fields|) == PopulatedUpTo(shapes, fields, info, n)
    decreases |fields| - n
  {
    if n < |fields| {
      PopulateFailureSticks(shapes, fields, info, n + 1);
    }
  }

  /** `_populate_slide`: every field in the request's order; returns Fail with the exception that escapes. */
  method PopulateSlide(slide: LiveSlide, fields: Fields, metadata: map<string, Json>) returns (r: Outcome<Error>)
    modifies slide
    ensures Populated(old(slide.shapes), fields, metadata).Success? ==>
      r == Pass && slide.shapes == Populated(old(slide.shapes), fields, metadata).value
    ensures Populated(old(slide.shapes), fields, metadata).Failure? ==>
      r == Fail(Populated(old(slide.shapes), fields, metadata).error)
  {
    ghost var original := slide.shapes;
    var info := PlaceholdersInfo(metadata);
    for n := 0 to |fields|
      invariant PopulatedUpTo(original, fields, info, n) == Success(slide.shapes)
    {
      var f := fields[n];
      var kind := FieldType(info, f.name);
      if kind.Failure? {
        PopulateFailureSticks(original, fields, info, n + 1);
        return Fail(kind.error);
      }
      var t := kind.value;
      if IsTextKind(t) {
        var outcome := ReplaceTextInSlide(slide, Token(f.name), Str(f.value));
        if outcome.Fail? {
          PopulateFailureSticks(original, fields, info, n + 1);
          return outcome;
        }
      } else if t == JStr("list") {
        var outcome := PopulateListField(slide, f.name, f.value);
        if outcome.Fail? {
          PopulateFailureSticks(original, fields, info, n + 1);
          return outcome;
        }
      } else if t == JStr("table") {
        var outcome := PopulateTableField(slide, f.name, f.value);
        if outcome.Fail? {
          PopulateFailureSticks(original, fields, info, n + 1);
          return outcome;
        }
      }
    }
    return Pass;
  }
}
