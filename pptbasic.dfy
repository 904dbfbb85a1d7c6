/**
 * The basic PowerPoint generator: `{{field}}` substitution inside every
 * run of every text frame and table cell on every slide, and the
 * template's field list.
 */
module PptBasic {
  import opened Wrappers
  import opened Strings
  import opened Metadata
  import opened Values
  import opened Shapes
  import opened FieldNames
  import opened Substitution
  import opened Populate

  /** `_replace_text_in_shape` on one text frame: every run of every paragraph substituted. */
  function FrameFilled(tf: TextFrame, fields: Fields): TextFrame
  {
    TextFrame(seq(|tf.paragraphs|, k requires 0 <= k < |tf.paragraphs| => RunsSubstituted(tf.paragraphs[k], fields)))
  }

  function CellsFilled(t: Table, fields: Fields): Table
  {
    Table(seq(|t.rows|, r requires 0 <= r < |t.rows| =>
      seq(|t.rows[r]|, c requires 0 <= c < |t.rows[r]| => FrameFilled(t.rows[r][c], fields))))
  }

  /** A shape after `generate`: its own text frame and its table's cells filled; objects without either untouched. */
  function ShapeFilled(s: Shape, fields: Fields): Shape
  {
    s.(frame := if s.frame.Some? then Some(FrameFilled(s.frame.value, fields)) else None,
       table := if s.table.Some? then Some(CellsFilled(s.table.value, fields)) else None)
  }

  function ShapesFilled(shapes: seq<Shape>, fields: Fields): (r: seq<Shape>)
    ensures |r| == |shapes|
  {
    seq(|shapes|, k requires 0 <= k < |shapes| => ShapeFilled(shapes[k], fields))
  }

  /** Same paragraphs and runs, with the same formats, levels and alignments: only run texts differ. */
  ghost predicate SameRuns(a: TextFrame, b: TextFrame)
  {
    |a.paragraphs| == |b.paragraphs|
    && forall k :: 0 <= k < |a.paragraphs| ==>
      var p, q := a.paragraphs[k], b.paragraphs[k];
      |p.runs| == |q.runs| && p.level == q.level && p.alignment == q.alignment
      && forall i :: 0 <= i < |p.runs| ==> p.runs[i].format == q.runs[i].format
  }

  /**
   * Filling keeps every slide's layout of shapes (same shapes, frames and
   * table grids) and, inside every frame and cell, the same paragraphs and
   * runs: no run is added or removed.
   */
  lemma ShapesFilledKeepStructure(shapes: seq<Shape>, fields: Fields)
    ensures SameLayout(shapes, ShapesFilled(shapes, fields))
    ensures forall k :: 0 <= k < |shapes| && shapes[k].frame.Some? ==>
      SameRuns(shapes[k].frame.value, ShapesFilled(shapes, fields)[k].frame.value)
    ensures forall k, r, c :: (0 <= k < |shapes| && shapes[k].table.Some? && 0 <= r < |shapes[k].table.value.rows|
      && 0 <= c < |shapes[k].table.value.rows[r]|) ==>
      SameRuns(shapes[k].table.value.rows[r][c], ShapesFilled(shapes, fields)[k].table.value.rows[r][c])
  {
  }

  /** A frame none of whose runs holds a field's token is left exactly as it was. */
  lemma FrameWithoutTokensKept(tf: TextFrame, fields: Fields)
    requires forall k, i, j :: 0 <= k < |tf.paragraphs| && 0 <= i < |tf.paragraphs[k].runs| && 0 <= j < |fields| ==>
      !Contains(tf.paragraphs[k].runs[i].text, Token(fields[j].name))
    ensures FrameFilled(tf, fields) == tf
  {
    forall k | 0 <= k < |tf.paragraphs|
      ensures RunsSubstituted(tf.paragraphs[k], fields) == tf.paragraphs[k]
    {
      SplitTokenSurvives(tf.paragraphs[k], fields);
    }
  }

  /** The paragraph and run loops of `_replace_text_in_shape`, the field loop inside each run. */
  method FillFrame(tf: TextFrame, fields: Fields) returns (u: TextFrame)
    ensures u == FrameFilled(tf, fields)
  {
    var paragraphs: seq<Paragraph> := [];
    for k := 0 to |tf.paragraphs|
      invariant |paragraphs| == k
      invariant forall j :: 0 <= j < k ==> paragraphs[j] == RunsSubstituted(tf.paragraphs[j], fields)
    {
      var p := tf.paragraphs[k];
      var runs := p.runs;
      for i := 0 to |runs|
        invariant |runs| == |p.runs|
        invariant forall j :: 0 <= j < i ==> runs[j] == RunsSubstituted(p, fields).runs[j]
        invariant forall j :: i <= j < |runs| ==> runs[j] == p.runs[j]
      {
        var text := SubstituteText(runs[i].text, fields);
        runs := runs[i := runs[i].(text := text)];
      }
      paragraphs := paragraphs + [p.(runs := runs)];
    }
    u := TextFrame(paragraphs);
  }

  /** Every cell of a table, row by row. */
  method FillTable(t: Table, fields: Fields) returns (u: Table)
    ensures u == CellsFilled(t, fields)
  {
    var rows := t.rows;
    for r := 0 to |rows|
      invariant |rows| == |t.rows|
      invariant forall i :: 0 <= i < r ==> rows[i] == CellsFilled(t, fields).rows[i]
      invariant forall i :: r <= i < |rows| ==> rows[i] == t.rows[i]
    {
      var row := rows[r];
      for c := 0 to |row|
        invariant |row| == |t.rows[r]|
        invariant forall j :: 0 <= j < c ==> row[j] == FrameFilled(t.rows[r][j], fields)
        invariant forall j :: c <= j < |row| ==> row[j] == t.rows[r][j]
      {
        var v := FillFrame(row[c], fields);
        row := row[c := v];
      }
      rows := rows[r := row];
    }
    u := Table(rows);
  }

  /**
   * One shape: its text frame if it has one, then every cell of its table
   * if it is one; ValueError when it is a graphic frame without a table.
   */
  method FillShape(s: Shape, fields: Fields) returns (t: Result<Shape, Error>)
    ensures NoTableFrame(s) ==> t == Failure(NoTable)
    ensures !NoTableFrame(s) ==> t == Success(ShapeFilled(s, fields))
  {
    var frame := s.frame;
    if frame.Some? {
      var u := FillFrame(frame.value, fields);
      frame := Some(u);
    }
    if s.graphicFrame && s.table.None? {
      return Failure(NoTable);
    }
    var table := s.table;
    if table.Some? {
      var u := FillTable(table.value, fields);
      table := Some(u);
    }
    return Success(s.(frame := frame, table := table));
  }

  /** The shape loop over one slide. */
  method FillShapes(shapes: seq<Shape>, fields: Fields) returns (r: Result<seq<Shape>, Error>)
    ensures HasNoTableFrame(shapes) ==> r == Failure(NoTable)
    ensures !HasNoTableFrame(shapes) ==> r == Success(ShapesFilled(shapes, fields))
  {
    var filled := shapes;
    for i := 0 to |shapes|
      invariant |filled| == |shapes|
      invariant forall j :: 0 <= j < i ==> !NoTableFrame(shapes[j]) && filled[j] == ShapeFilled(shapes[j], fields)
      invariant forall j :: i <= j < |filled| ==> filled[j] == shapes[j]
    {
      var t := FillShape(filled[i], fields);
      if t.Failure? {
        return Failure(t.error);
      }
      filled := filled[i := t.value];
    }
    assert filled == ShapesFilled(shapes, fields);
    return Success(filled);
  }

  /**
   * `generate`: every shape of every slide filled; layouts, notes and the
   * slide list unchanged, on the failure path too. ValueError when some
   * slide holds a graphic frame without a table; the presentation is then
   * not saved.
   */
  method Generate(prs: Presentation, fields: Fields) returns (r: Outcome<Error>)
    modifies prs
    ensures prs.layouts == old(prs.layouts) && |prs.slides| == |old(prs.slides)|
    ensures forall k :: 0 <= k < |prs.slides| ==> prs.slides[k].(shapes := old(prs.slides)[k].shapes) == old(prs.slides)[k]
    ensures SomeSlideHasNoTableFrame(old(prs.slides)) ==> r == Fail(NoTable)
    ensures !SomeSlideHasNoTableFrame(old(prs.slides)) ==> r == Pass
    ensures !SomeSlideHasNoTableFrame(old(prs.slides)) ==> forall k :: 0 <= k < |prs.slides| ==>
      prs.slides[k] == old(prs.slides)[k].(shapes := ShapesFilled(old(prs.slides)[k].shapes, fields))
  {
    var slides := prs.slides;
    for k := 0 to |slides|
      invariant prs.layouts == old(prs.layouts) && |prs.slides| == |slides|
      invariant forall j :: 0 <= j < |slides| ==> prs.slides[j].(shapes := slides[j].shapes) == slides[j]
      invariant forall j :: 0 <= j < k ==> !HasNoTableFrame(slides[j].shapes)
      invariant forall j :: 0 <= j < k ==> prs.slides[j] == slides[j].(shapes := ShapesFilled(slides[j].shapes, fields))
      invariant forall j :: k <= j < |slides| ==> prs.slides[j] == slides[j]
    {
      var shapes := FillShapes(slides[k].shapes, fields);
      if shapes.Failure? {
        return Fail(shapes.error);
      }
      prs.slides := prs.slides[k := slides[k].(shapes := shapes.value)];
    }
    return Pass;
  }

  // ----- the template's field names -----

  /** The texts `get_template_fields` searches in one shape: its frame's text, then its cells row by row. */
  function ShapeTexts(s: Shape): seq<string>
  {
    (if s.frame.Some? then [FrameText(s.frame.value)] else [])
    + (if s.table.Some? then CellTexts(s.table.value.rows) else [])
  }

  function ShapesTexts(shapes: seq<Shape>): seq<string>
  {
    if shapes == [] then [] else ShapesTexts(shapes[..|shapes| - 1]) + ShapeTexts(shapes[|shapes| - 1])
  }

  function SlidesTexts(slides: seq<Slide>): seq<string>
  {
    if slides == [] then [] else SlidesTexts(slides[..|slides| - 1]) + ShapesTexts(slides[|slides| - 1].shapes)
  }

  /**
   * `get_template_fields`: ValueError when some slide holds a graphic frame
   * without a table; otherwise the names found in shape and cell texts,
   * sorted, each once, each well formed and present as a token in one of them.
   */
  method TemplateFields(prs: Presentation) returns (r: Result<seq<string>, Error>)
    ensures SomeSlideHasNoTableFrame(prs.slides) <==> r.Failure?
    ensures r.Failure? ==> r.error == NoTable
    ensures r.Success? ==> var texts := SlidesTexts(prs.slides);
      StrictlySorted(r.value)
      && (forall n :: n in r.value <==> n in NamesIn(texts))
      && (forall n :: n in r.value ==> WellFormedName(n))
      && (forall n :: n in r.value ==> exists i :: 0 <= i < |texts| && Contains(texts[i], Token(n)))
  {
    var raises := ProbeTables(prs.slides);
    if raises {
      return Failure(NoTable);
    }
    var texts := SlidesTexts(prs.slides);
    var names := TextNames(texts);
    var fields := SortedFields(texts, names);
    return Success(fields);
  }
}
