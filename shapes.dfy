/**
 * The presentation document as the generators see it through python-pptx:
 * a slide is a sequence of shapes; a shape has a shape-type code, may be a
 * placeholder, and may carry a text frame (paragraphs of runs), a table (a
 * grid of cells, each a text frame) or picture bytes. The text accessors and
 * setters below follow python-pptx: `TextFrame.text` joins paragraphs with
 * a line feed, `TextFrame.clear()` keeps one emptied paragraph, and
 * assigning `TextFrame.text` makes one fresh paragraph per line.
 */
module Shapes {
  import opened Wrappers
  import opened Strings

  /** A run: its text and its character formatting (an opaque identifier; 0 is the inherited default). */
  datatype Run = Run(text: string, format: nat)

  /** A paragraph: its runs, its indent level and its alignment (None when not set). */
  datatype Paragraph = Paragraph(runs: seq<Run>, level: nat, alignment: Option<nat>)

  datatype TextFrame = TextFrame(paragraphs: seq<Paragraph>)

  /** A table: rows of cells, each cell holding a text frame. */
  datatype Table = Table(rows: seq<seq<TextFrame>>)

  datatype Geometry = Geometry(left: int, top: int, width: int, height: int)

  /**
   * A shape: its MSO_SHAPE_TYPE code, whether it is a placeholder and its
   * placeholder index, its position and size, its text frame if it has one,
   * its table if it is a table frame, its image bytes if it shows a picture,
   * and whether it is a graphic frame (the holder of a table, a chart,
   * SmartArt or an OLE object).
   */
  datatype Shape = Shape(
    shapeType: int,
    isPlaceholder: bool,
    placeholderIdx: int,
    geometry: Geometry,
    frame: Option<TextFrame>,
    table: Option<Table>,
    image: Option<seq<bv8>>,
    graphicFrame: bool)

  // MSO_SHAPE_TYPE codes the generators test for.
  const AUTO_SHAPE := 1
  const GROUP := 6
  const LINE := 9
  const LINKED_OLE_OBJECT := 10
  const PICTURE := 13
  const PLACEHOLDER := 14
  const TEXT_BOX := 17
  const TABLE := 19

  /** PP_ALIGN.CENTER, the alignment python-pptx gives the paragraph of a new auto shape. */
  const CENTER := 2

  /**
   * A graphic frame that holds no table (a chart, SmartArt, an OLE object):
   * reading `shape.table` raises ValueError there, and `hasattr` lets that
   * escape, since it only catches AttributeError.
   */
  predicate NoTableFrame(s: Shape)
  {
    s.graphicFrame && s.table.None?
  }

  /** Some shape of the list is a graphic frame without a table. */
  predicate HasNoTableFrame(shapes: seq<Shape>)
  {
    exists k :: 0 <= k < |shapes| && NoTableFrame(shapes[k])
  }

  function RunsText(runs: seq<Run>): string
  {
    if runs == [] then [] else RunsText(runs[..|runs| - 1]) + runs[|runs| - 1].text
  }

  /** `paragraph.text`: the text of its runs. */
  function ParagraphText(p: Paragraph): string
  {
    RunsText(p.runs)
  }

  function ParagraphTexts(ps: seq<Paragraph>): (r: seq<string>)
    ensures |r| == |ps| && forall k :: 0 <= k < |ps| ==> r[k] == ParagraphText(ps[k])
  {
    seq(|ps|, k requires 0 <= k < |ps| => ParagraphText(ps[k]))
  }

  /** `text_frame.text` (also `shape.text` and `cell.text`): paragraph texts joined by line feeds. */
  function FrameText(tf: TextFrame): string
  {
    Join(ParagraphTexts(tf.paragraphs), "\n")
  }

  /** The texts of a table's cells, row by row. */
  function CellTexts(rows: seq<seq<TextFrame>>): seq<string>
  {
    if rows == [] then []
    else CellTexts(rows[..|rows| - 1]) + seq(|rows[|rows| - 1]|, c requires 0 <= c < |rows[|rows| - 1]| => FrameText(rows[|rows| - 1][c]))
  }

  const EmptyParagraph := Paragraph([], 0, None)

  /** A frame holding one empty paragraph, as a new text box has. */
  const EmptyFrame := TextFrame([EmptyParagraph])

  /** A frame holding one empty centred paragraph, as a new auto shape has. */
  const CenteredFrame := TextFrame([EmptyParagraph.(alignment := Some(CENTER))])

  /**
   * `text_frame.clear()`: every paragraph but the first is removed and the
   * first loses its runs, keeping its level and alignment.
   */
  function Clear(tf: TextFrame): (r: TextFrame)
    ensures |r.paragraphs| == 1 && r.paragraphs[0].runs == []
    ensures tf.paragraphs != [] ==> r.paragraphs[0] == tf.paragraphs[0].(runs := [])
    ensures FrameText(r) == []
  {
    if tf.paragraphs == [] then TextFrame([EmptyParagraph]) else TextFrame([tf.paragraphs[0].(runs := [])])
  }

  /** `paragraph.text = t`: the runs become one run of default formatting holding t (none when t is empty). */
  function WithText(p: Paragraph, t: string): (r: Paragraph)
    ensures ParagraphText(r) == t && r.level == p.level && r.alignment == p.alignment
  {
    var r := p.(runs := if t == [] then [] else [Run(t, 0)]);
    assert t != [] ==> RunsText(r.runs) == RunsText([]) + t;
    r
  }

  /** `text_frame.clear(); text_frame.paragraphs[0].text = t`: one paragraph holding t. */
  function Rebuilt(tf: TextFrame, t: string): (r: TextFrame)
    ensures |r.paragraphs| == 1 && FrameText(r) == t
  {
    TextFrame([WithText(Clear(tf).paragraphs[0], t)])
  }

  /** `text_frame.text = t` (also `cell.text = t`): one fresh paragraph per line of t. */
  function WithFrameText(t: string): (r: TextFrame)
    ensures FrameText(r) == t
    ensures forall k :: 0 <= k < |r.paragraphs| ==> r.paragraphs[k].level == 0 && r.paragraphs[k].alignment.None?
  {
    var lines := Split(t, '\n');
    var r := TextFrame(seq(|lines|, k requires 0 <= k < |lines| => WithText(EmptyParagraph, lines[k])));
    assert ParagraphTexts(r.paragraphs) == lines;
    SplitJoin(t, '\n');
    r
  }

  /** Some cell of the table has text containing s. */
  predicate TableContains(t: Table, s: string)
  {
    exists r, c :: 0 <= r < |t.rows| && 0 <= c < |t.rows[r]| && Contains(FrameText(t.rows[r][c]), s)
  }

  /** Two tables have the same number of rows and the same number of cells in each row. */
  predicate SameGrid(a: Table, b: Table)
  {
    |a.rows| == |b.rows| && forall r :: 0 <= r < |a.rows| ==> |a.rows[r]| == |b.rows[r]|
  }

  /** A slide layout: its name and the placeholders a slide made from it starts with. */
  datatype Layout = Layout(name: string, placeholders: seq<Shape>)

  /**
   * The speaker notes of a slide: it has no notes slide, or its notes slide
   * has no body placeholder (no notes text frame), or the text of that frame.
   */
  datatype Notes = NoNotesSlide | NoNotesBody | NotesText(text: string)

  /**
   * A slide: its speaker notes, the name of its layout and the layout's
   * position among its siblings (None when that cannot be determined), and
   * its shapes in z-order.
   */
  datatype Slide = Slide(notes: Notes, layoutName: string, layoutPosition: Option<nat>, shapes: seq<Shape>)

  /** A presentation: its slides and its slide layouts. */
  datatype Deck = Deck(slides: seq<Slide>, layouts: seq<Layout>)

  /** An opened presentation whose slide list the generators change in place. */
  class Presentation {
    var slides: seq<Slide>
    var layouts: seq<Layout>

    constructor (d: Deck)
      ensures slides == d.slides && layouts == d.layouts
    {
      slides := d.slides;
      layouts := d.layouts;
    }
  }

  /** The output path: the deck last written to it, None while nothing has been. */
  class OutputFile {
    var deck: Option<Deck>

    constructor (deck: Option<Deck>)
      ensures this.deck == deck
    {
      this.deck := deck;
    }
  }

  /** Some slide holds a graphic frame without a table. */
  predicate SomeSlideHasNoTableFrame(slides: seq<Slide>)
  {
    exists i :: 0 <= i < |slides| && HasNoTableFrame(slides[i].shapes)
  }

  /** The shape loop inside the slide loop, asking each shape for its table: does any of them raise? */
  method ProbeTables(slides: seq<Slide>) returns (raises: bool)
    ensures raises == SomeSlideHasNoTableFrame(slides)
  {
    for i := 0 to |slides|
      invariant forall j :: 0 <= j < i ==> !HasNoTableFrame(slides[j].shapes)
    {
      var shapes := slides[i].shapes;
      for k := 0 to |shapes|
        invariant forall j :: 0 <= j < k ==> !NoTableFrame(shapes[j])
      {
        if shapes[k].graphicFrame && shapes[k].table.None? {
          return true;
        }
      }
    }
    return false;
  }

  /** A slide of the deck being built, whose shape list the generator changes in place. */
  class LiveSlide {
    var shapes: seq<Shape>

    constructor (shapes: seq<Shape>)
      ensures this.shapes == shapes
    {
      this.shapes := shapes;
    }
  }
}
