/**
 * Making one output slide out of a template slide: the output layout it is
 * built on, which of the template slide's own shapes are copied onto it,
 * how a text frame is copied, and how the template's placeholder text is
 * carried over to the new slide's placeholders.
 */
module Cloning {
  import opened Wrappers
  import opened Strings
  import opened Metadata
  import opened Shapes
  import opened Search

  // ----- layout resolution -----

  /**
   * The output layout for a template slide whose layout is called `name`
   * and sits at `position` among its master's layouts (None when that
   * position cannot be read): the first output layout of that name, else
   * the layout at that position if there is one, else the first layout;
   * ValueError only when the output deck has no layout at all.
   */
  function ResolvedLayout(layouts: seq<Layout>, name: string, position: Option<nat>): (r: Result<nat, Error>)
    ensures r.Failure? <==> layouts == []
    ensures r.Failure? ==> r.error == NoLayout(name)
    ensures r.Success? ==> r.value < |layouts|
    ensures (exists j :: 0 <= j < |layouts| && layouts[j].name == name) ==>
      r.Success? && layouts[r.value].name == name && forall j :: 0 <= j < r.value ==> layouts[j].name != name
    ensures layouts != [] && (forall j :: 0 <= j < |layouts| ==> layouts[j].name != name) ==>
      r == Success(if position.Some? && position.value < |layouts| then position.value else 0)
  {
    match FirstWhere(layouts, (l: Layout) => l.name == name)
    case Some(i) => Success(i)
    case None =>
      if position.Some? && position.value < |layouts| then Success(position.value)
      else if layouts != [] then Success(0)
      else Failure(NoLayout(name))
  }

  /** The layout search loop of `generate_from_slides` and its two fallbacks. */
  method ResolveLayout(layouts: seq<Layout>, name: string, position: Option<nat>) returns (r: Result<nat, Error>)
    ensures r == ResolvedLayout(layouts, name, position)
  {
    var matching: Option<nat> := None;
    var i := 0;
    while i < |layouts|
      invariant i <= |layouts|
      invariant forall j :: 0 <= j < i ==> layouts[j].name != name
    {
      if layouts[i].name == name {
        matching := Some(i);
        break;
      }
      i := i + 1;
    }
    if matching.None? && position.Some? && position.value < |layouts| {
      matching := Some(position.value);
    }
    if matching.None? && |layouts| > 0 {
      matching := Some(0);
    }
    if matching.None? {
      return Failure(NoLayout(name));
    }
    return Success(matching.value);
  }

  // ----- copying a text frame -----

  /** A source paragraph written onto `base`: its text, its level, and its alignment when it has one. */
  function CopyParagraph(base: Paragraph, src: Paragraph): (r: Paragraph)
    ensures ParagraphText(r) == ParagraphText(src) && r.level == src.level
    ensures src.alignment.Some? ==> r.alignment == src.alignment
    ensures src.alignment.None? ==> r.alignment == base.alignment
  {
    var target := base.(level := src.level, alignment := if src.alignment.Some? then src.alignment else base.alignment);
    WithText(target, ParagraphText(src))
  }

  /**
   * `_copy_text_frame_content` as written: `clear()` leaves one emptied
   * paragraph, and every source paragraph is then added after it.
   */
  function CopyTextFrameContentAsWritten(src: TextFrame, target: TextFrame): TextFrame
  {
    var added := seq(|src.paragraphs|, k requires 0 <= k < |src.paragraphs| => CopyParagraph(EmptyParagraph, src.paragraphs[k]));
    TextFrame(Clear(target).paragraphs + added)
  }

  /** As written, the copy has one paragraph too many, and its text starts with an extra line break. */
  lemma CopyAsWrittenAddsLeadingLine(src: TextFrame, target: TextFrame)
    requires src.paragraphs != []
    ensures |CopyTextFrameContentAsWritten(src, target).paragraphs| == |src.paragraphs| + 1
    ensures CopyTextFrameContentAsWritten(src, target).paragraphs[0].runs == []
    ensures FrameText(CopyTextFrameContentAsWritten(src, target)) == "\n" + FrameText(src)
  {
    var r := CopyTextFrameContentAsWritten(src, target);
    var texts := ParagraphTexts(src.paragraphs);
    assert ParagraphTexts(r.paragraphs) == [[]] + texts;
    assert ([[]] + texts)[1..] == texts;
  }

  /** A text box holding "Hello" is copied as a text box reading "\nHello". */
  lemma CopiedTextBoxGainsBlankFirstLine()
    ensures var src := TextFrame([Paragraph([Run("Hello", 0)], 0, None)]);
      FrameText(src) == "Hello" && FrameText(CopyTextFrameContentAsWritten(src, EmptyFrame)) == "\nHello"
  {
    var src := TextFrame([Paragraph([Run("Hello", 0)], 0, None)]);
    assert RunsText([Run("Hello", 0)]) == RunsText([]) + "Hello";
    assert ParagraphText(src.paragraphs[0]) == "Hello";
    assert ParagraphTexts(src.paragraphs) == ["Hello"];
    CopyAsWrittenAddsLeadingLine(src, EmptyFrame);
  }

  /** Source paragraphs written in order, the first onto `first` and the others onto fresh paragraphs. */
  function CopiedParagraphs(first: Paragraph, ps: seq<Paragraph>): (r: seq<Paragraph>)
    ensures |r| == |ps| && ParagraphTexts(r) == ParagraphTexts(ps)
    ensures forall k :: 0 <= k < |ps| ==>
      r[k].level == ps[k].level && (ps[k].alignment.Some? ==> r[k].alignment == ps[k].alignment)
  {
    var r := seq(|ps|, k requires 0 <= k < |ps| => CopyParagraph(if k == 0 then first else EmptyParagraph, ps[k]));
    assert forall k :: 0 <= k < |ps| ==> ParagraphText(r[k]) == ParagraphText(ps[k]);
    r
  }

  /**
   * The evident intent of `_copy_text_frame_content`: the target ends with
   * exactly the source's paragraphs, the first written onto the paragraph
   * `clear()` keeps, each with the source's text, level and alignment.
   */
  function CopyTextFrameContent(src: TextFrame, target: TextFrame): (r: TextFrame)
    ensures |r.paragraphs| == if src.paragraphs == [] then 1 else |src.paragraphs|
    ensures FrameText(r) == FrameText(src)
    ensures forall k :: 0 <= k < |src.paragraphs| ==>
      ParagraphText(r.paragraphs[k]) == ParagraphText(src.paragraphs[k])
      && r.paragraphs[k].level == src.paragraphs[k].level
      && (src.paragraphs[k].alignment.Some? ==> r.paragraphs[k].alignment == src.paragraphs[k].alignment)
  {
    if src.paragraphs == [] then Clear(target)
    else TextFrame(CopiedParagraphs(Clear(target).paragraphs[0], src.paragraphs))
  }

  // ----- which shapes are copied -----

  /** The text of a frame that may be missing ("" when it is). */
  function TextOf(frame: Option<TextFrame>): string
  {
    if frame.Some? then FrameText(frame.value) else []
  }

  /**
   * The shape `_copy_slide_shapes` adds to the new slide for one template
   * shape, or None when it adds nothing. Placeholders come from the layout;
   * an auto shape without visible text, a line and a linked OLE object are
   * skipped; a picture is re-added with its image at the same place (when
   * its image can be read); a text box and an auto shape with text get a
   * new shape at the same place with the text copied (a new auto shape's
   * paragraph is centred, so a source paragraph without an alignment ends
   * centred); a copy is never a graphic frame; a group has no auto
   * shape type, and a table or any other kind has no branch, so neither is
   * copied.
   */
  function CopyOf(s: Shape): (r: Option<Shape>)
    ensures r.Some? <==> (!s.isPlaceholder &&
      ((s.shapeType == PICTURE && s.image.Some?)
       || s.shapeType == TEXT_BOX
       || (s.shapeType == AUTO_SHAPE && Strip(TextOf(s.frame)) != [])))
    ensures r.Some? ==> (r.value.shapeType == s.shapeType && !r.value.isPlaceholder
      && r.value.geometry == s.geometry && r.value.table.None? && !r.value.graphicFrame)
    ensures r.Some? && s.shapeType == PICTURE ==> r.value.image == s.image && r.value.frame.None?
    ensures r.Some? && s.shapeType != PICTURE ==> r.value.frame.Some? && FrameText(r.value.frame.value) == TextOf(s.frame)
    ensures r.Some? && s.shapeType == AUTO_SHAPE && s.frame.Some? && s.frame.value.paragraphs != [] && s.frame.value.paragraphs[0].alignment.None? ==>
      r.value.frame.value.paragraphs[0].alignment == Some(CENTER)
  {
    if s.isPlaceholder then None
    else if s.shapeType == AUTO_SHAPE && !(s.frame.Some? && Strip(FrameText(s.frame.value)) != []) then None
    else if s.shapeType == LINE || s.shapeType == LINKED_OLE_OBJECT then None
    else if s.shapeType == PICTURE then
      if s.image.Some? then Some(Shape(PICTURE, false, 0, s.geometry, None, None, s.image, false)) else None
    else if s.shapeType == TEXT_BOX then
      var frame := if s.frame.Some? then CopyTextFrameContent(s.frame.value, EmptyFrame) else EmptyFrame;
      assert FrameText(EmptyFrame) == [];
      Some(Shape(TEXT_BOX, false, 0, s.geometry, Some(frame), None, None, false))
    else if s.shapeType == AUTO_SHAPE then
      Some(Shape(AUTO_SHAPE, false, 0, s.geometry, Some(CopyTextFrameContent(s.frame.value, CenteredFrame)), None, None, false))
    else None
  }

  /** The shapes added for a template slide's shapes, in z-order. */
  function Copies(shapes: seq<Shape>): (r: seq<Shape>)
    ensures |r| <= |shapes|
    ensures forall k :: 0 <= k < |r| ==> !r[k].isPlaceholder && r[k].table.None? && !r[k].graphicFrame
  {
    if shapes == [] then []
    else
      var rest := Copies(shapes[..|shapes| - 1]);
      match CopyOf(shapes[|shapes| - 1])
      case None => rest
      case Some(c) => rest + [c]
  }

  /** Every template shape that is copied has its copy among the copies, in the same relative order. */
  lemma {:induction false} CopiesComplete(shapes: seq<Shape>, i: nat)
    requires i < |shapes| && CopyOf(shapes[i]).Some?
    ensures CopyOf(shapes[i]).value in Copies(shapes)
    decreases |shapes|
  {
    var last := |shapes| - 1;
    var prefix := shapes[..last];
    var rest := Copies(prefix);
    assert Copies(shapes) == if CopyOf(shapes[last]).Some? then rest + [CopyOf(shapes[last]).value] else rest;
    if i < last {
      assert prefix[i] == shapes[i];
      CopiesComplete(prefix, i);
    }
  }

  /** Copying the shapes of a slide made of two parts copies each part in turn. */
  lemma {:induction false} CopiesAppend(a: seq<Shape>, b: seq<Shape>)
    ensures Copies(a + b) == Copies(a) + Copies(b)
    decreases |b|
  {
    if b == [] {
      assert a + b == a;
    } else {
      var last := |b| - 1;
      assert (a + b)[..|a + b| - 1] == a + b[..last];
      assert (a + b)[|a + b| - 1] == b[last];
      CopiesAppend(a, b[..last]);
    }
  }

  /** `_copy_slide_shapes` (the non-placeholder pass): each copy is appended to the new slide. */
  method CopySlideShapes(source: seq<Shape>, target: LiveSlide)
    modifies target
    ensures target.shapes == old(target.shapes) + Copies(source)
  {
    for k := 0 to |source|
      invariant target.shapes == old(target.shapes) + Copies(source[..k])
    {
      assert source[..k + 1][..k] == source[..k];
      var copy := CopyOf(source[k]);
      if copy.Some? {
        target.shapes := target.shapes + [copy.value];
      }
    }
    assert source[..|source|] == source;
  }

  // ----- placeholder text -----

  /** The first placeholder of the new slide with the given `placeholder_format.idx`. */
  function PlaceholderWithIdx(shapes: seq<Shape>, idx: int): Option<nat>
  {
    FirstWhere(shapes, (s: Shape) => s.isPlaceholder && s.placeholderIdx == idx)
  }

  /**
   * One step of `_copy_placeholder_content`: a template placeholder with a
   * text frame copies its text into the first placeholder of the new slide
   * with the same index, when that one has a text frame.
   */
  function CopyOnePlaceholder(src: Shape, target: seq<Shape>): (r: seq<Shape>)
    ensures |r| == |target|
  {
    if !(src.isPlaceholder && src.frame.Some?) then target
    else match PlaceholderWithIdx(target, src.placeholderIdx)
      case None => target
      case Some(i) =>
        if target[i].frame.Some? then
          target[i := target[i].(frame := Some(CopyTextFrameContent(src.frame.value, target[i].frame.value)))]
        else target
  }

  /**
   * Only the text frame of the first matching placeholder changes, and it
   * then reads as the template placeholder's text; every other shape, and
   * every other part of that one, is left as it was.
   */
  lemma CopyOnePlaceholderSpec(src: Shape, target: seq<Shape>)
    ensures var r := CopyOnePlaceholder(src, target);
      |r| == |target|
      && (forall k :: 0 <= k < |r| ==> r[k].(frame := target[k].frame) == target[k] && (r[k].frame.Some? <==> target[k].frame.Some?))
      && (forall k :: 0 <= k < |r| && r[k] != target[k] ==>
            src.isPlaceholder && src.frame.Some? && target[k].isPlaceholder
            && target[k].placeholderIdx == src.placeholderIdx
            && PlaceholderWithIdx(target, src.placeholderIdx) == Some(k)
            && FrameText(r[k].frame.value) == FrameText(src.frame.value))
  {
  }

  /** The new slide's shapes after the first n template shapes have been visited. */
  function PlaceholdersCopied(source: seq<Shape>, target: seq<Shape>, n: nat): seq<Shape>
    requires n <= |source|
  {
    if n == 0 then target else CopyOnePlaceholder(source[n - 1], PlaceholdersCopied(source, target, n - 1))
  }

  /** Copying placeholder text changes only the text frames of the new slide's placeholders. */
  lemma {:induction false} PlaceholdersCopiedTouchOnlyPlaceholderText(source: seq<Shape>, target: seq<Shape>, n: nat)
    requires n <= |source|
    ensures var r := PlaceholdersCopied(source, target, n);
      |r| == |target|
      && (forall k :: 0 <= k < |r| ==> r[k].(frame := target[k].frame) == target[k] && (r[k].frame.Some? <==> target[k].frame.Some?))
      && (forall k :: 0 <= k < |r| && !target[k].isPlaceholder ==> r[k] == target[k])
  {
    if n > 0 {
      PlaceholdersCopiedTouchOnlyPlaceholderText(source, target, n - 1);
      var prev := PlaceholdersCopied(source, target, n - 1);
      CopyOnePlaceholderSpec(source[n - 1], prev);
    }
  }

  /** `_copy_placeholder_content`: every template placeholder in turn, each searching the new slide's placeholders. */
  method CopyPlaceholderContent(source: seq<Shape>, target: LiveSlide)
    modifies target
    ensures target.shapes == PlaceholdersCopied(source, old(target.shapes), |source|)
  {
    for k := 0 to |source|
      invariant target.shapes == PlaceholdersCopied(source, old(target.shapes), k)
    {
      var shape := source[k];
      ghost var before := target.shapes;
      if shape.isPlaceholder && shape.frame.Some? {
        var j := 0;
        while j < |target.shapes|
          invariant j <= |target.shapes| && target.shapes == before
          invariant forall m :: 0 <= m < j ==> !(before[m].isPlaceholder && before[m].placeholderIdx == shape.placeholderIdx)
        {
          var candidate := target.shapes[j];
          if candidate.isPlaceholder && candidate.placeholderIdx == shape.placeholderIdx {
            assert PlaceholderWithIdx(before, shape.placeholderIdx) == Some(j);
            if candidate.frame.Some? {
              var copied := CopyTextFrameContent(shape.frame.value, candidate.frame.value);
              target.shapes := target.shapes[j := candidate.(frame := Some(copied))];
            }
            break;
          }
          j := j + 1;
        }
      }
      assert target.shapes == CopyOnePlaceholder(shape, before);
    }
  }
}
