/**
 * `generate_from_slides` end to end: read every template slide's metadata,
 * catalogue the slides by type, plan one template slide per request, copy
 * the template to the output, empty it, and build every planned slide on
 * the matching layout; plus the template's field list and the legacy
 * whole-deck `generate`.
 */
module Composer {
  import opened Wrappers
  import opened Strings
  import opened Values
  import opened Metadata
  import opened Shapes
  import opened Catalog
  import opened Selection
  import opened Cloning
  import opened Populate
  import opened FieldNames
  import opened Steps
  import opened Substitution

  /** The deletion loop: slides removed from the last to the first. */
  method DeleteAllSlides(prs: Presentation)
    modifies prs
    ensures prs.slides == [] && prs.layouts == old(prs.layouts)
  {
    var i := |prs.slides| - 1;
    while i >= 0
      invariant -1 <= i && prs.slides == old(prs.slides)[..i + 1]
      invariant prs.layouts == old(prs.layouts)
    {
      prs.slides := prs.slides[..i];
      i := i - 1;
    }
  }

  // ----- preparation: catalog and plan -----

  /** The catalog, then the plan: everything `generate_from_slides` does before it touches the output path. */
  function Prepared(metadata: seq<Option<Json>>, reqs: seq<SlideRequest>): Result<seq<BuildInfo>, Error>
  {
    match CatalogOf(Declarations(metadata))
    case Failure(e) => Failure(e)
    case Success(c) => PlanOf(c, reqs)
  }

  /**
   * A prepared plan has one entry per request, and entry k names a
   * template slide that declares request k's type, with that slide's
   * metadata and request k's fields.
   */
  lemma PreparedPlanSpec(metadata: seq<Option<Json>>, reqs: seq<SlideRequest>)
    requires Prepared(metadata, reqs).Success?
    ensures var plan := Prepared(metadata, reqs).value;
      |plan| == |reqs|
      && forall k :: 0 <= k < |plan| ==>
        plan[k].templateIndex < |metadata| && plan[k].fields == reqs[k].fields
        && Declarations(metadata)[plan[k].templateIndex] == Some(Declaration(plan[k].metadata, reqs[k].slideType))
  {
    var decls := Declarations(metadata);
    var c := CatalogOf(decls).value;
    PlanFollowsRequests(c, reqs, |reqs|);
    var plan := Prepared(metadata, reqs).value;
    forall k | 0 <= k < |plan|
      ensures plan[k].templateIndex < |metadata| && plan[k].fields == reqs[k].fields
      ensures decls[plan[k].templateIndex] == Some(Declaration(plan[k].metadata, reqs[k].slideType))
    {
      PlannedSlideDeclaresType(decls, reqs[k]);
      PlanOneSpec(c, reqs[k]);
    }
  }

  /**
   * A request for a type no template slide declares (and that is not a
   * list or an object) makes preparation fail with ValueError, unless an
   * earlier request or the catalog has already raised.
   */
  lemma UnknownTypeFailsPreparation(metadata: seq<Option<Json>>, reqs: seq<SlideRequest>, k: nat)
    requires k < |reqs| && Hashable(reqs[k].slideType)
    requires forall i :: 0 <= i < |metadata| ==> !(Declarations(metadata)[i].Some? && Declarations(metadata)[i].value.slideType == reqs[k].slideType)
    ensures Prepared(metadata, reqs).Failure?
  {
    var decls := Declarations(metadata);
    if CatalogOf(decls).Success? {
      var c := CatalogOf(decls).value;
      CatalogValid(decls, |decls|);
      forall t | t in c.buckets
        ensures c.buckets[t][0].index < |decls| && decls[c.buckets[t][0].index].Some?
        ensures decls[c.buckets[t][0].index].value.slideType == t
      {
      }
      assert reqs[k].slideType !in c.buckets;
      assert PlanOne(c, reqs[k]).Failure?;
      PlanFollowsRequests(c, reqs, |reqs|);
    }
  }

  // ----- building the slides -----

  /**
   * One output slide: made from the resolved layout, the template slide's
   * own shapes copied on, its placeholder text carried over, then filled
   * with the request's fields. New slides have no notes.
   */
  function BuiltSlide(layouts: seq<Layout>, template: Slide, info: BuildInfo): Result<Slide, Error>
  {
    match ResolvedLayout(layouts, template.layoutName, template.layoutPosition)
    case Failure(e) => Failure(e)
    case Success(li) =>
      var shapes := layouts[li].placeholders + Copies(template.shapes);
      var withText := PlaceholdersCopied(template.shapes, shapes, |template.shapes|);
      match Populated(withText, info.fields, info.metadata)
      case Failure(e) => Failure(e)
      case Success(filled) => Success(Slide(NoNotesSlide, layouts[li].name, Some(li), filled))
  }

  /**
   * A built slide has no notes, sits on an output layout, and holds that
   * layout's placeholders followed by the copies of the template's shapes,
   * changed only in their text.
   */
  lemma BuiltSlideSpec(layouts: seq<Layout>, template: Slide, info: BuildInfo)
    requires BuiltSlide(layouts, template, info).Success?
    ensures var s := BuiltSlide(layouts, template, info).value;
      s.notes.NoNotesSlide? && s.layoutPosition.Some? && s.layoutPosition.value < |layouts|
      && s.layoutName == layouts[s.layoutPosition.value].name
      && SameLayout(layouts[s.layoutPosition.value].placeholders + Copies(template.shapes), s.shapes)
  {
    var li := ResolvedLayout(layouts, template.layoutName, template.layoutPosition).value;
    var shapes := layouts[li].placeholders + Copies(template.shapes);
    var withText := PlaceholdersCopied(template.shapes, shapes, |template.shapes|);
    PlaceholdersCopiedTouchOnlyPlaceholderText(template.shapes, shapes, |template.shapes|);
    assert SameLayout(shapes, withText);
    PopulateKeepsLayout(withText, info.fields, PlaceholdersInfo(info.metadata), |info.fields|);
    SameLayoutTransitive(shapes, withText, Populated(withText, info.fields, info.metadata).value);
  }

  /** Every planned entry names a template slide. */
  ghost predicate InRange(plan: seq<BuildInfo>, template: Deck)
  {
    forall k :: 0 <= k < |plan| ==> plan[k].templateIndex < |template.slides|
  }

  /** The body of the building loop, for one planned entry. */
  function Builder(template: Deck): BuildInfo --> Result<Slide, Error>
  {
    (info: BuildInfo) requires info.templateIndex < |template.slides| =>
      BuiltSlide(template.layouts, template.slides[info.templateIndex], info)
  }

  /**
   * The deck `generate_from_slides` saves: the template's layouts and one
   * built slide per planned entry. Requires a successful preparation.
   */
  function ComposedDeck(template: Deck, metadata: seq<Option<Json>>, reqs: seq<SlideRequest>): Result<Deck, Error>
    requires |metadata| == |template.slides| && Prepared(metadata, reqs).Success?
  {
    var plan := Prepared(metadata, reqs).value;
    PreparedPlanSpec(metadata, reqs);
    match ApplyAll(plan, Builder(template), |plan|)
    case Failure(e) => Failure(e)
    case Success(slides) => Success(Deck(slides, template.layouts))
  }

  /**
   * A composed deck keeps the template's layouts and has one slide per
   * request, in request order; slide k has no notes, sits on an output
   * layout, and is made from a template slide that declares request k's
   * type: that layout's placeholders followed by the copies of the
   * template slide's shapes, changed only in their text.
   */
  lemma ComposedDeckSpec(template: Deck, metadata: seq<Option<Json>>, reqs: seq<SlideRequest>)
    requires |metadata| == |template.slides| && Prepared(metadata, reqs).Success?
    requires ComposedDeck(template, metadata, reqs).Success?
    ensures var d := ComposedDeck(template, metadata, reqs).value;
      d.layouts == template.layouts && |d.slides| == |reqs|
      && forall k :: 0 <= k < |reqs| ==>
        d.slides[k].notes.NoNotesSlide? && d.slides[k].layoutPosition.Some? && d.slides[k].layoutPosition.value < |d.layouts|
        && exists i :: (0 <= i < |template.slides|
          && Declarations(metadata)[i].Some? && Declarations(metadata)[i].value.slideType == reqs[k].slideType
          && SameLayout(d.layouts[d.slides[k].layoutPosition.value].placeholders + Copies(template.slides[i].shapes), d.slides[k].shapes))
  {
    var plan := Prepared(metadata, reqs).value;
    PreparedPlanSpec(metadata, reqs);
    ApplyAllResults(plan, Builder(template), |plan|);
    var d := ComposedDeck(template, metadata, reqs).value;
    forall k | 0 <= k < |reqs|
      ensures d.slides[k].notes.NoNotesSlide? && d.slides[k].layoutPosition.Some? && d.slides[k].layoutPosition.value < |d.layouts|
      ensures exists i :: (0 <= i < |template.slides|
          && Declarations(metadata)[i].Some? && Declarations(metadata)[i].value.slideType == reqs[k].slideType
          && SameLayout(d.layouts[d.slides[k].layoutPosition.value].placeholders + Copies(template.slides[i].shapes), d.slides[k].shapes))
    {
      var i := plan[k].templateIndex;
      BuiltSlideSpec(template.layouts, template.slides[i], plan[k]);
    }
  }

  /** Building one planned slide onto the opened output presentation. */
  method BuildSlide(prs: Presentation, template: Slide, info: BuildInfo) returns (r: Outcome<Error>)
    modifies prs
    ensures prs.layouts == old(prs.layouts)
    ensures BuiltSlide(old(prs.layouts), template, info).Success? ==>
      r == Pass && prs.slides == old(prs.slides) + [BuiltSlide(old(prs.layouts), template, info).value]
    ensures BuiltSlide(old(prs.layouts), template, info).Failure? ==>
      r == Fail(BuiltSlide(old(prs.layouts), template, info).error) && prs.slides == old(prs.slides)
  {
    var layout := ResolveLayout(prs.layouts, template.layoutName, template.layoutPosition);
    if layout.Failure? {
      return Fail(layout.error);
    }
    var li := layout.value;
    var slide := new LiveSlide(prs.layouts[li].placeholders);
    CopySlideShapes(template.shapes, slide);
    CopyPlaceholderContent(template.shapes, slide);
    var outcome := PopulateSlide(slide, info.fields, info.metadata);
    if outcome.Fail? {
      return outcome;
    }
    prs.slides := prs.slides + [Slide(NoNotesSlide, prs.layouts[li].name, Some(li), slide.shapes)];
    return Pass;
  }

  /**
   * `generate_from_slides`. A catalog or planning error, or notes that
   * cannot be read (raised once the slides before them are catalogued),
   * leave the output path as it was; an error while building leaves the unsaved copy of the
   * template there; otherwise the composed deck is saved.
   */
  method GenerateFromSlides(template: Deck, decode: string -> Option<Json>, reqs: seq<SlideRequest>, out: OutputFile)
    returns (r: Outcome<Error>)
    modifies out
    ensures var metadata := ReadableMetadata(template.slides, decode);
      if |metadata| < |template.slides| && CatalogOf(Declarations(metadata)).Success? then
        r == Fail(NoSuchMethod) && out.deck == old(out.deck)
      else match Prepared(metadata, reqs)
      case Failure(e) => r == Fail(e) && out.deck == old(out.deck)
      case Success(_) =>
        match ComposedDeck(template, metadata, reqs)
        case Failure(e) => r == Fail(e) && out.deck == Some(template)
        case Success(d) => r == Pass && out.deck == Some(d)
  {
    var metadata := ReadMetadata(template.slides, decode);
    var catalog := BuildCatalog(metadata);
    if catalog.Failure? {
      return Fail(catalog.error);
    }
    if |metadata| < |template.slides| {
      ParseSlideMetadataSpec(template.slides[|metadata|].notes, decode);
      return Fail(NoSuchMethod);
    }
    var plan := Plan(catalog.value, reqs);
    if plan.Failure? {
      return Fail(plan.error);
    }
    PreparedPlanSpec(metadata, reqs);
    out.deck := Some(template);
    var prs := new Presentation(template);
    DeleteAllSlides(prs);
    r := BuildAll(prs, template, plan.value);
    if r.Pass? {
      out.deck := Some(Deck(prs.slides, prs.layouts));
    }
  }

  /** The building loop of `generate_from_slides`, on the emptied copy of the template. */
  method BuildAll(prs: Presentation, template: Deck, plan: seq<BuildInfo>) returns (r: Outcome<Error>)
    requires prs.slides == [] && prs.layouts == template.layouts && InRange(plan, template)
    modifies prs
    ensures prs.layouts == template.layouts
    ensures match ApplyAll(plan, Builder(template), |plan|)
      case Failure(e) => r == Fail(e)
      case Success(slides) => r == Pass && prs.slides == slides
  {
    for k := 0 to |plan|
      invariant prs.layouts == template.layouts
      invariant ApplyAll(plan, Builder(template), k) == Success(prs.slides)
    {
      var info := plan[k];
      ghost var before := prs.slides;
      ApplyAllStep(plan, Builder(template), k, before);
      assert Builder(template)(info) == BuiltSlide(template.layouts, template.slides[info.templateIndex], info);
      var outcome := BuildSlide(prs, template.slides[info.templateIndex], info);
      if outcome.Fail? {
        ApplyAllFailureSticks(plan, Builder(template), k + 1);
        return outcome;
      }
    }
    return Pass;
  }

  // ----- the template's field names -----

  /** The texts `get_template_fields` searches in one shape: its non-empty text, then its cells row by row. */
  function ShapeTexts(s: Shape): seq<string>
  {
    (if s.frame.Some? && FrameText(s.frame.value) != [] then [FrameText(s.frame.value)] else [])
    + (if s.table.Some? then CellTexts(s.table.value.rows) else [])
  }

  function ShapesTexts(shapes: seq<Shape>): seq<string>
  {
    if shapes == [] then [] else ShapesTexts(shapes[..|shapes| - 1]) + ShapeTexts(shapes[|shapes| - 1])
  }

  /** Every text of every shape of every slide, in order. */
  function SlidesTexts(slides: seq<Slide>): seq<string>
  {
    if slides == [] then [] else SlidesTexts(slides[..|slides| - 1]) + ShapesTexts(slides[|slides| - 1].shapes)
  }

  /** The names found on one slide, shape by shape; ValueError at a graphic frame without a table. */
  method ShapesNames(shapes: seq<Shape>) returns (r: Result<set<string>, Error>)
    ensures HasNoTableFrame(shapes) ==> r == Failure(NoTable)
    ensures !HasNoTableFrame(shapes) ==> r == Success(NamesIn(ShapesTexts(shapes)))
  {
    var names := {};
    for j := 0 to |shapes|
      invariant names == NamesIn(ShapesTexts(shapes[..j]))
      invariant forall i :: 0 <= i < j ==> !NoTableFrame(shapes[i])
    {
      var more := TextNames(ShapeTexts(shapes[j]));
      if shapes[j].graphicFrame && shapes[j].table.None? {
        return Failure(NoTable);
      }
      ShapeNamesStep(shapes, j);
      names := names + more;
    }
    assert shapes[..|shapes|] == shapes;
    return Success(names);
  }

  /** The names found in the first j + 1 shapes: those in the first j, and those of shape j. */
  lemma ShapeNamesStep(shapes: seq<Shape>, j: nat)
    requires j < |shapes|
    ensures NamesIn(ShapesTexts(shapes[..j + 1])) == NamesIn(ShapesTexts(shapes[..j])) + NamesIn(ShapeTexts(shapes[j]))
  {
    assert shapes[..j + 1][..j] == shapes[..j] && shapes[..j + 1][j] == shapes[j];
    NamesInAppend(ShapesTexts(shapes[..j]), ShapeTexts(shapes[j]));
  }

  /** The names found on the first i + 1 slides: those on the first i, and those on slide i. */
  lemma SlideNamesStep(slides: seq<Slide>, i: nat)
    requires i < |slides|
    ensures NamesIn(SlidesTexts(slides[..i + 1])) == NamesIn(SlidesTexts(slides[..i])) + NamesIn(ShapesTexts(slides[i].shapes))
  {
    assert slides[..i + 1][..i] == slides[..i] && slides[..i + 1][i] == slides[i];
    NamesInAppend(SlidesTexts(slides[..i]), ShapesTexts(slides[i].shapes));
  }

  /** The accumulation loop over slides and shapes: the names found so far, as a set. */
  method CollectNames(slides: seq<Slide>) returns (r: Result<set<string>, Error>)
    ensures SomeSlideHasNoTableFrame(slides) ==> r == Failure(NoTable)
    ensures !SomeSlideHasNoTableFrame(slides) ==> r == Success(NamesIn(SlidesTexts(slides)))
  {
    var names := {};
    for i := 0 to |slides|
      invariant names == NamesIn(SlidesTexts(slides[..i]))
      invariant forall j :: 0 <= j < i ==> !HasNoTableFrame(slides[j].shapes)
    {
      var more := ShapesNames(slides[i].shapes);
      if more.Failure? {
        assert HasNoTableFrame(slides[i].shapes);
        return more;
      }
      SlideNamesStep(slides, i);
      names := names + more.value;
    }
    assert slides[..|slides|] == slides;
    return Success(names);
  }

  /**
   * `get_template_fields`: ValueError when some slide holds a graphic frame
   * without a table; otherwise the names found in every text frame and table
   * cell, sorted, each once; every name is well formed and its token occurs
   * in some text of the template.
   */
  method TemplateFields(slides: seq<Slide>) returns (r: Result<seq<string>, Error>)
    ensures SomeSlideHasNoTableFrame(slides) <==> r.Failure?
    ensures r.Failure? ==> r.error == NoTable
    ensures r.Success? ==> StrictlySorted(r.value)
    ensures r.Success? ==> forall n :: n in r.value <==> n in NamesIn(SlidesTexts(slides))
    ensures r.Success? ==> forall n :: n in r.value ==> WellFormedName(n)
    ensures r.Success? ==> forall n :: n in r.value ==> exists i :: 0 <= i < |SlidesTexts(slides)| && Contains(SlidesTexts(slides)[i], Token(n))
  {
    var names := CollectNames(slides);
    if names.Failure? {
      return Failure(names.error);
    }
    var fields := SortedFields(SlidesTexts(slides), names.value);
    return Success(fields);
  }

  // ----- the legacy whole-deck generate -----

  /** Every field of the mapping replaced in turn, on one slide's shapes. */
  function FieldsApplied(shapes: seq<Shape>, fields: Fields, n: nat): seq<Shape>
    requires n <= |fields|
  {
    if n == 0 then shapes
    else
      var name := fields[n - 1].name;
      ReplacedShapes(FieldsApplied(shapes, fields, n - 1), Token(name), Str(fields[n - 1].value))
  }

  /** `generate` as written: every `{{` of the slide turned into `}}`, then every field replaced. */
  function LegacySlideAsWritten(shapes: seq<Shape>, fields: Fields): seq<Shape>
  {
    FieldsApplied(ReplacedShapes(shapes, "{{", "}}"), fields, |fields|)
  }

  /** After `{{` has been replaced by `}}` everywhere, no `{{` is left. */
  lemma {:induction false} PrePassLeavesNoOpenPair(s: string)
    ensures !Contains(Replace(s, "{{", "}}"), "{{")
    decreases |s|
  {
    var r := Replace(s, "{{", "}}");
    if s == [] {
      assert r == [];
    } else if "{{" <= s {
      var rest := Replace(s[2..], "{{", "}}");
      PrePassLeavesNoOpenPair(s[2..]);
      assert r == "}}" + rest;
      assert r[1..] == "}" + rest && r[1..][1..] == rest;
      assert r[0] == '}' && r[1..][0] == '}';
      assert !("{{" <= r) && !("{{" <= r[1..]);
      assert !Contains(r[1..], "{{");
    } else {
      var rest := Replace(s[1..], "{{", "}}");
      PrePassLeavesNoOpenPair(s[1..]);
      assert r == [s[0]] + rest && r[1..] == rest;
      if s[0] == '{' && rest != [] {
        var t := s[1..];
        assert t[0] != '{';
        assert !("{{" <= t);
        assert rest == [t[0]] + Replace(t[1..], "{{", "}}");
      }
    }
  }

  /** Text without `{{` holds no field token, so no field changes it. */
  lemma NoOpenPairNoToken(s: string, name: string)
    requires !Contains(s, "{{")
    ensures !Contains(s, Token(name))
  {
    if Contains(s, Token(name)) {
      TokenNeedsOpenPair(s, name);
    }
  }

  /** No frame or cell of the slide holds `{{`. */
  ghost predicate NoOpenPair(shapes: seq<Shape>)
  {
    (forall k :: 0 <= k < |shapes| && shapes[k].frame.Some? ==> !Contains(FrameText(shapes[k].frame.value), "{{"))
    && (forall k, i, c ::
          (0 <= k < |shapes| && shapes[k].table.Some? && 0 <= i < |shapes[k].table.value.rows| && 0 <= c < |shapes[k].table.value.rows[i]|)
          ==> !Contains(FrameText(shapes[k].table.value.rows[i][c]), "{{"))
  }

  lemma PrePassSlideHasNoOpenPair(shapes: seq<Shape>)
    ensures NoOpenPair(ReplacedShapes(shapes, "{{", "}}"))
  {
    var r := ReplacedShapes(shapes, "{{", "}}");
    forall k | 0 <= k < |shapes|
      ensures r[k].frame.Some? ==> !Contains(FrameText(r[k].frame.value), "{{")
      ensures r[k].table.Some? ==> forall i, c :: 0 <= i < |r[k].table.value.rows| && 0 <= c < |r[k].table.value.rows[i]| ==>
        !Contains(FrameText(r[k].table.value.rows[i][c]), "{{")
    {
      ReplacedShapesSpec(shapes, "{{", "}}", k);
      if shapes[k].frame.Some? {
        PrePassLeavesNoOpenPair(FrameText(shapes[k].frame.value));
      }
      if shapes[k].table.Some? {
        var t := shapes[k].table.value;
        forall i, c | 0 <= i < |t.rows| && 0 <= c < |t.rows[i]|
          ensures !Contains(FrameText(r[k].table.value.rows[i][c]), "{{")
        {
          PrePassLeavesNoOpenPair(FrameText(t.rows[i][c]));
        }
      }
    }
  }

  /** On a slide without `{{`, replacing any field's token changes nothing. */
  lemma FieldsIgnoredWithoutOpenPair(shapes: seq<Shape>, fields: Fields, n: nat)
    requires n <= |fields| && NoOpenPair(shapes)
    ensures FieldsApplied(shapes, fields, n) == shapes
  {
    if n > 0 {
      FieldsIgnoredWithoutOpenPair(shapes, fields, n - 1);
      var name := fields[n - 1].name;
      forall k | 0 <= k < |shapes| && shapes[k].frame.Some?
        ensures !Contains(FrameText(shapes[k].frame.value), Token(name))
      {
        NoOpenPairNoToken(FrameText(shapes[k].frame.value), name);
      }
      forall k | 0 <= k < |shapes| && shapes[k].table.Some?
        ensures !TableContains(shapes[k].table.value, Token(name))
      {
        var t := shapes[k].table.value;
        forall i, c | 0 <= i < |t.rows| && 0 <= c < |t.rows[i]|
          ensures !Contains(FrameText(t.rows[i][c]), Token(name))
        {
          NoOpenPairNoToken(FrameText(t.rows[i][c]), name);
        }
      }
      ReplaceAbsentTokenChangesNothing(shapes, Token(name), Str(fields[n - 1].value));
    }
  }

  /** As written, `generate` inserts no field value at all: the result depends only on the `{{` pre-pass. */
  lemma LegacyAsWrittenIgnoresFields(shapes: seq<Shape>, fields: Fields)
    ensures LegacySlideAsWritten(shapes, fields) == ReplacedShapes(shapes, "{{", "}}")
  {
    PrePassSlideHasNoOpenPair(shapes);
    FieldsIgnoredWithoutOpenPair(ReplacedShapes(shapes, "{{", "}}"), fields, |fields|);
  }

  /** A frame reading `{{name}}` ends as `}}name}}`, whatever value is given for `name`. */
  lemma PrePassBreaksToken(name: string)
    requires BraceFree(name)
    ensures Replace(Token(name), "{{", "}}") == "}}" + name + "}}"
    ensures !Contains("}}" + name + "}}", Token(name))
  {
    var tail := name + "}}";
    assert Token(name) == "{{" + tail;
    ReplaceAtFront(tail, "{{", "}}");
    assert '{' !in tail;
    assert tail + [] == tail;
    ReplaceSkipsPrefix(tail, [], "{{", "}}");
    assert Replace(Token(name), "{{", "}}") == "}}" + tail;
    PrePassLeavesNoOpenPair(Token(name));
    NoOpenPairNoToken("}}" + tail, name);
    assert "}}" + name + "}}" == "}}" + tail;
  }

  /** The evident intent of `generate`: only the fields' own tokens are replaced, field by field. */
  function LegacySlide(shapes: seq<Shape>, fields: Fields): seq<Shape>
  {
    FieldsApplied(shapes, fields, |fields|)
  }

  /** The text of one frame after the first n fields. */
  function FrameFieldsApplied(tf: TextFrame, fields: Fields, n: nat): TextFrame
    requires n <= |fields|
  {
    if n == 0 then tf else ReplacedFrame(FrameFieldsApplied(tf, fields, n - 1), Token(fields[n - 1].name), Str(fields[n - 1].value))
  }

  /** Fields are applied frame by frame: a shape's frame after generate is its frame with every field applied. */
  lemma {:induction false} LegacySlideFrames(shapes: seq<Shape>, fields: Fields, n: nat, k: nat)
    requires n <= |fields| && k < |shapes| && shapes[k].frame.Some?
    ensures |FieldsApplied(shapes, fields, n)| == |shapes|
    ensures FieldsApplied(shapes, fields, n)[k].frame == Some(FrameFieldsApplied(shapes[k].frame.value, fields, n))
  {
    if n > 0 {
      LegacySlideFrames(shapes, fields, n - 1, k);
    }
  }

  /**
   * With brace-free, distinct field names, a frame reading exactly
   * `{{name}}` of field k reads as `str(value)` afterwards, provided that
   * value does not itself hold a later field's token.
   */
  lemma {:induction false} LoneTokenFilled(tf: TextFrame, fields: Fields, k: nat, n: nat)
    requires k < n <= |fields| && DistinctPlainNames(fields)
    requires FrameText(tf) == Token(fields[k].name)
    requires forall j :: k < j < |fields| ==> !Contains(Str(fields[k].value), Token(fields[j].name))
    ensures FrameText(FrameFieldsApplied(tf, fields, n)) == Str(fields[k].value)
    decreases n
  {
    if n == k + 1 {
      OwnFieldFillsLoneToken(tf, fields, k);
    } else {
      var cur := FrameFieldsApplied(tf, fields, n - 1);
      LoneTokenFilled(tf, fields, k, n - 1);
      LaterFieldLeavesValue(cur, fields[k].value, fields[n - 1]);
      assert FrameFieldsApplied(tf, fields, n) == ReplacedFrame(cur, Token(fields[n - 1].name), Str(fields[n - 1].value));
    }
  }

  /** A frame reading as a value that holds no token of a later field is left alone by that field. */
  lemma LaterFieldLeavesValue(tf: TextFrame, value: Value, later: Field)
    requires FrameText(tf) == Str(value)
    requires !Contains(Str(value), Token(later.name))
    ensures ReplacedFrame(tf, Token(later.name), Str(later.value)) == tf
  {
  }

  /** A frame reading as field k's token alone reads as field k's value once fields up to k are applied. */
  lemma OwnFieldFillsLoneToken(tf: TextFrame, fields: Fields, k: nat)
    requires k < |fields| && DistinctPlainNames(fields)
    requires FrameText(tf) == Token(fields[k].name)
    ensures FrameText(FrameFieldsApplied(tf, fields, k + 1)) == Str(fields[k].value)
  {
    UntouchedBeforeOwnField(tf, fields, k, k);
    assert FrameFieldsApplied(tf, fields, k) == tf;
    assert FrameFieldsApplied(tf, fields, k + 1) == ReplacedFrame(tf, Token(fields[k].name), Str(fields[k].value));
    TokenAloneBecomesValue(tf, fields[k].name, Str(fields[k].value));
  }

  /** Fields before field k leave a frame reading as field k's token alone. */
  lemma {:induction false} UntouchedBeforeOwnField(tf: TextFrame, fields: Fields, k: nat, n: nat)
    requires n <= k < |fields| && DistinctPlainNames(fields)
    requires FrameText(tf) == Token(fields[k].name)
    ensures FrameFieldsApplied(tf, fields, n) == tf
  {
    if n > 0 {
      UntouchedBeforeOwnField(tf, fields, k, n - 1);
      OtherFieldTokenUntouched(tf, fields[n - 1].name, fields[k].name, Str(fields[n - 1].value));
    }
  }

  /**
   * `generate`, as evidently intended: every slide has every field
   * replaced, and the deck is saved. The first field's replacement raises
   * ValueError on a slide holding a graphic frame without a table, and then
   * nothing is saved.
   */
  method Generate(template: Deck, fields: Fields, out: OutputFile) returns (r: Outcome<Error>)
    modifies out
    ensures fields != [] && SomeSlideHasNoTableFrame(template.slides) ==> r == Fail(NoTable) && out.deck == old(out.deck)
    ensures !(fields != [] && SomeSlideHasNoTableFrame(template.slides)) ==>
      r == Pass && out.deck.Some? && out.deck.value.layouts == template.layouts
      && |out.deck.value.slides| == |template.slides|
      && forall i :: 0 <= i < |template.slides| ==>
        out.deck.value.slides[i] == template.slides[i].(shapes := LegacySlide(template.slides[i].shapes, fields))
  {
    var prs := new Presentation(template);
    for i := 0 to |prs.slides|
      invariant prs.layouts == template.layouts && |prs.slides| == |template.slides| && out.deck == old(out.deck)
      invariant fields != [] ==> forall j :: 0 <= j < i ==> !HasNoTableFrame(template.slides[j].shapes)
      invariant forall j :: 0 <= j < i ==> prs.slides[j] == template.slides[j].(shapes := LegacySlide(template.slides[j].shapes, fields))
      invariant forall j :: i <= j < |prs.slides| ==> prs.slides[j] == template.slides[j]
    {
      var slide := new LiveSlide(prs.slides[i].shapes);
      var outcome := ApplyFields(slide, fields);
      if outcome.Fail? {
        return outcome;
      }
      prs.slides := prs.slides[i := prs.slides[i].(shapes := slide.shapes)];
    }
    out.deck := Some(Deck(prs.slides, prs.layouts));
    return Pass;
  }

  /** Replacing tokens changes no graphic frame and no table's presence. */
  lemma {:induction false} FieldsAppliedKeepNoTableFrames(shapes: seq<Shape>, fields: Fields, n: nat)
    requires n <= |fields|
    ensures HasNoTableFrame(FieldsApplied(shapes, fields, n)) <==> HasNoTableFrame(shapes)
  {
    if n > 0 {
      FieldsAppliedKeepNoTableFrames(shapes, fields, n - 1);
      var cur := FieldsApplied(shapes, fields, n - 1);
      var next := FieldsApplied(shapes, fields, n);
      forall k | 0 <= k < |cur|
        ensures NoTableFrame(cur[k]) <==> NoTableFrame(next[k])
      {
        assert next[k] == ReplacedShape(cur[k], Token(fields[n - 1].name), Str(fields[n - 1].value));
      }
    }
  }

  /**
   * The inner loop of `generate`: each field's token replaced on one slide,
   * in mapping order; the first replacement raises when a graphic frame
   * without a table is on the slide.
   */
  method ApplyFields(slide: LiveSlide, fields: Fields) returns (r: Outcome<Error>)
    modifies slide
    ensures fields != [] && HasNoTableFrame(old(slide.shapes)) ==> r == Fail(NoTable)
    ensures !(fields != [] && HasNoTableFrame(old(slide.shapes))) ==>
      r == Pass && slide.shapes == FieldsApplied(old(slide.shapes), fields, |fields|)
  {
    for n := 0 to |fields|
      invariant slide.shapes == FieldsApplied(old(slide.shapes), fields, n)
      invariant n > 0 ==> !HasNoTableFrame(old(slide.shapes))
    {
      FieldsAppliedKeepNoTableFrames(old(slide.shapes), fields, n);
      var outcome := ReplaceTextInSlide(slide, Token(fields[n].name), Str(fields[n].value));
      if outcome.Fail? {
        return outcome;
      }
    }
    return Pass;
  }
}
