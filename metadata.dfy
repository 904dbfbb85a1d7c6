/**
 * Slide metadata: the JSON object a template author writes into a slide's
 * speaker notes, how the composition engine reads it (strip, typographic
 * quotes made straight, JSON decode, decode failure read as "no metadata"),
 * and the test that decides whether a slide declares a slide type.
 */
module Metadata {
  import opened Wrappers
  import opened Strings
  import opened Shapes

  /** A decoded JSON value (numbers other than integers are not modelled). */
  datatype Json = JNull | JBool(b: bool) | JInt(i: int) | JStr(s: string) | JArr(items: seq<Json>) | JObj(members: map<string, Json>)

  /** The exceptions the generators can raise. */
  datatype Error =
    | NotIterable                               // TypeError: `in` or `for` over an int or a bool
    | NotSubscriptable                          // TypeError: `value["key"]` on a list or a string
    | Unhashable                                // TypeError: a list or an object used as a dict key
    | NoSuchMethod                              // AttributeError: `.get`/`.keys` on a non-object, `.text` on no frame
    | UnknownSlideType(slideType: Json, available: seq<Json>)   // ValueError naming the type and the catalog's types
    | NoLayout(layoutName: string)              // ValueError: the output deck has no slide layout at all
    | NoTable                                   // ValueError: `shape.table` on a graphic frame holding no table

  /** Python's truth value of a decoded value. */
  predicate JTruthy(j: Json)
  {
    match j
    case JNull => false
    case JBool(b) => b
    case JInt(i) => i != 0
    case JStr(s) => s != []
    case JArr(xs) => xs != []
    case JObj(m) => m != map[]
  }

  /** Python's `hash(j)` succeeds: only lists and objects are unhashable. */
  predicate Hashable(j: Json)
  {
    !j.JArr? && !j.JObj?
  }

  /** `d.get(key, default)` on a decoded object. */
  function GetOr(m: map<string, Json>, key: string, default: Json): (r: Json)
    ensures key in m ==> r == m[key]
    ensures key !in m ==> r == default
  {
    if key in m then m[key] else default
  }

  // ----- typographic quotes -----

  const LeftDouble: char := '\U{201C}'
  const RightDouble: char := '\U{201D}'
  const LeftSingle: char := '\U{2018}'
  const RightSingle: char := '\U{2019}'

  /** The four `str.replace` calls that straighten typographic quotes. */
  function NormalizeQuotes(s: string): string
  {
    var a := Replace(s, [LeftDouble], "\"");
    var b := Replace(a, [RightDouble], "\"");
    var c := Replace(b, [LeftSingle], "'");
    Replace(c, [RightSingle], "'")
  }

  function StraightQuote(c: char): (d: char)
    ensures d != LeftDouble && d != RightDouble && d != LeftSingle && d != RightSingle
    ensures IsSpace(d) <==> IsSpace(c)
  {
    if c == LeftDouble || c == RightDouble then '"'
    else if c == LeftSingle || c == RightSingle then '\''
    else c
  }

  /** Reference definition: each character mapped on its own. */
  function MapQuotes(s: string): (r: string)
    ensures |r| == |s| && forall k :: 0 <= k < |s| ==> r[k] == StraightQuote(s[k])
  {
    seq(|s|, k requires 0 <= k < |s| => StraightQuote(s[k]))
  }

  /**
   * Quote normalisation is a character-for-character map: the text keeps its
   * length, the four typographic quotes become straight ones, every other
   * character stays, and none of the four remains.
   */
  lemma NormalizeQuotesIsMap(s: string)
    ensures NormalizeQuotes(s) == MapQuotes(s)
    ensures |NormalizeQuotes(s)| == |s|
    ensures forall k :: 0 <= k < |s| ==> NormalizeQuotes(s)[k] == StraightQuote(s[k])
    ensures LeftDouble !in NormalizeQuotes(s) && RightDouble !in NormalizeQuotes(s)
    ensures LeftSingle !in NormalizeQuotes(s) && RightSingle !in NormalizeQuotes(s)
  {
    var a := Replace(s, [LeftDouble], "\"");
    ReplaceOneChar(s, LeftDouble, '"');
    var b := Replace(a, [RightDouble], "\"");
    ReplaceOneChar(a, RightDouble, '"');
    var c := Replace(b, [LeftSingle], "'");
    ReplaceOneChar(b, LeftSingle, '\'');
    var d := Replace(c, [RightSingle], "'");
    ReplaceOneChar(c, RightSingle, '\'');
    assert d == MapQuotes(s);
  }

  lemma {:induction false} StripLeftMapQuotes(s: string)
    ensures StripLeft(MapQuotes(s)) == MapQuotes(StripLeft(s))
    decreases |s|
  {
    if s != [] && IsSpace(s[0]) {
      assert MapQuotes(s)[1..] == MapQuotes(s[1..]);
      StripLeftMapQuotes(s[1..]);
    }
  }

  lemma {:induction false} StripRightMapQuotes(s: string)
    ensures StripRight(MapQuotes(s)) == MapQuotes(StripRight(s))
    decreases |s|
  {
    if s != [] && IsSpace(s[|s| - 1]) {
      assert MapQuotes(s)[..|s| - 1] == MapQuotes(s[..|s| - 1]);
      StripRightMapQuotes(s[..|s| - 1]);
    }
  }

  /** Straightening quotes and stripping white space commute, since no quote is white space. */
  lemma StripMapQuotes(s: string)
    ensures Strip(MapQuotes(s)) == MapQuotes(Strip(s))
  {
    StripLeftMapQuotes(s);
    StripRightMapQuotes(StripLeft(s));
  }

  // ----- reading the notes -----

  /**
   * The text handed to the JSON decoder: None when the slide has no notes
   * slide, no notes text frame or blank notes, otherwise the stripped notes
   * with their quotes straightened.
   */
  function DecoderInput(notes: Notes): Option<string>
  {
    match notes
    case NoNotesSlide => None
    case NoNotesBody => None
    case NotesText(text) =>
      var t := Strip(text);
      if t == [] then None else Some(NormalizeQuotes(t))
  }

  /**
   * `parse_slide_metadata`: the decoded notes, or None. `decode` stands for
   * `json.loads`, None for a JSONDecodeError, which is caught. A notes slide
   * without a notes text frame raises AttributeError at `.text`, which is not.
   */
  function ParseSlideMetadata(notes: Notes, decode: string -> Option<Json>): (r: Result<Option<Json>, Error>)
    ensures r.Failure? ==> r == Failure(NoSuchMethod)
  {
    if notes.NoNotesBody? then Failure(NoSuchMethod)
    else match DecoderInput(notes)
      case None => Success(None)
      case Some(t) => Success(decode(t))
  }

  /**
   * Reading raises exactly when the notes slide has no notes text frame, and
   * then raises AttributeError. No notes slide or blank notes give no
   * metadata and never reach the decoder; otherwise the decoder sees
   * non-empty text, free of surrounding white space and of typographic
   * quotes, and its answer (None for a decode error) is the result.
   */
  lemma ParseSlideMetadataSpec(notes: Notes, decode: string -> Option<Json>)
    ensures ParseSlideMetadata(notes, decode).Failure? <==> notes.NoNotesBody?
    ensures ParseSlideMetadata(notes, decode).Failure? ==> ParseSlideMetadata(notes, decode).error == NoSuchMethod
    ensures DecoderInput(notes).None? <==> !notes.NotesText? || forall k :: 0 <= k < |notes.text| ==> IsSpace(notes.text[k])
    ensures DecoderInput(notes).None? && !notes.NoNotesBody? ==> ParseSlideMetadata(notes, decode) == Success(None)
    ensures DecoderInput(notes).Some? ==>
      var t := DecoderInput(notes).value;
      t != [] && !IsSpace(t[0]) && !IsSpace(t[|t| - 1])
      && (forall c :: c in t ==> c != LeftDouble && c != RightDouble && c != LeftSingle && c != RightSingle)
      && ParseSlideMetadata(notes, decode) == Success(decode(t))
  {
    if notes.NotesText? {
      var t := Strip(notes.text);
      StripEmpty(notes.text);
      if t != [] {
        NormalizeQuotesIsMap(t);
      }
    }
  }

  /**
   * Notes that differ only in typographic versus straight quotes read as the
   * same metadata, whatever the decoder.
   */
  lemma QuoteVariantsParseAlike(n1: string, n2: string, decode: string -> Option<Json>)
    requires MapQuotes(n1) == MapQuotes(n2)
    ensures ParseSlideMetadata(NotesText(n1), decode) == ParseSlideMetadata(NotesText(n2), decode)
  {
    QuoteVariantsStripAlike(n1, n2);
    assert DecoderInput(NotesText(n1)) == DecoderInput(NotesText(n2));
  }

  /** Stripped and straightened, notes that differ only in their quotes are the same text. */
  lemma QuoteVariantsStripAlike(n1: string, n2: string)
    requires MapQuotes(n1) == MapQuotes(n2)
    ensures |Strip(n1)| == |Strip(n2)| && NormalizeQuotes(Strip(n1)) == NormalizeQuotes(Strip(n2))
  {
    StripMapQuotes(n1);
    StripMapQuotes(n2);
    var t1, t2 := Strip(n1), Strip(n2);
    NormalizeQuotesIsMap(t1);
    NormalizeQuotesIsMap(t2);
    assert MapQuotes(t1) == MapQuotes(t2);
  }

  // ----- does a slide declare a type? -----

  /**
   * The guard `metadata and "slide_type" in metadata` as written, applied to
   * whatever the decoder returned: `in` is a key test on an object, element
   * membership on a list and a substring test on a string, and raises
   * TypeError on a truthy int or bool.
   */
  function DeclaresTypeAsWritten(m: Json): (r: Result<bool, Error>)
    ensures !JTruthy(m) ==> r == Success(false)
    ensures r.Failure? <==> JTruthy(m) && (m.JInt? || m.JBool?)
  {
    if !JTruthy(m) then Success(false)
    else match m
      case JObj(mm) => Success("slide_type" in mm)
      case JArr(xs) => Success(JStr("slide_type") in xs)
      case JStr(s) => Success(Contains(s, "slide_type"))
      case _ => Failure(NotIterable)
  }

  /** `metadata["slide_type"]` as written: only an object can be indexed by a string. */
  function SlideTypeAsWritten(m: Json): (r: Result<Json, Error>)
    ensures r.Success? <==> m.JObj? && "slide_type" in m.members
  {
    match m
    case JObj(mm) => if "slide_type" in mm then Success(mm["slide_type"]) else Failure(NotSubscriptable)
    case _ => Failure(NotSubscriptable)
  }

  /**
   * How the catalog loop treats one slide's decoded notes as written:
   * Success(None) skips the slide, Success(Some(t)) files it under type t,
   * Failure is the exception that aborts the whole run.
   */
  function CatalogStepAsWritten(m: Json): Result<Option<Json>, Error>
  {
    match DeclaresTypeAsWritten(m)
    case Failure(e) => Failure(e)
    case Success(false) => Success(None)
    case Success(true) =>
      match SlideTypeAsWritten(m)
      case Failure(e) => Failure(e)
      case Success(t) => Success(Some(t))
  }

  /** Notes reading `1` reach the decoder unchanged and decode to whatever the decoder makes of them. */
  lemma PlainNotesReachDecoder(decode: string -> Option<Json>)
    ensures DecoderInput(NotesText("1")) == Some("1")
    ensures ParseSlideMetadata(NotesText("1"), decode) == Success(decode("1"))
  {
    assert !IsSpace('1');
    assert Strip("1") == "1";
    NormalizeQuotesIsMap("1");
    assert StraightQuote('1') == '1';
    assert MapQuotes("1") == "1";
  }

  /**
   * Metadata that decodes to `1` (or `true`, or a list or text mentioning
   * "slide_type") aborts cataloguing, although the function that reads the
   * notes promises a dict or nothing.
   */
  lemma NonObjectMetadataAbortsCatalog()
    ensures CatalogStepAsWritten(JInt(1)).Failure?
    ensures CatalogStepAsWritten(JBool(true)).Failure?
    ensures CatalogStepAsWritten(JArr([JStr("slide_type")])).Failure?
    ensures CatalogStepAsWritten(JStr("slide_type")).Failure?
  {
    assert JStr("slide_type") in [JStr("slide_type")];
    assert Contains("slide_type", "slide_type");
  }

  /** A slide's declaration: its metadata object and the type it declares. */
  datatype Declaration = Declaration(metadata: map<string, Json>, slideType: Json)

  /**
   * The evident intent: a slide declares a type only when its metadata is an
   * object holding a "slide_type" key; any other decoded value counts as no
   * metadata.
   */
  function DeclaredType(m: Option<Json>): (r: Option<Declaration>)
    ensures r.Some? <==> m.Some? && m.value.JObj? && "slide_type" in m.value.members
    ensures r.Some? ==> r.value.metadata == m.value.members && r.value.slideType == m.value.members["slide_type"]
  {
    if m.Some? && m.value.JObj? && "slide_type" in m.value.members then
      Some(Declaration(m.value.members, m.value.members["slide_type"]))
    else None
  }

  /** On every value the written guard handles without raising, the corrected guard agrees with it. */
  lemma DeclaredTypeAgreesWhereNoCrash(m: Json)
    requires CatalogStepAsWritten(m).Success?
    ensures CatalogStepAsWritten(m).value.Some? <==> DeclaredType(Some(m)).Some?
    ensures DeclaredType(Some(m)).Some? ==> CatalogStepAsWritten(m).value.value == DeclaredType(Some(m)).value.slideType
  {
  }
}
