/**
 * Cataloguing a template: every slide whose notes declare a slide type is
 * filed, in slide order, under that type (`slide_type_map` in
 * `generate_from_slides`), and the same slides are listed with their
 * description and placeholders by `get_template_slide_types`.
 */
module Catalog {
  import opened Wrappers
  import opened Metadata
  import opened Shapes
  import opened Steps

  /** A catalogued template slide: its position in the template and its metadata. */
  datatype Entry = Entry(index: nat, metadata: map<string, Json>)

  /**
   * The map from slide type to the template slides of that type. `order`
   * holds the keys in insertion order, as a Python dict keeps them.
   */
  datatype Catalog = Catalog(order: seq<Json>, buckets: map<Json, seq<Entry>>)

  /** `parse_slide_metadata` applied to a template slide. */
  function NotesReader(decode: string -> Option<Json>): Slide -> Result<Option<Json>, Error>
  {
    (s: Slide) => ParseSlideMetadata(s.notes, decode)
  }

  /**
   * What the notes of the template slides read as, up to the first slide
   * whose notes raise: the metadata of every slide before it, in slide order.
   */
  function ReadableMetadata(slides: seq<Slide>, decode: string -> Option<Json>): (r: seq<Option<Json>>)
    ensures |r| <= |slides|
    ensures forall i :: 0 <= i < |r| ==> ParseSlideMetadata(slides[i].notes, decode) == Success(r[i])
    ensures |r| < |slides| ==> ParseSlideMetadata(slides[|r|].notes, decode).Failure?
  {
    if slides == [] then []
    else match ParseSlideMetadata(slides[0].notes, decode)
      case Failure(_) => []
      case Success(m) => [m] + ReadableMetadata(slides[1..], decode)
  }

  /** The leading metadata is the only one read without an exception before the first slide that raises, or the end. */
  lemma ReadableMetadataUnique(slides: seq<Slide>, decode: string -> Option<Json>, read: seq<Option<Json>>)
    requires |read| <= |slides|
    requires forall i :: 0 <= i < |read| ==> ParseSlideMetadata(slides[i].notes, decode) == Success(read[i])
    requires |read| < |slides| ==> ParseSlideMetadata(slides[|read|].notes, decode).Failure?
    ensures read == ReadableMetadata(slides, decode)
  {
    var f := NotesReader(decode);
    LeadingUnique(slides, f, read);
    LeadingUnique(slides, f, ReadableMetadata(slides, decode));
  }

  /**
   * Reading the notes of every template slide, in slide order, until one
   * raises: the metadata read, which falls short of the slide count exactly
   * when some notes raise.
   */
  method ReadMetadata(slides: seq<Slide>, decode: string -> Option<Json>) returns (r: seq<Option<Json>>)
    ensures r == ReadableMetadata(slides, decode)
  {
    r := [];
    var idx := 0;
    while idx < |slides|
      invariant idx <= |slides| && |r| == idx
      invariant forall i :: 0 <= i < idx ==> ParseSlideMetadata(slides[i].notes, decode) == Success(r[i])
    {
      var m := ParseSlideMetadata(slides[idx].notes, decode);
      if m.Failure? {
        break;
      }
      r := r + [m.value];
      idx := idx + 1;
    }
    ReadableMetadataUnique(slides, decode, r);
  }

  /** The declaration each template slide makes, given what was read from its notes. */
  function Declarations(metadata: seq<Option<Json>>): (r: seq<Option<Declaration>>)
    ensures |r| == |metadata|
    ensures forall i :: 0 <= i < |metadata| ==> r[i] == DeclaredType(metadata[i])
  {
    seq(|metadata|, i requires 0 <= i < |metadata| => DeclaredType(metadata[i]))
  }

  /** Filing one entry under type t: appended to its bucket, or a new bucket at the end of the key order. */
  function AddEntry(c: Catalog, t: Json, e: Entry): (r: Catalog)
    ensures r.buckets.Keys == c.buckets.Keys + {t}
    ensures r.buckets[t] == (if t in c.buckets then c.buckets[t] else []) + [e]
    ensures forall u :: u in c.buckets && u != t ==> r.buckets[u] == c.buckets[u]
    ensures r.order == if t in c.buckets then c.order else c.order + [t]
  {
    if t in c.buckets then Catalog(c.order, c.buckets[t := c.buckets[t] + [e]])
    else Catalog(c.order + [t], c.buckets[t := [e]])
  }

  /**
   * The catalog of the first n template slides: a slide declaring an
   * unhashable type (a list or an object) raises TypeError.
   */
  function CatalogUpTo(decls: seq<Option<Declaration>>, n: nat): Result<Catalog, Error>
    requires n <= |decls|
  {
    if n == 0 then Success(Catalog([], map[]))
    else match CatalogUpTo(decls, n - 1)
      case Failure(e) => Failure(e)
      case Success(c) =>
        match decls[n - 1]
        case None => Success(c)
        case Some(d) =>
          if !Hashable(d.slideType) then Failure(Unhashable)
          else Success(AddEntry(c, d.slideType, Entry(n - 1, d.metadata)))
  }

  function CatalogOf(decls: seq<Option<Declaration>>): Result<Catalog, Error>
  {
    CatalogUpTo(decls, |decls|)
  }

  /** Every entry is a slide among the first n that declares the bucket's type, with its metadata. */
  ghost predicate Sound(c: Catalog, decls: seq<Option<Declaration>>, n: nat)
    requires n <= |decls|
  {
    forall t, j :: t in c.buckets && 0 <= j < |c.buckets[t]| ==>
      c.buckets[t][j].index < n &&
      decls[c.buckets[t][j].index] == Some(Declaration(c.buckets[t][j].metadata, t))
  }

  /** Every slide among the first n that declares a type is filed under it. */
  ghost predicate Complete(c: Catalog, decls: seq<Option<Declaration>>, n: nat)
    requires n <= |decls|
  {
    forall i :: 0 <= i < n && decls[i].Some? ==>
      var t := decls[i].value.slideType;
      t in c.buckets && exists j :: 0 <= j < |c.buckets[t]| && c.buckets[t][j].index == i
  }

  /** Within a bucket, entries follow the template's slide order. */
  ghost predicate Ordered(c: Catalog)
  {
    forall t, j, k :: t in c.buckets && 0 <= j < k < |c.buckets[t]| ==> c.buckets[t][j].index < c.buckets[t][k].index
  }

  /** The key order lists each type once, exactly the types that have buckets, and no bucket is empty. */
  ghost predicate KeysInOrder(c: Catalog)
  {
    (forall t :: t in c.buckets <==> t in c.order)
    && (forall j, k :: 0 <= j < k < |c.order| ==> c.order[j] != c.order[k])
    && (forall t :: t in c.buckets ==> c.buckets[t] != [])
  }

  ghost predicate Valid(c: Catalog, decls: seq<Option<Declaration>>, n: nat)
    requires n <= |decls|
  {
    Sound(c, decls, n) && Complete(c, decls, n) && Ordered(c) && KeysInOrder(c)
  }

  /** Some slide among the first n declares a type that cannot be a dict key. */
  ghost predicate DeclaresUnhashable(decls: seq<Option<Declaration>>, n: nat)
    requires n <= |decls|
  {
    exists i :: 0 <= i < n && decls[i].Some? && !Hashable(decls[i].value.slideType)
  }

  lemma {:induction false} UnhashableStep(decls: seq<Option<Declaration>>, n: nat)
    requires 0 < n <= |decls|
    ensures DeclaresUnhashable(decls, n) <==>
      DeclaresUnhashable(decls, n - 1) || (decls[n - 1].Some? && !Hashable(decls[n - 1].value.slideType))
  {
    if DeclaresUnhashable(decls, n) {
      var k :| 0 <= k < n && decls[k].Some? && !Hashable(decls[k].value.slideType);
      if k < n - 1 {
        assert DeclaresUnhashable(decls, n - 1);
      }
    }
  }

  /** Cataloguing raises exactly when some slide declares an unhashable type, and then raises TypeError. */
  lemma {:induction false} CatalogFailsExactly(decls: seq<Option<Declaration>>, n: nat)
    requires n <= |decls|
    ensures CatalogUpTo(decls, n).Failure? <==> DeclaresUnhashable(decls, n)
    ensures CatalogUpTo(decls, n).Failure? ==> CatalogUpTo(decls, n).error == Unhashable
  {
    if n > 0 {
      CatalogFailsExactly(decls, n - 1);
      UnhashableStep(decls, n);
    }
  }

  /**
   * When cataloguing succeeds, the catalog files every declaring slide, and
   * nothing else, under its type, in slide order.
   */
  lemma {:induction false} CatalogValid(decls: seq<Option<Declaration>>, n: nat)
    requires n <= |decls|
    ensures CatalogUpTo(decls, n).Success? ==> Valid(CatalogUpTo(decls, n).value, decls, n)
  {
    if n > 0 && CatalogUpTo(decls, n).Success? {
      CatalogValid(decls, n - 1);
      var i := n - 1;
      var c := CatalogUpTo(decls, i).value;
      if decls[i].Some? {
        var d := decls[i].value;
        assert CatalogUpTo(decls, n) == Success(AddEntry(c, d.slideType, Entry(i, d.metadata)));
        AddEntryValid(c, decls, i, d);
      } else {
        assert CatalogUpTo(decls, n) == Success(c);
        SkipValid(c, decls, i);
      }
    }
  }

  lemma SkipValid(c: Catalog, decls: seq<Option<Declaration>>, i: nat)
    requires i < |decls| && Valid(c, decls, i) && decls[i].None?
    ensures Valid(c, decls, i + 1)
  {
  }

  lemma {:induction false} AddEntryValid(c: Catalog, decls: seq<Option<Declaration>>, i: nat, d: Declaration)
    requires i < |decls|
    requires Valid(c, decls, i)
    requires decls[i] == Some(d)
    ensures Valid(AddEntry(c, d.slideType, Entry(i, d.metadata)), decls, i + 1)
  {
    AddEntrySound(c, decls, i, d);
    AddEntryComplete(c, decls, i, d);
    AddEntryOrdered(c, decls, i, d);
    AddEntryKeys(c, d.slideType, Entry(i, d.metadata));
  }

  lemma {:induction false} AddEntrySound(c: Catalog, decls: seq<Option<Declaration>>, i: nat, d: Declaration)
    requires i < |decls| && Sound(c, decls, i) && decls[i] == Some(d)
    ensures Sound(AddEntry(c, d.slideType, Entry(i, d.metadata)), decls, i + 1)
  {
    var t, e := d.slideType, Entry(i, d.metadata);
    var r := AddEntry(c, t, e);
    forall u, j | u in r.buckets && 0 <= j < |r.buckets[u]|
      ensures r.buckets[u][j].index < i + 1
      ensures decls[r.buckets[u][j].index] == Some(Declaration(r.buckets[u][j].metadata, u))
    {
      if u == t && j == |r.buckets[u]| - 1 {
        assert r.buckets[u][j] == e;
      } else {
        assert r.buckets[u][j] == c.buckets[u][j];
      }
    }
  }

  lemma {:induction false} AddEntryComplete(c: Catalog, decls: seq<Option<Declaration>>, i: nat, d: Declaration)
    requires i < |decls| && Complete(c, decls, i) && decls[i] == Some(d)
    ensures Complete(AddEntry(c, d.slideType, Entry(i, d.metadata)), decls, i + 1)
  {
    var t, e := d.slideType, Entry(i, d.metadata);
    var r := AddEntry(c, t, e);
    forall k | 0 <= k < i + 1 && decls[k].Some?
      ensures decls[k].value.slideType in r.buckets
      ensures exists j :: 0 <= j < |r.buckets[decls[k].value.slideType]| && r.buckets[decls[k].value.slideType][j].index == k
    {
      var u := decls[k].value.slideType;
      if k == i {
        assert r.buckets[t][|r.buckets[t]| - 1].index == i;
      } else {
        var j :| 0 <= j < |c.buckets[u]| && c.buckets[u][j].index == k;
        assert r.buckets[u][j] == c.buckets[u][j];
      }
    }
  }

  lemma {:induction false} AddEntryOrdered(c: Catalog, decls: seq<Option<Declaration>>, i: nat, d: Declaration)
    requires i < |decls| && Sound(c, decls, i) && Ordered(c)
    ensures Ordered(AddEntry(c, d.slideType, Entry(i, d.metadata)))
  {
    var t, e := d.slideType, Entry(i, d.metadata);
    var r := AddEntry(c, t, e);
    forall u, j, k | u in r.buckets && 0 <= j < k < |r.buckets[u]|
      ensures r.buckets[u][j].index < r.buckets[u][k].index
    {
      assert r.buckets[u][j] == c.buckets[u][j];
      if u == t && k == |r.buckets[u]| - 1 {
        assert r.buckets[u][k] == e;
      } else {
        assert r.buckets[u][k] == c.buckets[u][k];
      }
    }
  }

  lemma {:induction false} AddEntryKeys(c: Catalog, t: Json, e: Entry)
    requires KeysInOrder(c)
    ensures KeysInOrder(AddEntry(c, t, e))
  {
    if t !in c.buckets {
      assert t !in c.order;
    }
  }

  /**
   * The `slide_type_map` loop: for each template slide in order, read its
   * metadata and file it under its declared type.
   */
  method BuildCatalog(metadata: seq<Option<Json>>) returns (r: Result<Catalog, Error>)
    ensures r == CatalogOf(Declarations(metadata))
  {
    ghost var decls := Declarations(metadata);
    var order: seq<Json> := [];
    var buckets: map<Json, seq<Entry>> := map[];
    var idx := 0;
    while idx < |metadata|
      invariant idx <= |metadata|
      invariant CatalogUpTo(decls, idx) == Success(Catalog(order, buckets))
    {
      var declared := DeclaredType(metadata[idx]);
      assert declared == decls[idx];
      if declared.Some? {
        var slideType := declared.value.slideType;
        if !Hashable(slideType) {
          assert CatalogUpTo(decls, idx + 1) == Failure(Unhashable);
          CatalogFailureSticks(decls, idx + 1);
          return Failure(Unhashable);
        }
        var entry := Entry(idx, declared.value.metadata);
        ghost var before := Catalog(order, buckets);
        assert CatalogUpTo(decls, idx + 1) == Success(AddEntry(before, slideType, entry));
        var bucket: seq<Entry> := [];
        if slideType in buckets {
          bucket := buckets[slideType];
        } else {
          order := order + [slideType];
          assert bucket + [entry] == [entry];
        }
        buckets := buckets[slideType := bucket + [entry]];
        assert Catalog(order, buckets) == AddEntry(before, slideType, entry);
      } else {
        assert CatalogUpTo(decls, idx + 1) == CatalogUpTo(decls, idx);
      }
      idx := idx + 1;
    }
    return Success(Catalog(order, buckets));
  }

  /** Once cataloguing has raised, it stays raised. */
  lemma {:induction false} CatalogFailureSticks(decls: seq<Option<Declaration>>, n: nat)
    requires n <= |decls| && CatalogUpTo(decls, n).Failure?
    ensures CatalogOf(decls) == CatalogUpTo(decls, n)
    decreases |decls| - n
  {
    if n < |decls| {
      CatalogFailureSticks(decls, n + 1);
    }
  }

  // ----- the query form -----

  /** One element of `get_template_slide_types`. */
  datatype SlideTypeInfo = SlideTypeInfo(slideIndex: nat, slideType: Json, description: Json, placeholders: Json)

  function InfoOf(i: nat, d: Declaration): (r: SlideTypeInfo)
    ensures r.slideIndex == i && r.slideType == d.slideType
    ensures r.description == (if "description" in d.metadata then d.metadata["description"] else JStr(""))
    ensures r.placeholders == (if "placeholders" in d.metadata then d.metadata["placeholders"] else JObj(map[]))
  {
    SlideTypeInfo(i, d.slideType, GetOr(d.metadata, "description", JStr("")), GetOr(d.metadata, "placeholders", JObj(map[])))
  }

  /** The slide-type list of the first n template slides. */
  function SlideTypesUpTo(decls: seq<Option<Declaration>>, n: nat): seq<SlideTypeInfo>
    requires n <= |decls|
  {
    if n == 0 then []
    else match decls[n - 1]
      case None => SlideTypesUpTo(decls, n - 1)
      case Some(d) => SlideTypesUpTo(decls, n - 1) + [InfoOf(n - 1, d)]
  }

  /** One step of the list: a declaring slide appends its info, any other slide leaves the list as it was. */
  lemma SlideTypesStep(decls: seq<Option<Declaration>>, n: nat)
    requires 0 < n <= |decls|
    ensures SlideTypesUpTo(decls, n) ==
      if decls[n - 1].Some? then SlideTypesUpTo(decls, n - 1) + [InfoOf(n - 1, decls[n - 1].value)]
      else SlideTypesUpTo(decls, n - 1)
  {
  }

  /** Every listed info describes a declaring slide among the first n, with its type, description and placeholders. */
  lemma {:induction false} SlideTypesSound(decls: seq<Option<Declaration>>, n: nat)
    requires n <= |decls|
    ensures forall k :: 0 <= k < |SlideTypesUpTo(decls, n)| ==>
      var info := SlideTypesUpTo(decls, n)[k];
      info.slideIndex < n && decls[info.slideIndex].Some?
      && info == InfoOf(info.slideIndex, decls[info.slideIndex].value)
  {
    if n > 0 {
      SlideTypesSound(decls, n - 1);
      SlideTypesStep(decls, n);
      var prev := SlideTypesUpTo(decls, n - 1);
      var cur := SlideTypesUpTo(decls, n);
      if decls[n - 1].Some? {
        var last := InfoOf(n - 1, decls[n - 1].value);
        assert cur == prev + [last];
        forall k | 0 <= k < |cur|
          ensures cur[k].slideIndex < n && decls[cur[k].slideIndex].Some?
          ensures cur[k] == InfoOf(cur[k].slideIndex, decls[cur[k].slideIndex].value)
        {
          if k < |prev| {
            assert cur[k] == prev[k];
          } else {
            assert cur[k] == last && last.slideIndex == n - 1;
          }
        }
      } else {
        assert cur == prev;
      }
    }
  }

  /** The list follows the template's slide order. */
  lemma {:induction false} SlideTypesIncreasing(decls: seq<Option<Declaration>>, n: nat)
    requires n <= |decls|
    ensures forall j, k :: 0 <= j < k < |SlideTypesUpTo(decls, n)| ==>
      SlideTypesUpTo(decls, n)[j].slideIndex < SlideTypesUpTo(decls, n)[k].slideIndex
  {
    if n > 0 {
      SlideTypesIncreasing(decls, n - 1);
      SlideTypesSound(decls, n - 1);
      SlideTypesStep(decls, n);
      var prev := SlideTypesUpTo(decls, n - 1);
      var cur := SlideTypesUpTo(decls, n);
      forall j, k | 0 <= j < k < |cur|
        ensures cur[j].slideIndex < cur[k].slideIndex
      {
        assert cur[j] == prev[j];
        if k < |prev| {
          assert cur[k] == prev[k];
        } else {
          assert cur[k].slideIndex == n - 1;
        }
      }
    }
  }

  /** Every declaring slide among the first n is listed. */
  lemma {:induction false} SlideTypesComplete(decls: seq<Option<Declaration>>, n: nat)
    requires n <= |decls|
    ensures forall i :: 0 <= i < n && decls[i].Some? ==>
      exists k :: 0 <= k < |SlideTypesUpTo(decls, n)| && SlideTypesUpTo(decls, n)[k].slideIndex == i
  {
    if n > 0 {
      SlideTypesComplete(decls, n - 1);
      SlideTypesStep(decls, n);
      var prev := SlideTypesUpTo(decls, n - 1);
      var cur := SlideTypesUpTo(decls, n);
      forall i | 0 <= i < n && decls[i].Some?
        ensures exists k :: 0 <= k < |cur| && cur[k].slideIndex == i
      {
        if i < n - 1 {
          var k :| 0 <= k < |prev| && prev[k].slideIndex == i;
          assert cur[k] == prev[k];
        } else {
          assert cur[|prev|].slideIndex == i;
        }
      }
    }
  }

  /** The first slide whose notes raise is where reading stops. */
  lemma ReadingStopsAt(slides: seq<Slide>, decode: string -> Option<Json>, idx: nat)
    requires idx < |slides| && idx <= |ReadableMetadata(slides, decode)|
    requires ParseSlideMetadata(slides[idx].notes, decode).Failure?
    ensures |ReadableMetadata(slides, decode)| == idx
  {
  }

  /** A slide before the first whose notes raise reads as its entry in the metadata read. */
  lemma ReadingPasses(slides: seq<Slide>, decode: string -> Option<Json>, idx: nat)
    requires idx < |slides| && idx <= |ReadableMetadata(slides, decode)|
    requires ParseSlideMetadata(slides[idx].notes, decode).Success?
    ensures idx < |ReadableMetadata(slides, decode)|
    ensures ReadableMetadata(slides, decode)[idx] == ParseSlideMetadata(slides[idx].notes, decode).value
  {
  }

  /** A slide whose notes read lists after the slides before it exactly when it declares a type. */
  lemma ListingStep(slides: seq<Slide>, decode: string -> Option<Json>, idx: nat)
    requires idx < |slides| && idx <= |ReadableMetadata(slides, decode)|
    requires ParseSlideMetadata(slides[idx].notes, decode).Success?
    ensures var read := ReadableMetadata(slides, decode);
      var d := DeclaredType(ParseSlideMetadata(slides[idx].notes, decode).value);
      idx < |read|
      && SlideTypesUpTo(Declarations(read), idx + 1) ==
        SlideTypesUpTo(Declarations(read), idx) + (if d.Some? then [InfoOf(idx, d.value)] else [])
  {
    ReadingPasses(slides, decode, idx);
    var decls := Declarations(ReadableMetadata(slides, decode));
    assert decls[idx] == DeclaredType(ParseSlideMetadata(slides[idx].notes, decode).value);
    SlideTypesStep(decls, idx + 1);
  }

  /**
   * `get_template_slide_types`: the loop over the template's slides. It
   * raises AttributeError when some slide's notes cannot be read; otherwise
   * it lists the slides that declare a type.
   */
  method SlideTypes(slides: seq<Slide>, decode: string -> Option<Json>) returns (r: Result<seq<SlideTypeInfo>, Error>)
    ensures var read := ReadableMetadata(slides, decode);
      if |read| < |slides| then r == Failure(NoSuchMethod)
      else r == Success(SlideTypesUpTo(Declarations(read), |read|))
  {
    ghost var read := ReadableMetadata(slides, decode);
    var listed := [];
    var idx := 0;
    while idx < |slides|
      invariant idx <= |read|
      invariant listed == SlideTypesUpTo(Declarations(read), idx)
    {
      var metadata := ParseSlideMetadata(slides[idx].notes, decode);
      if metadata.Failure? {
        ReadingStopsAt(slides, decode, idx);
        return Failure(metadata.error);
      }
      ListingStep(slides, decode, idx);
      var declared := DeclaredType(metadata.value);
      if declared.Some? {
        listed := listed + [InfoOf(idx, declared.value)];
      }
      idx := idx + 1;
    }
    return Success(listed);
  }

  /** When cataloguing succeeds, the query and the catalog describe the same slides with the same types. */
  lemma {:induction false} SlideTypesMatchCatalog(decls: seq<Option<Declaration>>, c: Catalog)
    requires CatalogOf(decls) == Success(c)
    ensures forall k :: 0 <= k < |SlideTypesUpTo(decls, |decls|)| ==>
      SlideTypesUpTo(decls, |decls|)[k].slideType in c.buckets &&
      exists j :: 0 <= j < |c.buckets[SlideTypesUpTo(decls, |decls|)[k].slideType]| &&
        c.buckets[SlideTypesUpTo(decls, |decls|)[k].slideType][j].index == SlideTypesUpTo(decls, |decls|)[k].slideIndex
    ensures forall t, j :: t in c.buckets && 0 <= j < |c.buckets[t]| ==>
      InfoOf(c.buckets[t][j].index, Declaration(c.buckets[t][j].metadata, t)) in SlideTypesUpTo(decls, |decls|)
  {
    CatalogValid(decls, |decls|);
    SlideTypesSound(decls, |decls|);
    SlideTypesComplete(decls, |decls|);
    var list := SlideTypesUpTo(decls, |decls|);
    forall t, j | t in c.buckets && 0 <= j < |c.buckets[t]|
      ensures InfoOf(c.buckets[t][j].index, Declaration(c.buckets[t][j].metadata, t)) in list
    {
      var i := c.buckets[t][j].index;
      assert decls[i] == Some(Declaration(c.buckets[t][j].metadata, t));
      var k :| 0 <= k < |list| && list[k].slideIndex == i;
      assert list[k] == InfoOf(i, decls[i].value);
    }
  }
}
