/**
 * Planning a deck: each requested slide is matched to a template slide of
 * the requested type. When several template slides share the type, the one
 * whose declared placeholder names overlap the requested field names most is
 * chosen, the earliest among equals.
 */
module Selection {
  import opened Wrappers
  import opened Metadata
  import opened Values
  import opened Catalog

  /** One requested slide: its `slide_type` (JSON null when missing) and its field mapping. */
  datatype SlideRequest = SlideRequest(slideType: Json, fields: Fields)

  /** One planned slide: the template slide to copy, the fields to fill and that slide's metadata. */
  datatype BuildInfo = BuildInfo(templateIndex: nat, fields: Fields, metadata: map<string, Json>)

  /**
   * `set(metadata.get('placeholders', {}).keys())`: the declared placeholder
   * names; a `placeholders` value that is not an object has no `keys`.
   */
  function DeclaredNames(metadata: map<string, Json>): (r: Result<set<string>, Error>)
    ensures "placeholders" !in metadata ==> r == Success({})
    ensures r.Success? <==> "placeholders" !in metadata || metadata["placeholders"].JObj?
    ensures r.Failure? ==> r.error == NoSuchMethod
  {
    if "placeholders" !in metadata then Success({})
    else match metadata["placeholders"]
      case JObj(m) => Success(m.Keys)
      case _ => Failure(NoSuchMethod)
  }

  /** `len(candidate_fields & requested_fields)`. */
  function Score(declared: set<string>, requested: set<string>): nat
  {
    |declared * requested|
  }

  /**
   * The `best_score`/`best_match` scan over the first n candidates: the
   * index of the best so far (None before any) and its score, which starts
   * at -1 and is replaced only by a strictly greater one.
   */
  function ScanUpTo(cands: seq<Entry>, requested: set<string>, n: nat): (r: Result<(Option<nat>, int), Error>)
    requires n <= |cands|
    ensures r.Success? && r.value.0.Some? ==> r.value.0.value < n
  {
    if n == 0 then Success((None, -1))
    else match ScanUpTo(cands, requested, n - 1)
      case Failure(e) => Failure(e)
      case Success(state) =>
        match DeclaredNames(cands[n - 1].metadata)
        case Failure(e) => Failure(e)
        case Success(declared) =>
          if Score(declared, requested) > state.1 then Success((Some(n - 1), Score(declared, requested)))
          else Success(state)
  }

  /** The candidate chosen for a request: the only one, or the result of the scan. */
  function Choose(cands: seq<Entry>, requested: set<string>): (r: Result<nat, Error>)
    requires cands != []
    ensures r.Success? ==> r.value < |cands|
  {
    if |cands| == 1 then Success(0)
    else match ScanUpTo(cands, requested, |cands|)
      case Failure(e) => Failure(e)
      case Success(state) => Success(if state.0.Some? then state.0.value else 0)
  }

  /** Every candidate's placeholders can be read. */
  ghost predicate AllReadable(cands: seq<Entry>, n: nat)
    requires n <= |cands|
  {
    forall j :: 0 <= j < n ==> DeclaredNames(cands[j].metadata).Success?
  }

  /** The score of candidate j, which must be readable. */
  function ScoreAt(cands: seq<Entry>, requested: set<string>, j: nat): nat
    requires j < |cands| && DeclaredNames(cands[j].metadata).Success?
  {
    Score(DeclaredNames(cands[j].metadata).value, requested)
  }

  /** Candidate i is readable and scores highest among the first n, and strictly higher than every earlier one. */
  ghost predicate EarliestBest(cands: seq<Entry>, requested: set<string>, n: nat, i: nat)
    requires n <= |cands| && AllReadable(cands, n)
  {
    i < n
    && (forall j :: 0 <= j < n ==> ScoreAt(cands, requested, j) <= ScoreAt(cands, requested, i))
    && (forall j :: 0 <= j < i ==> ScoreAt(cands, requested, j) < ScoreAt(cands, requested, i))
  }

  /** The scan fails exactly when some candidate's placeholders cannot be read, and then with AttributeError. */
  lemma {:induction false} ScanFailsOnUnreadable(cands: seq<Entry>, requested: set<string>, n: nat)
    requires n <= |cands|
    ensures ScanUpTo(cands, requested, n).Success? <==> AllReadable(cands, n)
    ensures ScanUpTo(cands, requested, n).Failure? ==> ScanUpTo(cands, requested, n).error == NoSuchMethod
  {
    if n > 0 {
      ScanFailsOnUnreadable(cands, requested, n - 1);
      ScanStepFails(cands, requested, n);
      if !AllReadable(cands, n - 1) {
        var j :| 0 <= j < n - 1 && DeclaredNames(cands[j].metadata).Failure?;
        assert !AllReadable(cands, n);
      }
    }
  }

  /** One step of the scan fails exactly when an earlier step failed or this candidate's placeholders cannot be read. */
  lemma ScanStepFails(cands: seq<Entry>, requested: set<string>, n: nat)
    requires 0 < n <= |cands|
    ensures ScanUpTo(cands, requested, n).Success?
      <==> ScanUpTo(cands, requested, n - 1).Success? && DeclaredNames(cands[n - 1].metadata).Success?
    ensures ScanUpTo(cands, requested, n).Failure? && ScanUpTo(cands, requested, n - 1).Failure?
      ==> ScanUpTo(cands, requested, n).error == ScanUpTo(cands, requested, n - 1).error
    ensures ScanUpTo(cands, requested, n).Failure? && ScanUpTo(cands, requested, n - 1).Success?
      ==> ScanUpTo(cands, requested, n).error == DeclaredNames(cands[n - 1].metadata).error
  {
  }

  /** After at least one readable candidate, the scan holds the earliest candidate of greatest score, and that score. */
  lemma {:induction false} ScanFindsEarliestBest(cands: seq<Entry>, requested: set<string>, n: nat)
    requires 0 < n <= |cands| && AllReadable(cands, n)
    ensures ScanUpTo(cands, requested, n).Success?
    ensures ScanUpTo(cands, requested, n).value.0.Some?
    ensures EarliestBest(cands, requested, n, ScanUpTo(cands, requested, n).value.0.value)
    ensures ScanUpTo(cands, requested, n).value.1 == ScoreAt(cands, requested, ScanUpTo(cands, requested, n).value.0.value)
  {
    ScanFailsOnUnreadable(cands, requested, n);
    if n == 1 {
      ScanStepKeeps(cands, requested, 1);
    } else {
      assert AllReadable(cands, n - 1);
      ScanFindsEarliestBest(cands, requested, n - 1);
      ScanStepKeeps(cands, requested, n);
      var prev := ScanUpTo(cands, requested, n - 1).value;
      var i := prev.0.value;
      var s := ScoreAt(cands, requested, n - 1);
      if s > prev.1 {
        forall j | 0 <= j < n - 1
          ensures ScoreAt(cands, requested, j) < s
        {
          assert ScoreAt(cands, requested, j) <= ScoreAt(cands, requested, i);
        }
      } else {
        assert s <= ScoreAt(cands, requested, i);
      }
    }
  }

  /** A readable candidate replaces the scan's best exactly when its score is strictly greater. */
  lemma ScanStepKeeps(cands: seq<Entry>, requested: set<string>, n: nat)
    requires 0 < n <= |cands|
    requires ScanUpTo(cands, requested, n - 1).Success? && DeclaredNames(cands[n - 1].metadata).Success?
    ensures ScanUpTo(cands, requested, n).Success?
    ensures var prev := ScanUpTo(cands, requested, n - 1).value;
      ScanUpTo(cands, requested, n).value ==
        if ScoreAt(cands, requested, n - 1) > prev.1 then (Some(n - 1), ScoreAt(cands, requested, n - 1)) else prev
  {
  }

  /**
   * The chosen candidate is one of the candidates; with several, every
   * candidate's placeholders must be readable, the choice has the greatest
   * overlap with the requested names, and every earlier candidate has a
   * strictly smaller one.
   */
  lemma ChooseIsEarliestBest(cands: seq<Entry>, requested: set<string>)
    requires cands != []
    ensures |cands| == 1 ==> Choose(cands, requested) == Success(0)
    ensures |cands| > 1 ==> (Choose(cands, requested).Success? <==> AllReadable(cands, |cands|))
    ensures Choose(cands, requested).Success? ==> Choose(cands, requested).value < |cands|
    ensures |cands| > 1 && Choose(cands, requested).Success? ==>
      AllReadable(cands, |cands|) && EarliestBest(cands, requested, |cands|, Choose(cands, requested).value)
  {
    ScanFailsOnUnreadable(cands, requested, |cands|);
    if |cands| > 1 && AllReadable(cands, |cands|) {
      ScanFindsEarliestBest(cands, requested, |cands|);
    }
  }

  /** The loop at the heart of the choice, as the generator runs it. */
  method SelectCandidate(cands: seq<Entry>, requested: set<string>) returns (r: Result<nat, Error>)
    requires cands != []
    ensures r == Choose(cands, requested)
  {
    if |cands| == 1 {
      return Success(0);
    }
    var bestMatch: Option<nat> := None;
    var bestScore: int := -1;
    for k := 0 to |cands|
      invariant ScanUpTo(cands, requested, k) == Success((bestMatch, bestScore))
    {
      var declared := DeclaredNames(cands[k].metadata);
      if declared.Failure? {
        ScanFailureSticks(cands, requested, k + 1);
        return Failure(declared.error);
      }
      var matches := Score(declared.value, requested);
      if matches > bestScore {
        bestScore := matches;
        bestMatch := Some(k);
      }
    }
    return Success(if bestMatch.Some? then bestMatch.value else 0);
  }

  lemma {:induction false} ScanFailureSticks(cands: seq<Entry>, requested: set<string>, n: nat)
    requires n <= |cands| && ScanUpTo(cands, requested, n).Failure?
    ensures ScanUpTo(cands, requested, |cands|) == ScanUpTo(cands, requested, n)
    decreases |cands| - n
  {
    if n < |cands| {
      ScanFailureSticks(cands, requested, n + 1);
    }
  }

  // ----- the plan -----

  /**
   * One request: the type must be hashable and catalogued (otherwise
   * TypeError, or ValueError naming it and the catalog's types in order),
   * then a candidate of that type is chosen.
   */
  function PlanOne(c: Catalog, req: SlideRequest): Result<BuildInfo, Error>
  {
    if !Hashable(req.slideType) then Failure(Unhashable)
    else if req.slideType !in c.buckets then Failure(UnknownSlideType(req.slideType, c.order))
    else
      var cands := c.buckets[req.slideType];
      if cands == [] then Failure(UnknownSlideType(req.slideType, c.order))
      else match Choose(cands, Names(req.fields))
        case Failure(e) => Failure(e)
        case Success(i) => Success(BuildInfo(cands[i].index, req.fields, cands[i].metadata))
  }

  /** The plan for the first n requests, stopping at the first that raises. */
  function PlanUpTo(c: Catalog, reqs: seq<SlideRequest>, n: nat): Result<seq<BuildInfo>, Error>
    requires n <= |reqs|
  {
    if n == 0 then Success([])
    else match PlanUpTo(c, reqs, n - 1)
      case Failure(e) => Failure(e)
      case Success(plan) =>
        match PlanOne(c, reqs[n - 1])
        case Failure(e) => Failure(e)
        case Success(info) => Success(plan + [info])
  }

  function PlanOf(c: Catalog, reqs: seq<SlideRequest>): Result<seq<BuildInfo>, Error>
  {
    PlanUpTo(c, reqs, |reqs|)
  }

  /**
   * Planning succeeds exactly when every request does; then the plan has
   * one entry per request, in request order, each the planned slide of its
   * request.
   */
  lemma PlanFollowsRequests(c: Catalog, reqs: seq<SlideRequest>, n: nat)
    requires n <= |reqs|
    ensures PlanUpTo(c, reqs, n).Success? <==> forall k :: 0 <= k < n ==> PlanOne(c, reqs[k]).Success?
    ensures PlanUpTo(c, reqs, n).Success? ==>
      |PlanUpTo(c, reqs, n).value| == n
      && forall k :: 0 <= k < n ==> PlanUpTo(c, reqs, n).value[k] == PlanOne(c, reqs[k]).value
  {
    PlanSucceedsExactly(c, reqs, n);
    if PlanUpTo(c, reqs, n).Success? {
      PlanEntries(c, reqs, n);
    }
  }

  /** Planning the first n requests succeeds exactly when each of them does. */
  lemma {:induction false} PlanSucceedsExactly(c: Catalog, reqs: seq<SlideRequest>, n: nat)
    requires n <= |reqs|
    ensures PlanUpTo(c, reqs, n).Success? <==> forall k :: 0 <= k < n ==> PlanOne(c, reqs[k]).Success?
  {
    if n > 0 {
      PlanSucceedsExactly(c, reqs, n - 1);
    }
  }

  /** A plan of the first n requests has entry k from request k. */
  lemma {:induction false} PlanEntries(c: Catalog, reqs: seq<SlideRequest>, n: nat)
    requires n <= |reqs| && PlanUpTo(c, reqs, n).Success?
    ensures |PlanUpTo(c, reqs, n).value| == n
    ensures forall k :: 0 <= k < n ==>
      PlanOne(c, reqs[k]).Success? && PlanUpTo(c, reqs, n).value[k] == PlanOne(c, reqs[k]).value
  {
    if n > 0 {
      var prev := PlanUpTo(c, reqs, n - 1);
      assert prev.Success?;
      PlanEntries(c, reqs, n - 1);
      var one := PlanOne(c, reqs[n - 1]);
      assert one.Success?;
      var plan := PlanUpTo(c, reqs, n).value;
      assert plan == prev.value + [one.value];
      forall k | 0 <= k < n
        ensures PlanOne(c, reqs[k]).Success? && plan[k] == PlanOne(c, reqs[k]).value
      {
        if k < n - 1 {
          assert plan[k] == prev.value[k];
        }
      }
    }
  }

  /** A failed plan carries the error of the first request that fails. */
  lemma {:induction false} PlanStopsAtFirstFailure(c: Catalog, reqs: seq<SlideRequest>, n: nat)
    requires n <= |reqs|
    requires PlanUpTo(c, reqs, n).Failure?
    ensures exists k :: (0 <= k < n && PlanOne(c, reqs[k]) == Failure(PlanUpTo(c, reqs, n).error)
      && forall j :: 0 <= j < k ==> PlanOne(c, reqs[j]).Success?)
  {
    var e := PlanUpTo(c, reqs, n).error;
    if PlanUpTo(c, reqs, n - 1).Failure? {
      assert PlanUpTo(c, reqs, n - 1).error == e;
      PlanStopsAtFirstFailure(c, reqs, n - 1);
      var k :| 0 <= k < n - 1 && PlanOne(c, reqs[k]) == Failure(e) && forall j :: 0 <= j < k ==> PlanOne(c, reqs[j]).Success?;
      assert 0 <= k < n;
    } else {
      PlanFollowsRequests(c, reqs, n - 1);
      assert PlanOne(c, reqs[n - 1]) == Failure(e);
      assert forall j :: 0 <= j < n - 1 ==> PlanOne(c, reqs[j]).Success?;
    }
  }

  /**
   * Each planned slide comes from the requested type's bucket and keeps the
   * request's fields; an uncatalogued, hashable type raises ValueError naming
   * it and listing every catalogued type in order.
   */
  lemma PlanOneSpec(c: Catalog, req: SlideRequest)
    ensures Hashable(req.slideType) && req.slideType !in c.buckets ==>
      PlanOne(c, req) == Failure(UnknownSlideType(req.slideType, c.order))
    ensures PlanOne(c, req).Success? ==>
      req.slideType in c.buckets && PlanOne(c, req).value.fields == req.fields
      && exists j :: (0 <= j < |c.buckets[req.slideType]|
        && PlanOne(c, req).value.templateIndex == c.buckets[req.slideType][j].index
        && PlanOne(c, req).value.metadata == c.buckets[req.slideType][j].metadata)
  {
    if PlanOne(c, req).Success? {
      var cands := c.buckets[req.slideType];
      ChooseIsEarliestBest(cands, Names(req.fields));
      var i := Choose(cands, Names(req.fields)).value;
      assert PlanOne(c, req).value.templateIndex == cands[i].index;
    }
  }

  /**
   * Against the catalog of a template, a planned slide is a template slide
   * that declares the requested type, with that slide's metadata.
   */
  lemma PlannedSlideDeclaresType(decls: seq<Option<Declaration>>, req: SlideRequest)
    requires CatalogOf(decls).Success?
    requires PlanOne(CatalogOf(decls).value, req).Success?
    ensures var info := PlanOne(CatalogOf(decls).value, req).value;
      info.templateIndex < |decls| && decls[info.templateIndex] == Some(Declaration(info.metadata, req.slideType))
  {
    CatalogValid(decls, |decls|);
    PlanOneSpec(CatalogOf(decls).value, req);
  }

  /** `slides_to_build`: the planning loop over the requests. */
  method Plan(c: Catalog, reqs: seq<SlideRequest>) returns (r: Result<seq<BuildInfo>, Error>)
    ensures r == PlanOf(c, reqs)
  {
    var plan: seq<BuildInfo> := [];
    for k := 0 to |reqs|
      invariant PlanUpTo(c, reqs, k) == Success(plan)
    {
      var req := reqs[k];
      if !Hashable(req.slideType) || req.slideType !in c.buckets || c.buckets[req.slideType] == [] {
        PlanFailureSticks(c, reqs, k + 1);
        if !Hashable(req.slideType) {
          return Failure(Unhashable);
        }
        return Failure(UnknownSlideType(req.slideType, c.order));
      }
      var cands := c.buckets[req.slideType];
      var chosen := SelectCandidate(cands, Names(req.fields));
      if chosen.Failure? {
        PlanFailureSticks(c, reqs, k + 1);
        return Failure(chosen.error);
      }
      plan := plan + [BuildInfo(cands[chosen.value].index, req.fields, cands[chosen.value].metadata)];
    }
    return Success(plan);
  }

  lemma {:induction false} PlanFailureSticks(c: Catalog, reqs: seq<SlideRequest>, n: nat)
    requires n <= |reqs| && PlanUpTo(c, reqs, n).Failure?
    ensures PlanOf(c, reqs) == PlanUpTo(c, reqs, n)
    decreases |reqs| - n
  {
    if n < |reqs| {
      PlanFailureSticks(c, reqs, n + 1);
    }
  }
}
