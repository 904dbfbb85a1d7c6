/**
 * A loop that applies a step which may raise to each element in turn and
 * stops at the first exception, as the generators' build loops do.
 */
module Steps {
  import opened Wrappers

  /** Every element is one the step accepts. */
  ghost predicate Applicable<A, B, E>(xs: seq<A>, f: A --> Result<B, E>)
  {
    forall i :: 0 <= i < |xs| ==> f.requires(xs[i])
  }

  /** The results for the first n elements, or the first exception among them. */
  function ApplyAll<A, B, E>(xs: seq<A>, f: A --> Result<B, E>, n: nat): (r: Result<seq<B>, E>)
    requires n <= |xs| && Applicable(xs, f)
    ensures r.Success? ==> |r.value| == n
  {
    if n == 0 then Success([])
    else match ApplyAll(xs, f, n - 1)
      case Failure(e) => Failure(e)
      case Success(done) =>
        match f(xs[n - 1])
        case Failure(e) => Failure(e)
        case Success(b) => Success(done + [b])
  }

  /** One more element: its result appended, or its exception raised. */
  lemma ApplyAllStep<A, B, E>(xs: seq<A>, f: A --> Result<B, E>, n: nat, done: seq<B>)
    requires n < |xs| && Applicable(xs, f) && ApplyAll(xs, f, n) == Success(done)
    ensures f(xs[n]).Success? ==> ApplyAll(xs, f, n + 1) == Success(done + [f(xs[n]).value])
    ensures f(xs[n]).Failure? ==> ApplyAll(xs, f, n + 1) == Failure(f(xs[n]).error)
  {
  }

  /** The loop gets through exactly when no element raises. */
  lemma {:induction false} ApplyAllSucceeds<A, B, E>(xs: seq<A>, f: A --> Result<B, E>, n: nat)
    requires n <= |xs| && Applicable(xs, f)
    ensures ApplyAll(xs, f, n).Success? <==> forall k :: 0 <= k < n ==> f(xs[k]).Success?
  {
    if n > 0 {
      ApplyAllSucceeds(xs, f, n - 1);
    }
  }

  /** When it gets through, result k is element k's. */
  lemma {:induction false} ApplyAllResults<A, B, E>(xs: seq<A>, f: A --> Result<B, E>, n: nat)
    requires n <= |xs| && Applicable(xs, f) && ApplyAll(xs, f, n).Success?
    ensures forall k :: 0 <= k < n ==> f(xs[k]).Success? && ApplyAll(xs, f, n).value[k] == f(xs[k]).value
  {
    if n > 0 {
      ApplyAllResults(xs, f, n - 1);
    }
  }

  /** An exception raised among the first n elements is the one the whole loop raises. */
  lemma {:induction false} ApplyAllFailureSticks<A, B, E>(xs: seq<A>, f: A --> Result<B, E>, n: nat)
    requires n <= |xs| && Applicable(xs, f) && ApplyAll(xs, f, n).Failure?
    ensures ApplyAll(xs, f, |xs|) == ApplyAll(xs, f, n)
    decreases |xs| - n
  {
    if n < |xs| {
      ApplyAllFailureSticks(xs, f, n + 1);
    }
  }

  /** The exception the loop raises is that of the first element that raises. */
  lemma {:induction false} ApplyAllFirstFailure<A, B, E>(xs: seq<A>, f: A --> Result<B, E>, n: nat)
    requires n <= |xs| && Applicable(xs, f) && ApplyAll(xs, f, n).Failure?
    ensures exists k :: (0 <= k < n && f(xs[k]) == Failure(ApplyAll(xs, f, n).error)
      && forall j :: 0 <= j < k ==> f(xs[j]).Success?)
  {
    var e := ApplyAll(xs, f, n).error;
    if ApplyAll(xs, f, n - 1).Failure? {
      ApplyAllFirstFailure(xs, f, n - 1);
      var k :| 0 <= k < n - 1 && f(xs[k]) == Failure(e) && forall j :: 0 <= j < k ==> f(xs[j]).Success?;
      assert 0 <= k < n;
    } else {
      ApplyAllSucceeds(xs, f, n - 1);
      assert f(xs[n - 1]) == Failure(e);
    }
  }

  /** The results of the leading elements, up to the first element whose step raises. */
  function Leading<A, B, E>(xs: seq<A>, f: A -> Result<B, E>): (r: seq<B>)
    ensures |r| <= |xs|
    ensures forall i :: 0 <= i < |r| ==> f(xs[i]) == Success(r[i])
    ensures |r| < |xs| ==> f(xs[|r|]).Failure?
  {
    if xs == [] then []
    else match f(xs[0])
      case Failure(_) => []
      case Success(b) => [b] + Leading(xs[1..], f)
  }

  /** Results that run up to the first element that raises, or to the end, are the leading results. */
  lemma {:induction false} LeadingUnique<A, B, E>(xs: seq<A>, f: A -> Result<B, E>, done: seq<B>)
    requires |done| <= |xs|
    requires forall i :: 0 <= i < |done| ==> f(xs[i]) == Success(done[i])
    requires |done| < |xs| ==> f(xs[|done|]).Failure?
    ensures done == Leading(xs, f)
  {
    if xs != [] && done != [] {
      assert f(xs[0]) == Success(done[0]);
      LeadingUnique(xs[1..], f, done[1..]);
      assert done == [done[0]] + done[1..];
    }
  }
}
