/**
  The result model of the Jacobian controller: the closed set of outcome tags,
  the result of one run (`Result`, called `SingleResult` in the header) with its
  success conversion, and the two-phase `BeliefResult`.
 */
module Outcomes {
  import opened Wrappers

  /** A joint configuration. Its components are opaque to the decision logic. */
  type Config = seq<real>

  /** The eight possible outcomes of a run. */
  datatype Outcome =
    | Reached
    | AcceptableCollision
    | UnacceptableCollision
    | UnsensorizedCollision
    | Singularity
    | JointLimit
    | StepsLimit
    | MissedRequiredCollisions

  const AllOutcomes: set<Outcome> :=
    {Reached, AcceptableCollision, UnacceptableCollision, UnsensorizedCollision,
     Singularity, JointLimit, StepsLimit, MissedRequiredCollisions}

  /** The two outcomes that mean the run succeeded. */
  predicate IsPositive(o: Outcome) {
    o == Reached || o == AcceptableCollision
  }

  /** The documented shape of a returned outcome set: one positive outcome,
      or a nonempty set of negative outcomes only. */
  predicate WellFormedOutcomes(outcomes: set<Outcome>) {
    || (|outcomes| == 1 && forall o :: o in outcomes ==> IsPositive(o))
    || (outcomes != {} && forall o :: o in outcomes ==> !IsPositive(o))
  }

  /** `Result::operator bool`: the set has a single element, and it is positive,
      so it is `{REACHED}` or `{ACCEPTABLE_COLLISION}`. The source asserts that the
      set is not empty. */
  predicate IsSuccess(outcomes: set<Outcome>): (b: bool)
    requires outcomes != {}
    ensures b <==> (outcomes == {Reached} || outcomes == {AcceptableCollision})
  {
    SinglePositiveShape(outcomes);
    |outcomes| == 1 && forall o :: o in outcomes ==> IsPositive(o)
  }

  lemma SinglePositiveShape(outcomes: set<Outcome>)
    requires outcomes != {}
    ensures (|outcomes| == 1 && forall o :: o in outcomes ==> IsPositive(o))
            <==> (outcomes == {Reached} || outcomes == {AcceptableCollision})
  {
    if |outcomes| == 1 && forall o :: o in outcomes ==> IsPositive(o) {
      var o :| o in outcomes;
      SingletonOf(outcomes, o);
    }
  }

  /** The result of one run: the mean configuration after every completed step,
      the last belief (its particles' configurations) and the outcome set. */
  datatype Result = Result(meanTrajectory: seq<Config>, finalBelief: seq<Config>, outcomes: set<Outcome>)
  {
    /** `Result::operator bool`. A successful result is well formed. */
    predicate Success(): (b: bool)
      requires outcomes != {}
      ensures b <==> (outcomes == {Reached} || outcomes == {AcceptableCollision})
      ensures b ==> WellFormedOutcomes(outcomes)
    {
      IsSuccess(outcomes)
    }

    /** `setSingleOutcome`: clear the outcome set and put the one outcome in it. */
    function SetSingleOutcome(single: Outcome): (r: Result)
      ensures r.outcomes == {single}
      ensures r.meanTrajectory == meanTrajectory && r.finalBelief == finalBelief
    {
      this.(outcomes := {single})
    }
  }

  /** The result of the two-phase belief controller. `particleResults` is absent
      when the no-noise phase did not succeed. */
  datatype BeliefResult = BeliefResult(noNoiseTestResult: Result, particleResults: Option<seq<Result>>)
  {
    /** Every outcome set the belief result holds is nonempty. */
    predicate Complete() {
      && noNoiseTestResult.outcomes != {}
      && (particleResults.Some? ==>
            forall i :: 0 <= i < |particleResults.value| ==> particleResults.value[i].outcomes != {})
    }

    /** `BeliefResult::operator bool`: the no-noise run succeeded and so did every
        particle's run. */
    predicate Success(): (b: bool)
      requires Complete()
      ensures b ==> particleResults.Some?
      ensures b <==> && (noNoiseTestResult.outcomes == {Reached} || noNoiseTestResult.outcomes == {AcceptableCollision})
                     && particleResults.Some?
                     && forall i :: 0 <= i < |particleResults.value| ==>
                          (particleResults.value[i].outcomes == {Reached}
                           || particleResults.value[i].outcomes == {AcceptableCollision})
    {
      && noNoiseTestResult.Success()
      && particleResults.Some?
      && forall i :: 0 <= i < |particleResults.value| ==> particleResults.value[i].Success()
    }
  }

  /** Every value of `Outcome` is one of the eight tags, and they are distinct. */
  lemma OutcomeIsClosed()
    ensures forall o: Outcome :: o in AllOutcomes
    ensures |AllOutcomes| == 8
  {
    forall o: Outcome ensures o in AllOutcomes {
      match o
      case Reached =>
      case AcceptableCollision =>
      case UnacceptableCollision =>
      case UnsensorizedCollision =>
      case Singularity =>
      case JointLimit =>
      case StepsLimit =>
      case MissedRequiredCollisions =>
    }
  }

  /** For a well-formed outcome set, success means that some outcome is positive:
      the conversion agrees with the documented "successful termination". */
  lemma SuccessIffSomePositive(outcomes: set<Outcome>)
    requires WellFormedOutcomes(outcomes)
    ensures IsSuccess(outcomes) <==> exists o :: o in outcomes && IsPositive(o)
  {
  }

  /** A set of size one is the singleton of any of its elements. */
  lemma SingletonOf<T>(s: set<T>, x: T)
    requires |s| == 1 && x in s
    ensures s == {x}
  {
    if s != {x} {
      var y :| y in s && y != x;
      assert {x, y} <= s;
      assert |{x, y}| == 2;
      SubsetCardinality({x, y}, s);
    }
  }

  lemma SubsetCardinality<T>(a: set<T>, b: set<T>)
    requires a <= b
    ensures |a| <= |b|
  {
    assert b == a + (b - a);
  }

  /** `setSingleOutcome(o)` leaves the outcome set exactly `{o}` whatever it held
      before, so applying it again (with `o` or after any other outcome) changes nothing. */
  lemma SetSingleOutcomeIdempotent(r: Result, o: Outcome, p: Outcome)
    ensures r.SetSingleOutcome(p).SetSingleOutcome(o) == r.SetSingleOutcome(o)
    ensures r.SetSingleOutcome(o).SetSingleOutcome(o) == r.SetSingleOutcome(o)
    ensures WellFormedOutcomes(r.SetSingleOutcome(o).outcomes)
  {
  }
}
