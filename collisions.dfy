/**
  The collision-policy classifier of the Jacobian controller: the policy lookup
  and the required-collisions counter (both defined outside the controller and
  modelled abstractly here), the sensorized-part test, and
  `checkCollisionConstraints` with the pure specification it is proved against.
 */
module Collisions {
  import opened Wrappers
  import opened Outcomes

  type PartName = string

  /** A contact between two parts, in the order the collision detector reports it. */
  type Pair = (PartName, PartName)

  /** What the policy table says about one pair of parts. */
  datatype CollisionType = CollisionType(ignored: bool, prohibited: bool, terminating: bool)

  /** The policy table: the per-pair lookup and the pairs that must be touched
      at least once during a run. */
  datatype CollisionTypes = CollisionTypes(lookup: (PartName, PartName) -> CollisionType, required: set<Pair>)

  /** Which contact pairs a run has touched so far, against the pairs it must touch.
      Its state survives from one step to the next and is changed by the classifier. */
  class RequiredCollisionsCounter {
    const required: set<Pair>
    var counted: set<Pair>

    constructor (required: set<Pair>)
      ensures this.required == required && counted == {}
    {
      this.required := required;
      counted := {};
    }

    method CountCollision(first: PartName, second: PartName)
      modifies this
      ensures counted == old(counted) + {(first, second)}
    {
      counted := counted + {(first, second)};
    }

    /** Every required pair has been counted. */
    predicate AllRequiredPresent(): (b: bool)
      reads this
      ensures b <==> forall p :: p in required ==> p in counted
    {
      required <= counted
    }
  }

  /** `pat` occurs in `s` starting at index `i`. */
  predicate OccursAt(s: string, pat: string, i: int) {
    0 <= i && i + |pat| <= |s| && s[i..i + |pat|] == pat
  }

  /** `std::string::find`: the first index at which `pat` occurs in `s`, or `None`
      (`npos`) when it occurs nowhere. */
  function Find(s: string, pat: string): (r: Option<nat>)
    ensures r.Some? ==> OccursAt(s, pat, r.value) && forall j :: 0 <= j < r.value ==> !OccursAt(s, pat, j)
    ensures r.None? ==> forall j :: !OccursAt(s, pat, j)
  {
    if |s| < |pat| then
      None
    else if s[..|pat|] == pat then
      Some(0)
    else
      var rest := Find(s[1..], pat);
      assert forall j :: 1 <= j ==> (OccursAt(s, pat, j) <==> OccursAt(s[1..], pat, j - 1)) by {
        forall j | 1 <= j {
          OccursShift(s, pat, j);
        }
      }
      match rest
      case Some(i) => Some(i + 1)
      case None => None
  }

  /** Dropping the first character shifts every later occurrence by one. */
  lemma OccursShift(s: string, pat: string, j: int)
    requires 1 <= j && |s| >= 1
    ensures OccursAt(s, pat, j) <==> OccursAt(s[1..], pat, j - 1)
  {
    if j + |pat| <= |s| {
      assert forall u :: j <= u < j + |pat| ==> s[u] == s[1..][u - 1];
      assert s[j..j + |pat|] == s[1..][j - 1..j - 1 + |pat|];
    }
  }

  /** `isSensorized`: a part is sensorized when its name contains "sensor". */
  predicate IsSensorized(name: PartName): (b: bool)
    ensures b <==> exists i :: OccursAt(name, "sensor", i)
  {
    Find(name, "sensor").Some?
  }

  /** The classifier's verdict for one step. `seenRequiredWorldCollisions` is part
      of the record but nothing in the classifier writes it. */
  datatype CollisionConstraintsCheck =
    CollisionConstraintsCheck(failures: set<Outcome>, seenRequiredWorldCollisions: set<string>, successTermination: bool)

  /** A default-initialised check: no failures, no successful termination. */
  const FreshCheck := CollisionConstraintsCheck({}, {}, false)

  /** The failures one contact pair contributes. */
  function PairFailures(lookup: (PartName, PartName) -> CollisionType, p: Pair): (r: set<Outcome>)
    ensures r <= {UnsensorizedCollision, UnacceptableCollision}
    ensures UnacceptableCollision in r <==> lookup(p.0, p.1).prohibited
    ensures UnsensorizedCollision in r <==> !IsSensorized(p.0) && !lookup(p.0, p.1).ignored
    ensures lookup(p.0, p.1).ignored ==> UnsensorizedCollision !in r
  {
    var t := lookup(p.0, p.1);
    (if !IsSensorized(p.0) && !t.ignored then {UnsensorizedCollision} else {})
    + (if t.prohibited then {UnacceptableCollision} else {})
  }

  /** The failure set accumulated over the pairs, in loop order. */
  function Failures(lookup: (PartName, PartName) -> CollisionType, pairs: seq<Pair>): (r: set<Outcome>)
    ensures r <= {UnsensorizedCollision, UnacceptableCollision}
  {
    if pairs == [] then {} else Failures(lookup, pairs[..|pairs| - 1]) + PairFailures(lookup, pairs[|pairs| - 1])
  }

  /** The `terminating_collision_present` flag after the loop. */
  predicate TerminatingPresent(lookup: (PartName, PartName) -> CollisionType, pairs: seq<Pair>) {
    pairs != [] && (TerminatingPresent(lookup, pairs[..|pairs| - 1]) || lookup(pairs[|pairs| - 1].0, pairs[|pairs| - 1].1).terminating)
  }

  /** The pairs registered with the counter. */
  function PairSet(pairs: seq<Pair>): set<Pair> {
    set p | p in pairs
  }

  /** The verdict of `checkCollisionConstraints` on `pairs`, for a counter holding
      `required` that had seen `counted` before this call. */
  function Classify(lookup: (PartName, PartName) -> CollisionType, required: set<Pair>, counted: set<Pair>, pairs: seq<Pair>)
    : (r: CollisionConstraintsCheck)
    ensures r.failures <= {UnsensorizedCollision, UnacceptableCollision}
    ensures r.seenRequiredWorldCollisions == {}
    ensures r.successTermination ==>
              && r.failures == {}
              && (exists p :: p in pairs && lookup(p.0, p.1).terminating)
              && required <= counted + PairSet(pairs)
  {
    TerminatingMembership(lookup, pairs);
    var failures := Failures(lookup, pairs);
    CollisionConstraintsCheck(
      failures, {},
      TerminatingPresent(lookup, pairs) && failures == {} && required <= counted + PairSet(pairs))
  }

  /** `checkCollisionConstraints`: classify every contact of a step, registering
      each one with the counter. */
  method CheckCollisionConstraints(collisions: seq<Pair>, types: CollisionTypes, counter: RequiredCollisionsCounter)
    returns (check: CollisionConstraintsCheck)
    modifies counter
    ensures counter.counted == old(counter.counted) + PairSet(collisions)
    ensures check == Classify(types.lookup, counter.required, old(counter.counted), collisions)
    ensures check.successTermination <==>
              TerminatingPresent(types.lookup, collisions) && check.failures == {} && counter.AllRequiredPresent()
  {
    check := FreshCheck;
    var terminatingCollisionPresent := false;
    for i := 0 to |collisions|
      invariant check == CollisionConstraintsCheck(Failures(types.lookup, collisions[..i]), {}, false)
      invariant terminatingCollisionPresent == TerminatingPresent(types.lookup, collisions[..i])
      invariant counter.counted == old(counter.counted) + PairSet(collisions[..i])
    {
      var shapes := collisions[i];
      assert collisions[..i + 1][..i] == collisions[..i];
      var collisionType := types.lookup(shapes.0, shapes.1);
      if !IsSensorized(shapes.0) && !collisionType.ignored {
        check := check.(failures := check.failures + {UnsensorizedCollision});
      }
      counter.CountCollision(shapes.0, shapes.1);
      if collisionType.prohibited {
        check := check.(failures := check.failures + {UnacceptableCollision});
      }
      if collisionType.terminating {
        terminatingCollisionPresent := true;
      }
      assert PairSet(collisions[..i + 1]) == PairSet(collisions[..i]) + {shapes};
    }
    assert collisions[..|collisions|] == collisions;
    if terminatingCollisionPresent && check.failures == {} && counter.AllRequiredPresent() {
      check := check.(successTermination := true);
    }
  }

  /** A failure is in the set exactly when some pair causes it: an unsensorized first
      part in a pair that is not ignored, or a prohibited pair. */
  lemma {:induction false} FailuresMembership(lookup: (PartName, PartName) -> CollisionType, pairs: seq<Pair>)
    ensures UnsensorizedCollision in Failures(lookup, pairs) <==>
              exists p :: p in pairs && !IsSensorized(p.0) && !lookup(p.0, p.1).ignored
    ensures UnacceptableCollision in Failures(lookup, pairs) <==>
              exists p :: p in pairs && lookup(p.0, p.1).prohibited
  {
    if pairs != [] {
      var init := pairs[..|pairs| - 1];
      FailuresMembership(lookup, init);
      assert pairs == init + [pairs[|pairs| - 1]];
    }
  }

  /** The terminating flag is set exactly when some pair is terminating. */
  lemma {:induction false} TerminatingMembership(lookup: (PartName, PartName) -> CollisionType, pairs: seq<Pair>)
    ensures TerminatingPresent(lookup, pairs) <==> exists p :: p in pairs && lookup(p.0, p.1).terminating
  {
    if pairs != [] {
      var init := pairs[..|pairs| - 1];
      TerminatingMembership(lookup, init);
      assert pairs == init + [pairs[|pairs| - 1]];
    }
  }

  /** Permuting the pairs of a step changes neither the failure set nor the
      successful-termination verdict nor what the counter sees. */
  lemma ClassifyPermutation(lookup: (PartName, PartName) -> CollisionType, required: set<Pair>, counted: set<Pair>,
                            pairs: seq<Pair>, permuted: seq<Pair>)
    requires multiset(pairs) == multiset(permuted)
    ensures Classify(lookup, required, counted, pairs) == Classify(lookup, required, counted, permuted)
    ensures PairSet(pairs) == PairSet(permuted)
  {
    assert forall p :: p in pairs <==> p in permuted by {
      forall p ensures p in pairs <==> p in permuted {
        assert p in pairs <==> p in multiset(pairs);
        assert p in permuted <==> p in multiset(permuted);
      }
    }
    FailuresMembership(lookup, pairs);
    FailuresMembership(lookup, permuted);
    TerminatingMembership(lookup, pairs);
    TerminatingMembership(lookup, permuted);
    var f, g := Failures(lookup, pairs), Failures(lookup, permuted);
    assert f == g by {
      assert forall o :: o in f ==> o == UnsensorizedCollision || o == UnacceptableCollision;
      assert forall o :: o in g ==> o == UnsensorizedCollision || o == UnacceptableCollision;
    }
  }

  /** An ignored pair never adds `UNSENSORIZED_COLLISION`, even with an unsensorized
      part: adding it to a step adds at most `UNACCEPTABLE_COLLISION`. */
  lemma IgnoredPairAddsNoUnsensorized(lookup: (PartName, PartName) -> CollisionType, pairs: seq<Pair>, p: Pair)
    requires lookup(p.0, p.1).ignored
    ensures Failures(lookup, pairs + [p]) ==
              Failures(lookup, pairs) + (if lookup(p.0, p.1).prohibited then {UnacceptableCollision} else {})
  {
    assert (pairs + [p])[..|pairs|] == pairs;
  }

  /** A prohibited pair always fails the step, whatever else the step contains:
      it is never a successful termination, even alongside a terminating pair. */
  lemma ProhibitedPairFails(lookup: (PartName, PartName) -> CollisionType, required: set<Pair>, counted: set<Pair>,
                            pairs: seq<Pair>, i: nat)
    requires i < |pairs| && lookup(pairs[i].0, pairs[i].1).prohibited
    ensures UnacceptableCollision in Classify(lookup, required, counted, pairs).failures
    ensures !Classify(lookup, required, counted, pairs).successTermination
  {
    FailuresMembership(lookup, pairs);
  }

  /** The documented policy: a step terminates successfully exactly when some pair
      is terminating, no pair fails, and every required pair has been seen during
      the run, counting this step's pairs. */
  lemma ClassifySuccess(lookup: (PartName, PartName) -> CollisionType, required: set<Pair>, counted: set<Pair>, pairs: seq<Pair>)
    ensures Classify(lookup, required, counted, pairs).successTermination <==>
              && (exists p :: p in pairs && lookup(p.0, p.1).terminating)
              && (forall p :: p in pairs ==> !lookup(p.0, p.1).prohibited && (IsSensorized(p.0) || lookup(p.0, p.1).ignored))
              && required <= counted + PairSet(pairs)
    ensures Classify(lookup, required, counted, pairs).successTermination ==> Classify(lookup, required, counted, pairs).failures == {}
  {
    FailuresMembership(lookup, pairs);
    TerminatingMembership(lookup, pairs);
    var f := Failures(lookup, pairs);
    assert f == {} <==> (UnsensorizedCollision !in f && UnacceptableCollision !in f);
  }

  /** With no contacts, the classifier returns the fresh check. */
  lemma ClassifyNoContacts(lookup: (PartName, PartName) -> CollisionType, required: set<Pair>, counted: set<Pair>)
    ensures Classify(lookup, required, counted, []) == FreshCheck
  {
  }
}
