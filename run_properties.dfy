/**
  What a run of the step loop promises, proved about its specification `Run`:
  the run goes on through every step that `Continues`, stops at the first step
  that does not, and that step alone decides the outcome set.
 */
module RunProperties {
  import opened Outcomes
  import opened Collisions
  import opened Controller

  /** The trajectory after `k` steps starts with the initial mean and holds the
      mean of each completed step's belief, in order. */
  lemma {:induction false} TrajectoryEntries(configMean: seq<Config> -> Config, initialBelief: seq<Config>,
                                             steps: seq<StepObservation>, k: nat)
    requires k <= |steps|
    ensures var t := TrajectoryAfter(configMean, initialBelief, steps, k);
            && t[0] == configMean(initialBelief)
            && forall j :: 0 < j <= k ==> t[j] == configMean(NextBelief(steps[j - 1].particles))
  {
    if k > 0 {
      TrajectoryEntries(configMean, initialBelief, steps, k - 1);
    }
  }

  /** The stopping step is reached, and unless it is the budget it does not let
      the run go on. */
  lemma {:induction false} StopFromIsFirst(types: CollisionTypes, dof: nat, steps: seq<StepObservation>,
                                           maximumSteps: nat, i: nat)
    requires i <= maximumSteps <= |steps|
    requires Reaches(types, dof, steps, i)
    ensures var k := StopFrom(types, dof, steps, maximumSteps, i);
            && Reaches(types, dof, steps, k)
            && (k < maximumSteps ==> !ContinuesAt(types, dof, steps, k))
    decreases maximumSteps - i
  {
    if i < maximumSteps && ContinuesAt(types, dof, steps, i) {
      ReachesNext(types, dof, steps, i);
      StopFromIsFirst(types, dof, steps, maximumSteps, i + 1);
    }
  }

  /** `k` is the stopping step exactly when the run reaches it and it is the budget
      or a step that does not let the run go on. */
  lemma StopIndexIff(types: CollisionTypes, dof: nat, steps: seq<StepObservation>, maximumSteps: nat, k: nat)
    requires k <= maximumSteps <= |steps|
    ensures StopIndex(types, dof, steps, maximumSteps) == k
            <==> Reaches(types, dof, steps, k) && (k == maximumSteps || !ContinuesAt(types, dof, steps, k))
  {
    StopFromIsFirst(types, dof, steps, maximumSteps, 0);
    if Reaches(types, dof, steps, k) && (k == maximumSteps || !ContinuesAt(types, dof, steps, k)) {
      StopFromAt(types, dof, steps, maximumSteps, 0, k);
    }
  }

  /** `STEPS_LIMIT` is an outcome exactly when every step of the budget let the run
      go on, and then it is the only outcome and the trajectory has
      `maximumSteps + 1` entries. */
  lemma StepsLimitIffBudgetExhausted(types: CollisionTypes, dof: nat, configMean: seq<Config> -> Config,
                                     initialBelief: seq<Config>, steps: seq<StepObservation>, maximumSteps: nat)
    requires maximumSteps <= |steps|
    ensures var r := Run(types, dof, configMean, initialBelief, steps, maximumSteps);
            && (StepsLimit in r.outcomes <==> Reaches(types, dof, steps, maximumSteps))
            && (StepsLimit in r.outcomes ==> r.outcomes == {StepsLimit} && |r.meanTrajectory| == maximumSteps + 1)
  {
    var k := StopIndex(types, dof, steps, maximumSteps);
    StopFromIsFirst(types, dof, steps, maximumSteps, 0);
    if k < maximumSteps {
      assert !Reaches(types, dof, steps, maximumSteps);
    } else {
      BudgetExhausted(types, dof, configMean, initialBelief, steps, maximumSteps);
    }
  }

  /** A moving step records only joint limits, singularities and the two collision
      failures. */
  lemma StepOutcomesKinds(types: CollisionTypes, dof: nat, counted: set<Pair>, s: StepObservation)
    ensures StepOutcomes(types, dof, counted, s) <= {JointLimit, Singularity, UnsensorizedCollision, UnacceptableCollision}
  {
  }

  /** `ACCEPTABLE_COLLISION` is returned only from a moving step that recorded no
      outcome at all and whose classifier reported a successful termination; it is
      then the only outcome. */
  lemma AcceptableOnlyOnCleanStep(types: CollisionTypes, dof: nat, configMean: seq<Config> -> Config,
                                  initialBelief: seq<Config>, steps: seq<StepObservation>, maximumSteps: nat)
    requires maximumSteps <= |steps|
    requires AcceptableCollision in Run(types, dof, configMean, initialBelief, steps, maximumSteps).outcomes
    ensures var k := StopIndex(types, dof, steps, maximumSteps);
            && k < maximumSteps && Reaches(types, dof, steps, k) && !steps[k].qdotZero
            && StepOutcomes(types, dof, CountedBefore(steps, k), steps[k]) == {}
            && StepCheck(types, CountedBefore(steps, k), steps[k]).successTermination
            && Run(types, dof, configMean, initialBelief, steps, maximumSteps).outcomes == {AcceptableCollision}
  {
    StopFromIsFirst(types, dof, steps, maximumSteps, 0);
  }

  /** `REACHED` is returned only when a reached step has a zero velocity command
      and every required pair has been seen before it. */
  lemma ReachedOnlyOnArrival(types: CollisionTypes, dof: nat, configMean: seq<Config> -> Config,
                             initialBelief: seq<Config>, steps: seq<StepObservation>, maximumSteps: nat)
    requires maximumSteps <= |steps|
    requires Reached in Run(types, dof, configMean, initialBelief, steps, maximumSteps).outcomes
    ensures var k := StopIndex(types, dof, steps, maximumSteps);
            && k < maximumSteps && Reaches(types, dof, steps, k) && steps[k].qdotZero
            && types.required <= CountedBefore(steps, k)
  {
    StopFromIsFirst(types, dof, steps, maximumSteps, 0);
  }

  /** Whatever the observations, a run never ends with an empty outcome set, and
      it succeeds exactly when it ends with a positive outcome. */
  lemma RunOutcomesNeverEmpty(types: CollisionTypes, dof: nat, configMean: seq<Config> -> Config,
                              initialBelief: seq<Config>, steps: seq<StepObservation>, maximumSteps: nat)
    requires maximumSteps <= |steps|
    ensures var r := Run(types, dof, configMean, initialBelief, steps, maximumSteps);
            && r.outcomes != {}
            && (r.Success() <==> (r.outcomes == {Reached} || r.outcomes == {AcceptableCollision}))
  {
  }

  /** Each outcome a moving step can record is there exactly when some particle or
      some contact of the step causes it. */
  lemma StepOutcomesMembership(types: CollisionTypes, dof: nat, counted: set<Pair>, s: StepObservation)
    ensures var r := StepOutcomes(types, dof, counted, s);
            && (JointLimit in r <==> exists p :: p in s.particles && !p.valid)
            && (Singularity in r <==> exists p :: p in s.particles && IsSingular(dof, p.manipulability))
            && (UnacceptableCollision in r <==>
                  exists c :: c in StepContacts(s.particles) && types.lookup(c.0, c.1).prohibited)
            && (UnsensorizedCollision in r <==>
                  exists c :: c in StepContacts(s.particles) && !IsSensorized(c.0) && !types.lookup(c.0, c.1).ignored)
  {
    ParticlesOutcomesMembership(dof, s.particles);
    FailuresMembership(types.lookup, StepContacts(s.particles));
  }

  /** A reached moving step with an invalid or a singular particle ends the run,
      and the run's outcome set holds `JOINT_LIMIT` or `SINGULARITY` accordingly. */
  lemma ParticleFailureEndsRun(types: CollisionTypes, dof: nat, configMean: seq<Config> -> Config,
                               initialBelief: seq<Config>, steps: seq<StepObservation>, maximumSteps: nat, k: nat, i: nat)
    requires k < maximumSteps <= |steps|
    requires Reaches(types, dof, steps, k) && !steps[k].qdotZero
    requires i < |steps[k].particles|
    requires !steps[k].particles[i].valid || IsSingular(dof, steps[k].particles[i].manipulability)
    ensures var r := Run(types, dof, configMean, initialBelief, steps, maximumSteps);
            && r.outcomes == StepOutcomes(types, dof, CountedBefore(steps, k), steps[k])
            && (!steps[k].particles[i].valid ==> JointLimit in r.outcomes)
            && (IsSingular(dof, steps[k].particles[i].manipulability) ==> Singularity in r.outcomes)
  {
    var p := steps[k].particles[i];
    assert p in steps[k].particles;
    StepOutcomesMembership(types, dof, CountedBefore(steps, k), steps[k]);
    FailingStepStops(types, dof, configMean, initialBelief, steps, maximumSteps, k);
  }

  /** A terminating contact does not end the run while a required pair is still
      unseen: with nothing recorded, the step lets the run go on to the next one. */
  lemma TerminatingWithMissingRequiredGoesOn(types: CollisionTypes, dof: nat, steps: seq<StepObservation>, k: nat)
    requires k < |steps| && !steps[k].qdotZero
    requires StepOutcomes(types, dof, CountedBefore(steps, k), steps[k]) == {}
    requires exists c :: c in StepContacts(steps[k].particles) && types.lookup(c.0, c.1).terminating
    requires !(types.required <= CountedBefore(steps, k) + PairSet(StepContacts(steps[k].particles)))
    ensures !StepCheck(types, CountedBefore(steps, k), steps[k]).successTermination
    ensures ContinuesAt(types, dof, steps, k)
    ensures Reaches(types, dof, steps, k) ==> Reaches(types, dof, steps, k + 1)
  {
    if Reaches(types, dof, steps, k) {
      ReachesNext(types, dof, steps, k);
    }
  }
}
