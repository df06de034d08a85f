/**
  The step/termination loop of the Jacobian controller (`go`), with the
  kinematics, the noise sampling and the collision detector replaced by one
  observation per step, and the pure specification `Run` that `Go` is proved
  against. Also the run settings and the step budget.
 */
module Controller {
  import opened Outcomes
  import opened Collisions

  /** Particle count and noise settings of a run. */
  datatype Settings = Settings(jointsStdError: seq<real>, initialStdError: seq<real>, delta: real, numberOfParticles: nat)

  predicate IsZero(v: seq<real>) {
    forall i :: 0 <= i < |v| ==> v[i] == 0.0
  }

  /** Settings under which a run samples nothing: one particle, and zero initial
      and motion error for each of the `dof` joints. */
  predicate IsDeterministic(s: Settings, dof: nat) {
    && |s.jointsStdError| == dof && IsZero(s.jointsStdError)
    && |s.initialStdError| == dof && IsZero(s.initialStdError)
    && s.numberOfParticles == 1
  }

  /** `Settings::NoUncertainty`. */
  function NoUncertainty(dof: nat, delta: real): (s: Settings)
    ensures IsDeterministic(s, dof)
    ensures s.delta == delta
  {
    Settings(seq(dof, _ => 0.0), seq(dof, _ => 0.0), delta, 1)
  }

  /** The distance the controller may travel in one run. */
  const MaximumTravel: real := 10.0

  /** `maximum_steps = size_t(10 / delta_)`: the number of steps of length `delta`
      that fit in the maximum travel, rounded down. */
  function MaximumSteps(delta: real): (n: nat)
    requires delta > 0.0
    ensures n as real * delta <= MaximumTravel < (n + 1) as real * delta
  {
    var q := MaximumTravel / delta;
    assert q * delta == MaximumTravel;
    var n := q.Floor;
    assert n as real <= q < n as real + 1.0;
    assert n as real * delta <= q * delta;
    assert q * delta < (n as real + 1.0) * delta;
    n
  }

  /** What the kinematics and the collision detector report for one particle in
      one step: its proposed next configuration, whether that configuration is
      within the joint limits, the manipulability there, and the contacts there. */
  datatype ParticleStep = ParticleStep(config: Config, valid: bool, manipulability: real, contacts: seq<Pair>)

  /** What one step observes: whether the velocity command is zero, and one
      `ParticleStep` per particle of the current belief. */
  datatype StepObservation = StepObservation(qdotZero: bool, particles: seq<ParticleStep>)

  const ManipulabilityThreshold: real := 0.001

  /** A configuration is singular when the chain has more than three joints and
      the manipulability there is below the threshold. */
  predicate IsSingular(dof: nat, manipulability: real) {
    dof > 3 && manipulability < ManipulabilityThreshold
  }

  /** The outcomes one particle adds in a step. */
  function ParticleOutcomes(dof: nat, p: ParticleStep): (r: set<Outcome>)
    ensures JointLimit in r <==> !p.valid
    ensures Singularity in r <==> IsSingular(dof, p.manipulability)
    ensures r <= {JointLimit, Singularity}
  {
    (if !p.valid then {JointLimit} else {}) + (if IsSingular(dof, p.manipulability) then {Singularity} else {})
  }

  /** The outcomes the particle loop of a step accumulates, in particle order. */
  function ParticlesOutcomes(dof: nat, ps: seq<ParticleStep>): (r: set<Outcome>)
    ensures r <= {JointLimit, Singularity}
  {
    if ps == [] then {} else ParticlesOutcomes(dof, ps[..|ps| - 1]) + ParticleOutcomes(dof, ps[|ps| - 1])
  }

  /** A joint limit is recorded exactly when some particle is invalid, and a
      singularity exactly when some particle is singular. */
  lemma {:induction false} ParticlesOutcomesMembership(dof: nat, ps: seq<ParticleStep>)
    ensures JointLimit in ParticlesOutcomes(dof, ps) <==> exists p :: p in ps && !p.valid
    ensures Singularity in ParticlesOutcomes(dof, ps) <==> exists p :: p in ps && IsSingular(dof, p.manipulability)
  {
    if ps != [] {
      var init := ps[..|ps| - 1];
      ParticlesOutcomesMembership(dof, init);
      assert ps == init + [ps[|ps| - 1]];
    }
  }

  /** All contacts of a step, particle after particle: a pair is a contact of the
      step exactly when it is a contact of one of its particles. */
  function StepContacts(ps: seq<ParticleStep>): (r: seq<Pair>)
    ensures forall c :: c in r <==> exists j :: 0 <= j < |ps| && c in ps[j].contacts
  {
    if ps == [] then [] else StepContacts(ps[..|ps| - 1]) + ps[|ps| - 1].contacts
  }

  /** The configurations of the next belief, one per particle. */
  function NextBelief(ps: seq<ParticleStep>): (b: seq<Config>)
    ensures |b| == |ps| && forall j :: 0 <= j < |ps| ==> b[j] == ps[j].config
  {
    if ps == [] then [] else NextBelief(ps[..|ps| - 1]) + [ps[|ps| - 1].config]
  }

  /** The classifier's verdict on a moving step, given the pairs seen before it. */
  function StepCheck(types: CollisionTypes, counted: set<Pair>, s: StepObservation): CollisionConstraintsCheck {
    Classify(types.lookup, types.required, counted, StepContacts(s.particles))
  }

  /** The outcome set a moving step accumulates: joint limits and singularities of
      all particles, then the classifier's failures. */
  function StepOutcomes(types: CollisionTypes, dof: nat, counted: set<Pair>, s: StepObservation): (r: set<Outcome>)
    ensures forall o :: o in r ==> !IsPositive(o)
    ensures StepsLimit !in r && MissedRequiredCollisions !in r
  {
    ParticlesOutcomes(dof, s.particles) + StepCheck(types, counted, s).failures
  }

  /** A step after which the run goes on: the velocity command is not zero, the
      step adds no outcome, and it is not a successful terminating contact. */
  predicate Continues(types: CollisionTypes, dof: nat, counted: set<Pair>, s: StepObservation) {
    && !s.qdotZero
    && StepOutcomes(types, dof, counted, s) == {}
    && !StepCheck(types, counted, s).successTermination
  }

  /** The pairs the counter has seen before step `k`. */
  function CountedBefore(steps: seq<StepObservation>, k: nat): set<Pair>
    requires k <= |steps|
  {
    if k == 0 then {} else CountedBefore(steps, k - 1) + PairSet(StepContacts(steps[k - 1].particles))
  }

  /** The mean trajectory after `k` completed steps: the initial mean, then the
      mean of each step's next belief. */
  function TrajectoryAfter(configMean: seq<Config> -> Config, initialBelief: seq<Config>,
                           steps: seq<StepObservation>, k: nat): (t: seq<Config>)
    requires k <= |steps|
    ensures |t| == k + 1
  {
    if k == 0 then [configMean(initialBelief)]
    else TrajectoryAfter(configMean, initialBelief, steps, k - 1) + [configMean(NextBelief(steps[k - 1].particles))]
  }

  /** The final belief after `k` completed steps; before any step it is the empty
      default belief. */
  function BeliefAfter(steps: seq<StepObservation>, k: nat): seq<Config>
    requires k <= |steps|
  {
    if k == 0 then [] else NextBelief(steps[k - 1].particles)
  }

  /** Step `j` lets the run go on, given the pairs seen before it. */
  predicate ContinuesAt(types: CollisionTypes, dof: nat, steps: seq<StepObservation>, j: nat)
    requires j < |steps|
  {
    Continues(types, dof, CountedBefore(steps, j), steps[j])
  }

  /** Every step before `k` lets the run go on, so the run gets to step `k`. */
  predicate Reaches(types: CollisionTypes, dof: nat, steps: seq<StepObservation>, k: nat)
    requires k <= |steps|
  {
    forall j {:trigger ContinuesAt(types, dof, steps, j)} :: 0 <= j < k ==> ContinuesAt(types, dof, steps, j)
  }

  /** The first step, from `i` on, that does not let the run go on, or the budget. */
  function StopFrom(types: CollisionTypes, dof: nat, steps: seq<StepObservation>, maximumSteps: nat, i: nat): (k: nat)
    requires i <= maximumSteps <= |steps|
    ensures i <= k <= maximumSteps
    decreases maximumSteps - i
  {
    if i == maximumSteps || !ContinuesAt(types, dof, steps, i) then i
    else StopFrom(types, dof, steps, maximumSteps, i + 1)
  }

  /** The step at which the run stops; the budget if every step lets it go on. */
  function StopIndex(types: CollisionTypes, dof: nat, steps: seq<StepObservation>, maximumSteps: nat): (k: nat)
    requires maximumSteps <= |steps|
    ensures k <= maximumSteps
  {
    StopFrom(types, dof, steps, maximumSteps, 0)
  }

  /** The result of a run, decided by its stopping step `k`: with the budget used
      up, `STEPS_LIMIT`; at a zero velocity command, `REACHED` or
      `MISSED_REQUIRED_COLLISIONS` by the counter; otherwise step `k` is completed
      and ends the run with the outcomes it recorded, or, having recorded none,
      with `ACCEPTABLE_COLLISION`. */
  function Run(types: CollisionTypes, dof: nat, configMean: seq<Config> -> Config, initialBelief: seq<Config>,
               steps: seq<StepObservation>, maximumSteps: nat): (r: Result)
    requires maximumSteps <= |steps|
    ensures WellFormedOutcomes(r.outcomes)
    ensures StepsLimit in r.outcomes <==> StopIndex(types, dof, steps, maximumSteps) == maximumSteps
  {
    var k := StopIndex(types, dof, steps, maximumSteps);
    var counted := CountedBefore(steps, k);
    if k == maximumSteps then
      Result(TrajectoryAfter(configMean, initialBelief, steps, k), BeliefAfter(steps, k), {StepsLimit})
    else if steps[k].qdotZero then
      Result(TrajectoryAfter(configMean, initialBelief, steps, k), BeliefAfter(steps, k),
             {if types.required <= counted then Reached else MissedRequiredCollisions})
    else
      var outcomes := StepOutcomes(types, dof, counted, steps[k]);
      Result(TrajectoryAfter(configMean, initialBelief, steps, k + 1), BeliefAfter(steps, k + 1),
             if outcomes != {} then outcomes else {AcceptableCollision})
  }

  /** A run that reaches step `k` and cannot go on past it stops there. */
  lemma {:induction false} StopFromAt(types: CollisionTypes, dof: nat, steps: seq<StepObservation>,
                                      maximumSteps: nat, i: nat, k: nat)
    requires i <= k <= maximumSteps <= |steps|
    requires Reaches(types, dof, steps, k)
    requires k == maximumSteps || !ContinuesAt(types, dof, steps, k)
    ensures StopFrom(types, dof, steps, maximumSteps, i) == k
    decreases k - i
  {
    if i < k {
      assert ContinuesAt(types, dof, steps, i);
      StopFromAt(types, dof, steps, maximumSteps, i + 1, k);
    }
  }

  /** A reached step that lets the run go on makes the run reach the next step. */
  lemma ReachesNext(types: CollisionTypes, dof: nat, steps: seq<StepObservation>, i: nat)
    requires i < |steps| && Reaches(types, dof, steps, i) && ContinuesAt(types, dof, steps, i)
    ensures Reaches(types, dof, steps, i + 1)
  {
  }

  /** A zero velocity command at a reached step stops the run there, before any
      propagation: `REACHED` if every required pair has been seen, and
      `MISSED_REQUIRED_COLLISIONS` otherwise. */
  lemma ZeroVelocityStops(types: CollisionTypes, dof: nat, configMean: seq<Config> -> Config,
                          initialBelief: seq<Config>, steps: seq<StepObservation>, maximumSteps: nat, k: nat)
    requires k < maximumSteps <= |steps|
    requires Reaches(types, dof, steps, k) && steps[k].qdotZero
    ensures Run(types, dof, configMean, initialBelief, steps, maximumSteps)
            == Result(TrajectoryAfter(configMean, initialBelief, steps, k), BeliefAfter(steps, k),
                      {if types.required <= CountedBefore(steps, k) then Reached else MissedRequiredCollisions})
    ensures |Run(types, dof, configMean, initialBelief, steps, maximumSteps).meanTrajectory| == k + 1
  {
    StopFromAt(types, dof, steps, maximumSteps, 0, k);
  }

  /** A moving reached step that records any joint limit, singularity or classifier
      failure ends the run with exactly that set, after adding its mean to the
      trajectory. */
  lemma FailingStepStops(types: CollisionTypes, dof: nat, configMean: seq<Config> -> Config,
                         initialBelief: seq<Config>, steps: seq<StepObservation>, maximumSteps: nat, k: nat)
    requires k < maximumSteps <= |steps|
    requires Reaches(types, dof, steps, k) && !steps[k].qdotZero
    requires StepOutcomes(types, dof, CountedBefore(steps, k), steps[k]) != {}
    ensures Run(types, dof, configMean, initialBelief, steps, maximumSteps)
            == Result(TrajectoryAfter(configMean, initialBelief, steps, k + 1), BeliefAfter(steps, k + 1),
                      StepOutcomes(types, dof, CountedBefore(steps, k), steps[k]))
    ensures |Run(types, dof, configMean, initialBelief, steps, maximumSteps).meanTrajectory| == k + 2
  {
    StopFromAt(types, dof, steps, maximumSteps, 0, k);
  }

  /** A moving reached step that records nothing and whose classifier reports a
      successful termination ends the run with `ACCEPTABLE_COLLISION`. */
  lemma TerminatingStepStops(types: CollisionTypes, dof: nat, configMean: seq<Config> -> Config,
                             initialBelief: seq<Config>, steps: seq<StepObservation>, maximumSteps: nat, k: nat)
    requires k < maximumSteps <= |steps|
    requires Reaches(types, dof, steps, k) && !steps[k].qdotZero
    requires StepOutcomes(types, dof, CountedBefore(steps, k), steps[k]) == {}
    requires StepCheck(types, CountedBefore(steps, k), steps[k]).successTermination
    ensures Run(types, dof, configMean, initialBelief, steps, maximumSteps)
            == Result(TrajectoryAfter(configMean, initialBelief, steps, k + 1), BeliefAfter(steps, k + 1),
                      {AcceptableCollision})
    ensures |Run(types, dof, configMean, initialBelief, steps, maximumSteps).meanTrajectory| == k + 2
  {
    StopFromAt(types, dof, steps, maximumSteps, 0, k);
  }

  /** A run in which every step of the budget goes on ends with `{STEPS_LIMIT}`. */
  lemma BudgetExhausted(types: CollisionTypes, dof: nat, configMean: seq<Config> -> Config,
                        initialBelief: seq<Config>, steps: seq<StepObservation>, maximumSteps: nat)
    requires maximumSteps <= |steps|
    requires Reaches(types, dof, steps, maximumSteps)
    ensures Run(types, dof, configMean, initialBelief, steps, maximumSteps)
            == Result(TrajectoryAfter(configMean, initialBelief, steps, maximumSteps), BeliefAfter(steps, maximumSteps),
                      {StepsLimit})
    ensures |Run(types, dof, configMean, initialBelief, steps, maximumSteps).meanTrajectory| == maximumSteps + 1
  {
    StopFromAt(types, dof, steps, maximumSteps, 0, maximumSteps);
  }

  /** Adding outcomes to an empty set gives exactly those outcomes. */
  lemma EmptyUnion(a: set<Outcome>)
    ensures {} + a == a
  {
  }

  /** One moving step of `go`: propagate every particle, add the mean of the next
      belief to the trajectory, classify the step's contacts and add every outcome
      found to the result. */
  method MoveStep(types: CollisionTypes, dof: nat, configMean: seq<Config> -> Config, step: StepObservation,
                  counter: RequiredCollisionsCounter, result: Result)
    returns (next: Result, check: CollisionConstraintsCheck)
    requires counter.required == types.required
    modifies counter
    ensures counter.required == types.required
    ensures counter.counted == old(counter.counted) + PairSet(StepContacts(step.particles))
    ensures check == StepCheck(types, old(counter.counted), step)
    ensures next == Result(result.meanTrajectory + [configMean(NextBelief(step.particles))], NextBelief(step.particles),
                           result.outcomes + StepOutcomes(types, dof, old(counter.counted), step))
  {
    var nextParticles, collisions, particleOutcomes := PropagateParticles(dof, step.particles);
    next := result.(outcomes := result.outcomes + particleOutcomes);
    next := next.(finalBelief := nextParticles, meanTrajectory := next.meanTrajectory + [configMean(nextParticles)]);
    check := CheckCollisionConstraints(collisions, types, counter);
    next := next.(outcomes := next.outcomes + check.failures);
    assert next.outcomes == result.outcomes + StepOutcomes(types, dof, old(counter.counted), step);
  }

  /** The particle loop of one step of `go`: collect every particle's proposed
      configuration, its joint-limit and singularity outcomes, and its contacts. */
  method PropagateParticles(dof: nat, particles: seq<ParticleStep>)
    returns (nextParticles: seq<Config>, collisions: seq<Pair>, outcomes: set<Outcome>)
    ensures nextParticles == NextBelief(particles)
    ensures collisions == StepContacts(particles)
    ensures outcomes == ParticlesOutcomes(dof, particles)
  {
    nextParticles, collisions, outcomes := [], [], {};
    for j := 0 to |particles|
      invariant nextParticles == NextBelief(particles[..j])
      invariant collisions == StepContacts(particles[..j])
      invariant outcomes == ParticlesOutcomes(dof, particles[..j])
    {
      assert particles[..j + 1][..j] == particles[..j];
      var particle := particles[j];
      nextParticles := nextParticles + [particle.config];
      if !particle.valid {
        outcomes := outcomes + {JointLimit};
      }
      if IsSingular(dof, particle.manipulability) {
        outcomes := outcomes + {Singularity};
      }
      collisions := collisions + particle.contacts;
    }
    assert particles[..|particles|] == particles;
  }

  /** `go`: drive the belief step by step until a step stops the run or the budget
      of `MaximumSteps(delta)` steps is used up. `initialBelief` holds the sampled
      initial particles, `configMean` stands for the belief's mean, and `steps[i]`
      is what step `i` observes. The current belief is `result.finalBelief` after
      the first step. */
  method Go(types: CollisionTypes, dof: nat, delta: real, configMean: seq<Config> -> Config,
            initialBelief: seq<Config>, steps: seq<StepObservation>)
    returns (result: Result)
    requires delta > 0.0 && MaximumSteps(delta) <= |steps|
    ensures result == Run(types, dof, configMean, initialBelief, steps, MaximumSteps(delta))
    ensures WellFormedOutcomes(result.outcomes)
  {
    var maximumSteps := MaximumSteps(delta);
    var requiredCounter := new RequiredCollisionsCounter(types.required);
    result := Result([configMean(initialBelief)], [], {});
    for i := 0 to maximumSteps
      invariant requiredCounter.required == types.required
      invariant Reaches(types, dof, steps, i)
      invariant requiredCounter.counted == CountedBefore(steps, i)
      invariant result == Result(TrajectoryAfter(configMean, initialBelief, steps, i), BeliefAfter(steps, i), {})
    {
      var step := steps[i];
      if step.qdotZero {
        ZeroVelocityStops(types, dof, configMean, initialBelief, steps, maximumSteps, i);
        result := result.SetSingleOutcome(
          if requiredCounter.AllRequiredPresent() then Reached else MissedRequiredCollisions);
        return;
      }
      ghost var counted := requiredCounter.counted;
      var check;
      result, check := MoveStep(types, dof, configMean, step, requiredCounter, result);
      assert counted == CountedBefore(steps, i);
      EmptyUnion(StepOutcomes(types, dof, counted, step));
      if result.outcomes != {} {
        FailingStepStops(types, dof, configMean, initialBelief, steps, maximumSteps, i);
        return;
      } else if check.successTermination {
        TerminatingStepStops(types, dof, configMean, initialBelief, steps, maximumSteps, i);
        result := result.SetSingleOutcome(AcceptableCollision);
        return;
      }
      ReachesNext(types, dof, steps, i);
    }
    BudgetExhausted(types, dof, configMean, initialBelief, steps, maximumSteps);
    result := result.SetSingleOutcome(StepsLimit);
  }
}
