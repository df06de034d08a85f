# Jacobian controller: discrete decision logic

This project models the decision logic of the Jacobian controller, a planner
that drives a belief over robot configurations toward a target pose, one
velocity step per iteration. It covers four parts:

- **The outcome model.** There are eight outcome tags. A result's outcome set is
  either a single positive tag (`REACHED`, `ACCEPTABLE_COLLISION`) or a nonempty
  set of negative tags. `setSingleOutcome` and the success conversion
  (`operator bool`) act on that set. The two-phase `BeliefResult` is modelled too.
- **The collision-policy classifier** `checkCollisionConstraints`. It adds
  `UNSENSORIZED_COLLISION` when a contact's first part is unsensorized and the
  pair is not ignored. It adds `UNACCEPTABLE_COLLISION` for a prohibited pair.
  Every contact is registered with the required-collisions counter. A successful
  termination needs a terminating pair, no failure, and every required pair seen.
- **The step loop `go`** (`Controller.Go`). It is a `for` loop over at most
  `size_t(10 / delta)` steps with four exits: a zero velocity command, a step
  that recorded outcomes, a successful terminating contact, or the
  `STEPS_LIMIT` budget.
- **The two-phase `moveBelief` contract**. First comes a no-noise test run;
  only if it succeeds is every particle run, each with its own result.
  Overall success is the conjunction of all these runs.

The kinematics and the collision detector are outside the model. What they
report becomes a per-step observation (`StepObservation`):

- whether the velocity command is zero;
- for each particle: its next configuration, `isValid`, the manipulability
  measure, and the contact pairs.

The belief mean (`configMean`) is an uninterpreted function argument. The degrees
of freedom (`dof`) are a parameter.

`Go` is an imperative method over a mutable `RequiredCollisionsCounter` object.
It is proved equal to the pure specification `Controller.Run`. `Run` names the
first step that does not let the run go on (`StopIndex`), and that step alone
decides the result. The lemmas in `RunProperties` derive the source's promises
from `Run`.

Source drift:

- The header calls the result struct `SingleResult`, with a `trajectory` field.
  The implementation calls it `Result`, with `mean_trajectory` and
  `final_belief`. The model follows the implementation.
- `moveBelief` appears only in the header, so its model follows the header's
  doc comments.
- `go` takes its step length from the controller's `delta_`, not from
  `settings.delta`. Accordingly, `Controller.Go` takes `delta` as a parameter of
  its own.
- The header's constructor takes a `maximum_steps` argument, but the
  implementation computes the budget from `delta` (src/jacobian_controller.cpp:97).
  The model follows the implementation.
- The header says that a terminating collision terminates the execution and
  leads to success or to failure (src/jacobian_controller.h:140-142). The code
  differs in one case: a terminating pair with no failure while a required pair
  is still unseen. `success_termination` then stays false
  (src/jacobian_controller.cpp:232), the step records no outcome, and neither
  return at src/jacobian_controller.cpp:168-171 fires, so the run goes on. The
  model follows the code, and `RunProperties.TerminatingWithMissingRequiredGoesOn`
  states this case.
- The header says that an ignored collision never results in failure
  (src/jacobian_controller.h:139-140). The code still adds
  `UNACCEPTABLE_COLLISION` for a pair that is both ignored and prohibited
  (src/jacobian_controller.cpp:221-227); ignoring only waives the sensorization
  test. The model follows the code: `Collisions.IgnoredPairAddsNoUnsensorized`
  and `Collisions.ProhibitedPairFails` (which has no condition on `ignored`)
  state both halves.

## Model

| member | source | states |
|---|---|---|
| Outcomes.OutcomeIsClosed | src/jacobian_controller.h:25-35 | every outcome is one of the eight tags, and the eight tags are distinct |
| Outcomes.IsSuccess | src/jacobian_controller.cpp:6-14 | a nonempty outcome set converts to true exactly when it is `{REACHED}` or `{ACCEPTABLE_COLLISION}` |
| Outcomes.Result.Success | src/jacobian_controller.cpp:6-14 | a result converts to true exactly when its outcome set is `{REACHED}` or `{ACCEPTABLE_COLLISION}`; a successful result is well formed |
| Outcomes.BeliefResult.Success | src/jacobian_controller.h:71-74 | a belief result converts to true exactly when the no-noise result is a single positive outcome, the particle results exist, and each of them is a single positive outcome |
| Outcomes.SuccessIffSomePositive | src/jacobian_controller.h:40-49 | for an outcome set of the documented shape, success means some outcome is positive |
| Outcomes.Result.SetSingleOutcome | src/jacobian_controller.cpp:57-64 | afterwards the outcome set is exactly the given outcome; trajectory and belief are untouched |
| Outcomes.SetSingleOutcomeIdempotent | src/jacobian_controller.cpp:57-64 | a second `setSingleOutcome` overrides the first, repeating one changes nothing, and the result is well formed |
| Collisions.RequiredCollisionsCounter.constructor | src/jacobian_controller.cpp:111 | a new counter holds the required pairs and has seen nothing |
| Collisions.RequiredCollisionsCounter.CountCollision | src/jacobian_controller.cpp:224 | the counter gains exactly the given pair |
| Collisions.RequiredCollisionsCounter.AllRequiredPresent | src/jacobian_controller.cpp:124 | true exactly when every required pair is among the counted pairs |
| Collisions.Find | src/jacobian_controller.cpp:253 | the result is the first index at which the pattern occurs, or none when it occurs nowhere |
| Collisions.IsSensorized | src/jacobian_controller.cpp:251-254 | a part is sensorized exactly when "sensor" occurs in its name |
| Collisions.PairFailures | src/jacobian_controller.cpp:218-227 | a pair adds `UNACCEPTABLE_COLLISION` iff it is prohibited, and `UNSENSORIZED_COLLISION` iff its first part is unsensorized and it is not ignored |
| Collisions.Failures | src/jacobian_controller.cpp:216-230 | the classifier's failures are only the two collision outcomes |
| Collisions.Classify | src/jacobian_controller.cpp:209-236 | the verdict's failures are only the two collision outcomes, nothing is put in `seen_required_world_collisions`, and a successful termination has no failures, some terminating pair and every required pair seen |
| Collisions.CheckCollisionConstraints | src/jacobian_controller.cpp:209-236 | the counter gains exactly the step's pairs; the verdict equals `Classify`; success iff a terminating pair, no failures and all required pairs present after counting |
| Collisions.FailuresMembership | src/jacobian_controller.cpp:216-230 | each failure is present exactly when some pair of the step causes it |
| Collisions.TerminatingMembership | src/jacobian_controller.cpp:228-229 | the terminating flag is set exactly when some pair is terminating |
| Collisions.ClassifyPermutation | src/jacobian_controller.cpp:216-233 | reordering the contacts changes neither the verdict nor what the counter sees |
| Collisions.IgnoredPairAddsNoUnsensorized | src/jacobian_controller.cpp:220-227 | an ignored pair never adds `UNSENSORIZED_COLLISION`, even with an unsensorized part; it still adds `UNACCEPTABLE_COLLISION` when it is prohibited |
| Collisions.ProhibitedPairFails | src/jacobian_controller.cpp:226-232 | a prohibited pair, ignored or not, always adds `UNACCEPTABLE_COLLISION` and rules out a successful termination |
| Collisions.ClassifySuccess | src/jacobian_controller.h:140-144 | success termination iff some pair terminates, no pair fails and all required pairs are seen; success implies no failures |
| Collisions.ClassifyNoContacts | src/jacobian_controller.h:127-132 | with no contacts the verdict is the default check: no failures, not a successful termination |
| Controller.NoUncertainty | src/jacobian_controller.cpp:256-265 | one particle, zero initial and motion error for every joint, the given delta |
| Controller.MaximumSteps | src/jacobian_controller.cpp:97 | the budget is the largest number of `delta` steps that fit in a travel of 10 |
| Controller.ParticleOutcomes | src/jacobian_controller.cpp:138-148 | a particle adds `JOINT_LIMIT` iff its configuration is invalid and `SINGULARITY` iff `dof > 3` and manipulability is below 0.001 |
| Controller.ParticlesOutcomes | src/jacobian_controller.cpp:131-155 | the particle loop records only joint limits and singularities |
| Controller.ParticlesOutcomesMembership | src/jacobian_controller.cpp:131-148 | `JOINT_LIMIT` is recorded exactly when some particle is invalid, and `SINGULARITY` exactly when some particle is singular |
| Controller.StepContacts | src/jacobian_controller.cpp:150-154 | a pair is a contact of the step exactly when it is a contact of one of its particles |
| Controller.NextBelief | src/jacobian_controller.cpp:129-137 | the next belief has one configuration per particle, in particle order |
| Controller.StepOutcomes | src/jacobian_controller.cpp:131-166 | a moving step records only negative outcomes |
| Controller.TrajectoryAfter | src/jacobian_controller.cpp:117 | after `k` steps the mean trajectory has `k + 1` entries |
| Controller.Run | src/jacobian_controller.cpp:89-175 | the outcome set is well formed, and `STEPS_LIMIT` is in it exactly when the run stops at the budget |
| Controller.StopFromAt | src/jacobian_controller.cpp:119-172 | a run that reaches a step it cannot go on past stops there |
| Controller.ZeroVelocityStops | src/jacobian_controller.cpp:123-126 | a zero velocity command at a reached step ends the run with `REACHED` if all required pairs were seen, else `MISSED_REQUIRED_COLLISIONS`, adding no trajectory entry |
| Controller.FailingStepStops | src/jacobian_controller.cpp:157-169 | a reached moving step that records outcomes ends the run with exactly that set, after its mean is appended |
| Controller.TerminatingStepStops | src/jacobian_controller.cpp:170-171 | a reached moving step with nothing recorded and a successful termination ends the run with `ACCEPTABLE_COLLISION` |
| Controller.BudgetExhausted | src/jacobian_controller.cpp:174 | a run in which every step goes on ends with `{STEPS_LIMIT}` and `maximumSteps + 1` trajectory entries |
| Controller.MoveStep | src/jacobian_controller.cpp:128-166 | one moving step appends the next belief's mean, sets the final belief, adds the step's outcomes and registers its contacts |
| Controller.PropagateParticles | src/jacobian_controller.cpp:131-155 | the collected configurations, contacts and outcomes are those of every particle |
| Controller.Go | src/jacobian_controller.cpp:89-175 | the result equals `Run` with a budget of `MaximumSteps(delta)`, so it is well formed |
| RunProperties.TrajectoryEntries | src/jacobian_controller.cpp:117-161 | the trajectory starts with the initial mean and then holds each completed step's mean in order |
| RunProperties.StopFromIsFirst | src/jacobian_controller.cpp:119-172 | the stopping step is reached and, unless it is the budget, does not let the run go on |
| RunProperties.StopIndexIff | src/jacobian_controller.cpp:119-172 | `k` is the stopping step iff the run reaches it and it is the budget or a step that stops the run |
| RunProperties.StepsLimitIffBudgetExhausted | src/jacobian_controller.cpp:119-174 | `STEPS_LIMIT` is an outcome iff every budgeted step goes on; it is then the only outcome and the trajectory has `maximumSteps + 1` entries |
| RunProperties.StepOutcomesKinds | src/jacobian_controller.cpp:138-166 | a moving step records only joint limits, singularities and the two collision failures |
| RunProperties.AcceptableOnlyOnCleanStep | src/jacobian_controller.cpp:168-171 | `ACCEPTABLE_COLLISION` comes only from a moving step that recorded nothing and terminated successfully, and is then the only outcome |
| RunProperties.ReachedOnlyOnArrival | src/jacobian_controller.cpp:123-126 | `REACHED` comes only from a zero velocity command after every required pair was seen |
| RunProperties.StepOutcomesMembership | src/jacobian_controller.cpp:131-166 | each of the four outcomes a moving step can record is there exactly when some particle (invalid, singular) or some contact (prohibited, unsensorized and not ignored) causes it |
| RunProperties.ParticleFailureEndsRun | src/jacobian_controller.cpp:138-169 | a reached moving step with an invalid or singular particle ends the run with that step's outcome set, which holds `JOINT_LIMIT` or `SINGULARITY` accordingly |
| RunProperties.TerminatingWithMissingRequiredGoesOn | src/jacobian_controller.cpp:166-171 | a terminating contact with nothing recorded while a required pair is unseen is no successful termination, and the run goes on to the next step |
| RunProperties.RunOutcomesNeverEmpty | src/jacobian_controller.cpp:6-14 | a run never returns an empty outcome set, and succeeds exactly when it returns a single positive outcome |
| BeliefController.MoveBelief | src/jacobian_controller.h:110-123 | particle results exist iff the no-noise test succeeds, and then there is one run result per particle |
| BeliefController.BeliefSuccessIff | src/jacobian_controller.h:71-74 | the belief result succeeds iff the no-noise test and every particle's run succeed |
| BeliefController.FailedTestSkipsParticles | src/jacobian_controller.h:61-63 | after a failed no-noise test the particle results are absent, the belief result fails, and the particle runs do not affect it |

## Left out

- Kinematics, `calculateQDot` and the forward and inverse velocity computations
  (src/jacobian_controller.cpp:177-207) are not modelled. They are floating-point
  library calls; their effect reaches the model only as the zero-velocity flag of
  each step.
- Noise sampling is not modelled: the `sqrt(|qdot|)` scaling, the initial particle
  sampling and the seeding by time (src/jacobian_controller.cpp:77, 101-107, 133-137).
  Each particle's next configuration is an observation.
- `BeliefState::configMean` is an uninterpreted function argument and the belief
  mean is not computed.
- `noisy_model_.isValid`, `getManipulabilityMeasure` and `isColliding` are library
  calls; their answers are observations.
- `getPartName` (src/jacobian_controller.cpp:239-249) is not modelled. It parses a
  pointer out of an address string; contacts are observed already as part-name pairs.
- The Qt signals and the viewer (`emit reset()`, `drawConfiguration`) are not
  modelled. They are display side effects that do not affect any result.
- `Result::description` (src/jacobian_controller.cpp:16-55) is not modelled; it
  only formats text.
- collision_types.h is not part of this model. The counter keeps pairs in the order
  the classifier passes them, and `CollisionType` has no `required` flag;
  required pairs are the set `CollisionTypes.required`.
- Controller.MaximumSteps: does not model the overflow of the `size_t` cast for
  very small `delta`. It uses exact real division rather than floating point.
  It requires `delta > 0.0`: the cast at src/jacobian_controller.cpp:97 is
  undefined for `delta = 0` and for most negative `delta`.
- Controller.Go: requires that at least `MaximumSteps(delta)` step observations
  are supplied, because observations stand in for the kinematics. The source has
  no such requirement.
- BeliefController.MoveBelief: phase 2 replays the no-noise trajectory's
  velocities through the private `moveBelief(belief, q_dots)`, whose definition
  does not appear in jacobian_controller.cpp. Each particle's phase-2 run is therefore an independent run
  over that particle's own observations. The no-noise test is likewise an
  observed run; nothing checks that it starts from the single noise-free
  configuration.
- `seen_required_world_collisions` is kept as a field, but the classifier never
  writes it, so the model leaves it empty.
