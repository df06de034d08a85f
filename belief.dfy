/**
  The two-phase belief controller (`moveBelief`): a single particle is first
  moved without noise; only if that run succeeds is the motion repeated with
  every particle of the belief, each particle getting its own result.
 */
module BeliefController {
  import opened Wrappers
  import opened Outcomes
  import opened Collisions
  import opened Controller

  /** What one single-particle run observes: its starting belief and one
      observation per step. */
  datatype ParticleRun = ParticleRun(initialBelief: seq<Config>, steps: seq<StepObservation>)

  /** The run observes at least as many steps as the budget allows. */
  predicate Observed(run: ParticleRun, maximumSteps: nat) {
    maximumSteps <= |run.steps|
  }

  /** The result `go` computes for one particle run. */
  function RunParticle(types: CollisionTypes, dof: nat, configMean: seq<Config> -> Config,
                       run: ParticleRun, maximumSteps: nat): (r: Result)
    requires Observed(run, maximumSteps)
    ensures WellFormedOutcomes(r.outcomes)
  {
    Run(types, dof, configMean, run.initialBelief, run.steps, maximumSteps)
  }

  /** `moveBelief`: phase 1 runs the no-noise test; phase 2, which happens only
      when phase 1 succeeded, runs each of the `settings.numberOfParticles`
      particles and keeps one result per particle. */
  function MoveBelief(types: CollisionTypes, dof: nat, configMean: seq<Config> -> Config, settings: Settings,
                      maximumSteps: nat, noNoise: ParticleRun, particles: seq<ParticleRun>): (b: BeliefResult)
    requires Observed(noNoise, maximumSteps)
    requires |particles| == settings.numberOfParticles
    requires forall i :: 0 <= i < |particles| ==> Observed(particles[i], maximumSteps)
    ensures b.Complete()
    ensures b.noNoiseTestResult == RunParticle(types, dof, configMean, noNoise, maximumSteps)
    ensures b.particleResults.Some? <==> b.noNoiseTestResult.Success()
    ensures b.particleResults.Some? ==>
              && |b.particleResults.value| == settings.numberOfParticles
              && forall i :: 0 <= i < |particles| ==>
                   b.particleResults.value[i] == RunParticle(types, dof, configMean, particles[i], maximumSteps)
  {
    var first := RunParticle(types, dof, configMean, noNoise, maximumSteps);
    if !first.Success() then
      BeliefResult(first, None)
    else
      BeliefResult(first, Some(seq(|particles|, i requires 0 <= i < |particles| =>
                                     RunParticle(types, dof, configMean, particles[i], maximumSteps))))
  }

  /** The belief controller succeeds exactly when the no-noise test succeeds and
      so does every particle's run. */
  lemma BeliefSuccessIff(types: CollisionTypes, dof: nat, configMean: seq<Config> -> Config, settings: Settings,
                         maximumSteps: nat, noNoise: ParticleRun, particles: seq<ParticleRun>)
    requires Observed(noNoise, maximumSteps)
    requires |particles| == settings.numberOfParticles
    requires forall i :: 0 <= i < |particles| ==> Observed(particles[i], maximumSteps)
    ensures MoveBelief(types, dof, configMean, settings, maximumSteps, noNoise, particles).Success()
            <==> && RunParticle(types, dof, configMean, noNoise, maximumSteps).Success()
                 && forall i :: 0 <= i < |particles| ==>
                      RunParticle(types, dof, configMean, particles[i], maximumSteps).Success()
  {
    var b := MoveBelief(types, dof, configMean, settings, maximumSteps, noNoise, particles);
    if RunParticle(types, dof, configMean, noNoise, maximumSteps).Success() {
      assert b.particleResults.Some?;
      forall i | 0 <= i < |particles|
        ensures b.particleResults.value[i] == RunParticle(types, dof, configMean, particles[i], maximumSteps)
      {
      }
    }
  }

  /** A failed no-noise test leaves the particle results absent and the whole
      belief result a failure; none of the particle runs is considered. */
  lemma FailedTestSkipsParticles(types: CollisionTypes, dof: nat, configMean: seq<Config> -> Config, settings: Settings,
                                 maximumSteps: nat, noNoise: ParticleRun, particles: seq<ParticleRun>,
                                 otherParticles: seq<ParticleRun>)
    requires Observed(noNoise, maximumSteps)
    requires |particles| == settings.numberOfParticles && |otherParticles| == settings.numberOfParticles
    requires forall i :: 0 <= i < |particles| ==> Observed(particles[i], maximumSteps)
    requires forall i :: 0 <= i < |otherParticles| ==> Observed(otherParticles[i], maximumSteps)
    requires !RunParticle(types, dof, configMean, noNoise, maximumSteps).Success()
    ensures var b := MoveBelief(types, dof, configMean, settings, maximumSteps, noNoise, particles);
            && b.particleResults.None?
            && !b.Success()
            && b == MoveBelief(types, dof, configMean, settings, maximumSteps, noNoise, otherParticles)
  {
  }
}
