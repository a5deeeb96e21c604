/** The production wiring of the controller: what preparation produces is what the deployment demands of it. */
module Production {
  import opened Basics
  import opened Domain
  import opened Contract
  import opened Address
  import opened S3
  import opened Protocol
  import opened Preparation
  import opened PreparationCorrectness
  import opened EndToEnd
  import opened Controller

  ghost predicate SoundScript(script: nat -> Choice) {
    forall n: nat :: SoundPorts(script(n).ports)
  }

  /**
    With ports that answer as the handoff validator and the source resolver do, the
    controller's one demand on its wiring is met, so all that is proved of its runs
    holds in production.
  */
  lemma DeploymentIsSupplied(p: Platform, c: S3Config, allowed: set<int>, script: nat -> Choice)
    requires SoundScript(script)
    ensures Supplies(Deployment(p, c, allowed), script)
  {
    forall n: nat, i: int, project: int | PositiveSafeInteger(i) && Judge(i, project, script(n).ports).Prepared?
      ensures var id := Judge(i, project, script(n).ports).execution.identity;
              Deployment(p, c, allowed).prepares(id) && id.briefRevision > 0
    {
      PreparedIsRecoverable(i, project, script(n).ports);
    }
  }
}
