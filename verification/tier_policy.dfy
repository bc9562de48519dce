/** The creation quota attached to a user's subscription tier. */
module TierPolicy {

  datatype Tier = Trial | Pro | Enterprise

  /** The number of skills a trial account may create. */
  const TrialQuota: nat := 3

  /** `canCreateSkill`: a trial account may create another skill while it has
      created fewer than three; every other tier is unlimited. */
  function CanCreateSkill(tier: Tier, skillsCreated: int): (allowed: bool)
    ensures tier == Trial ==> (allowed <==> skillsCreated < TrialQuota)
    ensures tier != Trial ==> allowed
  {
    if tier == Trial then skillsCreated < TrialQuota else true
  }

  /** Once a trial account is refused it stays refused: the predicate is
      antitone in the number of skills created. */
  lemma QuotaMonotone(tier: Tier, m: int, n: int)
    requires m <= n
    ensures !CanCreateSkill(tier, m) ==> !CanCreateSkill(tier, n)
    ensures CanCreateSkill(tier, n) ==> CanCreateSkill(tier, m)
  {
  }

  /** The cases the project's unit test pins down. */
  lemma QuotaExamples()
    ensures CanCreateSkill(Trial, 2)
    ensures !CanCreateSkill(Trial, 3)
    ensures CanCreateSkill(Pro, 999)
    ensures CanCreateSkill(Enterprise, 999)
  {
  }
}
