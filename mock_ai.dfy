/** The pseudo-AI scoring heuristic of the recruitment demo.

    Three evaluators, one per category (crisis management, sustainability,
    team motivation), each compute
      base  = min(10, floor(experience / 2) + 3)
      noise = a draw in [-2, 2]
      bonus = 1 when some keyword of the category is one of the skills, else 0
      score = max(1, min(10, base + noise + bonus))
    and `EvaluateCandidate` combines the three into one evaluation whose total
    is their sum.  The random draw is an explicit parameter here, so every
    function below is deterministic and total.
 */
module MockAi {

  /** A candidate record as handed to the evaluators (the stored row plus its id). */
  datatype Candidate = Candidate(id: int, name: string, experience: int, skills: seq<string>)

  /** The object `evaluateCandidate` returns, without the free-text notes. */
  datatype Evaluation = Evaluation(
    candidateId: int,
    crisisManagement: int,
    sustainability: int,
    teamMotivation: int,
    totalScore: int)

  /** The three independent noise draws of one `evaluateCandidate` call. */
  datatype Noise = Noise(crisis: int, sustainability: int, motivation: int)

  predicate InNoiseRange(n: int) {
    -2 <= n <= 2
  }

  predicate ValidNoise(noise: Noise) {
    InNoiseRange(noise.crisis) && InNoiseRange(noise.sustainability) && InNoiseRange(noise.motivation)
  }

  const CrisisSkills: seq<string> :=
    ["Crisis Response", "Problem Solving", "Risk Assessment", "Decision Making"]

  const SustainabilitySkills: seq<string> :=
    ["Sustainability", "Environmental", "ISO 14001",
     "Green Technologies", "Circular Economy", "Waste Reduction"]

  const LeadershipSkills: seq<string> :=
    ["Team Leadership", "Team Building", "Team Motivation",
     "Communication", "Leadership Development", "Staff Training"]

  function Min(a: int, b: int): int {
    if a <= b then a else b
  }

  function Max(a: int, b: int): int {
    if a >= b then a else b
  }

  /** `Math.min(10, Math.floor(experience / 2) + 3)`.  For a positive divisor
      Dafny's `/` rounds down, exactly like `Math.floor` of the quotient. */
  function BaseScore(experience: int): (base: int)
    ensures base <= 10
    ensures experience >= 0 ==> 3 <= base
    ensures base == 10 <==> experience >= 14
  {
    Min(10, experience / 2 + 3)
  }

  /** `Math.floor(Math.random() * 5) - 2` for a draw `Math.random()` in [0, 1). */
  function NoiseOf(draw: real): (noise: int)
    requires 0.0 <= draw < 1.0
    ensures InNoiseRange(noise)
  {
    (draw * 5.0).Floor - 2
  }

  /** Every value of the noise range is produced by some draw. */
  lemma NoiseOfCoversRange(noise: int)
    requires InNoiseRange(noise)
    ensures exists draw: real :: 0.0 <= draw < 1.0 && NoiseOf(draw) == noise
  {
    var draw := (noise + 2) as real / 5.0;
    assert draw * 5.0 == (noise + 2) as real;
    assert NoiseOf(draw) == noise;
  }

  /** `keywords.some(skill => skills.includes(skill))`, keyword by keyword. */
  function HasSkill(keywords: seq<string>, skills: seq<string>): (found: bool)
    ensures found <==> exists k :: k in keywords && k in skills
  {
    if keywords == [] then false
    else keywords[0] in skills || HasSkill(keywords[1..], skills)
  }

  /** `hasSkill ? 1 : 0`. */
  function SkillBonus(keywords: seq<string>, skills: seq<string>): (bonus: int)
    ensures bonus == 0 || bonus == 1
    ensures bonus == 1 <==> exists k :: k in keywords && k in skills
  {
    if HasSkill(keywords, skills) then 1 else 0
  }

  /** `Math.max(1, Math.min(10, baseScore + randomFactor + skillBonus))`. */
  function ClampedScore(experience: int, noise: int, bonus: int): (score: int)
    ensures 1 <= score <= 10
    ensures 1 <= BaseScore(experience) + noise + bonus <= 10 ==> score == BaseScore(experience) + noise + bonus
  {
    Max(1, Min(10, BaseScore(experience) + noise + bonus))
  }

  /** The score of one category whose keyword list is `keywords`. */
  function CategoryScore(keywords: seq<string>, candidate: Candidate, noise: int): (score: int)
    requires InNoiseRange(noise)
    ensures 1 <= score <= 10
    ensures (exists k :: k in keywords && k in candidate.skills) ==> score == ClampedScore(candidate.experience, noise, 1)
    ensures (forall k :: k in keywords ==> k !in candidate.skills) ==> score == ClampedScore(candidate.experience, noise, 0)
  {
    ClampedScore(candidate.experience, noise, SkillBonus(keywords, candidate.skills))
  }

  function EvaluateCrisisManagement(candidate: Candidate, noise: int): (score: int)
    requires InNoiseRange(noise)
    ensures 1 <= score <= 10
    ensures (exists k :: k in CrisisSkills && k in candidate.skills) ==> score == ClampedScore(candidate.experience, noise, 1)
    ensures (forall k :: k in CrisisSkills ==> k !in candidate.skills) ==> score == ClampedScore(candidate.experience, noise, 0)
  {
    CategoryScore(CrisisSkills, candidate, noise)
  }

  function EvaluateSustainability(candidate: Candidate, noise: int): (score: int)
    requires InNoiseRange(noise)
    ensures 1 <= score <= 10
    ensures (exists k :: k in SustainabilitySkills && k in candidate.skills) ==> score == ClampedScore(candidate.experience, noise, 1)
    ensures (forall k :: k in SustainabilitySkills ==> k !in candidate.skills) ==> score == ClampedScore(candidate.experience, noise, 0)
  {
    CategoryScore(SustainabilitySkills, candidate, noise)
  }

  function EvaluateTeamMotivation(candidate: Candidate, noise: int): (score: int)
    requires InNoiseRange(noise)
    ensures 1 <= score <= 10
    ensures (exists k :: k in LeadershipSkills && k in candidate.skills) ==> score == ClampedScore(candidate.experience, noise, 1)
    ensures (forall k :: k in LeadershipSkills ==> k !in candidate.skills) ==> score == ClampedScore(candidate.experience, noise, 0)
  {
    CategoryScore(LeadershipSkills, candidate, noise)
  }

  /** `evaluateCandidate`: the three category scores and their sum. */
  function EvaluateCandidate(candidate: Candidate, noise: Noise): (e: Evaluation)
    requires ValidNoise(noise)
    ensures e.candidateId == candidate.id
    ensures e.crisisManagement == EvaluateCrisisManagement(candidate, noise.crisis)
    ensures e.sustainability == EvaluateSustainability(candidate, noise.sustainability)
    ensures e.teamMotivation == EvaluateTeamMotivation(candidate, noise.motivation)
    ensures e.totalScore == e.crisisManagement + e.sustainability + e.teamMotivation
    ensures 3 <= e.totalScore <= 30
  {
    var crisis := EvaluateCrisisManagement(candidate, noise.crisis);
    var sustainability := EvaluateSustainability(candidate, noise.sustainability);
    var motivation := EvaluateTeamMotivation(candidate, noise.motivation);
    Evaluation(candidate.id, crisis, sustainability, motivation, crisis + sustainability + motivation)
  }

  /** For a non-negative experience the lower clamp never bites: the raw sum
      is at least 1 for every allowed noise and bonus. */
  lemma LowerClampInactive(experience: int, noise: int, bonus: int)
    requires experience >= 0
    requires InNoiseRange(noise)
    requires bonus == 0 || bonus == 1
    ensures BaseScore(experience) + noise + bonus >= 1
    ensures ClampedScore(experience, noise, bonus) == Min(10, BaseScore(experience) + noise + bonus)
  {
  }

  /** The bonus raises a score by exactly one point, except at the cap of 10. */
  lemma BonusAddsOnePoint(experience: int, noise: int)
    requires experience >= 0
    requires InNoiseRange(noise)
    ensures ClampedScore(experience, noise, 1) == Min(10, ClampedScore(experience, noise, 0) + 1)
  {
    LowerClampInactive(experience, noise, 0);
    LowerClampInactive(experience, noise, 1);
  }

  /** No skill label is a keyword of two categories. */
  lemma KeywordListsDisjoint()
    ensures forall k :: k in CrisisSkills ==> k !in SustainabilitySkills
    ensures forall k :: k in CrisisSkills ==> k !in LeadershipSkills
    ensures forall k :: k in SustainabilitySkills ==> k !in LeadershipSkills
  {
  }

  /** Hence a single skill earns at most one category's bonus. */
  lemma OneSkillAtMostOneBonus(skill: string)
    ensures SkillBonus(CrisisSkills, [skill]) + SkillBonus(SustainabilitySkills, [skill])
            + SkillBonus(LeadershipSkills, [skill]) <= 1
  {
    KeywordListsDisjoint();
    if SkillBonus(CrisisSkills, [skill]) == 1 {
      assert skill in CrisisSkills;
    } else if SkillBonus(SustainabilitySkills, [skill]) == 1 {
      assert skill in SustainabilitySkills;
    }
  }

  /** A crafted candidate with exactly one crisis keyword earns the bonus;
      the same candidate without it does not. */
  lemma BonusExample()
    ensures SkillBonus(CrisisSkills, ["Excel", "Risk Assessment"]) == 1
    ensures SkillBonus(CrisisSkills, ["Excel", "Forklift Operation"]) == 0
  {
  }

  /** The clamp holds at both extremes of experience. */
  lemma ClampExtremes()
    ensures ClampedScore(0, -2, 0) == 1
    ensures ClampedScore(100, 2, 1) == 10
    ensures ClampedScore(100, -2, 0) == 8
  {
  }
}
