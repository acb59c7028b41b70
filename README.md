# Recruitment ranking demo: scoring heuristic, competition rank and seeding run

This project models the two parts of the recruitment-ranking demo whose
behaviour can be stated precisely, and proves properties of them in Dafny.

- **The pseudo-AI scoring heuristic** (`backend/utils/mockAi.js`), module
  `MockAi` in `mock_ai.dfy`. Three evaluators score crisis management,
  sustainability and team motivation. Each one takes a base of
  `min(10, floor(experience / 2) + 3)`, adds a noise draw in [-2, 2], and adds
  a one-point bonus when one of the category's keywords is among the
  candidate's skills. The result is clamped to [1, 10].
  `evaluateCandidate` combines the three scores and sets the total to their
  sum. The random draw is a parameter, so every function here is total and
  deterministic. `NoiseOf` separately models how the source turns
  `Math.random()` into the noise.
- **The rank assignment** (`database/generate_candidates.js`, the
  `INSERT ... SELECT ... RANK() OVER (ORDER BY total_score DESC)` statement),
  module `Ranking` in `ranking.dfy`. `RANK()` is the competition rank of
  ISO/IEC 9075-2 (SQL Foundation), subclause 6.10 `<window function>`. A row's
  rank is one plus the number of rows with a strictly greater total. Ties share
  a rank, and a gap follows each tie group.
- **The seeding run** (`generateCandidates` and `insertData` in
  `database/generate_candidates.js`), module `Seeding` in `seeding.dfy`.
  - Generation is a method with the source's loop. The random generator is a
    parameter `draw`: the `i`-th loop iteration reads `draw(i)`.
  - The database is a `Store` object. It holds the three tables `candidates`,
    `evaluations` and `rankings`, plus the AUTO_INCREMENT counter of
    `candidates`.
  - Each statement of the reset, insert and ranking steps of `insertData`
    (lines 58-100) is one store method. A delete that would leave a dangling
    reference fails and changes nothing, as does an insert that would create
    a dangling reference or a duplicate key.
  - The object invariant `Valid()` says that every evaluation references a
    candidate and every ranking references an evaluated candidate. It also
    says that keys are unique and that a stored total is the sum of its three
    sub-scores.

## Model

| member | source | states |
|---|---|---|
| `MockAi.BaseScore` | backend/utils/mockAi.js:4 | the base is at most 10, at least 3 for a non-negative experience, and equals 10 exactly when experience is 14 or more |
| `MockAi.NoiseOf` | backend/utils/mockAi.js:6 | `Math.floor(Math.random() * 5) - 2` lies in [-2, 2] for every draw in [0, 1) |
| `MockAi.NoiseOfCoversRange` | backend/utils/mockAi.js:6 | every noise value in [-2, 2] is produced by some draw in [0, 1) |
| `MockAi.HasSkill` | backend/utils/mockAi.js:9 | `keywords.some(k => skills.includes(k))` holds exactly when some keyword is an element of the skills |
| `MockAi.SkillBonus` | backend/utils/mockAi.js:9-10 | the bonus is 0 or 1, and it is 1 exactly when some keyword of the category is among the skills |
| `MockAi.ClampedScore` | backend/utils/mockAi.js:12 | the clamped score lies in [1, 10] and equals the raw sum whenever the raw sum already lies in [1, 10] |
| `MockAi.CategoryScore` | backend/utils/mockAi.js:4-12 | for every allowed noise the score lies in [1, 10]; it is the clamped score with bonus 1 when a keyword matches and with bonus 0 when none does |
| `MockAi.EvaluateCrisisManagement` | backend/utils/mockAi.js:2-18 | crisis score in [1, 10] for every allowed noise; bonus 1 exactly when a crisis keyword is among the skills |
| `MockAi.EvaluateSustainability` | backend/utils/mockAi.js:21-39 | sustainability score in [1, 10] for every allowed noise; bonus 1 exactly when a sustainability keyword is among the skills |
| `MockAi.EvaluateTeamMotivation` | backend/utils/mockAi.js:41-59 | team-motivation score in [1, 10] for every allowed noise; bonus 1 exactly when a leadership keyword is among the skills |
| `MockAi.EvaluateCandidate` | backend/utils/mockAi.js:61-79 | `candidate_id` is the candidate's id unchanged, each sub-score is its evaluator's result, the total is the sum of the three and lies in [3, 30] |
| `MockAi.LowerClampInactive` | backend/utils/mockAi.js:4-12 | for a non-negative experience, base + noise + bonus is at least 1, so `max(1, ·)` never changes the score |
| `MockAi.BonusAddsOnePoint` | backend/utils/mockAi.js:10-12 | the skill bonus raises a score by exactly one point, except at the cap of 10 |
| `MockAi.KeywordListsDisjoint` | backend/utils/mockAi.js:8-49 | no skill label is a keyword of two categories |
| `MockAi.OneSkillAtMostOneBonus` | backend/utils/mockAi.js:8-51 | a single skill earns the bonus of at most one category |
| `MockAi.BonusExample` | backend/utils/mockAi.js:8-10 | a skill list with exactly one crisis keyword earns the crisis bonus; one with none does not |
| `MockAi.ClampExtremes` | backend/utils/mockAi.js:12 | at experience 0 with noise -2 and no bonus the score is 1; at experience 100 it is 10 with noise 2 and a bonus, and 8 with noise -2 and no bonus |
| `Ranking.CountAbove` | database/generate_candidates.js:97 | the number of rows with a strictly greater total is at most the number of rows |
| `Ranking.RankAgainst` | database/generate_candidates.js:92-100 | each row, ranked against the whole evaluation set, keeps its candidate and total and gets one plus the count of strictly greater totals |
| `Ranking.Rank` | database/generate_candidates.js:92-100 | exactly one ranking row per evaluation row, with the candidate id and total copied unchanged and rank = 1 + number of rows with a strictly greater total |
| `Ranking.CountAboveStrict` | database/generate_candidates.js:97 | a threshold below a total that occurs counts strictly more rows than that total does |
| `Ranking.RankBounds` | database/generate_candidates.js:97 | every rank lies in [1, n] |
| `Ranking.RankOrder` | database/generate_candidates.js:97 | a strictly greater total has a strictly smaller rank and equal totals have equal ranks, in both directions |
| `Ranking.TopRankIsMaximum` | database/generate_candidates.js:97 | a row has rank 1 exactly when its total is the maximum |
| `Ranking.RankExample` | database/generate_candidates.js:97 | totals [30, 25, 25, 10] get ranks [1, 2, 2, 4] |
| `Ranking.CompetitionRanking` | database/generate_candidates.js:97 | exactly rank − 1 rows are ranked strictly ahead of each row, so the ranks are a competition ranking that starts at 1 |
| `Ranking.CountAbovePermutation` | database/generate_candidates.js:94-98 | the count of strictly greater totals depends only on the multiset of totals, whichever candidates carry them and in whichever order the rows come |
| `Ranking.RankDependsOnTotals` | database/generate_candidates.js:94-98 | two evaluation sets with the same multiset of totals give equal totals equal ranks, whatever the candidate ids and the row order |
| `Ranking.RankPermutationInvariant` | database/generate_candidates.js:94-99 | permuting the evaluation rows gives the same multiset of ranking rows, so recomputing over an unchanged evaluation set is idempotent |
| `Seeding.GenerateCandidates` | database/generate_candidates.js:20-36 | returns exactly `count` records; the `i`-th is named "first last" from the `i`-th draw and has that draw's experience (in [3, 15]) and skills |
| `Seeding.ScoreRows` | database/generate_candidates.js:94-98 | the projection of the evaluations onto (candidate_id, total_score) keeps one row per evaluation, in order |
| `Seeding.Store.DeleteRankings` | database/generate_candidates.js:58 | empties the rankings table, keeps every reference resolved, and leaves the other tables and the counter unchanged |
| `Seeding.Store.DeleteEvaluations` | database/generate_candidates.js:59 | succeeds exactly when no ranking remains; on success the evaluations table is empty; references stay resolved |
| `Seeding.Store.DeleteCandidates` | database/generate_candidates.js:60 | succeeds exactly when no evaluation and no ranking remains; on success the candidates table is empty; references stay resolved |
| `Seeding.Store.SetAutoIncrement` | database/generate_candidates.js:61 | the counter becomes the requested value, raised past the largest id in use |
| `Seeding.Store.Reset` | database/generate_candidates.js:58-61 | deleting in foreign-key order succeeds at every step, keeps every reference resolved, and leaves three empty tables with the counter at 1 |
| `Seeding.Store.InsertCandidate` | database/generate_candidates.js:66-71 | appends one candidate row whose id is the counter, returns that id and advances the counter by one |
| `Seeding.Store.InsertEvaluation` | database/generate_candidates.js:80-83 | succeeds exactly when the candidate exists and has no evaluation yet; on success it appends a row whose total is the sum of the three sub-scores |
| `Seeding.Store.InsertRankings` | database/generate_candidates.js:92-100 | on a store without rankings, fills the rankings table with `Rank` of all (candidate_id, total_score) rows in one statement; otherwise fails and changes nothing |
| `Seeding.Store.InsertRecord` | database/generate_candidates.js:66-83 | one loop iteration: the i-th record becomes candidate i + 1, evaluated under the id the store returned, with exactly one evaluation row; rankings stay empty and every reference stays resolved |
| `Seeding.Store.EvaluateRecord` | database/generate_candidates.js:71-82 | the second half of an iteration: with the i-th record stored as candidate i + 1 and not yet evaluated, `evaluateCandidate` under that id is inserted; the insert provably succeeds, so the first i + 1 records are stored and evaluated and every reference stays resolved |
| `Seeding.Store.InsertAll` | database/generate_candidates.js:65-86 | after the loop, candidate k has id k + 1 and the k-th evaluation is `evaluateCandidate` of that candidate under its id, one evaluation per candidate |
| `Seeding.Store.Seed` | database/generate_candidates.js:58-100 | reset, insert and rank: n candidates with ids 1..n, one evaluation each, the counter at n + 1, and the rankings equal to `Rank` of the evaluations |
| `Seeding.Store.InsertData` | database/generate_candidates.js:53-100 | after a run the counter is 41 and 40 candidates, 40 evaluations and 40 rankings exist; candidate k has id k + 1 and the name "first last", experience (in [3, 15]) and skills of the k-th draw; evaluation k is `evaluateCandidate` of that candidate under its id (total in [3, 30]); the rankings are `Rank` of the evaluations |
| `Seeding.SeededOneToOne` | database/generate_candidates.js:65-100 | after seeding, every candidate has exactly one evaluation and exactly one ranking; the ranking carries the evaluation's total and a rank in [1, n] |

## Left out

- Free-text reasoning strings and the `evaluation_notes` timestamp (`new Date().toISOString()`) are not modelled. They carry no score.
- `Math.random` is a parameter: `noise` in the evaluators, and `NoiseOf(draw)` for the conversion itself. That each noise value is equally likely is a probabilistic property and is not modelled.
- The faker calls and `generateSkills` are a parameter `draw: nat -> FakerDraw`. `generateSkills` and `skillsPool` are not part of this model. The experience range [3, 15] is a precondition.
- Skills are a sequence of labels matched by element equality. The database stores them as comma-joined text. Substring matching on such text is not modelled.
- `MockAi.NoiseOf` computes `Math.random() * 5` in exact real arithmetic. IEEE double rounding is not modelled; it does not change the range, because the largest double below 1, times 5, still floors to 4.
- Seeding.GenerateCandidates: the default argument `count = 40` (database/generate_candidates.js:20) is not modelled; the count is always passed explicitly, as the only call site does with 40 (`Seeding.DefaultCount`).
- Experience is an integer. A fractional experience would make `Math.floor(experience / 2)` differ from integer division, but faker only produces integers.
- Database connection, environment configuration, console reporting, `process.exit` and connection teardown (database/generate_candidates.js:38-51, 101-144) are not modelled. The top-5 summary query that only feeds the console (lines 105-119) is not modelled either.
- A failing SQL statement aborts the source script. In the model every statement of the seeding run provably succeeds, so the abort path is not modelled.
- Seeding.Store.InsertRankings: the rows go into the table in evaluation order, not in `ORDER BY total_score DESC` order. A table's row order has no meaning here, and `Ranking.RankPermutationInvariant` shows that the ranks do not depend on it.
- The schema is not part of this model, so three schema facts are assumptions.
  - The stored `total_score` is the sum of the three sub-scores, as `evaluateCandidate` computes it.
  - `candidate_id` is unique in `evaluations` and in `rankings`.
  - Each ranking references an evaluated candidate.

  Score range checks in the schema, if any, are not modelled.
- Seeding.Store.SetAutoIncrement: the upper limit of the AUTO_INCREMENT column is not modelled, because ids are unbounded integers.
- The Query API (`backend/routes/candidates.js`) and the server bootstrap (`backend/app.js`) are outside this model. They are thin wrappers over database joins and HTTP plumbing.
- The require path `../backend/utils/mockAI` differs in case from the file name `mockAi.js`. This is a filesystem matter and is not modelled.
- Seeding running at the same time as API traffic is not modelled, because the source has no such concurrency.
- `RANK()` leaves a gap after each tie group (1, 2, 2, 4); it is not `DENSE_RANK()`, and dense ranking is not modelled.
