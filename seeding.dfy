/** The seeding script: generate candidate records, clear the three tables in
    foreign-key order, insert one candidate and one evaluation per record, and
    fill the rankings table once with the competition rank of every total.

    The database is modelled as a `Store` object holding the three tables and
    the AUTO_INCREMENT counter of `candidates`.  Each statement of the reset,
    insert and ranking steps is one method of the store.  The foreign keys
    are enforced the way a relational store enforces them: a delete that
    would leave a dangling reference, or an insert that would create one or a
    duplicate, fails and changes nothing.
 */
module Seeding {
  import opened MockAi
  import opened Ranking

  /** A generated record, before it has an id. */
  datatype NewCandidate = NewCandidate(name: string, experience: int, skills: seq<string>)

  /** What the random generator yields for one iteration of the generation loop. */
  datatype FakerDraw = FakerDraw(firstName: string, lastName: string, experience: int, skills: seq<string>)

  /** One row of the `candidates` table. */
  datatype CandidateRow = CandidateRow(id: int, name: string, experience: int, skills: seq<string>)

  /** The number of records `insertData` asks for. */
  const DefaultCount: nat := 40

  /** `generateCandidates(count)`: one record per iteration, the `i`-th built
      from the `i`-th draw of the random generator `draw`. */
  method GenerateCandidates(count: nat, draw: nat -> FakerDraw) returns (candidates: seq<NewCandidate>)
    requires forall i: nat :: i < count ==> 3 <= draw(i).experience <= 15
    ensures |candidates| == count
    ensures forall i :: 0 <= i < count ==>
      && candidates[i].name == draw(i).firstName + " " + draw(i).lastName
      && candidates[i].experience == draw(i).experience
      && candidates[i].skills == draw(i).skills
    ensures forall c :: c in candidates ==> 3 <= c.experience <= 15
  {
    candidates := [];
    for i := 0 to count
      invariant |candidates| == i
      invariant forall k :: 0 <= k < i ==>
        candidates[k] == NewCandidate(draw(k).firstName + " " + draw(k).lastName, draw(k).experience, draw(k).skills)
    {
      var d := draw(i);
      candidates := candidates + [NewCandidate(d.firstName + " " + d.lastName, d.experience, d.skills)];
    }
  }

  /** The candidate row the seeding loop inserts for the `k`-th record. */
  function SeededRow(k: nat, c: NewCandidate): CandidateRow {
    CandidateRow(k + 1, c.name, c.experience, c.skills)
  }

  /** The evaluation the seeding loop stores for the `k`-th record: the
      record evaluated under the id `k + 1` it receives. */
  function SeededEvaluation(k: nat, c: NewCandidate, noise: Noise): (e: Evaluation)
    requires ValidNoise(noise)
    ensures e.candidateId == k + 1
    ensures e.totalScore == e.crisisManagement + e.sustainability + e.teamMotivation
    ensures 3 <= e.totalScore <= 30
  {
    EvaluateCandidate(Candidate(k + 1, c.name, c.experience, c.skills), noise)
  }

  /** `SELECT candidate_id, total_score FROM evaluations`. */
  function ScoreRows(evaluations: seq<Evaluation>): (rows: seq<ScoreRow>)
    ensures |rows| == |evaluations|
    ensures forall i :: 0 <= i < |evaluations| ==>
      rows[i] == ScoreRow(evaluations[i].candidateId, evaluations[i].totalScore)
  {
    if evaluations == [] then []
    else [ScoreRow(evaluations[0].candidateId, evaluations[0].totalScore)] + ScoreRows(evaluations[1..])
  }

  /** Largest candidate id, 0 for an empty table. */
  function MaxId(rows: seq<CandidateRow>): (m: int)
    ensures forall r :: r in rows ==> r.id <= m
    ensures rows == [] ==> m == 0
  {
    if rows == [] then 0
    else var rest := MaxId(rows[1..]); if rows[0].id > rest then rows[0].id else rest
  }

  class Store {
    var candidates: seq<CandidateRow>
    var evaluations: seq<Evaluation>
    var rankings: seq<RankingRow>
    /** The AUTO_INCREMENT counter: the id the next candidate row receives. */
    var nextId: int

    predicate HasCandidate(id: int)
      reads this
    {
      exists i :: 0 <= i < |candidates| && candidates[i].id == id
    }

    predicate HasEvaluation(id: int)
      reads this
    {
      exists i :: 0 <= i < |evaluations| && evaluations[i].candidateId == id
    }

    /** Every evaluation references an existing candidate and every ranking
        an existing evaluation's candidate. */
    ghost predicate ReferencesResolve()
      reads this
    {
      && (forall i :: 0 <= i < |evaluations| ==> HasCandidate(evaluations[i].candidateId))
      && (forall i :: 0 <= i < |rankings| ==> HasEvaluation(rankings[i].candidateId))
    }

    /** Primary and unique keys: candidate ids, and the candidate of each
        evaluation and each ranking, occur once. */
    ghost predicate KeysUnique()
      reads this
    {
      && (forall i, j :: 0 <= i < j < |candidates| ==> candidates[i].id != candidates[j].id)
      && (forall i, j :: 0 <= i < j < |evaluations| ==> evaluations[i].candidateId != evaluations[j].candidateId)
      && (forall i, j :: 0 <= i < j < |rankings| ==> rankings[i].candidateId != rankings[j].candidateId)
    }

    ghost predicate Valid()
      reads this
    {
      && nextId >= 1
      && (forall i :: 0 <= i < |candidates| ==> 1 <= candidates[i].id < nextId)
      && (forall i :: 0 <= i < |evaluations| ==>
            evaluations[i].totalScore
            == evaluations[i].crisisManagement + evaluations[i].sustainability + evaluations[i].teamMotivation)
      && ReferencesResolve()
      && KeysUnique()
    }

    /** An empty database whose counter starts at 1. */
    constructor ()
      ensures Valid()
      ensures candidates == [] && evaluations == [] && rankings == [] && nextId == 1
    {
      candidates, evaluations, rankings, nextId := [], [], [], 1;
    }

    /** `DELETE FROM rankings`: nothing references a ranking, so it always succeeds. */
    method DeleteRankings()
      requires Valid()
      modifies this
      ensures Valid()
      ensures rankings == []
      ensures candidates == old(candidates) && evaluations == old(evaluations) && nextId == old(nextId)
    {
      rankings := [];
    }

    /** `DELETE FROM evaluations`: refused while rankings still reference them. */
    method DeleteEvaluations() returns (ok: bool)
      requires Valid()
      modifies this
      ensures Valid()
      ensures ok <==> old(rankings) == []
      ensures evaluations == (if ok then [] else old(evaluations))
      ensures candidates == old(candidates) && rankings == old(rankings) && nextId == old(nextId)
    {
      ok := rankings == [];
      if ok {
        evaluations := [];
      }
    }

    /** `DELETE FROM candidates`: refused while evaluations or rankings still
        reference them. */
    method DeleteCandidates() returns (ok: bool)
      requires Valid()
      modifies this
      ensures Valid()
      ensures ok <==> old(evaluations) == [] && old(rankings) == []
      ensures candidates == (if ok then [] else old(candidates))
      ensures evaluations == old(evaluations) && rankings == old(rankings) && nextId == old(nextId)
    {
      ok := evaluations == [] && rankings == [];
      if ok {
        candidates := [];
      }
    }

    /** `ALTER TABLE candidates AUTO_INCREMENT = value`: the counter never
        drops to or below an id in use. */
    method SetAutoIncrement(value: int)
      requires Valid()
      requires value >= 1
      modifies this
      ensures Valid()
      ensures nextId == Max(value, MaxId(candidates) + 1)
      ensures candidates == old(candidates) && evaluations == old(evaluations) && rankings == old(rankings)
    {
      nextId := Max(value, MaxId(candidates) + 1);
    }

    /** The reset sequence: rankings, then evaluations, then candidates, then
        the counter.  Every step succeeds and keeps every reference resolved. */
    method Reset()
      requires Valid()
      modifies this
      ensures Valid()
      ensures candidates == [] && evaluations == [] && rankings == [] && nextId == 1
    {
      DeleteRankings();
      var ok := DeleteEvaluations();
      assert ok;
      ok := DeleteCandidates();
      assert ok;
      SetAutoIncrement(1);
    }

    /** `INSERT INTO candidates (name, experience, skills)`: the row gets the
        counter as its id (`result.insertId`). */
    method InsertCandidate(c: NewCandidate) returns (id: int)
      requires Valid()
      modifies this
      ensures Valid()
      ensures id == old(nextId) && nextId == old(nextId) + 1
      ensures candidates == old(candidates) + [CandidateRow(id, c.name, c.experience, c.skills)]
      ensures evaluations == old(evaluations) && rankings == old(rankings)
    {
      ghost var before := candidates;
      id := nextId;
      candidates := candidates + [CandidateRow(id, c.name, c.experience, c.skills)];
      nextId := nextId + 1;
      forall i | 0 <= i < |evaluations|
        ensures HasCandidate(evaluations[i].candidateId)
      {
        assert old(HasCandidate(evaluations[i].candidateId));
        var k :| 0 <= k < |before| && before[k].id == evaluations[i].candidateId;
        assert candidates[k] == before[k];
      }
    }

    /** `INSERT INTO evaluations (candidate_id, crisis_management,
        sustainability, team_motivation)`: the store derives the total; the
        insert fails on an unknown or already evaluated candidate. */
    method InsertEvaluation(candidateId: int, crisis: int, sustainability: int, motivation: int)
      returns (ok: bool)
      requires Valid()
      modifies this
      ensures Valid()
      ensures ok <==> old(HasCandidate(candidateId)) && !old(HasEvaluation(candidateId))
      ensures evaluations == if ok
        then old(evaluations) + [Evaluation(candidateId, crisis, sustainability, motivation,
                                            crisis + sustainability + motivation)]
        else old(evaluations)
      ensures candidates == old(candidates) && rankings == old(rankings) && nextId == old(nextId)
    {
      ok := HasCandidate(candidateId) && !HasEvaluation(candidateId);
      if ok {
        ghost var before := evaluations;
        evaluations := evaluations
          + [Evaluation(candidateId, crisis, sustainability, motivation, crisis + sustainability + motivation)];
        forall i | 0 <= i < |rankings|
          ensures HasEvaluation(rankings[i].candidateId)
        {
          assert old(HasEvaluation(rankings[i].candidateId));
          var k :| 0 <= k < |before| && before[k].candidateId == rankings[i].candidateId;
          assert evaluations[k] == before[k];
        }
      }
    }

    /** `INSERT INTO rankings SELECT candidate_id, total_score, RANK() OVER
        (ORDER BY total_score DESC) FROM evaluations`: one statement over the
        whole evaluation set; it fails (and inserts nothing) when some
        evaluated candidate already has a ranking. */
    method InsertRankings() returns (ok: bool)
      requires Valid()
      modifies this
      ensures Valid()
      ensures ok <==> old(rankings) == []
      ensures rankings == if ok then Rank(ScoreRows(evaluations)) else old(rankings)
      ensures candidates == old(candidates) && evaluations == old(evaluations) && nextId == old(nextId)
    {
      ok := rankings == [];
      if ok {
        rankings := Rank(ScoreRows(evaluations));
        forall i | 0 <= i < |rankings|
          ensures HasEvaluation(rankings[i].candidateId)
        {
          assert evaluations[i].candidateId == rankings[i].candidateId;
        }
      }
    }

    /** The first `i` records are stored: the `k`-th as candidate `k + 1`
        with the evaluation computed for it, and nothing is ranked yet. */
    ghost predicate SeededPrefix(records: seq<NewCandidate>, noise: nat -> Noise, i: nat)
      requires i <= |records|
      requires forall k: nat :: k < |records| ==> ValidNoise(noise(k))
      reads this
    {
      && nextId == i + 1
      && |candidates| == i && |evaluations| == i && rankings == []
      && (forall k :: 0 <= k < i ==> candidates[k] == SeededRow(k, records[k]))
      && (forall k :: 0 <= k < i ==> evaluations[k] == SeededEvaluation(k, records[k], noise(k)))
    }

    /** The `i`-th record is stored as candidate `i + 1` but not yet evaluated;
        the records before it are stored and evaluated. */
    ghost predicate RecordPending(records: seq<NewCandidate>, noise: nat -> Noise, i: nat)
      requires i < |records|
      requires forall k: nat :: k < |records| ==> ValidNoise(noise(k))
      reads this
    {
      && nextId == i + 2
      && |candidates| == i + 1 && |evaluations| == i && rankings == []
      && (forall k :: 0 <= k <= i ==> candidates[k] == SeededRow(k, records[k]))
      && (forall k :: 0 <= k < i ==> evaluations[k] == SeededEvaluation(k, records[k], noise(k)))
    }

    /** One iteration of the seeding loop: insert the `i`-th record, then
        evaluate it under the id the store gave it and insert that evaluation. */
    method InsertRecord(records: seq<NewCandidate>, noise: nat -> Noise, i: nat)
      requires i < |records|
      requires forall k: nat :: k < |records| ==> ValidNoise(noise(k))
      requires Valid() && SeededPrefix(records, noise, i)
      modifies this
      ensures Valid() && SeededPrefix(records, noise, i + 1)
    {
      var id := InsertCandidate(records[i]);
      assert id == i + 1;
      EvaluateRecord(records, noise, i, id);
    }

    /** The rest of one loop iteration (lines 71-82): evaluate the candidate
        just inserted under its id and insert the evaluation. */
    method EvaluateRecord(records: seq<NewCandidate>, noise: nat -> Noise, i: nat, id: int)
      requires i < |records|
      requires forall k: nat :: k < |records| ==> ValidNoise(noise(k))
      requires Valid() && RecordPending(records, noise, i)
      requires id == i + 1
      modifies this
      ensures Valid() && SeededPrefix(records, noise, i + 1)
    {
      var record := records[i];
      var e := EvaluateCandidate(Candidate(id, record.name, record.experience, record.skills), noise(i));
      assert e == SeededEvaluation(i, record, noise(i));
      assert Evaluation(id, e.crisisManagement, e.sustainability, e.teamMotivation,
                        e.crisisManagement + e.sustainability + e.teamMotivation) == e;
      assert HasCandidate(id) by {
        assert candidates[i].id == id;
      }
      assert !HasEvaluation(id) by {
        forall k | 0 <= k < |evaluations|
          ensures evaluations[k].candidateId != id
        {
          assert evaluations[k] == SeededEvaluation(k, records[k], noise(k));
        }
      }
      var ok := InsertEvaluation(id, e.crisisManagement, e.sustainability, e.teamMotivation);
      assert ok;
      forall k | 0 <= k < i + 1
        ensures evaluations[k] == SeededEvaluation(k, records[k], noise(k))
      {
        if k < i {
          assert evaluations[k] == old(evaluations[k]);
        } else {
          assert evaluations[k]
                 == Evaluation(id, e.crisisManagement, e.sustainability, e.teamMotivation,
                               e.crisisManagement + e.sustainability + e.teamMotivation);
        }
      }
    }

    /** Lines 65 to 86 of `insertData`, on the emptied tables: insert every
        record and the evaluation computed for it.  `noise(k)` stands for the
        three random draws made while evaluating the `k`-th record. */
    method InsertAll(records: seq<NewCandidate>, noise: nat -> Noise)
      requires Valid()
      requires candidates == [] && evaluations == [] && rankings == [] && nextId == 1
      requires forall k: nat :: k < |records| ==> ValidNoise(noise(k))
      modifies this
      ensures Valid() && SeededPrefix(records, noise, |records|)
    {
      for i := 0 to |records|
        invariant Valid() && SeededPrefix(records, noise, i)
      {
        InsertRecord(records, noise, i);
      }
    }

    /** Lines 58 to 100 of `insertData`: reset, insert every record with its
        evaluation, then rank once. */
    method Seed(records: seq<NewCandidate>, noise: nat -> Noise)
      requires Valid()
      requires forall k: nat :: k < |records| ==> ValidNoise(noise(k))
      modifies this
      ensures Valid()
      ensures nextId == |records| + 1
      ensures |candidates| == |records| && |evaluations| == |records|
      ensures forall k :: 0 <= k < |records| ==> candidates[k] == SeededRow(k, records[k])
      ensures forall k :: 0 <= k < |records| ==> evaluations[k] == SeededEvaluation(k, records[k], noise(k))
      ensures rankings == Rank(ScoreRows(evaluations))
    {
      Reset();
      InsertAll(records, noise);
      assert SeededPrefix(records, noise, |records|);
      var ok := InsertRankings();
      assert ok;
    }

    /** `insertData`: generate the default number of records, then seed. */
    method InsertData(draw: nat -> FakerDraw, noise: nat -> Noise)
      requires Valid()
      requires forall i: nat :: i < DefaultCount ==> 3 <= draw(i).experience <= 15
      requires forall k: nat :: k < DefaultCount ==> ValidNoise(noise(k))
      modifies this
      ensures Valid()
      ensures nextId == DefaultCount + 1
      ensures |candidates| == DefaultCount && |evaluations| == DefaultCount && |rankings| == DefaultCount
      ensures forall k :: 0 <= k < DefaultCount ==>
        candidates[k] == CandidateRow(k + 1, draw(k).firstName + " " + draw(k).lastName, draw(k).experience, draw(k).skills)
      ensures forall k :: 0 <= k < DefaultCount ==>
        evaluations[k]
        == EvaluateCandidate(Candidate(k + 1, candidates[k].name, candidates[k].experience, candidates[k].skills), noise(k))
      ensures forall k :: 0 <= k < DefaultCount ==>
        && 3 <= candidates[k].experience <= 15
        && evaluations[k].candidateId == candidates[k].id
        && 3 <= evaluations[k].totalScore <= 30
      ensures rankings == Rank(ScoreRows(evaluations))
    {
      var records := GenerateCandidates(DefaultCount, draw);
      Seed(records, noise);
      forall k | 0 <= k < DefaultCount
        ensures candidates[k]
                == CandidateRow(k + 1, draw(k).firstName + " " + draw(k).lastName, draw(k).experience, draw(k).skills)
        ensures evaluations[k]
                == EvaluateCandidate(Candidate(k + 1, candidates[k].name, candidates[k].experience, candidates[k].skills), noise(k))
        ensures 3 <= candidates[k].experience <= 15
        ensures evaluations[k].candidateId == candidates[k].id
        ensures 3 <= evaluations[k].totalScore <= 30
      {
        assert records[k] in records;
        assert candidates[k] == SeededRow(k, records[k]);
        assert evaluations[k] == SeededEvaluation(k, records[k], noise(k));
      }
    }
  }

  /** After seeding, every candidate has exactly one evaluation and exactly
      one ranking, and that ranking carries the evaluation's total. */
  lemma SeededOneToOne(store: Store, n: nat, k: int)
    requires store.Valid()
    requires |store.candidates| == n && |store.evaluations| == n
    requires forall i :: 0 <= i < n ==> store.evaluations[i].candidateId == store.candidates[i].id
    requires store.rankings == Rank(ScoreRows(store.evaluations))
    requires 0 <= k < n
    ensures store.evaluations[k].candidateId == store.candidates[k].id
    ensures store.rankings[k].candidateId == store.candidates[k].id
    ensures forall i :: 0 <= i < n && store.evaluations[i].candidateId == store.candidates[k].id ==> i == k
    ensures forall i :: 0 <= i < n && store.rankings[i].candidateId == store.candidates[k].id ==> i == k
    ensures store.rankings[k].totalScore == store.evaluations[k].totalScore
    ensures 1 <= store.rankings[k].rankPosition <= n
  {
    RankBounds(ScoreRows(store.evaluations), k);
  }
}
