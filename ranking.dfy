/** The rank assignment of the seeding script:

      INSERT INTO rankings (candidate_id, total_score, rank_position)
      SELECT candidate_id, total_score, RANK() OVER (ORDER BY total_score DESC) ...

    `RANK()` is the competition rank of ISO/IEC 9075-2 (SQL Foundation),
    subclause 6.10 <window function>: one plus the number of rows whose sort
    key strictly precedes the row's own, here one plus the number of rows with
    a strictly greater total.  Ties share a rank and a gap follows each tie
    group (totals 30, 25, 25, 10 rank 1, 2, 2, 4).
 */
module Ranking {

  /** One row of `SELECT candidate_id, total_score FROM evaluations`. */
  datatype ScoreRow = ScoreRow(candidateId: int, totalScore: int)

  /** One row inserted into `rankings`. */
  datatype RankingRow = RankingRow(candidateId: int, totalScore: int, rankPosition: int)

  /** Number of rows whose total is strictly greater than `t`. */
  function CountAbove(rows: seq<ScoreRow>, t: int): (c: nat)
    ensures c <= |rows|
  {
    if rows == [] then 0
    else (if rows[0].totalScore > t then 1 else 0) + CountAbove(rows[1..], t)
  }

  /** Ranks each row of `rows` against the whole evaluation set `all`. */
  function RankAgainst(rows: seq<ScoreRow>, all: seq<ScoreRow>): (ranked: seq<RankingRow>)
    ensures |ranked| == |rows|
    ensures forall i :: 0 <= i < |rows| ==>
      ranked[i] == RankingRow(rows[i].candidateId, rows[i].totalScore, 1 + CountAbove(all, rows[i].totalScore))
  {
    if rows == [] then []
    else [RankingRow(rows[0].candidateId, rows[0].totalScore, 1 + CountAbove(all, rows[0].totalScore))]
         + RankAgainst(rows[1..], all)
  }

  /** The whole `INSERT ... SELECT ... RANK() OVER (ORDER BY total_score DESC)`:
      one ranking row per evaluation row, carrying its candidate and total. */
  function Rank(rows: seq<ScoreRow>): (ranked: seq<RankingRow>)
    ensures |ranked| == |rows|
    ensures forall i :: 0 <= i < |rows| ==>
      && ranked[i].candidateId == rows[i].candidateId
      && ranked[i].totalScore == rows[i].totalScore
      && ranked[i].rankPosition == 1 + CountAbove(rows, rows[i].totalScore)
  {
    RankAgainst(rows, rows)
  }

  // ---------------------------------------------------------------------
  // Counting facts

  lemma {:induction false} CountAboveAppend(a: seq<ScoreRow>, b: seq<ScoreRow>, t: int)
    ensures CountAbove(a + b, t) == CountAbove(a, t) + CountAbove(b, t)
  {
    if a != [] {
      assert (a + b)[1..] == a[1..] + b;
      CountAboveAppend(a[1..], b, t);
    } else {
      assert a + b == b;
    }
  }

  /** A higher threshold never counts more rows. */
  lemma {:induction false} CountAboveAntitone(rows: seq<ScoreRow>, s: int, t: int)
    requires s <= t
    ensures CountAbove(rows, t) <= CountAbove(rows, s)
  {
    if rows != [] {
      CountAboveAntitone(rows[1..], s, t);
    }
  }

  /** Raising the threshold past a total that occurs in `rows` counts strictly fewer rows. */
  lemma {:induction false} CountAboveStrict(rows: seq<ScoreRow>, row: ScoreRow, t: int)
    requires row in rows
    requires t < row.totalScore
    ensures CountAbove(rows, row.totalScore) < CountAbove(rows, t)
  {
    if rows[0] == row {
      CountAboveAntitone(rows[1..], t, row.totalScore);
    } else {
      assert rows == [rows[0]] + rows[1..];
      CountAboveStrict(rows[1..], row, t);
      if rows[0].totalScore > row.totalScore {
        assert rows[0].totalScore > t;
      }
    }
  }

  /** A row never counts itself: at most n - 1 rows lie strictly above a present total. */
  lemma {:induction false} CountAboveOthers(rows: seq<ScoreRow>, i: int)
    requires 0 <= i < |rows|
    ensures CountAbove(rows, rows[i].totalScore) <= |rows| - 1
  {
    if i > 0 {
      assert rows[1..][i - 1] == rows[i];
      CountAboveOthers(rows[1..], i - 1);
    }
  }

  /** No row lies above `t` exactly when every total is at most `t`. */
  lemma {:induction false} CountAboveZero(rows: seq<ScoreRow>, t: int)
    ensures CountAbove(rows, t) == 0 <==> forall j :: 0 <= j < |rows| ==> rows[j].totalScore <= t
  {
    if rows != [] {
      CountAboveZero(rows[1..], t);
      if rows[0].totalScore <= t {
        forall j | 0 <= j < |rows| && (forall k :: 0 <= k < |rows[1..]| ==> rows[1..][k].totalScore <= t)
          ensures rows[j].totalScore <= t
        {
          if j > 0 { assert rows[j] == rows[1..][j - 1]; }
        }
      }
    }
  }

  // ---------------------------------------------------------------------
  // Laws of the competition rank

  /** Every rank lies in [1, n]. */
  lemma RankBounds(rows: seq<ScoreRow>, i: int)
    requires 0 <= i < |rows|
    ensures 1 <= Rank(rows)[i].rankPosition <= |rows|
  {
    CountAboveOthers(rows, i);
  }

  /** A strictly greater total gets a strictly smaller rank, equal totals get
      equal ranks, and conversely. */
  lemma RankOrder(rows: seq<ScoreRow>, i: int, j: int)
    requires 0 <= i < |rows| && 0 <= j < |rows|
    ensures rows[i].totalScore > rows[j].totalScore <==> Rank(rows)[i].rankPosition < Rank(rows)[j].rankPosition
    ensures rows[i].totalScore == rows[j].totalScore <==> Rank(rows)[i].rankPosition == Rank(rows)[j].rankPosition
  {
    var x, y := rows[i].totalScore, rows[j].totalScore;
    if x > y {
      CountAboveStrict(rows, rows[i], y);
    } else if y > x {
      CountAboveStrict(rows, rows[j], x);
    }
  }

  /** Rank 1 goes exactly to the rows holding the maximum total. */
  lemma TopRankIsMaximum(rows: seq<ScoreRow>, i: int)
    requires 0 <= i < |rows|
    ensures Rank(rows)[i].rankPosition == 1 <==> forall j :: 0 <= j < |rows| ==> rows[j].totalScore <= rows[i].totalScore
  {
    CountAboveZero(rows, rows[i].totalScore);
  }

  /** The totals [30, 25, 25, 10] rank [1, 2, 2, 4]. */
  lemma RankExample()
    ensures var ranked := Rank([ScoreRow(1, 30), ScoreRow(2, 25), ScoreRow(3, 25), ScoreRow(4, 10)]);
      ranked == [RankingRow(1, 30, 1), RankingRow(2, 25, 2), RankingRow(3, 25, 2), RankingRow(4, 10, 4)]
  {
  }

  // ---------------------------------------------------------------------
  // Competition ranking: exactly rank - 1 rows rank strictly ahead

  /** Number of ranking rows whose rank is strictly smaller than `r`. */
  function CountRankedAhead(ranked: seq<RankingRow>, r: int): (c: nat)
    ensures c <= |ranked|
  {
    if ranked == [] then 0
    else (if ranked[0].rankPosition < r then 1 else 0) + CountRankedAhead(ranked[1..], r)
  }

  lemma {:induction false} RankedAheadMatchesAbove(rows: seq<ScoreRow>, all: seq<ScoreRow>, pivot: ScoreRow)
    requires pivot in all
    requires forall r :: r in rows ==> r in all
    ensures CountRankedAhead(RankAgainst(rows, all), 1 + CountAbove(all, pivot.totalScore))
            == CountAbove(rows, pivot.totalScore)
  {
    if rows != [] {
      var t := pivot.totalScore;
      var x := rows[0].totalScore;
      if x > t {
        CountAboveStrict(all, rows[0], t);
      } else {
        CountAboveAntitone(all, x, t);
      }
      assert RankAgainst(rows, all)[1..] == RankAgainst(rows[1..], all);
      RankedAheadMatchesAbove(rows[1..], all, pivot);
    }
  }

  /** The ranks form a competition ranking starting at 1: exactly
      `rank - 1` rows are ranked strictly ahead of each row. */
  lemma CompetitionRanking(rows: seq<ScoreRow>, i: int)
    requires 0 <= i < |rows|
    ensures CountRankedAhead(Rank(rows), Rank(rows)[i].rankPosition) == Rank(rows)[i].rankPosition - 1
  {
    RankedAheadMatchesAbove(rows, rows, rows[i]);
  }

  // ---------------------------------------------------------------------
  // The rank depends only on the multiset of rows

  /** The totals of `rows`, in order: the only column the rank looks at. */
  function Totals(rows: seq<ScoreRow>): (totals: seq<int>)
    ensures |totals| == |rows|
    ensures forall i :: 0 <= i < |rows| ==> totals[i] == rows[i].totalScore
  {
    if rows == [] then [] else [rows[0].totalScore] + Totals(rows[1..])
  }

  /** Removing the element at index j removes one occurrence of it from the multiset. */
  lemma RemoveAt<T>(b: seq<T>, j: int)
    requires 0 <= j < |b|
    ensures multiset(b[..j] + b[j + 1..]) == multiset(b) - multiset{b[j]}
    ensures multiset(b) == multiset(b[..j] + b[j + 1..]) + multiset{b[j]}
  {
    assert b == b[..j] + [b[j]] + b[j + 1..];
  }

  /** Dropping the row at `j` drops its total at `j`. */
  lemma TotalsRemoveAt(b: seq<ScoreRow>, j: int)
    requires 0 <= j < |b|
    ensures Totals(b[..j] + b[j + 1..]) == Totals(b)[..j] + Totals(b)[j + 1..]
  {
    var rest, tb := b[..j] + b[j + 1..], Totals(b);
    forall i | 0 <= i < |rest|
      ensures Totals(rest)[i] == (tb[..j] + tb[j + 1..])[i]
    {
      if i < j {
        assert rest[i] == b[i];
      } else {
        assert rest[i] == b[i + 1];
      }
    }
  }

  /** Counting over `b` is counting its row at `j` plus counting the others. */
  lemma CountAboveRemoveAt(b: seq<ScoreRow>, j: int, t: int)
    requires 0 <= j < |b|
    ensures CountAbove(b, t) == CountAbove([b[j]], t) + CountAbove(b[..j] + b[j + 1..], t)
  {
    assert b == b[..j] + ([b[j]] + b[j + 1..]);
    CountAboveAppend(b[..j], [b[j]] + b[j + 1..], t);
    CountAboveAppend([b[j]], b[j + 1..], t);
    CountAboveAppend(b[..j], b[j + 1..], t);
  }

  /** The tail of `a` is a permutation of `b` without one occurrence of `a[0]`. */
  lemma PermutationTail<T>(a: seq<T>, b: seq<T>) returns (j: int)
    requires a != [] && multiset(a) == multiset(b)
    ensures 0 <= j < |b| && b[j] == a[0]
    ensures multiset(a[1..]) == multiset(b[..j] + b[j + 1..])
  {
    assert a == [a[0]] + a[1..];
    assert multiset(a) == multiset{a[0]} + multiset(a[1..]);
    assert a[0] in multiset(b);
    j :| 0 <= j < |b| && b[j] == a[0];
    RemoveAt(b, j);
  }

  /** With equal multisets of totals, `b` has a row at `j` with the total of
      `a[0]`, and the remaining totals again form equal multisets. */
  lemma TotalsPermutationTail(a: seq<ScoreRow>, b: seq<ScoreRow>) returns (j: int)
    requires a != [] && multiset(Totals(a)) == multiset(Totals(b))
    ensures 0 <= j < |b| && b[j].totalScore == a[0].totalScore
    ensures multiset(Totals(a[1..])) == multiset(Totals(b[..j] + b[j + 1..]))
  {
    j := PermutationTail(Totals(a), Totals(b));
    TotalsRemoveAt(b, j);
    assert Totals(a[1..]) == Totals(a)[1..];
  }

  /** The count of strictly greater totals depends only on the multiset of
      totals, whichever candidates they belong to and in whichever order. */
  lemma {:induction false} CountAbovePermutation(a: seq<ScoreRow>, b: seq<ScoreRow>, t: int)
    requires multiset(Totals(a)) == multiset(Totals(b))
    ensures CountAbove(a, t) == CountAbove(b, t)
  {
    if a == [] {
      assert |b| == |Totals(b)| == |multiset(Totals(b))| == |multiset(Totals(a))| == 0;
    } else {
      var j := TotalsPermutationTail(a, b);
      CountAbovePermutation(a[1..], b[..j] + b[j + 1..], t);
      CountAboveRemoveAt(b, j, t);
    }
  }

  /** Permuting the rows permutes their totals. */
  lemma {:induction false} TotalsPermutation(a: seq<ScoreRow>, b: seq<ScoreRow>)
    requires multiset(a) == multiset(b)
    ensures multiset(Totals(a)) == multiset(Totals(b))
  {
    if a == [] {
      assert |b| == |multiset(b)| == 0;
    } else {
      var j := PermutationTail(a, b);
      var restB := b[..j] + b[j + 1..];
      TotalsPermutation(a[1..], restB);
      TotalsRemoveAt(b, j);
      RemoveAt(Totals(b), j);
      assert Totals(a) == [a[0].totalScore] + Totals(a[1..]);
    }
  }

  /** Two evaluation sets with the same multiset of totals give equal totals
      equal ranks, whatever the candidates and the row order. */
  lemma RankDependsOnTotals(a: seq<ScoreRow>, b: seq<ScoreRow>, i: int, j: int)
    requires multiset(Totals(a)) == multiset(Totals(b))
    requires 0 <= i < |a| && 0 <= j < |b| && a[i].totalScore == b[j].totalScore
    ensures Rank(a)[i].rankPosition == Rank(b)[j].rankPosition
  {
    var t := a[i].totalScore;
    CountAbovePermutation(a, b, t);
    assert Rank(a)[i].rankPosition == 1 + CountAbove(a, t);
    assert Rank(b)[j].rankPosition == 1 + CountAbove(b, t);
  }

  lemma {:induction false} RankAgainstAppend(a: seq<ScoreRow>, b: seq<ScoreRow>, all: seq<ScoreRow>)
    ensures RankAgainst(a + b, all) == RankAgainst(a, all) + RankAgainst(b, all)
  {
    if a != [] {
      assert (a + b)[1..] == a[1..] + b;
      RankAgainstAppend(a[1..], b, all);
    } else {
      assert a + b == b;
    }
  }

  /** Ranking `b` is ranking its row at `j` plus ranking the others, as multisets. */
  lemma RankAgainstRemoveAt(b: seq<ScoreRow>, j: int, all: seq<ScoreRow>)
    requires 0 <= j < |b|
    ensures multiset(RankAgainst(b, all))
            == multiset(RankAgainst([b[j]], all)) + multiset(RankAgainst(b[..j] + b[j + 1..], all))
  {
    assert b == b[..j] + ([b[j]] + b[j + 1..]);
    RankAgainstAppend(b[..j], [b[j]] + b[j + 1..], all);
    RankAgainstAppend([b[j]], b[j + 1..], all);
    RankAgainstAppend(b[..j], b[j + 1..], all);
  }

  lemma {:induction false} RankAgainstPermutation(a: seq<ScoreRow>, b: seq<ScoreRow>, all: seq<ScoreRow>)
    requires multiset(a) == multiset(b)
    ensures multiset(RankAgainst(a, all)) == multiset(RankAgainst(b, all))
  {
    if a == [] {
      assert |b| == |multiset(b)| == 0;
    } else {
      var j := PermutationTail(a, b);
      var restA, restB := a[1..], b[..j] + b[j + 1..];
      var head := multiset(RankAgainst([a[0]], all));
      RankAgainstPermutation(restA, restB, all);
      assert multiset(RankAgainst(b, all)) == head + multiset(RankAgainst(restB, all)) by {
        RankAgainstRemoveAt(b, j, all);
        assert [b[j]] == [a[0]];
      }
      assert multiset(RankAgainst(a, all)) == head + multiset(RankAgainst(restA, all)) by {
        assert a == [a[0]] + restA;
        RankAgainstAppend([a[0]], restA, all);
      }
    }
  }

  /** Permuting the evaluation rows, as a database may when it re-reads an
      unchanged table, yields the same ranking rows: recomputing the ranking
      over an unchanged evaluation set is idempotent. */
  lemma RankPermutationInvariant(a: seq<ScoreRow>, b: seq<ScoreRow>)
    requires multiset(a) == multiset(b)
    ensures multiset(Rank(a)) == multiset(Rank(b))
  {
    assert Rank(a) == RankAgainst(a, a) && Rank(b) == RankAgainst(b, b);
    RankAgainstPermutation(a, b, a);
    TotalsPermutation(a, b);
    var viaA, viaB := RankAgainst(b, a), RankAgainst(b, b);
    forall i | 0 <= i < |b|
      ensures viaA[i] == viaB[i]
    {
      CountAbovePermutation(a, b, b[i].totalScore);
    }
    assert viaA == viaB;
  }
}
