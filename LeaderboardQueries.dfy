/** The ranking engine: the dense-rank view over the score set and the three
    queries read from it (a player's rank, the top rows, a rank window). The
    SQL common table expression is replaced by explicit functions over the map
    from player id to score; the queries read that map and change nothing. */
module LeaderboardQueries {
  import opened Text
  import opened Domain

  /** What the ranking view reads: the current score of every player. */
  type ScoreSet = map<string, int>

  function Min(a: int, b: int): int {
    if a <= b then a else b
  }

  /** The distinct scores strictly above `s`. */
  function HigherScores(scores: ScoreSet, s: int): set<int> {
    set q | q in scores.Values && q > s
  }

  lemma SubsetCardinality(a: set<int>, b: set<int>)
    requires a <= b
    ensures |a| <= |b|
  {
    assert b == a + (b - a);
  }

  /** `DENSE_RANK() OVER (ORDER BY Score DESC)`: one more than the number of
      distinct scores above the player's own; never beyond the number of
      distinct scores. */
  function DenseRank(scores: ScoreSet, playerId: string): (rank: int)
    requires playerId in scores
    ensures 1 <= rank <= |scores.Values|
  {
    var s := scores[playerId];
    SubsetCardinality(HigherScores(scores, s), scores.Values - {s});
    1 + |HigherScores(scores, s)|
  }

  lemma {:induction false} HigherScoreRanksAbove(scores: ScoreSet, a: string, b: string)
    requires a in scores && b in scores && scores[a] > scores[b]
    ensures DenseRank(scores, a) < DenseRank(scores, b)
  {
    var ha, hb := HigherScores(scores, scores[a]), HigherScores(scores, scores[b]);
    assert scores[a] in scores.Values;
    assert ha + {scores[a]} <= hb;
    SubsetCardinality(ha + {scores[a]}, hb);
  }

  /** Dense ranking agrees with the score order in both directions: equal scores
      share a rank, and a higher score is exactly a smaller rank. */
  lemma DenseRankFollowsScore(scores: ScoreSet, a: string, b: string)
    requires a in scores && b in scores
    ensures scores[a] > scores[b] <==> DenseRank(scores, a) < DenseRank(scores, b)
    ensures scores[a] == scores[b] <==> DenseRank(scores, a) == DenseRank(scores, b)
  {
    if scores[a] > scores[b] {
      HigherScoreRanksAbove(scores, a, b);
    } else if scores[b] > scores[a] {
      HigherScoreRanksAbove(scores, b, a);
    }
  }

  lemma EmptyOrHasElement(vals: set<int>)
    ensures vals == {} || exists v :: v in vals
  {
    if forall v :: v !in vals {
      assert vals == {};
    }
  }

  lemma MaxOf(vals: set<int>) returns (m: int)
    requires vals != {}
    ensures m in vals
    ensures forall q :: q in vals ==> q <= m
    decreases |vals|
  {
    EmptyOrHasElement(vals);
    var x :| x in vals;
    if vals == {x} {
      m := x;
    } else {
      var n := MaxOf(vals - {x});
      m := if x > n then x else n;
      forall q | q in vals
        ensures q <= m
      {
        if q != x {
          assert q in vals - {x};
        }
      }
    }
  }

  /** Every count below the number of distinct values is the number of values
      above one of them. */
  lemma {:induction false} KthLargestExists(vals: set<int>, j: nat)
    requires j < |vals|
    ensures exists v :: v in vals && |set q | q in vals && q > v| == j
    decreases |vals|
  {
    var m := MaxOf(vals);
    if j == 0 {
      assert (set q | q in vals && q > m) == {};
    } else {
      var rest := vals - {m};
      KthLargestExists(rest, j - 1);
      var v :| v in rest && |set q | q in rest && q > v| == j - 1;
      assert (set q | q in vals && q > v) == (set q | q in rest && q > v) + {m};
    }
  }

  /** The ranks the view hands out. */
  function RanksInUse(scores: ScoreSet): set<int> {
    set p | p in scores :: DenseRank(scores, p)
  }

  /** No gaps: the ranks in use are exactly 1 .. the number of distinct scores. */
  lemma DenseRanksHaveNoGaps(scores: ScoreSet)
    ensures forall k :: k in RanksInUse(scores) <==> 1 <= k <= |scores.Values|
  {
    forall k | 1 <= k <= |scores.Values|
      ensures k in RanksInUse(scores)
    {
      KthLargestExists(scores.Values, k - 1);
      var v :| v in scores.Values && |set q | q in scores.Values && q > v| == k - 1;
      var p :| p in scores && scores[p] == v;
      assert DenseRank(scores, p) == k;
    }
  }

  /** The worked example {A:100, B:90, C:90, D:80}: A is first, B and C share
      rank 2, and D follows at rank 3 with no gap. */
  lemma ExampleRanks()
    ensures var scores := map["A" := 100, "B" := 90, "C" := 90, "D" := 80];
            DenseRank(scores, "A") == 1 && DenseRank(scores, "B") == 2
            && DenseRank(scores, "C") == 2 && DenseRank(scores, "D") == 3
  {
    var scores := map["A" := 100, "B" := 90, "C" := 90, "D" := 80];
    forall v | v in scores.Values ensures v in {100, 90, 80} {
      var k :| k in scores && scores[k] == v;
    }
    assert scores["A"] in scores.Values && scores["B"] in scores.Values && scores["D"] in scores.Values;
    assert scores.Values == {100, 90, 80};
    assert HigherScores(scores, 100) == {};
    assert HigherScores(scores, 90) == {100};
    assert HigherScores(scores, 80) == {100, 90};
  }

  /** `GetPlayerRankAsync`: the player's rank and score, or `(-1, -1)` when the
      player has no row. */
  function GetPlayerRank(scores: ScoreSet, playerId: string): (r: RankAndScore)
    ensures r.rank > 0 <==> playerId in scores
    ensures playerId !in scores ==> r == RankAndScore(-1, -1)
    ensures playerId in scores ==> r.score == scores[playerId] && r.rank <= |scores.Values|
    ensures playerId in scores ==> r == RankAndScore(DenseRank(scores, playerId), scores[playerId])
  {
    if playerId in scores then RankAndScore(DenseRank(scores, playerId), scores[playerId])
    else RankAndScore(-1, -1)
  }

  /** The ranking view's row for one player. */
  function Row(scores: ScoreSet, playerId: string): RankedPlayer
    requires playerId in scores
  {
    RankedPlayer(playerId, scores[playerId], DenseRank(scores, playerId))
  }

  /** `ORDER BY [Rank], PlayerId`. */
  predicate RowBefore(x: RankedPlayer, y: RankedPlayer) {
    x.rank < y.rank || (x.rank == y.rank && OrdinalLess(x.playerId, y.playerId))
  }

  lemma RowBeforeIrreflexive(x: RankedPlayer)
    ensures !RowBefore(x, x)
  {
    OrdinalLessIrreflexive(x.playerId);
  }

  lemma RowBeforeTransitive(x: RankedPlayer, y: RankedPlayer, z: RankedPlayer)
    requires RowBefore(x, y) && RowBefore(y, z)
    ensures RowBefore(x, z)
  {
    if x.rank == y.rank == z.rank {
      OrdinalLessTransitive(x.playerId, y.playerId, z.playerId);
    }
  }

  lemma RowBeforeTotal(x: RankedPlayer, y: RankedPlayer)
    requires x.playerId != y.playerId
    ensures RowBefore(x, y) || RowBefore(y, x)
  {
    OrdinalLessTotal(x.playerId, y.playerId);
  }

  /** Strictly ordered by rank, then by player id (so no player twice). */
  predicate Sorted(rows: seq<RankedPlayer>) {
    forall i, j :: 0 <= i < j < |rows| ==> RowBefore(rows[i], rows[j])
  }

  /** Every row is the ranking view's row of a player in the score set. */
  predicate RowsOf(scores: ScoreSet, rows: seq<RankedPlayer>) {
    forall row :: row in rows ==> row.playerId in scores && row == Row(scores, row.playerId)
  }

  /** `m` is the player of `ids` whose row comes first. */
  predicate IsFirst(scores: ScoreSet, m: string, ids: set<string>)
    requires ids <= scores.Keys
  {
    m in ids && forall o :: o in ids && o != m ==> RowBefore(Row(scores, m), Row(scores, o))
  }

  lemma {:induction false} FirstExists(scores: ScoreSet, ids: set<string>)
    requires ids <= scores.Keys && ids != {}
    ensures exists m :: IsFirst(scores, m, ids)
    decreases |ids|
  {
    var x :| x in ids;
    if ids == {x} {
      assert IsFirst(scores, x, ids);
    } else {
      FirstExists(scores, ids - {x});
      var m :| IsFirst(scores, m, ids - {x});
      if RowBefore(Row(scores, x), Row(scores, m)) {
        forall o | o in ids && o != x
          ensures RowBefore(Row(scores, x), Row(scores, o))
        {
          if o != m {
            RowBeforeTransitive(Row(scores, x), Row(scores, m), Row(scores, o));
          }
        }
        assert IsFirst(scores, x, ids);
      } else {
        RowBeforeTotal(Row(scores, x), Row(scores, m));
        assert IsFirst(scores, m, ids);
      }
    }
  }

  lemma FirstUnique(scores: ScoreSet, ids: set<string>)
    requires ids <= scores.Keys
    ensures forall m1, m2 :: IsFirst(scores, m1, ids) && IsFirst(scores, m2, ids) ==> m1 == m2
  {
    forall m1, m2 | IsFirst(scores, m1, ids) && IsFirst(scores, m2, ids)
      ensures m1 == m2
    {
      if m1 != m2 {
        RowBeforeTransitive(Row(scores, m1), Row(scores, m2), Row(scores, m1));
        RowBeforeIrreflexive(Row(scores, m1));
      }
    }
  }

  /** The rows of the players in `ids`, in `ORDER BY [Rank], PlayerId` order. */
  function SortRows(scores: ScoreSet, ids: set<string>): (rows: seq<RankedPlayer>)
    requires ids <= scores.Keys
    ensures |rows| == |ids|
    ensures Sorted(rows)
    ensures forall row :: row in rows ==> row.playerId in ids && row == Row(scores, row.playerId)
    ensures forall p :: p in ids ==> Row(scores, p) in rows
    decreases |ids|
  {
    if ids == {} then []
    else
      FirstExists(scores, ids);
      FirstUnique(scores, ids);
      var m :| IsFirst(scores, m, ids);
      [Row(scores, m)] + SortRows(scores, ids - {m})
  }

  /** The whole ranking view, ordered: every player exactly once. */
  function Ranking(scores: ScoreSet): (rows: seq<RankedPlayer>)
    ensures |rows| == |scores|
    ensures Sorted(rows) && RowsOf(scores, rows)
    ensures forall p :: p in scores ==> Row(scores, p) in rows
  {
    SortRows(scores, scores.Keys)
  }

  lemma SortedTail(rows: seq<RankedPlayer>)
    requires rows != []
    ensures Sorted(rows) ==> Sorted(rows[1..]) && forall row :: row in rows[1..] ==> RowBefore(rows[0], row)
  {
    if Sorted(rows) {
      forall row | row in rows[1..]
        ensures RowBefore(rows[0], row)
      {
        var k :| 0 <= k < |rows[1..]| && rows[1..][k] == row;
        assert rows[k + 1] == row;
      }
    }
  }

  /** A `WHERE` over view rows: keeps exactly the rows `keep` accepts, in order. */
  function Where(rows: seq<RankedPlayer>, keep: RankedPlayer -> bool): (kept: seq<RankedPlayer>)
    ensures |kept| <= |rows|
    ensures forall row :: row in kept <==> row in rows && keep(row)
    ensures Sorted(rows) ==> Sorted(kept)
  {
    if rows == [] then []
    else
      SortedTail(rows);
      var rest := Where(rows[1..], keep);
      if keep(rows[0]) then [rows[0]] + rest else rest
  }

  /** `GetTopAsync`: `SELECT TOP(n) ... ORDER BY [Rank], PlayerId`. */
  function GetTop(scores: ScoreSet, top: nat): (rows: seq<RankedPlayer>)
    ensures |rows| == Min(top, |scores|)
    ensures Sorted(rows) && RowsOf(scores, rows)
  {
    Ranking(scores)[..Min(top, |scores|)]
  }

  /** A player left out of the top rows comes after every row in them. */
  lemma TopHoldsLeadingRows(scores: ScoreSet, top: nat, p: string)
    requires p in scores && Row(scores, p) !in GetTop(scores, top)
    ensures forall row :: row in GetTop(scores, top) ==> RowBefore(row, Row(scores, p))
  {
    var all := Ranking(scores);
    var n := Min(top, |scores|);
    var k :| 0 <= k < |all| && all[k] == Row(scores, p);
    assert k >= n;
    forall row | row in GetTop(scores, top)
      ensures RowBefore(row, Row(scores, p))
    {
      var i :| 0 <= i < n && all[..n][i] == row;
    }
  }

  /** `GetNearbyAsync`: the rows whose rank lies in
      `[max(1, targetRank - range), targetRank + range]`, ordered. */
  function GetNearby(scores: ScoreSet, targetRank: int, range: int): (rows: seq<RankedPlayer>)
    ensures Sorted(rows) && RowsOf(scores, rows)
    ensures forall row :: row in rows ==> 1 <= row.rank && targetRank - range <= row.rank <= targetRank + range
    ensures forall p :: p in scores ==>
              (Row(scores, p) in rows <==> targetRank - range <= DenseRank(scores, p) <= targetRank + range)
  {
    var minRank := if targetRank - range < 1 then 1 else targetRank - range;
    var maxRank := targetRank + range;
    Where(Ranking(scores), (row: RankedPlayer) => minRank <= row.rank <= maxRank)
  }
}
