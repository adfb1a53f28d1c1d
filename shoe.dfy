/**
 * The shoe inventory table of the calculator: for every card rank, the number
 * of cards of that rank still in the shoe (the `DeckCounts` dictionary).
 */
module Shoe {

  /** Remaining count per rank. */
  type Counts = map<int, int>

  /** No rank has a negative count. */
  ghost predicate NonNegative(m: Counts)
  {
    forall r :: r in m ==> m[r] >= 0
  }

  /** The ranks listed, as a set. */
  function RankSet(ranks: seq<int>): set<int>
  {
    set r | r in ranks
  }

  /** Every listed rank, and nothing else, holds exactly `n` cards. */
  predicate IsFull(m: Counts, ranks: seq<int>, n: int)
  {
    m.Keys == RankSet(ranks) && forall r :: r in m ==> m[r] == n
  }

  /** No rank is listed twice. */
  predicate Distinct(ranks: seq<int>)
  {
    forall i, j :: 0 <= i < j < |ranks| ==> ranks[i] != ranks[j]
  }

  /**
   * Builds a full shoe the way the initial state and the reset do: starting from an
   * empty dictionary, every rank in turn is given `n` cards.
   */
  method NewShoe(ranks: seq<int>, n: int) returns (m: Counts)
    ensures IsFull(m, ranks, n)
  {
    m := map[];
    var i := 0;
    while i < |ranks|
      invariant 0 <= i <= |ranks|
      invariant m.Keys == RankSet(ranks[..i])
      invariant forall r :: r in m ==> m[r] == n
    {
      assert ranks[..i + 1] == ranks[..i] + [ranks[i]];
      m := m[ranks[i] := n];
      i := i + 1;
    }
    assert ranks[..i] == ranks;
  }

  /** Two full shoes over the same ranks and count are the same table. */
  lemma FullShoeUnique(m1: Counts, m2: Counts, ranks: seq<int>, n: int)
    requires IsFull(m1, ranks, n) && IsFull(m2, ranks, n)
    ensures m1 == m2
  {
    assert forall r :: r in m1 ==> m1[r] == m2[r];
  }

  /** `Math.max(0, c)`. */
  function Clamp(c: int): (r: nat)
    ensures r >= c
    ensures r == c || r == 0
  {
    if c < 0 then 0 else c
  }

  /**
   * The table after adding `delta` to the count of `rank`, clamped at zero:
   * only that rank changes, and a table without negative counts keeps none.
   */
  function Bumped(m: Counts, rank: int, delta: int): (r: Counts)
    requires rank in m
    ensures r.Keys == m.Keys
    ensures r[rank] >= 0 && r[rank] >= m[rank] + delta
    ensures r[rank] == m[rank] + delta || r[rank] == 0
    ensures forall k :: k in m && k != rank ==> r[k] == m[k]
    ensures NonNegative(m) ==> NonNegative(r)
  {
    m[rank := Clamp(m[rank] + delta)]
  }

  /** Pressing "+" and then "-" on a rank gives back the table. */
  lemma AddThenRemove(m: Counts, rank: int)
    requires rank in m && m[rank] >= 0
    ensures Bumped(Bumped(m, rank, 1), rank, -1) == m
  {
    assert Bumped(Bumped(m, rank, 1), rank, -1)[rank] == m[rank];
  }

  /**
   * Pressing "-" and then "+" gives back the table exactly when the rank still had
   * a card; on an empty rank the "-" is lost and the rank ends with one card.
   */
  lemma RemoveThenAdd(m: Counts, rank: int)
    requires rank in m && m[rank] >= 0
    ensures Bumped(Bumped(m, rank, -1), rank, 1) == m <==> m[rank] > 0
    ensures m[rank] == 0 ==> Bumped(Bumped(m, rank, -1), rank, 1)[rank] == 1
  {
    if m[rank] > 0 {
      assert Bumped(Bumped(m, rank, -1), rank, 1)[rank] == m[rank];
    } else {
      assert Bumped(Bumped(m, rank, -1), rank, 1)[rank] != m[rank];
    }
  }

  /**
   * Number of cards left in the shoe, summed over the listed ranks. This total is
   * defined by the model: the component itself only displays the total that the
   * EV engine reports, and that engine is not part of this model.
   */
  function CardsLeft(m: Counts, ranks: seq<int>): int
  {
    if ranks == [] then 0
    else (if ranks[0] in m then m[ranks[0]] else 0) + CardsLeft(m, ranks[1..])
  }

  /** With no negative count, the shoe never holds a negative number of cards. */
  lemma {:induction false} CardsLeftNonNegative(m: Counts, ranks: seq<int>)
    requires NonNegative(m)
    ensures CardsLeft(m, ranks) >= 0
  {
    if ranks != [] {
      CardsLeftNonNegative(m, ranks[1..]);
      var r := ranks[0];
      if r in m {
        assert m[r] >= 0;
      }
    }
  }

  /** A full shoe holds `n` cards of every listed rank. */
  lemma {:induction false} FullShoeCardsLeft(m: Counts, ranks: seq<int>, n: int)
    requires forall i :: 0 <= i < |ranks| ==> ranks[i] in m && m[ranks[i]] == n
    ensures CardsLeft(m, ranks) == |ranks| * n
  {
    if ranks != [] {
      FullShoeCardsLeft(m, ranks[1..], n);
      assert ranks[0] in m && m[ranks[0]] == n;
      assert |ranks| * n == n + |ranks[1..]| * n;
    }
  }

  /** With no rank listed twice, there are as many distinct ranks as list entries. */
  lemma {:induction false} DistinctRankCount(ranks: seq<int>)
    requires Distinct(ranks)
    ensures |RankSet(ranks)| == |ranks|
  {
    if ranks != [] {
      var tail := ranks[1..];
      assert Distinct(tail) by {
        forall i, j | 0 <= i < j < |tail| ensures tail[i] != tail[j] {
          assert ranks[i + 1] != ranks[j + 1];
        }
      }
      DistinctRankCount(tail);
      assert ranks[0] !in RankSet(tail) by {
        forall j | 0 <= j < |tail| ensures tail[j] != ranks[0] {
          assert ranks[0] != ranks[j + 1];
        }
      }
      assert RankSet(ranks) == {ranks[0]} + RankSet(tail) by {
        assert ranks == [ranks[0]] + tail;
      }
    }
  }

  /**
   * A freshly built or reset shoe sums to `n` per list entry; when no rank is
   * listed twice, that is `n` cards for every distinct rank in the table.
   */
  lemma FullShoeTotal(m: Counts, ranks: seq<int>, n: int)
    requires IsFull(m, ranks, n)
    ensures CardsLeft(m, ranks) == |ranks| * n
    ensures Distinct(ranks) ==> CardsLeft(m, ranks) == |m| * n
  {
    if Distinct(ranks) {
      DistinctRankCount(ranks);
      assert m.Keys == RankSet(ranks);
    }
    forall i | 0 <= i < |ranks| ensures ranks[i] in m && m[ranks[i]] == n {
      var r := ranks[i];
      assert r in ranks && r in RankSet(ranks);
      assert r in m.Keys;
    }
    FullShoeCardsLeft(m, ranks, n);
  }

  /** Changing a rank that is not listed does not change the sum. */
  lemma {:induction false} CardsLeftElsewhere(m: Counts, ranks: seq<int>, rank: int, c: int)
    requires rank !in ranks
    ensures CardsLeft(m[rank := c], ranks) == CardsLeft(m, ranks)
  {
    if ranks != [] {
      CardsLeftElsewhere(m, ranks[1..], rank, c);
    }
  }

  /**
   * A press on one rank changes the number of cards left by exactly the amount that
   * rank's count changed: `delta`, unless the clamp at zero cut it short.
   */
  lemma {:induction false} BumpCardsLeft(m: Counts, ranks: seq<int>, rank: int, delta: int)
    requires rank in m && Distinct(ranks) && rank in ranks
    ensures CardsLeft(Bumped(m, rank, delta), ranks)
         == CardsLeft(m, ranks) + Clamp(m[rank] + delta) - m[rank]
  {
    var r := Bumped(m, rank, delta);
    assert r == m[rank := Clamp(m[rank] + delta)];
    if ranks[0] == rank {
      assert rank !in ranks[1..] by {
        forall j | 1 <= j < |ranks| ensures ranks[j] != rank {
          assert ranks[0] != ranks[j];
        }
      }
      CardsLeftElsewhere(m, ranks[1..], rank, Clamp(m[rank] + delta));
    } else {
      assert Distinct(ranks[1..]) by {
        forall i, j | 0 <= i < j < |ranks[1..]| ensures ranks[1..][i] != ranks[1..][j] {
          assert ranks[i + 1] != ranks[j + 1];
        }
      }
      BumpCardsLeft(m, ranks[1..], rank, delta);
    }
  }
}
