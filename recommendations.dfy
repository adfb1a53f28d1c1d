/**
 * The strategic recommendation list: every bet of the last calculation that has
 * a positive EV, best EV first.
 */
module Recommendations {
  import opened Wrappers
  import opened Results
  import Kelly

  /** Every bet of a result, in the order the list is built: the five main and pair bets, the tie bonuses, the five tiger bets. */
  function Collected(r: CalculationResult): (all: seq<EvResult>)
    ensures |all| == |r.tieBonuses| + 10
    ensures all[..5] == [r.player, r.banker, r.tie, r.playerPair, r.bankerPair]
    ensures all[5..5 + |r.tieBonuses|] == r.tieBonuses
    ensures all[5 + |r.tieBonuses|..] == [r.tiger, r.smallTiger, r.bigTiger, r.tigerTie, r.tigerPair]
  {
    [r.player, r.banker, r.tie, r.playerPair, r.bankerPair]
    + r.tieBonuses
    + [r.tiger, r.smallTiger, r.bigTiger, r.tigerTie, r.tigerPair]
  }

  /** EVs never increase along the list. */
  predicate NonIncreasing(s: seq<EvResult>)
  {
    forall i, j :: 0 <= i < j < |s| ==> s[i].ev >= s[j].ev
  }

  /** The entries of `s` whose EV is exactly `e`, in their order in `s`. */
  function WithEv(s: seq<EvResult>, e: real): seq<EvResult>
  {
    if s == [] then [] else (if s[0].ev == e then [s[0]] else []) + WithEv(s[1..], e)
  }

  /** `filter(item => item.ev > 0)`: the entries with a positive EV, each as often as in `s`. */
  function Positives(s: seq<EvResult>): (r: seq<EvResult>)
    ensures forall x :: multiset(r)[x] == if x.ev > 0.0 then multiset(s)[x] else 0
  {
    if s == [] then []
    else
      assert s == [s[0]] + s[1..];
      (if s[0].ev > 0.0 then [s[0]] else []) + Positives(s[1..])
  }

  /**
   * Places `x` into a list sorted by decreasing EV, after every entry with a larger
   * EV and before the rest; the list stays sorted and gains exactly `x`.
   */
  function Insert(x: EvResult, s: seq<EvResult>): (r: seq<EvResult>)
    requires NonIncreasing(s)
    ensures NonIncreasing(r)
    ensures multiset(r) == multiset(s) + multiset{x}
    ensures forall y :: y in r ==> y in s || y == x
  {
    if s == [] || s[0].ev <= x.ev then
      PrependLargest(x, s);
      [x] + s
    else
      var rest := Insert(x, s[1..]);
      assert s == [s[0]] + s[1..];
      PrependLargest(s[0], rest);
      [s[0]] + rest
  }

  /** A sorted list stays sorted when an entry at least as large as its first is put in front. */
  lemma PrependLargest(h: EvResult, t: seq<EvResult>)
    requires NonIncreasing(t) && (t == [] || h.ev >= t[0].ev)
    ensures NonIncreasing([h] + t)
  {
    var r := [h] + t;
    forall i, j | 0 <= i < j < |r| ensures r[i].ev >= r[j].ev {
      if i == 0 {
        assert r[j] == t[j - 1];
        assert t[0].ev >= t[j - 1].ev;
      } else {
        assert r[i] == t[i - 1] && r[j] == t[j - 1];
      }
    }
  }

  /** `sort((a, b) => b.ev - a.ev)`: a permutation of `s` with EVs non-increasing. */
  function SortByEv(s: seq<EvResult>): (r: seq<EvResult>)
    ensures NonIncreasing(r)
    ensures multiset(r) == multiset(s)
  {
    if s == [] then []
    else
      assert s == [s[0]] + s[1..];
      Insert(s[0], SortByEv(s[1..]))
  }

  /** The list of recommended bets: none without a result. */
  function PositiveEvBets(results: Option<CalculationResult>): (r: seq<EvResult>)
    ensures results.None? ==> r == []
    ensures NonIncreasing(r)
    ensures forall x :: x in r ==> x.ev > 0.0
    ensures results.Some? ==>
      forall x :: multiset(r)[x] == if x.ev > 0.0 then multiset(Collected(results.value))[x] else 0
  {
    if results.None? then []
    else
      var r := SortByEv(Positives(Collected(results.value)));
      assert forall x :: x in r ==> x.ev > 0.0 by {
        forall x | x in r ensures x.ev > 0.0 {
          assert multiset(r)[x] > 0;
        }
      }
      r
  }

  lemma {:induction false} WithEvAppend(a: seq<EvResult>, b: seq<EvResult>, e: real)
    ensures WithEv(a + b, e) == WithEv(a, e) + WithEv(b, e)
  {
    if a != [] {
      assert (a + b)[1..] == a[1..] + b;
      WithEvAppend(a[1..], b, e);
    } else {
      assert a + b == b;
    }
  }

  lemma WithEvSingle(y: EvResult, e: real)
    ensures WithEv([y], e) == if y.ev == e then [y] else []
  {
    assert [y][1..] == [];
  }

  /** Inserting `x` puts it before every entry of equal EV: the entries of any one EV keep their order. */
  lemma {:induction false} InsertStable(x: EvResult, s: seq<EvResult>, e: real)
    requires NonIncreasing(s)
    ensures WithEv(Insert(x, s), e) == WithEv([x], e) + WithEv(s, e)
  {
    if s == [] || s[0].ev <= x.ev {
      WithEvAppend([x], s, e);
    } else {
      var rest := Insert(x, s[1..]);
      var head, mid := WithEv([s[0]], e), WithEv([x], e);
      WithEvSingle(s[0], e);
      WithEvSingle(x, e);
      calc {
        WithEv(Insert(x, s), e);
        { assert Insert(x, s) == [s[0]] + rest; }
        WithEv([s[0]] + rest, e);
        { WithEvAppend([s[0]], rest, e); }
        head + WithEv(rest, e);
        { InsertStable(x, s[1..], e); }
        head + (mid + WithEv(s[1..], e));
        mid + (head + WithEv(s[1..], e));
        { WithEvAppend([s[0]], s[1..], e); assert [s[0]] + s[1..] == s; }
        mid + WithEv(s, e);
      }
    }
  }

  /** The sort is stable: for every EV, the entries with that EV keep their relative order. */
  lemma {:induction false} SortStable(s: seq<EvResult>, e: real)
    ensures WithEv(SortByEv(s), e) == WithEv(s, e)
  {
    if s != [] {
      var sortedTail := SortByEv(s[1..]);
      calc {
        WithEv(SortByEv(s), e);
        WithEv(Insert(s[0], sortedTail), e);
        { InsertStable(s[0], sortedTail, e); }
        WithEv([s[0]], e) + WithEv(sortedTail, e);
        { SortStable(s[1..], e); }
        WithEv([s[0]], e) + WithEv(s[1..], e);
        { WithEvAppend([s[0]], s[1..], e); assert [s[0]] + s[1..] == s; }
        WithEv(s, e);
      }
    }
  }

  /** Filtering keeps, for a positive EV, exactly the entries of that EV in order, and none otherwise. */
  lemma {:induction false} PositivesWithEv(s: seq<EvResult>, e: real)
    ensures WithEv(Positives(s), e) == if e > 0.0 then WithEv(s, e) else []
  {
    if s != [] {
      PositivesWithEv(s[1..], e);
      var head := if s[0].ev > 0.0 then [s[0]] else [];
      WithEvAppend(head, Positives(s[1..]), e);
    }
  }

  /**
   * The recommendations list the bets of each positive EV in the order the
   * result gives them (a stable sort), and no bet of any other EV.
   */
  lemma PositiveEvBetsOrder(res: CalculationResult, e: real)
    ensures WithEv(PositiveEvBets(Some(res)), e) == if e > 0.0 then WithEv(Collected(res), e) else []
  {
    SortStable(Positives(Collected(res)), e);
    PositivesWithEv(Collected(res), e);
  }

  /** The list is empty exactly when no bet of the result has a positive EV. */
  lemma NoAdvantageMeansEmpty(res: CalculationResult)
    ensures PositiveEvBets(Some(res)) == [] <==> forall x :: x in Collected(res) ==> x.ev <= 0.0
  {
    var all, r := Collected(res), PositiveEvBets(Some(res));
    if r == [] {
      forall x | x in all ensures x.ev <= 0.0 {
        assert multiset(all)[x] > 0 && multiset(r)[x] == 0;
      }
    } else {
      var x := r[0];
      assert multiset(r)[x] > 0 && x.ev > 0.0;
      assert multiset(all)[x] > 0;
      assert x in all;
    }
  }

  /** A bet of the result that is left off the list is never given a stake. */
  lemma UnlistedBetsGetNoStake(res: CalculationResult, item: EvResult, bankroll: real)
    ensures item in Collected(res) && item !in PositiveEvBets(Some(res)) ==> Kelly.Stake(item, bankroll) == 0
  {
    var r := PositiveEvBets(Some(res));
    if item in Collected(res) && item !in r {
      assert multiset(r)[item] == 0;
    }
  }
}
