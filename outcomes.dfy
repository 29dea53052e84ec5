/**
 * What `customerSuccessBalancing` returns on inputs that pass its checks: the
 * winner rule stated over the served counts, the single-representative case,
 * and the facts that make the result independent of how the two sorts are done.
 */
module Outcomes {
  import opened Entities
  import opened Rules
  import opened Sorting
  import opened Allocator

  /** Reordering representatives keeps their scores distinct. */
  lemma DistinctScoresPermutation(a: seq<CustomerSuccess>, b: seq<CustomerSuccess>)
    requires DistinctScores(a)
    requires multiset(b) == multiset(a)
    ensures DistinctScores(b)
  {
    assert NoRepeats(a);
    forall i, j | 0 <= i < j < |b| ensures b[i].score != b[j].score {
      if b[i] == b[j] {
        OccursTwice(b, i, j);
        OccursOnce(a, b[i]);
      } else {
        assert b[i] in multiset(a) && b[j] in multiset(a);
        var p :| 0 <= p < |a| && a[p] == b[i];
        var q :| 0 <= q < |a| && a[q] == b[j];
        assert p != q;
      }
    }
  }

  /** The tail of a strictly ascending sequence is strictly ascending. */
  lemma StrictTail(r: seq<CustomerSuccess>)
    requires StrictlyAscending(r) && r != []
    ensures StrictlyAscending(r[1..])
  {
    forall i, j | 0 <= i < j < |r[1..]| ensures r[1..][i].score < r[1..][j].score {
      assert r[1..][i] == r[i + 1] && r[1..][j] == r[j + 1];
    }
  }

  /** Two strictly ascending orderings of the same representatives start alike. */
  lemma SameHead(r1: seq<CustomerSuccess>, r2: seq<CustomerSuccess>)
    requires StrictlyAscending(r1) && StrictlyAscending(r2)
    requires multiset(r1) == multiset(r2)
    requires r1 != []
    ensures r2 != [] && r1[0] == r2[0]
  {
    assert r1[0] in multiset(r2);
    var k :| 0 <= k < |r2| && r2[k] == r1[0];
    assert r2[0] in multiset(r1);
    var m :| 0 <= m < |r1| && r1[m] == r2[0];
  }

  /** Two orderings of the same representatives, both with strictly rising scores, are the same. */
  lemma {:induction false} StrictOrderUnique(r1: seq<CustomerSuccess>, r2: seq<CustomerSuccess>)
    requires StrictlyAscending(r1) && StrictlyAscending(r2)
    requires multiset(r1) == multiset(r2)
    ensures r1 == r2
  {
    if r1 == [] {
      assert |multiset(r2)| == 0;
    } else {
      SameHead(r1, r2);
      assert r1 == [r1[0]] + r1[1..] && r2 == [r2[0]] + r2[1..];
      assert multiset(r1[1..]) == multiset(r1) - multiset{r1[0]};
      assert multiset(r2[1..]) == multiset(r2) - multiset{r2[0]};
      StrictTail(r1);
      StrictTail(r2);
      StrictOrderUnique(r1[1..], r2[1..]);
    }
  }

  /**
   * With distinct scores there is exactly one ascending order: any sort that
   * honours the comparator yields the same sequence, with strictly rising scores.
   */
  lemma AscendingSortUnique(active: seq<CustomerSuccess>, other: seq<CustomerSuccess>)
    requires DistinctScores(active)
    requires multiset(other) == multiset(active)
    requires SortedBy(other, SortByScore)
    ensures StrictlyAscending(other)
    ensures other == SortBy(active, SortByScore, ScoreKey)
  {
    KeyComparators();
    var sorted := SortBy(active, SortByScore, ScoreKey);
    DistinctScoresPermutation(active, other);
    DistinctScoresPermutation(active, sorted);
    assert StrictlyAscending(other) by {
      forall i, j | 0 <= i < j < |other| ensures other[i].score < other[j].score {
        assert SortByScore(other[i], other[j]) <= 0;
      }
    }
    assert StrictlyAscending(sorted) by {
      forall i, j | 0 <= i < j < |sorted| ensures sorted[i].score < sorted[j].score {
        assert SortByScore(sorted[i], sorted[j]) <= 0;
      }
    }
    StrictOrderUnique(other, sorted);
  }

  /** The served records of an input that passes every check. */
  function ActiveCounts(customerSuccess: seq<CustomerSuccess>, customers: seq<Customer>,
                        customerSuccessAway: seq<int>): seq<ServedRecord>
  {
    KeyComparators();
    Counts(customers, SortBy(NotAway(customerSuccess, customerSuccessAway), SortByScore, ScoreKey))
  }

  /** Each record carries the id and score of a representative at the same position. */
  lemma CountsFrom(customers: seq<Customer>, reps: seq<CustomerSuccess>)
    ensures forall x :: x in Counts(customers, reps) ==> exists a :: a in reps && a.id == x.id && a.score == x.score
    ensures DistinctScores(reps) ==> NoRepeats(Counts(customers, reps))
  {
    var counts := Counts(customers, reps);
    forall x | x in counts ensures exists a :: a in reps && a.id == x.id && a.score == x.score {
      var k :| 0 <= k < |counts| && counts[k] == x;
      CountsAt(customers, reps, k);
      assert reps[k] in reps;
    }
    if DistinctScores(reps) {
      forall i, j | 0 <= i < j < |counts| ensures counts[i] != counts[j] {
        CountsAt(customers, reps, i);
        CountsAt(customers, reps, j);
      }
    }
  }

  /** The records of distinct representatives are distinct, and none carries id 0. */
  lemma ActiveCountsDistinct(customerSuccess: seq<CustomerSuccess>, customers: seq<Customer>,
                             customerSuccessAway: seq<int>)
    requires FilterCustomerRules(customerSuccess, customerSuccessAway).Ok?
    ensures ActiveCounts(customerSuccess, customers, customerSuccessAway) != []
    ensures NoRepeats(ActiveCounts(customerSuccess, customers, customerSuccessAway))
    ensures forall x :: x in ActiveCounts(customerSuccess, customers, customerSuccessAway) ==> x.id != 0
  {
    KeyComparators();
    var active := NotAway(customerSuccess, customerSuccessAway);
    var sorted := SortBy(active, SortByScore, ScoreKey);
    DistinctScoresPermutation(active, sorted);
    assert |sorted| == |active| by {
      assert |multiset(sorted)| == |multiset(active)|;
    }
    CountsFrom(customers, sorted);
    assert forall a :: a in sorted ==> a in active by {
      forall a | a in sorted ensures a in active {
        assert a in multiset(active);
      }
    }
  }

  /**
   * The winner rule for the whole routine: on an input that passes every check
   * the result is 0 exactly when two representatives share the highest served
   * count; otherwise it is the id of the one representative that served strictly
   * more customers than every other active representative.
   */
  lemma BalancingWinner(customerSuccess: seq<CustomerSuccess>, customers: seq<Customer>,
                        customerSuccessAway: seq<int>)
    requires FilterCustomerRules(customerSuccess, customerSuccessAway).Ok?
    ensures Balancing(customerSuccess, customers, customerSuccessAway).Ok?
    ensures Balancing(customerSuccess, customers, customerSuccessAway).value == 0 <==>
              TopTie(ActiveCounts(customerSuccess, customers, customerSuccessAway))
    ensures Balancing(customerSuccess, customers, customerSuccessAway).value != 0 ==>
              exists x :: x in ActiveCounts(customerSuccess, customers, customerSuccessAway) &&
                          x.id == Balancing(customerSuccess, customers, customerSuccessAway).value &&
                          forall y :: y in ActiveCounts(customerSuccess, customers, customerSuccessAway) && y != x ==>
                                        y.served < x.served
  {
    KeyComparators();
    var counts := ActiveCounts(customerSuccess, customers, customerSuccessAway);
    var ranked := SortBy(counts, SortByServedDesc, ServedDescKey);
    ActiveCountsDistinct(customerSuccess, customers, customerSuccessAway);
    WinnerRule(counts, ranked);
  }

  /**
   * With a single active representative there is no second record to compare
   * with: that representative's id is returned, whatever it served.
   */
  lemma SingleRepresentative(customerSuccess: seq<CustomerSuccess>, customers: seq<Customer>,
                             customerSuccessAway: seq<int>)
    requires FilterCustomerRules(customerSuccess, customerSuccessAway).Ok?
    requires |NotAway(customerSuccess, customerSuccessAway)| == 1
    ensures Balancing(customerSuccess, customers, customerSuccessAway) ==
              Ok(NotAway(customerSuccess, customerSuccessAway)[0].id)
  {
    KeyComparators();
    var active := NotAway(customerSuccess, customerSuccessAway);
    var sorted := SortBy(active, SortByScore, ScoreKey);
    var counts := Counts(customers, sorted);
    var ranked := SortBy(counts, SortByServedDesc, ServedDescKey);
    assert active == [active[0]];
    assert |multiset(sorted)| == 1;
    assert sorted[0] in multiset(active);
    CountsAt(customers, sorted, 0);
    assert |multiset(ranked)| == 1;
    assert ranked[0] in multiset(counts);
  }

  /** In an ascending order, the representatives weaker than the one at `k` are those before it. */
  lemma BeforeIsWeaker(active: seq<CustomerSuccess>, sorted: seq<CustomerSuccess>, k: nat, v: int)
    requires StrictlyAscending(sorted)
    requires multiset(sorted) == multiset(active)
    requires k < |sorted|
    ensures forall a :: a in sorted[..k] <==> a in active && a.score < sorted[k].score
    ensures (forall j :: 0 <= j < k ==> sorted[j].score < v) <==>
            (forall a :: a in active && a.score < sorted[k].score ==> a.score < v)
  {
    forall a | a in sorted[..k] ensures a in active && a.score < sorted[k].score {
      var j :| 0 <= j < k && sorted[..k][j] == a;
      assert sorted[j] in multiset(active);
    }
    forall a | a in active && a.score < sorted[k].score ensures a in sorted[..k] {
      assert a in multiset(sorted);
      var m :| 0 <= m < |sorted| && sorted[m] == a;
      assert m < k;
      assert sorted[..k][m] == a;
    }
    if forall j :: 0 <= j < k ==> sorted[j].score < v {
      forall a | a in active && a.score < sorted[k].score ensures a.score < v {
        assert a in multiset(sorted);
        var m :| 0 <= m < |sorted| && sorted[m] == a;
        assert m < k;
      }
    }
    if forall a :: a in active && a.score < sorted[k].score ==> a.score < v {
      forall j | 0 <= j < k ensures sorted[j].score < v {
        assert sorted[j] in multiset(active);
      }
    }
  }

  /**
   * Greedy assignment after the ascending sort: when scores are distinct, the
   * representative at position `k` of the sorted order takes exactly the
   * customers it covers that no weaker active representative covers.
   */
  lemma SortedGreedy(customers: seq<Customer>, active: seq<CustomerSuccess>, k: nat)
    requires DistinctScores(active)
    requires k < |active|
    ensures var sorted := SortBy(active, SortByScore, ScoreKey);
            var x := Counts(customers, sorted)[k];
            x == ServedRecord(sorted[k].id, sorted[k].score, |Claims(customers, sorted, k)|) &&
            forall c :: c in Claims(customers, sorted, k) <==>
              c in customers && c.score <= x.score &&
              forall a :: a in active && a.score < x.score ==> a.score < c.score
  {
    KeyComparators();
    var sorted := SortBy(active, SortByScore, ScoreKey);
    AscendingSortUnique(active, sorted);
    Greedy(customers, sorted, k);
    CountsAt(customers, sorted, k);
    forall c: Customer
      ensures c in Claims(customers, sorted, k) <==>
                c in customers && c.score <= sorted[k].score &&
                forall a :: a in active && a.score < sorted[k].score ==> a.score < c.score
    {
      BeforeIsWeaker(active, sorted, k, c.score);
    }
  }
}
