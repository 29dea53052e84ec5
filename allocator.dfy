/**
 * `customerSuccessBalancing`: validate and filter the representatives, sort the
 * active ones by ascending score, let each in turn take every remaining customer
 * it covers, rank the served counts in descending order and name the winner.
 */
module Allocator {
  import opened Entities
  import opened Rules
  import opened Sorting
  import opened Pool

  /** The key whose differences the ascending comparator takes. */
  function ScoreKey(c: CustomerSuccess): (key: int) { c.score }

  /** The key whose differences the descending comparator takes. */
  function ServedDescKey(r: ServedRecord): (key: int) { -(r.served as int) }

  /** Both comparators are differences of a key, the contract `SortBy` asks of them. */
  lemma KeyComparators()
    ensures ComparesBy(SortByScore, ScoreKey)
    ensures ComparesBy(SortByServedDesc, ServedDescKey)
  {
  }

  /**
   * Both comparators are differences of a key, so each orders its records
   * totally and transitively, as a comparator passed to a sort must.
   */
  lemma ComparatorsAreKeyDifferences()
    ensures ComparesBy(SortByScore, ScoreKey)
    ensures ComparesBy(SortByServedDesc, ServedDescKey)
    ensures forall a, b :: SortByScore(a, b) <= 0 || SortByScore(b, a) <= 0
    ensures forall a, b, c :: SortByScore(a, b) <= 0 && SortByScore(b, c) <= 0 ==> SortByScore(a, c) <= 0
    ensures forall a, b :: SortByServedDesc(a, b) <= 0 || SortByServedDesc(b, a) <= 0
    ensures forall a, b, c ::
              SortByServedDesc(a, b) <= 0 && SortByServedDesc(b, c) <= 0 ==> SortByServedDesc(a, c) <= 0
  {
  }

  // ---------------------------------------------------------------------------
  // Assignment: the passes of the representatives, in the order given

  /** The customer pool once every representative of `reps` has made its pass, in order. */
  function PoolAfter(customers: seq<Customer>, reps: seq<CustomerSuccess>): (r: seq<Customer>)
  {
    if reps == [] then customers
    else Remaining(PoolAfter(customers, reps[..|reps| - 1]), reps[|reps| - 1].score)
  }

  /** The customers the representative at position `k` takes on its pass. */
  function Claims(customers: seq<Customer>, reps: seq<CustomerSuccess>, k: nat): (r: seq<Customer>)
    requires k < |reps|
  {
    Claimed(PoolAfter(customers, reps[..k]), reps[k].score)
  }

  /** The served records the passes produce, one per representative, in the order given. */
  function Counts(customers: seq<Customer>, reps: seq<CustomerSuccess>): (r: seq<ServedRecord>)
    ensures |r| == |reps|
  {
    if reps == [] then []
    else
      var k := |reps| - 1;
      Counts(customers, reps[..k]) + [ServedRecord(reps[k].id, reps[k].score, |Claims(customers, reps, k)|)]
  }

  /** Every customer taken by some pass, pass after pass. */
  ghost function AllClaimed(customers: seq<Customer>, reps: seq<CustomerSuccess>): (r: seq<Customer>)
  {
    if reps == [] then []
    else AllClaimed(customers, reps[..|reps| - 1]) + Claims(customers, reps, |reps| - 1)
  }

  /** The sum of the served counts. */
  function SumServed(records: seq<ServedRecord>): (total: nat)
  {
    if records == [] then 0 else SumServed(records[..|records| - 1]) + records[|records| - 1].served
  }

  /** The highest score among `reps`. */
  function MaxScore(reps: seq<CustomerSuccess>): (m: int)
    requires reps != []
    ensures exists k :: 0 <= k < |reps| && reps[k].score == m
    ensures forall k :: 0 <= k < |reps| ==> reps[k].score <= m
  {
    var last := reps[|reps| - 1].score;
    if |reps| == 1 then last
    else
      var front := MaxScore(reps[..|reps| - 1]);
      assert forall k :: 0 <= k < |reps| - 1 ==> reps[..|reps| - 1][k] == reps[k];
      if front < last then last else front
  }

  /** One more pass extends the records by one and shrinks the pool by what it took. */
  lemma PassStep(customers: seq<Customer>, reps: seq<CustomerSuccess>, k: nat)
    requires k < |reps|
    ensures Counts(customers, reps[..k + 1]) ==
              Counts(customers, reps[..k]) +
              [ServedRecord(reps[k].id, reps[k].score, |Claimed(PoolAfter(customers, reps[..k]), reps[k].score)|)]
    ensures PoolAfter(customers, reps[..k + 1]) == Remaining(PoolAfter(customers, reps[..k]), reps[k].score)
  {
    assert reps[..k + 1][..k] == reps[..k];
  }

  /** The record of position `k` names the representative there and counts exactly what it took. */
  lemma {:induction false} CountsAt(customers: seq<Customer>, reps: seq<CustomerSuccess>, k: nat)
    requires k < |reps|
    ensures Counts(customers, reps)[k] == ServedRecord(reps[k].id, reps[k].score, |Claims(customers, reps, k)|)
  {
    var n := |reps| - 1;
    if k < n {
      CountsAt(customers, reps[..n], k);
      assert reps[..n][..k] == reps[..k];
    }
  }

  /**
   * Conservation: every customer is taken by at most one pass, and the customers
   * taken plus the pool left over are exactly the customers given.
   */
  lemma {:induction false} Conservation(customers: seq<Customer>, reps: seq<CustomerSuccess>)
    ensures multiset(AllClaimed(customers, reps)) + multiset(PoolAfter(customers, reps)) == multiset(customers)
    ensures SumServed(Counts(customers, reps)) == |AllClaimed(customers, reps)|
    ensures SumServed(Counts(customers, reps)) + |PoolAfter(customers, reps)| == |customers|
  {
    if reps != [] {
      var n := |reps| - 1;
      Conservation(customers, reps[..n]);
      Split(PoolAfter(customers, reps[..n]), reps[n].score);
      var front := Counts(customers, reps[..n]);
      assert Counts(customers, reps)[..n] == front;
    }
  }

  /** Whatever the order of the passes, the pool ends as the customers above the highest score. */
  lemma {:induction false} PoolAfterAll(customers: seq<Customer>, reps: seq<CustomerSuccess>)
    requires reps != []
    ensures PoolAfter(customers, reps) == Remaining(customers, MaxScore(reps))
  {
    var n := |reps| - 1;
    if n == 0 {
      assert reps[..n] == [];
    } else {
      PoolAfterAll(customers, reps[..n]);
      RemainingTwice(customers, MaxScore(reps[..n]), reps[n].score);
    }
  }

  /**
   * The served counts add up to the number of customers whose score is at most
   * the highest representative score; the customers left are those above it, and
   * none of them is covered by any representative.
   */
  lemma TotalServed(customers: seq<Customer>, reps: seq<CustomerSuccess>)
    requires reps != []
    ensures SumServed(Counts(customers, reps)) == |Claimed(customers, MaxScore(reps))|
    ensures forall c :: c in PoolAfter(customers, reps) <==> c in customers && c.score > MaxScore(reps)
    ensures forall c, k :: c in PoolAfter(customers, reps) && 0 <= k < |reps| ==> reps[k].score < c.score
  {
    Conservation(customers, reps);
    PoolAfterAll(customers, reps);
    Split(customers, MaxScore(reps));
    Members(customers, MaxScore(reps), MaxScore(reps));
  }

  /** Scores rise strictly along the sequence. */
  predicate StrictlyAscending(reps: seq<CustomerSuccess>) {
    forall i, j :: 0 <= i < j < |reps| ==> reps[i].score < reps[j].score
  }

  /**
   * Greedy assignment: with the representatives in ascending score order, the
   * representative at position `k` takes exactly the customers it covers that no
   * earlier (weaker) representative covers, which is the band of scores above
   * its predecessor's score and up to its own.
   */
  lemma Greedy(customers: seq<Customer>, reps: seq<CustomerSuccess>, k: nat)
    requires StrictlyAscending(reps)
    requires k < |reps|
    ensures forall c :: c in Claims(customers, reps, k) <==>
              c in customers && c.score <= reps[k].score && forall j :: 0 <= j < k ==> reps[j].score < c.score
    ensures k == 0 ==> Claims(customers, reps, k) == Claimed(customers, reps[0].score)
    ensures k > 0 ==> Claims(customers, reps, k) == Between(customers, reps[k - 1].score, reps[k].score)
    ensures Counts(customers, reps)[k].served == |Claims(customers, reps, k)|
  {
    CountsAt(customers, reps, k);
    if k == 0 {
      assert reps[..0] == [];
      Members(customers, reps[0].score, reps[0].score);
    } else {
      var front := reps[..k];
      PoolAfterAll(customers, front);
      assert front[k - 1] == reps[k - 1];
      assert MaxScore(front) == reps[k - 1].score;
      ClaimedAfter(customers, reps[k - 1].score, reps[k].score);
      Members(customers, reps[k - 1].score, reps[k].score);
    }
  }

  // ---------------------------------------------------------------------------
  // Ranking

  /** `ranked[i]?.served`: absent past the end. */
  function ServedAt(ranked: seq<ServedRecord>, i: nat): (served: Option<nat>)
  {
    if i < |ranked| then Some(ranked[i].served) else None
  }

  /** Zero when the first two served counts are equal, the first record's id otherwise. */
  function Winner(ranked: seq<ServedRecord>): (id: int)
  {
    if ServedAt(ranked, 0) == ServedAt(ranked, 1) then 0 else ranked[0].id
  }

  /** Nobody served more than `x`. */
  ghost predicate IsTop(records: seq<ServedRecord>, x: ServedRecord) {
    x in records && forall y :: y in records ==> y.served <= x.served
  }

  /** Two different records share the highest served count. */
  ghost predicate TopTie(records: seq<ServedRecord>) {
    exists x, y :: IsTop(records, x) && y in records && y != x && y.served == x.served
  }

  /** The head of a descending sort of the records is a top record. */
  lemma RankedHeadIsTop(records: seq<ServedRecord>, ranked: seq<ServedRecord>)
    requires ranked != []
    requires multiset(ranked) == multiset(records)
    requires SortedBy(ranked, SortByServedDesc)
    ensures IsTop(records, ranked[0])
  {
    assert ranked[0] in multiset(records);
    forall y | y in records ensures y.served <= ranked[0].served {
      assert y in multiset(ranked);
      var j :| 0 <= j < |ranked| && ranked[j] == y;
      if j > 0 {
        assert SortByServedDesc(ranked[0], ranked[j]) <= 0;
      }
    }
  }

  /** When the first two of a descending sort differ in count, the head served more than every other record. */
  lemma RankedHeadStrict(records: seq<ServedRecord>, ranked: seq<ServedRecord>)
    requires ranked != []
    requires multiset(ranked) == multiset(records)
    requires SortedBy(ranked, SortByServedDesc)
    requires |ranked| < 2 || ranked[0].served != ranked[1].served
    ensures forall y :: y in records && y != ranked[0] ==> y.served < ranked[0].served
  {
    forall y | y in records && y != ranked[0] ensures y.served < ranked[0].served {
      assert y in multiset(ranked);
      var j :| 0 <= j < |ranked| && ranked[j] == y;
      assert j >= 1;
      if j > 1 {
        assert SortByServedDesc(ranked[1], ranked[j]) <= 0;
      }
      assert SortByServedDesc(ranked[0], ranked[1]) <= 0;
    }
  }

  /**
   * The winner rule, for any descending sort of the records: zero when two
   * records share the highest count, otherwise the id of the one record that
   * served strictly more than every other.
   */
  lemma WinnerRule(records: seq<ServedRecord>, ranked: seq<ServedRecord>)
    requires records != []
    requires NoRepeats(records)
    requires multiset(ranked) == multiset(records)
    requires SortedBy(ranked, SortByServedDesc)
    ensures TopTie(records) ==> Winner(ranked) == 0
    ensures !TopTie(records) ==>
              exists x :: x in records && Winner(ranked) == x.id &&
                          forall y :: y in records && y != x ==> y.served < x.served
  {
    assert ranked != [] by {
      assert records[0] in multiset(ranked);
    }
    RankedHeadIsTop(records, ranked);
    if |ranked| >= 2 && ranked[0].served == ranked[1].served {
      if ranked[0] == ranked[1] {
        OccursTwice(ranked, 0, 1);
        OccursOnce(records, ranked[0]);
        assert false;
      }
      assert ranked[1] in multiset(records);
      assert TopTie(records);
    } else {
      RankedHeadStrict(records, ranked);
      assert Winner(ranked) == ranked[0].id;
    }
  }

  // ---------------------------------------------------------------------------
  // The routine

  /** The customers no active representative covers are exactly those the passes leave in the pool. */
  lemma LeftOver(customers: seq<Customer>, active: seq<CustomerSuccess>, sorted: seq<CustomerSuccess>)
    requires active != []
    requires multiset(sorted) == multiset(active)
    ensures forall c :: c in PoolAfter(customers, sorted) <==>
              c in customers && forall a :: a in active ==> a.score < c.score
  {
    assert sorted != [] by {
      assert active[0] in multiset(sorted);
    }
    TotalServed(customers, sorted);
    forall c ensures c in PoolAfter(customers, sorted) <==> c in customers && forall a :: a in active ==> a.score < c.score {
      if c in customers && forall a :: a in active ==> a.score < c.score {
        var k :| 0 <= k < |sorted| && sorted[k].score == MaxScore(sorted);
        assert sorted[k] in multiset(active);
      }
      if c in PoolAfter(customers, sorted) {
        forall a | a in active ensures a.score < c.score {
          assert a in multiset(sorted);
        }
      }
    }
  }

  /** What `customerSuccessBalancing` returns or throws. */
  function Balancing(customerSuccess: seq<CustomerSuccess>, customers: seq<Customer>, customerSuccessAway: seq<int>)
    : (r: Result<int>)
  {
    match FilterCustomerRules(customerSuccess, customerSuccessAway)
    case Err(e) => Err(e)
    case Ok(active) =>
      KeyComparators();
      var sorted := SortBy(active, SortByScore, ScoreKey);
      Ok(Winner(SortBy(Counts(customers, sorted), SortByServedDesc, ServedDescKey)))
  }

  /**
   * The `map` over the sorted representatives: each makes its pass over the pool
   * left by the ones before it, and its record carries what it served.
   */
  method ServeAll(customers: seq<Customer>, sorted: seq<CustomerSuccess>)
    returns (customersCount: seq<ServedRecord>, pool: seq<Customer>)
    ensures customersCount == Counts(customers, sorted)
    ensures pool == PoolAfter(customers, sorted)
  {
    pool := customers;
    customersCount := [];
    for k := 0 to |sorted|
      invariant customersCount == Counts(customers, sorted[..k])
      invariant pool == PoolAfter(customers, sorted[..k])
    {
      PassStep(customers, sorted, k);
      var served;
      served, pool := ServePass(pool, sorted[k].score);
      customersCount := customersCount + [ServedRecord(sorted[k].id, sorted[k].score, served)];
    }
    assert sorted[..|sorted|] == sorted;
  }

  /**
   * The routine itself. Besides the result it returns the customer pool as the
   * splices leave it: unchanged when a check throws, otherwise exactly the
   * customers whose score is above every active representative's.
   */
  method CustomerSuccessBalancing(customerSuccess: seq<CustomerSuccess>, customers: seq<Customer>,
                                  customerSuccessAway: seq<int>)
    returns (r: Result<int>, pool: seq<Customer>)
    ensures r == Balancing(customerSuccess, customers, customerSuccessAway)
    ensures r.Err? ==> pool == customers
    ensures r.Ok? ==> forall c :: c in pool <==>
              c in customers && forall a :: a in NotAway(customerSuccess, customerSuccessAway) ==> a.score < c.score
    ensures r.Ok? ==> pool == Remaining(customers,
              MaxScore(SortBy(NotAway(customerSuccess, customerSuccessAway), SortByScore, ScoreKey)))
  {
    var customersFiltered := FilterCustomerRules(customerSuccess, customerSuccessAway);
    if customersFiltered.Err? {
      return Err(customersFiltered.error), customers;
    }
    KeyComparators();
    var sorted := SortBy(customersFiltered.value, SortByScore, ScoreKey);
    var customersCount;
    customersCount, pool := ServeAll(customers, sorted);
    var ranked := SortBy(customersCount, SortByServedDesc, ServedDescKey);
    r := Ok(Winner(ranked));

    LeftOver(customers, customersFiltered.value, sorted);
    assert sorted != [] by {
      assert customersFiltered.value[0] in multiset(sorted);
    }
    PoolAfterAll(customers, sorted);
  }
}
