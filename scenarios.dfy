/**
 * The Jest scenarios of customer-success-balancing.js, each stated as a lemma
 * about `Balancing`: the inputs the test builds and the result it expects.
 * The two scenarios whose inputs run to hundreds of entries are proved for a
 * whole family of inputs of their shape, the test's own sizes included; the
 * error scenarios are proved for every customer list, since the checks never
 * look at the customers.
 */
module Scenarios {
  import opened Entities
  import opened Rules
  import opened Pool
  import opened Allocator
  import opened Outcomes

  // ---------------------------------------------------------------------------
  // The test-input builders

  /** `arraySeq(count, startAt)`: the integers startAt, startAt + 1, ... (count of them). */
  function ArraySeq(count: nat, startAt: int): (r: seq<int>)
    ensures |r| == count
    ensures forall i :: 0 <= i < count ==> r[i] == startAt + i
  {
    if count == 0 then [] else ArraySeq(count - 1, startAt) + [startAt + count - 1]
  }

  /** `mapEntities(scores)` building representatives: ids 1, 2, ... in order. */
  function MapEntities(scores: seq<int>): (r: seq<CustomerSuccess>)
    ensures |r| == |scores|
    ensures forall i :: 0 <= i < |scores| ==> r[i] == CustomerSuccess(i + 1, scores[i])
  {
    if scores == [] then [] else MapEntities(scores[..|scores| - 1]) + [CustomerSuccess(|scores|, scores[|scores| - 1])]
  }

  /** `mapEntities(scores)` building customers: ids 1, 2, ... in order. */
  function MapCustomers(scores: seq<int>): (r: seq<Customer>)
    ensures |r| == |scores|
    ensures forall i :: 0 <= i < |scores| ==> r[i] == Customer(i + 1, scores[i])
  {
    if scores == [] then [] else MapCustomers(scores[..|scores| - 1]) + [Customer(|scores|, scores[|scores| - 1])]
  }

  /** `buildSizeEntities(size, score)`: `size` customers with ids 1, 2, ... and the same score. */
  function BuildSizeEntities(size: nat, score: int): (r: seq<Customer>)
    ensures |r| == size
    ensures forall i :: 0 <= i < size ==> r[i] == Customer(i + 1, score)
  {
    if size == 0 then [] else BuildSizeEntities(size - 1, score) + [Customer(size, score)]
  }

  // ---------------------------------------------------------------------------
  // Generic steps from the facts of one input to its result

  /** An input that meets every rule is accepted, leaving the representatives not away. */
  lemma Accepted(customerSuccess: seq<CustomerSuccess>, customerSuccessAway: seq<int>)
    requires |customerSuccessAway| <= |customerSuccess| / 2
    requires 0 < |NotAway(customerSuccess, customerSuccessAway)| < MAX_CUSTOMER_SUCCESS
    requires forall c :: c in NotAway(customerSuccess, customerSuccessAway) ==> ValidEntry(c)
    requires DistinctScores(customerSuccess)
    ensures FilterCustomerRules(customerSuccess, customerSuccessAway) == Ok(NotAway(customerSuccess, customerSuccessAway))
  {
  }

  /** Strictly rising scores are distinct. */
  lemma AscendingDistinct(s: seq<CustomerSuccess>)
    requires StrictlyAscending(s)
    ensures DistinctScores(s)
  {
  }

  /** The record at `k` of the passes in ascending order counts the band its score closes. */
  lemma ServedBand(customers: seq<Customer>, reps: seq<CustomerSuccess>, k: nat)
    requires StrictlyAscending(reps)
    requires k < |reps|
    ensures Counts(customers, reps)[k] ==
              ServedRecord(reps[k].id, reps[k].score,
                           if k == 0 then |Claimed(customers, reps[0].score)|
                           else |Between(customers, reps[k - 1].score, reps[k].score)|)
  {
    Greedy(customers, reps, k);
    CountsAt(customers, reps, k);
  }

  /** How many customers the representative at `k` of an ascending list covers. */
  function BandSize(customers: seq<Customer>, reps: seq<CustomerSuccess>, k: nat): (size: nat)
    requires k < |reps|
  {
    if k == 0 then |Claimed(customers, reps[0].score)| else |Between(customers, reps[k - 1].score, reps[k].score)|
  }

  /** Counts fixed entry by entry from the band each representative covers. */
  lemma CountsByBands(customers: seq<Customer>, reps: seq<CustomerSuccess>, expected: seq<ServedRecord>)
    requires StrictlyAscending(reps)
    requires |expected| == |reps|
    requires forall k: nat :: k < |reps| ==> expected[k] == ServedRecord(reps[k].id, reps[k].score, BandSize(customers, reps, k))
    ensures Counts(customers, reps) == expected
  {
    forall k: nat | k < |reps| ensures Counts(customers, reps)[k] == expected[k] {
      ServedBand(customers, reps, k);
    }
    assert |Counts(customers, reps)| == |expected|;
  }

  /** The record at `k` served strictly more than every other: it is the only top, and nothing ties. */
  lemma SoleTop(records: seq<ServedRecord>, k: nat)
    requires k < |records|
    requires forall j :: 0 <= j < |records| && j != k ==> records[j].served < records[k].served
    ensures !TopTie(records)
    ensures forall x :: x in records && (forall y :: y in records && y != x ==> y.served < x.served) ==>
                          x == records[k]
  {
  }

  /** Two different records share the highest count. */
  lemma SharedTop(records: seq<ServedRecord>, i: nat, j: nat)
    requires i < |records| && j < |records| && records[i] != records[j]
    requires records[i].served == records[j].served
    requires forall m :: 0 <= m < |records| ==> records[m].served <= records[i].served
    ensures TopTie(records)
  {
    assert IsTop(records, records[i]);
  }

  /** The served records of an accepted input, read off any strictly ascending order of its active set. */
  lemma ActiveCountsOf(customerSuccess: seq<CustomerSuccess>, customers: seq<Customer>, customerSuccessAway: seq<int>,
                       sorted: seq<CustomerSuccess>)
    requires FilterCustomerRules(customerSuccess, customerSuccessAway).Ok?
    requires multiset(sorted) == multiset(NotAway(customerSuccess, customerSuccessAway))
    requires StrictlyAscending(sorted)
    ensures ActiveCounts(customerSuccess, customers, customerSuccessAway) == Counts(customers, sorted)
  {
    AscendingSortUnique(NotAway(customerSuccess, customerSuccessAway), sorted);
  }

  /**
   * An accepted input whose active representatives, in ascending order, serve
   * `expected`, with the one at `k`, whose id is `w`, strictly ahead of all
   * others: `w` is returned.
   */
  lemma WinnerIs(customerSuccess: seq<CustomerSuccess>, customers: seq<Customer>, customerSuccessAway: seq<int>,
                 sorted: seq<CustomerSuccess>, expected: seq<ServedRecord>, k: nat, w: int)
    requires FilterCustomerRules(customerSuccess, customerSuccessAway).Ok?
    requires multiset(sorted) == multiset(NotAway(customerSuccess, customerSuccessAway))
    requires StrictlyAscending(sorted)
    requires Counts(customers, sorted) == expected
    requires k < |expected| && expected[k].id == w
    requires forall j :: 0 <= j < |expected| && j != k ==> expected[j].served < expected[k].served
    ensures Balancing(customerSuccess, customers, customerSuccessAway) == Ok(w)
  {
    ActiveCountsOf(customerSuccess, customers, customerSuccessAway, sorted);
    BalancingWinner(customerSuccess, customers, customerSuccessAway);
    SoleTop(expected, k);
  }

  /**
   * An accepted input whose active representatives, in ascending order, serve
   * `expected`, where two different records share the highest count: 0 is returned.
   */
  lemma TieIs(customerSuccess: seq<CustomerSuccess>, customers: seq<Customer>, customerSuccessAway: seq<int>,
              sorted: seq<CustomerSuccess>, expected: seq<ServedRecord>, i: nat, j: nat)
    requires FilterCustomerRules(customerSuccess, customerSuccessAway).Ok?
    requires multiset(sorted) == multiset(NotAway(customerSuccess, customerSuccessAway))
    requires StrictlyAscending(sorted)
    requires Counts(customers, sorted) == expected
    requires i < |expected| && j < |expected| && expected[i] != expected[j]
    requires expected[i].served == expected[j].served
    requires forall m :: 0 <= m < |expected| ==> expected[m].served <= expected[i].served
    ensures Balancing(customerSuccess, customers, customerSuccessAway) == Ok(0)
  {
    ActiveCountsOf(customerSuccess, customers, customerSuccessAway, sorted);
    BalancingWinner(customerSuccess, customers, customerSuccessAway);
    SharedTop(expected, i, j);
  }

  /** A rejected input is rejected whatever the customers. */
  lemma Rejected(customerSuccess: seq<CustomerSuccess>, customers: seq<Customer>, customerSuccessAway: seq<int>,
                 e: Error)
    requires FilterCustomerRules(customerSuccess, customerSuccessAway) == Err(e)
    ensures Balancing(customerSuccess, customers, customerSuccessAway) == Err(e)
  {
  }

  // ---------------------------------------------------------------------------
  // The error scenarios, for every customer list

  lemma DuplicateLevels(customers: seq<Customer>)
    ensures Balancing([CustomerSuccess(1, 60), CustomerSuccess(2, 60), CustomerSuccess(3, 95), CustomerSuccess(4, 75)],
                      customers, [2, 4]) == Err(DuplicateScores)
  {
    var css := [CustomerSuccess(1, 60), CustomerSuccess(2, 60), CustomerSuccess(3, 95), CustomerSuccess(4, 75)];
    var active := [CustomerSuccess(1, 60), CustomerSuccess(3, 95)];
    assert NotAway(css, [2, 4]) == active;
    assert forall c :: c in active ==> ValidEntry(c);
    assert css[0].score == css[1].score;
    Rejected(css, customers, [2, 4], DuplicateScores);
  }

  lemma TooManyAway(customers: seq<Customer>)
    ensures Balancing(MapEntities([100, 99, 88, 3, 4, 5]), customers, [1, 2, 3, 4]) == Err(MaxAwayExceeded)
  {
    Rejected(MapEntities([100, 99, 88, 3, 4, 5]), customers, [1, 2, 3, 4], MaxAwayExceeded);
  }

  lemma NoRepresentatives(customers: seq<Customer>)
    ensures Balancing([], customers, []) == Err(MinActiveNotReached)
  {
    Rejected([], customers, [], MinActiveNotReached);
  }

  /** A thousand or more representatives, none away, are too many whatever their scores. */
  lemma TooManyRepresentatives(n: nat, customers: seq<Customer>)
    requires n >= MAX_CUSTOMER_SUCCESS
    ensures Balancing(MapEntities(ArraySeq(n, 1)), customers, []) == Err(MaxActiveExceeded)
  {
    var reps := MapEntities(ArraySeq(n, 1));
    NotAwayExtremes(reps, []);
    Rejected(reps, customers, [], MaxActiveExceeded);
  }

  /** The test suite's instance: 1001 representatives. */
  lemma ThousandAndOne(customers: seq<Customer>)
    ensures Balancing(MapEntities(ArraySeq(1001, 1)), customers, []) == Err(MaxActiveExceeded)
  {
    TooManyRepresentatives(1001, customers);
  }

  /** One entry-guard scenario: a single representative, nobody away. */
  lemma EntryRejected(c: CustomerSuccess, customers: seq<Customer>, e: Error)
    requires CheckEntry(c) == Fail(e)
    ensures Balancing([c], customers, []) == Err(e)
  {
    assert NotAway([c], []) == [c];
    assert ValidateCustomerSuccessEntries([c]) == Fail(e);
  }

  lemma EntryScenarios(customers: seq<Customer>)
    ensures Balancing([CustomerSuccess(0, 60)], customers, []) == Err(MinIdReached)
    ensures Balancing([CustomerSuccess(1001, 60)], customers, []) == Err(MaxIdExceeded)
    ensures Balancing([CustomerSuccess(1, 0)], customers, []) == Err(MinScoreReached)
    ensures Balancing([CustomerSuccess(1, 10001)], customers, []) == Err(MaxScoreExceeded)
  {
    EntryRejected(CustomerSuccess(0, 60), customers, MinIdReached);
    EntryRejected(CustomerSuccess(1001, 60), customers, MaxIdExceeded);
    EntryRejected(CustomerSuccess(1, 0), customers, MinScoreReached);
    EntryRejected(CustomerSuccess(1, 10001), customers, MaxScoreExceeded);
  }
}
