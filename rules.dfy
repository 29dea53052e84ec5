/**
 * The pure checks that run before any customer is assigned: the two sort
 * comparators, the structural guard chain, the per-representative guards, the
 * duplicate-score test and the away filter that ties them together.
 */
module Rules {
  import opened Entities
  import opened Sorting

  /** Comparator for the ascending sort by score: at most zero when `a` may come first. */
  function SortByScore(a: CustomerSuccess, b: CustomerSuccess): (r: int)
    ensures r <= 0 <==> a.score <= b.score
    ensures r == 0 <==> a.score == b.score
  {
    a.score - b.score
  }

  /** Comparator for the descending sort by served count. */
  function SortByServedDesc(a: ServedRecord, b: ServedRecord): (r: int)
    ensures r <= 0 <==> a.served >= b.served
    ensures r == 0 <==> a.served == b.served
  {
    b.served - a.served
  }

  /**
   * The structural guard chain. The away list counts by its raw length, and the
   * first violated rule decides the error.
   */
  function ValidateCustomerSuccess(maxCustomersSuccessAway: int, customersNotAway: seq<CustomerSuccess>,
                                   customerSuccessAway: seq<int>): (r: Outcome)
    ensures r == Pass <==> |customerSuccessAway| <= maxCustomersSuccessAway && 0 < |customersNotAway| < MAX_CUSTOMER_SUCCESS
    ensures r == Fail(MaxAwayExceeded) <==> maxCustomersSuccessAway < |customerSuccessAway|
    ensures r == Fail(MinActiveNotReached) <==>
              |customerSuccessAway| <= maxCustomersSuccessAway && customersNotAway == []
    ensures r == Fail(MaxActiveExceeded) <==>
              |customerSuccessAway| <= maxCustomersSuccessAway && |customersNotAway| >= MAX_CUSTOMER_SUCCESS
  {
    if maxCustomersSuccessAway < |customerSuccessAway| then Fail(MaxAwayExceeded)
    else if MIN_CUSTOMER_SUCCESS >= |customersNotAway| then Fail(MinActiveNotReached)
    else if MAX_CUSTOMER_SUCCESS <= |customersNotAway| then Fail(MaxActiveExceeded)
    else Pass
  }

  /**
   * What the entry guards accept. The lower bounds are equality tests, so a
   * negative id or score is accepted.
   */
  predicate ValidEntry(c: CustomerSuccess) {
    c.id != MIN_CUSTOMER_SUCCESS && c.id < MAX_CUSTOMER_SUCCESS &&
    c.score != MIN_CUSTOMER_SUCCESS && c.score < MAX_CUSTOMER_SUCCESS_SCORE
  }

  /** The four guards on one representative, in the order they fire. */
  function CheckEntry(c: CustomerSuccess): (r: Outcome)
    ensures r == Pass <==> ValidEntry(c)
    ensures r == Fail(MinIdReached) <==> c.id == 0
    ensures r == Fail(MaxIdExceeded) <==> c.id != 0 && c.id >= MAX_CUSTOMER_SUCCESS
    ensures r == Fail(MinScoreReached) <==> c.id != 0 && c.id < MAX_CUSTOMER_SUCCESS && c.score == 0
    ensures r.Fail? ==> r.error in {MinIdReached, MaxIdExceeded, MinScoreReached, MaxScoreExceeded}
  {
    if c.id == MIN_CUSTOMER_SUCCESS then Fail(MinIdReached)
    else if c.id >= MAX_CUSTOMER_SUCCESS then Fail(MaxIdExceeded)
    else if c.score == MIN_CUSTOMER_SUCCESS then Fail(MinScoreReached)
    else if c.score >= MAX_CUSTOMER_SUCCESS_SCORE then Fail(MaxScoreExceeded)
    else Pass
  }

  /**
   * The guards over every active representative in turn: all pass, or the error
   * is that of the first representative that fails.
   */
  function ValidateCustomerSuccessEntries(customersNotAway: seq<CustomerSuccess>): (r: Outcome)
    ensures r == Pass <==> forall i :: 0 <= i < |customersNotAway| ==> ValidEntry(customersNotAway[i])
    ensures r.Fail? ==> exists i :: 0 <= i < |customersNotAway| && CheckEntry(customersNotAway[i]) == r &&
                                    forall j :: 0 <= j < i ==> ValidEntry(customersNotAway[j])
  {
    if customersNotAway == [] then Pass
    else if CheckEntry(customersNotAway[0]).Fail? then CheckEntry(customersNotAway[0])
    else
      var rest := ValidateCustomerSuccessEntries(customersNotAway[1..]);
      assert rest.Fail? ==> exists i :: 1 <= i < |customersNotAway| && CheckEntry(customersNotAway[i]) == rest &&
                                        forall j :: 0 <= j < i ==> ValidEntry(customersNotAway[j]) by {
        if rest.Fail? {
          var i :| 0 <= i < |customersNotAway[1..]| && CheckEntry(customersNotAway[1..][i]) == rest &&
                   forall j :: 0 <= j < i ==> ValidEntry(customersNotAway[1..][j]);
          assert CheckEntry(customersNotAway[i + 1]) == rest;
        }
      }
      rest
  }

  /** The number of different values in a sequence is its length exactly when no value repeats. */
  lemma {:induction false} DistinctCardinality(s: seq<int>)
    ensures |set x | x in s| <= |s|
    ensures |set x | x in s| == |s| <==> NoRepeats(s)
  {
    if s != [] {
      DistinctCardinality(s[1..]);
      var tail := set x | x in s[1..];
      assert (set x | x in s) == {s[0]} + tail;
      if s[0] in s[1..] {
        assert (set x | x in s) == tail;
        var k :| 0 <= k < |s[1..]| && s[1..][k] == s[0];
        assert s[0] == s[k + 1];
      } else {
        assert s[0] !in tail;
        assert |set x | x in s| == |tail| + 1;
        if NoRepeats(s[1..]) {
          forall i, j | 0 <= i < j < |s| ensures s[i] != s[j] {
            if i == 0 {
              assert s[j] == s[1..][j - 1];
            } else {
              assert s[i] == s[1..][i - 1] && s[j] == s[1..][j - 1];
            }
          }
        }
        if NoRepeats(s) {
          forall i, j | 0 <= i < j < |s[1..]| ensures s[1..][i] != s[1..][j] {
            assert s[1..][i] == s[i + 1] && s[1..][j] == s[j + 1];
          }
        }
      }
    }
  }

  /** The set built from the scores is smaller than the list exactly when a score repeats. */
  function HasDuplicateScores(scores: seq<int>): (r: bool)
    ensures r <==> exists i, j :: 0 <= i < j < |scores| && scores[i] == scores[j]
  {
    DistinctCardinality(scores);
    |set x | x in scores| != |scores|
  }

  /** The score of every representative, in input order. */
  function Scores(customerSuccess: seq<CustomerSuccess>): (r: seq<int>)
    ensures |r| == |customerSuccess|
    ensures forall i :: 0 <= i < |r| ==> r[i] == customerSuccess[i].score
  {
    if customerSuccess == [] then [] else [customerSuccess[0].score] + Scores(customerSuccess[1..])
  }

  /** No two representatives share a score. */
  predicate DistinctScores(customerSuccess: seq<CustomerSuccess>) {
    forall i, j :: 0 <= i < j < |customerSuccess| ==> customerSuccess[i].score != customerSuccess[j].score
  }

  /** The representatives whose id is not on the away list, in input order. */
  function NotAway(customerSuccess: seq<CustomerSuccess>, customerSuccessAway: seq<int>): (r: seq<CustomerSuccess>)
    ensures |r| <= |customerSuccess|
  {
    if customerSuccess == [] then []
    else
      (if customerSuccess[0].id in customerSuccessAway then [] else [customerSuccess[0]])
      + NotAway(customerSuccess[1..], customerSuccessAway)
  }

  /** The filter keeps exactly the representatives whose id is not away. */
  lemma {:induction false} NotAwayMembers(customerSuccess: seq<CustomerSuccess>, customerSuccessAway: seq<int>)
    ensures forall c :: c in NotAway(customerSuccess, customerSuccessAway) <==>
                          c in customerSuccess && c.id !in customerSuccessAway
  {
    if customerSuccess != [] {
      NotAwayMembers(customerSuccess[1..], customerSuccessAway);
      assert customerSuccess == [customerSuccess[0]] + customerSuccess[1..];
    }
  }

  /** Filtering a concatenation filters each part. */
  lemma {:induction false} NotAwayConcat(a: seq<CustomerSuccess>, b: seq<CustomerSuccess>, customerSuccessAway: seq<int>)
    ensures NotAway(a + b, customerSuccessAway) == NotAway(a, customerSuccessAway) + NotAway(b, customerSuccessAway)
  {
    if a != [] {
      NotAwayConcat(a[1..], b, customerSuccessAway);
      assert (a + b)[0] == a[0] && (a + b)[1..] == a[1..] + b;
    } else {
      assert a + b == b;
    }
  }

  /** The filter keeps a list whole when none of its ids is away, and empties it when all are. */
  lemma {:induction false} NotAwayExtremes(customerSuccess: seq<CustomerSuccess>, customerSuccessAway: seq<int>)
    ensures (forall c :: c in customerSuccess ==> c.id !in customerSuccessAway) ==>
              NotAway(customerSuccess, customerSuccessAway) == customerSuccess
    ensures (forall c :: c in customerSuccess ==> c.id in customerSuccessAway) ==>
              NotAway(customerSuccess, customerSuccessAway) == []
  {
    if customerSuccess != [] {
      NotAwayExtremes(customerSuccess[1..], customerSuccessAway);
      assert customerSuccess[0] in customerSuccess;
      assert forall c :: c in customerSuccess[1..] ==> c in customerSuccess;
      assert customerSuccess == [customerSuccess[0]] + customerSuccess[1..];
    }
  }

  /** Filtering keeps distinct scores distinct. */
  lemma {:induction false} NotAwayDistinct(customerSuccess: seq<CustomerSuccess>, customerSuccessAway: seq<int>)
    requires DistinctScores(customerSuccess)
    ensures DistinctScores(NotAway(customerSuccess, customerSuccessAway))
  {
    if customerSuccess != [] {
      var tail := customerSuccess[1..];
      assert DistinctScores(tail) by {
        forall i, j | 0 <= i < j < |tail| ensures tail[i].score != tail[j].score {
          assert tail[i] == customerSuccess[i + 1] && tail[j] == customerSuccess[j + 1];
        }
      }
      NotAwayDistinct(tail, customerSuccessAway);
      var rest := NotAway(tail, customerSuccessAway);
      if customerSuccess[0].id !in customerSuccessAway {
        var r := [customerSuccess[0]] + rest;
        NotAwayMembers(tail, customerSuccessAway);
        forall i, j | 0 <= i < j < |r| ensures r[i].score != r[j].score {
          if i == 0 {
            assert r[j] == rest[j - 1];
            assert r[j] in tail;
            var k :| 0 <= k < |tail| && tail[k] == r[j];
            assert customerSuccess[k + 1] == r[j];
          } else {
            assert r[i] == rest[i - 1] && r[j] == rest[j - 1];
          }
        }
      }
    }
  }

  /**
   * Drops the away representatives and runs the checks in the source's order:
   * the structural guards, the entry guards on the active representatives only,
   * then the duplicate-score test over every representative, away ones included.
   */
  function FilterCustomerRules(customerSuccess: seq<CustomerSuccess>, customerSuccessAway: seq<int>)
    : (r: Result<seq<CustomerSuccess>>)
    ensures r.Ok? <==>
              |customerSuccessAway| <= |customerSuccess| / 2 &&
              0 < |NotAway(customerSuccess, customerSuccessAway)| < MAX_CUSTOMER_SUCCESS &&
              (forall c :: c in NotAway(customerSuccess, customerSuccessAway) ==> ValidEntry(c)) &&
              DistinctScores(customerSuccess)
    ensures r.Ok? ==> r.value == NotAway(customerSuccess, customerSuccessAway) && DistinctScores(r.value)
    ensures r == Err(MaxAwayExceeded) <==> |customerSuccessAway| > |customerSuccess| / 2
    ensures r == Err(MinActiveNotReached) <==>
              |customerSuccessAway| <= |customerSuccess| / 2 && NotAway(customerSuccess, customerSuccessAway) == []
    ensures r == Err(MaxActiveExceeded) <==>
              |customerSuccessAway| <= |customerSuccess| / 2 &&
              |NotAway(customerSuccess, customerSuccessAway)| >= MAX_CUSTOMER_SUCCESS
    ensures r == Err(DuplicateScores) <==>
              ValidateCustomerSuccess(|customerSuccess| / 2, NotAway(customerSuccess, customerSuccessAway),
                                      customerSuccessAway) == Pass &&
              (forall c :: c in NotAway(customerSuccess, customerSuccessAway) ==> ValidEntry(c)) &&
              !DistinctScores(customerSuccess)
    ensures r.Err? && r.error in {MinIdReached, MaxIdExceeded, MinScoreReached, MaxScoreExceeded} <==>
              ValidateCustomerSuccess(|customerSuccess| / 2, NotAway(customerSuccess, customerSuccessAway),
                                      customerSuccessAway) == Pass &&
              ValidateCustomerSuccessEntries(NotAway(customerSuccess, customerSuccessAway)).Fail?
    ensures r.Err? && r.error in {MinIdReached, MaxIdExceeded, MinScoreReached, MaxScoreExceeded} ==>
              Fail(r.error) == ValidateCustomerSuccessEntries(NotAway(customerSuccess, customerSuccessAway))
  {
    var customersNotAway := NotAway(customerSuccess, customerSuccessAway);
    var maxCustomersSuccessAway := |customerSuccess| / 2;
    var structural := ValidateCustomerSuccess(maxCustomersSuccessAway, customersNotAway, customerSuccessAway);
    if structural.Fail? then Err(structural.error)
    else
      var entries := ValidateCustomerSuccessEntries(customersNotAway);
      if entries.Fail? then Err(entries.error)
      else
        assert forall c :: c in customersNotAway ==> ValidEntry(c);
        var scores := Scores(customerSuccess);
        assert DistinctScores(customerSuccess) <==> !HasDuplicateScores(scores) by {
          if !DistinctScores(customerSuccess) {
            var i, j :| 0 <= i < j < |customerSuccess| && customerSuccess[i].score == customerSuccess[j].score;
            assert scores[i] == scores[j];
          }
        }
        if HasDuplicateScores(scores) then Err(DuplicateScores)
        else
          NotAwayDistinct(customerSuccess, customerSuccessAway);
          Ok(customersNotAway)
  }
}
