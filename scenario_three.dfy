/**
 * Scenario 3, for every size: representatives scoring 1, 2, ..., m built by
 * `mapEntities(arraySeq(m, 1))`, the last one away, and `t` customers all
 * scoring m - 1; the representative m - 1 serves them all and wins. The test
 * suite runs it with m = 999 and t = 10000.
 */
module ScenarioThree {
  import opened Entities
  import opened Rules
  import opened Pool
  import opened Allocator
  import opened Scenarios

  /** The representatives of the scenario, with id and score i + 1 at position i. */
  lemma Ladder(m: nat)
    ensures |MapEntities(ArraySeq(m, 1))| == m
    ensures forall i :: 0 <= i < m ==> MapEntities(ArraySeq(m, 1))[i] == CustomerSuccess(i + 1, i + 1)
  {
  }

  /** With the last representative away, the others remain in order. */
  lemma LadderPresent(m: nat)
    requires 0 < m
    ensures NotAway(MapEntities(ArraySeq(m, 1)), [m]) == MapEntities(ArraySeq(m, 1))[..m - 1]
  {
    var reps := MapEntities(ArraySeq(m, 1));
    Ladder(m);
    assert reps == reps[..m - 1] + [reps[m - 1]];
    NotAwayConcat(reps[..m - 1], [reps[m - 1]], [m]);
    NotAwayExtremes(reps[..m - 1], [m]);
    NotAwayExtremes([reps[m - 1]], [m]);
  }

  /** The customers of the scenario all score `score`. */
  lemma Uniform(t: nat, score: int)
    ensures forall c :: c in BuildSizeEntities(t, score) ==> c.score == score
  {
    forall c | c in BuildSizeEntities(t, score) ensures c.score == score {
      var i :| 0 <= i < t && BuildSizeEntities(t, score)[i] == c;
    }
  }

  /** What the `n` present representatives serve: nothing, except the strongest, which serves `t`. */
  function LadderServed(n: nat, t: nat): (r: seq<ServedRecord>)
  {
    seq(n, i requires 0 <= i < n => ServedRecord(i + 1, i + 1, if i == n - 1 then t else 0))
  }

  /** Representatives with id and score i + 1 at position i, the last one away, pass every rule. */
  lemma LadderRules(reps: seq<CustomerSuccess>, m: nat)
    requires 2 <= m <= MAX_CUSTOMER_SUCCESS
    requires |reps| == m && forall i :: 0 <= i < m ==> reps[i] == CustomerSuccess(i + 1, i + 1)
    requires NotAway(reps, [m]) == reps[..m - 1]
    ensures FilterCustomerRules(reps, [m]).Ok?
    ensures StrictlyAscending(reps[..m - 1])
  {
    var active := reps[..m - 1];
    forall c | c in active ensures ValidEntry(c) {
      var i :| 0 <= i < m - 1 && active[i] == c;
    }
    assert StrictlyAscending(reps);
    AscendingDistinct(reps);
    Accepted(reps, [m]);
  }

  /** The scenario's representatives pass every rule, and the present ones are already in ascending order. */
  lemma LadderAccepted(m: nat)
    requires 2 <= m <= MAX_CUSTOMER_SUCCESS
    ensures FilterCustomerRules(MapEntities(ArraySeq(m, 1)), [m]).Ok?
    ensures multiset(MapEntities(ArraySeq(m, 1))[..m - 1]) == multiset(NotAway(MapEntities(ArraySeq(m, 1)), [m]))
    ensures StrictlyAscending(MapEntities(ArraySeq(m, 1))[..m - 1])
  {
    Ladder(m);
    LadderPresent(m);
    LadderRules(MapEntities(ArraySeq(m, 1)), m);
  }

  /** Everybody but the strongest present representative serves nobody; that one serves all `t`. */
  lemma LadderCounts(m: nat, t: nat)
    requires 2 <= m
    ensures Counts(BuildSizeEntities(t, m - 1), MapEntities(ArraySeq(m, 1))[..m - 1]) == LadderServed(m - 1, t)
  {
    var customers := BuildSizeEntities(t, m - 1);
    var active := MapEntities(ArraySeq(m, 1))[..m - 1];
    var expected := LadderServed(m - 1, t);
    Ladder(m);
    Uniform(t, m - 1);
    assert StrictlyAscending(active);
    forall k: nat | k < |active|
      ensures expected[k] == ServedRecord(active[k].id, active[k].score, BandSize(customers, active, k))
    {
      Extremes(customers, k, k + 1);
    }
    CountsByBands(customers, active, expected);
  }

  /** The strongest of `n` present representatives served strictly more than every other. */
  lemma LadderTop(n: nat, t: nat)
    requires 1 <= n && 0 < t
    ensures n - 1 < |LadderServed(n, t)| && LadderServed(n, t)[n - 1].id == n
    ensures forall j :: 0 <= j < |LadderServed(n, t)| && j != n - 1 ==>
              LadderServed(n, t)[j].served < LadderServed(n, t)[n - 1].served
  {
  }

  lemma Scenario3Family(m: nat, t: nat)
    requires 2 <= m <= MAX_CUSTOMER_SUCCESS
    requires 0 < t
    ensures Balancing(MapEntities(ArraySeq(m, 1)), BuildSizeEntities(t, m - 1), [m]) == Ok(m - 1)
  {
    LadderAccepted(m);
    LadderCounts(m, t);
    LadderTop(m - 1, t);
    WinnerIs(MapEntities(ArraySeq(m, 1)), BuildSizeEntities(t, m - 1), [m], MapEntities(ArraySeq(m, 1))[..m - 1],
             LadderServed(m - 1, t), m - 2, m - 1);
  }

  /** Scenario 3 as the test suite states it. */
  lemma Scenario3()
    ensures Balancing(MapEntities(ArraySeq(999, 1)), BuildSizeEntities(10000, 998), [999]) == Ok(998)
  {
    Scenario3Family(999, 10000);
  }
}
