/**
 * Scenario 1 and Scenario 8: four representatives, two of them away; the one scoring 60
 * serves four of the six customers and the one scoring 95 the other two.
 */
module ScenarioOne {
  import opened Entities
  import opened Rules
  import opened Pool
  import opened Allocator
  import opened Scenarios

  const Reps1 := [CustomerSuccess(1, 60), CustomerSuccess(2, 20), CustomerSuccess(3, 95), CustomerSuccess(4, 75)]
  const Reps8 := [CustomerSuccess(1, 60), CustomerSuccess(2, 40), CustomerSuccess(3, 95), CustomerSuccess(4, 75)]
  const Away1 := [2, 4]
  const Active1 := [CustomerSuccess(1, 60), CustomerSuccess(3, 95)]
  const Customers1 := [Customer(1, 90), Customer(2, 20), Customer(3, 70), Customer(4, 40), Customer(5, 60), Customer(6, 10)]
  const Customers8 := [Customer(1, 90), Customer(2, 70), Customer(3, 20), Customer(4, 40), Customer(5, 60), Customer(6, 10)]
  const Served1 := [ServedRecord(1, 60, 4), ServedRecord(3, 95, 2)]

  lemma Active1Valid()
    ensures StrictlyAscending(Active1)
    ensures forall c :: c in Active1 ==> ValidEntry(c)
  {
  }

  lemma Accepted1()
    ensures FilterCustomerRules(Reps1, Away1).Ok?
    ensures multiset(Active1) == multiset(NotAway(Reps1, Away1))
    ensures StrictlyAscending(Active1)
  {
    assert NotAway(Reps1, Away1) == Active1;
    Active1Valid();
    assert DistinctScores(Reps1);
    Accepted(Reps1, Away1);
  }

  lemma Accepted8()
    ensures FilterCustomerRules(Reps8, Away1).Ok?
    ensures multiset(Active1) == multiset(NotAway(Reps8, Away1))
    ensures StrictlyAscending(Active1)
  {
    assert NotAway(Reps8, Away1) == Active1;
    Active1Valid();
    assert DistinctScores(Reps8);
    Accepted(Reps8, Away1);
  }

  lemma Bands1()
    ensures forall k: nat :: k < |Active1| ==> Served1[k] == ServedRecord(Active1[k].id, Active1[k].score, BandSize(Customers1, Active1, k))
  {
    assert |Claimed(Customers1, 60)| == 4;
    assert |Between(Customers1, 60, 95)| == 2;
    forall k: nat | k < |Active1| ensures Served1[k] == ServedRecord(Active1[k].id, Active1[k].score, BandSize(Customers1, Active1, k)) {
      assert k == 0 || k == 1;
    }
  }

  lemma Bands8()
    ensures forall k: nat :: k < |Active1| ==> Served1[k] == ServedRecord(Active1[k].id, Active1[k].score, BandSize(Customers8, Active1, k))
  {
    assert |Claimed(Customers8, 60)| == 4;
    assert |Between(Customers8, 60, 95)| == 2;
    forall k: nat | k < |Active1| ensures Served1[k] == ServedRecord(Active1[k].id, Active1[k].score, BandSize(Customers8, Active1, k)) {
      assert k == 0 || k == 1;
    }
  }

  lemma Top1()
    ensures 0 < |Served1| && Served1[0].id == 1
    ensures forall j :: 0 <= j < |Served1| && j != 0 ==> Served1[j].served < Served1[0].served
  {
  }

  lemma Scenario1()
    ensures Balancing(Reps1, Customers1, [2, 4]) == Ok(1)
  {
    Accepted1();
    Bands1();
    CountsByBands(Customers1, Active1, Served1);
    Top1();
    WinnerIs(Reps1, Customers1, Away1, Active1, Served1, 0, 1);
  }

  lemma Built8()
    ensures MapEntities([60, 40, 95, 75]) == Reps8
    ensures MapCustomers([90, 70, 20, 40, 60, 10]) == Customers8
  {
  }

  lemma Outcome8()
    ensures Balancing(Reps8, Customers8, Away1) == Ok(1)
  {
    Accepted8();
    Bands8();
    CountsByBands(Customers8, Active1, Served1);
    Top1();
    WinnerIs(Reps8, Customers8, Away1, Active1, Served1, 0, 1);
  }

  lemma Scenario8()
    ensures Balancing(MapEntities([60, 40, 95, 75]), MapCustomers([90, 70, 20, 40, 60, 10]), [2, 4]) == Ok(1)
  {
    Built8();
    Outcome8();
  }
}
