/** Scenario 2: three representatives serve three customers each, so nobody wins. */
module ScenarioTwo {
  import opened Entities
  import opened Rules
  import opened Allocator
  import opened Scenarios
  import opened TenCustomers

  const Reps2 := [CustomerSuccess(1, 11), CustomerSuccess(2, 21), CustomerSuccess(3, 31),
                  CustomerSuccess(4, 3), CustomerSuccess(5, 4), CustomerSuccess(6, 5)]
  const Sorted2 := [CustomerSuccess(4, 3), CustomerSuccess(5, 4), CustomerSuccess(6, 5),
                    CustomerSuccess(1, 11), CustomerSuccess(2, 21), CustomerSuccess(3, 31)]
  const Served2 := [ServedRecord(4, 3, 0), ServedRecord(5, 4, 0), ServedRecord(6, 5, 0),
                    ServedRecord(1, 11, 3), ServedRecord(2, 21, 3), ServedRecord(3, 31, 3)]

  lemma Reps2Built()
    ensures MapEntities([11, 21, 31, 3, 4, 5]) == Reps2
  {
  }

  lemma Reps2Present()
    ensures NotAway(Reps2, NobodyAway) == Reps2
  {
    NotAwayExtremes(Reps2, NobodyAway);
  }

  lemma Reps2Valid()
    ensures forall c :: c in Reps2 ==> ValidEntry(c)
  {
  }

  lemma Reps2Distinct()
    ensures DistinctScores(Reps2)
  {
  }

  lemma Sorted2Ascending()
    ensures StrictlyAscending(Sorted2)
  {
  }

  lemma Sorted2Permutes()
    ensures multiset(Sorted2) == multiset(Reps2)
  {
  }

  lemma Accepted2()
    ensures FilterCustomerRules(Reps2, NobodyAway).Ok?
    ensures multiset(Sorted2) == multiset(NotAway(Reps2, NobodyAway))
    ensures StrictlyAscending(Sorted2)
  {
    Reps2Present();
    Reps2Valid();
    Reps2Distinct();
    Sorted2Ascending();
    Sorted2Permutes();
    Accepted(Reps2, NobodyAway);
  }

  lemma Bands2()
    ensures forall k: nat :: k < |Sorted2| ==> Served2[k] == ServedRecord(Sorted2[k].id, Sorted2[k].score, BandSize(Customers2, Sorted2, k))
  {
    LowBand(0, 3);
    LowBand(3, 4);
    LowBand(4, 5);
    TensBand();
    TwentiesBand();
    ThirtiesBand();
    forall k: nat | k < |Sorted2| ensures Served2[k] == ServedRecord(Sorted2[k].id, Sorted2[k].score, BandSize(Customers2, Sorted2, k)) {
      assert k == 0 || k == 1 || k == 2 || k == 3 || k == 4 || k == 5;
    }
  }

  lemma Served2Facts()
    ensures Counts(Customers2, Sorted2) == Served2
  {
    Sorted2Ascending();
    Bands2();
    CountsByBands(Customers2, Sorted2, Served2);
  }

  lemma Top2()
    ensures 3 < |Served2| && 4 < |Served2| && Served2[3] != Served2[4]
    ensures Served2[3].served == Served2[4].served
    ensures forall m :: 0 <= m < |Served2| ==> Served2[m].served <= Served2[3].served
  {
    forall m | 0 <= m < |Served2| ensures Served2[m].served <= Served2[3].served {
      assert m == 0 || m == 1 || m == 2 || m == 3 || m == 4 || m == 5;
    }
  }

  lemma Outcome2()
    ensures Balancing(Reps2, Customers2, NobodyAway) == Ok(0)
  {
    Accepted2();
    Served2Facts();
    Top2();
    TieIs(Reps2, Customers2, NobodyAway, Sorted2, Served2, 3, 4);
  }

  lemma Scenario2()
    ensures Balancing(MapEntities([11, 21, 31, 3, 4, 5]), MapCustomers([10, 10, 10, 20, 20, 30, 30, 30, 20, 60]), []) == Ok(0)
  {
    Reps2Built();
    Customers2Built();
    Outcome2();
  }
}
