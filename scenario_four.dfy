/** Scenario 4: every representative scores below every customer, so nobody serves anyone and nobody wins. */
module ScenarioFour {
  import opened Entities
  import opened Rules
  import opened Allocator
  import opened Scenarios
  import opened TenCustomers

  const Reps4 := [CustomerSuccess(1, 1), CustomerSuccess(2, 2), CustomerSuccess(3, 3),
                  CustomerSuccess(4, 4), CustomerSuccess(5, 5), CustomerSuccess(6, 6)]
  const Served4 := [ServedRecord(1, 1, 0), ServedRecord(2, 2, 0), ServedRecord(3, 3, 0),
                    ServedRecord(4, 4, 0), ServedRecord(5, 5, 0), ServedRecord(6, 6, 0)]

  lemma Reps4Built()
    ensures MapEntities([1, 2, 3, 4, 5, 6]) == Reps4
  {
  }

  lemma Reps4Ascending()
    ensures StrictlyAscending(Reps4)
  {
  }

  lemma Reps4Valid()
    ensures forall c :: c in Reps4 ==> ValidEntry(c)
  {
  }

  lemma Reps4Present()
    ensures NotAway(Reps4, NobodyAway) == Reps4
  {
    NotAwayExtremes(Reps4, NobodyAway);
  }

  lemma Accepted4()
    ensures FilterCustomerRules(Reps4, NobodyAway).Ok?
    ensures StrictlyAscending(Reps4)
  {
    Reps4Present();
    Reps4Ascending();
    Reps4Valid();
    AscendingDistinct(Reps4);
    Accepted(Reps4, NobodyAway);
  }

  lemma Bands4()
    ensures forall k: nat :: k < |Reps4| ==> Served4[k] == ServedRecord(Reps4[k].id, Reps4[k].score, BandSize(Customers2, Reps4, k))
  {
    forall k: nat | k < |Reps4| ensures Served4[k] == ServedRecord(Reps4[k].id, Reps4[k].score, BandSize(Customers2, Reps4, k)) {
      LowBand(k, k + 1);
      assert k == 0 || k == 1 || k == 2 || k == 3 || k == 4 || k == 5;
    }
  }

  lemma Top4()
    ensures 0 < |Served4| && 1 < |Served4| && Served4[0] != Served4[1]
    ensures Served4[0].served == Served4[1].served
    ensures forall m :: 0 <= m < |Served4| ==> Served4[m].served <= Served4[0].served
  {
    forall m | 0 <= m < |Served4| ensures Served4[m].served <= Served4[0].served {
      assert m == 0 || m == 1 || m == 2 || m == 3 || m == 4 || m == 5;
    }
  }

  lemma Outcome4()
    ensures Balancing(Reps4, Customers2, NobodyAway) == Ok(0)
  {
    Accepted4();
    Reps4Present();
    Bands4();
    CountsByBands(Customers2, Reps4, Served4);
    Top4();
    TieIs(Reps4, Customers2, NobodyAway, Reps4, Served4, 0, 1);
  }

  lemma Scenario4()
    ensures Balancing(MapEntities([1, 2, 3, 4, 5, 6]), MapCustomers([10, 10, 10, 20, 20, 30, 30, 30, 20, 60]), []) == Ok(0)
  {
    Reps4Built();
    Customers2Built();
    Outcome4();
  }
}
