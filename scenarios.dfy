/**
 * Worked examples: small sheets on which the dashboard's figures can be
 * checked by hand.
 */
module Scenarios {
  import opened Wrappers
  import opened Text
  import opened Tables
  import opened Dashboard

  /** An electricity sheet: two tenants and their "TOTAL" row. */
  const ElecSheet: seq<UtilityRow> := [
    UtilityRow(Some("Shop 1"), 400.0, 100.0),
    UtilityRow(Some("Shop 2"), 600.0, 150.0),
    UtilityRow(None, 3.0, 9.0),
    UtilityRow(Some("TOTAL"), 1000.0, 250.0)]

  /** The month's council variables, including a Max Demand Value that kWh must ignore. */
  const CouncilSheet: seq<OtherRow> := [
    OtherRow("Muni Peak", 40.0, 80.0),
    OtherRow("Muni Standard", 20.0, 60.0),
    OtherRow("Muni OP", 5.0, 10.0),
    OtherRow("Muni Max Demand", 7.0, 5.0),
    OtherRow("Muni Network Access", 0.0, 3.0),
    OtherRow("Muni Fixed Charge", 0.0, 2.0),
    OtherRow("Muni Water", 480.0, 950.0)]

  lemma ElecRecoveriesExample()
    ensures TenantRecoveries(ElecSheet, Cost) == 250.0
    ensures TenantRecoveries(ElecSheet, Consumption) == 1000.0
  {
    NotContainsMissingHead("Shop 1", "TOTAL");
    NotContainsMissingHead("Shop 2", "TOTAL");
    assert StartsWith("TOTAL", "TOTAL");
  }

  /** The marker is matched case-sensitively: a "grand total" row is not a recovery. */
  lemma LowerCaseTotalExample()
    ensures TenantRecoveries([UtilityRow(Some("grand total"), 10.0, 20.0)], Cost) == 0.0
  {
    NotContainsMissingHead("grand total", "TOTAL");
  }

  lemma PeakLookup()
    ensures CouncilValue(CouncilSheet, "Muni Peak", Value) == Some(40.0)
    ensures CouncilValue(CouncilSheet, "Muni Peak", Rand) == Some(80.0)
  {
    CouncilValueAt(CouncilSheet, "Muni Peak", Value, 0);
    CouncilValueAt(CouncilSheet, "Muni Peak", Rand, 0);
  }

  lemma StandardLookup()
    ensures CouncilValue(CouncilSheet, "Muni Standard", Value) == Some(20.0)
    ensures CouncilValue(CouncilSheet, "Muni Standard", Rand) == Some(60.0)
  {
    CouncilValueAt(CouncilSheet, "Muni Standard", Value, 1);
    CouncilValueAt(CouncilSheet, "Muni Standard", Rand, 1);
  }

  lemma OPLookup()
    ensures CouncilValue(CouncilSheet, "Muni OP", Value) == Some(5.0)
    ensures CouncilValue(CouncilSheet, "Muni OP", Rand) == Some(10.0)
  {
    CouncilValueAt(CouncilSheet, "Muni OP", Value, 2);
    CouncilValueAt(CouncilSheet, "Muni OP", Rand, 2);
  }

  lemma MaxDemandLookup()
    ensures CouncilValue(CouncilSheet, "Muni Max Demand", Value) == Some(7.0)
    ensures CouncilValue(CouncilSheet, "Muni Max Demand", Rand) == Some(5.0)
  {
    CouncilValueAt(CouncilSheet, "Muni Max Demand", Value, 3);
    CouncilValueAt(CouncilSheet, "Muni Max Demand", Rand, 3);
  }

  lemma NetworkAccessLookup()
    ensures CouncilValue(CouncilSheet, "Muni Network Access", Value) == Some(0.0)
    ensures CouncilValue(CouncilSheet, "Muni Network Access", Rand) == Some(3.0)
  {
    CouncilValueAt(CouncilSheet, "Muni Network Access", Value, 4);
    CouncilValueAt(CouncilSheet, "Muni Network Access", Rand, 4);
  }

  lemma FixedChargeLookup()
    ensures CouncilValue(CouncilSheet, "Muni Fixed Charge", Value) == Some(0.0)
    ensures CouncilValue(CouncilSheet, "Muni Fixed Charge", Rand) == Some(2.0)
  {
    CouncilValueAt(CouncilSheet, "Muni Fixed Charge", Value, 5);
    CouncilValueAt(CouncilSheet, "Muni Fixed Charge", Rand, 5);
  }

  lemma WaterLookup()
    ensures CouncilValue(CouncilSheet, "Muni Water", Value) == Some(480.0)
    ensures CouncilValue(CouncilSheet, "Muni Water", Rand) == Some(950.0)
  {
    CouncilValueAt(CouncilSheet, "Muni Water", Value, 6);
    CouncilValueAt(CouncilSheet, "Muni Water", Rand, 6);
  }

  /** Council electricity: R 160 over all six tariffs, but only 65 kWh, as Max Demand's 7 is not energy. */
  lemma ElecCouncilExample()
    ensures ElecCouncil(CouncilSheet) == Some(map["Rand" := 160.0, "kWh" := 65.0])
  {
    var rands := [80.0, 60.0, 10.0, 5.0, 3.0, 2.0];
    var kwhs := [40.0, 20.0, 5.0];
    forall k | 0 <= k < |ElecTariffs|
      ensures CouncilValue(CouncilSheet, ElecTariffs[k], Rand) == Some(rands[k])
    {
      if k == 0 { PeakLookup(); }
      else if k == 1 { StandardLookup(); }
      else if k == 2 { OPLookup(); }
      else if k == 3 { MaxDemandLookup(); }
      else if k == 4 { NetworkAccessLookup(); }
      else { FixedChargeLookup(); }
    }
    forall k | 0 <= k < |EnergyTariffs|
      ensures CouncilValue(CouncilSheet, EnergyTariffs[k], Value) == Some(kwhs[k])
    {
      if k == 0 { PeakLookup(); }
      else if k == 1 { StandardLookup(); }
      else { OPLookup(); }
    }
    ElecCouncilOf(CouncilSheet, rands, kwhs);
  }

  /** The electricity walk-away: R 250 recovered against R 160 charged, 1000 kWh against 65. */
  lemma ElecWalkAwayExample()
    ensures Level1(Elec, ElecSheet, CouncilSheet).Some?
    ensures Level1(Elec, ElecSheet, CouncilSheet).value.walkAway["Rand"] == 90.0
    ensures Level1(Elec, ElecSheet, CouncilSheet).value.walkAway["kWh"] == 935.0
  {
    ElecRecoveriesExample();
    ElecCouncilExample();
  }

  /** A water meter sheet whose "COUNCIL" row reads more than the council billed. */
  const WaterSheet: seq<UtilityRow> := [
    UtilityRow(Some("Shop 1"), 300.0, 600.0),
    UtilityRow(Some("COUNCIL"), 500.0, 1000.0)]

  lemma WaterCouncilExample()
    ensures MeteredCouncil(CouncilSheet, "Muni Water") == Some(map["Rand" := 950.0, "kL" := 480.0])
  {
    WaterLookup();
  }

  lemma WaterMeterExample()
    ensures MarkedSum(WaterSheet, "COUNCIL", Consumption) == 500.0
    ensures MarkedSum(WaterSheet, "COUNCIL", Cost) == 1000.0
  {
    NotContainsMissingHead("Shop 1", "COUNCIL");
    assert StartsWith("COUNCIL", "COUNCIL");
  }

  /** The meter reads 20 kL and R 50 more than the council billed. */
  lemma WaterOverchargeExample()
    ensures MeteredOvercharge(WaterSheet, "Muni Water", CouncilSheet).Some?
    ensures MeteredOvercharge(WaterSheet, "Muni Water", CouncilSheet).value["Consumption Diff"] == 20.0
    ensures MeteredOvercharge(WaterSheet, "Muni Water", CouncilSheet).value["Rand Diff"] == 50.0
  {
    WaterLookup();
    WaterMeterExample();
  }
}
