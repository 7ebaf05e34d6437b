/**
 * The dashboard's three levels of reconciliation for one month and one
 * building, lifted out of the Streamlit script into functions of the
 * loaded sheets:
 *   Level 1, walk-away: tenant recoveries minus council charges, per utility;
 *   Level 2, solar savings: sums over the "MOL Solar" variables;
 *   Level 3, overcharge check: owner-side meter figures minus council figures.
 * A missing exact-name council variable makes the whole computation fail.
 */
module Dashboard {
  import opened Wrappers
  import opened Text
  import opened Tables

  datatype Utility = Elec | Water | Effluent

  /** The key of the physical quantity in a utility's result maps. */
  function PhysicalUnit(u: Utility): string {
    if u == Elec then "kWh" else "kL"
  }

  /** The three metered energy tariffs: their Values make up the council's kWh. */
  const EnergyTariffs: seq<string> := ["Muni Peak", "Muni Standard", "Muni OP"]

  /** The six municipal electricity charges: their Rands make up the council's Rand. */
  const ElecTariffs: seq<string> :=
    EnergyTariffs + ["Muni Max Demand", "Muni Network Access", "Muni Fixed Charge"]

  /** The exact variable names each utility's council charges are read from. */
  function CouncilVariables(u: Utility): seq<string> {
    match u
    case Elec => ElecTariffs
    case Water => ["Muni Water"]
    case Effluent => ["Muni Effluent"]
  }

  /** Every one of `names` is the exact variable name of some row. */
  predicate AllDefined(other: seq<OtherRow>, names: seq<string>) {
    forall n :: n in names ==> Defines(other, n)
  }

  /**
   * `get_council_value` for each of `names` in turn, as the script's chains
   * of calls do: the whole chain fails as soon as one name is missing.
   */
  function LookupAll(other: seq<OtherRow>, names: seq<string>, col: OtherColumn): (r: Option<seq<real>>)
    ensures r.None? <==> !AllDefined(other, names)
    ensures r.Some? ==>
      && |r.value| == |names|
      && forall k :: 0 <= k < |names| ==> CouncilValue(other, names[k], col) == Some(r.value[k])
  {
    if names == [] then Some([])
    else
      var first :- CouncilValue(other, names[0], col);
      var rest :- LookupAll(other, names[1..], col);
      Some([first] + rest)
  }

  /** The chain of lookups yields exactly the individual lookups' values, in order. */
  lemma {:induction false} LookupAllOf(other: seq<OtherRow>, names: seq<string>, col: OtherColumn, xs: seq<real>)
    requires |xs| == |names|
    requires forall k :: 0 <= k < |names| ==> CouncilValue(other, names[k], col) == Some(xs[k])
    ensures LookupAll(other, names, col) == Some(xs)
  {
    if names != [] {
      forall k | 0 <= k < |names| - 1
        ensures CouncilValue(other, names[1..][k], col) == Some(xs[1..][k])
      {
        assert names[1..][k] == names[k + 1] && xs[1..][k] == xs[k + 1];
      }
      LookupAllOf(other, names[1..], col, xs[1..]);
      assert xs == [xs[0]] + xs[1..];
    }
  }

  /** Two sheets on which each of `names` looks up the same give the same chain of lookups. */
  lemma {:induction false} LookupAllCongruent(x: seq<OtherRow>, y: seq<OtherRow>, names: seq<string>, col: OtherColumn)
    requires forall n :: n in names ==> CouncilValue(x, n, col) == CouncilValue(y, n, col)
    ensures LookupAll(x, names, col) == LookupAll(y, names, col)
  {
    if names != [] {
      LookupAllCongruent(x, y, names[1..], col);
    }
  }

  /** The sum of a sequence of amounts, `a + b + ...` in the script. */
  function Total(xs: seq<real>): real {
    if xs == [] then 0.0 else xs[0] + Total(xs[1..])
  }

  /** Tenant recoveries of one utility: the "TOTAL" rows' cost as "Rand" and consumption as the unit. */
  function Recoveries(u: Utility, table: seq<UtilityRow>): (m: map<string, real>)
    ensures m.Keys == {"Rand", PhysicalUnit(u)}
    ensures m["Rand"] == TenantRecoveries(table, Cost)
    ensures m[PhysicalUnit(u)] == TenantRecoveries(table, Consumption)
  {
    map["Rand" := TenantRecoveries(table, Cost), PhysicalUnit(u) := TenantRecoveries(table, Consumption)]
  }

  /**
   * Council electricity charges: "Rand" adds the Rand of all six tariffs,
   * "kWh" adds the Value of the three energy tariffs only.
   */
  function ElecCouncil(other: seq<OtherRow>): (r: Option<map<string, real>>)
    ensures r.None? <==> !AllDefined(other, ElecTariffs)
    ensures r.Some? ==> r.value.Keys == {"Rand", "kWh"}
  {
    var rands :- LookupAll(other, ElecTariffs, Rand);
    var kwhs :- LookupAll(other, EnergyTariffs, Value);
    Some(map["Rand" := Total(rands), "kWh" := Total(kwhs)])
  }

  /**
   * The electricity council charges from the individual lookups: "Rand" is
   * the total of the six tariffs' Rand, "kWh" the total of only the three
   * energy tariffs' Value (the demand and fixed charges' Values never count).
   */
  lemma ElecCouncilOf(other: seq<OtherRow>, rands: seq<real>, kwhs: seq<real>)
    requires |rands| == |ElecTariffs| && |kwhs| == |EnergyTariffs|
    requires forall k :: 0 <= k < |ElecTariffs| ==> CouncilValue(other, ElecTariffs[k], Rand) == Some(rands[k])
    requires forall k :: 0 <= k < |EnergyTariffs| ==> CouncilValue(other, EnergyTariffs[k], Value) == Some(kwhs[k])
    ensures ElecCouncil(other) == Some(map["Rand" := Total(rands), "kWh" := Total(kwhs)])
  {
    LookupAllOf(other, ElecTariffs, Rand, rands);
    LookupAllOf(other, EnergyTariffs, Value, kwhs);
  }

  /** Council charges of water or effluent: the Rand and Value of the one named variable. */
  function MeteredCouncil(other: seq<OtherRow>, name: string): (r: Option<map<string, real>>)
    ensures r.None? <==> !Defines(other, name)
    ensures r.Some? ==> r.value.Keys == {"Rand", "kL"}
    ensures r.Some? ==> exists i ::
      && FirstMatch(other, name, i)
      && r.value["Rand"] == other[i].rand
      && r.value["kL"] == other[i].value
  {
    CouncilValueReadsFirst(other, name);
    var rand :- CouncilValue(other, name);
    var kl :- CouncilValue(other, name, Value);
    Some(map["Rand" := rand, "kL" := kl])
  }

  /** The council side of a utility's walk-away. */
  function CouncilCharges(u: Utility, other: seq<OtherRow>): (r: Option<map<string, real>>)
    ensures r.None? <==> !AllDefined(other, CouncilVariables(u))
    ensures r.Some? ==> r.value.Keys == {"Rand", PhysicalUnit(u)}
  {
    match u
    case Elec => ElecCouncil(other)
    case Water => MeteredCouncil(other, "Muni Water")
    case Effluent => MeteredCouncil(other, "Muni Effluent")
  }

  /** Rows whose variable is not one of the utility's council variables never change its council charges. */
  lemma CouncilChargesSkipRow(u: Utility, a: seq<OtherRow>, row: OtherRow, b: seq<OtherRow>)
    requires row.variable !in CouncilVariables(u)
    ensures CouncilCharges(u, a + [row] + b) == CouncilCharges(u, a + b)
  {
    forall n, c | n in CouncilVariables(u)
      ensures CouncilValue(a + [row] + b, n, c) == CouncilValue(a + b, n, c)
    {
      CouncilValueSkipsRow(a, row, b, n, c);
    }
    if u == Elec {
      LookupAllCongruent(a + [row] + b, a + b, ElecTariffs, Rand);
      LookupAllCongruent(a + [row] + b, a + b, EnergyTariffs, Value);
    }
  }

  /** `{k: recoveries[k] - council[k] for k in recoveries}`. */
  function WalkAway(recoveries: map<string, real>, council: map<string, real>): (w: map<string, real>)
    requires recoveries.Keys <= council.Keys
    ensures w.Keys == recoveries.Keys
    ensures forall k :: k in w ==> w[k] == recoveries[k] - council[k]
  {
    map k | k in recoveries :: recoveries[k] - council[k]
  }

  /** What Level 1 shows for one utility. */
  datatype WalkAwayReport = WalkAwayReport(
    recoveries: map<string, real>,
    council: map<string, real>,
    walkAway: map<string, real>)

  /** Level 1 for one utility: recoveries, council charges and their key-wise difference. */
  function Level1(u: Utility, table: seq<UtilityRow>, other: seq<OtherRow>): (r: Option<WalkAwayReport>)
    ensures r.None? <==> !AllDefined(other, CouncilVariables(u))
    ensures r.Some? ==>
      && r.value.recoveries == Recoveries(u, table)
      && CouncilCharges(u, other) == Some(r.value.council)
      && r.value.recoveries.Keys == r.value.council.Keys == r.value.walkAway.Keys == {"Rand", PhysicalUnit(u)}
      && r.value.walkAway["Rand"] == TenantRecoveries(table, Cost) - r.value.council["Rand"]
      && r.value.walkAway[PhysicalUnit(u)] == TenantRecoveries(table, Consumption) - r.value.council[PhysicalUnit(u)]
  {
    var recoveries := Recoveries(u, table);
    var council :- CouncilCharges(u, other);
    Some(WalkAwayReport(recoveries, council, WalkAway(recoveries, council)))
  }

  /** What Level 2 shows. */
  datatype SolarSavings = SolarSavings(kwh: real, rand: real)

  /** Level 2: the Value and Rand of every row whose variable contains "MOL Solar"; zero when none does. */
  function Solar(other: seq<OtherRow>): (r: SolarSavings)
    ensures (forall i :: 0 <= i < |other| ==> !Contains(other[i].variable, "MOL Solar"))
      ==> r == SolarSavings(0.0, 0.0)
  {
    SolarSavings(VariableSum(other, "MOL Solar", Value), VariableSum(other, "MOL Solar", Rand))
  }

  /** A row counts towards the solar savings exactly when its variable name contains "MOL Solar". */
  lemma SolarInsert(a: seq<OtherRow>, row: OtherRow, b: seq<OtherRow>)
    ensures Solar(a + [row] + b) ==
      if Contains(row.variable, "MOL Solar")
      then SolarSavings(Solar(a + b).kwh + row.value, Solar(a + b).rand + row.rand)
      else Solar(a + b)
  {
    VariableSumInsert(a, row, b, "MOL Solar", Value);
    VariableSumInsert(a, row, b, "MOL Solar", Rand);
  }

  /** The labels of an overcharge check's two differences. */
  const DiffKeys: set<string> := {"Consumption Diff", "Rand Diff"}

  /**
   * Level 3 for electricity: the "MOL Muni" sums minus the municipal
   * three-tariff kWh and six-tariff Rand subtotals, which the script
   * computes a second time here.
   */
  function ElecOvercharge(other: seq<OtherRow>): (r: Option<map<string, real>>)
    ensures r.None? <==> !AllDefined(other, ElecTariffs)
    ensures r.Some? ==> r.value.Keys == DiffKeys
  {
    var molValue := VariableSum(other, "MOL Muni", Value);
    var molRand := VariableSum(other, "MOL Muni", Rand);
    var muniValue :- LookupAll(other, EnergyTariffs, Value);
    var muniRand :- LookupAll(other, ElecTariffs, Rand);
    Some(map["Consumption Diff" := molValue - Total(muniValue), "Rand Diff" := molRand - Total(muniRand)])
  }

  /**
   * Level 3's municipal electricity subtotals are exactly Level 1's council
   * charges: both fail together, and each difference is the "MOL Muni" sum
   * minus the matching council charge.
   */
  lemma ElecOverchargeAgreesWithCouncil(other: seq<OtherRow>)
    ensures ElecOvercharge(other).Some? <==> CouncilCharges(Elec, other).Some?
    ensures ElecOvercharge(other).Some? ==>
      && ElecOvercharge(other).value["Consumption Diff"]
         == VariableSum(other, "MOL Muni", Value) - CouncilCharges(Elec, other).value["kWh"]
      && ElecOvercharge(other).value["Rand Diff"]
         == VariableSum(other, "MOL Muni", Rand) - CouncilCharges(Elec, other).value["Rand"]
  {
  }

  /**
   * Level 3 for water or effluent: the utility sheet's "COUNCIL" rows minus
   * the exact-name council variable.
   */
  function MeteredOvercharge(table: seq<UtilityRow>, name: string, other: seq<OtherRow>): (r: Option<map<string, real>>)
    ensures r.None? <==> !Defines(other, name)
    ensures r.Some? ==> r.value.Keys == DiffKeys
    ensures r.Some? ==> exists i ::
      && FirstMatch(other, name, i)
      && r.value["Consumption Diff"] == MarkedSum(table, "COUNCIL", Consumption) - other[i].value
      && r.value["Rand Diff"] == MarkedSum(table, "COUNCIL", Cost) - other[i].rand
  {
    CouncilValueReadsFirst(other, name);
    var meterValue := MarkedSum(table, "COUNCIL", Consumption);
    var meterRand := MarkedSum(table, "COUNCIL", Cost);
    var muniValue :- CouncilValue(other, name, Value);
    var muniRand :- CouncilValue(other, name);
    Some(map["Consumption Diff" := meterValue - muniValue, "Rand Diff" := meterRand - muniRand])
  }

  /**
   * The water and effluent overcharge checks compare the meter sheet with
   * exactly the council charges of Level 1.
   */
  lemma MeteredOverchargeAgreesWithCouncil(u: Utility, table: seq<UtilityRow>, other: seq<OtherRow>)
    requires u != Elec
    ensures var diff := MeteredOvercharge(table, CouncilVariables(u)[0], other);
      var council := CouncilCharges(u, other);
      && (diff.Some? <==> council.Some?)
      && (diff.Some? ==>
        && diff.value["Consumption Diff"] == MarkedSum(table, "COUNCIL", Consumption) - council.value["kL"]
        && diff.value["Rand Diff"] == MarkedSum(table, "COUNCIL", Cost) - council.value["Rand"])
  {
  }

  /** Everything the dashboard shows for one month and one building. */
  datatype Report = Report(
    elec: WalkAwayReport,
    water: WalkAwayReport,
    effluent: WalkAwayReport,
    solar: SolarSavings,
    elecDiff: map<string, real>,
    waterDiff: map<string, real>,
    effluentDiff: map<string, real>)
  {
    /** Each result map carries exactly the keys the dashboard prints. */
    predicate Keyed() {
      && elec.recoveries.Keys == elec.council.Keys == elec.walkAway.Keys == {"Rand", "kWh"}
      && water.recoveries.Keys == water.council.Keys == water.walkAway.Keys == {"Rand", "kL"}
      && effluent.recoveries.Keys == effluent.council.Keys == effluent.walkAway.Keys == {"Rand", "kL"}
      && elecDiff.Keys == waterDiff.Keys == effluentDiff.Keys == DiffKeys
    }
  }

  /** Every exact variable name the dashboard looks up. */
  const RequiredVariables: seq<string> := ElecTariffs + ["Muni Water", "Muni Effluent"]

  lemma RequiredVariablesDefined(other: seq<OtherRow>)
    ensures AllDefined(other, RequiredVariables)
       <==> AllDefined(other, ElecTariffs) && Defines(other, "Muni Water") && Defines(other, "Muni Effluent")
  {
    assert "Muni Water" in RequiredVariables && "Muni Effluent" in RequiredVariables;
  }

  /**
   * The whole dashboard: it fails exactly when some required council
   * variable is missing, and otherwise shows each level's own result.
   */
  function Reconcile(elec: seq<UtilityRow>, water: seq<UtilityRow>, effluent: seq<UtilityRow>, other: seq<OtherRow>)
    : (r: Option<Report>)
    ensures r.None? <==> !AllDefined(other, RequiredVariables)
    ensures r.Some? ==> r.value.Keyed()
    ensures r.Some? ==>
      && Level1(Elec, elec, other) == Some(r.value.elec)
      && Level1(Water, water, other) == Some(r.value.water)
      && Level1(Effluent, effluent, other) == Some(r.value.effluent)
      && r.value.solar == Solar(other)
      && ElecOvercharge(other) == Some(r.value.elecDiff)
      && MeteredOvercharge(water, "Muni Water", other) == Some(r.value.waterDiff)
      && MeteredOvercharge(effluent, "Muni Effluent", other) == Some(r.value.effluentDiff)
  {
    RequiredVariablesDefined(other);
    var elecReport :- Level1(Elec, elec, other);
    var waterReport :- Level1(Water, water, other);
    var effluentReport :- Level1(Effluent, effluent, other);
    var solar := Solar(other);
    var elecDiff :- ElecOvercharge(other);
    var waterDiff :- MeteredOvercharge(water, "Muni Water", other);
    var effluentDiff :- MeteredOvercharge(effluent, "Muni Effluent", other);
    Some(Report(elecReport, waterReport, effluentReport, solar, elecDiff, waterDiff, effluentDiff))
  }

  /**
   * Across the report, each overcharge check's council side is the council
   * charge Level 1 shows for the same utility.
   */
  lemma ReconcileOverchargesMatchCouncil(elec: seq<UtilityRow>, water: seq<UtilityRow>, effluent: seq<UtilityRow>, other: seq<OtherRow>)
    requires Reconcile(elec, water, effluent, other).Some?
    ensures var rep := Reconcile(elec, water, effluent, other).value;
      && rep.elecDiff["Consumption Diff"] == VariableSum(other, "MOL Muni", Value) - rep.elec.council["kWh"]
      && rep.elecDiff["Rand Diff"] == VariableSum(other, "MOL Muni", Rand) - rep.elec.council["Rand"]
      && rep.waterDiff["Consumption Diff"] == MarkedSum(water, "COUNCIL", Consumption) - rep.water.council["kL"]
      && rep.waterDiff["Rand Diff"] == MarkedSum(water, "COUNCIL", Cost) - rep.water.council["Rand"]
      && rep.effluentDiff["Consumption Diff"] == MarkedSum(effluent, "COUNCIL", Consumption) - rep.effluent.council["kL"]
      && rep.effluentDiff["Rand Diff"] == MarkedSum(effluent, "COUNCIL", Cost) - rep.effluent.council["Rand"]
  {
    var rep := Reconcile(elec, water, effluent, other).value;
    assert CouncilCharges(Elec, other) == Some(rep.elec.council);
    ElecOverchargeAgreesWithCouncil(other);
    assert CouncilCharges(Water, other) == Some(rep.water.council);
    MeteredOverchargeAgreesWithCouncil(Water, water, other);
    assert CouncilCharges(Effluent, other) == Some(rep.effluent.council);
    MeteredOverchargeAgreesWithCouncil(Effluent, effluent, other);
  }
}
