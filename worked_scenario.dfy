/**
 A worked scenario: the smaller mid-terrace archetype (6400 kWh) with the
 default catalogue, electricity at 30 p/kWh, gas at 10 p/kWh, a 300 pound gas
 standing charge, no smart-tariff discount, and the gas condensing boiler as
 the baseline. The LTASHP heat pump is compared with it, first without a grant
 and then with flat grants of 7500 and 9000 pounds on the heat pump.
 */
module WorkedScenario {
  import opened Wrappers
  import opened Catalogue
  import opened Rounding
  import opened Model
  import opened Payback

  const HeatPump: nat := 0
  const Boiler: nat := 7

  function Inputs(grant: Option<Grant>): Globals {
    Globals(SmallerMidTerraceOnGas, DefaultSettings(), Prices(30.0, 10.0, 300.0), grant)
  }

  lemma HeatPumpCostRounds()
    ensures Round2(6400.0 / 2.86 * 0.3) == 671.33
  {
    assert (6400.0 / 2.86 * 0.3 * 100.0).Floor == 67132;
  }

  lemma BoilerCostRounds()
    ensures Round2(6400.0 / 0.895 * 0.1 + 300.0) == 1015.08
  {
    assert ((6400.0 / 0.895 * 0.1 + 300.0) * 100.0).Floor == 101508;
  }

  /** Without a grant the heat pump costs 671.33 a year against the boiler's 1015.08. */
  lemma AnnualCosts()
    ensures ModelRows(Inputs(None), 0.0, 1.0)[HeatPump].annualCost == 671.33
    ensures ModelRows(Inputs(None), 0.0, 1.0)[Boiler].annualCost == 1015.08
  {
    var g := Inputs(None);
    var hp, gb := UnroundedRows(g, 0.0, 1.0)[HeatPump], UnroundedRows(g, 0.0, 1.0)[Boiler];
    RowFormulas(g, 0.0, 1.0, HeatPump);
    RowFormulas(g, 0.0, 1.0, Boiler);
    assert hp.efficiency == 2.86;
    assert hp.fuelDemand == 6400.0 / 2.86;
    assert hp.annualCost == 6400.0 / 2.86 * 0.3;
    assert gb.efficiency == 0.895;
    assert gb.fuelDemand == 6400.0 / 0.895;
    assert gb.annualCost == 6400.0 / 0.895 * 0.1 + 300.0;
    HeatPumpCostRounds();
    BoilerCostRounds();
    RoundedRows(g, 0.0, 1.0, HeatPump);
    RoundedRows(g, 0.0, 1.0, Boiler);
  }

  /** 8500 over 343.75 a year is 24.73 years: 24 years and 8 whole months. */
  lemma PaybackOfNoGrant(base: Row, r: Row)
    requires Extra(base, r) == 8500.0 && Saving(base, r) == 343.75
    ensures Pb(base, r) == YearsMonths(24, 8)
  {
    assert (8500.0 / 343.75).Floor == 24;
    assert ((8500.0 / 343.75 - 24.0) * 12.0).Floor == 8;
  }

  /** 1000 over 343.75 a year is 2.91 years: 2 years and 10 whole months. */
  lemma PaybackOfFlatGrant(base: Row, r: Row)
    requires Extra(base, r) == 1000.0 && Saving(base, r) == 343.75
    ensures Pb(base, r) == YearsMonths(2, 10)
  {
    assert (1000.0 / 343.75).Floor == 2;
    assert ((1000.0 / 343.75 - 2.0) * 12.0).Floor == 10;
  }

  /** The heat pump's extra 8500 over an annual saving of 343.75 pays back in 24 years 8 months. */
  lemma NoGrantPayback()
    ensures var rows := ModelRows(Inputs(None), 0.0, 1.0);
      && Extra(rows[Boiler], rows[HeatPump]) == 8500.0
      && Saving(rows[Boiler], rows[HeatPump]) == 343.75
      && Pb(rows[Boiler], rows[HeatPump]) == YearsMonths(24, 8)
  {
    var g := Inputs(None);
    var rows := ModelRows(g, 0.0, 1.0);
    AnnualCosts();
    NoGrantKeepsCapex(g, 0.0, 1.0, HeatPump);
    NoGrantKeepsCapex(g, 0.0, 1.0, Boiler);
    PaybackOfNoGrant(rows[Boiler], rows[HeatPump]);
  }

  /** A flat grant of 7500 leaves 1000 of extra capex: 2 years 10 months. */
  lemma FlatGrantPayback()
    ensures var rows := ModelRows(Inputs(Some(Grant(LTASHP, FlatAmount, 7500.0))), 0.0, 1.0);
      && Extra(rows[Boiler], rows[HeatPump]) == 1000.0
      && Pb(rows[Boiler], rows[HeatPump]) == YearsMonths(2, 10)
  {
    var g := Inputs(Some(Grant(LTASHP, FlatAmount, 7500.0)));
    var rows := ModelRows(g, 0.0, 1.0);
    NoGrantPayback();
    GrantTouchesOnlyTarget(g, 0.0, 1.0, HeatPump);
    GrantTouchesOnlyTarget(g, 0.0, 1.0, Boiler);
    GrantedCapex(g, 0.0, 1.0, HeatPump);
    RoundedRows(g, 0.0, 1.0, HeatPump);
    Round2Whole(4500);
    assert rows[HeatPump].effectiveCapex == 4500.0;
    PaybackOfFlatGrant(rows[Boiler], rows[HeatPump]);
  }

  /** A flat grant of 9000 brings the heat pump below the boiler's capex: immediate payback. */
  lemma LargeGrantIsImmediate()
    ensures var rows := ModelRows(Inputs(Some(Grant(LTASHP, FlatAmount, 9000.0))), 0.0, 1.0);
      Pb(rows[Boiler], rows[HeatPump]) == Immediate
  {
    var g := Inputs(Some(Grant(LTASHP, FlatAmount, 9000.0)));
    NoGrantPayback();
    GrantTouchesOnlyTarget(g, 0.0, 1.0, Boiler);
    GrantedCapex(g, 0.0, 1.0, HeatPump);
    RoundedRows(g, 0.0, 1.0, HeatPump);
    Round2Whole(3000);
  }
}
