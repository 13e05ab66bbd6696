/**
 The scenario model: one result row per catalogue technology, giving the fuel
 demand, unit cost, fuel cost, standing charge, annual cost, CO2, capex and the
 capex left after an optional grant. The values the page keeps in its widgets
 (archetype, prices, standing charge, grant settings and the edited tables)
 are passed in explicitly as a `Globals` value.
 */
module Model {
  import opened Wrappers
  import opened Catalogue
  import opened Rounding

  /** Prices as the sidebar offers them: pence per kWh, and pounds per year for the standing charge. */
  datatype Prices = Prices(elecPrice: real, gasPrice: real, gasStandingCharge: real)

  datatype GrantKind = FlatAmount | PercentageOfCapex

  /** A grant for one technology: a flat sum in pounds, or a percentage of its capex. */
  datatype Grant = Grant(tech: Tech, kind: GrantKind, value: real)

  /** Everything the model reads besides the discount and the efficiency multiplier. */
  datatype Globals = Globals(
    archetype: Archetype,
    settings: Settings,
    prices: Prices,
    grant: Option<Grant>)

  /** One row of the result table. */
  datatype Row = Row(
    tech: Tech,
    fuel: Fuel,
    efficiency: real,
    fuelDemand: real,
    unitCost: real,
    fuelCost: real,
    standingCharge: real,
    annualCost: real,
    co2: real,
    capex: real,
    effectiveCapex: real)

  predicate ValidPrices(p: Prices) {
    && 5.0 <= p.elecPrice <= 60.0
    && 2.0 <= p.gasPrice <= 20.0
    && 0.0 <= p.gasStandingCharge <= 400.0
  }

  predicate ValidGrant(gr: Grant) {
    0.0 <= gr.value <= 30000.0
  }

  /** Smart-tariff discount, in percent. */
  predicate ValidDiscount(d: real) {
    0.0 <= d <= 50.0
  }

  /** Multiplier applied to every technology's efficiency. */
  predicate ValidMultiplier(m: real) {
    0.8 <= m <= 1.2
  }

  predicate ValidGlobals(g: Globals) {
    && ValidSettings(g.settings)
    && ValidPrices(g.prices)
    && (g.grant.Some? ==> ValidGrant(g.grant.value))
  }

  /** Electricity unit cost in pounds per kWh, after the smart-tariff discount. */
  function ElecUnit(p: Prices, discount: real): real {
    (p.elecPrice / 100.0) * (1.0 - discount / 100.0)
  }

  /** Gas unit cost in pounds per kWh; the discount does not apply to gas. */
  function GasUnit(p: Prices): real {
    p.gasPrice / 100.0
  }

  function UnitCost(f: Fuel, p: Prices, discount: real): real {
    match f
    case Electric => ElecUnit(p, discount)
    case Gas => GasUnit(p)
  }

  /** Only gas technologies pay a standing charge. */
  function StandingCharge(f: Fuel, p: Prices): real {
    match f
    case Electric => 0.0
    case Gas => p.gasStandingCharge
  }

  /** Any efficiency the editor accepts, times any multiplier, is at least 0.32. */
  lemma EfficiencyStaysPositive(e: real, m: real)
    requires ValidEfficiency(e) && ValidMultiplier(m)
    ensures e * m >= 0.32
  {
    MulNonNegative(e - 0.4, m);
    assert e * m == (e - 0.4) * m + 0.4 * m;
  }

  lemma MulNonNegative(a: real, b: real)
    requires 0.0 <= a && 0.0 <= b
    ensures 0.0 <= a * b
  {
  }

  /** The row of technology t before any grant: effective capex is still the capex. */
  function RawRow(g: Globals, t: Tech, discount: real, effMult: real): (r: Row)
    requires ValidSettings(g.settings) && ValidMultiplier(effMult)
    ensures r.tech == t && r.fuel == FuelType(t)
    ensures r.efficiency > 0.0 && r.fuelDemand > 0.0
  {
    var fuel := FuelType(t);
    var eff := g.settings.efficiencies[t] * effMult;
    EfficiencyStaysPositive(g.settings.efficiencies[t], effMult);
    var demand := HeatDemand(g.archetype) / eff;
    var unit := UnitCost(fuel, g.prices, discount);
    var fuelCost := demand * unit;
    var standing := StandingCharge(fuel, g.prices);
    var capex := g.settings.installCosts[t] as real;
    Row(t, fuel, eff, demand, unit, fuelCost, standing, fuelCost + standing,
        demand * g.settings.co2Factors[t], capex, capex)
  }

  /** The grant applied to the effective capex of one row, before clipping. */
  function Deduct(capex: real, gr: Grant): real {
    match gr.kind
    case FlatAmount => capex - gr.value
    case PercentageOfCapex => capex * (1.0 - gr.value / 100.0)
  }

  /** The grant step for a single row: only the grant technology's row is touched. */
  function MaskRow(r: Row, gr: Grant): Row {
    if r.tech == gr.tech then r.(effectiveCapex := Deduct(r.effectiveCapex, gr)) else r
  }

  /** Clipping from below at zero. */
  function Max0(x: real): real {
    if x < 0.0 then 0.0 else x
  }

  /** Clipping the effective capex of a row. */
  function ClipRow(r: Row): Row {
    r.(effectiveCapex := Max0(r.effectiveCapex))
  }

  /** The grant step on a row: masked deduction followed by clipping, both only when a grant is enabled. */
  function GrantRow(r: Row, grant: Option<Grant>): Row {
    match grant
    case None => r
    case Some(gr) => ClipRow(MaskRow(r, gr))
  }

  /** Every numeric column rounded to two decimal places. */
  function RoundRow(r: Row): Row {
    Row(r.tech, r.fuel, Round2(r.efficiency), Round2(r.fuelDemand), Round2(r.unitCost),
        Round2(r.fuelCost), Round2(r.standingCharge), Round2(r.annualCost), Round2(r.co2),
        Round2(r.capex), Round2(r.effectiveCapex))
  }

  /** The table before its final rounding. */
  function UnroundedRows(g: Globals, discount: real, effMult: real): (rows: seq<Row>)
    requires ValidSettings(g.settings) && ValidMultiplier(effMult)
    ensures |rows| == |Technologies|
    ensures forall i :: 0 <= i < |rows| ==> rows[i].tech == Technologies[i]
  {
    seq(|Technologies|, i requires 0 <= i < |Technologies| =>
      GrantRow(RawRow(g, Technologies[i], discount, effMult), g.grant))
  }

  /** The table the model returns: one row per technology, in catalogue order. */
  function ModelRows(g: Globals, discount: real, effMult: real): (rows: seq<Row>)
    requires ValidSettings(g.settings) && ValidMultiplier(effMult)
    ensures |rows| == |Technologies|
    ensures forall i :: 0 <= i < |rows| ==> rows[i].tech == Technologies[i]
  {
    var u := UnroundedRows(g, discount, effMult);
    seq(|u|, i requires 0 <= i < |u| => RoundRow(u[i]))
  }

  /**
   Builds the table row by row, applies the grant to the matching row, clips
   the effective capex at zero and rounds every value.
   */
  method RunModel(g: Globals, discount: real, effMult: real) returns (rows: seq<Row>)
    requires ValidGlobals(g) && ValidDiscount(discount) && ValidMultiplier(effMult)
    ensures rows == ModelRows(g, discount, effMult)
  {
    rows := [];
    for i := 0 to |Technologies|
      invariant |rows| == i
      invariant forall j :: 0 <= j < i ==> rows[j] == RawRow(g, Technologies[j], discount, effMult)
    {
      rows := rows + [RawRow(g, Technologies[i], discount, effMult)];
    }
    if g.grant.Some? {
      var gr := g.grant.value;
      for i := 0 to |rows|
        invariant |rows| == |Technologies|
        invariant forall j :: 0 <= j < i ==>
          rows[j] == MaskRow(RawRow(g, Technologies[j], discount, effMult), gr)
        invariant forall j :: i <= j < |rows| ==> rows[j] == RawRow(g, Technologies[j], discount, effMult)
      {
        if rows[i].tech == gr.tech {
          rows := rows[i := rows[i].(effectiveCapex := Deduct(rows[i].effectiveCapex, gr))];
        }
      }
      for i := 0 to |rows|
        invariant |rows| == |Technologies|
        invariant forall j :: 0 <= j < i ==>
          rows[j] == ClipRow(MaskRow(RawRow(g, Technologies[j], discount, effMult), gr))
        invariant forall j :: i <= j < |rows| ==>
          rows[j] == MaskRow(RawRow(g, Technologies[j], discount, effMult), gr)
      {
        rows := rows[i := ClipRow(rows[i])];
      }
    }
    ghost var u := UnroundedRows(g, discount, effMult);
    assert forall j :: 0 <= j < |rows| ==> rows[j] == u[j];
    for i := 0 to |rows|
      invariant |rows| == |u|
      invariant forall j :: 0 <= j < i ==> rows[j] == RoundRow(u[j])
      invariant forall j :: i <= j < |rows| ==> rows[j] == u[j]
    {
      rows := rows[i := RoundRow(rows[i])];
    }
  }

  /** The per-row formulas, on the table before rounding. */
  lemma RowFormulas(g: Globals, discount: real, effMult: real, i: nat)
    requires ValidSettings(g.settings) && ValidMultiplier(effMult)
    requires i < |Technologies|
    ensures var r, t := UnroundedRows(g, discount, effMult)[i], Technologies[i];
      && r.efficiency == g.settings.efficiencies[t] * effMult
      && r.fuelDemand * r.efficiency == HeatDemand(g.archetype)
      && r.co2 == r.fuelDemand * g.settings.co2Factors[t]
      && (r.fuel == Electric ==> r.unitCost == (g.prices.elecPrice / 100.0) * (1.0 - discount / 100.0))
      && (r.fuel == Gas ==> r.unitCost == g.prices.gasPrice / 100.0)
      && r.fuelCost == r.fuelDemand * r.unitCost
      && r.standingCharge == (if r.fuel == Gas then g.prices.gasStandingCharge else 0.0)
      && r.annualCost == r.fuelCost + r.standingCharge
      && r.capex == g.settings.installCosts[t] as real
  {
    var t := Technologies[i];
    var raw := RawRow(g, t, discount, effMult);
    var r := UnroundedRows(g, discount, effMult)[i];
    assert r == GrantRow(raw, g.grant);
    assert r.(effectiveCapex := raw.effectiveCapex) == raw;
    var eff := g.settings.efficiencies[t] * effMult;
    EfficiencyStaysPositive(g.settings.efficiencies[t], effMult);
    assert raw.efficiency == eff;
    assert raw.fuelDemand == HeatDemand(g.archetype) / eff;
    assert (HeatDemand(g.archetype) / eff) * eff == HeatDemand(g.archetype);
  }

  /**
   The returned rows are the unrounded rows with every value rounded; the
   capex is a whole number of pounds and survives the rounding, and the
   rounded annual cost stays within 1.5 pence of the rounded fuel cost plus
   the rounded standing charge.
   */
  lemma RoundedRows(g: Globals, discount: real, effMult: real, i: nat)
    requires ValidSettings(g.settings) && ValidMultiplier(effMult)
    requires i < |Technologies|
    ensures var r, u := ModelRows(g, discount, effMult)[i], UnroundedRows(g, discount, effMult)[i];
      && r == RoundRow(u)
      && r.capex == g.settings.installCosts[Technologies[i]] as real
      && -0.015 <= r.annualCost - (r.fuelCost + r.standingCharge) <= 0.015
  {
    var u := UnroundedRows(g, discount, effMult)[i];
    RowFormulas(g, discount, effMult, i);
    Round2Whole(g.settings.installCosts[Technologies[i]]);
  }

  /**
   A larger smart-tariff discount strictly lowers the annual cost of every
   electric technology (never raises it once rounded) and leaves every gas
   row exactly as it was.
   */
  lemma DiscountLowersOnlyElectricCost(g: Globals, d1: real, d2: real, effMult: real, i: nat)
    requires ValidGlobals(g) && ValidDiscount(d1) && ValidDiscount(d2) && d1 < d2
    requires ValidMultiplier(effMult)
    requires i < |Technologies|
    ensures FuelType(Technologies[i]) == Electric ==>
      && UnroundedRows(g, d2, effMult)[i].annualCost < UnroundedRows(g, d1, effMult)[i].annualCost
      && ModelRows(g, d2, effMult)[i].annualCost <= ModelRows(g, d1, effMult)[i].annualCost
    ensures FuelType(Technologies[i]) == Gas ==>
      ModelRows(g, d2, effMult)[i] == ModelRows(g, d1, effMult)[i]
  {
    var t := Technologies[i];
    var raw1, raw2 := RawRow(g, t, d1, effMult), RawRow(g, t, d2, effMult);
    var r1, r2 := UnroundedRows(g, d1, effMult)[i], UnroundedRows(g, d2, effMult)[i];
    assert r1.annualCost == raw1.annualCost && r2.annualCost == raw2.annualCost;
    if FuelType(t) == Electric {
      DiscountLowersElecUnit(g.prices, d1, d2);
      CheaperUnitCheaperFuel(raw1.fuelDemand, raw1.unitCost, raw2.unitCost);
      Round2Monotone(r2.annualCost, r1.annualCost);
    } else {
      assert raw1 == raw2;
    }
  }

  lemma DiscountLowersElecUnit(p: Prices, d1: real, d2: real)
    requires ValidPrices(p) && d1 < d2
    ensures ElecUnit(p, d2) < ElecUnit(p, d1)
  {
    var q := p.elecPrice / 100.0;
    assert ElecUnit(p, d1) - ElecUnit(p, d2) == q * ((d2 - d1) / 100.0);
  }

  lemma CheaperUnitCheaperFuel(demand: real, u1: real, u2: real)
    requires demand > 0.0 && u2 < u1
    ensures demand * u2 < demand * u1
  {
    assert demand * (u1 - u2) > 0.0;
  }

  /** Without a grant every row keeps its capex as effective capex. */
  lemma NoGrantKeepsCapex(g: Globals, discount: real, effMult: real, i: nat)
    requires ValidSettings(g.settings) && ValidMultiplier(effMult) && g.grant.None?
    requires i < |Technologies|
    ensures ModelRows(g, discount, effMult)[i].effectiveCapex == ModelRows(g, discount, effMult)[i].capex
    ensures ModelRows(g, discount, effMult)[i].effectiveCapex == g.settings.installCosts[Technologies[i]] as real
  {
    RoundedRows(g, discount, effMult, i);
  }

  /** A grant changes no row but its own technology's, and that row only in its effective capex. */
  lemma GrantTouchesOnlyTarget(g: Globals, discount: real, effMult: real, i: nat)
    requires ValidGlobals(g) && ValidMultiplier(effMult) && g.grant.Some?
    requires i < |Technologies|
    ensures var without := ModelRows(g.(grant := None), discount, effMult)[i];
      var with := ModelRows(g, discount, effMult)[i];
      && (Technologies[i] != g.grant.value.tech ==> with == without)
      && with.(effectiveCapex := without.effectiveCapex) == without
  {
    var t := Technologies[i];
    var raw := RawRow(g, t, discount, effMult);
    assert raw == RawRow(g.(grant := None), t, discount, effMult);
    assert raw.effectiveCapex == g.settings.installCosts[t] as real >= 1000.0;
  }

  /**
   The effective capex before rounding: a row other than the grant technology's
   keeps its capex; the grant technology's row gets max(0, capex - g) for a flat
   grant and max(0, capex * (1 - g/100)) for a percentage grant.
   */
  lemma GrantedCapex(g: Globals, discount: real, effMult: real, i: nat)
    requires ValidSettings(g.settings) && ValidMultiplier(effMult)
    requires i < |Technologies|
    ensures var u, t := UnroundedRows(g, discount, effMult)[i], Technologies[i];
      var c := g.settings.installCosts[t] as real;
      && u.capex == c
      && (g.grant.None? || g.grant.value.tech != t ==> u.effectiveCapex == c)
      && (g.grant.Some? && g.grant.value.tech == t && g.grant.value.kind == FlatAmount ==>
            u.effectiveCapex == Max0(c - g.grant.value.value))
      && (g.grant.Some? && g.grant.value.tech == t && g.grant.value.kind == PercentageOfCapex ==>
            u.effectiveCapex == Max0(c * (1.0 - g.grant.value.value / 100.0)))
  {
    var t := Technologies[i];
    assert g.settings.installCosts[t] as real >= 1000.0;
  }

  /** The effective capex is never negative and never more than the capex. */
  lemma EffectiveCapexBounds(g: Globals, discount: real, effMult: real, i: nat)
    requires ValidGlobals(g) && ValidMultiplier(effMult)
    requires i < |Technologies|
    ensures var r := ModelRows(g, discount, effMult)[i];
      0.0 <= r.effectiveCapex <= r.capex
  {
    var t := Technologies[i];
    var c := g.settings.installCosts[t] as real;
    var u := UnroundedRows(g, discount, effMult)[i];
    GrantedCapex(g, discount, effMult, i);
    if g.grant.Some? && g.grant.value.tech == t && g.grant.value.kind == PercentageOfCapex {
      var v := g.grant.value.value;
      assert c * (1.0 - v / 100.0) <= c * 1.0;
    }
    assert 0.0 <= u.effectiveCapex <= c;
    Round2NonNegative(u.effectiveCapex);
    Round2Monotone(u.effectiveCapex, c);
    Round2Whole(g.settings.installCosts[t]);
  }

  /** A grant at least as large as the capex, or of 100 percent or more, leaves nothing to pay. */
  lemma FullGrantLeavesNothing(g: Globals, discount: real, effMult: real, i: nat)
    requires ValidGlobals(g) && ValidMultiplier(effMult) && g.grant.Some?
    requires i < |Technologies| && Technologies[i] == g.grant.value.tech
    requires var c, gr := g.settings.installCosts[Technologies[i]] as real, g.grant.value;
      (gr.kind == FlatAmount && gr.value >= c) || (gr.kind == PercentageOfCapex && gr.value >= 100.0)
    ensures ModelRows(g, discount, effMult)[i].effectiveCapex == 0.0
  {
    var c := g.settings.installCosts[Technologies[i]] as real;
    var v := g.grant.value.value;
    var u := UnroundedRows(g, discount, effMult)[i];
    GrantedCapex(g, discount, effMult, i);
    if g.grant.value.kind == PercentageOfCapex {
      var f := 1.0 - v / 100.0;
      assert f <= 0.0;
      assert c * f <= 0.0;
    }
    assert u.effectiveCapex == 0.0;
    assert ModelRows(g, discount, effMult)[i] == RoundRow(u);
    Round2Whole(0);
  }
}
