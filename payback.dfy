/**
 Payback against the baseline technology. Every row is compared with the
 baseline row of the same table: a row that costs no more up front pays back
 immediately, a dearer row that saves nothing a year never pays back, and
 otherwise the payback time is the extra effective capex divided by the
 annual saving, cut down to whole years and whole months.
 */
module Payback {
  import opened Wrappers
  import opened Catalogue
  import opened Model

  datatype Payback = Immediate | NoPayback | YearsMonths(years: nat, months: nat)

  /** Annual running-cost saving of row r over the baseline row. */
  function Saving(base: Row, r: Row): real {
    base.annualCost - r.annualCost
  }

  /** Extra effective capex of row r over the baseline row. */
  function Extra(base: Row, r: Row): real {
    r.effectiveCapex - base.effectiveCapex
  }

  /** The payback label of row r against the baseline row. */
  function Pb(base: Row, r: Row): (p: Payback)
    ensures p == Immediate <==> Extra(base, r) <= 0.0
    ensures p == NoPayback <==> Extra(base, r) > 0.0 && Saving(base, r) <= 0.0
    ensures p.YearsMonths? ==> p.months < 12
  {
    var saving := Saving(base, r);
    var extra := Extra(base, r);
    if extra <= 0.0 then Immediate
    else if saving <= 0.0 then NoPayback
    else
      var yrs := extra / saving;
      var whole := yrs.Floor;
      var frac := yrs - whole as real;
      assert 0.0 <= frac < 1.0;
      YearsMonths(whole, (frac * 12.0).Floor)
  }

  /**
   Years and months are the payback time truncated to whole months: with
   extra capex X and saving S, 12 * years + months is the largest whole number
   of months m with m * S <= 12 * X. No month is ever carried into the years.
   */
  lemma PaybackIsTruncatedMonths(base: Row, r: Row)
    requires Pb(base, r).YearsMonths?
    ensures var p, x, s := Pb(base, r), Extra(base, r), Saving(base, r);
      && s > 0.0
      && (12 * p.years + p.months) as real * s <= 12.0 * x
      && 12.0 * x < (12 * p.years + p.months + 1) as real * s
      && 12 * p.years + p.months == (12.0 * x / s).Floor
  {
    var p, x, s := Pb(base, r), Extra(base, r), Saving(base, r);
    var yrs := x / s;
    var whole := yrs.Floor;
    var frac := yrs - whole as real;
    var m := (frac * 12.0).Floor;
    assert p == YearsMonths(whole, m);
    assert (12 * p.years + p.months) as real <= 12.0 * yrs < (12 * p.years + p.months + 1) as real;
    TruncationBracket(x, s, 12 * p.years + p.months);
  }

  /** A whole number n of months bracketing 12 * x / s is its floor, and brackets 12 * x by multiples of s. */
  lemma TruncationBracket(x: real, s: real, n: int)
    requires s > 0.0
    requires n as real <= 12.0 * (x / s) < (n + 1) as real
    ensures n as real * s <= 12.0 * x < (n + 1) as real * s
    ensures n == (12.0 * x / s).Floor
  {
    var v := 12.0 * (x / s);
    ScaleBy(n as real, v, (n + 1) as real, s);
    assert v * s == 12.0 * x;
    assert 12.0 * x / s == v;
  }

  /** Multiplying by a positive factor keeps a half-open bracket. */
  lemma ScaleBy(lo: real, v: real, hi: real, s: real)
    requires lo <= v < hi && s > 0.0
    ensures lo * s <= v * s < hi * s
  {
  }

  /** Whether some row of the table is for technology t. */
  predicate HasTech(rows: seq<Row>, t: Tech) {
    exists i :: 0 <= i < |rows| && rows[i].tech == t
  }

  lemma HasTechInTail(rows: seq<Row>, t: Tech)
    requires HasTech(rows, t) && rows[0].tech != t
    ensures HasTech(rows[1..], t)
  {
    var i :| 0 <= i < |rows| && rows[i].tech == t;
    assert rows[1..][i - 1].tech == t;
  }

  /** The position of the first row for technology t: the row the baseline lookup selects. */
  function BaseIndex(rows: seq<Row>, t: Tech): (k: nat)
    requires HasTech(rows, t)
    ensures k < |rows| && rows[k].tech == t
    ensures forall j :: 0 <= j < k ==> rows[j].tech != t
    decreases |rows|
  {
    if rows[0].tech == t then 0
    else
      HasTechInTail(rows, t);
      1 + BaseIndex(rows[1..], t)
  }

  /** The payback column: each row labelled against the baseline row. */
  function PaybackColumn(rows: seq<Row>, baseline: Tech): (col: seq<Payback>)
    requires HasTech(rows, baseline)
    ensures |col| == |rows|
  {
    var base := rows[BaseIndex(rows, baseline)];
    seq(|rows|, i requires 0 <= i < |rows| => Pb(base, rows[i]))
  }

  /** Looks up the baseline row, then labels every row of the table against it. */
  method ApplyPayback(rows: seq<Row>, baseline: Tech) returns (column: seq<Payback>)
    requires HasTech(rows, baseline)
    ensures column == PaybackColumn(rows, baseline)
    ensures column[BaseIndex(rows, baseline)] == Immediate
  {
    var base := rows[BaseIndex(rows, baseline)];
    column := [];
    for i := 0 to |rows|
      invariant |column| == i
      invariant forall j :: 0 <= j < i ==> column[j] == Pb(base, rows[j])
    {
      column := column + [Pb(base, rows[i])];
    }
  }

  /** The model's table has exactly one row per technology, at the technology's catalogue position. */
  lemma ModelRowsHaveTech(g: Globals, discount: real, effMult: real, i: nat)
    requires ValidSettings(g.settings) && ValidMultiplier(effMult)
    requires i < |Technologies|
    ensures HasTech(ModelRows(g, discount, effMult), Technologies[i])
    ensures BaseIndex(ModelRows(g, discount, effMult), Technologies[i]) == i
  {
    var rows := ModelRows(g, discount, effMult);
    TechnologiesListEachOnce();
    assert rows[i].tech == Technologies[i];
    var k := BaseIndex(rows, Technologies[i]);
    assert Technologies[k] == Technologies[i];
  }

  /** In the model's table the baseline row always pays back immediately: its extra capex is zero. */
  lemma BaselineIsImmediate(g: Globals, discount: real, effMult: real, b: nat)
    requires ValidSettings(g.settings) && ValidMultiplier(effMult)
    requires b < |Technologies|
    ensures HasTech(ModelRows(g, discount, effMult), Technologies[b])
    ensures PaybackColumn(ModelRows(g, discount, effMult), Technologies[b])[b] == Immediate
  {
    ModelRowsHaveTech(g, discount, effMult, b);
  }

  /** Every technology has a row in the model's table, so any technology can be the baseline. */
  lemma ModelRowsHaveEveryTech(g: Globals, discount: real, effMult: real, t: Tech)
    requires ValidSettings(g.settings) && ValidMultiplier(effMult)
    ensures HasTech(ModelRows(g, discount, effMult), t)
  {
    TechnologiesListEachOnce();
    assert t in Technologies;
    var i :| 0 <= i < |Technologies| && Technologies[i] == t;
    ModelRowsHaveTech(g, discount, effMult, i);
  }

  /**
   A grant for a technology other than the baseline leaves the payback of
   every other technology as it would be without the grant.
   */
  lemma GrantElsewhereKeepsPayback(g: Globals, discount: real, effMult: real, b: nat, i: nat)
    requires ValidGlobals(g) && ValidMultiplier(effMult) && g.grant.Some?
    requires b < |Technologies| && i < |Technologies|
    requires Technologies[b] != g.grant.value.tech && Technologies[i] != g.grant.value.tech
    ensures var with, without := ModelRows(g, discount, effMult), ModelRows(g.(grant := None), discount, effMult);
      && HasTech(with, Technologies[b]) && HasTech(without, Technologies[b])
      && PaybackColumn(with, Technologies[b])[i] == PaybackColumn(without, Technologies[b])[i]
  {
    ModelRowsHaveTech(g, discount, effMult, b);
    ModelRowsHaveTech(g.(grant := None), discount, effMult, b);
    GrantTouchesOnlyTarget(g, discount, effMult, b);
    GrantTouchesOnlyTarget(g, discount, effMult, i);
  }

  /**
   A grant for a technology other than the baseline lowers, or keeps, that
   technology's extra capex over the baseline, leaves its saving as it was,
   and never turns an immediate payback into anything else.
   */
  lemma GrantHelpsItsTarget(g: Globals, discount: real, effMult: real, b: nat, i: nat)
    requires ValidGlobals(g) && ValidMultiplier(effMult) && g.grant.Some?
    requires b < |Technologies| && i < |Technologies|
    requires Technologies[b] != g.grant.value.tech && Technologies[i] == g.grant.value.tech
    ensures var with, without := ModelRows(g, discount, effMult), ModelRows(g.(grant := None), discount, effMult);
      && Extra(with[b], with[i]) <= Extra(without[b], without[i])
      && Saving(with[b], with[i]) == Saving(without[b], without[i])
      && (Pb(without[b], without[i]) == Immediate ==> Pb(with[b], with[i]) == Immediate)
  {
    GrantTouchesOnlyTarget(g, discount, effMult, b);
    GrantTouchesOnlyTarget(g, discount, effMult, i);
    EffectiveCapexBounds(g, discount, effMult, i);
    NoGrantKeepsCapex(g.(grant := None), discount, effMult, i);
  }

  /**
   A grant for the baseline technology lowers the baseline's effective capex,
   so every other technology's extra capex over the baseline can only grow.
   */
  lemma GrantOnBaselineRaisesExtra(g: Globals, discount: real, effMult: real, b: nat, i: nat)
    requires ValidGlobals(g) && ValidMultiplier(effMult) && g.grant.Some?
    requires b < |Technologies| && i < |Technologies| && i != b
    requires Technologies[b] == g.grant.value.tech
    ensures var with, without := ModelRows(g, discount, effMult), ModelRows(g.(grant := None), discount, effMult);
      Extra(with[b], with[i]) >= Extra(without[b], without[i])
  {
    TechnologiesListEachOnce();
    GrantTouchesOnlyTarget(g, discount, effMult, b);
    GrantTouchesOnlyTarget(g, discount, effMult, i);
    EffectiveCapexBounds(g, discount, effMult, b);
    NoGrantKeepsCapex(g.(grant := None), discount, effMult, b);
  }

  /** A scenario's result: the model's rows with the payback column written beside them. */
  datatype Table = Table(rows: seq<Row>, payback: seq<Payback>)

  /**
   Scenario A runs at discount A with the catalogue efficiencies; scenario B,
   when enabled, at discount B with the efficiency multiplier. Both are then
   labelled against the same baseline.
   */
  method RunScenarios(g: Globals, baseline: Tech, discountA: real,
                      enableB: bool, discountB: real, effMultB: real)
    returns (a: Table, b: Option<Table>)
    requires ValidGlobals(g) && ValidDiscount(discountA)
    requires enableB ==> ValidDiscount(discountB) && ValidMultiplier(effMultB)
    ensures a.rows == ModelRows(g, discountA, 1.0)
    ensures HasTech(a.rows, baseline) && a.payback == PaybackColumn(a.rows, baseline)
    ensures b.Some? <==> enableB
    ensures enableB ==>
      && b.value.rows == ModelRows(g, discountB, effMultB)
      && HasTech(b.value.rows, baseline)
      && b.value.payback == PaybackColumn(b.value.rows, baseline)
  {
    var rowsA := RunModel(g, discountA, 1.0);
    ModelRowsHaveEveryTech(g, discountA, 1.0, baseline);
    var paybackA := ApplyPayback(rowsA, baseline);
    a := Table(rowsA, paybackA);
    b := None;
    if enableB {
      var rowsB := RunModel(g, discountB, effMultB);
      ModelRowsHaveEveryTech(g, discountB, effMultB, baseline);
      var paybackB := ApplyPayback(rowsB, baseline);
      b := Some(Table(rowsB, paybackB));
    }
  }
}
