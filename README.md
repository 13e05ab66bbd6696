# RDHEM heating model: scenario evaluator in Dafny

This project models the calculation core of the RDHEM heating-technology
cost, energy, carbon and payback page (`rdhem_primary_energy_costs_v5.py`).
The page compares nine heating technologies for a housing archetype. For each
technology it computes:

- the fuel it needs to meet the archetype's annual heat demand;
- the fuel cost, with a smart-tariff discount on electricity only;
- the gas standing charge, which only gas technologies pay;
- the annual cost and the CO2 emitted;
- the installation cost (capex) and the capex left after an optional grant.

It then labels every technology against a chosen baseline technology as
"Immediate", "No payback" or a payback time in years and months.

Modules:

- `Catalogue` (`catalogue.dfy`) holds the fixed catalogue. It gives the ordered
  technology list, each technology's fuel, the three archetypes' heat demands
  and the default efficiency, CO2 factor and installation cost tables. The
  user-editable copies of those tables are a `Settings` value. Every entry of
  that value must lie in the range the technology editor accepts.
- `Rounding` (`rounding.dfy`) holds the two-decimal rounding that the model
  applies to every numeric column before returning.
- `Model` (`model.dfy`) holds `run_model`. The page's widget values are passed
  in explicitly as a `Globals` value: the archetype, the prices, the gas
  standing charge, the grant settings and the edited tables. `RunModel` is the
  imperative procedure. It builds the rows in catalogue order, applies the
  grant to the matching row, clips at zero and rounds. It is proved equal to
  the specification function `ModelRows`, and the properties of the table are
  lemmas about `ModelRows`.
- `Payback` (`payback.dfy`) holds `apply_payback` and its per-row `pb`.
  `ApplyPayback` is proved equal to the function `PaybackColumn`.
  `RunScenarios` runs scenario A and the optional scenario B, as the page does.
- `WorkedScenario` (`worked_scenario.dfy`) works through one concrete example.
  It uses the smaller mid-terrace archetype, the default catalogue,
  electricity at 30 p/kWh, gas at 10 p/kWh, a £300 standing charge, no
  smart-tariff discount and the gas condensing boiler as the baseline. The
  LTASHP heat pump costs £671.33 a year against the boiler's £1015.08. Its
  payback is 24 years 8 months without a grant, 2 years 10 months with a flat
  £7500 grant, and immediate with a flat £9000 grant.

All quantities are `real`, except the installation costs. The technology
editor takes those in whole pounds, so the model keeps them as `int` until the
capex column converts them, as the code's `astype(float)` does. Prices are in
pence per kWh and become pounds per kWh by dividing by 100, as in the code.

The code behaves as follows where a reader might expect otherwise, and the model does the same:

- The grant is taken off the technology's absolute capex, before the
  difference to the baseline is formed. It can therefore apply to the baseline
  itself, which can only raise, never lower, every other technology's extra
  capex. The percentage grant is a percentage of the whole capex, not of the
  extra capex.
- The payback months are truncated, and no month is carried into the years.
  In the worked example this gives 24y 8m and 2y 10m, where rounding the
  months would give 24y 9m and 2y 11m.
- Only gas has a standing charge. There is no electric standing charge.
- The code never raises an error. Its inputs come from widgets with fixed
  ranges, and those ranges are the preconditions here.
- Payback is computed on the rounded table.

## Model

| member | source | states |
|---|---|---|
| Catalogue.TechnologiesListEachOnce | rdhem_primary_energy_costs_v5.py:31-35 | the catalogue lists nine technologies, every technology, none twice |
| Catalogue.NamesAreDistinct | rdhem_primary_energy_costs_v5.py:31-35 | two technologies have the same display name exactly when they are the same technology |
| Catalogue.FuelType | rdhem_primary_energy_costs_v5.py:37-47 | a technology burns gas exactly when it is one of the two gas boilers |
| Catalogue.FuelSplit | rdhem_primary_energy_costs_v5.py:37-47 | seven technologies are electric and two are gas |
| Catalogue.HeatDemand | rdhem_primary_energy_costs_v5.py:49-53 | every archetype's heat demand is between 6400 and 21800 kWh |
| Catalogue.DefaultSettings | rdhem_primary_energy_costs_v5.py:59-79 | the starting tables hold the default efficiency, CO2 factor and install cost of every technology, each within the editor's range |
| Rounding.Round2 | rdhem_primary_energy_costs_v5.py:212 | the rounded value is a whole number of hundredths within half a hundredth of the input |
| Rounding.Round2Monotone | rdhem_primary_energy_costs_v5.py:212 | rounding never reverses the order of two values |
| Rounding.Round2Exact | rdhem_primary_energy_costs_v5.py:212 | a value that is already whole hundredths is unchanged by rounding |
| Rounding.Round2Whole | rdhem_primary_energy_costs_v5.py:201 | a whole-pound capex survives the rounding unchanged |
| Rounding.Round2NonNegative | rdhem_primary_energy_costs_v5.py:210-212 | a non-negative value rounds to a non-negative value |
| Model.EfficiencyStaysPositive | rdhem_primary_energy_costs_v5.py:181 | any editable efficiency times any multiplier is at least 0.32, so the fuel-demand division is defined |
| Model.RawRow | rdhem_primary_energy_costs_v5.py:178-202 | each row carries its technology and that technology's fuel, with positive efficiency and fuel demand |
| Model.UnroundedRows | rdhem_primary_energy_costs_v5.py:176-210 | before rounding, the table has one row per catalogue technology, in catalogue order |
| Model.ModelRows | rdhem_primary_energy_costs_v5.py:176-212 | the returned table has one row per catalogue technology, in catalogue order |
| Model.RunModel | rdhem_primary_energy_costs_v5.py:176-212 | building the rows, applying the grant to the matching row, clipping and rounding yields exactly ModelRows |
| Model.RowFormulas | rdhem_primary_energy_costs_v5.py:180-201 | fuel demand times the adjusted efficiency is the heat demand; CO2 is fuel demand times the CO2 factor; electric unit cost is elec/100 times (1 - discount/100) and gas unit cost is gas/100; fuel cost is demand times unit cost; standing charge is the gas charge for gas and 0 for electric; annual cost is fuel cost plus standing charge |
| Model.RoundedRows | rdhem_primary_energy_costs_v5.py:192-212 | every returned value is its unrounded value rounded; capex survives exactly; rounded annual cost is within 1.5p of rounded fuel cost plus rounded standing charge |
| Model.DiscountLowersOnlyElectricCost | rdhem_primary_energy_costs_v5.py:184-194 | a larger discount strictly lowers an electric row's annual cost, never raises it after rounding, and leaves a gas row exactly unchanged |
| Model.DiscountLowersElecUnit | rdhem_primary_energy_costs_v5.py:184 | a larger discount gives a strictly lower electricity unit cost |
| Model.NoGrantKeepsCapex | rdhem_primary_energy_costs_v5.py:201-202 | without a grant, every row's effective capex equals its capex, which is the edited install cost |
| Model.GrantTouchesOnlyTarget | rdhem_primary_energy_costs_v5.py:204-210 | a grant leaves every row of another technology exactly as it is without the grant, and changes nothing but the effective capex of its own row |
| Model.GrantedCapex | rdhem_primary_energy_costs_v5.py:201-210 | before rounding, rows of other technologies keep their capex; a flat grant leaves max(0, capex - g) and a percentage grant leaves max(0, capex * (1 - g/100)) |
| Model.EffectiveCapexBounds | rdhem_primary_energy_costs_v5.py:201-212 | the effective capex is never negative and never exceeds the capex |
| Model.FullGrantLeavesNothing | rdhem_primary_energy_costs_v5.py:206-210 | a flat grant of at least the capex, or a percentage grant of 100 or more, leaves effective capex 0 |
| Payback.Pb | rdhem_primary_energy_costs_v5.py:224-232 | "Immediate" exactly when extra capex is at most 0, whatever the saving; "No payback" exactly when extra capex is positive and saving is at most 0; otherwise months below 12 |
| Payback.PaybackIsTruncatedMonths | rdhem_primary_energy_costs_v5.py:231-232 | 12 * years + months is the largest whole number of months m with m * saving at most 12 * extra, that is floor(12 * extra / saving), so there is no carry |
| Payback.BaseIndex | rdhem_primary_energy_costs_v5.py:222 | the baseline lookup selects the first row for the baseline technology |
| Payback.PaybackColumn | rdhem_primary_energy_costs_v5.py:234 | the payback column has one label per row |
| Payback.ApplyPayback | rdhem_primary_energy_costs_v5.py:221-235 | looking up the baseline and labelling each row in turn yields PaybackColumn, and the baseline row is labelled "Immediate" |
| Payback.ModelRowsHaveTech | rdhem_primary_energy_costs_v5.py:178 | the model's table has a row for each technology, and the baseline lookup finds it at its catalogue position |
| Payback.ModelRowsHaveEveryTech | rdhem_primary_energy_costs_v5.py:222 | every technology the baseline selector offers has a row in the model's table |
| Payback.BaselineIsImmediate | rdhem_primary_energy_costs_v5.py:222-228 | the baseline row of the model's table is always labelled "Immediate" |
| Payback.GrantElsewhereKeepsPayback | rdhem_primary_energy_costs_v5.py:204-232 | a grant for a technology other than the baseline leaves every other technology's payback label as it is without the grant |
| Payback.GrantHelpsItsTarget | rdhem_primary_energy_costs_v5.py:204-232 | a grant for a non-baseline technology never raises its extra capex, keeps its saving, and keeps an "Immediate" label |
| Payback.GrantOnBaselineRaisesExtra | rdhem_primary_energy_costs_v5.py:204-232 | a grant on the baseline technology can only raise every other technology's extra capex |
| Payback.RunScenarios | rdhem_primary_energy_costs_v5.py:214-239 | scenario A is the model at discount A with multiplier 1.0; scenario B exists exactly when enabled and is the model at discount B and multiplier B; both are labelled against the baseline |
| WorkedScenario.AnnualCosts | rdhem_primary_energy_costs_v5.py:176-212 | in the worked example, LTASHP costs £671.33 a year and the gas condensing boiler £1015.08 |
| WorkedScenario.NoGrantPayback | rdhem_primary_energy_costs_v5.py:221-232 | in the worked example, LTASHP's extra capex is 8500, its saving 343.75 and its payback 24 years 8 months |
| WorkedScenario.FlatGrantPayback | rdhem_primary_energy_costs_v5.py:204-232 | with a flat £7500 grant on LTASHP, the extra capex is 1000 and the payback 2 years 10 months |
| WorkedScenario.LargeGrantIsImmediate | rdhem_primary_energy_costs_v5.py:204-232 | with a flat £9000 grant on LTASHP, its payback is "Immediate" |

## Left out

- The Streamlit page: its setup, sidebar widgets, session-state initialisation and technology editor (lines 9-25 and 77-170). These are user interface. Only their numeric ranges are kept, as the predicates ValidSettings, ValidPrices, ValidGrant, ValidDiscount and ValidMultiplier. The integer sliders (discount, gas standing charge) are modelled as reals in the same range. The editor's integer installation costs stay `int`.
- Table styling (`format_table`) and the Plotly charts (`stacked_cost_chart`). These are presentation and calls into foreign libraries.
- Floating point. All arithmetic is exact on `real`. `df.round(2)` is modelled as exact round-half-to-even to hundredths (Rounding.Round2). numpy rounds the binary float value, which can round a tie differently. The visible float effect is in `pb`'s month count `int((yrs % 1) * 12)`: when the exact payback is a whole number of months, the float product can land just below it and lose a month. With extra capex £1000 and saving £750 a year the float product is 3.999…, so the code shows "1y 3m", while Payback.Pb gives `YearsMonths(1, 4)`. Payback.PaybackIsTruncatedMonths states the exact truncation, not the code's float output in such cases.
- The string form of the payback label (`"24y 8m"`). It is the datatype `Immediate | NoPayback | YearsMonths(years, months)`.
- Payback.ApplyPayback: the code writes the column into the frame it is given and returns that same frame. The model returns the column and pairs it with the rows in `Table`. Aliasing of the frame is not captured; the page reassigns the frame straight away.
- pandas mechanics (`.map` yielding NaN for a missing key, `.loc`, `.clip`, `.apply`). Every table must have an entry for every technology (ValidSettings). The per-row steps are functions, and `RunModel` loops over a sequence of rows.
- A baseline missing from the table makes `.iloc[0]` fail in the code. The sidebar offers only catalogue technologies, so ApplyPayback requires the baseline to have a row (HasTech).
