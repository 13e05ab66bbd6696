/** Optional values, used for the grant that may or may not be enabled. */
module Wrappers {
  datatype Option<+T> = None | Some(value: T)
}

/**
 The fixed technology catalogue: the ordered list of heating technologies,
 the fuel each one burns, the housing archetypes with their annual heat
 demand, and the default efficiency, CO2 factor and installation cost of
 every technology. The user-editable copies of the three default tables are
 a `Settings` value whose entries stay within the ranges of the editor.
 */
module Catalogue {

  datatype Tech =
    | LTASHP
    | HTASHP
    | LTGSHP
    | AAHP
    | StorageHeater
    | ElectricBoiler
    | InfraredHeater
    | GasCondensingBoiler
    | GasNonCondensingBoiler
  {
    /** The display name, which is also the key of every lookup table. */
    function Name(): string {
      match this
      case LTASHP => "LTASHP"
      case HTASHP => "HTASHP"
      case LTGSHP => "LTGSHP"
      case AAHP => "AAHP"
      case StorageHeater => "Storage Heater"
      case ElectricBoiler => "Electric Boiler"
      case InfraredHeater => "Infrared Heater"
      case GasCondensingBoiler => "Gas Condensing Boiler"
      case GasNonCondensingBoiler => "Gas Non-Condensing Boiler"
    }
  }

  datatype Fuel = Electric | Gas

  datatype Archetype =
    | SmallerMidTerraceOnGas
    | LargerDetachedOnGas
    | LargerDetachedOffGas

  /** The canonical display order; one result row is produced per entry. */
  const Technologies: seq<Tech> := [
    LTASHP, HTASHP, LTGSHP, AAHP,
    StorageHeater, ElectricBoiler, InfraredHeater,
    GasCondensingBoiler, GasNonCondensingBoiler
  ]

  function FuelType(t: Tech): (f: Fuel)
    ensures f == Gas <==> t == GasCondensingBoiler || t == GasNonCondensingBoiler
  {
    match t
    case GasCondensingBoiler => Gas
    case GasNonCondensingBoiler => Gas
    case _ => Electric
  }

  /** Annual space-heating demand of an archetype, in kWh. */
  function HeatDemand(a: Archetype): (kwh: real)
    ensures 6400.0 <= kwh <= 21800.0
  {
    match a
    case SmallerMidTerraceOnGas => 6400.0
    case LargerDetachedOnGas => 17600.0
    case LargerDetachedOffGas => 21800.0
  }

  function DefaultEfficiency(t: Tech): real {
    match t
    case LTASHP => 2.86
    case HTASHP => 2.73
    case LTGSHP => 3.53
    case AAHP => 2.04
    case StorageHeater => 1.00
    case ElectricBoiler => 1.00
    case InfraredHeater => 1.00
    case GasCondensingBoiler => 0.895
    case GasNonCondensingBoiler => 0.60
  }

  function DefaultCo2Factor(t: Tech): real {
    match t
    case LTASHP => 0.074
    case HTASHP => 0.077
    case LTGSHP => 0.060
    case AAHP => 0.103
    case StorageHeater => 0.222
    case ElectricBoiler => 0.211
    case InfraredHeater => 0.211
    case GasCondensingBoiler => 0.184
    case GasNonCondensingBoiler => 0.184
  }

  function DefaultInstallCost(t: Tech): int {
    match t
    case LTASHP => 12000
    case HTASHP => 14000
    case LTGSHP => 20000
    case AAHP => 6800
    case StorageHeater => 4500
    case ElectricBoiler => 5000
    case InfraredHeater => 6500
    case GasCondensingBoiler => 3500
    case GasNonCondensingBoiler => 3000
  }

  /** The three per-technology tables the technology editor lets the user change. */
  datatype Settings = Settings(
    efficiencies: map<Tech, real>,
    co2Factors: map<Tech, real>,
    installCosts: map<Tech, int>)

  /** Efficiency / COP accepted by the editor (0.4 to 6.0). */
  predicate ValidEfficiency(e: real) { 0.4 <= e <= 6.0 }

  /** CO2 factor accepted by the editor (0.01 to 1.0 kg/kWh). */
  predicate ValidCo2Factor(c: real) { 0.01 <= c <= 1.0 }

  /** Installation cost accepted by the editor (1000 to 50000 pounds). */
  predicate ValidInstallCost(c: int) { 1000 <= c <= 50000 }

  /** Every technology has an entry in every table, each within the editor's range. */
  predicate ValidSettings(s: Settings) {
    forall t: Tech ::
      && t in s.efficiencies && ValidEfficiency(s.efficiencies[t])
      && t in s.co2Factors && ValidCo2Factor(s.co2Factors[t])
      && t in s.installCosts && ValidInstallCost(s.installCosts[t])
  }

  /** The tables as the session starts, copied from the defaults. */
  function DefaultSettings(): (s: Settings)
    ensures ValidSettings(s)
    ensures forall t: Tech :: s.efficiencies[t] == DefaultEfficiency(t)
    ensures forall t: Tech :: s.co2Factors[t] == DefaultCo2Factor(t)
    ensures forall t: Tech :: s.installCosts[t] == DefaultInstallCost(t)
  {
    Settings(
      map t: Tech :: DefaultEfficiency(t),
      map t: Tech :: DefaultCo2Factor(t),
      map t: Tech :: DefaultInstallCost(t))
  }

  /** The catalogue lists every technology exactly once. */
  lemma TechnologiesListEachOnce()
    ensures |Technologies| == 9
    ensures forall t: Tech :: t in Technologies
    ensures forall i, j :: 0 <= i < j < |Technologies| ==> Technologies[i] != Technologies[j]
  {
    forall t: Tech ensures t in Technologies {
      match t
      case LTASHP => assert Technologies[0] == t;
      case HTASHP => assert Technologies[1] == t;
      case LTGSHP => assert Technologies[2] == t;
      case AAHP => assert Technologies[3] == t;
      case StorageHeater => assert Technologies[4] == t;
      case ElectricBoiler => assert Technologies[5] == t;
      case InfraredHeater => assert Technologies[6] == t;
      case GasCondensingBoiler => assert Technologies[7] == t;
      case GasNonCondensingBoiler => assert Technologies[8] == t;
    }
  }

  /** Distinct technologies have distinct names, so a lookup by name is a lookup by technology. */
  lemma NamesAreDistinct(a: Tech, b: Tech)
    ensures a.Name() == b.Name() <==> a == b
  {
  }

  /** Seven technologies run on electricity and two on gas. */
  lemma FuelSplit()
    ensures |set t: Tech | FuelType(t) == Gas| == 2
    ensures |set t: Tech | FuelType(t) == Electric| == 7
  {
    assert (set t: Tech | FuelType(t) == Gas) == {GasCondensingBoiler, GasNonCondensingBoiler};
    assert (set t: Tech | FuelType(t) == Electric) ==
      {LTASHP, HTASHP, LTGSHP, AAHP, StorageHeater, ElectricBoiler, InfraredHeater};
  }
}
