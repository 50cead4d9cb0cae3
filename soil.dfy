/**
 * The soil calculator's arithmetic (SoilCalculationService): the volume of a
 * bed, the kilograms of soil it takes for a soil type, and its volume in
 * litres. The density table is fixed when the service is built and only read
 * afterwards, so every operation is a function of that table.
 */
module Soil {
  import opened Wrappers
  import opened Numbers

  /** Kilograms per tonne. */
  const TonnesToKg: real := 1000.0

  /** Litres per cubic metre. */
  const LitersPerCubicMeter: real := 1000.0

  /** Densities in tonnes per cubic metre when nothing overrides them. */
  const DefaultIntensive: real := 1.3
  const DefaultExtensive: real := 1.1

  datatype SoilError = InvalidSoilType(soilType: string)

  /** A soil type as offered to the user: its title and its density in tonnes/m³. */
  datatype SoilTypeLabel = SoilTypeLabel(title: string, density: real)

  /**
   * The density table the service is built with: for each of the two soil
   * types, the configured override when there is one, else the default.
   */
  function ConfiguredDensities(intensive: Option<real>, extensive: Option<real>): (d: map<string, real>)
    ensures d.Keys == {"intensive", "extensive"}
    ensures intensive.None? ==> d["intensive"] == DefaultIntensive
    ensures extensive.None? ==> d["extensive"] == DefaultExtensive
    ensures intensive.Some? ==> d["intensive"] == intensive.value
    ensures extensive.Some? ==> d["extensive"] == extensive.value
  {
    var i := if intensive.Some? then intensive.value else DefaultIntensive;
    var e := if extensive.Some? then extensive.value else DefaultExtensive;
    map["intensive" := i, "extensive" := e]
  }

  /** calculateVolume: length × width × depth, in cubic metres. */
  function CalculateVolume(length: real, width: real, depth: real): (v: real)
    ensures length > 0.0 && width > 0.0 && depth > 0.0 ==> v > 0.0
    ensures length == 0.0 || width == 0.0 || depth == 0.0 ==> v == 0.0
  {
    length * width * depth
  }

  /** getSoilDensity: the density of a known soil type; an unknown type is an error. */
  function GetSoilDensity(densities: map<string, real>, soilType: string): (r: Result<real, SoilError>)
    ensures r.Err? <==> soilType !in densities
    ensures r.Err? ==> r.error == InvalidSoilType(soilType)
    ensures r.Ok? ==> r.value == densities[soilType]
  {
    if soilType in densities then Ok(densities[soilType]) else Err(InvalidSoilType(soilType))
  }

  /**
   * calculateSoilRequired: volume × density × 1000 kilograms; the error of
   * getSoilDensity passes through unchanged.
   */
  function CalculateSoilRequired(densities: map<string, real>, volume: real, soilType: string): (r: Result<real, SoilError>)
    ensures r.Err? <==> GetSoilDensity(densities, soilType).Err?
    ensures r.Err? ==> r.error == InvalidSoilType(soilType)
    ensures r.Ok? ==> r.value / TonnesToKg == volume * GetSoilDensity(densities, soilType).value
    ensures r.Ok? && volume > 0.0 && densities[soilType] > 0.0 ==> r.value > 0.0
  {
    match GetSoilDensity(densities, soilType)
    case Err(e) => Err(e)
    case Ok(density) => Ok(volume * density * TonnesToKg)
  }

  /**
   * getSoilTypes: exactly the two soil types, each labelled with its title
   * and its density. The table built by ConfiguredDensities always holds both.
   */
  function GetSoilTypes(densities: map<string, real>): (r: map<string, SoilTypeLabel>)
    requires "intensive" in densities && "extensive" in densities
    ensures r.Keys == {"intensive", "extensive"}
    ensures r["intensive"].title == "Intensive" && r["extensive"].title == "Extensive"
    ensures forall t :: t in r ==> GetSoilDensity(densities, t) == Ok(r[t].density)
  {
    map[
      "intensive" := SoilTypeLabel("Intensive", densities["intensive"]),
      "extensive" := SoilTypeLabel("Extensive", densities["extensive"])
    ]
  }

  /** calculateLiters: the volume in litres, rounded to the nearest whole litre. */
  function CalculateLiters(volume: real): (n: int)
    ensures -0.5 <= n as real - volume * LitersPerCubicMeter <= 0.5
    ensures volume >= 0.0 ==> n >= 0
    ensures volume * LitersPerCubicMeter == (volume * LitersPerCubicMeter).Floor as real
      ==> n as real == volume * LitersPerCubicMeter
  {
    RoundHalfAwayFromZero(volume * LitersPerCubicMeter)
  }

  /** Whole cubic metres are an exact number of litres. */
  lemma LitersOfWholeCubicMeters(k: nat)
    ensures CalculateLiters(k as real) == 1000 * k
  {
    assert (k as real) * LitersPerCubicMeter == (1000 * k) as real;
    assert ((1000 * k) as real).Floor == 1000 * k;
  }

  /** With the default table, a cubic metre takes 1300 kg of intensive and 1100 kg of extensive soil. */
  lemma DefaultSoilRequired(volume: real)
    ensures CalculateSoilRequired(ConfiguredDensities(None, None), volume, "intensive") == Ok(1300.0 * volume)
    ensures CalculateSoilRequired(ConfiguredDensities(None, None), volume, "extensive") == Ok(1100.0 * volume)
  {
    var d := ConfiguredDensities(None, None);
    assert GetSoilDensity(d, "intensive") == Ok(1.3);
    assert GetSoilDensity(d, "extensive") == Ok(1.1);
  }

  /** Only the two configured types are accepted; every other name is an invalid soil type. */
  lemma OnlyConfiguredTypes(intensive: Option<real>, extensive: Option<real>, soilType: string, volume: real)
    ensures CalculateSoilRequired(ConfiguredDensities(intensive, extensive), volume, soilType).Ok?
      <==> soilType == "intensive" || soilType == "extensive"
  {
  }

  /** Soil mass is proportional to volume: k times the volume takes k times the soil. */
  lemma SoilRequiredScales(densities: map<string, real>, volume: real, k: real, soilType: string)
    requires soilType in densities
    ensures CalculateSoilRequired(densities, k * volume, soilType).Ok?
    ensures CalculateSoilRequired(densities, k * volume, soilType).value
      == k * CalculateSoilRequired(densities, volume, soilType).value
  {
    var density := densities[soilType];
    assert k * volume * density * TonnesToKg == k * (volume * density * TonnesToKg);
  }
}
