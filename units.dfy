/**
 * Length-unit conversion (UnitConversionService): every supported unit has a
 * factor to metres, and a value goes from one unit to another through metres.
 */
module Units {
  import opened Wrappers

  datatype UnitError = UnsupportedFromUnit(fromUnit: string) | UnsupportedToUnit(toUnit: string)

  /** The factor table, in its declared order: metres per unit. */
  const ConversionFactors: seq<(string, real)> := [("meters", 1.0), ("feet", 0.3048), ("inches", 0.0254)]

  /** The factor of a unit, found by key in a table; None when the table has no such key. */
  function Lookup(table: seq<(string, real)>, unit: string): (r: Option<real>)
    ensures r.None? <==> forall k :: 0 <= k < |table| ==> table[k].0 != unit
    ensures r.Some? ==> exists k :: 0 <= k < |table| && table[k] == (unit, r.value)
  {
    if table == [] then None
    else if table[0].0 == unit then Some(table[0].1)
    else
      var r := Lookup(table[1..], unit);
      assert forall k :: 1 <= k < |table| ==> table[k] == table[1..][k - 1];
      r
  }

  function Factor(unit: string): Option<real> {
    Lookup(ConversionFactors, unit)
  }

  /** getSupportedUnits: the keys of the factor table, in order. */
  function GetSupportedUnits(): (units: seq<string>)
    ensures |units| == |ConversionFactors|
    ensures forall k :: 0 <= k < |units| ==> units[k] == ConversionFactors[k].0
  {
    seq(|ConversionFactors|, k requires 0 <= k < |ConversionFactors| => ConversionFactors[k].0)
  }

  /** The supported units are exactly meters, feet and inches, and each has a positive factor. */
  lemma SupportedUnits(unit: string)
    ensures GetSupportedUnits() == ["meters", "feet", "inches"]
    ensures Factor(unit).Some? <==> unit in GetSupportedUnits()
    ensures Factor(unit).Some? ==> Factor(unit).value > 0.0
  {
    var units := GetSupportedUnits();
    assert units == ["meters", "feet", "inches"];
    assert unit in units <==> unit == "meters" || unit == "feet" || unit == "inches";
  }

  /**
   * validateUnits: an unsupported source unit is reported first; only when
   * it is supported is the target unit checked.
   */
  function ValidateUnits(fromUnit: string, toUnit: string): (r: Option<UnitError>)
    ensures r == None <==> Factor(fromUnit).Some? && Factor(toUnit).Some?
    ensures Factor(fromUnit).None? ==> r == Some(UnsupportedFromUnit(fromUnit))
    ensures Factor(fromUnit).Some? && Factor(toUnit).None? ==> r == Some(UnsupportedToUnit(toUnit))
  {
    if Factor(fromUnit).None? then Some(UnsupportedFromUnit(fromUnit))
    else if Factor(toUnit).None? then Some(UnsupportedToUnit(toUnit))
    else None
  }

  /**
   * convert: value in fromUnit, expressed in toUnit. The result measures the
   * same length: result × factor(to) = value × factor(from).
   */
  function Convert(value: real, fromUnit: string, toUnit: string): (r: Result<real, UnitError>)
    ensures r.Err? <==> ValidateUnits(fromUnit, toUnit).Some?
    ensures r.Err? ==> r.error == ValidateUnits(fromUnit, toUnit).value
    ensures r.Ok? ==> r.value * Factor(toUnit).value == value * Factor(fromUnit).value
  {
    match ValidateUnits(fromUnit, toUnit)
    case Some(e) => Err(e)
    case None =>
      SupportedUnits(toUnit);
      var meters := value * Factor(fromUnit).value;
      Ok(meters / Factor(toUnit).value)
  }

  /** Converting to the same unit changes nothing. */
  lemma ConvertIdentity(value: real, unit: string)
    requires Factor(unit).Some?
    ensures Convert(value, unit, unit) == Ok(value)
  {
    SupportedUnits(unit);
    var f := Factor(unit).value;
    assert value * f / f == value;
  }

  /** Two lengths that agree in metres agree in any unit. */
  lemma CancelFactor(x: real, y: real, f: real)
    requires f > 0.0 && x * f == y * f
    ensures x == y
  {
    assert (x - y) * f == 0.0;
  }

  /** Converting there and back returns the original value. */
  lemma ConvertRoundTrip(value: real, a: string, b: string)
    requires Factor(a).Some? && Factor(b).Some?
    ensures Convert(value, a, b).Ok?
    ensures Convert(Convert(value, a, b).value, b, a) == Ok(value)
  {
    SupportedUnits(a);
    var there := Convert(value, a, b).value;
    var back := Convert(there, b, a).value;
    CancelFactor(back, value, Factor(a).value);
  }

  /** Converting through an intermediate unit is the same as converting directly. */
  lemma ConvertCompose(value: real, a: string, b: string, c: string)
    requires Factor(a).Some? && Factor(b).Some? && Factor(c).Some?
    ensures Convert(value, a, b).Ok?
    ensures Convert(Convert(value, a, b).value, b, c) == Convert(value, a, c)
  {
    SupportedUnits(c);
    var there := Convert(value, a, b).value;
    var onward := Convert(there, b, c).value;
    var direct := Convert(value, a, c).value;
    CancelFactor(onward, direct, Factor(c).value);
  }

  /** Twelve inches make a foot, and a foot is 0.3048 metres. */
  lemma InchesFeetMeters()
    ensures Convert(12.0, "inches", "feet") == Ok(1.0)
    ensures Convert(1.0, "feet", "meters") == Ok(0.3048)
  {
    assert Factor("inches") == Some(0.0254);
    assert Factor("feet") == Some(0.3048);
    assert Factor("meters") == Some(1.0);
  }
}
