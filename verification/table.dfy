/**
 The conversion table (unit_converter.py, `CONVERSION_FACTORS`): an ordered
 mapping from category name to either per-unit multiplicative factors or a
 plain list of unit names.
 */
module Table {
  import opened Dict
  import Temperature

  /**
   What a category holds: `Factors` maps each unit to how many of that unit
   make one of the category's base unit; `UnitList` only names the units,
   which are related by the temperature formulas instead.
   */
  datatype Category =
    | Factors(entries: seq<(string, real)>)
    | UnitList(units: seq<string>)

  type CategoryTable = seq<(string, Category)>

  /** The category whose conversions go through the temperature formulas. */
  const TemperatureCategory := "Temperature"

  const LengthFactors: seq<(string, real)> := [
    ("Meter", 1.0),
    ("Centimeter", 100.0),
    ("Kilometer", 0.001),
    ("Inch", 39.3701),
    ("Foot", 3.28084)
  ]

  const WeightFactors: seq<(string, real)> := [
    ("Kilogram", 1.0),
    ("Gram", 1000.0),
    ("Pound", 2.20462),
    ("Ounce", 35.274)
  ]

  /** The table as written, in its order: Length, Temperature, Weight. */
  const ConversionFactors: CategoryTable := [
    ("Length", Factors(LengthFactors)),
    (TemperatureCategory, UnitList(Temperature.Units)),
    ("Weight", Factors(WeightFactors))
  ]

  /**
   The factors of a category are usable as a dict: no unit is listed twice
   (so each unit has one factor) and every factor is strictly positive (so
   dividing by it cannot fail).
   */
  predicate ValidFactors(entries: seq<(string, real)>)
  {
    && DistinctKeys(entries)
    && forall i :: 0 <= i < |entries| ==> entries[i].1 > 0.0
  }

  /**
   A table whose arithmetic cannot fail: no category twice, every factor
   category non-empty with positive factors and not named as the
   temperature category, and the only plain unit list a non-empty list of
   temperature units under the temperature category.
   */
  predicate WellFormed(t: CategoryTable)
  {
    && DistinctKeys(t)
    && forall i :: 0 <= i < |t| ==>
         match t[i].1
         case Factors(entries) =>
           && t[i].0 != TemperatureCategory
           && ValidFactors(entries)
           && |entries| > 0
         case UnitList(units) =>
           && t[i].0 == TemperatureCategory
           && |units| > 0
           && forall j :: 0 <= j < |units| ==> units[j] in Temperature.Units
  }

  /** What a well-formed table promises about the category stored under a name. */
  lemma CategoryInvariant(t: CategoryTable, category: string)
    requires Lookup(t, category).Some?
    ensures WellFormed(t) ==>
              match Lookup(t, category).value
              case Factors(entries) =>
                category != TemperatureCategory && ValidFactors(entries) && |entries| > 0
              case UnitList(units) =>
                && category == TemperatureCategory
                && |units| > 0
                && forall j :: 0 <= j < |units| ==> units[j] in Temperature.Units
  {
    var i :| 0 <= i < |t| && t[i] == (category, Lookup(t, category).value);
  }

  /** The factor of `u` in a factor category, as a lookup that may fail. */
  function Factor(entries: seq<(string, real)>, u: string): (r: Option<real>)
    requires ValidFactors(entries)
    ensures r.Some? <==> u in Keys(entries)
    ensures r.Some? ==> (u, r.value) in entries && r.value > 0.0
  {
    Lookup(entries, u)
  }

  /** `x` of a unit with factor `from`, written in a unit with factor `to`, through the base unit. */
  function Rescale(x: real, from: real, to: real): real
    requires from > 0.0
  {
    (x / from) * to
  }

  /** Into the base unit and back out to the same unit. */
  lemma RescaleSame(x: real, f: real)
    requires f > 0.0
    ensures Rescale(x, f, f) == x
  {
  }

  /** Out of the base unit into b and back into the base unit. */
  lemma ScaleBack(x: real, a: real, b: real)
    requires a > 0.0 && b > 0.0
    ensures ((x / a) * b) / b == x / a
  {
  }

  /** Passing through a unit with factor b on the way from a to c changes nothing. */
  lemma RescaleCompose(x: real, a: real, b: real, c: real)
    requires a > 0.0 && b > 0.0 && c > 0.0
    ensures Rescale(Rescale(x, a, b), b, c) == Rescale(x, a, c)
  {
    ScaleBack(x, a, b);
  }

  /** Scaling by the ratio b/a is going into the base unit and out again. */
  lemma RescaleByRatio(x: real, a: real, b: real)
    requires a > 0.0 && b > 0.0
    ensures x * (b / a) == Rescale(x, a, b)
  {
  }

  /**
   Converting through the base unit: `x` of unit `a` is `x / f(a)` of the
   base unit, which is `(x / f(a)) * f(b)` of unit `b`.
   */
  function ThroughBase(entries: seq<(string, real)>, a: string, b: string, x: real): real
    requires ValidFactors(entries)
    requires a in Keys(entries) && b in Keys(entries)
  {
    Rescale(x, Factor(entries, a).value, Factor(entries, b).value)
  }

  /** Passing through unit b on the way from a to c changes nothing. */
  lemma ThroughBaseCompose(entries: seq<(string, real)>, a: string, b: string, c: string, x: real)
    requires ValidFactors(entries)
    requires a in Keys(entries) && b in Keys(entries) && c in Keys(entries)
    ensures ThroughBase(entries, b, c, ThroughBase(entries, a, b, x)) == ThroughBase(entries, a, c, x)
  {
    RescaleCompose(x, Factor(entries, a).value, Factor(entries, b).value, Factor(entries, c).value);
  }

  /** Converting a unit to itself through the base unit changes nothing. */
  lemma ThroughBaseSame(entries: seq<(string, real)>, a: string, x: real)
    requires ValidFactors(entries)
    requires a in Keys(entries)
    ensures ThroughBase(entries, a, a, x) == x
  {
    RescaleSame(x, Factor(entries, a).value);
  }

  /** The table as written stores the entries written for each category, with positive factors. */
  lemma ConversionFactorsEntries()
    ensures Lookup(ConversionFactors, "Length") == Some(Factors(LengthFactors))
    ensures Lookup(ConversionFactors, "Weight") == Some(Factors(WeightFactors))
    ensures Lookup(ConversionFactors, TemperatureCategory) == Some(UnitList(Temperature.Units))
    ensures ValidFactors(LengthFactors) && ValidFactors(WeightFactors)
  {
    assert ConversionFactors[2] == ("Weight", Factors(WeightFactors));
    LookupEntry(ConversionFactors, "Weight", Factors(WeightFactors));
  }

  /** The table as written is well formed: all nine factors are positive. */
  lemma ConversionFactorsWellFormed()
    ensures WellFormed(ConversionFactors)
  {
    ConversionFactorsEntries();
  }

  /** The categories offered for selection, in table order. */
  lemma CategoryNames()
    ensures Keys(ConversionFactors) == ["Length", TemperatureCategory, "Weight"]
  {
  }
}
