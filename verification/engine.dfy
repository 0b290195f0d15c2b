/**
 The conversion engine (unit_converter.py, `convert_units`): one conversion
 of a value between two units of a category, reported as a value with a
 formula, or as the error the lookup raised. Every exception inside
 `convert_units` is caught and returned, so each failure is an `Err` here.
 */
module Engine {
  import opened Dict
  import opened Table
  import Temperature

  /** How the value was obtained; the formula text itself is not modelled. */
  datatype Formula =
    | NoConversion                          // "No conversion needed"
    | Converted                             // "Converted", a temperature formula
    | Scaled(input: real, factor: real)     // "<value> × <factor>"

  /** The exception `convert_units` caught, standing for its message. */
  datatype ConversionError =
    | KeyError(key: string)                  // a category or unit missing from the table
    | PairKeyError(from: string, to: string) // a unit pair missing from the temperature converters
    | TypeError(category: string)            // a unit list subscripted by a unit name
    | ZeroDivisionError                      // a zero factor for the source unit

  /** The pair `convert_units` returns: `(value, formula)` or `(None, message)`. */
  datatype Outcome = Ok(value: real, formula: Formula) | Err(error: ConversionError)

  /** Whether `u` is a unit `category` can convert: a temperature unit, or a key of its factors. */
  predicate KnownUnit(t: CategoryTable, category: string, u: string)
  {
    if category == TemperatureCategory then u in Temperature.Units
    else
      var entry: Option<Category> := Lookup(t, category);
      match entry
      case Some(Factors(entries)) => u in Keys(entries)
      case _ => false
  }

  /**
   Converts `value` from unit `from` to unit `to` of `category`. Equal units
   succeed before anything is looked up, even for an unknown category. The
   temperature category goes through the converter table; any other
   category scales by the ratio of the target's factor to the source's.
   */
  function Convert(t: CategoryTable, value: real, from: string, to: string, category: string): (r: Outcome)
    ensures from == to ==> r == Ok(value, NoConversion)
    ensures from != to && category == TemperatureCategory ==>
              (r.Ok? <==> from in Temperature.Units && to in Temperature.Units)
    ensures from != to && category == TemperatureCategory && r.Ok? ==>
              r == Ok(Temperature.FromCelsius(to, Temperature.ToCelsius(from, value)), Converted)
    ensures from != to && category == TemperatureCategory && r.Err? ==>
              r.error == PairKeyError(from, to)
    ensures category != TemperatureCategory && Lookup(t, category).None? && from != to ==>
              r == Err(KeyError(category))
    ensures category != TemperatureCategory && Lookup(t, category).Some? && Lookup(t, category).value.UnitList?
            && from != to ==>
              r == Err(TypeError(category))
  {
    if from == to then Ok(value, NoConversion)
    else if category == TemperatureCategory then
      Temperature.ConvertersComplete(from, to);
      match Lookup(Temperature.Converters, (from, to))
      case None => Err(PairKeyError(from, to))
      case Some(rule) =>
        Temperature.RuleViaCelsius(from, to, value);
        Ok(Temperature.Apply(rule, value), Converted)
    else
      var entry: Option<Category> := Lookup(t, category);
      match entry
      case None => Err(KeyError(category))
      case Some(UnitList(_)) => Err(TypeError(category))
      case Some(Factors(entries)) =>
        match Lookup(entries, to)
        case None => Err(KeyError(to))
        case Some(toFactor) =>
          match Lookup(entries, from)
          case None => Err(KeyError(from))
          case Some(fromFactor) =>
            if fromFactor == 0.0 then Err(ZeroDivisionError)
            else
              var factor := toFactor / fromFactor;
              Ok(value * factor, Scaled(value, factor))
  }

  /**
   A linear conversion between two distinct units succeeds exactly when both
   units have a factor, and then converts through the base unit: divide by
   the source's factor, multiply by the target's.
   */
  lemma LinearConvert(t: CategoryTable, category: string, entries: seq<(string, real)>, x: real, a: string, b: string)
    requires category != TemperatureCategory
    requires Lookup(t, category) == Some(Factors(entries))
    requires ValidFactors(entries)
    requires a != b
    ensures Convert(t, x, a, b, category).Ok? <==> a in Keys(entries) && b in Keys(entries)
    ensures Convert(t, x, a, b, category).Ok? ==>
              Convert(t, x, a, b, category)
              == Ok(ThroughBase(entries, a, b, x), Scaled(x, Factor(entries, b).value / Factor(entries, a).value))
    ensures b !in Keys(entries) ==> Convert(t, x, a, b, category) == Err(KeyError(b))
    ensures b in Keys(entries) && a !in Keys(entries) ==> Convert(t, x, a, b, category) == Err(KeyError(a))
  {
    if a in Keys(entries) && b in Keys(entries) {
      Table.RescaleByRatio(x, Factor(entries, a).value, Factor(entries, b).value);
    }
  }

  /**
   For a well-formed table, a conversion fails exactly when the units differ
   and one of them is not a unit of the category: the error path replaces
   every exception the lookups can raise.
   */
  lemma ConvertSucceedsIff(t: CategoryTable, x: real, a: string, b: string, category: string)
    requires WellFormed(t)
    ensures Convert(t, x, a, b, category).Ok? <==>
              a == b || (KnownUnit(t, category, a) && KnownUnit(t, category, b))
  {
    if a != b && category != TemperatureCategory {
      var entry: Option<Category> := Lookup(t, category);
      match entry
      case None =>
      case Some(UnitList(_)) =>
      case Some(Factors(entries)) =>
        CategoryInvariant(t, category);
        LinearConvert(t, category, entries, x, a, b);
    }
  }

  /**
   The independent reference value of a conversion between two units of a
   category: through Celsius for temperatures, through the base unit (the
   one whose factor would be 1) for a factor category.
   */
  function ViaPivot(t: CategoryTable, category: string, a: string, b: string, x: real): real
    requires WellFormed(t)
    requires KnownUnit(t, category, a) && KnownUnit(t, category, b)
  {
    if category == TemperatureCategory then
      Temperature.FromCelsius(b, Temperature.ToCelsius(a, x))
    else
      var entries := Lookup(t, category).value.entries;
      CategoryInvariant(t, category);
      ThroughBase(entries, a, b, x)
  }

  /**
   Every conversion between units of a category of a well-formed table
   succeeds and yields the pivot value, equal units included.
   */
  lemma ConvertIsViaPivot(t: CategoryTable, x: real, a: string, b: string, category: string)
    requires WellFormed(t)
    requires KnownUnit(t, category, a) && KnownUnit(t, category, b)
    ensures Convert(t, x, a, b, category).Ok?
    ensures Convert(t, x, a, b, category).value == ViaPivot(t, category, a, b, x)
  {
    if category == TemperatureCategory {
      Temperature.CelsiusPivotInverse(a, x);
    } else {
      var entries := Lookup(t, category).value.entries;
      CategoryInvariant(t, category);
      if a == b {
        ThroughBaseSame(entries, a, x);
      } else {
        LinearConvert(t, category, entries, x, a, b);
      }
    }
  }

  /** Going a to b and then b to c through the pivot is going a to c. */
  lemma ViaPivotCompose(t: CategoryTable, category: string, a: string, b: string, c: string, x: real)
    requires WellFormed(t)
    requires KnownUnit(t, category, a) && KnownUnit(t, category, b) && KnownUnit(t, category, c)
    ensures ViaPivot(t, category, b, c, ViaPivot(t, category, a, b, x)) == ViaPivot(t, category, a, c, x)
  {
    if category == TemperatureCategory {
      Temperature.PivotCompose(a, b, c, x);
    } else {
      var entries := Lookup(t, category).value.entries;
      CategoryInvariant(t, category);
      ThroughBaseCompose(entries, a, b, c, x);
    }
  }

  /**
   Conversions compose: converting from a to b and the result from b to c
   is converting from a to c, for any units of a category of a well-formed
   table, temperature or linear, equal or not.
   */
  lemma ConvertCompose(t: CategoryTable, x: real, a: string, b: string, c: string, category: string)
    requires WellFormed(t)
    requires KnownUnit(t, category, a) && KnownUnit(t, category, b) && KnownUnit(t, category, c)
    ensures Convert(t, x, a, b, category).Ok?
    ensures Convert(t, Convert(t, x, a, b, category).value, b, c, category).Ok?
    ensures Convert(t, Convert(t, x, a, b, category).value, b, c, category).value
            == Convert(t, x, a, c, category).value
  {
    ConvertIsViaPivot(t, x, a, b, category);
    var y := Convert(t, x, a, b, category).value;
    ConvertIsViaPivot(t, y, b, c, category);
    ConvertIsViaPivot(t, x, a, c, category);
    ViaPivotCompose(t, category, a, b, c, x);
  }

  /** Converting there and back returns the original value, for any two units of a category. */
  lemma ConvertRoundTrip(t: CategoryTable, x: real, a: string, b: string, category: string)
    requires WellFormed(t)
    requires KnownUnit(t, category, a) && KnownUnit(t, category, b)
    ensures Convert(t, x, a, b, category).Ok?
    ensures Convert(t, Convert(t, x, a, b, category).value, b, a, category).Ok?
    ensures Convert(t, Convert(t, x, a, b, category).value, b, a, category).value == x
  {
    ConvertCompose(t, x, a, b, a, category);
  }

  /** The temperature fixed points: freezing and boiling water, and absolute zero's offset. */
  lemma TemperatureExamples(t: CategoryTable)
    ensures Convert(t, 0.0, "Celsius", "Fahrenheit", "Temperature") == Ok(32.0, Converted)
    ensures Convert(t, 100.0, "Celsius", "Fahrenheit", "Temperature") == Ok(212.0, Converted)
    ensures Convert(t, 0.0, "Celsius", "Kelvin", "Temperature") == Ok(273.15, Converted)
    ensures Convert(t, 32.0, "Fahrenheit", "Celsius", "Temperature") == Ok(0.0, Converted)
    ensures Convert(t, 32.0, "Fahrenheit", "Kelvin", "Temperature") == Ok(273.15, Converted)
    ensures Convert(t, 1.0, "Celsius", "Rankine", "Temperature") == Err(PairKeyError("Celsius", "Rankine"))
  {
  }

  /** One metre is a hundred centimetres, with the factor 100 reported. */
  lemma MeterToCentimeter()
    ensures Convert(ConversionFactors, 1.0, "Meter", "Centimeter", "Length") == Ok(100.0, Scaled(1.0, 100.0))
  {
    ConversionFactorsEntries();
    assert Factor(LengthFactors, "Meter") == Some(1.0);
    assert Factor(LengthFactors, "Centimeter") == Some(100.0);
    LinearConvert(ConversionFactors, "Length", LengthFactors, 1.0, "Meter", "Centimeter");
    assert ThroughBase(LengthFactors, "Meter", "Centimeter", 1.0) == Rescale(1.0, 1.0, 100.0) == 100.0;
  }

  /**
   Failures on the table as written: a unit of the wrong category, and a
   category the table does not have; and the identity short-circuit, which
   succeeds even for that category.
   */
  lemma LookupFailureExamples()
    ensures Convert(ConversionFactors, 1.0, "Meter", "Kilogram", "Length") == Err(KeyError("Kilogram"))
    ensures Convert(ConversionFactors, 2.5, "Meter", "Meter", "Volume") == Ok(2.5, NoConversion)
    ensures Convert(ConversionFactors, 1.0, "Liter", "Gallon", "Volume") == Err(KeyError("Volume"))
  {
    ConversionFactorsEntries();
    assert Keys(LengthFactors) == ["Meter", "Centimeter", "Kilometer", "Inch", "Foot"];
    assert "Kilogram" !in Keys(LengthFactors);
    LinearConvert(ConversionFactors, "Length", LengthFactors, 1.0, "Meter", "Kilogram");
    assert Keys(ConversionFactors) == ["Length", TemperatureCategory, "Weight"];
    assert "Volume" !in Keys(ConversionFactors);
  }
}
