/**
 The temperature converters: a pair-keyed table of six affine formulas, one
 per ordered pair of distinct units among Celsius, Fahrenheit and Kelvin
 (unit_converter.py, `converters` inside `convert_units`). Arithmetic is over
 `real`, so every identity below is exact; Python floats satisfy them only
 up to rounding.
 */
module Temperature {
  import opened Dict

  const Celsius := "Celsius"
  const Fahrenheit := "Fahrenheit"
  const Kelvin := "Kelvin"

  /** Offset between the Celsius and Kelvin scales, as written in the formulas. */
  const KelvinOffset: real := 273.15

  /** The six formulas, one constructor per entry of the converter table. */
  datatype Rule =
    | CelsiusToFahrenheit
    | FahrenheitToCelsius
    | CelsiusToKelvin
    | KelvinToCelsius
    | FahrenheitToKelvin
    | KelvinToFahrenheit

  /** The (from unit, to unit) pair each formula converts between: two different temperature units. */
  function Pair(rule: Rule): (p: (string, string))
    ensures p.0 in Units && p.1 in Units && p.0 != p.1
  {
    match rule
    case CelsiusToFahrenheit => (Celsius, Fahrenheit)
    case FahrenheitToCelsius => (Fahrenheit, Celsius)
    case CelsiusToKelvin => (Celsius, Kelvin)
    case KelvinToCelsius => (Kelvin, Celsius)
    case FahrenheitToKelvin => (Fahrenheit, Kelvin)
    case KelvinToFahrenheit => (Kelvin, Fahrenheit)
  }

  /**
   The lambda of each entry, with the operations in the order Python
   evaluates them. Each one converts between two different temperature
   units exactly as reading the value on the source scale as Celsius and
   writing it on the target scale.
   */
  function Apply(rule: Rule, x: real): (r: real)
    ensures r == FromCelsius(Pair(rule).1, ToCelsius(Pair(rule).0, x))
  {
    match rule
    case CelsiusToFahrenheit => (x * 9.0 / 5.0) + 32.0
    case FahrenheitToCelsius => (x - 32.0) * 5.0 / 9.0
    case CelsiusToKelvin => x + KelvinOffset
    case KelvinToCelsius => x - KelvinOffset
    case FahrenheitToKelvin => (x - 32.0) * 5.0 / 9.0 + KelvinOffset
    case KelvinToFahrenheit => (x - KelvinOffset) * 9.0 / 5.0 + 32.0
  }

  /** The converter table, keyed by (from unit, to unit), in the order it is written. */
  const Converters: seq<((string, string), Rule)> := [
    ((Celsius, Fahrenheit), CelsiusToFahrenheit),
    ((Fahrenheit, Celsius), FahrenheitToCelsius),
    ((Celsius, Kelvin), CelsiusToKelvin),
    ((Kelvin, Celsius), KelvinToCelsius),
    ((Fahrenheit, Kelvin), FahrenheitToKelvin),
    ((Kelvin, Fahrenheit), KelvinToFahrenheit)
  ]

  /** The temperature units the converter table knows. */
  const Units: seq<string> := [Celsius, Fahrenheit, Kelvin]

  // An independent reference: every scale is an affine image of Celsius.

  /** Reading `x` on scale `u` as a Celsius temperature. */
  function ToCelsius(u: string, x: real): real
    requires u in Units
  {
    if u == Celsius then x
    else if u == Fahrenheit then (x - 32.0) * 5.0 / 9.0
    else x - KelvinOffset
  }

  /** Writing the Celsius temperature `c` on scale `u`. */
  function FromCelsius(u: string, c: real): real
    requires u in Units
  {
    if u == Celsius then c
    else if u == Fahrenheit then c * 9.0 / 5.0 + 32.0
    else c + KelvinOffset
  }

  /** Reading a temperature on a scale and writing it back gives it unchanged, both ways. */
  lemma CelsiusPivotInverse(u: string, x: real)
    requires u in Units
    ensures FromCelsius(u, ToCelsius(u, x)) == x
    ensures ToCelsius(u, FromCelsius(u, x)) == x
  {
  }

  /** Passing through scale b on the way from a to c changes nothing. */
  lemma PivotCompose(a: string, b: string, c: string, x: real)
    requires a in Units && b in Units && c in Units
    ensures FromCelsius(c, ToCelsius(b, FromCelsius(b, ToCelsius(a, x)))) == FromCelsius(c, ToCelsius(a, x))
  {
    CelsiusPivotInverse(b, ToCelsius(a, x));
  }

  /** Each formula is stored under the pair it converts between. */
  lemma ConvertersKeyedByPair()
    ensures forall i :: 0 <= i < |Converters| ==> Converters[i].0 == Pair(Converters[i].1)
  {
  }

  /** The converter table has no key twice. */
  lemma ConvertersDistinct()
    ensures DistinctKeys(Converters)
  {
  }

  /**
   Completeness: the table has exactly the ordered pairs of distinct listed
   units, so a lookup of a pair succeeds if and only if both are listed and
   they differ.
   */
  lemma ConvertersComplete(a: string, b: string)
    ensures Lookup(Converters, (a, b)).Some? <==> a in Units && b in Units && a != b
  {
    assert Keys(Converters) == [(Celsius, Fahrenheit), (Fahrenheit, Celsius), (Celsius, Kelvin),
                                (Kelvin, Celsius), (Fahrenheit, Kelvin), (Kelvin, Fahrenheit)];
  }

  /**
   Every formula of the table agrees with going through Celsius: each entry
   converts `x` exactly as reading it on the source scale and writing it on
   the target scale. In particular Fahrenheit to Kelvin is Celsius to Kelvin
   after Fahrenheit to Celsius, and Kelvin to Fahrenheit is the reverse.
   */
  lemma RuleViaCelsius(a: string, b: string, x: real)
    requires a in Units && b in Units && a != b
    ensures Lookup(Converters, (a, b)).Some?
    ensures Apply(Lookup(Converters, (a, b)).value, x) == FromCelsius(b, ToCelsius(a, x))
  {
    ConvertersComplete(a, b);
    ConvertersDistinct();
    var rule := Lookup(Converters, (a, b)).value;
    LookupEntry(Converters, (a, b), rule);
  }

  /** Celsius to Fahrenheit and Fahrenheit to Celsius undo each other. */
  lemma CelsiusFahrenheitInverse(x: real)
    ensures Apply(FahrenheitToCelsius, Apply(CelsiusToFahrenheit, x)) == x
    ensures Apply(CelsiusToFahrenheit, Apply(FahrenheitToCelsius, x)) == x
  {
  }

  /** Celsius to Kelvin and Kelvin to Celsius undo each other. */
  lemma CelsiusKelvinInverse(x: real)
    ensures Apply(KelvinToCelsius, Apply(CelsiusToKelvin, x)) == x
    ensures Apply(CelsiusToKelvin, Apply(KelvinToCelsius, x)) == x
  {
  }

  /** The direct Fahrenheit/Kelvin formulas are the compositions through Celsius. */
  lemma FahrenheitKelvinComposed(x: real)
    ensures Apply(FahrenheitToKelvin, x) == Apply(CelsiusToKelvin, Apply(FahrenheitToCelsius, x))
    ensures Apply(KelvinToFahrenheit, x) == Apply(CelsiusToFahrenheit, Apply(KelvinToCelsius, x))
    ensures Apply(KelvinToFahrenheit, Apply(FahrenheitToKelvin, x)) == x
  {
  }
}
