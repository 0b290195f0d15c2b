# Unit converter engine, modelled in Dafny

This project models the conversion engine of a small unit-converter web app
(`unit_converter.py`). The model has two parts.

**The conversion table and `convert_units`.** The table `CONVERSION_FACTORS` maps
each category to one of two things:

- per-unit multiplicative factors, for Length and Weight;
- a plain unit list, for Temperature.

`convert_units` works in this order:

1. It returns the value unchanged when the two units are equal.
2. For the Temperature category, it dispatches through a table of six affine
   formulas keyed by (from, to).
3. For any other category, it scales by `f(to) / f(from)`.
4. It catches every lookup failure and returns it as `(None, message)`.

**The selection and history logic of the page script.** This covers:

- deriving a category's unit list;
- resetting a selected unit that the list lacks to the list's first unit;
- the swap button;
- `units.index` for positioning the select boxes;
- the Convert button, which appends a history entry only on success.

Modules, one per component:

- `Dict` (`dict.dfy`): an insertion-ordered dict as a sequence of entries. A
  lookup returns the first matching entry, or `None` when there is none. The
  sequence stands for a Python dict only when no key repeats (`DistinctKeys`);
  then a lookup is Python's subscript and `None` is where Python raises `KeyError`.
  Order matters because the first unit of a category is the fallback selection.
- `Temperature` (`temperature.dfy`): the six formulas and the pair-keyed converter
  table. It also has an independent reference that reads every scale through Celsius.
- `Table` (`table.dfy`): the category table as written, the well-formedness
  invariant (positive factors, distinct keys), and conversion through the base unit.
- `Engine` (`engine.dfy`): `Convert`, the result type
  `Ok(value, formula) | Err(error)`, and the theorems about it.
- `Session` (`session.dfy`): unit lists, the selection check, swap, index lookup,
  the history, and the initial session state.

All arithmetic is over `real`, so the round-trip and composition identities are
exact. For Python floats they hold only up to rounding.

Points where the model follows the code's exact behaviour:

- Errors are the Python exceptions that `convert_units` catches, not typed error
  kinds: `KeyError(key)` for a missing category or unit, `PairKeyError(from, to)`
  for a missing temperature pair, `TypeError` for a plain unit list subscripted
  by a unit name, and `ZeroDivisionError`.
- The linear path looks up `to_unit` before `from_unit`, so when both are missing
  the error names `to_unit`.
- The Temperature category never consults the table's unit list. It uses only
  the converter table.
- The identity short-circuit comes before any validation, so
  `Convert(t, x, u, u, c)` succeeds for every category and unit, known or not.

## Model

| member | source | states |
|---|---|---|
| Dict.Lookup | unit_converter.py:153-156 | A dict subscript succeeds exactly when the key is one of the dict's keys, and then the returned value is stored under that key |
| Dict.Keys | unit_converter.py:168-173 | `list(d.keys())` has one key per entry, the key of the entry at the same position, so insertion order is kept |
| Dict.LookupEntry | unit_converter.py:122-137 | In a dict literal with distinct keys, looking up a key returns exactly the value written for it |
| Temperature.ConvertersDistinct | unit_converter.py:145-152 | The converter table has no ordered pair twice |
| Temperature.Apply | unit_converter.py:146-151 | Each lambda, between two different temperature units, equals reading the value on the source scale as Celsius and writing it on the target scale |
| Temperature.ConvertersKeyedByPair | unit_converter.py:145-152 | Each of the six formulas is stored under the (from, to) pair it converts between |
| Temperature.ConvertersComplete | unit_converter.py:145-152 | The converter table has an entry for a pair exactly when both units are among Celsius, Fahrenheit and Kelvin and they differ |
| Temperature.RuleViaCelsius | unit_converter.py:145-152 | Each of the six formulas equals reading the value on the source scale as Celsius and writing it on the target scale |
| Temperature.CelsiusPivotInverse | unit_converter.py:146-151 | Reading a scale as Celsius and writing it back is the identity, in both directions |
| Temperature.PivotCompose | unit_converter.py:146-151 | Going through an intermediate scale changes nothing |
| Temperature.CelsiusFahrenheitInverse | unit_converter.py:146-147 | x*9/5+32 and (x-32)*5/9 undo each other |
| Temperature.CelsiusKelvinInverse | unit_converter.py:148-149 | Adding and subtracting 273.15 undo each other |
| Temperature.FahrenheitKelvinComposed | unit_converter.py:148-151 | Fahrenheit to Kelvin is Celsius to Kelvin after Fahrenheit to Celsius; Kelvin to Fahrenheit is the reverse composition, and it undoes Fahrenheit to Kelvin |
| Table.Factor | unit_converter.py:155-156 | In a category with positive factors, a unit's factor exists exactly for the category's units; it is the factor written for that unit, and it is positive |
| Table.ConversionFactorsEntries | unit_converter.py:122-137 | Looking up Length, Weight and Temperature in the table as written gives the entries written for them, and the Length and Weight factors are positive with no unit twice |
| Table.ConversionFactorsWellFormed | unit_converter.py:122-137 | The table as written is well formed: distinct categories and units, all nine factors positive, and the only plain unit list is the temperature units under Temperature |
| Table.CategoryNames | unit_converter.py:166-170 | The category select box offers Length, Temperature and Weight, in that order |
| Table.ThroughBaseSame | unit_converter.py:155-157 | Going into the base unit and back out to the same unit returns the value |
| Table.ThroughBaseCompose | unit_converter.py:155-157 | Going a to b and then b to c through the base unit is going a to c |
| Engine.Convert | unit_converter.py:139-159 | Equal units give the value with "No conversion needed" before any lookup. A distinct temperature pair succeeds exactly when both units are temperature units, with the Celsius-pivot value and "Converted"; otherwise it fails with the missing pair. An unknown non-temperature category fails with its name. A plain unit list outside the temperature category fails with a TypeError |
| Engine.LinearConvert | unit_converter.py:155-159 | In a factor category, a distinct pair succeeds exactly when both units have factors. The value is then x / f(from) * f(to), with the factor f(to)/f(from) reported. A missing target is reported first, then a missing source |
| Engine.ConvertSucceedsIff | unit_converter.py:139-159 | For a well-formed table, a conversion succeeds exactly when the units are equal or both are units of the category; every failure is an error value, never a crash |
| Engine.ConvertIsViaPivot | unit_converter.py:139-159 | Between any two units of a category, including equal ones, the result equals the independent pivot reference (Celsius or the base unit) |
| Engine.ViaPivotCompose | unit_converter.py:146-157 | The pivot reference composes: a to b then b to c equals a to c |
| Engine.ConvertCompose | unit_converter.py:146-157 | Converting a to b, then the result b to c, succeeds and equals converting a to c, for temperatures and for factor categories |
| Engine.ConvertRoundTrip | unit_converter.py:146-157 | Converting a to b and back to a succeeds and returns the original value |
| Engine.TemperatureExamples | unit_converter.py:145-153 | 0 C is 32 F, 100 C is 212 F, 0 C is 273.15 K, 32 F is 0 C and 273.15 K; Celsius to Rankine fails with the missing pair |
| Engine.MeterToCentimeter | unit_converter.py:155-157 | 1 Meter is 100 Centimeter, reported with factor 100 |
| Engine.LookupFailureExamples | unit_converter.py:139-159 | Kilogram is a missing key in Length. An unknown category fails with its name for distinct units, but succeeds unchanged for equal units |
| Session.UnitsOf | unit_converter.py:173-175 | A category's unit list exists only for categories of the table. A factor category gives its units in insertion order; the temperature category gives its plain list; a plain list under any other name gives none. For a well-formed table every category has a non-empty list |
| Session.ConversionFactorsUnitLists | unit_converter.py:173-175 | For the table as written the offered lists are Meter, Centimeter, Kilometer, Inch, Foot; Kilogram, Gram, Pound, Ounce; and Celsius, Fahrenheit, Kelvin, in that order |
| Session.UnitsAreConvertible | unit_converter.py:173-175 | Every unit offered for a category is one the engine can convert in that category |
| Session.Keep | unit_converter.py:178-181 | One unit's reset: the result is always in the list; it is the selected unit exactly when the list has it, and the list's first unit otherwise |
| Session.Validate | unit_converter.py:178-181 | After the check both units are in the list. A unit is kept exactly when the list has it; otherwise it is replaced by the list's first unit. An empty list raises instead |
| Session.ValidateIdempotent | unit_converter.py:178-181 | Running the check on a checked selection changes nothing |
| Session.Swap | unit_converter.py:197 | The swap button exchanges the source and target units; its partners SwapTwice and SwapCommutesWithValidate state that it undoes itself and commutes with the check |
| Session.SwapTwice | unit_converter.py:197 | Swapping the source and target units twice restores the original pair |
| Session.SwapCommutesWithValidate | unit_converter.py:178-197 | Checking a swapped selection gives the swap of the checked selection |
| Session.IndexOf | unit_converter.py:186-191 | `units.index(u)` finds the first position holding u exactly when u is in the list; otherwise it raises ValueError |
| Session.ConvertAndRecord | unit_converter.py:214-228 | The Convert button returns the engine's outcome. On success the history grows by exactly the one entry (value, from, converted, to); on failure it is unchanged |
| Session.HistoryCountsSuccesses | unit_converter.py:217-220 | Over any run of conversions, earlier history entries stay in place and the history grows by exactly the number of successes |
| Session.ValidatedSelectionConverts | unit_converter.py:173-181 | On the table as written, any selection that passed the check for an offered category converts successfully |
| Session.InitialSelectionValid | unit_converter.py:112-119 | A fresh session's Meter/Centimeter selection already passes the check for Length |

## Left out

- IEEE-754 floating point. Arithmetic is over `real`, so the identities above are exact; Python floats meet them only approximately.
- Formula and message text. The formula text (`"{value} × {factor:.4f}"`) is an abstract `Formula` tag that carries the value and the factor. `str(e)` of a caught exception is the exception itself. The `:.4f` formatting of history lines is left out too: an entry keeps the real numbers.
- Streamlit rendering (page config, CSS, columns, select boxes, spinner, `time.sleep`, result card, expander). These are calls into the UI framework. The select boxes themselves are modelled only through `units.index` (`Session.IndexOf`).
- The non-negativity hint on the number input (`min_value=0.0`). It is a widget constraint, so the model accepts any real value.
- Copying the select boxes' choices back into the session (lines 210-211), and `st.rerun`. The user's choices come from the UI.
- Showing the history in reverse and the Clear History button (lines 231-236). These are display and a widget callback.
- `img_to_base64` and `developer_profile`. These are file I/O and HTML output.
- The commented-out draft versions after line 236. They never run.
- Repeated keys in a dict literal: Python keeps the last value written for a repeated key, while `Dict.Lookup` takes the first. The table as written has no repeated keys (`Table.ConversionFactorsWellFormed`), and the theorems about well-formed tables assume `DistinctKeys`. On a table with a repeated key, `Engine.Convert`, `Engine.KnownUnit` and `Session.UnitsOf` do not model Python.
- Session.UnitsOf: an unknown category or `.keys()` on a plain list raises an uncaught exception in the script. The model returns `None` for both and does not distinguish them.
