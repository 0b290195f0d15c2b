/**
 The selection and history logic around the engine (unit_converter.py, the
 main script): deriving a category's unit list, resetting a selected unit
 that the list does not contain, swapping the two units, and appending to
 the conversion history only when a conversion succeeds. The session state
 the hosting framework keeps between reruns is passed in and returned.
 */
module Session {
  import opened Dict
  import opened Table
  import opened Engine
  import Temperature

  /** The two selected units, source first. */
  datatype Selection = Selection(from: string, to: string)

  /** One history line, `<value> <from> = <converted> <to>`, before formatting. */
  datatype Entry = Entry(value: real, from: string, converted: real, to: string)

  /** The session state the script keeps between reruns. */
  datatype State = State(category: string, selection: Selection, history: seq<Entry>)

  /** What a fresh session starts with. */
  const Initial := State("Length", Selection("Meter", "Centimeter"), [])

  /**
   The unit list of a category: the keys of its factors in order, or the
   plain list for the temperature category. None stands for the exceptions
   the script does not catch: an unknown category (KeyError) and `.keys()`
   on a plain list outside the temperature category (AttributeError).
   */
  function UnitsOf(t: CategoryTable, category: string): (r: Option<seq<string>>)
    ensures r.Some? ==> category in Keys(t)
    ensures Lookup(t, category).Some? && Lookup(t, category).value.Factors? ==>
              r == Some(Keys(Lookup(t, category).value.entries))
    ensures Lookup(t, category).Some? && Lookup(t, category).value.UnitList? ==>
              r == if category == TemperatureCategory then Some(Lookup(t, category).value.units) else None
    ensures WellFormed(t) && category in Keys(t) ==> r.Some? && |r.value| > 0
  {
    var entry: Option<Category> := Lookup(t, category);
    match entry
    case None => None
    case Some(Factors(entries)) =>
      CategoryInvariant(t, category);
      Some(Keys(entries))
    case Some(UnitList(units)) =>
      CategoryInvariant(t, category);
      if category == TemperatureCategory then Some(units) else None
  }

  /** Every unit offered for a category of a well-formed table is one the engine can convert. */
  lemma UnitsAreConvertible(t: CategoryTable, category: string)
    requires WellFormed(t)
    requires UnitsOf(t, category).Some?
    ensures forall i :: 0 <= i < |UnitsOf(t, category).value| ==>
              KnownUnit(t, category, UnitsOf(t, category).value[i])
  {
    CategoryInvariant(t, category);
  }

  /** A selected unit kept if the list has it, otherwise replaced by the list's first unit. */
  function Keep(units: seq<string>, u: string): (r: string)
    requires |units| > 0
    ensures r in units
    ensures r == u <==> u in units
    ensures u !in units ==> r == units[0]
  {
    if u in units then u else units[0]
  }

  /**
   The selection check run on every rerun. `units[0]` raises IndexError on an
   empty list, so an empty list yields None. Otherwise both units end up in
   the list, and a unit is replaced only when the list lacks it, by the
   list's first unit.
   */
  function Validate(units: seq<string>, s: Selection): (r: Option<Selection>)
    ensures r.Some? <==> |units| > 0
    ensures r.Some? ==> r.value.from in units && r.value.to in units
    ensures r.Some? ==> (r.value.from == s.from <==> s.from in units)
    ensures r.Some? ==> (r.value.to == s.to <==> s.to in units)
    ensures r.Some? && s.from !in units ==> r.value.from == units[0]
    ensures r.Some? && s.to !in units ==> r.value.to == units[0]
  {
    if |units| == 0 then None
    else Some(Selection(Keep(units, s.from), Keep(units, s.to)))
  }

  /** A selection that passed the check passes it again unchanged. */
  lemma ValidateIdempotent(units: seq<string>, s: Selection)
    requires Validate(units, s).Some?
    ensures Validate(units, Validate(units, s).value) == Validate(units, s)
  {
  }

  /** The swap button: the source unit becomes the target and the target the source. */
  function Swap(s: Selection): Selection
  {
    Selection(s.to, s.from)
  }

  /** Swapping twice restores the selection. */
  lemma SwapTwice(s: Selection)
    ensures Swap(Swap(s)) == s
  {
  }

  /** The selection check treats both units alike, so it commutes with the swap. */
  lemma SwapCommutesWithValidate(units: seq<string>, s: Selection)
    ensures Validate(units, Swap(s)) == if |units| == 0 then None else Some(Swap(Validate(units, s).value))
  {
  }

  /**
   `units.index(u)`, which positions each select box on the current unit:
   the first position holding `u`, or None where Python raises ValueError.
   */
  method IndexOf(units: seq<string>, u: string) returns (r: Option<nat>)
    ensures r.Some? <==> u in units
    ensures r.Some? ==> r.value < |units| && units[r.value] == u
    ensures r.Some? ==> forall j :: 0 <= j < r.value ==> units[j] != u
  {
    var i := 0;
    while i < |units|
      invariant 0 <= i <= |units|
      invariant forall j :: 0 <= j < i ==> units[j] != u
    {
      if units[i] == u {
        return Some(i);
      }
      i := i + 1;
    }
    return None;
  }

  /**
   The Convert button: convert with the current selection and append one
   history entry if, and only if, the conversion succeeded.
   */
  function ConvertAndRecord(t: CategoryTable, st: State, value: real): (r: (Outcome, State))
    ensures r.0 == Convert(t, value, st.selection.from, st.selection.to, st.category)
    ensures r.0.Ok? ==> r.1.history == st.history + [Entry(value, st.selection.from, r.0.value, st.selection.to)]
    ensures r.0.Err? ==> r.1.history == st.history
    ensures r.1.category == st.category && r.1.selection == st.selection
    ensures |r.1.history| == |st.history| + (if r.0.Ok? then 1 else 0)
  {
    var outcome := Convert(t, value, st.selection.from, st.selection.to, st.category);
    match outcome
    case Ok(converted, _) =>
      (outcome, st.(history := st.history + [Entry(value, st.selection.from, converted, st.selection.to)]))
    case Err(_) => (outcome, st)
  }

  /** Pressing Convert for each value in turn. */
  function ConvertAll(t: CategoryTable, st: State, values: seq<real>): State
    decreases |values|
  {
    if |values| == 0 then st
    else ConvertAll(t, ConvertAndRecord(t, st, values[0]).1, values[1..])
  }

  /** How many of the values convert successfully under the current selection. */
  function Successes(t: CategoryTable, category: string, s: Selection, values: seq<real>): nat
    decreases |values|
  {
    if |values| == 0 then 0
    else
      (if Convert(t, values[0], s.from, s.to, category).Ok? then 1 else 0)
      + Successes(t, category, s, values[1..])
  }

  /**
   Over any run of conversions the history keeps every earlier entry in
   place and grows by exactly the number of successful conversions.
   */
  lemma {:induction false} HistoryCountsSuccesses(t: CategoryTable, st: State, values: seq<real>)
    ensures st.history <= ConvertAll(t, st, values).history
    ensures |ConvertAll(t, st, values).history| == |st.history| + Successes(t, st.category, st.selection, values)
    decreases |values|
  {
    if |values| > 0 {
      var next := ConvertAndRecord(t, st, values[0]).1;
      HistoryCountsSuccesses(t, next, values[1..]);
    }
  }

  /**
   On the table as written, a selection that passed the check for a category
   offered by the category select box always converts: the error branch is
   unreachable from the page.
   */
  lemma ValidatedSelectionConverts(category: string, s: Selection, value: real)
    requires category in Keys(ConversionFactors)
    ensures UnitsOf(ConversionFactors, category).Some?
    ensures Validate(UnitsOf(ConversionFactors, category).value, s).Some?
    ensures
      var v := Validate(UnitsOf(ConversionFactors, category).value, s).value;
      Convert(ConversionFactors, value, v.from, v.to, category).Ok?
  {
    ConversionFactorsWellFormed();
    var units := UnitsOf(ConversionFactors, category).value;
    var v := Validate(units, s).value;
    UnitsAreConvertible(ConversionFactors, category);
    var i :| 0 <= i < |units| && units[i] == v.from;
    var j :| 0 <= j < |units| && units[j] == v.to;
    ConvertSucceedsIff(ConversionFactors, value, v.from, v.to, category);
  }

  /**
   The unit lists the page offers for the table as written, in the order the
   select boxes show them; the first of each is the fallback unit.
   */
  lemma ConversionFactorsUnitLists()
    ensures UnitsOf(ConversionFactors, "Length") == Some(["Meter", "Centimeter", "Kilometer", "Inch", "Foot"])
    ensures UnitsOf(ConversionFactors, "Weight") == Some(["Kilogram", "Gram", "Pound", "Ounce"])
    ensures UnitsOf(ConversionFactors, TemperatureCategory) == Some(["Celsius", "Fahrenheit", "Kelvin"])
  {
    ConversionFactorsEntries();
    assert Keys(LengthFactors) == ["Meter", "Centimeter", "Kilometer", "Inch", "Foot"];
    assert Keys(WeightFactors) == ["Kilogram", "Gram", "Pound", "Ounce"];
  }

  /** A fresh session's selection already passes the check for its category. */
  lemma InitialSelectionValid()
    ensures UnitsOf(ConversionFactors, Initial.category) == Some(["Meter", "Centimeter", "Kilometer", "Inch", "Foot"])
    ensures Validate(UnitsOf(ConversionFactors, Initial.category).value, Initial.selection) == Some(Initial.selection)
  {
    ConversionFactorsWellFormed();
    assert Keys(LengthFactors) == ["Meter", "Centimeter", "Kilometer", "Inch", "Foot"];
  }
}
