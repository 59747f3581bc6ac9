/**
 * Field descriptors as the scoring engine hands them out, the entry widget the
 * prediction form picks for each declared type, and the lines the model
 * information tab shows for them.
 */
module Fields {
  import opened Wrappers
  import opened Records

  /**
   * One declared field. `name` and `dataType` are the attributes the object may
   * or may not carry; `text` is what converting the object to a string gives.
   */
  datatype Field = Field(name: Option<string>, dataType: Option<string>, text: string)

  /** The entry widget for one field, with the value it starts from. */
  datatype Entry = IntegerEntry(start: int) | RealEntry(startReal: real) | TextEntry(startText: string)

  /** The label a field is shown and keyed by: its name, or its string form when it has none. */
  function DisplayName(f: Field): (r: string)
    ensures f.name.Some? ==> r == f.name.value
    ensures f.name.None? ==> r == f.text
  {
    f.name.GetOr(f.text)
  }

  /** The type the form dispatches on: a field without a declared type is taken as `double`. */
  function FormType(dataType: Option<string>): (r: string)
    ensures dataType.Some? ==> r == dataType.value
    ensures dataType.None? ==> r == "double"
  {
    dataType.GetOr("double")
  }

  /** The type the information tab prints: a field without a declared type shows `N/A`. */
  function InfoType(dataType: Option<string>): (r: string)
    ensures dataType.Some? ==> r == dataType.value
    ensures dataType.None? ==> r == "N/A"
  {
    dataType.GetOr("N/A")
  }

  /** The declared type names the form gives a whole-number entry. */
  predicate IsIntegerType(t: string) { t == "integer" || t == "int" }

  /** The declared type names the form gives a real-number entry by name. */
  predicate IsRealType(t: string) { t == "double" || t == "float" }

  /**
   * The entry the form builds for a type name: whole numbers start at 0, real
   * numbers at 0.0, text at the empty string, and every other name falls back
   * to a real entry starting at 0.0.
   */
  function EntryFor(t: string): (r: Entry)
    ensures r.IntegerEntry? <==> IsIntegerType(t)
    ensures r.TextEntry? <==> t == "string"
    ensures r.RealEntry? <==> !IsIntegerType(t) && t != "string"
    ensures r == IntegerEntry(0) || r == RealEntry(0.0) || r == TextEntry("")
  {
    if t in ["integer", "int"] then IntegerEntry(0)
    else if t in ["double", "float"] then RealEntry(0.0)
    else if t == "string" then TextEntry("")
    else RealEntry(0.0)
  }

  /** The entry the form builds for a field's optional declared type. */
  function FormEntry(dataType: Option<string>): Entry
  {
    EntryFor(FormType(dataType))
  }

  /** Whether a value is of the kind an entry can hand back. */
  predicate Fits(e: Entry, v: Value)
  {
    (e.IntegerEntry? && v.IntValue?) || (e.RealEntry? && v.RealValue?) || (e.TextEntry? && v.TextValue?)
  }

  /** The value an entry hands back when the user leaves it untouched: its starting value. */
  function StartValue(e: Entry): (v: Value)
    ensures Fits(e, v)
    ensures e.IntegerEntry? ==> v == IntValue(e.start)
    ensures e.RealEntry? ==> v == RealValue(e.startReal)
    ensures e.TextEntry? ==> v == TextValue(e.startText)
  {
    match e
    case IntegerEntry(n) => IntValue(n)
    case RealEntry(x) => RealValue(x)
    case TextEntry(t) => TextValue(t)
  }

  /** A missing declared type gives the same entry as an explicit `double`: a real number starting at 0.0. */
  lemma MissingTypeIsDouble()
    ensures FormEntry(None) == EntryFor("double") == RealEntry(0.0)
  {
  }

  /** Every type name the form does not recognise is treated exactly like `double`. */
  lemma UnrecognisedTypeIsDouble(t: string)
    requires !IsIntegerType(t) && !IsRealType(t) && t != "string"
    ensures EntryFor(t) == EntryFor("double")
  {
  }

  /**
   * The type the information tab prints always selects the entry the form
   * builds: for a declared type both use it, and `N/A` falls back to the same
   * real entry as the form's `double`.
   */
  lemma InfoTypePredictsEntry(dataType: Option<string>)
    ensures EntryFor(InfoType(dataType)) == FormEntry(dataType)
  {
  }

  /** What the information tab lists under a heading: the lines, or a "not available" notice. */
  datatype Listing<T> = NotAvailable | Lines(lines: seq<T>)

  /** The input field lines: each field's display name with its printed type. */
  function InputLines(fields: seq<Field>): (r: Listing<(string, string)>)
    ensures r.NotAvailable? <==> fields == []
    ensures r.Lines? ==> |r.lines| == |fields|
    ensures r.Lines? ==> forall i :: 0 <= i < |fields| ==> r.lines[i] == (DisplayName(fields[i]), InfoType(fields[i].dataType))
  {
    if fields == [] then NotAvailable
    else Lines(seq(|fields|, i requires 0 <= i < |fields| => (DisplayName(fields[i]), InfoType(fields[i].dataType))))
  }

  /** The output field lines: each field's display name alone. */
  function TargetLines(fields: seq<Field>): (r: Listing<string>)
    ensures r.NotAvailable? <==> fields == []
    ensures r.Lines? ==> |r.lines| == |fields|
    ensures r.Lines? ==> forall i :: 0 <= i < |fields| ==> r.lines[i] == DisplayName(fields[i])
  {
    if fields == [] then NotAvailable
    else Lines(seq(|fields|, i requires 0 <= i < |fields| => DisplayName(fields[i])))
  }
}
