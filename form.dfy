/**
 * The single-prediction form. When the model lists its input fields the form
 * has one entry per field; when it lists none the user declares up to fifty
 * (name, value) pairs by hand. Either way the form fills one dictionary.
 */
module Form {
  import opened Records
  import opened Fields

  /** The display names of the fields, in declaration order. */
  function Names(fields: seq<Field>): (r: seq<string>)
    ensures |r| == |fields|
    ensures forall i :: 0 <= i < |fields| ==> r[i] == DisplayName(fields[i])
  {
    seq(|fields|, i requires 0 <= i < |fields| => DisplayName(fields[i]))
  }

  /**
   * Fills the record from the schema form: for every field, in order, the value
   * its entry handed back is stored under the field's display name. `entered[i]`
   * is that value for `fields[i]`; the entry chosen for the field's declared
   * type only hands back values of its own kind.
   */
  method SchemaRecord(fields: seq<Field>, entered: seq<Value>) returns (record: map<string, Value>)
    requires |entered| == |fields|
    requires forall i :: 0 <= i < |fields| ==> Fits(FormEntry(fields[i].dataType), entered[i])
    ensures record == Inserted(Zip(Names(fields), entered))
    ensures forall k :: k in record <==> k in Names(fields)
    ensures forall k :: k in record ==>
      var i := LastIndex(Names(fields), k);
      0 <= i && record[k] == entered[i] && Fits(FormEntry(fields[i].dataType), record[k])
    ensures |record| <= |fields|
  {
    record := map[];
    for i := 0 to |fields|
      invariant record == Inserted(Zip(Names(fields[..i]), entered[..i]))
    {
      var name := DisplayName(fields[i]);
      assert Zip(Names(fields[..i + 1]), entered[..i + 1])
          == Zip(Names(fields[..i]), entered[..i]) + [(name, entered[i])];
      InsertedSnoc(Zip(Names(fields[..i]), entered[..i]), (name, entered[i]));
      record := record[name := entered[i]];
    }
    assert fields[..|fields|] == fields && entered[..|fields|] == entered;
    var pairs := Zip(Names(fields), entered);
    forall k ensures k in record <==> k in Names(fields) {
      InsertedKeys(pairs, k);
      if k in Names(fields) {
        var i :| 0 <= i < |fields| && Names(fields)[i] == k;
        assert pairs[i].0 == k;
      }
    }
    forall k | k in record
      ensures var i := LastIndex(Names(fields), k);
        0 <= i && record[k] == entered[i] && Fits(FormEntry(fields[i].dataType), record[k])
    {
      var i := LastIndex(Names(fields), k);
      InsertedLastWins(pairs, i);
    }
    InsertedSize(pairs);
  }

  /** The values a schema form hands back when no entry is touched. */
  function StartValues(fields: seq<Field>): (r: seq<Value>)
    ensures |r| == |fields|
    ensures forall i :: 0 <= i < |fields| ==> r[i] == StartValue(FormEntry(fields[i].dataType))
  {
    seq(|fields|, i requires 0 <= i < |fields| => StartValue(FormEntry(fields[i].dataType)))
  }

  /**
   * A schema form submitted untouched, over fields with distinct display names,
   * has one entry per field, holding the starting value of the entry its
   * declared type selects.
   */
  lemma UntouchedSchemaForm(fields: seq<Field>)
    requires forall i, j :: 0 <= i < j < |fields| ==> DisplayName(fields[i]) != DisplayName(fields[j])
    ensures forall i :: 0 <= i < |fields| ==> Fits(FormEntry(fields[i].dataType), StartValues(fields)[i])
    ensures |Inserted(Zip(Names(fields), StartValues(fields)))| == |fields|
    ensures forall i :: 0 <= i < |fields| ==>
      DisplayName(fields[i]) in Inserted(Zip(Names(fields), StartValues(fields))) &&
      Inserted(Zip(Names(fields), StartValues(fields)))[DisplayName(fields[i])] == StartValue(FormEntry(fields[i].dataType))
  {
    var pairs := Zip(Names(fields), StartValues(fields));
    InsertedSizeDistinct(pairs);
    forall i | 0 <= i < |fields|
      ensures DisplayName(fields[i]) in Inserted(pairs)
      ensures Inserted(pairs)[DisplayName(fields[i])] == StartValue(FormEntry(fields[i].dataType))
    {
      InsertedLastWins(pairs, i);
    }
  }

  /** A model that lists at least one input field always yields a non-empty record. */
  lemma SchemaRecordNonEmpty(fields: seq<Field>, entered: seq<Value>)
    requires |entered| == |fields| && fields != []
    ensures |Inserted(Zip(Names(fields), entered))| > 0
  {
    var pairs := Zip(Names(fields), entered);
    InsertedKeys(pairs, pairs[0].0);
  }

  /**
   * The value kept under a field's name is the one entered for the LAST field
   * shown under that name.
   */
  lemma SchemaRecordLastWins(fields: seq<Field>, entered: seq<Value>, i: nat)
    requires |entered| == |fields| && i < |fields|
    requires forall j :: i < j < |fields| ==> DisplayName(fields[j]) != DisplayName(fields[i])
    ensures DisplayName(fields[i]) in Inserted(Zip(Names(fields), entered))
    ensures Inserted(Zip(Names(fields), entered))[DisplayName(fields[i])] == entered[i]
  {
    InsertedLastWins(Zip(Names(fields), entered), i);
  }

  /** The record of the manual form: every pair inserted in order, except those with an empty name. */
  function ManualRecordOf(names: seq<string>, values: seq<real>): map<string, real>
    requires |names| == |values|
  {
    Inserted(Zip(names, values)) - {""}
  }

  /**
   * Fills the record from the manual form: `numFields` rows, the i-th with the
   * name `names[i]` and the value `values[i]`; a row with an empty name is
   * skipped and a repeated name overwrites the value stored before. The count
   * widget only admits 1 to 50 rows.
   */
  method ManualRecord(numFields: int, names: seq<string>, values: seq<real>) returns (record: map<string, real>)
    requires 1 <= numFields <= 50
    requires |names| == numFields && |values| == numFields
    ensures record == ManualRecordOf(names, values)
    ensures "" !in record
  {
    record := map[];
    for i := 0 to numFields
      invariant record == Inserted(Zip(names[..i], values[..i])) - {""}
    {
      var name := names[i];
      var value := values[i];
      assert Zip(names[..i + 1], values[..i + 1]) == Zip(names[..i], values[..i]) + [(name, value)];
      InsertedSnoc(Zip(names[..i], values[..i]), (name, value));
      if name != "" {
        record := record[name := value];
      }
    }
    assert names[..numFields] == names && values[..numFields] == values;
  }

  /** A key is in the manual record exactly when it is a non-empty name of some row. */
  lemma ManualRecordKeys(names: seq<string>, values: seq<real>, k: string)
    requires |names| == |values|
    ensures k in ManualRecordOf(names, values) <==> k != "" && k in names
  {
    var pairs := Zip(names, values);
    InsertedKeys(pairs, k);
    if k in names {
      var i :| 0 <= i < |names| && names[i] == k;
      assert pairs[i].0 == k;
    }
  }

  /** For a repeated name the manual record keeps the value of the last row with that name. */
  lemma ManualRecordLastWins(names: seq<string>, values: seq<real>, i: nat)
    requires |names| == |values| && i < |names|
    requires names[i] != ""
    requires forall j :: i < j < |names| ==> names[j] != names[i]
    ensures names[i] in ManualRecordOf(names, values)
    ensures ManualRecordOf(names, values)[names[i]] == values[i]
  {
    InsertedLastWins(Zip(names, values), i);
  }

  /** The manual record never has more entries than the form has rows. */
  lemma ManualRecordSize(names: seq<string>, values: seq<real>)
    requires |names| == |values|
    ensures |ManualRecordOf(names, values)| <= |names|
  {
    InsertedSize(Zip(names, values));
  }

  /** The decimal digits of a natural number, most significant first. */
  function Decimal(n: nat): (s: string)
    ensures |s| >= 1
    ensures n >= 10 ==> |s| >= 2
  {
    var digit := (('0' as int) + n % 10) as char;
    if n < 10 then [digit] else Decimal(n / 10) + [digit]
  }

  /** Distinct numbers are written differently. */
  lemma {:induction false} DecimalInjective(n: nat, m: nat)
    requires Decimal(n) == Decimal(m)
    ensures n == m
  {
    var s := Decimal(n);
    assert s[|s| - 1] == (('0' as int) + n % 10) as char;
    assert s[|s| - 1] == (('0' as int) + m % 10) as char;
    if n >= 10 && m >= 10 {
      assert Decimal(n / 10) == s[..|s| - 1] == Decimal(m / 10);
      DecimalInjective(n / 10, m / 10);
    }
  }

  /** The name the i-th manual row (counting from 0) starts with: `feature_1`, `feature_2`, ... */
  function DefaultName(i: nat): string
  {
    "feature_" + Decimal(i + 1)
  }

  /** The names a manual form with `n` rows starts with. */
  function DefaultNames(n: nat): (r: seq<string>)
    ensures |r| == n
    ensures forall i :: 0 <= i < n ==> r[i] == DefaultName(i)
  {
    seq(n, i requires 0 <= i => DefaultName(i))
  }

  /** The starting names of distinct rows differ. */
  lemma DefaultNamesDistinct(i: nat, j: nat)
    requires DefaultName(i) == DefaultName(j)
    ensures i == j
  {
    assert Decimal(i + 1) == DefaultName(i)[8..];
    assert Decimal(j + 1) == DefaultName(j)[8..];
    DecimalInjective(i + 1, j + 1);
  }

  /**
   * A manual form whose row names are left as they start has exactly one
   * record entry per row, each holding that row's value.
   */
  lemma UntouchedNamesFillEveryRow(numFields: nat, values: seq<real>)
    requires |values| == numFields
    ensures |ManualRecordOf(DefaultNames(numFields), values)| == numFields
    ensures forall i :: 0 <= i < numFields ==>
      DefaultName(i) in ManualRecordOf(DefaultNames(numFields), values) &&
      ManualRecordOf(DefaultNames(numFields), values)[DefaultName(i)] == values[i]
  {
    var names := DefaultNames(numFields);
    var pairs := Zip(names, values);
    forall i, j | 0 <= i < j < |pairs| ensures pairs[i].0 != pairs[j].0 {
      if pairs[i].0 == pairs[j].0 {
        assert DefaultName(i) == pairs[i].0 == pairs[j].0 == DefaultName(j);
        DefaultNamesDistinct(i, j);
      }
    }
    InsertedSizeDistinct(pairs);
    InsertedKeys(pairs, "");
    assert forall i :: 0 <= i < |pairs| ==> pairs[i].0 != "" by {
      forall i | 0 <= i < |pairs| ensures pairs[i].0 != "" {
        assert pairs[i].0 == DefaultName(i) && |DefaultName(i)| > 8;
      }
    }
    assert ManualRecordOf(names, values) == Inserted(pairs);
    forall i | 0 <= i < numFields
      ensures DefaultName(i) in ManualRecordOf(names, values) && ManualRecordOf(names, values)[DefaultName(i)] == values[i]
    {
      InsertedLastWins(pairs, i);
    }
  }
}
