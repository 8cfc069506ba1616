/** The row-entry operators: the `INSERT INTO <t>` and `DELETE FROM <t>`
    heads, and the `(<fields>) VALUES (<values>)` part of an insert. */
module Entries {
  import opened Py
  import opened Dicts

  /** The insert-into operator, and with `verb` `DELETE FROM ` the
      delete-from operator, which differs from it only in its template. */
  class InsertIntoOperator {
    const verb: string
    /** `_table`: None until `set`; the last table set wins. */
    var table: Option<string>

    constructor ()
      ensures verb == "INSERT INTO " && table == None
    {
      verb := "INSERT INTO ";
      table := None;
    }

    /** `DeleteFromOperator()`. */
    constructor DeleteFrom()
      ensures verb == "DELETE FROM " && table == None
    {
      verb := "DELETE FROM ";
      table := None;
    }

    method Set(table: string)
      modifies this
      ensures this.table == Some(table)
    {
      this.table := Some(table);
    }

    /** Before any `set` the table reads `None`. */
    function ToStr(): (r: string)
      reads this
      ensures table.Some? ==> r == verb + table.value
      ensures table.None? ==> r == verb + "None"
    {
      verb + FormatOption(table)
    }

    /** `bool(self._table)`: a table was set and its name is not empty. */
    predicate IsNonEmpty()
      reads this
    {
      table.Some? && table.value != ""
    }
  }

  /** What the `map` hands to `join` for one value: an int (a bool is one)
      as it is, anything else as its text between double quotes, nothing
      escaped. */
  function Item(v: Value): (r: Value)
    ensures IsInt(v) ==> r == v
    ensures !IsInt(v) ==> r == PyStr("\"" + Format(v) + "\"")
  {
    if IsInt(v) then v else PyStr("\"" + Format(v) + "\"")
  }

  /** The items of the values, in the fields' order. */
  function ValueItems(values: Dict<string, Value>): (r: seq<Value>)
    ensures |r| == |values.keys|
    ensures forall i :: 0 <= i < |r| ==> r[i] == Item(values.vals[values.keys[i]])
  {
    seq(|values.keys|, i requires 0 <= i < |values.keys| => Item(values.vals[values.keys[i]]))
  }

  /** `__str__` of the insert-values operator. */
  function ValuesSql(values: Dict<string, Value>): Result<string> {
    match JoinItems(",", ValueItems(values))
    case Err(e) => Err(e)
    case Ok(vs) => Ok("(" + Join(",", values.keys) + ") VALUES (" + vs + ")")
  }

  /** The quoted text of each value, in the fields' order. */
  function QuotedValues(values: Dict<string, Value>): (r: seq<string>)
    requires NoInts(values)
    ensures |r| == |values.keys|
    ensures forall i :: 0 <= i < |r| ==> r[i] == "\"" + Format(values.vals[values.keys[i]]) + "\""
  {
    seq(|values.keys|, i requires 0 <= i < |values.keys| => "\"" + Format(values.vals[values.keys[i]]) + "\"")
  }

  /** Rendering fails exactly when some value is an int or a bool, and then
      with the TypeError of the first such value; otherwise the fields and
      their quoted values come out in the same order. */
  lemma ValuesSqlSpec(values: Dict<string, Value>)
    ensures ValuesSql(values).Ok? <==> NoInts(values)
    ensures ValuesSql(values).Ok? ==>
      ValuesSql(values).value == "(" + Join(",", values.keys) + ") VALUES (" + Join(",", QuotedValues(values)) + ")"
    ensures ValuesSql(values).Err? ==> exists k ::
      0 <= k < |values.keys| && IsInt(values.vals[values.keys[k]]) &&
      (forall j :: 0 <= j < k ==> !IsInt(values.vals[values.keys[j]])) &&
      ValuesSql(values).error ==
        TypeError("sequence item " + NatToString(k) + ": expected str instance, " + TypeName(values.vals[values.keys[k]]) + " found")
  {
    var items := ValueItems(values);
    if ValuesSql(values).Ok? {
      var strs := seq(|items|, i requires 0 <= i < |items| => items[i].s);
      assert strs == QuotedValues(values);
    }
  }

  class InsertValuesOperator {
    /** `_values`: field to value, in first-insertion order. */
    var values: Dict<string, Value>

    constructor ()
      ensures values == Empty()
    {
      values := Empty();
    }

    /** `set`: a field set again keeps its place and takes the new value. */
    method Set(field: string, value: Value)
      modifies this
      ensures values == Put(old(values), field, value)
      ensures field in old(values).vals ==> values.keys == old(values).keys
    {
      values := Put(values, field, value);
    }

    /** `__str__`: fails exactly when some value is an int or a bool;
        otherwise the fields and their quoted values, in the same order. */
    function ToStr(): (r: Result<string>)
      reads this
      ensures r.Ok? <==> NoInts(values)
      ensures r.Ok? ==> r.value == "(" + Join(",", values.keys) + ") VALUES (" + Join(",", QuotedValues(values)) + ")"
    {
      ValuesSqlSpec(values);
      ValuesSql(values)
    }

    /** `bool(self._values)`: some field was set. */
    predicate IsNonEmpty()
      reads this
      ensures IsNonEmpty() <==> exists f :: f in values.vals
    {
      DictKeys(values);
      values.keys != []
    }
  }

  /** No value of the dict is an int or a bool. */
  predicate NoInts(values: Dict<string, Value>) {
    forall i :: 0 <= i < |values.keys| ==> !IsInt(values.vals[values.keys[i]])
  }

  /** A new field whose value is not an int keeps the dict free of ints, and
      its quoted value goes last. */
  lemma QuotedValuesNewField(values: Dict<string, Value>, field: string, v: Value)
    requires field !in values.vals && NoInts(values) && !IsInt(v)
    ensures NoInts(Put(values, field, v))
    ensures QuotedValues(Put(values, field, v)) == QuotedValues(values) + ["\"" + Format(v) + "\""]
  {
    var after := Put(values, field, v);
    DictKeys(values);
    assert after.keys == values.keys + [field];
    forall i | 0 <= i < |after.keys| ensures !IsInt(after.vals[after.keys[i]]) {
      if i < |values.keys| {
        assert after.keys[i] == values.keys[i];
      }
    }
    assert QuotedValues(after)[..|values.keys|] == QuotedValues(values);
  }

  /** A field set for the first time goes last, on both sides of `VALUES`. */
  lemma ValuesSqlNewField(values: Dict<string, Value>, field: string, v: Value)
    requires field !in values.vals && values.keys != []
    requires ValuesSql(values).Ok? && !IsInt(v)
    ensures ValuesSql(Put(values, field, v)).Ok?
    ensures ValuesSql(Put(values, field, v)).value ==
      "(" + (Join(",", values.keys) + "," + field) + ") VALUES (" +
      (Join(",", QuotedValues(values)) + "," + ("\"" + Format(v) + "\"")) + ")"
  {
    var after := Put(values, field, v);
    ValuesSqlSpec(values);
    QuotedValuesNewField(values, field, v);
    ValuesSqlSpec(after);
    JoinAppend(",", values.keys, field);
    JoinAppend(",", QuotedValues(values), "\"" + Format(v) + "\"");
  }
}
