/** The SQLite schema engines of the backends package. SQLite cannot alter a
    column, so the table engine emulates `alter` by queueing a drop of the
    column as the state knows it and then an add of the new definition. The
    schema engine hands out one table engine per altered table and keeps
    them, in order, in its alter-table operator. */
module SqliteBackend {
  import opened Py
  import opened Dicts
  import opened Registry
  import S = SchemaOperators

  /** A field schema as the engines see it: its name, its data type and its
      other attributes, which they carry along unread. */
  datatype FieldSchema = FieldSchema(name: string, dataType: string, rest: Dict<string, Value>)

  /** `SQLitePrimaryKeySchema(...)`: `__post_init__` replaces whatever data
      type it was given by `INTEGER`, SQLite's row-id type. */
  function PrimaryKeySchema(name: string, dataType: string, rest: Dict<string, Value>): (r: FieldSchema)
    ensures r.dataType == "INTEGER"
    ensures r.name == name && r.rest == rest
  {
    var constructed := FieldSchema(name, dataType, rest);
    constructed.(dataType := "INTEGER")
  }

  /** The calls the table engine queues on its operators. */
  datatype Call = Drop(field: FieldSchema) | Add(field: FieldSchema)

  /** `dict((f.name, f) for f in fields)`. */
  function StateOf(fields: seq<FieldSchema>): Dict<string, FieldSchema> {
    FromPairs(seq(|fields|, i requires 0 <= i < |fields| => (fields[i].name, fields[i])))
  }

  /** The state knows exactly the names of the fields, each with the last
      field of that name. */
  lemma StateOfFields(fields: seq<FieldSchema>)
    ensures forall k :: k in StateOf(fields).vals <==> exists i :: 0 <= i < |fields| && fields[i].name == k
    ensures forall i :: 0 <= i < |fields| && (forall j :: i < j < |fields| ==> fields[j].name != fields[i].name) ==>
      StateOf(fields).vals[fields[i].name] == fields[i]
  {
    var pairs := seq(|fields|, i requires 0 <= i < |fields| => (fields[i].name, fields[i]));
    FromPairsLast(pairs);
    assert forall i :: 0 <= i < |fields| ==> pairs[i] == (fields[i].name, fields[i]);
  }

  /** Undecorated `alter(field)`: `self._state[field.name]` raises KeyError
      for a name the state does not know; otherwise the state's field is
      dropped and the new one added, in that order. */
  function Altered(ops: Operators<Call>, state: Dict<string, FieldSchema>, field: FieldSchema): (r: Result<Operators<Call>>)
    ensures r.Err? <==> field.name !in state.vals
    ensures r.Err? ==> r.error == KeyError(field.name)
  {
    if field.name !in state.vals then Err(KeyError(field.name))
    else Ok(Queue(Queue(ops, "drop", Drop(state.vals[field.name])), "add", Add(field)))
  }

  /** A successful alter queues one drop, of the field the state holds under
      the name, and one add, of the new field; nothing else changes and the
      registry keeps its order. */
  lemma AlteredDropsThenAdds(ops: Operators<Call>, state: Dict<string, FieldSchema>, field: FieldSchema)
    requires field.name in state.vals
    ensures Queued(Altered(ops, state, field).value, "drop") == Queued(ops, "drop") + [Drop(state.vals[field.name])]
    ensures Queued(Altered(ops, state, field).value, "add") == Queued(ops, "add") + [Add(field)]
    ensures forall n :: n != "drop" && n != "add" ==> Queued(Altered(ops, state, field).value, n) == Queued(ops, n)
    ensures "drop" in ops.vals && "add" in ops.vals ==> Altered(ops, state, field).value.keys == ops.keys
  {
  }

  /** After an alter on a table engine just built, the registry holds the
      drop, then the add, then the two untouched operators. */
  lemma FreshAlteredItems(state: Dict<string, FieldSchema>, field: FieldSchema)
    requires field.name in state.vals
    ensures Items(Altered(FreshTableOperators(), state, field).value) ==
      [("drop", [Drop(state.vals[field.name])]), ("add", [Add(field)]), ("add_fk", []), ("rename_to", [])]
  {
    FreshTableOperatorsShape<Call>();
    AlteredDropsThenAdds(FreshTableOperators(), state, field);
    var ops := Altered(FreshTableOperators(), state, field).value;
    assert ops.keys == ["drop", "add", "add_fk", "rename_to"];
    assert Queued(ops, "add_fk") == [] && Queued(ops, "rename_to") == [];
    assert Queued(ops, "drop") == [Drop(state.vals[field.name])] && Queued(ops, "add") == [Add(field)];
  }

  /** On a table engine just built, an alter renders as the drop operator's
      text, a newline, and the add operator's text, provided the untouched
      add_fk and rename_to operators are falsy and operators with a call
      are truthy. */
  lemma FreshAlterRendering(state: Dict<string, FieldSchema>, field: FieldSchema,
                            isSet: (string, seq<Call>) -> bool, render: (string, seq<Call>) -> string)
    requires field.name in state.vals
    requires !isSet("add_fk", []) && !isSet("rename_to", [])
    requires isSet("drop", [Drop(state.vals[field.name])]) && isSet("add", [Add(field)])
    ensures Join("\n", Applied(Items(Altered(FreshTableOperators(), state, field).value), isSet, render)) ==
      render("drop", [Drop(state.vals[field.name])]) + "\n" + render("add", [Add(field)])
  {
    FreshAlteredItems(state, field);
    AppliedFirstTwo(("drop", [Drop(state.vals[field.name])]), ("add", [Add(field)]), ("add_fk", []), ("rename_to", []), isSet, render);
  }

  class SqliteTableEngine {
    const schema: SqliteSchemaEngine
    const table: string
    const fields: seq<FieldSchema>
    /** `_state`: field name to field schema. */
    var state: Dict<string, FieldSchema>
    /** `_operators`. */
    var operators: Operators<Call>

    /** Constructing a table engine registers its operators (`__operators__`)
        and builds the state from the fields. */
    constructor (schema: SqliteSchemaEngine, table: string, fields: seq<FieldSchema>)
      ensures this.schema == schema && this.table == table && this.fields == fields
      ensures state == StateOf(fields)
      ensures operators == FreshTableOperators()
    {
      this.schema := schema;
      this.table := table;
      this.fields := fields;
      operators := FreshTableOperators();
      state := StateOf(fields);
    }

    /** `__operators__`: fresh drop, add, add_fk and rename_to operators,
        in that order. */
    method RegisterOperators()
      modifies this
      ensures operators == TableOperators(old(operators))
      ensures state == old(state)
    {
      operators := Register(operators, "drop");
      operators := Register(operators, "add");
      operators := Register(operators, "add_fk");
      operators := Register(operators, "rename_to");
    }

    /** The body of `alter`, run on this engine. */
    method AlterHere(field: FieldSchema) returns (err: Option<Error>)
      modifies this
      ensures state == old(state)
      ensures Altered(old(operators), state, field).Ok? ==>
        err == None && operators == Altered(old(operators), state, field).value
      ensures Altered(old(operators), state, field).Err? ==>
        err == Some(Altered(old(operators), state, field).error) && operators == old(operators)
    {
      if field.name !in state.vals {
        err := Some(KeyError(field.name));
        return;
      }
      operators := Queue(operators, "drop", Drop(state.vals[field.name]));
      operators := Queue(operators, "add", Add(field));
      err := None;
    }

    /** `alter(field, instantly=...)` under `operator_delegating_metod`.
        Without `instantly` the alter is queued on this engine and nothing
        is returned. With it, it is queued on `copy`, which stands for
        `self.copy()`, this engine is left as it was, and the copy's
        rendering is returned. */
    method Alter(field: FieldSchema, instantly: bool, copy: SqliteTableEngine,
                 isSet: (string, seq<Call>) -> bool, render: (string, seq<Call>) -> string)
      returns (r: Result<Option<string>>)
      requires copy != this
      modifies this, copy
      ensures !instantly ==> unchanged(copy) && state == old(state)
      ensures !instantly && Altered(old(operators), state, field).Ok? ==>
        r == Ok(None) && operators == Altered(old(operators), state, field).value
      ensures !instantly && Altered(old(operators), state, field).Err? ==>
        r == Err(Altered(old(operators), state, field).error) && operators == old(operators)
      ensures instantly ==> unchanged(this) && copy.state == old(copy.state)
      ensures instantly && Altered(old(copy.operators), copy.state, field).Ok? ==>
        copy.operators == Altered(old(copy.operators), copy.state, field).value &&
        r == Ok(Some(Join("\n", Applied(Items(copy.operators), isSet, render))))
      ensures instantly && Altered(old(copy.operators), copy.state, field).Err? ==>
        r == Err(Altered(old(copy.operators), copy.state, field).error) && copy.operators == old(copy.operators)
    {
      if instantly {
        var err := copy.AlterHere(field);
        if err.Some? {
          r := Err(err.value);
          return;
        }
        var text := copy.ToStr(isSet, render);
        r := Ok(Some(text));
      } else {
        var err := AlterHere(field);
        r := if err.Some? then Err(err.value) else Ok(None);
      }
    }

    /** The `fields` property. */
    function Fields(): seq<FieldSchema> {
      fields
    }

    function GetTableName(): string {
      table
    }

    /** The current state: field name to field schema. */
    function GetState(): Dict<string, FieldSchema>
      reads this
    {
      state
    }

    /** `to_str`: the renderings of the operators that hold something, in
        registration order, one per line. */
    method ToStr(isSet: (string, seq<Call>) -> bool, render: (string, seq<Call>) -> string) returns (r: string)
      ensures r == Join("\n", Applied(Items(operators), isSet, render))
    {
      var ops := operators;
      var items := Items(ops);
      var applied: seq<string> := [];
      var i := 0;
      while i < |ops.keys|
        invariant i <= |ops.keys|
        invariant applied == Applied(items[..i], isSet, render)
      {
        var name := ops.keys[i];
        var operator := ops.vals[name];
        assert items[..i + 1][..i] == items[..i];
        if isSet(name, operator) {
          applied := applied + [render(name, operator)];
        }
        i := i + 1;
      }
      assert items[..i] == items;
      r := Join("\n", applied);
    }
  }

  class SqliteSchemaEngine {
    /** The names `__operators__` registers, in order. */
    const registered: seq<string>
    const createTable: S.CreateTableOperator
    const alterTable: S.ChangeTableOperator<SqliteTableEngine>

    /** Constructing a schema engine registers its operators
        (`__operators__`): delete_table, create_table and alter_table, the
        last two being the MySQL create-table and change-table operators. */
    constructor ()
      ensures registered == ["delete_table", "create_table", "alter_table"]
      ensures fresh(createTable) && createTable.tables == Empty()
      ensures fresh(alterTable) && alterTable.schemas == []
    {
      registered := ["delete_table", "create_table", "alter_table"];
      createTable := new S.CreateTableOperator();
      alterTable := new S.ChangeTableOperator();
    }

    /** `alter_table`: a new table engine bound to this schema, appended to
        the alter-table operator and returned. */
    method AlterTable(table: string, fields: seq<FieldSchema>) returns (e: SqliteTableEngine)
      modifies alterTable
      ensures fresh(e) && e.schema == this && e.table == table && e.fields == fields
      ensures e.state == StateOf(fields) && e.operators == FreshTableOperators()
      ensures alterTable.schemas == old(alterTable.schemas) + [e]
    {
      e := new SqliteTableEngine(this, table, fields);
      alterTable.Set(e);
    }
  }

  /** `get_schema`: a new schema engine of the same class, not the one the
      table engine belongs to. */
  method GetSchema(engine: SqliteTableEngine) returns (s: SqliteSchemaEngine)
    ensures fresh(s) && s != engine.schema
    ensures s.registered == ["delete_table", "create_table", "alter_table"]
  {
    s := new SqliteSchemaEngine();
  }
}
