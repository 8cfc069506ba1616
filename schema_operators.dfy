/** The generic DDL operators. Each operator collects pending items through
    `set` and renders all of them as one SQL fragment; `bool()` of an
    operator says whether it holds anything. A column definition is rendered
    by `field_to_sql`, and a whole table by the create-table operator.

    The rendering functions give Python's result or the exception it raises:
    a field definition without `data_type`, `default` or `null` makes
    rendering raise KeyError. */
module SchemaOperators {
  import opened Py
  import opened Dicts
  import opened Meta

  // ---------------------------------------------------------------------
  // Column definitions

  /** `field_to_sql`: `<field> <data_type>`, then `DEFAULT <default>` when a
      default is given and otherwise a null postfix. The postfix is chosen
      by testing the literal string 'null' rather than the `nullable`
      argument, so it is always `NULL`. */
  function FieldToSql(field: string, dataType: Value, default: Value, nullable: Value): (r: string)
    ensures default != PyNone ==> r == field + " " + Format(dataType) + " DEFAULT " + Format(default)
    ensures default == PyNone ==> r == field + " " + Format(dataType) + " NULL"
  {
    var raw := field + " " + Format(dataType);
    if default != PyNone then raw + " " + "DEFAULT " + Format(default)
    else
      var postfix := if !Truthy(PyStr("null")) then "NOT NULL" else "NULL";
      raw + " " + postfix
  }

  /** `meta[key]`. */
  function Subscript(meta: FieldDef, key: string): (r: Result<Value>)
    ensures r.Ok? <==> key in meta.vals
    ensures r.Ok? ==> r.value == meta.vals[key]
    ensures r.Err? ==> r.error == KeyError(key)
  {
    if key in meta.vals then Ok(meta.vals[key]) else Err(KeyError(key))
  }

  /** `field_to_sql(field, meta['data_type'], meta['default'], meta['null'])`:
      the three lookups run in that order and the first missing key raises. */
  function MetaFieldSql(field: string, meta: FieldDef): (r: Result<string>)
    ensures r.Ok? <==> "data_type" in meta.vals && "default" in meta.vals && "null" in meta.vals
    ensures "data_type" !in meta.vals ==> r == Err(KeyError("data_type"))
    ensures "data_type" in meta.vals && "default" !in meta.vals ==> r == Err(KeyError("default"))
    ensures "data_type" in meta.vals && "default" in meta.vals && "null" !in meta.vals ==> r == Err(KeyError("null"))
    ensures r.Ok? ==> r.value == FieldToSql(field, meta.vals["data_type"], meta.vals["default"], meta.vals["null"])
  {
    match Subscript(meta, "data_type")
    case Err(e) => Err(e)
    case Ok(dataType) =>
      match Subscript(meta, "default")
      case Err(e) => Err(e)
      case Ok(default) =>
        match Subscript(meta, "null")
        case Err(e) => Err(e)
        case Ok(nullable) => Ok(FieldToSql(field, dataType, default, nullable))
  }

  /** `verb` and the column definition of `field`, e.g. `ADD <definition>`. */
  function Clause(verb: string, field: string, meta: FieldDef): Result<string> {
    match MetaFieldSql(field, meta)
    case Err(e) => Err(e)
    case Ok(sql) => Ok(verb + sql)
  }

  /** One clause per column, in order, or the error of the first column
      whose definition is incomplete. */
  function ColumnClauses(verb: string, cols: seq<(string, FieldDef)>): Result<seq<string>> {
    MapResults((c: (string, FieldDef)) => Clause(verb, c.0, c.1), cols)
  }

  /** Rendering succeeds iff every column's definition is complete, and then
      gives each column's clause in order. */
  lemma ColumnClausesOk(verb: string, cols: seq<(string, FieldDef)>)
    ensures ColumnClauses(verb, cols).Ok? <==> forall i :: 0 <= i < |cols| ==> MetaFieldSql(cols[i].0, cols[i].1).Ok?
    ensures ColumnClauses(verb, cols).Ok? ==> |ColumnClauses(verb, cols).value| == |cols|
    ensures ColumnClauses(verb, cols).Ok? ==>
      forall i :: 0 <= i < |cols| ==> ColumnClauses(verb, cols).value[i] == verb + MetaFieldSql(cols[i].0, cols[i].1).value
  {
    MapResultsOk((c: (string, FieldDef)) => Clause(verb, c.0, c.1), cols);
  }

  /** When rendering fails, it is with the error of the first incomplete column. */
  lemma ColumnClausesFirstError(verb: string, cols: seq<(string, FieldDef)>)
    requires ColumnClauses(verb, cols).Err?
    ensures exists i ::
      0 <= i < |cols| && MetaFieldSql(cols[i].0, cols[i].1) == Err(ColumnClauses(verb, cols).error) &&
      forall j :: 0 <= j < i ==> MetaFieldSql(cols[j].0, cols[j].1).Ok?
  {
    MapResultsFirstError((c: (string, FieldDef)) => Clause(verb, c.0, c.1), cols);
  }

  // ---------------------------------------------------------------------
  // Table constraints

  /** `(field, meta['references'])` for each of the first `n` fields whose
      `references` is truthy, in the fields' order. */
  function References(fields: Fields, n: nat): (r: seq<(string, Value)>)
    requires n <= |fields.keys|
    ensures forall j :: 0 <= j < |r| ==>
      r[j].0 in fields.vals && r[j].1 == Param(fields.vals[r[j].0], "references") && Truthy(r[j].1)
    decreases n
  {
    if n == 0 then []
    else
      var f := fields.keys[n - 1];
      var refs := References(fields, n - 1);
      if Truthy(Param(fields.vals[f], "references")) then refs + [(f, Param(fields.vals[f], "references"))] else refs
  }

  /** The last of the first `n` fields whose `primary_key` is truthy. */
  function PrimaryKey(fields: Fields, n: nat): Option<string>
    requires n <= |fields.keys|
    decreases n
  {
    if n == 0 then None
    else if Truthy(Param(fields.vals[fields.keys[n - 1]], "primary_key")) then Some(fields.keys[n - 1])
    else PrimaryKey(fields, n - 1)
  }

  function ForeignKeySql(field: string, references: Value): string {
    "FOREIGN KEY (" + field + ") REFERENCES " + Format(references) + "(" + "id" + ")"
  }

  function PrimaryKeySql(field: string): string {
    "PRIMARY KEY (" + field + ")"
  }

  /** The constraints of a table: a foreign key per referencing field, then
      the primary key, unless there is none or its name is empty (`if p_key`
      tests the name's truthiness). */
  function Constraints(fields: Fields): seq<string> {
    var refs := References(fields, |fields.keys|);
    var pKey := PrimaryKey(fields, |fields.keys|);
    var foreign := seq(|refs|, j requires 0 <= j < |refs| => ForeignKeySql(refs[j].0, refs[j].1));
    if pKey.Some? && pKey.value != "" then foreign + [PrimaryKeySql(pKey.value)] else foreign
  }

  /** `_prepare_constraints`: one pass over the fields collects the
      references in order and keeps the last primary key. `f_keys` is a dict
      in the generic operator and a list in the MySQL one; since the field
      names come from one dict, each is inserted once and both hold the same
      pairs in the same order. */
  method PrepareConstraints(fields: Fields) returns (r: string)
    ensures r == Join(",", Constraints(fields))
  {
    var fKeys: seq<(string, Value)> := [];
    var pKey: Option<string> := None;
    var i := 0;
    while i < |fields.keys|
      invariant i <= |fields.keys|
      invariant fKeys == References(fields, i)
      invariant pKey == PrimaryKey(fields, i)
    {
      var field := fields.keys[i];
      var meta := fields.vals[field];
      if Truthy(Param(meta, "references")) {
        fKeys := fKeys + [(field, Param(meta, "references"))];
      }
      if Truthy(Param(meta, "primary_key")) {
        pKey := Some(field);
      }
      i := i + 1;
    }
    var constraints := seq(|fKeys|, j requires 0 <= j < |fKeys| => ForeignKeySql(fKeys[j].0, fKeys[j].1));
    if pKey.Some? && pKey.value != "" {
      constraints := constraints + [PrimaryKeySql(pKey.value)];
    }
    r := Join(",", constraints);
  }

  /** The names of the fields whose `references` is falsy. */
  ghost function Unreferencing(fields: Fields): set<string> {
    set f | f in fields.vals && !Truthy(Param(fields.vals[f], "references"))
  }

  /** The foreign keys follow exactly the referencing fields, in the
      fields' order, each with the table its field references. */
  lemma {:induction false} ReferencesInOrder(fields: Fields, n: nat)
    requires n <= |fields.keys|
    ensures |References(fields, n)| == |Keep(fields.keys[..n], Unreferencing(fields))|
    ensures forall j :: 0 <= j < |References(fields, n)| ==>
      References(fields, n)[j].0 == Keep(fields.keys[..n], Unreferencing(fields))[j]
    decreases n
  {
    if n == 0 {
      assert fields.keys[..0] == [];
    } else {
      ReferencesInOrder(fields, n - 1);
      var f := fields.keys[n - 1];
      assert fields.keys[..n] == fields.keys[..n - 1] + [f];
      KeepSnoc(fields.keys[..n - 1], f, Unreferencing(fields));
      assert f in Unreferencing(fields) <==> !Truthy(Param(fields.vals[f], "references"));
    }
  }

  /** The primary key is the last field marked primary, and there is none
      exactly when no field is marked. */
  lemma {:induction false} PrimaryKeyIsLast(fields: Fields, n: nat)
    requires n <= |fields.keys|
    ensures PrimaryKey(fields, n).None? <==>
      forall i :: 0 <= i < n ==> !Truthy(Param(fields.vals[fields.keys[i]], "primary_key"))
    ensures PrimaryKey(fields, n).Some? ==>
      exists i :: 0 <= i < n && fields.keys[i] == PrimaryKey(fields, n).value &&
        Truthy(Param(fields.vals[fields.keys[i]], "primary_key")) &&
        forall j :: i < j < n ==> !Truthy(Param(fields.vals[fields.keys[j]], "primary_key"))
    decreases n
  {
    if n > 0 {
      PrimaryKeyIsLast(fields, n - 1);
    }
  }

  // ---------------------------------------------------------------------
  // Tables

  /** `_create_single_table_query`: `CREATE TABLE <t> (<columns>,<constraints>);`. */
  function TableQuery(table: string, fields: Fields): Result<string> {
    match ColumnClauses("", Items(fields))
    case Err(e) => Err(e)
    case Ok(cols) =>
      var definition := Join(",", cols) + "," + Join(",", Constraints(fields));
      Ok("CREATE TABLE " + table + " (" + definition + ")" + ";")
  }

  /** The comma between columns and constraints is written even when the
      table has no constraint at all. */
  lemma TableQueryWithoutConstraints(table: string, fields: Fields)
    requires TableQuery(table, fields).Ok? && Constraints(fields) == []
    ensures exists cols :: TableQuery(table, fields).value == "CREATE TABLE " + table + " (" + cols + ",);"
  {
    var cols := Join(",", ColumnClauses("", Items(fields)).value);
    assert TableQuery(table, fields).value == "CREATE TABLE " + table + " (" + cols + ",);";
  }

  /** One statement per table, in order, or the first table's error. */
  function TableQueries(tables: seq<(string, Fields)>): Result<seq<string>> {
    MapResults((t: (string, Fields)) => TableQuery(t.0, t.1), tables)
  }

  /** Every table gets its statement, in order, unless one of them fails. */
  lemma TableQueriesOk(tables: seq<(string, Fields)>)
    ensures TableQueries(tables).Ok? <==> forall i :: 0 <= i < |tables| ==> TableQuery(tables[i].0, tables[i].1).Ok?
    ensures TableQueries(tables).Ok? ==> |TableQueries(tables).value| == |tables|
    ensures TableQueries(tables).Ok? ==>
      forall i :: 0 <= i < |tables| ==> TableQueries(tables).value[i] == TableQuery(tables[i].0, tables[i].1).value
  {
    MapResultsOk((t: (string, Fields)) => TableQuery(t.0, t.1), tables);
  }

  /** `__str__` of the create-table operator: the statements of the tables,
      in first-insertion order, joined by newlines. */
  function CreateTablesSql(tables: Dict<string, Fields>): Result<string> {
    match TableQueries(Items(tables))
    case Err(e) => Err(e)
    case Ok(queries) => Ok(Join("\n", queries))
  }

  /** A new table's statement goes after those already there. */
  lemma CreateTablesNewTable(tables: Dict<string, Fields>, table: string, fields: Fields)
    requires table !in tables.vals
    requires CreateTablesSql(tables).Ok? && TableQuery(table, fields).Ok?
    ensures CreateTablesSql(Put(tables, table, fields)).Ok?
    ensures CreateTablesSql(Put(tables, table, fields)).value ==
      if tables.keys == [] then TableQuery(table, fields).value
      else CreateTablesSql(tables).value + "\n" + TableQuery(table, fields).value
  {
    var items := Items(tables);
    ItemsPutNew(tables, table, fields);
    MapResultsSnoc((t: (string, Fields)) => TableQuery(t.0, t.1), items, (table, fields));
    JoinSnoc("\n", TableQueries(items).value, TableQuery(table, fields).value);
  }

  class CreateTableOperator {
    /** `_tables`: each table's fields, in first-insertion order. */
    var tables: Dict<string, Fields>

    constructor ()
      ensures tables == Empty()
    {
      tables := Empty();
    }

    /** `set`: a table set again keeps its place and takes the new fields. */
    method Set(table: string, fields: Fields)
      modifies this
      ensures tables == Put(old(tables), table, fields)
    {
      tables := Put(tables, table, fields);
    }

    /** `__str__`: fails exactly when some table's statement fails; with no
        table it is the empty text. */
    function ToStr(): (r: Result<string>)
      reads this
      ensures r.Ok? <==> forall i :: 0 <= i < |tables.keys| ==> TableQuery(tables.keys[i], tables.vals[tables.keys[i]]).Ok?
      ensures tables.keys == [] ==> r == Ok("")
    {
      TableQueriesOk(Items(tables));
      CreateTablesSql(tables)
    }

    /** `bool(self._tables)`: some table was set. */
    predicate IsNonEmpty()
      reads this
      ensures IsNonEmpty() <==> exists t :: t in tables.vals
    {
      DictKeys(tables);
      tables.keys != []
    }
  }

  /** The table list of `DROP TABLE`. */
  function DropTablesSql(tables: seq<string>): string {
    "DROP TABLE " + Join(",", tables) + ";"
  }

  class DeleteTableOperator {
    /** `_tables`: every table set, in order, repeats included. */
    var tables: seq<string>

    constructor ()
      ensures tables == []
    {
      tables := [];
    }

    method Set(table: string)
      modifies this
      ensures tables == old(tables) + [table]
    {
      tables := tables + [table];
    }

    /** `__str__`: the tables set, comma-separated. */
    function ToStr(): (r: string)
      reads this
      ensures tables == [] ==> r == "DROP TABLE ;"
      ensures |tables| == 1 ==> r == "DROP TABLE " + tables[0] + ";"
    {
      DropTablesSql(tables)
    }

    /** `bool(self._tables)`; a falsy operator would write an empty
        statement. */
    predicate IsNonEmpty()
      reads this
      ensures !IsNonEmpty() ==> ToStr() == "DROP TABLE ;"
    {
      tables != []
    }
  }

  /** The tables are listed in the order they were set, comma-separated. */
  lemma DropTablesSnoc(tables: seq<string>, table: string)
    ensures DropTablesSql(tables + [table]) ==
      if tables == [] then "DROP TABLE " + table + ";"
      else "DROP TABLE " + Join(",", tables) + "," + table + ";"
  {
    JoinSnoc(",", tables, table);
  }

  /** The change-table operator: the table schemas it holds, each rendered
      by the schema itself (`show`), in the order they were set. */
  class ChangeTableOperator<T> {
    var schemas: seq<T>

    constructor ()
      ensures schemas == []
    {
      schemas := [];
    }

    method Set(schema: T)
      modifies this
      ensures schemas == old(schemas) + [schema]
    {
      schemas := schemas + [schema];
    }

    /** `__str__`: each schema's text, one per line; nothing for no
        schema. */
    function ToStr(show: T -> string): (r: string)
      reads this
      ensures schemas == [] ==> r == ""
      ensures |schemas| == 1 ==> r == show(schemas[0])
    {
      var s := schemas;
      Join("\n", seq(|s|, i requires 0 <= i < |s| => show(s[i])))
    }

    /** `bool(self._schemas)`: some schema was set. */
    predicate IsNonEmpty()
      reads this
    {
      schemas != []
    }
  }

  /** A schema set last is rendered last, on a line of its own. */
  lemma ChangeTableSnoc<T>(schemas: seq<T>, schema: T, show: T -> string)
    ensures Join("\n", seq(|schemas + [schema]|, i requires 0 <= i < |schemas + [schema]| => show((schemas + [schema])[i]))) ==
      if schemas == [] then show(schema)
      else Join("\n", seq(|schemas|, i requires 0 <= i < |schemas| => show(schemas[i]))) + "\n" + show(schema)
  {
    var before := seq(|schemas|, i requires 0 <= i < |schemas| => show(schemas[i]));
    assert seq(|schemas + [schema]|, i requires 0 <= i < |schemas + [schema]| => show((schemas + [schema])[i])) == before + [show(schema)];
    JoinSnoc("\n", before, show(schema));
  }

  // ---------------------------------------------------------------------
  // Alterations of one table

  /** `ALTER TABLE <t>\n<operation>;`, the frame of every alter-table operator. */
  function AlterTableSql(table: string, body: string): string {
    "ALTER TABLE " + table + "\n" + body + ";"
  }

  /** The clauses of an add (or change) operator, comma-joined. */
  function ColumnsBody(verb: string, cols: Fields): Result<string> {
    match ColumnClauses(verb, Items(cols))
    case Err(e) => Err(e)
    case Ok(clauses) => Ok(Join(",", clauses))
  }

  /** A column set for the first time gets the last clause. */
  lemma ColumnsBodyNewColumn(verb: string, cols: Fields, col: string, meta: FieldDef)
    requires col !in cols.vals
    requires ColumnsBody(verb, cols).Ok? && MetaFieldSql(col, meta).Ok?
    ensures ColumnsBody(verb, Put(cols, col, meta)).Ok?
    ensures ColumnsBody(verb, Put(cols, col, meta)).value ==
      if cols.keys == [] then Clause(verb, col, meta).value
      else ColumnsBody(verb, cols).value + "," + Clause(verb, col, meta).value
  {
    ItemsPutNew(cols, col, meta);
    JoinResultsSnoc(",", (c: (string, FieldDef)) => Clause(verb, c.0, c.1), Items(cols), (col, meta));
  }

  /** The add operator, and with `verb` `CHANGE ` the alter operator, which
      differs from it only in its template. */
  class AddOperator {
    const table: string
    const verb: string
    /** `_cols`: each column's definition, in first-insertion order. */
    var cols: Fields

    constructor (table: string)
      ensures this.table == table && verb == "ADD " && cols == Empty()
    {
      this.table := table;
      verb := "ADD ";
      cols := Empty();
    }

    /** `AlterOperator(table)`. */
    constructor Change(table: string)
      ensures this.table == table && verb == "CHANGE " && cols == Empty()
    {
      this.table := table;
      verb := "CHANGE ";
      cols := Empty();
    }

    method Set(col: string, meta: FieldDef)
      modifies this
      ensures cols == Put(old(cols), col, meta)
    {
      cols := Put(cols, col, meta);
    }

    function ToStr(): (r: Result<string>)
      reads this
      ensures r.Ok? <==> ColumnsBody(verb, cols).Ok?
      ensures r.Ok? ==> r.value == AlterTableSql(table, ColumnsBody(verb, cols).value)
    {
      match ColumnsBody(verb, cols)
      case Err(e) => Err(e)
      case Ok(body) => Ok(AlterTableSql(table, body))
    }

    /** `bool(self._cols)`: some column was set. */
    predicate IsNonEmpty()
      reads this
      ensures IsNonEmpty() <==> exists c :: c in cols.vals
    {
      DictKeys(cols);
      cols.keys != []
    }
  }

  /** `DROP <c>` for each column, comma-joined. */
  function DropBody(cols: seq<string>): string {
    Join(",", seq(|cols|, i requires 0 <= i < |cols| => "DROP " + cols[i]))
  }

  /** There is a drop clause to write exactly when a column was set. */
  lemma DropBodyEmpty(cols: seq<string>)
    ensures DropBody(cols) == "" <==> cols == []
  {
    var parts := seq(|cols|, i requires 0 <= i < |cols| => "DROP " + cols[i]);
    if cols != [] {
      assert |parts[|parts| - 1]| > 0;
    }
  }

  lemma DropBodySnoc(cols: seq<string>, col: string)
    ensures DropBody(cols + [col]) == if cols == [] then "DROP " + col else DropBody(cols) + ",DROP " + col
  {
    var before := seq(|cols|, i requires 0 <= i < |cols| => "DROP " + cols[i]);
    assert seq(|cols + [col]|, i requires 0 <= i < |cols + [col]| => "DROP " + (cols + [col])[i]) == before + ["DROP " + col];
    JoinSnoc(",", before, "DROP " + col);
  }

  class DropOperator {
    const table: string
    /** `_cols`: the columns to drop, in order, repeats included. */
    var cols: seq<string>

    constructor (table: string)
      ensures this.table == table && cols == []
    {
      this.table := table;
      cols := [];
    }

    method Set(col: string)
      modifies this
      ensures cols == old(cols) + [col]
    {
      cols := cols + [col];
    }

    /** `__str__`: the frame around the drops; an empty frame with no
        column. */
    function ToStr(): (r: string)
      reads this
      ensures cols == [] ==> r == "ALTER TABLE " + table + "\n" + ";"
      ensures |cols| == 1 ==> r == "ALTER TABLE " + table + "\n" + "DROP " + cols[0] + ";"
    {
      AlterTableSql(table, DropBody(cols))
    }

    /** `bool(self._cols)`: exactly when there is a drop clause to write. */
    predicate IsNonEmpty()
      reads this
      ensures IsNonEmpty() <==> DropBody(cols) != ""
    {
      DropBodyEmpty(cols);
      cols != []
    }
  }

  class RenameOperator {
    const table: string
    /** `_name`: None until `set` gives a new name; the last one set wins. */
    var name: Option<string>

    constructor (table: string)
      ensures this.table == table && name == None
    {
      this.table := table;
      name := None;
    }

    method Set(name: string)
      modifies this
      ensures this.name == Some(name)
    {
      this.name := Some(name);
    }

    /** Before any `set`, the new name renders as `None`. */
    /** `__str__`: `RENAME TO <name>` in the frame, `None` before a name
        is set. */
    function ToStr(): (r: string)
      reads this
      ensures name.Some? ==> r == "ALTER TABLE " + table + "\n" + "RENAME TO " + name.value + ";"
      ensures name.None? ==> r == "ALTER TABLE " + table + "\n" + "RENAME TO None" + ";"
    {
      AlterTableSql(table, "RENAME TO " + FormatOption(name))
    }

    /** `bool(self._name)`: a name was set and it is not empty. */
    predicate IsNonEmpty()
      reads this
    {
      name.Some? && name.value != ""
    }
  }

  /** `ADD FOREIGN KEY (<c>) REFERENCES <t>(id)` for each column, comma-joined. */
  function ForeignKeysBody(foreignKeys: Dict<string, string>): string {
    Join(",", seq(|foreignKeys.keys|, i requires 0 <= i < |foreignKeys.keys| =>
      "ADD FOREIGN KEY (" + foreignKeys.keys[i] + ") REFERENCES " + foreignKeys.vals[foreignKeys.keys[i]] + "(id)"))
  }

  /** Setting a column's reference again replaces it in place. */
  lemma ForeignKeysBodyReplace(foreignKeys: Dict<string, string>, col: string, t1: string, t2: string)
    ensures ForeignKeysBody(Put(Put(foreignKeys, col, t1), col, t2)) == ForeignKeysBody(Put(foreignKeys, col, t2))
  {
    PutPut(foreignKeys, col, t1, t2);
  }

  class AddForeignKeyOperator {
    const table: string
    /** `_foreign_keys`: column to referenced table, in first-insertion order. */
    var foreignKeys: Dict<string, string>

    constructor (table: string)
      ensures this.table == table && foreignKeys == Empty()
    {
      this.table := table;
      foreignKeys := Empty();
    }

    method Set(col: string, references: string)
      modifies this
      ensures foreignKeys == Put(old(foreignKeys), col, references)
    {
      foreignKeys := Put(foreignKeys, col, references);
    }

    /** `__str__`: the frame around the foreign keys; an empty frame with
        no column. */
    function ToStr(): (r: string)
      reads this
      ensures foreignKeys.keys == [] ==> r == "ALTER TABLE " + table + "\n" + ";"
      ensures |foreignKeys.keys| == 1 ==>
        r == "ALTER TABLE " + table + "\n" +
             "ADD FOREIGN KEY (" + foreignKeys.keys[0] + ") REFERENCES " + foreignKeys.vals[foreignKeys.keys[0]] + "(id)" + ";"
    {
      AlterTableSql(table, ForeignKeysBody(foreignKeys))
    }

    /** `bool(self._foreign_keys)`: some column was set. */
    predicate IsNonEmpty()
      reads this
      ensures IsNonEmpty() <==> exists c :: c in foreignKeys.vals
    {
      DictKeys(foreignKeys);
      foreignKeys.keys != []
    }
  }
}
