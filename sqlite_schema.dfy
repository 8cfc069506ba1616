/** The SQLite schema engines of the older `db.sqlite` package. Here a table
    engine works on a dict of field name to field definition, `alter`
    drops a column by name and adds it again with its new definition, and
    `reset` puts the state and the four table operators back. */
module SqliteSchema {
  import opened Py
  import opened Dicts
  import opened Meta
  import opened Registry
  import S = SchemaOperators

  /** The calls the table engine queues on its operators. */
  datatype Call = Drop(col: string) | Add(col: string, meta: FieldDef)

  /** Undecorated `alter(col, meta)`: `drop(col)`, then `add(col, meta)`. */
  function Altered(ops: Operators<Call>, col: string, meta: FieldDef): Operators<Call> {
    Queue(Queue(ops, "drop", Drop(col)), "add", Add(col, meta))
  }

  /** The alter queues exactly one drop and then one add of the same column;
      the other operators keep their calls and the registry its order. */
  lemma AlteredDropsThenAdds(ops: Operators<Call>, col: string, meta: FieldDef)
    ensures Queued(Altered(ops, col, meta), "drop") == Queued(ops, "drop") + [Drop(col)]
    ensures Queued(Altered(ops, col, meta), "add") == Queued(ops, "add") + [Add(col, meta)]
    ensures forall n :: n != "drop" && n != "add" ==> Queued(Altered(ops, col, meta), n) == Queued(ops, n)
    ensures "drop" in ops.vals && "add" in ops.vals ==> Altered(ops, col, meta).keys == ops.keys
  {
  }

  /** Altering a column twice queues two drop-add pairs, in call order. */
  lemma AlteredTwice(ops: Operators<Call>, col1: string, meta1: FieldDef, col2: string, meta2: FieldDef)
    ensures Queued(Altered(Altered(ops, col1, meta1), col2, meta2), "drop") == Queued(ops, "drop") + [Drop(col1), Drop(col2)]
    ensures Queued(Altered(Altered(ops, col1, meta1), col2, meta2), "add") == Queued(ops, "add") + [Add(col1, meta1), Add(col2, meta2)]
  {
    AlteredDropsThenAdds(ops, col1, meta1);
    AlteredDropsThenAdds(Altered(ops, col1, meta1), col2, meta2);
  }

  class TableEngine {
    const schema: SchemaEngine
    const table: string
    /** `_fields`, the definitions the engine was built with. */
    const fields: Fields
    /** `_state`. */
    var state: Fields
    /** `_operators`. */
    var operators: Operators<Call>

    /** Constructing a table engine stores its arguments and resets it. */
    constructor (schema: SchemaEngine, table: string, fields: Fields)
      ensures this.schema == schema && this.table == table && this.fields == fields
      ensures state == fields && operators == FreshTableOperators()
    {
      this.schema := schema;
      this.table := table;
      this.fields := fields;
      state := fields;
      operators := FreshTableOperators();
    }

    /** `reset`: the state goes back to the constructor's fields and fresh
        drop, add, add_fk and rename_to operators replace the old ones,
        keeping their places. */
    method Reset()
      modifies this
      ensures state == fields
      ensures operators == TableOperators(old(operators))
    {
      state := fields;
      operators := Register(operators, "drop");
      operators := Register(operators, "add");
      operators := Register(operators, "add_fk");
      operators := Register(operators, "rename_to");
    }

    /** `alter(col, meta, instantly=...)` under `operator_delegating_metod`.
        Without `instantly` the drop and the add are queued here and nothing
        is returned. With it, they are queued on `copy`, which stands for
        `self.copy()`, this engine is left as it was, and `str()` of the
        copy, its registry rendered by `show`, is returned. */
    method Alter(col: string, meta: FieldDef, instantly: bool, copy: TableEngine, show: Operators<Call> -> string)
      returns (r: Option<string>)
      requires copy != this
      modifies this, copy
      ensures !instantly ==> unchanged(copy) && state == old(state)
      ensures !instantly ==> r == None && operators == Altered(old(operators), col, meta)
      ensures instantly ==> unchanged(this) && copy.state == old(copy.state)
      ensures instantly ==> copy.operators == Altered(old(copy.operators), col, meta) && r == Some(show(copy.operators))
    {
      if instantly {
        copy.AlterHere(col, meta);
        r := Some(show(copy.operators));
      } else {
        AlterHere(col, meta);
        r := None;
      }
    }

    /** The body of `alter`, run on this engine. */
    method AlterHere(col: string, meta: FieldDef)
      modifies this
      ensures state == old(state)
      ensures operators == Altered(old(operators), col, meta)
    {
      operators := Queue(operators, "drop", Drop(col));
      operators := Queue(operators, "add", Add(col, meta));
    }

    function GetTableName(): string
    {
      table
    }

    /** The current state, which `reset` sets back to the fields. */
    function GetState(): Fields
      reads this
    {
      state
    }

    /** The schema engine that built this table engine. */
    function GetSchema(): SchemaEngine
    {
      schema
    }
  }

  /** A reset table engine, whatever was queued before, holds its fields as
      state and nothing queued on its four operators; altering it then
      queues exactly the drop and the add. */
  lemma ResetThenAlter(ops: Operators<Call>, col: string, meta: FieldDef)
    ensures Queued(Altered(TableOperators(ops), col, meta), "drop") == [Drop(col)]
    ensures Queued(Altered(TableOperators(ops), col, meta), "add") == [Add(col, meta)]
    ensures Queued(Altered(TableOperators(ops), col, meta), "add_fk") == []
    ensures Queued(Altered(TableOperators(ops), col, meta), "rename_to") == []
  {
    AlteredDropsThenAdds(TableOperators(ops), col, meta);
  }

  class SchemaEngine {
    /** The registered schema operators, by name, each as the name of the
        class installed under it; the base engine's registration is not
        part of this model. */
    var operators: Dict<string, string>
    /** The alter-table operator the table engines are appended to. */
    const alterTable: S.ChangeTableOperator<TableEngine>

    constructor ()
      ensures operators == Empty()
      ensures fresh(alterTable) && alterTable.schemas == []
    {
      operators := Empty();
      alterTable := new S.ChangeTableOperator();
    }

    /** `alter_table`: a new table engine bound to this schema, appended to
        the alter-table operator and returned. */
    method AlterTable(table: string, fields: Fields) returns (e: TableEngine)
      modifies alterTable
      ensures fresh(e) && e.schema == this && e.table == table && e.fields == fields
      ensures e.state == fields && e.operators == FreshTableOperators()
      ensures alterTable.schemas == old(alterTable.schemas) + [e]
    {
      e := new TableEngine(this, table, fields);
      alterTable.Set(e);
    }

    /** `reset`: the delete_table operator becomes the SQLite one, in the
        place it had, or last when there was none; the others stay. */
    method Reset()
      modifies this
      ensures operators.vals == old(operators).vals["delete_table" := "SQliteDeleteTableOperation"]
      ensures "delete_table" in old(operators).vals ==> operators.keys == old(operators).keys
    {
      operators := Put(operators, "delete_table", "SQliteDeleteTableOperation");
    }
  }
}
