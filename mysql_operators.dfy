/** The MySQL generation of the DDL operators, written with `str.format` and
    `to_str()`. Its `field_to_sql`, create-table and change-table operators
    render exactly what the generic ones do (`"{}".format(x)` and `"%s" % x`
    insert the same `str(x)`), so the model uses `SchemaOperators` for them.
    What differs is here: the alter-table frame is an operator of its own,
    the column operators render their clauses without it, and the drop-table
    operator passes its whole parameter dict to `format`. */
module MysqlOperators {
  import opened Py
  import opened Dicts
  import opened Meta
  import S = SchemaOperators

  /** `"DROP TABLE {};".format({'tables': ','.join(tables)})`: the dict is
      the one positional argument, so its own text is what gets inserted. */
  function DropTablesDictSql(tables: seq<string>): string {
    "DROP TABLE " + "{'tables': " + Repr(Join(",", tables)) + "}" + ";"
  }

  lemma NamesPlain(tables: seq<string>)
    requires forall i :: 0 <= i < |tables| ==> AllPlain(tables[i])
    ensures AllPlain(Join(",", tables))
  {
    assert AllPlain(",") by {
      assert ","[0] == ',';
    }
    JoinPlain(",", tables);
  }

  /** For table names without quotes, backslashes or control characters the
      statement reads `DROP TABLE {'tables': 'a,b'};`. */
  lemma DropTablesDictOfPlain(tables: seq<string>)
    ensures (forall i :: 0 <= i < |tables| ==> AllPlain(tables[i])) ==>
      DropTablesDictSql(tables) == "DROP TABLE " + "{'tables': " + "'" + Join(",", tables) + "'" + "}" + ";"
  {
    if forall i :: 0 <= i < |tables| ==> AllPlain(tables[i]) {
      var names := Join(",", tables);
      NamesPlain(tables);
      ReprOfPlain(names);
      var head := "DROP TABLE " + "{'tables': ";
      ConcatAssoc(head, "'" + names, "'");
      ConcatAssoc(head, "'", names);
    }
  }

  /** Whatever the tables, the statement is never the bare one the generic
      operator writes: the dict's text is longer than the names it holds. */
  lemma DropTablesDictNotBare(tables: seq<string>)
    ensures DropTablesDictSql(tables) != S.DropTablesSql(tables)
  {
    ReprLength(Join(",", tables));
  }

  class DeleteTableOperator {
    /** `_tables`: every table set, in order, repeats included. */
    var tables: seq<string>

    constructor ()
      ensures tables == []
    {
      tables := [];
    }

    method Set(table: string)
      modifies this
      ensures tables == old(tables) + [table]
    {
      tables := tables + [table];
    }

    function ToStr(): (r: string)
      reads this
      ensures (forall i :: 0 <= i < |tables| ==> AllPlain(tables[i])) ==>
        r == "DROP TABLE " + "{'tables': " + "'" + Join(",", tables) + "'" + "}" + ";"
      ensures r != S.DropTablesSql(tables)
    {
      DropTablesDictOfPlain(tables);
      DropTablesDictNotBare(tables);
      DropTablesDictSql(tables)
    }

    /** `bool(self._tables)`; a falsy operator would still write a
        statement, holding the dict with an empty string. */
    predicate IsNonEmpty()
      reads this
      ensures !IsNonEmpty() ==> ToStr() == "DROP TABLE " + "{'tables': " + "'" + "" + "'" + "}" + ";"
    {
      tables != []
    }
  }

  /** The `ALTER TABLE <t>` prefix, an operator of its own here. */
  class AlterTable {
    /** `_table`: None until `set`; the last table set wins. */
    var table: Option<string>

    constructor ()
      ensures table == None
    {
      table := None;
    }

    method Set(table: string)
      modifies this
      ensures this.table == Some(table)
    {
      this.table := Some(table);
    }

    /** Before any `set` the prefix reads `ALTER TABLE None`. */
    function ToStr(): (r: string)
      reads this
      ensures table.Some? ==> r == "ALTER TABLE " + table.value
      ensures table.None? ==> r == "ALTER TABLE None"
    {
      "ALTER TABLE " + FormatOption(table)
    }

    /** `bool(self._table)`: a table was set and its name is not empty. */
    predicate IsNonEmpty()
      reads this
    {
      table.Some? && table.value != ""
    }
  }

  /** The add operator, and with `verb` `CHANGE ` the alter operator: the
      comma-joined clauses alone, without the alter-table frame. */
  class AddOperator {
    const verb: string
    /** `_cols`: each column's definition, in first-insertion order. */
    var cols: Fields

    constructor ()
      ensures verb == "ADD " && cols == Empty()
    {
      verb := "ADD ";
      cols := Empty();
    }

    /** `AlterOperator()`. */
    constructor Change()
      ensures verb == "CHANGE " && cols == Empty()
    {
      verb := "CHANGE ";
      cols := Empty();
    }

    /** `set`: a column set again keeps its place and takes the new definition. */
    method Set(col: string, meta: FieldDef)
      modifies this
      ensures cols == Put(old(cols), col, meta)
    {
      cols := Put(cols, col, meta);
    }

    /** Rendering fails exactly when some column's definition lacks
        `data_type`, `default` or `null`. */
    function ToStr(): (r: Result<string>)
      reads this
      ensures r.Ok? <==> forall i :: 0 <= i < |cols.keys| ==> S.MetaFieldSql(cols.keys[i], cols.vals[cols.keys[i]]).Ok?
      ensures r == S.ColumnsBody(verb, cols)
    {
      var c := cols;
      S.ColumnClausesOk(verb, Items(c));
      S.ColumnsBody(verb, c)
    }

    /** `bool(self._cols)`: some column was set. */
    predicate IsNonEmpty()
      reads this
      ensures IsNonEmpty() <==> exists c :: c in cols.vals
    {
      DictKeys(cols);
      cols.keys != []
    }
  }

  class DropOperator {
    /** `_cols`: the columns to drop, in order, repeats included. */
    var cols: seq<string>

    constructor ()
      ensures cols == []
    {
      cols := [];
    }

    method Set(col: string)
      modifies this
      ensures cols == old(cols) + [col]
    {
      cols := cols + [col];
    }

    /** `to_str`: the drop clauses alone; nothing with no column. */
    function ToStr(): (r: string)
      reads this
      ensures cols == [] ==> r == ""
      ensures |cols| == 1 ==> r == "DROP " + cols[0]
    {
      S.DropBody(cols)
    }

    /** `bool(self._cols)`: exactly when there is something to write. */
    predicate IsNonEmpty()
      reads this
      ensures IsNonEmpty() <==> ToStr() != ""
    {
      S.DropBodyEmpty(cols);
      cols != []
    }
  }

  class RenameOperator {
    /** `_name`: None until `set`; the last name set wins. */
    var name: Option<string>

    constructor ()
      ensures name == None
    {
      name := None;
    }

    method Set(name: string)
      modifies this
      ensures this.name == Some(name)
    {
      this.name := Some(name);
    }

    /** `to_str`: `RENAME TO <name>`, `RENAME TO None` before a set. */
    function ToStr(): (r: string)
      reads this
      ensures name.Some? ==> r == "RENAME TO " + name.value
      ensures name.None? ==> r == "RENAME TO None"
    {
      "RENAME TO " + FormatOption(name)
    }

    /** `bool(self._name)`: a name was set and it is not empty. */
    predicate IsNonEmpty()
      reads this
    {
      name.Some? && name.value != ""
    }
  }

  class AddForeignKeyOperator {
    /** `_foreign_keys`: column to referenced table, in first-insertion order. */
    var foreignKeys: Dict<string, string>

    constructor ()
      ensures foreignKeys == Empty()
    {
      foreignKeys := Empty();
    }

    method Set(col: string, references: string)
      modifies this
      ensures foreignKeys == Put(old(foreignKeys), col, references)
    {
      foreignKeys := Put(foreignKeys, col, references);
    }

    /** `to_str`: the foreign-key clauses alone; nothing with no column. */
    function ToStr(): (r: string)
      reads this
      ensures foreignKeys.keys == [] ==> r == ""
      ensures |foreignKeys.keys| == 1 ==>
        r == "ADD FOREIGN KEY (" + foreignKeys.keys[0] + ") REFERENCES " + foreignKeys.vals[foreignKeys.keys[0]] + "(id)"
    {
      S.ForeignKeysBody(foreignKeys)
    }

    /** `bool(self._foreign_keys)`: some column was set. */
    predicate IsNonEmpty()
      reads this
      ensures IsNonEmpty() <==> exists c :: c in foreignKeys.vals
    {
      DictKeys(foreignKeys);
      foreignKeys.keys != []
    }
  }

  // ---------------------------------------------------------------------
  // The two generations side by side

  /** A generic alter-table operator's text is the MySQL `AlterTable` prefix
      for the same table, a newline, the MySQL operator's clauses and `;`. */
  function Framed(prefix: AlterTable, body: string): string
    reads prefix
  {
    prefix.ToStr() + "\n" + body + ";"
  }

  lemma AddFramed(g: S.AddOperator, m: AddOperator, prefix: AlterTable)
    requires g.verb == m.verb && g.cols == m.cols && prefix.table == Some(g.table)
    ensures g.ToStr().Ok? <==> m.ToStr().Ok?
    ensures g.ToStr().Ok? ==> g.ToStr().value == Framed(prefix, m.ToStr().value)
  {
  }

  lemma DropFramed(g: S.DropOperator, m: DropOperator, prefix: AlterTable)
    requires g.cols == m.cols && prefix.table == Some(g.table)
    ensures g.ToStr() == Framed(prefix, m.ToStr())
  {
  }

  /** Renaming: the two generations agree even before a name is set, both
      writing `RENAME TO None`. */
  lemma RenameFramed(g: S.RenameOperator, m: RenameOperator, prefix: AlterTable)
    requires g.name == m.name && prefix.table == Some(g.table)
    ensures g.ToStr() == Framed(prefix, m.ToStr())
    ensures m.name.None? ==> m.ToStr() == "RENAME TO None"
  {
  }

  lemma ForeignKeysFramed(g: S.AddForeignKeyOperator, m: AddForeignKeyOperator, prefix: AlterTable)
    requires g.foreignKeys == m.foreignKeys && prefix.table == Some(g.table)
    ensures g.ToStr() == Framed(prefix, m.ToStr())
  {
  }
}
