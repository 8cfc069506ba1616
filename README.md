# A Dafny model of the p.a.f.mvc ORM core

p.a.f.mvc is a small Python MVC framework. Its ORM keeps a *state*: a dict
from table name to table meta. Comparing a previous state with the current
one yields a *migration*, which holds operations grouped by kind
(`CREATE_TABLE`, `DELETE_TABLE`, `CHANGE_TABLE`). A migration can be
persisted as JSON and restored, applied to a database schema engine, or
replayed onto a state. The schema engines turn operations into SQL text
through *operators*. An operator collects pending items through `set` and
renders them with `__str__` or `to_str`; it is truthy when it holds something.

This project models, in Dafny:

- **state diffing**, `StateComparer` and `State.mutate` (module `States`,
  `state.dfy`);
- **the migration container**, `Migration` (module `Migrations`,
  `migration.dfy`);
- **the generic DDL operators** and `field_to_sql` (module
  `SchemaOperators`, `schema_operators.dfy`);
- **the MySQL generation** of those operators (module `MysqlOperators`,
  `mysql_operators.dfy`);
- **the two SQLite engines**. The newer one is in module `SqliteBackend`
  (`sqlite_backend.dfy`), the older one in module `SqliteSchema`
  (`sqlite_schema.dfy`). Both share the table-operator registry of module
  `Registry` (`registry.dfy`);
- **the row-entry operators** `INSERT INTO`, `DELETE FROM` and
  `(…) VALUES (…)` (module `Entries`, `entries.dfy`).

Supporting modules:

- `Py` (`py.dfy`) holds the Python semantics the code relies on:
  - `None`/bool/int/str values and `==` (where `True == 1`);
  - `str()` and `str.format`;
  - `str.join`, including its TypeError on a non-str item;
  - `repr` of a str;
  - exceptions as `Result` values.
- `Dicts` (`dicts.dfy`) models insertion-ordered dicts. Assigning an
  existing key keeps its place; `del` keeps the order of the rest.
- `Meta` (`meta.dfy`) holds field definitions and table metas.

Objects whose fields the source updates are Dafny classes:

- `Migration`, `StateComparer` and `State`;
- every operator;
- the table and schema engines.

Method contracts tie each new state to a specification function. The
specification functions are then characterised by lemmas:

- **Diffing.** The diff creates exactly the new tables and alters exactly
  the shared ones. Within an alter it creates, changes and deletes exactly
  the right fields. Deletes come last, in the old order.
- **Migrations.** `from_entry` fails exactly when a key names no kind or a
  definition lacks `table`. `to_json` lists each kind once, in order.
  `apply` replays the operations kind by kind, in first-use order.
- **Operators.** Each operator's text is given for every input, error
  paths included.
- **SQLite alter.** An alter queues a drop and then an add, and renders as
  the drop's text, a newline, and the add's text.

Where the intended behaviour and the code differ, the model follows the code:

- `field_to_sql` without a default always writes `NULL`. Its test
  `not 'null'` is on a string constant, so it is never true, and
  `NOT NULL` is never chosen.
- A `CREATE TABLE` statement always has a comma between the columns and
  the constraints, even when there are no constraints.
- The diff adds an alter for every shared table, even when nothing changed.
- `apply` visits kinds in the order they were first used, not in a fixed
  create–alter–delete order.
- The MySQL `DROP TABLE` operator passes its whole parameter dict to
  `format`, so the statement holds the dict's text:
  `DROP TABLE {'tables': 'a,b'};`.

## Model

| member | source | states |
|---|---|---|
| Dicts.Put | orm/db/schema/operators.py:79 | assigning a key changes only that key's value; a new key goes last and an existing key keeps its place |
| Dicts.Remove | orm/migrations/state.py:25 | `del` drops exactly that key and keeps the order of the other keys |
| Dicts.FromPairsLast | orm/db/backends/sqlite/schema/__init__.py:15 | `dict(pairs)` has exactly the keys of the pairs, each with the value of the last pair that has it |
| Py.JoinItems | orm/db/entries/operators.py:32 | `str.join` succeeds iff every item is a str and then joins them; otherwise it raises the TypeError naming the first non-str item and its type |
| Py.ReprLength | orm/db/backends/mysql/schema/operators.py:81 | the text of a str value is at least two characters longer than the str (the quotes) |
| Py.ReprOfPlain | orm/db/backends/mysql/schema/operators.py:81 | a str without quotes, backslashes or control characters is written between single quotes, unchanged |
| Migrations.KindFromKey | orm/migrations/migration.py:7-11 | only the three kind keys name an operation class, and a kind's key maps back to that kind |
| Migrations.KindKeyInjective | orm/migrations/migration.py:7-11 | different kinds have different keys |
| Migrations.AddAllFromEmpty | orm/migrations/migration.py:26-36 | building a migration from nothing gives, per kind, exactly that kind's operations in the order added; a kind has a list iff one of its operations was added; kinds are listed in first-use order |
| Migrations.AddToGrouped | orm/migrations/migration.py:33-36 | adding an operation keeps every list non-empty and holding only its own kind |
| Migrations.AddAllGrouped | orm/migrations/migration.py:33-36 | adding any operations keeps the lists grouped by kind |
| Migrations.AddAllConcat | orm/migrations/migration.py:33-36 | adding `a` then `b` is the same as adding `a + b` |
| Migrations.AddAllTwo | orm/migrations/migration.py:26-36 | an instance of `AddAllFromEmpty`, stated for reuse: two operations of different kinds give two one-element lists, in the order added |
| Migrations.WithSubOfLast | orm/migrations/migration.py:49-51 | the handle of the alter just added reaches exactly that alter; adding a suboperation through it equals having added the alter with the longer list |
| Migrations.ApplyOrderKeepsKindOrder | orm/migrations/migration.py:59-69 | the operations of each kind are visited in the order they were added |
| Migrations.ApplyOrderIsFirstUse | orm/migrations/migration.py:59-69 | an instance of `AddAllFromEmpty` and `ApplyOrderKeepsKindOrder` that illustrates first-use order: a delete added before a create is visited before it |
| Migrations.NonEmptyIffHoldsOperation | orm/migrations/migration.py:71-72 | a migration is truthy iff it holds at least one operation |
| Migrations.Migration.IsNonEmpty | orm/migrations/migration.py:71-72 | `bool(self._operations)`: truthy iff some kind has a list (with `NonEmptyIffHoldsOperation`, iff some operation was added) |
| Migrations.MissingTableIff | orm/migrations/migration.py:22-24 | a kind's definitions fail iff one lacks `table`, and then with KeyError('table') |
| Migrations.RestoredAll | orm/migrations/migration.py:22-24 | when no definition lacks `table`, each one is restored, in order |
| Migrations.EntryErrorIff | orm/migrations/migration.py:17-24 | `from_entry` fails iff some key names no kind or some definition lacks `table` (both directions) |
| Migrations.FromEntryRejectsUnknownKind | orm/migrations/migration.py:19-20 | a key other than the three kind keys makes `from_entry` fail |
| Migrations.StripTable | orm/migrations/migration.py:23 | popping `table` from each definition keeps every other entry and the order |
| Migrations.FirstMissing | orm/migrations/migration.py:22-23 | the pops of a kind stop at its first definition without `table`, or run to the end |
| Migrations.FirstMissingIff | orm/migrations/migration.py:22-23 | the pops stop short of the end exactly when some definition lacks `table` |
| Migrations.PoppedOfComplete | orm/migrations/migration.py:22-23 | when every definition has `table`, what the pops leave is the fully stripped list |
| Migrations.DeconstructAll | orm/migrations/migration.py:56 | one deconstructed record per operation, in order |
| Migrations.JsonOfShape | orm/migrations/migration.py:53-57 | `to_json`'s mapping lists each kind's key once, in the migration's kind order, with the deconstruction of each of that kind's operations in order |
| Migrations.Migration.GetSameOperationsList | orm/migrations/migration.py:26-31 | returns the kind's list; a missing kind gets an empty list, registered last |
| Migrations.Migration.AddOperation | orm/migrations/migration.py:33-36 | appends the operation to its kind's list and keeps the grouping |
| Migrations.Migration.AddCreateTableOperation | orm/migrations/migration.py:41-43 | appends a create-table operation to the CREATE_TABLE list |
| Migrations.Migration.AddDeleteTableOperation | orm/migrations/migration.py:45-47 | appends a delete-table operation to the DELETE_TABLE list |
| Migrations.Migration.AddChangeTableOperation | orm/migrations/migration.py:49-51 | appends an alter with no suboperations to the CHANGE_TABLE list and returns its position |
| Migrations.Migration.AddSuboperation | orm/migrations/state.py:27-31 | appends a suboperation to the alter behind the handle; nothing else changes |
| Migrations.Migration.AddRestored | orm/migrations/migration.py:22-24 | adds one restored operation per definition up to the first without `table`, and returns that KeyError |
| Migrations.Migration.RestoreKey | orm/migrations/migration.py:18-24 | one key of `from_entry`: fails iff the key names no kind or one of its definitions lacks `table`; otherwise the loop goes on with that key fully popped; on failure the argument is left as the stop at that key leaves it |
| Migrations.ProgressStep | orm/migrations/migration.py:18-24 | a kind key whose definitions all have `table` adds their operations and is fully popped |
| Migrations.ProgressStopMissing | orm/migrations/migration.py:22-24 | a kind key with a definition lacking `table` ends `from_entry` with that KeyError, its list popped up to that definition |
| Migrations.ProgressStopKind | orm/migrations/migration.py:19-20 | a key naming no kind ends `from_entry` with the assertion, nothing popped from it |
| Migrations.PoppedOfDone | orm/migrations/migration.py:22-23 | the definitions popped so far followed by the untouched rest are what the pops leave |
| Migrations.Migration.FromEntry | orm/migrations/migration.py:17-24 | adds the operations of the entry in key order up to the first error, and fails iff a key names no kind or a definition lacks `table`; on success `table` is popped from every definition; on failure the keys before the failing one are fully popped, the failing one holds what the pops left (nothing popped for an unknown kind), and later keys are untouched |
| Migrations.Migration.ToJson | orm/migrations/migration.py:53-57 | builds `to_json`'s mapping (characterised by `JsonOfShape`) |
| Migrations.Migration.Apply | orm/migrations/migration.py:59-64 | replays every operation in visiting order onto the one schema engine, then makes one executor call, as a script, with its rendering |
| Migrations.Migration.ApplyToState | orm/migrations/migration.py:66-69 | replays every operation, in the same order, onto the state |
| States.FieldChangedIgnoresOldOnly | orm/migrations/state.py:10-14 | only the new definition's parameters are compared; a parameter only the old one has does not matter |
| States.FieldChangedPythonEquality | orm/migrations/state.py:12 | a parameter that is None in the new definition and missing from the old one is unchanged; so is `True` against `1` |
| States.FieldUnchangedSelf | orm/migrations/state.py:10-14 | a definition compared with itself has not changed |
| States.SubsForMembers | orm/migrations/state.py:23-29 | a field of the new table gets a create if it is new, a change if its definition changed, and nothing else |
| States.FieldSubopsCreates | orm/migrations/state.py:23-27 | a field gets a create iff only the new table has it, and the create carries its new definition |
| States.FieldSubopsChanges | orm/migrations/state.py:28-29 | a field gets a change iff both tables have it and its definition changed; the change carries the new definition |
| States.FieldSubopsDeletes | orm/migrations/state.py:30-31 | a field gets a delete iff only the old table has it |
| States.FieldSubopsSelf | orm/migrations/state.py:16-31 | comparing a table's fields with themselves gives no suboperation |
| States.ComparableByIndex | orm/migrations/state.py:33-42 | the comparison succeeds iff every shared table has `fields` on both sides, taken table by table in order |
| States.EmittedCreates | orm/migrations/state.py:35-39 | a create is added iff the table is only in the new state, and it carries the new meta; with `EmittedOnePerTable` there is exactly one per new table |
| States.EmittedAlters | orm/migrations/state.py:40-42 | an alter is added iff the table is in both states, and it carries the old meta and the field differences; with `EmittedOnePerTable` there is exactly one per shared table |
| States.EmittedOnePerTable | orm/migrations/state.py:35-42 | the first operations are one per table of the new state, at that table's position, each naming a different table |
| States.EmittedDeletes | orm/migrations/state.py:43-44 | the deletes are those of the tables only the old state has, in the old state's order |
| States.DroppedTables | orm/migrations/state.py:34-44 | the tables left in the copy are exactly those only the old state has |
| States.EmittedDeletesLast | orm/migrations/state.py:33-44 | every delete comes after every create and alter |
| States.CompareSelf | orm/migrations/state.py:33-49 | comparing a state with itself gives one empty alter per table, in order |
| States.CopyStep | orm/migrations/state.py:34-39 | `del copy[key]` fails exactly for a key the original does not have; either way the copy is the original minus the keys seen so far |
| States.StateComparer.FieldCompare | orm/migrations/state.py:10-14 | adds one change with the new definition iff some parameter of the new definition differs; otherwise adds nothing |
| States.StateComparer.DeepCompare | orm/migrations/state.py:16-31 | raises KeyError('fields') before adding anything when either meta lacks `fields`; otherwise adds one alter with all the field differences |
| States.StateComparer.AddFieldTargets | orm/migrations/state.py:23-29 | the loop over the new fields adds their creates and changes in order and leaves the old fields minus the new ones |
| States.StateComparer.DeepCompareField | orm/migrations/state.py:24-29 | one field: a create when it is new, otherwise the field comparison |
| States.StateComparer.AddFieldDeletes | orm/migrations/state.py:30-31 | a delete per leftover field, in order |
| States.StateComparer.BaseCompare | orm/migrations/state.py:33-44 | succeeds iff every shared table has `fields`, and then adds the operations of the diff after those already there |
| States.StateComparer.BaseCompareTables | orm/migrations/state.py:35-42 | the loop over the new tables stops at the first shared table without `fields`; otherwise it adds each table's operation in order |
| States.StateComparer.BaseCompareTable | orm/migrations/state.py:36-42 | one table: a create when it is new, the deep comparison when it is shared |
| States.StateComparer.AddTableDeletes | orm/migrations/state.py:43-44 | a delete per leftover table, in order |
| States.StateComparer.Compare | orm/migrations/state.py:46-49 | a fresh migration holding exactly the diff, or the KeyError of a table without `fields` |
| States.State.Mutate | orm/migrations/state.py:62-65 | restores the entry's migration and replays it onto the state; a rejected entry leaves the state unchanged |
| SchemaOperators.FieldToSql | orm/db/schema/operators.py:4-15 | `<field> <type> DEFAULT <default>` when a default is given, and otherwise `<field> <type> NULL` whatever `null` says |
| SchemaOperators.Subscript | orm/db/schema/operators.py:44 | `meta[key]` gives the value, or KeyError(key) when the key is missing |
| SchemaOperators.MetaFieldSql | orm/db/schema/operators.py:43-44 | fails iff `data_type`, `default` or `null` is missing, with the KeyError of the first missing one in that order |
| SchemaOperators.ColumnClausesOk | orm/db/schema/operators.py:149-154 | the column clauses succeed iff every definition is complete, and then there is one clause per column, in order |
| SchemaOperators.ColumnClausesFirstError | orm/db/schema/operators.py:152-154 | a failure is the error of the first incomplete column |
| SchemaOperators.References | orm/db/schema/operators.py:55-57 | the collected foreign keys are fields with a truthy `references`, each with that value |
| SchemaOperators.PrepareConstraints | orm/db/schema/operators.py:50-63 | the loop renders the constraints: a foreign key per referencing field, then the primary key |
| SchemaOperators.ReferencesInOrder | orm/db/schema/operators.py:55-60 | the foreign keys are exactly the referencing fields, in field order |
| SchemaOperators.PrimaryKeyIsLast | orm/db/schema/operators.py:58-62 | the primary key is the last field marked primary, and there is none iff no field is marked |
| SchemaOperators.TableQueryWithoutConstraints | orm/db/schema/operators.py:65-76 | without constraints the definition still ends in a comma |
| SchemaOperators.TableQueriesOk | orm/db/schema/operators.py:81-83 | every table gets its statement, in order, unless one of them fails |
| SchemaOperators.CreateTablesNewTable | orm/db/schema/operators.py:78-83 | a new table's statement goes on a new line after the others |
| SchemaOperators.CreateTableOperator.Set | orm/db/schema/operators.py:78-79 | a table set again keeps its place and takes the new fields |
| SchemaOperators.CreateTableOperator.ToStr | orm/db/schema/operators.py:81-83 | fails exactly when some table's statement fails; with no table the text is empty |
| SchemaOperators.CreateTableOperator.IsNonEmpty | orm/db/schema/operators.py:85-86 | truthy iff some table was set |
| SchemaOperators.DeleteTableOperator.Set | orm/db/schema/operators.py:94-95 | every table set is kept, in order, repeats included |
| SchemaOperators.DeleteTableOperator.ToStr | orm/db/schema/operators.py:97-104 | `DROP TABLE <t>;` for one table and `DROP TABLE ;` for none (with `DropTablesSnoc` for more) |
| SchemaOperators.DeleteTableOperator.IsNonEmpty | orm/db/schema/operators.py:106-107 | a falsy operator would write the empty statement `DROP TABLE ;` |
| SchemaOperators.DropTablesSnoc | orm/db/schema/operators.py:97-104 | the tables are listed in the order set, comma-separated |
| SchemaOperators.ChangeTableOperator.Set | orm/db/schema/operators.py:113-114 | every schema set is kept, in order |
| SchemaOperators.ChangeTableOperator.ToStr | orm/db/schema/operators.py:116-117 | nothing for no schema, and the schema's own text for one (with `ChangeTableSnoc` for more) |
| SchemaOperators.ChangeTableOperator.IsNonEmpty | orm/db/schema/operators.py:119-120 | truthy iff some schema was set |
| SchemaOperators.ChangeTableSnoc | orm/db/schema/operators.py:116-117 | the schema set last is rendered last, on a line of its own |
| SchemaOperators.ColumnsBodyNewColumn | orm/db/schema/operators.py:146-154 | a column set for the first time gets the last clause |
| SchemaOperators.AddOperator.ToStr | orm/db/schema/operators.py:133-154 | fails exactly when the clauses fail; otherwise the clauses inside `ALTER TABLE <t>\n…;` |
| SchemaOperators.AddOperator.Set | orm/db/schema/operators.py:146-147 | a column set again keeps its place and takes the new definition |
| SchemaOperators.AddOperator.IsNonEmpty | orm/db/schema/operators.py:156-157 | truthy iff some column was set |
| SchemaOperators.DropBodySnoc | orm/db/schema/operators.py:166-174 | each column set adds `,DROP <c>` at the end |
| SchemaOperators.DropOperator.Set | orm/db/schema/operators.py:166-167 | every column set is kept, in order |
| SchemaOperators.DropOperator.ToStr | orm/db/schema/operators.py:169-174 | the frame `ALTER TABLE <t>\n…;` around the drops: empty with no column, `DROP <c>` for one (with `DropBodySnoc` for more) |
| SchemaOperators.DropOperator.IsNonEmpty | orm/db/schema/operators.py:176-177 | truthy exactly when there is a drop clause to write |
| SchemaOperators.DropBodyEmpty | orm/db/schema/operators.py:172-177 | the drop clauses are empty iff no column was set |
| SchemaOperators.RenameOperator.Set | orm/db/schema/operators.py:189-190 | the last name set wins |
| SchemaOperators.RenameOperator.ToStr | orm/db/schema/operators.py:192-193 | `ALTER TABLE <t>\nRENAME TO <name>;`, with `None` before a name is set |
| SchemaOperators.RenameOperator.IsNonEmpty | orm/db/schema/operators.py:195-196 | truthy iff a non-empty name was set |
| SchemaOperators.ForeignKeysBodyReplace | orm/db/schema/operators.py:205-216 | setting a column's reference again replaces it in place |
| SchemaOperators.AddForeignKeyOperator.Set | orm/db/schema/operators.py:205-206 | a column set again keeps its place and takes the new table |
| SchemaOperators.AddForeignKeyOperator.ToStr | orm/db/schema/operators.py:208-216 | the frame around the foreign keys: empty with no column, `ADD FOREIGN KEY (<c>) REFERENCES <t>(id)` for one (with `ForeignKeysBodyReplace` for a repeated column) |
| SchemaOperators.AddForeignKeyOperator.IsNonEmpty | orm/db/schema/operators.py:218-219 | truthy iff some column was set |
| MysqlOperators.DropTablesDictOfPlain | orm/db/backends/mysql/schema/operators.py:75-81 | for plain table names the statement is `DROP TABLE {'tables': '<names>'};` |
| MysqlOperators.DropTablesDictNotBare | orm/db/backends/mysql/schema/operators.py:75-81 | the statement is never the generic `DROP TABLE <names>;` |
| MysqlOperators.DeleteTableOperator.ToStr | orm/db/backends/mysql/schema/operators.py:80-81 | gives the dict-text statement for plain names, and never the bare statement |
| MysqlOperators.DeleteTableOperator.Set | orm/db/backends/mysql/schema/operators.py:72-73 | every table set is kept, in order |
| MysqlOperators.DeleteTableOperator.IsNonEmpty | orm/db/backends/mysql/schema/operators.py:83-84 | a falsy operator would still write a statement, `DROP TABLE {'tables': ''};` |
| MysqlOperators.AlterTable.ToStr | orm/db/backends/mysql/schema/operators.py:108-109 | `ALTER TABLE <t>`, or `ALTER TABLE None` before a table is set |
| MysqlOperators.AlterTable.Set | orm/db/backends/mysql/schema/operators.py:105-106 | the last table set wins |
| MysqlOperators.AlterTable.IsNonEmpty | orm/db/backends/mysql/schema/operators.py:111-112 | truthy iff a non-empty table name was set |
| MysqlOperators.AddOperator.ToStr | orm/db/backends/mysql/schema/operators.py:123-127 | fails iff some column's definition is incomplete; the clauses are those of the generic operator, without the frame |
| MysqlOperators.AddOperator.Set | orm/db/backends/mysql/schema/operators.py:120-121 | a column set again keeps its place and takes the new definition |
| MysqlOperators.AddOperator.IsNonEmpty | orm/db/backends/mysql/schema/operators.py:129-130 | truthy iff some column was set |
| MysqlOperators.DropOperator.Set | orm/db/backends/mysql/schema/operators.py:138-139 | every column set is kept, in order |
| MysqlOperators.DropOperator.ToStr | orm/db/backends/mysql/schema/operators.py:141-145 | the drop clauses alone: nothing with no column, `DROP <c>` for one |
| MysqlOperators.DropOperator.IsNonEmpty | orm/db/backends/mysql/schema/operators.py:147-148 | truthy exactly when the text is not empty |
| MysqlOperators.RenameOperator.Set | orm/db/backends/mysql/schema/operators.py:159-160 | the last name set wins |
| MysqlOperators.RenameOperator.ToStr | orm/db/backends/mysql/schema/operators.py:162-163 | `RENAME TO <name>`, or `RENAME TO None` before a name is set |
| MysqlOperators.RenameOperator.IsNonEmpty | orm/db/backends/mysql/schema/operators.py:165-166 | truthy iff a non-empty name was set |
| MysqlOperators.AddForeignKeyOperator.Set | orm/db/backends/mysql/schema/operators.py:174-175 | a column set again keeps its place and takes the new table |
| MysqlOperators.AddForeignKeyOperator.ToStr | orm/db/backends/mysql/schema/operators.py:177-181 | the foreign-key clauses alone: nothing with no column, `ADD FOREIGN KEY (<c>) REFERENCES <t>(id)` for one |
| MysqlOperators.AddForeignKeyOperator.IsNonEmpty | orm/db/backends/mysql/schema/operators.py:183-184 | truthy iff some column was set |
| MysqlOperators.AddFramed | orm/db/backends/mysql/schema/operators.py:114-127 | the generic add operator's text is the MySQL prefix, a newline, the MySQL clauses and `;`, and both fail on the same columns |
| MysqlOperators.DropFramed | orm/db/backends/mysql/schema/operators.py:132-145 | the same for the drop operator |
| MysqlOperators.RenameFramed | orm/db/backends/mysql/schema/operators.py:153-163 | the same for renaming; before a name is set both write `RENAME TO None` |
| MysqlOperators.ForeignKeysFramed | orm/db/backends/mysql/schema/operators.py:168-181 | the same for foreign keys |
| Registry.Register | orm/db/sqlite/schema/__init__.py:29-32 | registering a name installs an operator with nothing queued; a new name goes last and a known one keeps its place |
| Registry.FreshTableOperatorsShape | orm/db/backends/sqlite/schema/__init__.py:17-21 | a new table engine lists drop, add, add_fk and rename_to, in that order, with nothing queued |
| Registry.Queue | orm/db/backends/sqlite/schema/__init__.py:25-26 | a call goes after those already on its operator; other operators keep their calls |
| Registry.AppliedMembers | orm/db/backends/sqlite/schema/__init__.py:41-48 | a rendering is collected iff it belongs to an operator that holds something; there are no more renderings than operators |
| Registry.AppliedNone | orm/db/backends/sqlite/schema/__init__.py:41-48 | when no operator holds anything, nothing is rendered |
| Registry.AppliedAll | orm/db/backends/sqlite/schema/__init__.py:41-48 | when every operator holds something, each is rendered, in registry order |
| SqliteBackend.PrimaryKeySchema | orm/db/backends/sqlite/schema/__init__.py:7-10 | a SQLite primary key always has data type `INTEGER`; the rest is kept |
| SqliteBackend.StateOfFields | orm/db/backends/sqlite/schema/__init__.py:15 | the state knows exactly the field names, each with the last field of that name |
| SqliteBackend.Altered | orm/db/backends/sqlite/schema/__init__.py:23-26 | an alter fails with KeyError(name) iff the state does not know the field's name |
| SqliteBackend.AlteredDropsThenAdds | orm/db/backends/sqlite/schema/__init__.py:23-26 | an alter queues one drop, of the field as the state holds it, and one add, of the new field; nothing else changes |
| SqliteBackend.FreshAlteredItems | orm/db/backends/sqlite/schema/__init__.py:17-26 | after one alter on a new engine the registry is drop, add, add_fk, rename_to, holding the drop and the add |
| SqliteBackend.FreshAlterRendering | orm/db/backends/sqlite/schema/__init__.py:41-48 | that engine renders as the drop's text, a newline, and the add's text |
| SqliteBackend.SqliteTableEngine.RegisterOperators | orm/db/backends/sqlite/schema/__init__.py:17-21 | registers fresh drop, add, add_fk and rename_to operators |
| SqliteBackend.SqliteTableEngine.AlterHere | orm/db/backends/sqlite/schema/__init__.py:24-26 | the alter itself, run on this engine, including its KeyError |
| SqliteBackend.SqliteTableEngine.Alter | orm/db/schema/operators.py:17-24 | without `instantly` the alter is queued here; with it, it is queued on the copy, this engine is unchanged, and the copy's rendering is returned |
| SqliteBackend.SqliteTableEngine.ToStr | orm/db/backends/sqlite/schema/__init__.py:41-48 | one line per operator that holds something, in registry order |
| SqliteBackend.SqliteTableEngine.Fields | orm/db/backends/sqlite/schema/__init__.py:28-30 | the `fields` property: the fields the engine was built with |
| SqliteBackend.SqliteTableEngine.GetTableName | orm/db/backends/sqlite/schema/__init__.py:35-36 | the table the engine was built for |
| SqliteBackend.SqliteTableEngine.GetState | orm/db/backends/sqlite/schema/__init__.py:38-39 | the current state, field name to field schema |
| SqliteBackend.SqliteSchemaEngine.AlterTable | orm/db/backends/sqlite/schema/__init__.py:61-64 | returns a new table engine bound to this schema, appended to the alter-table operator |
| SqliteBackend.GetSchema | orm/db/backends/sqlite/schema/__init__.py:32-33 | returns a new schema engine, not the table engine's own |
| SqliteSchema.AlteredDropsThenAdds | orm/db/sqlite/schema/__init__.py:10-13 | an alter queues a drop of the column and then an add with its new definition; nothing else changes |
| SqliteSchema.AlteredTwice | orm/db/sqlite/schema/__init__.py:10-13 | two alters queue two drop-add pairs, in call order |
| SqliteSchema.ResetThenAlter | orm/db/sqlite/schema/__init__.py:24-32 | after a reset, an alter leaves exactly its drop and its add queued |
| SqliteSchema.TableEngine.Reset | orm/db/sqlite/schema/__init__.py:24-32 | the state goes back to the fields, and the four operators are replaced by fresh ones in their places |
| SqliteSchema.TableEngine.Alter | orm/db/schema/operators.py:17-24 | without `instantly` the alter is queued here; with it, it is queued on the copy and the copy's text is returned |
| SqliteSchema.TableEngine.AlterHere | orm/db/sqlite/schema/__init__.py:11-13 | the alter itself, run on this engine |
| SqliteSchema.TableEngine.GetTableName | orm/db/sqlite/schema/__init__.py:15-16 | the table the engine was built for |
| SqliteSchema.TableEngine.GetState | orm/db/sqlite/schema/__init__.py:18-19 | the current state, which a reset sets back to the fields |
| SqliteSchema.TableEngine.GetSchema | orm/db/sqlite/schema/__init__.py:21-22 | the schema engine that built this table engine |
| SqliteSchema.SchemaEngine.AlterTable | orm/db/sqlite/schema/__init__.py:35-38 | returns a new table engine bound to this schema, appended to the alter-table operator |
| SqliteSchema.SchemaEngine.Reset | orm/db/sqlite/schema/__init__.py:40-43 | installs the SQLite delete-table operator, in place; the other operators stay |
| Entries.InsertIntoOperator.ToStr | orm/db/entries/operators.py:12-13 | `INSERT INTO <t>`, or `DELETE FROM <t>`; `None` before a table is set |
| Entries.InsertIntoOperator.Set | orm/db/entries/operators.py:9-10 | the last table set wins |
| Entries.InsertIntoOperator.IsNonEmpty | orm/db/entries/operators.py:15-16 | truthy iff a non-empty table name was set |
| Entries.Item | orm/db/entries/operators.py:32 | an int, or a bool, is passed on as it is; any other value is written in double quotes |
| Entries.ValueItems | orm/db/entries/operators.py:32 | one item per field, in field order |
| Entries.QuotedValues | orm/db/entries/operators.py:32 | the quoted text of each value, in field order |
| Entries.ValuesSqlSpec | orm/db/entries/operators.py:28-33 | rendering fails iff some value is an int or a bool, with the TypeError of the first one; otherwise `(<fields>) VALUES (<quoted values>)` in field order |
| Entries.InsertValuesOperator.Set | orm/db/entries/operators.py:25-26 | a field set again keeps its place and takes the new value |
| Entries.InsertValuesOperator.ToStr | orm/db/entries/operators.py:28-33 | fails exactly when some value is an int or a bool; otherwise `(<fields>) VALUES (<quoted values>)` in field order |
| Entries.InsertValuesOperator.IsNonEmpty | orm/db/entries/operators.py:35-36 | truthy iff some field was set |
| Entries.QuotedValuesNewField | orm/db/entries/operators.py:25-32 | a new field with a non-int value keeps the values renderable, and its quoted value goes last |
| Entries.ValuesSqlNewField | orm/db/entries/operators.py:25-33 | a new field goes last on both sides of `VALUES` |
| Migrations.JsonOf | orm/migrations/migration.py:54-56 | after n rounds of the loop the mapping holds exactly the keys of the first n kinds, in order |
| Migrations.JsonOfAt | orm/migrations/migration.py:55-56 | each of those keys maps to the deconstruction of its kind's operations |
| Registry.AppliedFirstTwo | orm/db/backends/sqlite/schema/__init__.py:41-48 | an instance of `AppliedMembers` and `AppliedAll`, used for the alter rendering: four operators of which only the first two hold something render as those two on two lines |
| States.TablesDoneStep | orm/migrations/state.py:35-42 | one round of the loop over the new tables adds that table's operation and removes it from the copy |
| Dicts.Items | orm/db/backends/sqlite/schema/__init__.py:44 | a dict's items are its keys in order, each with its value |
| Dicts.ItemsPutNew | orm/db/schema/operators.py:79 | a new key adds one item at the end |
| Dicts.RemoveAll | orm/migrations/state.py:34-37 | deleting a set of keys keeps exactly the other keys, in their order |
| Migrations.Migration.constructor | orm/migrations/migration.py:14-15 | a new migration holds no operations |
| States.StateComparer.constructor | orm/migrations/state.py:6-8 | the comparer is bound to the state object it was made for |
| States.State.constructor | orm/migrations/state.py:52-55 | a new state is empty and its comparer is bound to it |
| Entries.InsertIntoOperator.constructor | orm/db/entries/operators.py:4-7 | the insert-into head starts with no table |
| Entries.InsertIntoOperator.DeleteFrom | orm/db/entries/operators.py:38-39 | the delete-from head differs only in its verb |
| Entries.InsertValuesOperator.constructor | orm/db/entries/operators.py:22-23 | no field set yet |
| SchemaOperators.CreateTableOperator.constructor | orm/db/schema/operators.py:40-41 | no table set yet |
| SchemaOperators.DeleteTableOperator.constructor | orm/db/schema/operators.py:91-92 | no table set yet |
| SchemaOperators.ChangeTableOperator.constructor | orm/db/schema/operators.py:110-111 | no schema set yet |
| SchemaOperators.AddOperator.constructor | orm/db/schema/operators.py:139-144 | an add operator for the table, with no column set |
| SchemaOperators.AddOperator.Change | orm/db/schema/operators.py:179-180 | the alter operator is the add operator with the verb `CHANGE` |
| SchemaOperators.DropOperator.constructor | orm/db/schema/operators.py:159-164 | a drop operator for the table, with no column set |
| SchemaOperators.RenameOperator.constructor | orm/db/schema/operators.py:182-187 | a rename operator for the table, with no name set |
| SchemaOperators.AddForeignKeyOperator.constructor | orm/db/schema/operators.py:198-203 | a foreign-key operator for the table, with no column set |
| MysqlOperators.DeleteTableOperator.constructor | orm/db/backends/mysql/schema/operators.py:69-70 | no table set yet |
| MysqlOperators.AlterTable.constructor | orm/db/backends/mysql/schema/operators.py:102-103 | no table set yet |
| MysqlOperators.AddOperator.constructor | orm/db/backends/mysql/schema/operators.py:114-118 | no column set yet |
| MysqlOperators.AddOperator.Change | orm/db/backends/mysql/schema/operators.py:150-151 | the alter operator is the add operator with the verb `CHANGE` |
| MysqlOperators.DropOperator.constructor | orm/db/backends/mysql/schema/operators.py:135-136 | no column set yet |
| MysqlOperators.RenameOperator.constructor | orm/db/backends/mysql/schema/operators.py:156-157 | no name set yet |
| MysqlOperators.AddForeignKeyOperator.constructor | orm/db/backends/mysql/schema/operators.py:171-172 | no column set yet |
| SqliteBackend.SqliteTableEngine.constructor | orm/db/backends/sqlite/schema/__init__.py:13-15 | the engine stores its arguments, registers its four operators and builds the state from the fields |
| SqliteBackend.SqliteSchemaEngine.constructor | orm/db/backends/sqlite/schema/__init__.py:56-59 | registers delete_table, create_table and alter_table, the last two with nothing set |
| SqliteSchema.TableEngine.constructor | orm/db/sqlite/schema/__init__.py:6-8 | the engine stores its arguments and starts reset |

## Left out

- The base classes are not part of this model: `Operator`, `OperatorRegistry`, `SchemaEngine`, `BaseTableSchemaEngine` and `TableSchemaEngine`. Their constructors are taken to store their arguments and register the operators.
- The SQLite operator classes (`SQLiteDropOperator` and the others) are not part of this model. What each renders, and whether it is truthy, are the parameters `render`/`isSet` (backends engine) and `show` (older engine).
- `mutate_disposer_state` belongs to those operator classes and is left out of `SqliteTableEngine.ToStr`.
- The operations module (`CreateTableOperation` and the others, `deconstruct`, `apply`, `apply_to_state`) is not part of this model. Operations are tagged values, and their behaviour is a function parameter.
- The alter-table operation returned by `add_change_table_operation` is modelled as its position in the CHANGE_TABLE list.
- `json.dumps` in `to_json` is left out: the model stops at the mapping it serialises.
- The executor, the database, `App` and `State.build` (which reads the models) are outside the core. The executor is represented by the list of calls `apply` makes.
- `self.copy()` in `operator_delegating_metod` is a caller-supplied engine distinct from `self`. `str()` of the older engine is the `show` parameter.
- SqliteBackend.SqliteTableEngine.Alter: with `instantly`, `str(schema)` is taken to be the engine's own `to_str()`. The base `TableSchemaEngine.__str__` that would say so is not part of this model.
- SqliteSchema.TableEngine.Reset: `super().reset()` of `BaseTableSchemaEngine`, which is not part of this model, is taken to leave the state and the registry as they are. Only what the SQLite `reset` itself assigns is modelled, so "the four operators keep their places" rests on that assumption.
- SqliteSchema.SchemaEngine.Reset: `super().reset()` of `SchemaEngine`, which is not part of this model, is taken to leave the registry as it is. Only the assignment of the SQLite delete-table operator is modelled, so "the other operators stay" rests on that assumption.
- SqliteSchema.SchemaEngine.AlterTable: the `alter_table` operator that `self._operators['alter_table']` reads is registered by the base `SchemaEngine`, which is not part of this model. It is the field `alterTable` here, and the registry dict `operators` starts empty. The same holds for `SqliteBackend.SqliteSchemaEngine`, whose operators are fields.
- Aliasing between objects is not modelled: the dicts and lists that the source shares between objects are copied values here. In particular, `from_entry` popping `table` from the caller's dict shows up only as the returned `consumed` entry.
- SchemaOperators.FieldToSql: later `%`-format errors on exotic values are not modelled. `Format` gives `str()` for None, bools, ints and strs only.
- Py.Repr: non-ASCII characters are passed through as they are, and Python's rule of switching to double quotes is followed only for quote characters.
- The MySQL `field_to_sql`, `CreateTableOperator` and `ChangeTableOperator` are represented by the generic ones, whose text they equal: `"{}".format(x)` and `"%s" % x` both insert `str(x)`.
- The SQLite schema engines' field, foreign-key and many-to-many schema classes (`MySQLFieldSchema` and the others) are not part of this model. A field schema carries only its name, its data type and its other attributes.
