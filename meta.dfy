/** The descriptive records the migration layer diffs: a field definition is
    a dict of attribute name to value (`data_type`, `null`, `default`,
    `primary_key`, `references`, ...), a table meta is a dict whose
    `fields` entry maps field names to definitions, and a state maps table
    names to table metas. */
module Meta {
  import opened Py
  import opened Dicts

  type FieldDef = Dict<string, Value>

  type Fields = Dict<string, FieldDef>

  /** A table meta dict: its `fields` entry, when it has one, and its other
      entries, which the diff carries along but never reads. */
  datatype TableMeta = TableMeta(fields: Option<Fields>, attrs: Dict<string, Value>)

  /** `State.state`: table name to table meta. */
  type StateMap = Dict<string, TableMeta>

  /** `definition.get(key)`: a missing key reads as None. */
  function Param(definition: FieldDef, key: string): Value {
    GetOr(definition, key, PyNone)
  }

  /** `meta['fields']` of a meta that is known to have one, else no fields. */
  function FieldsOf(meta: TableMeta): Fields {
    if meta.fields.Some? then meta.fields.value else Empty()
  }
}
