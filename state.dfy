/** The migration state and the diff between two states. A state maps each
    table name to its table meta; comparing a previous state with the
    current one yields a migration: a create for each table only the
    current state has, an alter for each table both have (carrying the
    field-level differences, possibly none), and a delete for each table
    only the previous state has. */
module States {
  import opened Py
  import opened Dicts
  import opened Meta
  import opened Migrations

  // ---------------------------------------------------------------------
  // Field level

  /** `_field_compare`'s test: some parameter of the new definition reads
      differently (Python `!=`) in the old one, where a missing parameter
      reads as None. Parameters only the old definition has are not
      looked at. */
  ghost predicate FieldChanged(from: FieldDef, to: FieldDef) {
    exists i :: 0 <= i < |to.keys| && !Eq(Param(from, to.keys[i]), to.vals[to.keys[i]])
  }

  /** What `_deep_compare` adds for the new table's field `f`. */
  ghost function SubsFor(from: Fields, to: Fields, f: string): seq<SubOperation>
    requires f in to.vals
  {
    if f !in from.vals then [CreateField(f, to.vals[f])]
    else if FieldChanged(from.vals[f], to.vals[f]) then [ChangeField(f, to.vals[f])]
    else []
  }

  /** The suboperations for the new table's first `n` fields, in order. */
  ghost function TargetSubs(from: Fields, to: Fields, n: nat): seq<SubOperation>
    requires n <= |to.keys|
    decreases n
  {
    if n == 0 then [] else TargetSubs(from, to, n - 1) + SubsFor(from, to, to.keys[n - 1])
  }

  lemma TargetSubsSnoc(from: Fields, to: Fields, n: nat)
    requires n < |to.keys|
    ensures TargetSubs(from, to, n + 1) == TargetSubs(from, to, n) + SubsFor(from, to, to.keys[n])
  {
  }

  lemma AppendNothing<T>(s: seq<T>)
    ensures s + [] == s
  {
  }

  function DeleteSubs(fields: seq<string>): (r: seq<SubOperation>)
    ensures |r| == |fields| && forall i :: 0 <= i < |fields| ==> r[i] == DeleteField(fields[i])
  {
    seq(|fields|, i requires 0 <= i < |fields| => DeleteField(fields[i]))
  }

  lemma DeleteSubsSnoc(fields: seq<string>, j: nat)
    requires j < |fields|
    ensures DeleteSubs(fields[..j + 1]) == DeleteSubs(fields[..j]) + [DeleteField(fields[j])]
  {
  }

  /** The suboperations of the alter for a table whose fields go from
      `from` to `to`: the new fields' creates and changes in the new order,
      then a delete for each dropped field in the old order. */
  ghost function FieldSubops(from: Fields, to: Fields): seq<SubOperation> {
    TargetSubs(from, to, |to.keys|) + DeleteSubs(Keep(from.keys, to.vals.Keys))
  }

  // ---------------------------------------------------------------------
  // Table level

  /** Comparing the table `t` of the new state does not fail: if the old
      state has it too, both metas have `fields`. */
  ghost predicate HasFields(from: StateMap, to: StateMap, t: string)
    requires t in to.vals
  {
    t in from.vals ==> from.vals[t].fields.Some? && to.vals[t].fields.Some?
  }

  /** `compare` does not raise: every shared table has `fields` on both sides. */
  ghost predicate Comparable(from: StateMap, to: StateMap) {
    forall t :: t in to.vals ==> HasFields(from, to, t)
  }

  /** Checking the new state's tables one by one, in order, decides it. */
  lemma ComparableByIndex(from: StateMap, to: StateMap)
    ensures Comparable(from, to) <==> forall i :: 0 <= i < |to.keys| ==> HasFields(from, to, to.keys[i])
  {
    if forall i :: 0 <= i < |to.keys| ==> HasFields(from, to, to.keys[i]) {
      DictKeys(to);
      forall t | t in to.vals ensures HasFields(from, to, t) {
        var i :| 0 <= i < |to.keys| && to.keys[i] == t;
      }
    }
  }

  /** The operation `_base_compare` adds for the new state's table `t`. */
  ghost function OpFor(from: StateMap, to: StateMap, t: string): Operation
    requires t in to.vals && HasFields(from, to, t)
  {
    if t in from.vals then
      AlterTableOperation(t, from.vals[t], FieldSubops(from.vals[t].fields.value, to.vals[t].fields.value))
    else CreateTableOperation(t, to.vals[t])
  }

  /** The operations for the new state's first `n` tables, in order. */
  ghost function TargetOps(from: StateMap, to: StateMap, n: nat): (r: seq<Operation>)
    requires n <= |to.keys| && forall i :: 0 <= i < n ==> HasFields(from, to, to.keys[i])
    ensures |r| == n && forall i :: 0 <= i < n ==> r[i] == OpFor(from, to, to.keys[i])
    decreases n
  {
    if n == 0 then [] else TargetOps(from, to, n - 1) + [OpFor(from, to, to.keys[n - 1])]
  }

  lemma TargetOpsSnoc(from: StateMap, to: StateMap, n: nat)
    requires n < |to.keys| && forall i :: 0 <= i <= n ==> HasFields(from, to, to.keys[i])
    ensures TargetOps(from, to, n + 1) == TargetOps(from, to, n) + [OpFor(from, to, to.keys[n])]
  {
  }

  function DeleteOps(tables: seq<string>): (r: seq<Operation>)
    ensures |r| == |tables| && forall i :: 0 <= i < |tables| ==> r[i] == DeleteTableOperation(tables[i])
  {
    seq(|tables|, i requires 0 <= i < |tables| => DeleteTableOperation(tables[i]))
  }

  lemma DeleteOpsSnoc(tables: seq<string>, j: nat)
    requires j < |tables|
    ensures DeleteOps(tables[..j + 1]) == DeleteOps(tables[..j]) + [DeleteTableOperation(tables[j])]
  {
  }

  /** Every operation `compare` adds, in the order it adds them. */
  ghost function Emitted(from: StateMap, to: StateMap): seq<Operation>
    requires Comparable(from, to)
  {
    TargetOps(from, to, |to.keys|) + DeleteOps(Keep(from.keys, to.vals.Keys))
  }

  // ---------------------------------------------------------------------
  // Properties of the diff

  /** Only the parameters of the new definition matter: a parameter only
      the old one has never makes a change. */
  lemma FieldChangedIgnoresOldOnly(from: FieldDef, to: FieldDef, p: string, v: Value)
    requires p !in to.vals
    ensures FieldChanged(Put(from, p, v), to) <==> FieldChanged(from, to)
  {
    forall i | 0 <= i < |to.keys|
      ensures Param(Put(from, p, v), to.keys[i]) == Param(from, to.keys[i])
    {
      assert to.keys[i] != p;
    }
  }

  /** A parameter set to None in the new definition and missing from the old
      one is no change, and neither is a bool against the int it equals. */
  lemma FieldChangedPythonEquality(from: FieldDef, to: FieldDef)
    requires forall i :: 0 <= i < |to.keys| ==>
      (to.vals[to.keys[i]] == PyNone && to.keys[i] !in from.vals) ||
      (to.keys[i] in from.vals && Eq(from.vals[to.keys[i]], to.vals[to.keys[i]]))
    ensures !FieldChanged(from, to)
  {
  }

  lemma FieldUnchangedSelf(d: FieldDef)
    ensures !FieldChanged(d, d)
  {
    forall i | 0 <= i < |d.keys| ensures Eq(Param(d, d.keys[i]), d.vals[d.keys[i]]) {
      EqReflexive(d.vals[d.keys[i]]);
    }
  }

  /** `TargetSubs` holds what each of the first `n` fields contributes. */
  lemma {:induction false} TargetSubsIn(from: Fields, to: Fields, n: nat)
    requires n <= |to.keys|
    ensures forall x :: x in TargetSubs(from, to, n) <==>
      exists i :: 0 <= i < n && x in SubsFor(from, to, to.keys[i])
    decreases n
  {
    if n > 0 {
      TargetSubsIn(from, to, n - 1);
    }
  }

  /** What one field contributes: a create if it is new, a change if its
      definition changed, never a delete. */
  lemma SubsForMembers(from: Fields, to: Fields, g: string)
    requires g in to.vals
    ensures forall f, d :: CreateField(f, d) in SubsFor(from, to, g) <==>
      g == f && f !in from.vals && d == to.vals[f]
    ensures forall f, d :: ChangeField(f, d) in SubsFor(from, to, g) <==>
      g == f && f in from.vals && FieldChanged(from.vals[f], to.vals[f]) && d == to.vals[f]
    ensures forall f :: DeleteField(f) !in SubsFor(from, to, g)
  {
  }

  /** The creates and changes of `TargetSubs`, one field at a time. */
  lemma TargetSubsMembers(from: Fields, to: Fields, n: nat)
    requires n <= |to.keys|
    ensures forall f, d :: CreateField(f, d) in TargetSubs(from, to, n) <==>
      (exists i :: 0 <= i < n && to.keys[i] == f) && f !in from.vals && d == to.vals[f]
    ensures forall f, d :: ChangeField(f, d) in TargetSubs(from, to, n) <==>
      (exists i :: 0 <= i < n && to.keys[i] == f) && f in from.vals &&
      FieldChanged(from.vals[f], to.vals[f]) && d == to.vals[f]
    ensures forall f :: DeleteField(f) !in TargetSubs(from, to, n)
  {
    TargetSubsIn(from, to, n);
    forall i | 0 <= i < n {
      SubsForMembers(from, to, to.keys[i]);
    }
  }

  /** A listed key is a key and back. */
  lemma ListedKeys<V>(to: Dict<string, V>)
    ensures forall f :: f in to.vals <==> exists i :: 0 <= i < |to.keys| && to.keys[i] == f
  {
    DictKeys(to);
    forall f | f in to.vals ensures exists i :: 0 <= i < |to.keys| && to.keys[i] == f {
      assert f in to.keys;
    }
  }

  /** A field is created iff only the new table has it, and then with its
      new definition. */
  lemma FieldSubopsCreates(from: Fields, to: Fields)
    ensures forall f, d :: CreateField(f, d) in FieldSubops(from, to) <==>
      f in to.vals && f !in from.vals && d == to.vals[f]
  {
    var targets := TargetSubs(from, to, |to.keys|);
    TargetSubsMembers(from, to, |to.keys|);
    ListedKeys(to);
    var subs := FieldSubops(from, to);
    forall f, d ensures CreateField(f, d) in subs <==> CreateField(f, d) in targets {
      if CreateField(f, d) in subs {
        var i :| 0 <= i < |subs| && subs[i] == CreateField(f, d);
        assert i < |targets|;
      }
    }
  }

  /** A field is changed iff both tables have it and its definition changed,
      and then with its new definition. */
  lemma FieldSubopsChanges(from: Fields, to: Fields)
    ensures forall f, d :: ChangeField(f, d) in FieldSubops(from, to) <==>
      f in to.vals && f in from.vals && FieldChanged(from.vals[f], to.vals[f]) && d == to.vals[f]
  {
    var targets := TargetSubs(from, to, |to.keys|);
    TargetSubsMembers(from, to, |to.keys|);
    ListedKeys(to);
    var subs := FieldSubops(from, to);
    forall f, d ensures ChangeField(f, d) in subs <==> ChangeField(f, d) in targets {
      if ChangeField(f, d) in subs {
        var i :| 0 <= i < |subs| && subs[i] == ChangeField(f, d);
        assert i < |targets|;
      }
    }
  }

  /** A field is deleted iff only the old table has it. */
  lemma FieldSubopsDeletes(from: Fields, to: Fields)
    ensures forall f :: DeleteField(f) in FieldSubops(from, to) <==> f in from.vals && f !in to.vals
  {
    TargetSubsMembers(from, to, |to.keys|);
    DictKeys(from);
    KeepMembers(from.keys, to.vals.Keys);
    DeleteSubsMembers(Keep(from.keys, to.vals.Keys));
  }

  lemma DeleteSubsMembers(fields: seq<string>)
    ensures forall f :: DeleteField(f) in DeleteSubs(fields) <==> f in fields
  {
    forall f | DeleteField(f) in DeleteSubs(fields) ensures f in fields {
      var i :| 0 <= i < |fields| && DeleteSubs(fields)[i] == DeleteField(f);
    }
    forall f | f in fields ensures DeleteField(f) in DeleteSubs(fields) {
      var i :| 0 <= i < |fields| && fields[i] == f;
      assert DeleteSubs(fields)[i] == DeleteField(f);
    }
  }

  /** Comparing a table's fields with themselves gives no suboperation. */
  lemma {:induction false} FieldSubopsSelf(fields: Fields)
    ensures FieldSubops(fields, fields) == []
  {
    TargetSubsSelf(fields, |fields.keys|);
    KeepOwnKeys(fields);
  }

  lemma {:induction false} TargetSubsSelf(fields: Fields, n: nat)
    requires n <= |fields.keys|
    ensures TargetSubs(fields, fields, n) == []
    decreases n
  {
    if n > 0 {
      TargetSubsSelf(fields, n - 1);
      FieldUnchangedSelf(fields.vals[fields.keys[n - 1]]);
    }
  }

  /** The operations for the first `n` tables are those for each of them. */
  lemma TargetOpsMembers(from: StateMap, to: StateMap, n: nat)
    requires n <= |to.keys| && forall i :: 0 <= i < n ==> HasFields(from, to, to.keys[i])
    ensures forall op :: op in TargetOps(from, to, n) <==>
      exists i :: 0 <= i < n && op == OpFor(from, to, to.keys[i])
  {
    var r := TargetOps(from, to, n);
    forall op | exists i :: 0 <= i < n && op == OpFor(from, to, to.keys[i]) ensures op in r {
      var i :| 0 <= i < n && op == OpFor(from, to, to.keys[i]);
      assert r[i] == op;
    }
  }

  lemma DeleteOpsMembers(tables: seq<string>)
    ensures forall t :: DeleteTableOperation(t) in DeleteOps(tables) <==> t in tables
    ensures forall op :: op in DeleteOps(tables) ==> op.DeleteTableOperation?
  {
    forall t | t in tables ensures DeleteTableOperation(t) in DeleteOps(tables) {
      var i :| 0 <= i < |tables| && tables[i] == t;
      assert DeleteOps(tables)[i] == DeleteTableOperation(t);
    }
  }

  /** New tables are created with their new meta, and only they. */
  lemma EmittedCreates(from: StateMap, to: StateMap)
    requires Comparable(from, to)
    ensures forall t, m :: CreateTableOperation(t, m) in Emitted(from, to) <==>
      t in to.vals && t !in from.vals && m == to.vals[t]
  {
    ComparableByIndex(from, to);
    TargetOpsMembers(from, to, |to.keys|);
    DeleteOpsMembers(Keep(from.keys, to.vals.Keys));
    ListedKeys(to);
  }

  /** Shared tables are altered with the old meta and the field
      differences, even when there are none, and only they. */
  lemma EmittedAlters(from: StateMap, to: StateMap)
    requires Comparable(from, to)
    ensures forall t, m, subs :: AlterTableOperation(t, m, subs) in Emitted(from, to) <==>
      t in to.vals && t in from.vals && m == from.vals[t] &&
      subs == FieldSubops(from.vals[t].fields.value, to.vals[t].fields.value)
  {
    ComparableByIndex(from, to);
    TargetOpsMembers(from, to, |to.keys|);
    DeleteOpsMembers(Keep(from.keys, to.vals.Keys));
    ListedKeys(to);
  }

  /** One operation per table of the new state, at that table's position:
      with `EmittedCreates`, `EmittedAlters` and `EmittedDeletesLast`, each
      new table gets exactly one create and each shared table exactly one
      alter. */
  lemma EmittedOnePerTable(from: StateMap, to: StateMap)
    requires Comparable(from, to)
    ensures |Emitted(from, to)| >= |to.keys|
    ensures forall i :: 0 <= i < |to.keys| ==>
      !Emitted(from, to)[i].RestoredOperation? && Emitted(from, to)[i].table == to.keys[i]
    ensures forall i, j :: 0 <= i < j < |to.keys| ==> Emitted(from, to)[i].table != Emitted(from, to)[j].table
  {
    ComparableByIndex(from, to);
    forall i, j | 0 <= i < j < |to.keys|
      ensures Emitted(from, to)[i].table != Emitted(from, to)[j].table
    {
      assert KeyAt(to.keys, i) != KeyAt(to.keys, j);
    }
  }

  /** The deletes are those of the tables only the old state has, in the
      old state's order. */
  lemma EmittedDeletes(from: StateMap, to: StateMap)
    requires Comparable(from, to)
    ensures OfKind(Emitted(from, to), DeleteTable) == DeleteOps(Keep(from.keys, to.vals.Keys))
  {
    var deletes := DeleteOps(Keep(from.keys, to.vals.Keys));
    OfKindConcat(TargetOps(from, to, |to.keys|), deletes, DeleteTable);
    TargetsKeepNoDelete(from, to, |to.keys|);
    OfKindUniform(deletes, DeleteTable, DeleteTable);
    assert [] + deletes == deletes;
  }

  /** The tables that get a delete are those only the old state has. */
  lemma DroppedTables(from: StateMap, to: StateMap)
    ensures forall t :: t in Keep(from.keys, to.vals.Keys) <==> t in from.vals && t !in to.vals
  {
    KeepMembers(from.keys, to.vals.Keys);
    DictKeys(from);
  }

  /** The deletes come after every create and alter: one operation per
      table of the new state, then the deletes. */
  lemma EmittedDeletesLast(from: StateMap, to: StateMap)
    requires Comparable(from, to)
    ensures forall i :: 0 <= i < |Emitted(from, to)| ==>
      (Emitted(from, to)[i].DeleteTableOperation? <==> i >= |to.keys|)
  {
    var targets := TargetOps(from, to, |to.keys|);
    var deletes := DeleteOps(Keep(from.keys, to.vals.Keys));
    var ops := Emitted(from, to);
    forall i | 0 <= i < |ops| ensures ops[i].DeleteTableOperation? <==> i >= |to.keys| {
      if i < |targets| {
        assert ops[i] == OpFor(from, to, to.keys[i]);
      } else {
        assert ops[i] == deletes[i - |targets|];
      }
    }
  }

  lemma {:induction false} TargetsKeepNoDelete(from: StateMap, to: StateMap, n: nat)
    requires n <= |to.keys| && forall i :: 0 <= i < n ==> HasFields(from, to, to.keys[i])
    ensures OfKind(TargetOps(from, to, n), DeleteTable) == []
    decreases n
  {
    if n > 0 {
      TargetsKeepNoDelete(from, to, n - 1);
      var init := TargetOps(from, to, n - 1);
      var last := OpFor(from, to, to.keys[n - 1]);
      assert KindOf(last) != DeleteTable;
      assert (init + [last])[..n - 1] == init;
      assert OfKind(init + [last], DeleteTable) == OfKind(init, DeleteTable) + [];
    }
  }

  /** Comparing a state with itself gives one empty alter per table, in
      the state's order: nothing is created, deleted or left out. */
  lemma CompareSelf(s: StateMap)
    requires Comparable(s, s)
    ensures |Emitted(s, s)| == |s.keys|
    ensures forall i :: 0 <= i < |s.keys| ==>
      Emitted(s, s)[i] == AlterTableOperation(s.keys[i], s.vals[s.keys[i]], [])
  {
    KeepOwnKeys(s);
    forall i | 0 <= i < |s.keys|
      ensures Emitted(s, s)[i] == AlterTableOperation(s.keys[i], s.vals[s.keys[i]], [])
    {
      FieldSubopsSelf(s.vals[s.keys[i]].fields.value);
    }
  }

  /** After the first `n` tables of the new state: none of them failed,
      their operations follow `base`, and the copy has lost them. */
  ghost predicate TablesDone(base: Operations, ops: Operations, from: StateMap, to: StateMap, n: nat, copy: StateMap) {
    && n <= |to.keys|
    && (forall k :: 0 <= k < n ==> HasFields(from, to, to.keys[k]))
    && ops == AddAll(base, TargetOps(from, to, n))
    && copy == RemoveAll(from, Elems(to.keys[..n]))
  }

  /** One more round of `_base_compare`'s first loop: the table's operation
      is added, and the table is deleted from the copy when it is there. */
  lemma TablesDoneStep(base: Operations, ops: Operations, from: StateMap, to: StateMap, n: nat, copy: StateMap)
    requires n < |to.keys| && TablesDone(base, ops, from, to, n, copy)
    requires HasFields(from, to, to.keys[n])
    ensures TablesDone(base, AddTo(ops, OpFor(from, to, to.keys[n])), from, to, n + 1,
      if to.keys[n] in copy.vals then Remove(copy, to.keys[n]) else copy)
  {
    CopyStep(from, to, n, copy);
    AddAllSnoc(base, TargetOps(from, to, n), OpFor(from, to, to.keys[n]));
    TargetOpsSnoc(from, to, n);
  }

  /** After `_deep_compare`'s first loop has seen the new table's first `n`
      fields: the alter added after `base` holds their suboperations, and
      `copy` is the old fields without them. */
  ghost predicate FieldsDone(base: Operations, ops: Operations, table: string, meta: TableMeta,
                             from: Fields, to: Fields, n: nat, copy: Fields) {
    && n <= |to.keys|
    && ops == AddTo(base, AlterTableOperation(table, meta, TargetSubs(from, to, n)))
    && copy == RemoveAll(from, Elems(to.keys[..n]))
  }

  // ---------------------------------------------------------------------
  // The comparer and the state

  class StateComparer {
    /** The state object this comparer was made for: its dict is the new
        side of every comparison. */
    const disposer: State

    constructor (disposer: State)
      ensures this.disposer == disposer
    {
      this.disposer := disposer;
    }

    /** `_field_compare`: scans the new definition's parameters in order
        and, at the first one that differs, adds a change suboperation with
        the new definition. */
    method FieldCompare(m: Migration, handle: nat, field: string, fromField: FieldDef, toField: FieldDef)
      requires m.Valid() && HasAlterAt(m.operations, handle)
      modifies m
      ensures m.Valid()
      ensures m.operations == if FieldChanged(fromField, toField)
        then WithSub(old(m.operations), handle, ChangeField(field, toField))
        else old(m.operations)
    {
      var i := 0;
      while i < |toField.keys|
        invariant 0 <= i <= |toField.keys|
        invariant forall n :: 0 <= n < i ==> Eq(Param(fromField, toField.keys[n]), toField.vals[toField.keys[n]])
      {
        var param := toField.keys[i];
        if !Eq(Param(fromField, param), Param(toField, param)) {
          assert FieldChanged(fromField, toField);
          m.AddSuboperation(handle, ChangeField(field, toField));
          return;
        }
        i := i + 1;
      }
    }

    /** `_deep_compare`: adds the alter for a shared table, carrying the old
        meta; then a create suboperation per new field, a change per
        changed shared field, and a delete per dropped field. Reading
        `fields` of either meta comes first and raises KeyError when it is
        missing, before anything is added. */
    method DeepCompare(m: Migration, table: string, fromMeta: TableMeta, toMeta: TableMeta)
      returns (err: Option<Error>)
      requires m.Valid()
      modifies m
      ensures m.Valid()
      ensures err.Some? <==> fromMeta.fields.None? || toMeta.fields.None?
      ensures err.Some? ==> err.value == KeyError("fields") && m.operations == old(m.operations)
      ensures err.None? ==> m.operations == AddTo(old(m.operations),
        AlterTableOperation(table, fromMeta, FieldSubops(fromMeta.fields.value, toMeta.fields.value)))
    {
      if fromMeta.fields.None? || toMeta.fields.None? {
        return Some(KeyError("fields"));
      }
      var fromFields, toFields := fromMeta.fields.value, toMeta.fields.value;
      ghost var base := m.operations;
      var handle := m.AddChangeTableOperation(table, fromMeta);
      var copy := AddFieldTargets(m, handle, base, table, fromMeta, fromFields, toFields);
      CopyAtEnd(fromFields, toFields, copy);
      ghost var subs := TargetSubs(fromFields, toFields, |toFields.keys|);
      AddFieldDeletes(m, handle, base, table, fromMeta, subs, copy.keys);
      err := None;
    }

    /** The first loop of `_deep_compare`: the new table's fields in order,
        each deleted from a copy of the old fields. */
    method AddFieldTargets(m: Migration, handle: nat, ghost base: Operations, table: string, meta: TableMeta,
                           fromFields: Fields, toFields: Fields) returns (copy: Fields)
      requires Grouped(base) && handle == |GetOr(base, ChangeTable, [])|
      requires m.operations == AddTo(base, AlterTableOperation(table, meta, []))
      modifies m
      ensures m.operations == AddTo(base, AlterTableOperation(table, meta, TargetSubs(fromFields, toFields, |toFields.keys|)))
      ensures copy == RemoveAll(fromFields, Elems(toFields.keys[..|toFields.keys|]))
    {
      copy := fromFields;
      assert toFields.keys[..0] == [];
      RemoveNothing(fromFields);
      var i := 0;
      while i < |toFields.keys|
        invariant FieldsDone(base, m.operations, table, meta, fromFields, toFields, i, copy)
      {
        copy := DeepCompareField(m, handle, base, table, meta, fromFields, toFields, i, copy);
        i := i + 1;
      }
    }

    /** One round of `_deep_compare`'s first loop, for the new table's field
        number `i`: deleting it from the copy fails for a new field, which
        gets a create suboperation, and succeeds for a shared one, which
        goes to `_field_compare`. */
    method DeepCompareField(m: Migration, handle: nat, ghost base: Operations, table: string, meta: TableMeta,
                            fromFields: Fields, toFields: Fields, i: nat, copy: Fields) returns (copy': Fields)
      requires Grouped(base) && handle == |GetOr(base, ChangeTable, [])|
      requires i < |toFields.keys|
      requires FieldsDone(base, m.operations, table, meta, fromFields, toFields, i, copy)
      modifies m
      ensures FieldsDone(base, m.operations, table, meta, fromFields, toFields, i + 1, copy')
    {
      var field := toFields.keys[i];
      ghost var subs := TargetSubs(fromFields, toFields, i);
      TargetSubsSnoc(fromFields, toFields, i);
      CopyStep(fromFields, toFields, i, copy);
      if field in copy.vals {
        copy' := Remove(copy, field);
        WithSubOfLast(base, table, meta, subs, ChangeField(field, toFields.vals[field]));
        FieldCompare(m, handle, field, fromFields.vals[field], toFields.vals[field]);
        if !FieldChanged(fromFields.vals[field], toFields.vals[field]) {
          AppendNothing(subs);
        }
      } else {
        copy' := copy;
        WithSubOfLast(base, table, meta, subs, CreateField(field, toFields.vals[field]));
        m.AddSuboperation(handle, CreateField(field, toFields.vals[field]));
      }
    }

    /** The last loop of `_deep_compare`: a delete suboperation per field
        left in the copy, in its order, on the alter behind `handle`. */
    method AddFieldDeletes(m: Migration, handle: nat, ghost base: Operations, table: string, meta: TableMeta,
                           ghost targets: seq<SubOperation>, fields: seq<string>)
      requires Grouped(base) && handle == |GetOr(base, ChangeTable, [])|
      requires m.operations == AddTo(base, AlterTableOperation(table, meta, targets))
      modifies m
      ensures m.Valid()
      ensures m.operations == AddTo(base, AlterTableOperation(table, meta, targets + DeleteSubs(fields)))
    {
      ghost var subs := targets;
      assert fields[..0] == [] && DeleteSubs([]) == [] && targets + [] == targets;
      var j := 0;
      while j < |fields|
        invariant 0 <= j <= |fields|
        invariant m.operations == AddTo(base, AlterTableOperation(table, meta, subs))
        invariant subs == targets + DeleteSubs(fields[..j])
      {
        WithSubOfLast(base, table, meta, subs, DeleteField(fields[j]));
        m.AddSuboperation(handle, DeleteField(fields[j]));
        DeleteSubsSnoc(fields, j);
        subs := subs + [DeleteField(fields[j])];
        j := j + 1;
      }
      assert fields[..j] == fields;
      AddToGrouped(base, AlterTableOperation(table, meta, subs));
    }

    /** `_base_compare`: for the new state's tables in order, a create for
        a new table and the deep comparison for a shared one; then a delete
        for each table only the old state has, in the old order. */
    method BaseCompare(m: Migration, from: StateMap, to: StateMap) returns (err: Option<Error>)
      requires m.Valid()
      modifies m
      ensures m.Valid()
      ensures err.None? <==> Comparable(from, to)
      ensures err.Some? ==> err.value == KeyError("fields")
      ensures err.None? ==> m.operations == AddAll(old(m.operations), Emitted(from, to))
    {
      ghost var base := m.operations;
      var ok, copy := BaseCompareTables(m, from, to);
      ComparableByIndex(from, to);
      if !ok {
        return Some(KeyError("fields"));
      }
      CopyAtEnd(from, to, copy);
      AddTableDeletes(m, copy.keys);
      AddAllConcat(base, TargetOps(from, to, |to.keys|), DeleteOps(copy.keys));
      err := None;
    }

    /** The first loop of `_base_compare`: the new state's tables in order,
        each deleted from a copy of the old state. It stops at the first
        shared table without `fields`, where `_deep_compare` raises. */
    method BaseCompareTables(m: Migration, from: StateMap, to: StateMap) returns (ok: bool, copy: StateMap)
      requires m.Valid()
      modifies m
      ensures m.Valid()
      ensures ok <==> forall n :: 0 <= n < |to.keys| ==> HasFields(from, to, to.keys[n])
      ensures ok ==> m.operations == AddAll(old(m.operations), TargetOps(from, to, |to.keys|))
      ensures ok ==> copy == RemoveAll(from, Elems(to.keys[..|to.keys|]))
    {
      copy := from;
      ghost var base := m.operations;
      assert to.keys[..0] == [];
      RemoveNothing(from);
      var i := 0;
      while i < |to.keys|
        invariant m.Valid() && TablesDone(base, m.operations, from, to, i, copy)
      {
        ok, copy := BaseCompareTable(m, base, from, to, i, copy);
        if !ok {
          return;
        }
        i := i + 1;
      }
      ok := true;
    }

    /** One round of `_base_compare`'s first loop, for the new state's table
        number `i`: deleting it from the copy fails for a new table, which
        gets a create, and succeeds for a shared one, which goes to
        `_deep_compare`. */
    method BaseCompareTable(m: Migration, ghost base: Operations, from: StateMap, to: StateMap, i: nat, copy: StateMap)
      returns (ok: bool, copy': StateMap)
      requires i < |to.keys| && m.Valid() && TablesDone(base, m.operations, from, to, i, copy)
      modifies m
      ensures m.Valid()
      ensures ok <==> HasFields(from, to, to.keys[i])
      ensures ok ==> TablesDone(base, m.operations, from, to, i + 1, copy')
    {
      var table := to.keys[i];
      ghost var ops := m.operations;
      CopyStep(from, to, i, copy);
      if table in copy.vals {
        copy' := Remove(copy, table);
        var err := DeepCompare(m, table, from.vals[table], to.vals[table]);
        ok := err.None?;
      } else {
        copy' := copy;
        var _ := m.AddCreateTableOperation(table, to.vals[table]);
        ok := true;
      }
      if ok {
        TablesDoneStep(base, ops, from, to, i, copy);
      }
    }

    /** The last loop of `_base_compare`: a delete per table left in the
        copy, in its order. */
    method AddTableDeletes(m: Migration, tables: seq<string>)
      requires m.Valid()
      modifies m
      ensures m.Valid()
      ensures m.operations == AddAll(old(m.operations), DeleteOps(tables))
    {
      ghost var base := m.operations;
      assert tables[..0] == [] && DeleteOps([]) == [];
      var j := 0;
      while j < |tables|
        invariant 0 <= j <= |tables|
        invariant m.Valid() && m.operations == AddAll(base, DeleteOps(tables[..j]))
      {
        var _ := m.AddDeleteTableOperation(tables[j]);
        DeleteOpsSnoc(tables, j);
        AddAllSnoc(base, DeleteOps(tables[..j]), DeleteTableOperation(tables[j]));
        j := j + 1;
      }
      assert tables[..j] == tables;
    }

    /** `compare`: the migration from `previous`'s state to this comparer's
        state, or the KeyError a shared table without `fields` raises. */
    method Compare(previous: State) returns (r: Result<Migration>)
      ensures r.Ok? <==> Comparable(previous.state, disposer.state)
      ensures r.Err? ==> r.error == KeyError("fields")
      ensures r.Ok? ==> fresh(r.value) && r.value.Valid()
      ensures r.Ok? ==> r.value.operations == AddAll(Empty(), Emitted(previous.state, disposer.state))
    {
      var m := new Migration();
      var err := BaseCompare(m, previous.state, disposer.state);
      if err.Some? {
        return Err(err.value);
      }
      return Ok(m);
    }
  }

  /** One step of the `try: del copy[key]` scans: `copy` is the original
      dict with the earlier keys deleted, so it has the next key exactly when
      the original has it, and deleting it (or finding it missing) leaves
      the original with one more key deleted. */
  lemma CopyStep<V>(d: Dict<string, V>, other: Dict<string, V>, i: nat, copy: Dict<string, V>)
    requires i < |other.keys|
    requires copy == RemoveAll(d, Elems(other.keys[..i]))
    ensures other.keys[i] in copy.vals <==> other.keys[i] in d.vals
    ensures other.keys[i] in copy.vals ==> Remove(copy, other.keys[i]) == RemoveAll(d, Elems(other.keys[..i + 1]))
    ensures other.keys[i] !in copy.vals ==> copy == RemoveAll(d, Elems(other.keys[..i + 1]))
  {
    var keys := other.keys;
    DictKeys(other);
    ElemsOf(keys[..i]);
    ElemsSnoc(keys, i);
    if keys[i] in d.vals {
      RemoveAllStep(d, Elems(keys[..i]), keys[i]);
    } else {
      RemoveAllAbsent(d, Elems(keys[..i]), keys[i]);
    }
  }

  /** After the scan, the copy holds the old keys the new dict lacks, in
      the old order. */
  lemma CopyAtEnd<V>(d: Dict<string, V>, other: Dict<string, V>, copy: Dict<string, V>)
    requires copy == RemoveAll(d, Elems(other.keys[..|other.keys|]))
    ensures copy.keys == Keep(d.keys, other.vals.Keys)
  {
    assert other.keys[..|other.keys|] == other.keys;
    DictKeys(other);
  }

  class State {
    /** `state`: table name to table meta. */
    var state: StateMap
    /** `comparer`, made for this very object. */
    var comparer: StateComparer?

    constructor ()
      ensures state == Empty() && comparer != null && comparer.disposer == this
    {
      state := Empty();
      new;
      comparer := new StateComparer(this);
    }

    /** `mutate`: restores the migration recorded in `entry` and replays its
        operations onto this state, kind by kind in the order the kinds
        first appear. A rejected entry leaves the state as it was. */
    method Mutate(entry: Entry, applyToState: (StateMap, Operation) -> StateMap) returns (r: Result<()>)
      modifies this
      ensures comparer == old(comparer)
      ensures r.Ok? <==> EntryError(entry, 0).None?
      ensures r.Err? ==> r.error == EntryError(entry, 0).value && state == old(state)
      ensures r.Ok? ==> state == Replay(old(state), applyToState, Flatten(AddAll(Empty(), EntryOps(entry, 0))))
    {
      var m := new Migration();
      var res, _ := m.FromEntry(entry);
      if res.Err? {
        return Err(res.error);
      }
      state := m.ApplyToState(state, applyToState);
      r := Ok(());
    }
  }
}
