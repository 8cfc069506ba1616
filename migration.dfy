/** One migration: operations grouped by kind, in a dict from kind to the
    list of operations of that kind. A kind's list appears the first time an
    operation of that kind is added, so the dict's key order is the order in
    which kinds were first used, and that is the order in which `apply` and
    `apply_to_state` replay them. */
module Migrations {
  import opened Py
  import opened Dicts
  import opened Meta

  /** The three keys of `OPERATION_CLS`. */
  datatype Kind = CreateTable | DeleteTable | ChangeTable

  function KindKey(k: Kind): string {
    match k
    case CreateTable => "CREATE_TABLE"
    case DeleteTable => "DELETE_TABLE"
    case ChangeTable => "CHANGE_TABLE"
  }

  /** `OPERATION_CLS.get(key)`: only the three kind keys name a class. */
  function KindFromKey(key: string): (r: Option<Kind>)
    ensures r.Some? ==> KindKey(r.value) == key
    ensures r.None? ==> forall k :: KindKey(k) != key
  {
    if key == "CREATE_TABLE" then Some(CreateTable)
    else if key == "DELETE_TABLE" then Some(DeleteTable)
    else if key == "CHANGE_TABLE" then Some(ChangeTable)
    else None
  }

  /** Each kind has its own key. */
  lemma KindKeyInjective(a: Kind, b: Kind)
    ensures KindKey(a) == KindKey(b) ==> a == b
  {
    if KindKey(a) == KindKey(b) {
      assert KindFromKey(KindKey(a)) == Some(a);
    }
  }

  /** JSON-shaped data, as held by a persisted migration record. */
  datatype Json =
    | JNull
    | JBool(b: bool)
    | JInt(i: int)
    | JStr(s: string)
    | JList(items: seq<Json>)
    | JObject(members: seq<(string, Json)>)

  /** One persisted operation definition, a flat dict: its `table` entry,
      when it has one, and its other entries in order. Popping `table`
      leaves `table` empty and the other entries as they were. */
  datatype Record = Record(table: Option<Json>, others: Dict<string, Json>)

  /** A persisted migration: kind key to its list of definitions. */
  type Entry = Dict<string, seq<Record>>

  /** A field-level step of an alter-table operation. */
  datatype SubOperation =
    | CreateField(field: string, definition: FieldDef)
    | DeleteField(field: string)
    | ChangeField(field: string, definition: FieldDef)

  /** An operation, as an opaque tagged value: the operation classes build
      their values from these arguments. `RestoredOperation` is the class
      of `kind` called with the popped table and the rest of a persisted
      definition. */
  datatype Operation =
    | CreateTableOperation(table: string, meta: TableMeta)
    | DeleteTableOperation(table: string)
    | AlterTableOperation(table: string, meta: TableMeta, suboperations: seq<SubOperation>)
    | RestoredOperation(kind: Kind, tableValue: Json, definition: Dict<string, Json>)

  function KindOf(op: Operation): Kind {
    match op
    case CreateTableOperation(_, _) => CreateTable
    case DeleteTableOperation(_) => DeleteTable
    case AlterTableOperation(_, _, _) => ChangeTable
    case RestoredOperation(k, _, _) => k
  }

  /** The `_operations` dict. */
  type Operations = Dict<Kind, seq<Operation>>

  /** Every list holds only operations of its own kind. */
  ghost predicate Homogeneous(d: Operations) {
    forall k, i :: k in d.vals && 0 <= i < |d.vals[k]| ==> KindOf(d.vals[k][i]) == k
  }

  /** Lists are homogeneous and, being created only to receive an operation,
      never empty. */
  ghost predicate Grouped(d: Operations) {
    Homogeneous(d) && forall k :: k in d.vals ==> d.vals[k] != []
  }

  /** What `_add_operation` does to the dict. */
  function AddTo(d: Operations, op: Operation): Operations {
    Put(d, KindOf(op), GetOr(d, KindOf(op), []) + [op])
  }

  /** The dict after adding `ops` one by one. */
  function AddAll(d: Operations, ops: seq<Operation>): Operations
    decreases |ops|
  {
    if ops == [] then d else AddTo(AddAll(d, ops[..|ops| - 1]), ops[|ops| - 1])
  }

  lemma AddAllSnoc(d: Operations, ops: seq<Operation>, op: Operation)
    ensures AddAll(d, ops + [op]) == AddTo(AddAll(d, ops), op)
  {
    assert (ops + [op])[..|ops|] == ops;
  }

  lemma {:induction false} AddAllConcat(d: Operations, a: seq<Operation>, b: seq<Operation>)
    ensures AddAll(d, a + b) == AddAll(AddAll(d, a), b)
    decreases |b|
  {
    if b == [] {
      assert a + b == a;
    } else {
      var b' := b[..|b| - 1];
      assert (a + b)[..|a + b| - 1] == a + b';
      AddAllConcat(d, a, b');
    }
  }

  /** The operations of kind `k` in `ops`, in order. */
  function OfKind(ops: seq<Operation>, k: Kind): (r: seq<Operation>)
    decreases |ops|
  {
    if ops == [] then []
    else OfKind(ops[..|ops| - 1], k) + (if KindOf(ops[|ops| - 1]) == k then [ops[|ops| - 1]] else [])
  }

  lemma {:induction false} OfKindConcat(a: seq<Operation>, b: seq<Operation>, k: Kind)
    ensures OfKind(a + b, k) == OfKind(a, k) + OfKind(b, k)
    decreases |b|
  {
    if b == [] {
      assert a + b == a;
    } else {
      var b' := b[..|b| - 1];
      assert (a + b)[..|a + b| - 1] == a + b';
      OfKindConcat(a, b', k);
    }
  }

  lemma {:induction false} OfKindUniform(ops: seq<Operation>, j: Kind, k: Kind)
    requires forall i :: 0 <= i < |ops| ==> KindOf(ops[i]) == j
    ensures OfKind(ops, k) == if j == k then ops else []
    decreases |ops|
  {
    if ops != [] {
      OfKindUniform(ops[..|ops| - 1], j, k);
    }
  }

  /** The kinds of `ops`, each once, in order of first occurrence. */
  function KindsInOrder(ops: seq<Operation>): seq<Kind>
    decreases |ops|
  {
    if ops == [] then []
    else
      var before := KindsInOrder(ops[..|ops| - 1]);
      if KindOf(ops[|ops| - 1]) in before then before else before + [KindOf(ops[|ops| - 1])]
  }

  /** Building a migration from nothing: the lists are exactly the
      operations of each kind in the order added, a kind has a list iff one
      of its operations was added, and the kinds are ordered by first use. */
  lemma {:induction false} AddAllFromEmpty(ops: seq<Operation>)
    ensures Grouped(AddAll(Empty(), ops))
    ensures AddAll(Empty(), ops).keys == KindsInOrder(ops)
    ensures forall k :: GetOr(AddAll(Empty(), ops), k, []) == OfKind(ops, k)
    ensures forall k :: k in AddAll(Empty(), ops).vals <==> OfKind(ops, k) != []
    decreases |ops|
  {
    if ops != [] {
      var prefix := ops[..|ops| - 1];
      var op := ops[|ops| - 1];
      AddAllFromEmpty(prefix);
      var d := AddAll(Empty(), prefix);
      DictKeys(d);
      var d' := AddTo(d, op);
      assert d' == AddAll(Empty(), ops);
      forall k ensures GetOr(d', k, []) == OfKind(ops, k) {
        assert GetOr(d, k, []) == OfKind(prefix, k);
      }
      forall k, i | k in d'.vals && 0 <= i < |d'.vals[k]| ensures KindOf(d'.vals[k][i]) == k {
        if k == KindOf(op) && i == |d'.vals[k]| - 1 {
        } else {
          assert d'.vals[k][i] == d.vals[k][i];
        }
      }
    }
  }

  /** Adding operations keeps the lists grouped by kind and non-empty. */
  lemma AddToGrouped(d: Operations, op: Operation)
    requires Grouped(d)
    ensures Grouped(AddTo(d, op))
  {
    var r := AddTo(d, op);
    forall k, i | k in r.vals && 0 <= i < |r.vals[k]| ensures KindOf(r.vals[k][i]) == k {
      if k != KindOf(op) || i < |GetOr(d, k, [])| {
        assert r.vals[k][i] == d.vals[k][i];
      }
    }
  }

  lemma {:induction false} AddAllGrouped(d: Operations, ops: seq<Operation>)
    requires Grouped(d)
    ensures Grouped(AddAll(d, ops))
    decreases |ops|
  {
    if ops != [] {
      AddAllGrouped(d, ops[..|ops| - 1]);
      AddToGrouped(AddAll(d, ops[..|ops| - 1]), ops[|ops| - 1]);
    }
  }

  /** `handle` names an alter-table operation of the CHANGE_TABLE list. */
  predicate HasAlterAt(d: Operations, handle: nat) {
    ChangeTable in d.vals && handle < |d.vals[ChangeTable]| && d.vals[ChangeTable][handle].AlterTableOperation?
  }

  /** The dict after `sub` is appended to the suboperations behind `handle`. */
  function WithSub(d: Operations, handle: nat, sub: SubOperation): Operations
    requires HasAlterAt(d, handle)
  {
    var list := d.vals[ChangeTable];
    Put(d, ChangeTable, list[handle := list[handle].(suboperations := list[handle].suboperations + [sub])])
  }

  /** The handle of the alter-table operation added last reaches exactly
      that operation: appending through it is the same as having added the
      operation with the longer list, and the grouping is kept. */
  lemma WithSubOfLast(d: Operations, table: string, meta: TableMeta, subs: seq<SubOperation>, sub: SubOperation)
    requires Grouped(d)
    ensures HasAlterAt(AddTo(d, AlterTableOperation(table, meta, subs)), |GetOr(d, ChangeTable, [])|)
    ensures WithSub(AddTo(d, AlterTableOperation(table, meta, subs)), |GetOr(d, ChangeTable, [])|, sub)
         == AddTo(d, AlterTableOperation(table, meta, subs + [sub]))
    ensures Grouped(AddTo(d, AlterTableOperation(table, meta, subs)))
  {
    var before := GetOr(d, ChangeTable, []);
    var list := before + [AlterTableOperation(table, meta, subs)];
    assert list[|before| := AlterTableOperation(table, meta, subs + [sub])] == before + [AlterTableOperation(table, meta, subs + [sub])];
    AddToGrouped(d, AlterTableOperation(table, meta, subs));
  }

  /** `for l in d.values(): for op in l` over the kinds `ks`. */
  function Concat(d: Operations, ks: seq<Kind>): seq<Operation>
    requires forall i :: 0 <= i < |ks| ==> ks[i] in d.vals
    decreases |ks|
  {
    if ks == [] then [] else Concat(d, ks[..|ks| - 1]) + d.vals[ks[|ks| - 1]]
  }

  /** The order in which `apply` and `apply_to_state` visit operations. */
  function Flatten(d: Operations): seq<Operation> {
    Concat(d, d.keys)
  }

  lemma {:induction false} ConcatOfKind(d: Operations, ks: seq<Kind>, k: Kind)
    requires Homogeneous(d)
    requires Distinct(ks)
    requires forall i :: 0 <= i < |ks| ==> ks[i] in d.vals
    ensures OfKind(Concat(d, ks), k) == if k in ks then d.vals[k] else []
    decreases |ks|
  {
    if ks != [] {
      var init := ks[..|ks| - 1];
      var last := ks[|ks| - 1];
      ConcatOfKind(d, init, k);
      OfKindConcat(Concat(d, init), d.vals[last], k);
      OfKindUniform(d.vals[last], last, k);
      assert k in ks <==> k in init || k == last;
      assert k == last ==> k !in init;
    }
  }

  /** `apply` visits the operations of each kind in the order they were
      added: filtering its visiting order by kind gives back the added
      sequence filtered by kind. */
  lemma ApplyOrderKeepsKindOrder(ops: seq<Operation>, k: Kind)
    ensures OfKind(Flatten(AddAll(Empty(), ops)), k) == OfKind(ops, k)
  {
    AddAllFromEmpty(ops);
    var d := AddAll(Empty(), ops);
    DictKeys(d);
    ConcatOfKind(d, d.keys, k);
  }

  /** Two operations of different kinds, added to nothing, give two lists
      of one operation each, in the order added. */
  lemma AddAllTwo(a: Operation, b: Operation)
    requires KindOf(a) != KindOf(b)
    ensures AddAll(Empty(), [a, b]).keys == [KindOf(a), KindOf(b)]
    ensures KindOf(a) in AddAll(Empty(), [a, b]).vals && AddAll(Empty(), [a, b]).vals[KindOf(a)] == [a]
    ensures KindOf(b) in AddAll(Empty(), [a, b]).vals && AddAll(Empty(), [a, b]).vals[KindOf(b)] == [b]
  {
    var e: Operations := Empty();
    assert AddAll(e, [a]) == AddTo(e, a) by {
      assert [a][..0] == [];
    }
    assert AddAll(e, [a, b]) == AddTo(AddTo(e, a), b) by {
      assert [a, b][..1] == [a];
    }
  }

  lemma ConcatTwo(d: Operations, j: Kind, k: Kind)
    requires j in d.vals && k in d.vals
    ensures Concat(d, [j, k]) == d.vals[j] + d.vals[k]
  {
    assert Concat(d, [j]) == d.vals[j] by {
      assert [j][..0] == [];
    }
    assert [j, k][..1] == [j];
  }

  /** There is no fixed kind order: a delete added before a create is
      replayed before it. */
  lemma ApplyOrderIsFirstUse(t: string, u: string, meta: TableMeta)
    ensures Flatten(AddAll(Empty(), [DeleteTableOperation(t), CreateTableOperation(u, meta)]))
         == [DeleteTableOperation(t), CreateTableOperation(u, meta)]
  {
    var del, create := DeleteTableOperation(t), CreateTableOperation(u, meta);
    AddAllTwo(del, create);
    ConcatTwo(AddAll(Empty(), [del, create]), DeleteTable, CreateTable);
  }

  lemma {:induction false} ConcatEmptyIff(d: Operations, ks: seq<Kind>)
    requires Grouped(d)
    requires forall i :: 0 <= i < |ks| ==> ks[i] in d.vals
    ensures Concat(d, ks) == [] <==> ks == []
    decreases |ks|
  {
    if ks != [] {
      ConcatEmptyIff(d, ks[..|ks| - 1]);
      assert d.vals[ks[|ks| - 1]] != [];
    }
  }

  /** A migration's dict is non-empty exactly when it holds an operation. */
  lemma NonEmptyIffHoldsOperation(d: Operations)
    requires Grouped(d)
    ensures |d.keys| > 0 <==> |Flatten(d)| > 0
  {
    ConcatEmptyIff(d, d.keys);
  }

  /** Replaying `ops` through `step`, first to last. */
  function Replay<S>(s: S, step: (S, Operation) -> S, ops: seq<Operation>): S
    decreases |ops|
  {
    if ops == [] then s else step(Replay(s, step, ops[..|ops| - 1]), ops[|ops| - 1])
  }

  lemma ReplaySnoc<S>(s: S, step: (S, Operation) -> S, ops: seq<Operation>, op: Operation)
    ensures Replay(s, step, ops + [op]) == step(Replay(s, step, ops), op)
  {
    assert (ops + [op])[..|ops|] == ops;
  }

  /** Replaying one more operation of `list` after `done`. */
  lemma ReplayPrefixStep<S>(s: S, step: (S, Operation) -> S, done: seq<Operation>, list: seq<Operation>, j: nat)
    requires j < |list|
    ensures Replay(s, step, done + list[..j + 1]) == step(Replay(s, step, done + list[..j]), list[j])
  {
    ReplaySnoc(s, step, done + list[..j], list[j]);
    assert done + list[..j + 1] == (done + list[..j]) + [list[j]];
  }

  lemma ConcatSnoc(d: Operations, ks: seq<Kind>, n: nat)
    requires n < |ks|
    requires forall i :: 0 <= i < |ks| ==> ks[i] in d.vals
    ensures Concat(d, ks[..n + 1]) == Concat(d, ks[..n]) + d.vals[ks[n]]
  {
    assert ks[..n + 1][..n] == ks[..n];
  }

  /** The definition `from_entry` builds an operation from: the record
      without its `table` entry. */
  function Restore(kind: Kind, definition: Record): Operation
    requires definition.table.Some?
  {
    RestoredOperation(kind, definition.table.value, definition.others)
  }

  /** The error `from_entry` stops at among the definitions `defs[j..]` of
      one kind: the first one without `table`. */
  function MissingTable(defs: seq<Record>, j: nat): Option<Error>
    decreases |defs| - j
  {
    if j >= |defs| then None
    else if defs[j].table.None? then Some(KeyError("table"))
    else MissingTable(defs, j + 1)
  }

  /** The operations `from_entry` adds for the definitions `defs[j..]` of one
      kind, up to the first one without `table`. */
  function Restored(kind: Kind, defs: seq<Record>, j: nat): seq<Operation>
    decreases |defs| - j
  {
    if j >= |defs| || defs[j].table.None? then []
    else [Restore(kind, defs[j])] + Restored(kind, defs, j + 1)
  }

  /** The error `from_entry` stops at for the keys `entry.keys[i..]`: the
      assertion on a key that names no kind, or a missing `table`. */
  function EntryError(entry: Entry, i: nat): Option<Error>
    decreases |entry.keys| - i
  {
    if i >= |entry.keys| then None
    else if KindFromKey(entry.keys[i]).None? then Some(AssertionError("invalid operation type"))
    else if MissingTable(entry.vals[entry.keys[i]], 0).Some? then MissingTable(entry.vals[entry.keys[i]], 0)
    else EntryError(entry, i + 1)
  }

  /** The operations `from_entry` adds for the keys `entry.keys[i..]`, up
      to the error it stops at. */
  function EntryOps(entry: Entry, i: nat): seq<Operation>
    decreases |entry.keys| - i
  {
    if i >= |entry.keys| then []
    else
      match KindFromKey(entry.keys[i])
      case None => []
      case Some(kind) =>
        var defs := entry.vals[entry.keys[i]];
        Restored(kind, defs, 0) + if MissingTable(defs, 0).Some? then [] else EntryOps(entry, i + 1)
  }

  /** A kind's definitions fail exactly when one of them lacks `table`. */
  lemma {:induction false} MissingTableIff(defs: seq<Record>, j: nat)
    ensures MissingTable(defs, j).None? <==> forall n :: j <= n < |defs| ==> defs[n].table.Some?
    ensures MissingTable(defs, j).Some? ==> MissingTable(defs, j) == Some(KeyError("table"))
    decreases |defs| - j
  {
    if j < |defs| && defs[j].table.Some? {
      MissingTableIff(defs, j + 1);
    }
  }

  /** Without a missing `table`, every definition is restored, in order. */
  lemma {:induction false} RestoredAll(kind: Kind, defs: seq<Record>, j: nat)
    requires j <= |defs| && MissingTable(defs, j).None?
    ensures |Restored(kind, defs, j)| == |defs| - j
    ensures forall n :: j <= n < |defs| ==>
      defs[n].table.Some? && Restored(kind, defs, j)[n - j] == Restore(kind, defs[n])
    decreases |defs| - j
  {
    if j < |defs| {
      RestoredAll(kind, defs, j + 1);
    }
  }

  lemma RestoredStep(kind: Kind, defs: seq<Record>, j: nat, added: seq<Operation>)
    requires j < |defs| && defs[j].table.Some?
    requires added + Restored(kind, defs, j) == Restored(kind, defs, 0)
    ensures (added + [Restore(kind, defs[j])]) + Restored(kind, defs, j + 1) == Restored(kind, defs, 0)
    ensures MissingTable(defs, j + 1) == MissingTable(defs, j)
  {
  }

  lemma EntryStep(entry: Entry, i: nat, kind: Kind, added: seq<Operation>)
    requires i < |entry.keys| && KindFromKey(entry.keys[i]) == Some(kind)
    requires MissingTable(entry.vals[entry.keys[i]], 0).None?
    requires added + EntryOps(entry, i) == EntryOps(entry, 0)
    ensures (added + Restored(kind, entry.vals[entry.keys[i]], 0)) + EntryOps(entry, i + 1) == EntryOps(entry, 0)
    ensures EntryError(entry, i + 1) == EntryError(entry, i)
  {
    var defs := entry.vals[entry.keys[i]];
    assert EntryOps(entry, i) == Restored(kind, defs, 0) + EntryOps(entry, i + 1);
    ConcatAssoc(added, Restored(kind, defs, 0), EntryOps(entry, i + 1));
  }

  lemma EntryStop(entry: Entry, i: nat, kind: Kind, added: seq<Operation>)
    requires i < |entry.keys| && KindFromKey(entry.keys[i]) == Some(kind)
    requires MissingTable(entry.vals[entry.keys[i]], 0).Some?
    requires added + EntryOps(entry, i) == EntryOps(entry, 0)
    ensures added + Restored(kind, entry.vals[entry.keys[i]], 0) == EntryOps(entry, 0)
    ensures EntryError(entry, i) == MissingTable(entry.vals[entry.keys[i]], 0)
  {
    var rs := Restored(kind, entry.vals[entry.keys[i]], 0);
    assert rs + [] == rs;
  }

  /** `from_entry` fails exactly when some key names no kind or some
      definition lacks `table` (both directions). */
  lemma {:induction false} EntryErrorIff(entry: Entry, i: nat)
    ensures EntryError(entry, i).None? <==>
            forall n :: i <= n < |entry.keys| ==>
              KindFromKey(entry.keys[n]).Some? &&
              forall j :: 0 <= j < |entry.vals[entry.keys[n]]| ==> entry.vals[entry.keys[n]][j].table.Some?
    decreases |entry.keys| - i
  {
    if i < |entry.keys| && KindFromKey(entry.keys[i]).Some? {
      MissingTableIff(entry.vals[entry.keys[i]], 0);
      EntryErrorIff(entry, i + 1);
    }
  }

  lemma FromEntryRejectsUnknownKind(entry: Entry, n: nat)
    requires n < |entry.keys|
    requires entry.keys[n] != "CREATE_TABLE" && entry.keys[n] != "DELETE_TABLE" && entry.keys[n] != "CHANGE_TABLE"
    ensures EntryError(entry, 0).Some?
  {
    EntryErrorIff(entry, 0);
  }

  /** Every definition with `table` removed: what a complete `from_entry`
      leaves of its argument. */
  function StripTable(defs: seq<Record>): (r: seq<Record>)
    ensures |r| == |defs|
    ensures forall j :: 0 <= j < |defs| ==> r[j] == defs[j].(table := None)
  {
    seq(|defs|, j requires 0 <= j < |defs| => defs[j].(table := None))
  }

  /** The position of the first definition of `defs[j..]` without `table`,
      or `|defs|` when every one has it. */
  function FirstMissing(defs: seq<Record>, j: nat): (r: nat)
    ensures j <= |defs| ==> j <= r <= |defs|
    ensures r < |defs| ==> defs[r].table.None?
    decreases |defs| - j
  {
    if j >= |defs| then |defs|
    else if defs[j].table.None? then j
    else FirstMissing(defs, j + 1)
  }

  /** Popping one more definition strips one more. */
  lemma StripTableSnoc(defs: seq<Record>, j: nat)
    requires j < |defs|
    ensures StripTable(defs[..j + 1]) == StripTable(defs[..j]) + [defs[j].(table := None)]
  {
  }

  /** A kind's definitions as `from_entry`'s pops leave them: `table` popped
      up to the first definition without it, the rest untouched. */
  function Popped(defs: seq<Record>): seq<Record> {
    var m := FirstMissing(defs, 0);
    StripTable(defs[..m]) + defs[m..]
  }

  /** The pops stop short of the end exactly when a definition lacks
      `table`. */
  lemma {:induction false} FirstMissingIff(defs: seq<Record>, j: nat)
    requires j <= |defs|
    ensures FirstMissing(defs, j) == |defs| <==> MissingTable(defs, j).None?
    decreases |defs| - j
  {
    if j < |defs| && defs[j].table.Some? {
      FirstMissingIff(defs, j + 1);
    }
  }

  /** When every definition has `table`, the pops leave exactly the
      stripped list. */
  lemma PoppedOfComplete(defs: seq<Record>)
    requires MissingTable(defs, 0).None?
    ensures Popped(defs) == StripTable(defs)
  {
    FirstMissingIff(defs, 0);
    assert defs[..|defs|] == defs;
  }

  /** The definitions popped so far, followed by the untouched rest, are
      what the pops leave. */
  lemma PoppedOfDone(defs: seq<Record>, done: seq<Record>)
    requires |done| == FirstMissing(defs, 0)
    requires done == StripTable(defs[..|done|])
    ensures done + defs[|done|..] == Popped(defs)
    ensures MissingTable(defs, 0).None? ==> done + defs[|done|..] == StripTable(defs)
  {
    if MissingTable(defs, 0).None? {
      PoppedOfComplete(defs);
    }
  }

  /** The key `from_entry` stops at: it names no kind, or one of its
      definitions lacks `table`. */
  predicate KeyFails(entry: Entry, n: nat)
    requires n < |entry.keys|
  {
    KindFromKey(entry.keys[n]).None? || MissingTable(entry.vals[entry.keys[n]], 0).Some?
  }

  /** What the failing key `n` holds after `from_entry`: an unknown kind is
      rejected before any pop, a known kind has been popped up to its first
      definition without `table`. */
  function AfterPops(entry: Entry, n: nat): seq<Record>
    requires n < |entry.keys|
  {
    if KindFromKey(entry.keys[n]).None? then entry.vals[entry.keys[n]]
    else Popped(entry.vals[entry.keys[n]])
  }

  /** `list(map(lambda o: o.deconstruct(), operations))`. */
  function DeconstructAll(list: seq<Operation>, deconstruct: Operation -> Record): (r: seq<Record>)
    ensures |r| == |list| && forall j :: 0 <= j < |list| ==> r[j] == deconstruct(list[j])
  {
    seq(|list|, j requires 0 <= j < |list| => deconstruct(list[j]))
  }

  /** `to_json`'s mapping for the kinds `d.keys[..n]`: the keys of those
      kinds, in order. */
  function JsonOf(d: Operations, deconstruct: Operation -> Record, n: nat): (r: Dict<string, seq<Record>>)
    requires n <= |d.keys|
    ensures |r.keys| == n
    ensures forall i :: 0 <= i < n ==> r.keys[i] == KindKey(d.keys[i])
    decreases n
  {
    if n == 0 then Empty()
    else
      var before := JsonOf(d, deconstruct, n - 1);
      KindKeyFresh(d, before.keys, n - 1);
      Unlisted(before, KindKey(d.keys[n - 1]));
      Put(before, KindKey(d.keys[n - 1]), DeconstructAll(d.vals[d.keys[n - 1]], deconstruct))
  }

  /** The key of a kind not listed yet is not listed yet. */
  lemma KindKeyFresh(d: Operations, keys: seq<string>, m: nat)
    requires m < |d.keys| && |keys| == m
    requires forall i :: 0 <= i < m ==> keys[i] == KindKey(d.keys[i])
    ensures KindKey(d.keys[m]) !in keys
  {
    forall i | 0 <= i < m ensures keys[i] != KindKey(d.keys[m]) {
      assert KeyAt(d.keys, i) != KeyAt(d.keys, m);
      KindKeyInjective(d.keys[i], d.keys[m]);
    }
  }

  lemma JsonOfUnfold(d: Operations, deconstruct: Operation -> Record, n: nat)
    requires n < |d.keys|
    ensures JsonOf(d, deconstruct, n + 1) ==
      Put(JsonOf(d, deconstruct, n), KindKey(d.keys[n]), DeconstructAll(d.vals[d.keys[n]], deconstruct))
  {
  }

  /** One more kind adds its key at the end, a key not listed before. */
  lemma JsonOfStep(d: Operations, deconstruct: Operation -> Record, n: nat)
    requires 0 < n <= |d.keys|
    ensures JsonOf(d, deconstruct, n).keys == JsonOf(d, deconstruct, n - 1).keys + [KindKey(d.keys[n - 1])]
    ensures JsonOf(d, deconstruct, n).vals ==
      JsonOf(d, deconstruct, n - 1).vals[KindKey(d.keys[n - 1]) := DeconstructAll(d.vals[d.keys[n - 1]], deconstruct)]
  {
    var before := JsonOf(d, deconstruct, n - 1);
    KindKeyFresh(d, before.keys, n - 1);
    Unlisted(before, KindKey(d.keys[n - 1]));
  }

  lemma {:induction false} JsonOfAt(d: Operations, deconstruct: Operation -> Record, n: nat, i: nat)
    requires i < n <= |d.keys|
    ensures KindKey(d.keys[i]) in JsonOf(d, deconstruct, n).vals
    ensures JsonOf(d, deconstruct, n).vals[KindKey(d.keys[i])] == DeconstructAll(d.vals[d.keys[i]], deconstruct)
    decreases n
  {
    JsonOfStep(d, deconstruct, n);
    if i < n - 1 {
      var k := KindKey(d.keys[i]);
      JsonOfAt(d, deconstruct, n - 1, i);
      assert KeyAt(d.keys, i) != KeyAt(d.keys, n - 1);
      KindKeyInjective(d.keys[i], d.keys[n - 1]);
      assert JsonOf(d, deconstruct, n).vals[k] == JsonOf(d, deconstruct, n - 1).vals[k];
    }
  }

  /** The mapping lists each kind's key once, in the dict's kind order, with
      the `deconstruct()` of each of that kind's operations, in order. */
  lemma JsonOfShape(d: Operations, deconstruct: Operation -> Record, n: nat)
    requires n <= |d.keys|
    ensures |JsonOf(d, deconstruct, n).keys| == n
    ensures forall i :: 0 <= i < n ==> JsonOf(d, deconstruct, n).keys[i] == KindKey(d.keys[i])
    ensures forall i :: 0 <= i < n ==>
      KindKey(d.keys[i]) in JsonOf(d, deconstruct, n).vals &&
      JsonOf(d, deconstruct, n).vals[KindKey(d.keys[i])] == DeconstructAll(d.vals[d.keys[i]], deconstruct)
  {
    forall i | 0 <= i < n
      ensures KindKey(d.keys[i]) in JsonOf(d, deconstruct, n).vals
      ensures JsonOf(d, deconstruct, n).vals[KindKey(d.keys[i])] == DeconstructAll(d.vals[d.keys[i]], deconstruct)
    {
      JsonOfAt(d, deconstruct, n, i);
    }
  }

  /** `from_entry`'s argument after `i` keys: the same keys, the first `i`
      of them with `table` popped from every definition, the others
      untouched. */
  ghost predicate Consumed(entry: Entry, consumed: Entry, i: nat) {
    && i <= |entry.keys|
    && consumed.keys == entry.keys
    && (forall n :: 0 <= n < i ==> consumed.vals[entry.keys[n]] == StripTable(entry.vals[entry.keys[n]]))
    && (forall n :: i <= n < |entry.keys| ==> consumed.vals[entry.keys[n]] == entry.vals[entry.keys[n]])
  }

  /** `from_entry`'s argument when it stops at key `e`: the keys before it
      fully popped, `e` as the pops leave it, the later keys untouched. */
  ghost predicate ConsumedUntil(entry: Entry, consumed: Entry, e: nat) {
    && e < |entry.keys|
    && consumed.keys == entry.keys
    && (forall n :: 0 <= n < e ==> consumed.vals[entry.keys[n]] == StripTable(entry.vals[entry.keys[n]]))
    && consumed.vals[entry.keys[e]] == AfterPops(entry, e)
    && (forall n :: e < n < |entry.keys| ==> consumed.vals[entry.keys[n]] == entry.vals[entry.keys[n]])
  }

  /** `from_entry` after `i` keys without an error: the operations added
      are those of the first `i` keys, the error ahead is the entry's, the
      argument is consumed up to `i` and no key so far has failed. */
  ghost predicate Progress(entry: Entry, consumed: Entry, i: nat, added: seq<Operation>) {
    && Consumed(entry, consumed, i)
    && added + EntryOps(entry, i) == EntryOps(entry, 0)
    && EntryError(entry, i) == EntryError(entry, 0)
    && (forall n :: 0 <= n < i ==> !KeyFails(entry, n))
  }

  /** `from_entry` stopped at key `e`: the first key that fails, with the
      argument as `ConsumedUntil` says. */
  ghost predicate StoppedAt(entry: Entry, consumed: Entry, e: nat) {
    && e < |entry.keys|
    && KeyFails(entry, e)
    && (forall n :: 0 <= n < e ==> !KeyFails(entry, n))
    && ConsumedUntil(entry, consumed, e)
  }

  /** A kind key whose definitions all have `table`: `from_entry` goes on
      to the next key. */
  lemma ProgressStep(entry: Entry, consumed: Entry, i: nat, added: seq<Operation>, kind: Kind, after: seq<Record>)
    requires i < |entry.keys| && Progress(entry, consumed, i, added)
    requires KindFromKey(entry.keys[i]) == Some(kind) && MissingTable(entry.vals[entry.keys[i]], 0).None?
    requires after == StripTable(entry.vals[entry.keys[i]])
    ensures !KeyFails(entry, i)
    ensures Progress(entry, Put(consumed, entry.keys[i], after), i + 1, added + Restored(kind, entry.vals[entry.keys[i]], 0))
  {
    EntryStep(entry, i, kind, added);
    ConsumedStep(entry, consumed, i, after);
  }

  /** A kind key with a definition without `table`: `from_entry` stops
      there with the KeyError. */
  lemma ProgressStopMissing(entry: Entry, consumed: Entry, i: nat, added: seq<Operation>, kind: Kind, after: seq<Record>)
    requires i < |entry.keys| && Progress(entry, consumed, i, added)
    requires KindFromKey(entry.keys[i]) == Some(kind) && MissingTable(entry.vals[entry.keys[i]], 0).Some?
    requires after == AfterPops(entry, i)
    ensures added + Restored(kind, entry.vals[entry.keys[i]], 0) == EntryOps(entry, 0)
    ensures EntryError(entry, 0) == MissingTable(entry.vals[entry.keys[i]], 0)
    ensures StoppedAt(entry, Put(consumed, entry.keys[i], after), i)
  {
    EntryStop(entry, i, kind, added);
    ConsumedStop(entry, consumed, i, after);
  }

  /** A key naming no kind: `from_entry` stops there with the assertion,
      before popping anything. */
  lemma ProgressStopKind(entry: Entry, consumed: Entry, i: nat, added: seq<Operation>)
    requires i < |entry.keys| && Progress(entry, consumed, i, added)
    requires KindFromKey(entry.keys[i]).None?
    ensures added == EntryOps(entry, 0)
    ensures EntryError(entry, 0) == Some(AssertionError("invalid operation type"))
    ensures StoppedAt(entry, Put(consumed, entry.keys[i], entry.vals[entry.keys[i]]), i)
  {
    assert EntryOps(entry, i) == [];
    assert added + [] == added;
    ConsumedStop(entry, consumed, i, entry.vals[entry.keys[i]]);
  }

  /** A key fully popped: the argument is consumed one key further. */
  lemma ConsumedStep(entry: Entry, consumed: Entry, i: nat, after: seq<Record>)
    requires i < |entry.keys| && Consumed(entry, consumed, i)
    requires after == StripTable(entry.vals[entry.keys[i]])
    ensures Consumed(entry, Put(consumed, entry.keys[i], after), i + 1)
  {
    PutOthers(entry, consumed, i, after);
  }

  /** A key whose pops stopped: the argument is left as `ConsumedUntil`
      says. */
  lemma ConsumedStop(entry: Entry, consumed: Entry, i: nat, after: seq<Record>)
    requires i < |entry.keys| && Consumed(entry, consumed, i)
    requires after == AfterPops(entry, i)
    ensures ConsumedUntil(entry, Put(consumed, entry.keys[i], after), i)
  {
    PutOthers(entry, consumed, i, after);
  }

  /** Putting key `i` back leaves the keys and every other key's list. */
  lemma PutOthers(entry: Entry, consumed: Entry, i: nat, after: seq<Record>)
    requires i < |entry.keys| && consumed.keys == entry.keys
    ensures Put(consumed, entry.keys[i], after).keys == entry.keys
    ensures Put(consumed, entry.keys[i], after).vals[entry.keys[i]] == after
    ensures forall n :: 0 <= n < |entry.keys| && n != i ==>
      Put(consumed, entry.keys[i], after).vals[entry.keys[n]] == consumed.vals[entry.keys[n]]
  {
    var k := entry.keys[i];
    assert consumed.keys[i] == k;
    var put := Put(consumed, k, after);
    forall n | 0 <= n < |entry.keys| && n != i ensures put.vals[entry.keys[n]] == consumed.vals[entry.keys[n]] {
      assert KeyAt(entry.keys, n) != KeyAt(entry.keys, i);
    }
  }

  /** One call of the executor: `executor(query, script=...)`. */
  datatype ExecutorCall = ExecutorCall(query: string, script: bool)

  class Migration {
    /** `_operations`. */
    var operations: Operations

    ghost predicate Valid()
      reads this
    {
      Grouped(operations)
    }

    constructor ()
      ensures Valid() && operations == Empty()
    {
      operations := Empty();
    }

    /** `_get_same_operations_list`: the kind's list, created empty when
        missing. */
    method GetSameOperationsList(kind: Kind) returns (list: seq<Operation>)
      requires Homogeneous(operations)
      modifies this
      ensures Homogeneous(operations)
      ensures list == GetOr(old(operations), kind, [])
      ensures operations == if kind in old(operations).vals then old(operations) else Put(old(operations), kind, [])
    {
      var found := Get(operations, kind);
      if found.None? {
        list := [];
        operations := Put(operations, kind, list);
      } else {
        list := found.value;
      }
    }

    /** `_add_operation`, the kind being the operation's own: appends it to
        its kind's list and returns it. */
    method AddOperation(op: Operation) returns (added: Operation)
      requires Valid()
      modifies this
      ensures Valid() && added == op
      ensures operations == AddTo(old(operations), op)
    {
      var list := GetSameOperationsList(KindOf(op));
      operations := Put(operations, KindOf(op), list + [op]);
      added := op;
    }

    method AddCreateTableOperation(table: string, meta: TableMeta) returns (op: Operation)
      requires Valid()
      modifies this
      ensures Valid() && op == CreateTableOperation(table, meta) && KindOf(op) == CreateTable
      ensures operations == AddTo(old(operations), op)
    {
      op := AddOperation(CreateTableOperation(table, meta));
    }

    method AddDeleteTableOperation(table: string) returns (op: Operation)
      requires Valid()
      modifies this
      ensures Valid() && op == DeleteTableOperation(table) && KindOf(op) == DeleteTable
      ensures operations == AddTo(old(operations), op)
    {
      op := AddOperation(DeleteTableOperation(table));
    }

    /** Adds an alter-table operation with no suboperations yet and returns
        the handle through which they are added: its index in the
        CHANGE_TABLE list. */
    method AddChangeTableOperation(table: string, meta: TableMeta) returns (handle: nat)
      requires Valid()
      modifies this
      ensures Valid()
      ensures operations == AddTo(old(operations), AlterTableOperation(table, meta, []))
      ensures handle == |GetOr(old(operations), ChangeTable, [])|
    {
      handle := |GetOr(operations, ChangeTable, [])|;
      var _ := AddOperation(AlterTableOperation(table, meta, []));
    }

    /** `add_create_field_suboperation`, `add_delete_field_suboperation` and
        `add_change_field_suboperation` on the operation behind `handle`. */
    method AddSuboperation(handle: nat, sub: SubOperation)
      requires Valid() && HasAlterAt(operations, handle)
      modifies this
      ensures Valid()
      ensures operations == WithSub(old(operations), handle, sub)
    {
      var list := operations.vals[ChangeTable];
      operations := Put(operations, ChangeTable,
        list[handle := list[handle].(suboperations := list[handle].suboperations + [sub])]);
    }

    /** The inner loop of `from_entry` for one kind: pops `table` from each
        definition in order and adds the restored operation. `done` holds the
        definitions popped so far. */
    method AddRestored(kind: Kind, defs: seq<Record>) returns (err: Option<Error>, done: seq<Record>)
      requires Valid()
      modifies this
      ensures Valid()
      ensures operations == AddAll(old(operations), Restored(kind, defs, 0))
      ensures err == MissingTable(defs, 0)
      ensures |done| <= |defs| && done == StripTable(defs[..|done|])
      ensures err.None? ==> |done| == |defs|
      ensures |done| == FirstMissing(defs, 0)
    {
      ghost var added: seq<Operation> := [];
      done := [];
      var j := 0;
      while j < |defs|
        invariant 0 <= j <= |defs|
        invariant operations == AddAll(old(operations), added)
        invariant added + Restored(kind, defs, j) == Restored(kind, defs, 0)
        invariant MissingTable(defs, j) == MissingTable(defs, 0)
        invariant |done| == j && done == StripTable(defs[..j])
        invariant FirstMissing(defs, j) == FirstMissing(defs, 0)
      {
        var definition := defs[j];
        if definition.table.None? {
          assert added + [] == added;
          AddAllGrouped(old(operations), added);
          err := Some(KeyError("table"));
          return;
        }
        var table := definition.table.value;
        var stripped := definition.(table := None);
        StripTableSnoc(defs, j);
        done := done + [stripped];
        AddAllGrouped(old(operations), added);
        var op := AddOperation(RestoredOperation(kind, table, stripped.others));
        RestoredStep(kind, defs, j, added);
        AddAllSnoc(old(operations), added, op);
        added := added + [op];
        j := j + 1;
      }
      assert added + [] == added;
      AddAllGrouped(old(operations), added);
      err := None;
    }

    /** One key of `from_entry`'s loop: the assertion that it names a kind,
        then the restoring of its definitions. `consumed` is the argument as
        the earlier keys left it, `consumed'` as this key leaves it. */
    method RestoreKey(entry: Entry, i: nat, consumed: Entry, ghost start: Operations, ghost added: seq<Operation>)
      returns (err: Option<Error>, consumed': Entry, ghost added': seq<Operation>)
      requires i < |entry.keys| && Grouped(start) && Progress(entry, consumed, i, added)
      requires operations == AddAll(start, added)
      modifies this
      ensures operations == AddAll(start, added')
      ensures err.None? <==> !KeyFails(entry, i)
      ensures err.None? ==> Progress(entry, consumed', i + 1, added')
      ensures err.Some? ==>
        added' == EntryOps(entry, 0) && err == EntryError(entry, 0) && Grouped(operations) &&
        StoppedAt(entry, consumed', i)
    {
      var key := entry.keys[i];
      var defs := entry.vals[key];
      var kind := KindFromKey(key);
      if kind.None? {
        ProgressStopKind(entry, consumed, i, added);
        AddAllGrouped(start, added);
        added' := added;
        err := Some(AssertionError("invalid operation type"));
        consumed' := Put(consumed, key, defs);
        return;
      }
      AddAllGrouped(start, added);
      var done;
      err, done := AddRestored(kind.value, defs);
      AddAllConcat(start, added, Restored(kind.value, defs, 0));
      added' := added + Restored(kind.value, defs, 0);
      var after := done + defs[|done|..];
      PoppedOfDone(defs, done);
      if err.Some? {
        ProgressStopMissing(entry, consumed, i, added, kind.value, after);
        AddAllGrouped(start, added');
      } else {
        ProgressStep(entry, consumed, i, added, kind.value, after);
      }
      consumed' := Put(consumed, key, after);
    }

    /** `from_entry`: for each key in order, asserts it is a kind key, then
        restores its definitions. `consumed` is the argument as the pops
        leave it. */
    method FromEntry(entry: Entry) returns (r: Result<()>, consumed: Entry)
      requires Valid()
      modifies this
      ensures Valid()
      ensures operations == AddAll(old(operations), EntryOps(entry, 0))
      ensures r.Ok? <==> EntryError(entry, 0).None?
      ensures r.Err? ==> r.error == EntryError(entry, 0).value
      ensures consumed.keys == entry.keys
      ensures r.Ok? ==> forall n :: 0 <= n < |entry.keys| ==>
        consumed.vals[entry.keys[n]] == StripTable(entry.vals[entry.keys[n]])
      ensures r.Err? ==> exists e :: StoppedAt(entry, consumed, e)
    {
      consumed := entry;
      ghost var added: seq<Operation> := [];
      var i := 0;
      while i < |entry.keys|
        invariant 0 <= i <= |entry.keys|
        invariant operations == AddAll(old(operations), added)
        invariant Progress(entry, consumed, i, added)
      {
        var err;
        err, consumed, added := RestoreKey(entry, i, consumed, old(operations), added);
        if err.Some? {
          r := Err(err.value);
          return;
        }
        i := i + 1;
      }
      assert added + [] == added;
      AddAllGrouped(old(operations), added);
      r := Ok(());
    }

    /** The shape of `to_json`'s mapping: the same kinds, as their keys, in
        the same order, each with the `deconstruct()` of its operations. */
    method ToJson(deconstruct: Operation -> Record) returns (r: Dict<string, seq<Record>>)
      ensures r == JsonOf(operations, deconstruct, |operations.keys|)
    {
      var ops := operations;
      r := Empty();
      var i := 0;
      while i < |ops.keys|
        invariant 0 <= i <= |ops.keys|
        invariant r == JsonOf(ops, deconstruct, i)
      {
        var k := ops.keys[i];
        JsonOfUnfold(ops, deconstruct, i);
        r := Put(r, KindKey(k), DeconstructAll(ops.vals[k], deconstruct));
        i := i + 1;
      }
    }

    /** `apply`: replays every operation, kind by kind in key order, onto
        the one schema engine the executor gave, then hands that engine's
        rendering to the executor once, as a script. */
    method Apply<S>(engine: S, applyOperation: (S, Operation) -> S, render: S -> string)
      returns (calls: seq<ExecutorCall>)
      ensures calls == [ExecutorCall(render(Replay(engine, applyOperation, Flatten(operations))), true)]
    {
      var ops := operations;
      var schema := engine;
      var i := 0;
      while i < |ops.keys|
        invariant 0 <= i <= |ops.keys|
        invariant schema == Replay(engine, applyOperation, Concat(ops, ops.keys[..i]))
      {
        var list := ops.vals[ops.keys[i]];
        ghost var done := Concat(ops, ops.keys[..i]);
        assert done + list[..0] == done;
        var j := 0;
        while j < |list|
          invariant 0 <= j <= |list|
          invariant schema == Replay(engine, applyOperation, done + list[..j])
        {
          ReplayPrefixStep(engine, applyOperation, done, list, j);
          schema := applyOperation(schema, list[j]);
          j := j + 1;
        }
        assert list[..j] == list;
        ConcatSnoc(ops, ops.keys, i);
        i := i + 1;
      }
      assert ops.keys[..i] == ops.keys;
      calls := [ExecutorCall(render(schema), true)];
    }

    /** `apply_to_state`: replays every operation, in the same order, onto
        the state's mapping. */
    method ApplyToState(state: StateMap, applyOperation: (StateMap, Operation) -> StateMap)
      returns (next: StateMap)
      ensures next == Replay(state, applyOperation, Flatten(operations))
    {
      var ops := operations;
      next := state;
      var i := 0;
      while i < |ops.keys|
        invariant 0 <= i <= |ops.keys|
        invariant next == Replay(state, applyOperation, Concat(ops, ops.keys[..i]))
      {
        var list := ops.vals[ops.keys[i]];
        ghost var done := Concat(ops, ops.keys[..i]);
        assert done + list[..0] == done;
        var j := 0;
        while j < |list|
          invariant 0 <= j <= |list|
          invariant next == Replay(state, applyOperation, done + list[..j])
        {
          ReplayPrefixStep(state, applyOperation, done, list, j);
          next := applyOperation(next, list[j]);
          j := j + 1;
        }
        assert list[..j] == list;
        ConcatSnoc(ops, ops.keys, i);
        i := i + 1;
      }
      assert ops.keys[..i] == ops.keys;
    }

    /** `__bool__`: some kind holds a list. */
    predicate IsNonEmpty()
      reads this
      ensures IsNonEmpty() <==> exists k :: k in operations.vals
    {
      DictKeys(operations);
      |operations.keys| > 0
    }
  }
}
