/** The operator registry of a table schema engine: an ordered map from
    operator name to the operator registered under it, each operator
    standing for the calls queued on it so far. Calling `self.<name>(...)`
    on the engine queues a call on that operator. The operator classes of
    the SQLite engines are not part of this model, so whether an operator
    holds something (`bool(operator)`) and what it renders are parameters,
    `isSet` and `render`, of the functions that need them. */
module Registry {
  import opened Py
  import opened Dicts

  type Operators<C> = Dict<string, seq<C>>

  /** `self._operators[name] = Operator(self)`: a fresh operator, with
      nothing queued, at the end, or in its old place when `name` was
      registered already. */
  function Register<C>(ops: Operators<C>, name: string): (r: Operators<C>)
    ensures r.vals == ops.vals[name := []]
    ensures r.keys == if name in ops.vals then ops.keys else ops.keys + [name]
  {
    Put(ops, name, [])
  }

  /** The four table operators, registered in the order drop, add, add_fk,
      rename_to. */
  function TableOperators<C>(ops: Operators<C>): Operators<C> {
    Register(Register(Register(Register(ops, "drop"), "add"), "add_fk"), "rename_to")
  }

  function FreshTableOperators<C>(): Operators<C> {
    TableOperators(Empty())
  }

  /** On an engine with no operator yet, the registry lists exactly the four
      names, in registration order, each with nothing queued. */
  lemma FreshTableOperatorsShape<C>()
    ensures FreshTableOperators<C>().keys == ["drop", "add", "add_fk", "rename_to"]
    ensures forall n :: Queued(FreshTableOperators<C>(), n) == []
  {
    var e: Operators<C> := Empty();
    assert "add" !in Register(e, "drop").vals;
    assert "add_fk" !in Register(Register(e, "drop"), "add").vals;
    assert "rename_to" !in Register(Register(Register(e, "drop"), "add"), "add_fk").vals;
  }

  /** The calls queued on the operator `name`; none when it is missing. */
  function Queued<C>(ops: Operators<C>, name: string): seq<C> {
    GetOr(ops, name, [])
  }

  /** `self.<name>(...)`: the call is queued after those already on the
      operator; every other operator keeps its calls, and a registered name
      keeps its place. */
  function Queue<C>(ops: Operators<C>, name: string, call: C): (r: Operators<C>)
    ensures r.vals == ops.vals[name := Queued(ops, name) + [call]]
    ensures name in ops.vals ==> r.keys == ops.keys
  {
    Put(ops, name, Queued(ops, name) + [call])
  }

  /** The renderings of the operators that hold something, in registration
      order: what `to_str` collects into `applied_operators`. */
  function Applied<C>(items: seq<(string, seq<C>)>, isSet: (string, seq<C>) -> bool,
                      render: (string, seq<C>) -> string): seq<string>
    decreases |items|
  {
    if items == [] then []
    else
      var last := items[|items| - 1];
      Applied(items[..|items| - 1], isSet, render) + (if isSet(last.0, last.1) then [render(last.0, last.1)] else [])
  }

  /** A rendering is collected iff it is that of an operator that holds
      something, and there are no more renderings than operators. The order
      is that of the registry by construction; `AppliedAll` states it for
      the case where every operator holds something. */
  lemma {:induction false} AppliedMembers<C>(items: seq<(string, seq<C>)>, isSet: (string, seq<C>) -> bool,
                                             render: (string, seq<C>) -> string)
    ensures |Applied(items, isSet, render)| <= |items|
    ensures forall s :: s in Applied(items, isSet, render) <==>
      exists i :: 0 <= i < |items| && isSet(items[i].0, items[i].1) && s == render(items[i].0, items[i].1)
    decreases |items|
  {
    if items != [] {
      var init := items[..|items| - 1];
      AppliedMembers(init, isSet, render);
      assert forall i :: 0 <= i < |init| ==> init[i] == items[i];
    }
  }

  /** When no operator holds anything, nothing is rendered. */
  lemma {:induction false} AppliedNone<C>(items: seq<(string, seq<C>)>, isSet: (string, seq<C>) -> bool,
                                          render: (string, seq<C>) -> string)
    requires forall i :: 0 <= i < |items| ==> !isSet(items[i].0, items[i].1)
    ensures Applied(items, isSet, render) == []
    decreases |items|
  {
    if items != [] {
      AppliedNone(items[..|items| - 1], isSet, render);
    }
  }

  /** When every operator holds something, each one is rendered, in order. */
  lemma {:induction false} AppliedAll<C>(items: seq<(string, seq<C>)>, isSet: (string, seq<C>) -> bool,
                                         render: (string, seq<C>) -> string)
    requires forall i :: 0 <= i < |items| ==> isSet(items[i].0, items[i].1)
    ensures |Applied(items, isSet, render)| == |items|
    ensures forall i :: 0 <= i < |items| ==> Applied(items, isSet, render)[i] == render(items[i].0, items[i].1)
    decreases |items|
  {
    if items != [] {
      var init := items[..|items| - 1];
      AppliedAll(init, isSet, render);
      assert forall i :: 0 <= i < |init| ==> init[i] == items[i];
    }
  }

  /** Four operators of which only the first two hold something render as
      those two, on two lines. */
  lemma AppliedFirstTwo<C>(x0: (string, seq<C>), x1: (string, seq<C>), x2: (string, seq<C>), x3: (string, seq<C>),
                           isSet: (string, seq<C>) -> bool, render: (string, seq<C>) -> string)
    requires isSet(x0.0, x0.1) && isSet(x1.0, x1.1) && !isSet(x2.0, x2.1) && !isSet(x3.0, x3.1)
    ensures Join("\n", Applied([x0, x1, x2, x3], isSet, render)) == render(x0.0, x0.1) + "\n" + render(x1.0, x1.1)
  {
    var a := render(x0.0, x0.1);
    var b := render(x1.0, x1.1);
    assert [x0, x1, x2, x3][..3] == [x0, x1, x2];
    assert [x0, x1, x2][..2] == [x0, x1];
    assert [x0, x1][..1] == [x0];
    assert [x0][..0] == [];
    assert Applied([x0], isSet, render) == [a];
    assert Applied([x0, x1], isSet, render) == [a] + [b];
    assert Applied([x0, x1, x2], isSet, render) == [a] + [b];
    JoinSnoc("\n", [a], b);
  }
}
