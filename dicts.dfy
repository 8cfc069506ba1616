/** Python's `dict`: a finite map that remembers the order in which its keys
    were first inserted. Assigning to an existing key keeps its position;
    deleting a key keeps the order of the others. `copy()` is the value
    itself, since these dicts are values here. */
module Dicts {
  import opened Py

  ghost predicate Distinct<K(!new)>(s: seq<K>) {
    forall i, j :: 0 <= i < j < |s| ==> s[i] != s[j]
  }

  /** `s[i]`, under a name of its own: `Unique` is triggered only by it. */
  ghost function KeyAt<K>(s: seq<K>, i: nat): K
    requires i < |s|
  {
    s[i]
  }

  /** `Distinct`, stated so that it is used only where a proof asks for it
      (through `DictKeys`) and not on every pair of indexes of every list
      of keys. */
  ghost predicate Unique<K(!new)>(s: seq<K>) {
    forall i, j {:trigger KeyAt(s, i), KeyAt(s, j)} :: 0 <= i < j < |s| ==> KeyAt(s, i) != KeyAt(s, j)
  }

  lemma UniqueDistinct<K(!new)>(s: seq<K>)
    ensures Unique(s) <==> Distinct(s)
  {
    if Unique(s) {
      forall i, j | 0 <= i < j < |s| ensures s[i] != s[j] {
        assert KeyAt(s, i) != KeyAt(s, j);
      }
    }
    if Distinct(s) {
      forall i, j | 0 <= i < j < |s| ensures KeyAt(s, i) != KeyAt(s, j) {
        assert s[i] != s[j];
      }
    }
  }

  datatype RawDict<K, V> = RawDict(keys: seq<K>, vals: map<K, V>)

  /** Distinct keys, each with a value, and no other values: the last part
      is stated by counting, and `DictKeys` turns it into membership. */
  ghost predicate WellFormed<K(!new), V>(d: RawDict<K, V>) {
    Unique(d.keys) && (forall i :: 0 <= i < |d.keys| ==> d.keys[i] in d.vals) && |d.vals| == |d.keys|
  }

  /** `keys` lists the keys in insertion order; `vals` gives their values. */
  type Dict<K(!new), V> = d: RawDict<K, V> | WellFormed(d) witness RawDict([], map[])

  /** The elements of a sequence. */
  ghost function Elems<K(!new)>(s: seq<K>): set<K>
    decreases |s|
  {
    if s == [] then {} else Elems(s[..|s| - 1]) + {s[|s| - 1]}
  }

  lemma {:induction false} ElemsOf<K(!new)>(s: seq<K>)
    ensures forall x :: x in Elems(s) <==> x in s
    ensures Distinct(s) ==> |Elems(s)| == |s|
    decreases |s|
  {
    if s != [] {
      var init := s[..|s| - 1];
      ElemsOf(init);
      assert s == init + [s[|s| - 1]];
      if Distinct(s) {
        assert s[|s| - 1] !in init;
      }
    }
  }

  /** The keys of a dict's values are exactly its listed keys. */
  lemma DictKeys<K(!new), V>(d: Dict<K, V>)
    ensures d.vals.Keys == Elems(d.keys)
    ensures forall k :: k in d.vals <==> k in d.keys
    ensures Distinct(d.keys)
  {
    UniqueDistinct(d.keys);
    ElemsOf(d.keys);
    forall x | x in Elems(d.keys) ensures x in d.vals {
      var i :| 0 <= i < |d.keys| && d.keys[i] == x;
    }
    var rest := d.vals.Keys - Elems(d.keys);
    assert rest + Elems(d.keys) == d.vals.Keys && rest * Elems(d.keys) == {};
    assert |rest| + |Elems(d.keys)| == |d.vals.Keys| == |d.vals|;
    assert rest == {};
  }

  /** A key that is not listed has no value. */
  lemma Unlisted<K(!new), V>(d: Dict<K, V>, k: K)
    requires k !in d.keys
    ensures k !in d.vals
  {
    DictKeys(d);
  }

  function Empty<K(!new), V>(): (d: Dict<K, V>)
    ensures d.keys == [] && d.vals == map[]
  {
    RawDict([], map[])
  }

  /** `d.get(k)`, with Python's None as `None`. */
  function Get<K(!new), V>(d: Dict<K, V>, k: K): Option<V> {
    if k in d.vals then Some(d.vals[k]) else None
  }

  function GetOr<K(!new), V>(d: Dict<K, V>, k: K, default: V): V {
    if k in d.vals then d.vals[k] else default
  }

  /** `d[k] = v`: a new key goes last, an existing key keeps its place. */
  function Put<K(!new), V>(d: Dict<K, V>, k: K, v: V): (r: Dict<K, V>)
    ensures r.vals == d.vals[k := v]
    ensures r.keys == if k in d.vals then d.keys else d.keys + [k]
  {
    if k in d.vals then RawDict(d.keys, d.vals[k := v])
    else
      assert k !in d.keys;
      DictKeys(d);
      UniqueDistinct(d.keys + [k]);
      RawDict(d.keys + [k], d.vals[k := v])
  }

  lemma PutPut<K(!new), V>(d: Dict<K, V>, k: K, v1: V, v2: V)
    ensures Put(Put(d, k, v1), k, v2) == Put(d, k, v2)
  {
  }

  /** `s` without the elements in `drop`, order kept. */
  function Keep<K(!new)>(s: seq<K>, drop: set<K>): (r: seq<K>)
    ensures |r| <= |s|
    decreases |s|
  {
    if s == [] then []
    else if s[0] in drop then Keep(s[1..], drop)
    else [s[0]] + Keep(s[1..], drop)
  }

  lemma {:induction false} KeepMembers<K(!new)>(s: seq<K>, drop: set<K>)
    ensures forall x :: x in Keep(s, drop) <==> x in s && x !in drop
    decreases |s|
  {
    if s != [] {
      KeepMembers(s[1..], drop);
      assert s == [s[0]] + s[1..];
    }
  }

  lemma {:induction false} KeepDistinct<K(!new)>(s: seq<K>, drop: set<K>)
    requires Distinct(s)
    ensures Distinct(Keep(s, drop))
  {
    if s != [] {
      KeepDistinct(s[1..], drop);
      KeepMembers(s[1..], drop);
      var rest := Keep(s[1..], drop);
      if s[0] !in drop {
        assert s[0] !in rest;
        var r := [s[0]] + rest;
        forall i, j | 0 <= i < j < |r| ensures r[i] != r[j] {
          if i > 0 {
            assert r[i] == rest[i - 1] && r[j] == rest[j - 1];
          } else {
            assert r[j] in rest;
          }
        }
      }
    }
  }

  lemma {:induction false} KeepKeep<K(!new)>(s: seq<K>, a: set<K>, b: set<K>)
    ensures Keep(Keep(s, a), b) == Keep(s, a + b)
  {
    if s != [] {
      KeepKeep(s[1..], a, b);
      if s[0] !in a {
        assert Keep(s, a) == [s[0]] + Keep(s[1..], a);
        assert ([s[0]] + Keep(s[1..], a))[1..] == Keep(s[1..], a);
      }
    }
  }

  lemma {:induction false} KeepSnoc<K(!new)>(s: seq<K>, x: K, drop: set<K>)
    ensures Keep(s + [x], drop) == Keep(s, drop) + (if x in drop then [] else [x])
    decreases |s|
  {
    if s == [] {
      assert [x][1..] == [];
    } else {
      assert (s + [x])[1..] == s[1..] + [x];
      KeepSnoc(s[1..], x, drop);
    }
  }

  lemma {:induction false} KeepNothing<K(!new)>(s: seq<K>, drop: set<K>)
    requires forall i :: 0 <= i < |s| ==> s[i] !in drop
    ensures Keep(s, drop) == s
  {
    if s != [] {
      KeepNothing(s[1..], drop);
    }
  }

  /** Deleting keys keeps the keys distinct and listed exactly once each. */
  lemma RemoveAllWellFormed<K(!new), V>(d: Dict<K, V>, drop: set<K>)
    ensures WellFormed(RawDict(Keep(d.keys, drop), d.vals - drop))
  {
    var keys := Keep(d.keys, drop);
    DictKeys(d);
    KeepDistinct(d.keys, drop);
    UniqueDistinct(keys);
    KeepMembers(d.keys, drop);
    ElemsOf(keys);
    forall x ensures x in Elems(keys) <==> x in d.vals.Keys - drop {
      assert x in Elems(keys) <==> x in keys;
      assert x in keys <==> x in d.keys && x !in drop;
      assert x in d.vals <==> x in d.keys;
    }
    assert Elems(keys) == d.vals.Keys - drop;
    assert (d.vals - drop).Keys == d.vals.Keys - drop;
  }

  /** The dict with every key of `drop` deleted. */
  function RemoveAll<K(!new), V>(d: Dict<K, V>, drop: set<K>): (r: Dict<K, V>)
    ensures r.vals == d.vals - drop
    ensures r.keys == Keep(d.keys, drop)
  {
    RemoveAllWellFormed(d, drop);
    RawDict(Keep(d.keys, drop), d.vals - drop)
  }

  lemma {:induction false} KeepAll<K(!new)>(s: seq<K>, drop: set<K>)
    requires forall i :: 0 <= i < |s| ==> s[i] in drop
    ensures Keep(s, drop) == []
  {
    if s != [] {
      KeepAll(s[1..], drop);
    }
  }

  /** Deleting all of a dict's own keys leaves no key. */
  lemma KeepOwnKeys<K(!new), V>(d: Dict<K, V>)
    ensures Keep(d.keys, d.vals.Keys) == []
  {
    KeepAll(d.keys, d.vals.Keys);
  }

  lemma RemoveNothing<K(!new), V>(d: Dict<K, V>)
    ensures RemoveAll(d, {}) == d
  {
    KeepNothing(d.keys, {});
  }

  /** `del d[k]`, or `d.pop(k)` for its effect on `d`. */
  function Remove<K(!new), V>(d: Dict<K, V>, k: K): (r: Dict<K, V>)
    ensures r.vals == d.vals - {k}
    ensures r.keys == Keep(d.keys, {k})
  {
    RemoveAll(d, {k})
  }

  lemma RemoveAllStep<K(!new), V>(d: Dict<K, V>, drop: set<K>, k: K)
    ensures Remove(RemoveAll(d, drop), k) == RemoveAll(d, drop + {k})
  {
    KeepKeep(d.keys, drop, {k});
  }

  /** Deleting a key that is not there changes nothing. */
  lemma RemoveAllAbsent<K(!new), V>(d: Dict<K, V>, drop: set<K>, k: K)
    requires k !in d.vals
    ensures RemoveAll(d, drop + {k}) == RemoveAll(d, drop)
  {
    var kept := Keep(d.keys, drop);
    KeepKeep(d.keys, drop, {k});
    KeepMembers(d.keys, drop);
    DictKeys(d);
    forall i | 0 <= i < |kept| ensures kept[i] !in {k} {
      assert kept[i] in d.keys;
    }
    KeepNothing(kept, {k});
    assert d.vals - (drop + {k}) == d.vals - drop;
  }

  lemma ElemsSnoc<K(!new)>(s: seq<K>, n: nat)
    requires n < |s|
    ensures Elems(s[..n + 1]) == Elems(s[..n]) + {s[n]}
  {
    assert s[..n + 1][..n] == s[..n];
  }

  /** `list(d.values())`. */
  function Values<K(!new), V>(d: Dict<K, V>): (r: seq<V>)
    ensures |r| == |d.keys|
    ensures forall i :: 0 <= i < |r| ==> r[i] == d.vals[d.keys[i]]
  {
    seq(|d.keys|, i requires 0 <= i < |d.keys| => d.vals[d.keys[i]])
  }

  /** `list(d.items())`. */
  function Items<K(!new), V>(d: Dict<K, V>): (r: seq<(K, V)>)
    ensures |r| == |d.keys|
    ensures forall i :: 0 <= i < |r| ==> r[i] == (d.keys[i], d.vals[d.keys[i]])
  {
    seq(|d.keys|, i requires 0 <= i < |d.keys| => (d.keys[i], d.vals[d.keys[i]]))
  }

  /** A new key's item comes after all the others. */
  lemma ItemsPutNew<K(!new), V>(d: Dict<K, V>, k: K, v: V)
    requires k !in d.vals
    ensures Items(Put(d, k, v)) == Items(d) + [(k, v)]
  {
    DictKeys(d);
    var after := Items(Put(d, k, v));
    forall i | 0 <= i < |d.keys| ensures after[i] == Items(d)[i] {
      assert d.keys[i] != k;
    }
  }

  /** `dict(pairs)`: later pairs overwrite earlier ones with the same key,
      which keep their first position. */
  function FromPairs<K(!new), V>(pairs: seq<(K, V)>): Dict<K, V>
    decreases |pairs|
  {
    if pairs == [] then Empty()
    else Put(FromPairs(pairs[..|pairs| - 1]), pairs[|pairs| - 1].0, pairs[|pairs| - 1].1)
  }

  /** A key is in `dict(pairs)` iff some pair has it, and a pair that no
      later pair overrides gives its value. */
  lemma {:induction false} FromPairsLast<K(!new), V>(pairs: seq<(K, V)>)
    ensures forall k :: k in FromPairs(pairs).vals <==> exists i :: 0 <= i < |pairs| && pairs[i].0 == k
    ensures forall i :: 0 <= i < |pairs| && (forall j :: i < j < |pairs| ==> pairs[j].0 != pairs[i].0) ==>
      FromPairs(pairs).vals[pairs[i].0] == pairs[i].1
    decreases |pairs|
  {
    if pairs != [] {
      var init := pairs[..|pairs| - 1];
      FromPairsLast(init);
      assert forall i :: 0 <= i < |init| ==> init[i] == pairs[i];
    }
  }
}
