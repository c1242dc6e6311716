/** A PHP array with string keys used as a dictionary: an ordered map whose iteration order is
    the order in which keys were first inserted. Assigning to a key that is
    already present keeps its position; assigning to a new key appends it. */
module OrderedMaps {

  datatype OrderedMap<V> = OrderedMap(keys: seq<string>, values: map<string, V>)
  {
    /** Every key occurs once in the order and the order lists exactly the keys of the map. */
    ghost predicate Valid()
    {
      (forall i, j :: 0 <= i < j < |keys| ==> keys[i] != keys[j]) &&
      (forall k :: k in values <==> k in keys)
    }
  }

  function Empty<V>(): (m: OrderedMap<V>)
    ensures m.Valid() && m.keys == [] && m.values == map[]
  {
    OrderedMap([], map[])
  }

  /** Appends every element of `xs` not yet present, in order: the key order
      produced by a sequence of assignments. */
  function AppendNew(ks: seq<string>, xs: seq<string>): seq<string>
    decreases |xs|
  {
    if xs == [] then ks
    else AppendNew(if xs[0] in ks then ks else ks + [xs[0]], xs[1..])
  }

  /** `$m[$k] = $v`. */
  function Put<V>(m: OrderedMap<V>, k: string, v: V): (r: OrderedMap<V>)
    requires m.Valid()
    ensures r.Valid()
    ensures r.keys == AppendNew(m.keys, [k])
    ensures k in r.values && r.values[k] == v
    ensures forall j :: j != k ==> (j in r.values <==> j in m.values)
    ensures forall j :: j != k && j in m.values ==> r.values[j] == m.values[j]
  {
    assert [k][1..] == [];
    if k in m.values then OrderedMap(m.keys, m.values[k := v])
    else OrderedMap(m.keys + [k], m.values[k := v])
  }

  lemma {:induction false} AppendNewConcat(ks: seq<string>, xs: seq<string>, ys: seq<string>)
    ensures AppendNew(ks, xs + ys) == AppendNew(AppendNew(ks, xs), ys)
    decreases |xs|
  {
    if xs == [] {
      assert xs + ys == ys;
    } else {
      assert (xs + ys)[0] == xs[0];
      assert (xs + ys)[1..] == xs[1..] + ys;
      AppendNewConcat(if xs[0] in ks then ks else ks + [xs[0]], xs[1..], ys);
    }
  }

  /** Key order is first-insertion order: the old keys stay in front, and an
      element ends up in the key order exactly when it was present or inserted. */
  lemma {:induction false} AppendNewMembers(ks: seq<string>, xs: seq<string>)
    ensures |ks| <= |AppendNew(ks, xs)| && AppendNew(ks, xs)[..|ks|] == ks
    ensures forall k :: k in AppendNew(ks, xs) <==> k in ks || k in xs
    decreases |xs|
  {
    if xs != [] {
      var ks' := if xs[0] in ks then ks else ks + [xs[0]];
      AppendNewMembers(ks', xs[1..]);
      assert ks'[..|ks|] == ks;
      assert xs == [xs[0]] + xs[1..];
    }
  }
}
