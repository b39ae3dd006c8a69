/** Python's insertion-ordered dictionary: a map together with the order in
    which its keys were first put. Putting a key again keeps its place. */
module OrderedDict {

  datatype Dict<K(==, !new), V> = Dict(order: seq<K>, at: map<K, V>) {
    ghost predicate Valid() {
      && (forall k :: k in order <==> k in at)
      && (forall i, j :: 0 <= i < j < |order| ==> order[i] != order[j])
    }

    function Put(k: K, v: V): Dict<K, V> {
      Dict(if k in at then order else order + [k], at[k := v])
    }

    lemma PutValid(k: K, v: V)
      requires Valid()
      ensures Put(k, v).Valid()
    {
    }

    function Get(k: K, default: V): V {
      if k in at then at[k] else default
    }

    /** `dict.update`: puts the entries of `other` in their own order. */
    function Update(other: Dict<K, V>): Dict<K, V>
      requires other.Valid()
    {
      PutAll(other.order, other.at)
    }

    function PutAll(keys: seq<K>, from: map<K, V>): Dict<K, V>
      requires forall k :: k in keys ==> k in from
      decreases |keys|
    {
      if keys == [] then this
      else Put(keys[0], from[keys[0]]).PutAll(keys[1..], from)
    }
  }

  function Empty<K(==, !new), V>(): Dict<K, V> { Dict([], map[]) }

  lemma {:induction false} PutAllProperties<K(!new), V>(d: Dict<K, V>, keys: seq<K>, from: map<K, V>)
    requires d.Valid() && forall k :: k in keys ==> k in from
    ensures var r := d.PutAll(keys, from);
            && r.Valid()
            && (forall k :: k in r.at <==> k in d.at || k in keys)
            && (forall k :: k in r.at ==> r.at[k] == if k in keys then from[k] else d.at[k])
            && d.order <= r.order
    decreases |keys|
  {
    if keys != [] {
      d.PutValid(keys[0], from[keys[0]]);
      PutAllProperties(d.Put(keys[0], from[keys[0]]), keys[1..], from);
    }
  }

  lemma OrderIsKeys<K(!new), V>(d: Dict<K, V>)
    requires d.Valid()
    ensures |d.order| == |d.at.Keys|
  {
    DistinctCount(d.order, d.at.Keys);
  }

  lemma {:induction false} DistinctCount<K(!new)>(s: seq<K>, keys: set<K>)
    requires forall i, j :: 0 <= i < j < |s| ==> s[i] != s[j]
    requires forall k :: k in s <==> k in keys
    ensures |s| == |keys|
  {
    if s == [] {
      assert keys == {};
    } else {
      var last := s[|s| - 1];
      DistinctCount(s[..|s| - 1], keys - {last});
    }
  }

  lemma {:induction false} SubsetCount<K(!new)>(a: set<K>, b: set<K>)
    requires a <= b
    ensures |a| <= |b|
  {
    if a != {} {
      var x :| x in a;
      SubsetCount(a - {x}, b - {x});
    }
  }

  /** Updating never forgets a key, lets the newer value win and yields a
      dictionary at least as large as either argument. */
  lemma UpdateProperties<K(!new), V>(d: Dict<K, V>, e: Dict<K, V>)
    requires d.Valid() && e.Valid()
    ensures d.Update(e).Valid()
    ensures d.Update(e).at == d.at + e.at
    ensures |d.Update(e).order| >= |d.order|
    ensures |d.Update(e).order| >= |e.order|
  {
    hide Dict.PutAll;
    PutAllProperties(d, e.order, e.at);
    var r := d.Update(e);
    OrderIsKeys(r);
    OrderIsKeys(e);
    SubsetCount(e.at.Keys, r.at.Keys);
  }
}
