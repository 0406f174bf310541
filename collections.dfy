/** Go's `for k, v := range m` visits the keys of a map in an unspecified order.
    `SomeOrder` models that choice: it returns some listing of a set of keys, and
    every loop over a map in the model walks such a listing. `Overlay` is the
    loop `for k, v := range src { dst[k] = v }` that the source writes many times;
    `AddAbsent` the same loop skipping the keys `dst` already has. */
module Collections {

  /** `order` lists every element of `keys` exactly once. */
  ghost predicate IsOrdering<K>(order: seq<K>, keys: set<K>)
  {
    && |order| == |keys|
    && (forall i :: 0 <= i < |order| ==> order[i] in keys)
    && (forall i, j :: 0 <= i < j < |order| ==> order[i] != order[j])
    && (forall k :: k in keys ==> k in order)
  }

  /** Picks the visiting order of a map loop; any listing may come out. */
  method SomeOrder<K>(keys: set<K>) returns (order: seq<K>)
    ensures IsOrdering(order, keys)
  {
    order := [];
    var todo := keys;
    while todo != {}
      invariant todo <= keys
      invariant |order| + |todo| == |keys|
      invariant forall i :: 0 <= i < |order| ==> order[i] in keys - todo
      invariant forall i, j :: 0 <= i < j < |order| ==> order[i] != order[j]
      invariant forall k :: k in keys - todo ==> k in order
      decreases todo
    {
      var k :| k in todo;
      order := order + [k];
      todo := todo - {k};
    }
  }

  /** Copies every entry of `src` into `dst`, overwriting the entries `dst`
      already has for those keys. */
  method Overlay<K, V>(dst: map<K, V>, src: map<K, V>) returns (r: map<K, V>)
    ensures r == dst + src
  {
    var order := SomeOrder(src.Keys);
    r := dst;
    var i := 0;
    while i < |order|
      invariant 0 <= i <= |order|
      invariant r == dst + Restrict(src, order, i)
    {
      RestrictStep(src, order, i);
      UpdateOver(dst, Restrict(src, order, i), order[i], src[order[i]]);
      r := r[order[i] := src[order[i]]];
      i := i + 1;
    }
    RestrictAll(src, order);
  }

  /** Copies into `dst` every entry of `src` whose key `dst` does not have
      yet: the entries `dst` already has are never replaced. */
  method AddAbsent<K, V>(dst: map<K, V>, src: map<K, V>) returns (r: map<K, V>)
    ensures r == src + dst
  {
    var order := SomeOrder(src.Keys);
    r := dst;
    for i := 0 to |order|
      invariant r == Restrict(src, order, i) + dst
    {
      var k := order[i];
      RestrictStep(src, order, i);
      if k !in r {
        UpdateUnder(Restrict(src, order, i), dst, k, src[k]);
        r := r[k := src[k]];
      } else {
        assert k !in order[..i];
        ShadowedUpdate(Restrict(src, order, i), dst, k, src[k]);
      }
    }
    RestrictAll(src, order);
  }

  lemma UpdateOver<K, V>(a: map<K, V>, b: map<K, V>, k: K, v: V)
    ensures (a + b)[k := v] == a + b[k := v]
  {
  }

  lemma UpdateUnder<K, V>(a: map<K, V>, b: map<K, V>, k: K, v: V)
    requires k !in b
    ensures (a + b)[k := v] == a[k := v] + b
  {
  }

  lemma ShadowedUpdate<K, V>(a: map<K, V>, b: map<K, V>, k: K, v: V)
    requires k in b
    ensures a[k := v] + b == a + b
  {
  }

  /** The entries of `src` whose keys are among the first `n` of `order`. */
  ghost function Restrict<K, V>(src: map<K, V>, order: seq<K>, n: nat): map<K, V>
    requires n <= |order|
  {
    map k | k in src && k in order[..n] :: src[k]
  }

  lemma RestrictStep<K, V>(src: map<K, V>, order: seq<K>, n: nat)
    requires n < |order| && order[n] in src
    ensures Restrict(src, order, n + 1) == Restrict(src, order, n)[order[n] := src[order[n]]]
  {
    assert order[..n + 1] == order[..n] + [order[n]];
  }

  lemma RestrictAll<K, V>(src: map<K, V>, order: seq<K>)
    requires IsOrdering(order, src.Keys)
    ensures Restrict(src, order, |order|) == src
  {
    assert order[..|order|] == order;
  }
}
