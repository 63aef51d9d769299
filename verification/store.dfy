/** The memo store: the `package` table keyed by package name, reduced to a map. */
module ScoreStore {
  import opened Wrappers

  /** One row of the table. `size` is None while the subgraph size is not computed yet. */
  datatype Entry = Entry(versionCount: nat, size: Option<nat>)

  type Store = map<string, Entry>

  /** A dependency can be folded into a product when it has a row whose size is set. */
  predicate Folded(store: Store, d: string)
  {
    d in store && store[d].size.Some?
  }

  ghost predicate AllFolded(store: Store, s: set<string>)
  {
    forall d :: d in s ==> Folded(store, d)
  }

  /** What one folded dependency contributes: its size times its version count. */
  function Factor(store: Store, d: string): nat
    requires Folded(store, d)
  {
    store[d].size.value * store[d].versionCount
  }

  /** Persists `v` as the subgraph size of `name`; the row's version count and every other row stay. */
  function SetSize(store: Store, name: string, v: nat): (r: Store)
    requires name in store
    ensures r.Keys == store.Keys
    ensures r[name].versionCount == store[name].versionCount && r[name].size == Some(v)
    ensures forall k :: k in store && k != name ==> r[k] == store[k]
  {
    store[name := store[name].(size := Some(v))]
  }

  lemma MulSwap(a: nat, b: nat, c: nat)
    ensures a * (b * c) == b * (a * c)
  {
  }

  /** Product of the factors of a sequence of dependencies, in order. */
  function SeqProduct(order: seq<string>, store: Store): nat
    requires forall i :: 0 <= i < |order| ==> Folded(store, order[i])
  {
    if |order| == 0 then 1 else Factor(store, order[0]) * SeqProduct(order[1..], store)
  }

  /** Product of the factors of a set of dependencies; the order is irrelevant (see SetProductRemove). */
  ghost function SetProduct(s: set<string>, store: Store): nat
    requires AllFolded(store, s)
    decreases s
  {
    if s == {} then 1
    else
      var d :| d in s;
      Factor(store, d) * SetProduct(s - {d}, store)
  }

  /** Any element can be taken out of a set product first. */
  lemma {:induction false} SetProductRemove(s: set<string>, store: Store, x: string)
    requires AllFolded(store, s)
    requires x in s
    ensures SetProduct(s, store) == Factor(store, x) * SetProduct(s - {x}, store)
    decreases s
  {
    var d :| d in s && SetProduct(s, store) == Factor(store, d) * SetProduct(s - {d}, store);
    if d != x {
      SetProductRemove(s - {d}, store, x);
      SetProductRemove(s - {x}, store, d);
      assert s - {d} - {x} == s - {x} - {d};
      MulSwap(Factor(store, d), Factor(store, x), SetProduct(s - {d} - {x}, store));
    }
  }

  /** The product over a disjoint union is the product of the products. */
  lemma {:induction false} SetProductUnion(a: set<string>, b: set<string>, store: Store)
    requires AllFolded(store, a) && AllFolded(store, b)
    requires a !! b
    ensures SetProduct(a + b, store) == SetProduct(a, store) * SetProduct(b, store)
    decreases b
  {
    if b == {} {
      assert a + b == a;
      assert SetProduct(b, store) == 1;
    } else {
      var x :| x in b;
      SetProductUnion(a, b - {x}, store);
      SetProductRemove(a + b, store, x);
      SetProductRemove(b, store, x);
      assert a + b - {x} == a + (b - {x});
      MulSwap(Factor(store, x), SetProduct(a, store), SetProduct(b - {x}, store));
    }
  }

  /** A set product depends only on the rows of its own elements. */
  lemma {:induction false} SetProductFrame(s: set<string>, s1: Store, s2: Store)
    requires AllFolded(s1, s)
    requires forall d :: d in s ==> d in s2 && s2[d] == s1[d]
    ensures AllFolded(s2, s)
    ensures SetProduct(s, s1) == SetProduct(s, s2)
    decreases s
  {
    assert AllFolded(s2, s);
    if s != {} {
      var x :| x in s;
      SetProductRemove(s, s1, x);
      SetProductRemove(s, s2, x);
      SetProductFrame(s - {x}, s1, s2);
    }
  }
}
