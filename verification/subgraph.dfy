/** The work item of the drain loop (`SubGraphEntity`) and how its dependency set is iterated. */
module SubGraphs {

  /**
   * `name` is the package being scored, `seen` the dependencies folded so far,
   * `toVisit` the dependencies still to walk and `acc` the running product.
   */
  datatype SubGraph = SubGraph(name: string, seen: set<string>, toVisit: set<string>, acc: nat)

  /** A new work item: nothing folded yet, every dependency to visit, product 1. */
  function Fresh(name: string, deps: set<string>): (r: SubGraph)
    ensures r.name == name && r.toVisit == deps
    ensures r.seen == {} && r.acc == 1
  {
    SubGraph(name, {}, deps, 1)
  }

  function Elems(s: seq<string>): set<string>
  {
    set x | x in s
  }

  predicate NoDup(s: seq<string>)
  {
    forall i, j :: 0 <= i < j < |s| ==> s[i] != s[j]
  }

  /** `order` visits every element of `s` exactly once, as iterating a set does. */
  predicate IsEnumeration(order: seq<string>, s: set<string>)
  {
    NoDup(order) && Elems(order) == s
  }

  /** `pick` stands for the iteration order of sets, which is left unspecified. */
  ghost predicate Enumerates(pick: set<string> -> seq<string>)
  {
    forall s :: IsEnumeration(pick(s), s)
  }

  /** The names of the packages that still have work items in the queue. */
  function Subjects(q: seq<SubGraph>): set<string>
  {
    set i | 0 <= i < |q| :: q[i].name
  }

  /** Number of work items in `q` that score package `p`. */
  function Occurrences(q: seq<SubGraph>, p: string): nat
  {
    if |q| == 0 then 0 else (if q[0].name == p then 1 else 0) + Occurrences(q[1..], p)
  }

  lemma {:induction false} OccurrencesAppend(a: seq<SubGraph>, b: seq<SubGraph>, p: string)
    ensures Occurrences(a + b, p) == Occurrences(a, p) + Occurrences(b, p)
    decreases |a|
  {
    if |a| > 0 {
      assert (a + b)[1..] == a[1..] + b;
      OccurrencesAppend(a[1..], b, p);
    } else {
      assert a + b == b;
    }
  }

  lemma OccurrencesSingle(x: SubGraph)
    ensures forall p :: Occurrences([x], p) == if x.name == p then 1 else 0
  {
    assert [x][1..] == [];
  }

  lemma OccurrencesAppendAll(a: seq<SubGraph>, b: seq<SubGraph>)
    ensures forall p :: Occurrences(a + b, p) == Occurrences(a, p) + Occurrences(b, p)
  {
    forall p
      ensures Occurrences(a + b, p) == Occurrences(a, p) + Occurrences(b, p)
    {
      OccurrencesAppend(a, b, p);
    }
  }

  /** Without duplicates, a sequence has exactly as many elements as its set. */
  lemma {:induction false} NoDupCardinality(order: seq<string>)
    requires NoDup(order)
    ensures |Elems(order)| == |order|
    decreases |order|
  {
    if |order| > 0 {
      var rest := order[1..];
      assert NoDup(rest);
      NoDupCardinality(rest);
      assert Elems(order) == {order[0]} + Elems(rest);
      assert order[0] !in Elems(rest);
    } else {
      assert Elems(order) == {};
    }
  }

  /** The only enumeration of a one-element set is that element. */
  lemma EnumerationOfSingleton(order: seq<string>, x: string)
    requires IsEnumeration(order, {x})
    ensures order == [x]
  {
    NoDupCardinality(order);
    assert order[0] in Elems(order);
  }

  /** The only enumeration of the empty set is the empty sequence. */
  lemma EnumerationOfEmpty(order: seq<string>)
    requires IsEnumeration(order, {})
    ensures order == []
  {
    NoDupCardinality(order);
  }
}
