/**
 * The graph-score worklist of `_fill_graph_score`: a seed pass over all packages,
 * then a FIFO drain that folds already-scored dependencies into each item's product.
 */
module GraphScore {
  import opened Wrappers
  import opened ScoreStore
  import opened SubGraphs

  /** Direct dependencies of each package, as the graph database answers them. */
  type Graph = string -> set<string>

  /** The work queue (front first) and the memo store. */
  datatype State = State(queue: seq<SubGraph>, store: Store)

  // ---------------------------------------------------------------- seed

  /** The work items the seed pass enqueues for one package, as written: one, plus one more when it has dependencies. */
  function ItemsFor(p: string, graph: Graph): (r: seq<SubGraph>)
    ensures |r| == (if graph(p) == {} then 1 else 2)
    ensures forall i :: 0 <= i < |r| ==> r[i] == Fresh(p, graph(p))
  {
    if graph(p) == {} then [Fresh(p, graph(p))] else [Fresh(p, graph(p)), Fresh(p, graph(p))]
  }

  /** One iteration of the seed loop for package `p`. */
  function SeedPackage(st: State, p: string, graph: Graph): State
  {
    var deps := graph(p);
    var q := st.queue + [Fresh(p, deps)];
    if deps == {} then
      if p !in st.store then State(q, st.store)
      else State(q, SetSize(st.store, p, st.store[p].versionCount))
    else State(q + [Fresh(p, deps)], st.store)
  }

  /** The seed pass over the package names, in the order the graph database lists them. */
  function Seed(packages: seq<string>, graph: Graph, store: Store): (r: State)
    ensures forall i :: 0 <= i < |r.queue| ==>
              r.queue[i] == Fresh(r.queue[i].name, graph(r.queue[i].name)) && r.queue[i].name in packages
    ensures r.store.Keys == store.Keys
    ensures forall k :: k in store ==>
              r.store[k] == (if k in packages && graph(k) == {}
                             then store[k].(size := Some(store[k].versionCount))
                             else store[k])
    decreases |packages|
  {
    if |packages| == 0 then State([], store)
    else
      var init := packages[..|packages| - 1];
      var p := packages[|packages| - 1];
      assert packages == init + [p];
      var st := Seed(init, graph, store);
      SeedPackage(st, p, graph)
  }

  /** One seed iteration appends ItemsFor(p) and writes only a leaf's own row. */
  lemma SeedPackageEffect(st: State, p: string, graph: Graph)
    ensures var r := SeedPackage(st, p, graph);
      && r.queue == st.queue + ItemsFor(p, graph)
      && (forall x :: Occurrences(r.queue, x) == Occurrences(st.queue, x) + (if x == p then |ItemsFor(p, graph)| else 0))
      && r.store.Keys == st.store.Keys
      && (forall k :: k in st.store ==>
            r.store[k] == (if k == p && graph(k) == {} then st.store[k].(size := Some(st.store[k].versionCount)) else st.store[k]))
  {
    var f := Fresh(p, graph(p));
    OccurrencesAppendAll(st.queue, ItemsFor(p, graph));
    OccurrencesAppendAll([f], [f]);
    OccurrencesSingle(f);
    assert ItemsFor(p, graph) == if graph(p) == {} then [f] else [f] + [f];
  }

  /** The seed loop without the unconditional enqueue: one item for each package with dependencies, none for a leaf. */
  function SeedPackageCorrected(st: State, p: string, graph: Graph): State
  {
    var deps := graph(p);
    if deps == {} then
      if p !in st.store then st
      else State(st.queue, SetSize(st.store, p, st.store[p].versionCount))
    else State(st.queue + [Fresh(p, deps)], st.store)
  }

  /** One corrected seed iteration appends an item only for a package with dependencies. */
  lemma SeedPackageCorrectedEffect(st: State, p: string, graph: Graph)
    ensures var r := SeedPackageCorrected(st, p, graph);
      && r.queue == st.queue + (if graph(p) == {} then [] else [Fresh(p, graph(p))])
      && (forall x :: Occurrences(r.queue, x) == Occurrences(st.queue, x) + (if x == p && graph(p) != {} then 1 else 0))
  {
    var added: seq<SubGraph> := if graph(p) == {} then [] else [Fresh(p, graph(p))];
    OccurrencesAppendAll(st.queue, added);
    OccurrencesSingle(Fresh(p, graph(p)));
    assert st.queue + [] == st.queue;
  }

  function SeedCorrected(packages: seq<string>, graph: Graph, store: Store): (r: State)
    ensures forall i :: 0 <= i < |r.queue| ==>
              r.queue[i] == Fresh(r.queue[i].name, graph(r.queue[i].name))
              && r.queue[i].name in packages && graph(r.queue[i].name) != {}
    ensures r.store.Keys == store.Keys
    ensures forall k :: k in store ==>
              r.store[k] == (if k in packages && graph(k) == {}
                             then store[k].(size := Some(store[k].versionCount))
                             else store[k])
    decreases |packages|
  {
    if |packages| == 0 then State([], store)
    else
      var init := packages[..|packages| - 1];
      var p := packages[|packages| - 1];
      assert packages == init + [p];
      var st := SeedCorrected(init, graph, store);
      SeedPackageCorrected(st, p, graph)
  }

  // ---------------------------------------------------------------- drain

  /** Length of the longest prefix of `order` whose dependencies can all be folded. */
  function FoldedPrefix(order: seq<string>, store: Store): (k: nat)
    ensures k <= |order|
    ensures forall j :: 0 <= j < k ==> Folded(store, order[j])
    ensures k < |order| ==> !Folded(store, order[k])
  {
    if |order| == 0 || !Folded(store, order[0]) then 0 else 1 + FoldedPrefix(order[1..], store)
  }

  /** How the walk over `to_visit` ended: it went through, or stopped at a dependency with no row or with no size. */
  datatype WalkOutcome = Complete | Missing(dep: string) | Unset(dep: string)

  datatype Walked = Walked(outcome: WalkOutcome, item: SubGraph)

  /** The inner `for` loop: fold dependencies in `order` until one has no row or no size. */
  function Walk(order: seq<string>, item: SubGraph, store: Store): (r: Walked)
    ensures var k := FoldedPrefix(order, store);
      && r.item == item.(seen := item.seen + Elems(order[..k]), acc := item.acc * SeqProduct(order[..k], store))
      && (r.outcome.Complete? <==> k == |order|)
      && (r.outcome.Missing? ==> k < |order| && r.outcome.dep == order[k] && order[k] !in store)
      && (r.outcome.Unset? ==> k < |order| && r.outcome.dep == order[k] && order[k] in store && store[order[k]].size.None?)
    decreases |order|
  {
    if |order| == 0 then
      assert order[..0] == [];
      assert Elems(order[..0]) == {};
      Walked(Complete, item)
    else
      var d := order[0];
      if d !in store then
        assert Elems(order[..0]) == {};
        Walked(Missing(d), item)
      else if store[d].size.None? then
        assert Elems(order[..0]) == {};
        Walked(Unset(d), item)
      else
        var next := item.(acc := item.acc * Factor(store, d), seen := item.seen + {d});
        var r := Walk(order[1..], next, store);
        var k := FoldedPrefix(order, store);
        assert order[..k] == [d] + order[1..][..k - 1];
        assert order[..k][1..] == order[1..][..k - 1];
        assert Elems(order[..k]) == {d} + Elems(order[1..][..k - 1]);
        assert item.acc * Factor(store, d) * SeqProduct(order[1..][..k - 1], store)
            == item.acc * SeqProduct(order[..k], store);
        r
  }

  /** What one drain step did with the item it popped. */
  datatype StepOutcome =
    | Finalized            // every dependency folded; the product was written to the subject's row
    | Orphaned             // every dependency folded, but the subject has no row
    | Dropped(dep: string) // a dependency has no row: the item is abandoned
    | Deferred(dep: string) // a dependency has no size yet: the item goes to the back of the queue

  datatype Stepped = Stepped(outcome: StepOutcome, state: State)

  /** One iteration of the drain loop; `order` is the iteration order of the popped item's `to_visit`. */
  function Step(s: State, order: seq<string>): Stepped
    requires |s.queue| > 0
    requires IsEnumeration(order, s.queue[0].toVisit)
  {
    var head := s.queue[0];
    var rest := s.queue[1..];
    var w := Walk(order, head, s.store);
    // the item as it stands after `to_visit -= subgraphs_seen`
    var retried := w.item.(toVisit := w.item.toVisit - w.item.seen);
    match w.outcome
    case Missing(d) => Stepped(Dropped(d), State(rest, s.store))
    case Unset(d) => Stepped(Deferred(d), State(rest + [retried], s.store))
    case Complete =>
      if head.name !in s.store then Stepped(Orphaned, State(rest, s.store))
      else Stepped(Finalized, State(rest, SetSize(s.store, head.name, w.item.acc)))
  }

  /**
   * What one drain step does to the queue and the store: it pops the head; it finalizes exactly when
   * every dependency can be folded and the subject has a row; otherwise the first dependency in
   * iteration order that cannot be folded decides: no row drops the item, no size defers it;
   * only finalization writes.
   */
  lemma StepShape(s: State, order: seq<string>)
    requires |s.queue| > 0
    requires IsEnumeration(order, s.queue[0].toVisit)
    ensures var r := Step(s, order); var head := s.queue[0]; var n := |s.queue|;
      && |r.state.queue| == (if r.outcome.Deferred? then n else n - 1)
      && r.state.queue[..n - 1] == s.queue[1..]
      && ((r.outcome.Finalized? || r.outcome.Orphaned?) <==> AllFolded(s.store, head.toVisit))
      && (r.outcome.Finalized? <==> AllFolded(s.store, head.toVisit) && head.name in s.store)
      && (r.outcome.Dropped? ==> r.outcome.dep in head.toVisit && r.outcome.dep !in s.store)
      && (!r.outcome.Finalized? ==> r.state.store == s.store)
    ensures var r := Step(s, order); var k := FoldedPrefix(order, s.store);
      k < |order| ==> r.outcome == (if order[k] in s.store then Deferred(order[k]) else Dropped(order[k]))
  {
    var w := Walk(order, s.queue[0], s.store);
    var k := FoldedPrefix(order, s.store);
    match w.outcome
    case Missing(d) =>
      assert d in Elems(order);
    case Unset(d) =>
    case Complete =>
      assert order[..k] == order;
  }

  /**
   * A deferred item goes to the back as the same subject, waiting on a dependency with no size, with
   * the dependencies folded in this step moved from `toVisit` to `seen` and multiplied into its product.
   */
  lemma StepDefers(s: State, order: seq<string>)
    requires |s.queue| > 0
    requires IsEnumeration(order, s.queue[0].toVisit)
    ensures var r := Step(s, order); var head := s.queue[0]; var n := |s.queue|;
      r.outcome.Deferred? ==>
        && |r.state.queue| == n
        && var it := r.state.queue[n - 1];
        && it.name == head.name
        && head.seen <= it.seen
        && AllFolded(s.store, it.seen - head.seen)
        && it.toVisit == head.toVisit - it.seen
        && r.outcome.dep in s.store && s.store[r.outcome.dep].size.None?
        && (head.seen !! head.toVisit ==>
              && r.outcome.dep in it.toVisit
              && AllFolded(s.store, head.toVisit - it.toVisit)
              && it.seen == head.seen + (head.toVisit - it.toVisit)
              && it.acc == head.acc * SetProduct(head.toVisit - it.toVisit, s.store))
  {
    var head := s.queue[0];
    var w := Walk(order, head, s.store);
    var k := FoldedPrefix(order, s.store);
    var folded := Elems(order[..k]);
    ElemsOfPrefix(order, k);
    assert NoDup(order[..k]);
    SeqProductIsSetProduct(order[..k], s.store);
    if w.outcome.Unset? {
      var d := w.outcome.dep;
      assert d in Elems(order);
      assert d !in folded by { NoDupPrefix(order, k); }
    }
  }

  /** Finalization writes the head's product times the product over every dependency into the subject's size only. */
  lemma StepFinalizes(s: State, order: seq<string>)
    requires |s.queue| > 0
    requires IsEnumeration(order, s.queue[0].toVisit)
    ensures var r := Step(s, order); var head := s.queue[0];
      r.outcome.Finalized? ==>
        && AllFolded(s.store, head.toVisit)
        && head.name in s.store
        && r.state.store.Keys == s.store.Keys
        && r.state.store[head.name] == s.store[head.name].(size := Some(head.acc * SetProduct(head.toVisit, s.store)))
        && (forall k :: k in s.store && k != head.name ==> r.state.store[k] == s.store[k])
  {
    var w := Walk(order, s.queue[0], s.store);
    var k := FoldedPrefix(order, s.store);
    if w.outcome.Complete? {
      assert order[..k] == order;
      SeqProductIsSetProduct(order, s.store);
    }
  }

  /** The `while subgraphs` loop, run for at most `fuel` steps: it need not terminate on a dependency cycle. */
  function Drain(s: State, pick: set<string> -> seq<string>, fuel: nat): State
    requires Enumerates(pick)
    decreases fuel
  {
    if fuel == 0 || |s.queue| == 0 then s
    else Drain(Step(s, pick(s.queue[0].toVisit)).state, pick, fuel - 1)
  }

  /**
   * What the drain keeps: the queue never grows and gains no new subject, every row stays with its
   * version count, a written size stays written, and a row with no item in the queue is never touched.
   */
  lemma {:induction false} DrainFrame(s: State, pick: set<string> -> seq<string>, fuel: nat)
    requires Enumerates(pick)
    ensures var r := Drain(s, pick, fuel);
      && |r.queue| <= |s.queue|
      && Subjects(r.queue) <= Subjects(s.queue)
      && r.store.Keys == s.store.Keys
      && (forall k :: k in s.store ==> r.store[k].versionCount == s.store[k].versionCount)
      && (forall k :: k in s.store && s.store[k].size.Some? ==> r.store[k].size.Some?)
      && (forall k :: k in s.store && k !in Subjects(s.queue) ==> r.store[k] == s.store[k])
    decreases fuel
  {
    if fuel > 0 && |s.queue| > 0 {
      var order := pick(s.queue[0].toVisit);
      var next := Step(s, order).state;
      StepShape(s, order);
      StepFinalizes(s, order);
      StepSubjects(s, order);
      DrainFrame(next, pick, fuel - 1);
    }
  }

  /** `_fill_graph_score` as written: the seed pass, then up to `fuel` drain steps. */
  function Pile(packages: seq<string>, graph: Graph, store: Store, pick: set<string> -> seq<string>, fuel: nat): State
    requires Enumerates(pick)
  {
    Drain(Seed(packages, graph, store), pick, fuel)
  }

  /** The same with the corrected seed pass. */
  function PileCorrected(packages: seq<string>, graph: Graph, store: Store, pick: set<string> -> seq<string>, fuel: nat): State
    requires Enumerates(pick)
  {
    Drain(SeedCorrected(packages, graph, store), pick, fuel)
  }

  // ---------------------------------------------------------------- helpers

  lemma ElemsOfPrefix(order: seq<string>, k: nat)
    requires k <= |order|
    ensures Elems(order[..k]) <= Elems(order)
  {
    forall x | x in Elems(order[..k]) ensures x in Elems(order) {
      var i :| 0 <= i < k && order[..k][i] == x;
      assert order[i] == x;
    }
  }

  lemma NoDupPrefix(order: seq<string>, k: nat)
    requires NoDup(order)
    requires k < |order|
    ensures order[k] !in Elems(order[..k])
  {
    assert forall i :: 0 <= i < k ==> order[..k][i] == order[i] != order[k];
  }

  /** For a sequence without duplicates the in-order product is the set product. */
  lemma {:induction false} SeqProductIsSetProduct(order: seq<string>, store: Store)
    requires NoDup(order)
    requires forall i :: 0 <= i < |order| ==> Folded(store, order[i])
    ensures AllFolded(store, Elems(order))
    ensures SeqProduct(order, store) == SetProduct(Elems(order), store)
    decreases |order|
  {
    if |order| == 0 {
      assert Elems(order) == {};
    } else {
      var rest := order[1..];
      assert NoDup(rest);
      SeqProductIsSetProduct(rest, store);
      assert Elems(order) == {order[0]} + Elems(rest);
      assert order[0] !in Elems(rest);
      assert Elems(order) - {order[0]} == Elems(rest);
      SetProductRemove(Elems(order), store, order[0]);
    }
  }

  lemma StepSubjects(s: State, order: seq<string>)
    requires |s.queue| > 0
    requires IsEnumeration(order, s.queue[0].toVisit)
    ensures Subjects(Step(s, order).state.queue) <= Subjects(s.queue)
  {
    var r := Step(s, order);
    var n := |s.queue|;
    StepShape(s, order);
    StepDefers(s, order);
    forall x | x in Subjects(r.state.queue) ensures x in Subjects(s.queue) {
      var i :| 0 <= i < |r.state.queue| && r.state.queue[i].name == x;
      if i < n - 1 {
        assert r.state.queue[..n - 1][i] == s.queue[1..][i];
        assert s.queue[i + 1].name == x;
      } else {
        assert s.queue[0].name == x;
      }
    }
  }
}
