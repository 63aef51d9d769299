/** Invariants of the seed pass and the drain loop, stated over all inputs. */
module GraphScoreProperties {
  import opened Wrappers
  import opened ScoreStore
  import opened SubGraphs
  import opened GraphScore

  /** Every dependency of an item is either folded (`seen`) or still to visit, never both. */
  ghost predicate WellFormed(item: SubGraph, graph: Graph)
  {
    item.seen !! item.toVisit && item.seen + item.toVisit == graph(item.name)
  }

  ghost predicate AllWellFormed(q: seq<SubGraph>, graph: Graph)
  {
    forall i :: 0 <= i < |q| ==> WellFormed(q[i], graph)
  }

  /** The running product of an item is the product of the factors of the dependencies it has folded. */
  ghost predicate AccumulatorInvariant(item: SubGraph, store: Store)
  {
    AllFolded(store, item.seen) && item.acc == SetProduct(item.seen, store)
  }

  /** Every seeded item is well formed and its product (1) is the empty product. */
  lemma SeedEstablishesInvariants(packages: seq<string>, graph: Graph, store: Store)
    ensures var q := Seed(packages, graph, store).queue;
      AllWellFormed(q, graph) && forall i :: 0 <= i < |q| ==> AccumulatorInvariant(q[i], store)
  {
    var q := Seed(packages, graph, store).queue;
    forall i | 0 <= i < |q| ensures WellFormed(q[i], graph) && AccumulatorInvariant(q[i], store) {
      assert q[i].seen == {};
    }
  }

  /** As written, the seed pass enqueues one item for every listed leaf and two for every other listed package. */
  lemma {:induction false} SeedOccurrences(packages: seq<string>, graph: Graph, store: Store, p: string)
    ensures Occurrences(Seed(packages, graph, store).queue, p)
         == multiset(packages)[p] * (if graph(p) == {} then 1 else 2)
    decreases |packages|
  {
    if |packages| > 0 {
      var init := packages[..|packages| - 1];
      var q := packages[|packages| - 1];
      assert packages == init + [q];
      SeedOccurrences(init, graph, store, p);
      SeedPackageEffect(Seed(init, graph, store), q, graph);
    }
  }

  /** The corrected seed pass enqueues exactly one item for every listed package with dependencies. */
  lemma {:induction false} SeedCorrectedOccurrences(packages: seq<string>, graph: Graph, store: Store, p: string)
    ensures Occurrences(SeedCorrected(packages, graph, store).queue, p)
         == multiset(packages)[p] * (if graph(p) == {} then 0 else 1)
    decreases |packages|
  {
    if |packages| > 0 {
      var init := packages[..|packages| - 1];
      var q := packages[|packages| - 1];
      assert packages == init + [q];
      SeedCorrectedOccurrences(init, graph, store, p);
      SeedPackageCorrectedEffect(SeedCorrected(init, graph, store), q, graph);
    }
  }

  /** A drain step keeps every item well formed: no dependency is folded twice or forgotten. */
  lemma StepKeepsWellFormed(s: State, order: seq<string>, graph: Graph)
    requires |s.queue| > 0
    requires IsEnumeration(order, s.queue[0].toVisit)
    requires AllWellFormed(s.queue, graph)
    ensures AllWellFormed(Step(s, order).state.queue, graph)
  {
    var r := Step(s, order);
    var n := |s.queue|;
    forall i | 0 <= i < |r.state.queue| ensures WellFormed(r.state.queue[i], graph) {
      if i < n - 1 {
        assert r.state.queue[..n - 1][i] == s.queue[1..][i];
      }
    }
  }

  lemma {:induction false} DrainKeepsWellFormed(s: State, pick: set<string> -> seq<string>, fuel: nat, graph: Graph)
    requires Enumerates(pick)
    requires AllWellFormed(s.queue, graph)
    ensures AllWellFormed(Drain(s, pick, fuel).queue, graph)
    decreases fuel
  {
    if fuel > 0 && |s.queue| > 0 {
      StepKeepsWellFormed(s, pick(s.queue[0].toVisit), graph);
      DrainKeepsWellFormed(Step(s, pick(s.queue[0].toVisit)).state, pick, fuel - 1, graph);
    }
  }

  /**
   * A deferred item leaves with a product equal to the product over everything it has folded,
   * and a finalized subject receives the product over every dependency it walked.
   */
  lemma StepKeepsAccumulator(s: State, order: seq<string>)
    requires |s.queue| > 0
    requires IsEnumeration(order, s.queue[0].toVisit)
    requires s.queue[0].seen !! s.queue[0].toVisit
    requires AccumulatorInvariant(s.queue[0], s.store)
    ensures var r := Step(s, order);
      r.outcome.Deferred? ==> AccumulatorInvariant(r.state.queue[|s.queue| - 1], r.state.store)
    ensures var r := Step(s, order); var head := s.queue[0];
      r.outcome.Finalized? ==>
        && AllFolded(s.store, head.seen + head.toVisit)
        && r.state.store[head.name].size == Some(SetProduct(head.seen + head.toVisit, s.store))
  {
    var r := Step(s, order);
    var head := s.queue[0];
    StepDefers(s, order);
    StepFinalizes(s, order);
    if r.outcome.Deferred? {
      var it := r.state.queue[|s.queue| - 1];
      var folded := head.toVisit - it.toVisit;
      SetProductUnion(head.seen, folded, s.store);
    } else if r.outcome.Finalized? {
      SetProductUnion(head.seen, head.toVisit, s.store);
    }
  }

  /**
   * For a well-formed item whose product is right, finalization stores the product over the
   * subject's direct dependencies of size times version count.
   */
  lemma FinalizedSizeIsProductOverDependencies(s: State, order: seq<string>, graph: Graph)
    requires |s.queue| > 0
    requires IsEnumeration(order, s.queue[0].toVisit)
    requires WellFormed(s.queue[0], graph)
    requires AccumulatorInvariant(s.queue[0], s.store)
    ensures var r := Step(s, order); var p := s.queue[0].name;
      r.outcome.Finalized? ==>
        AllFolded(s.store, graph(p)) && r.state.store[p].size == Some(SetProduct(graph(p), s.store))
  {
    StepKeepsAccumulator(s, order);
  }

  /** The product of an item stays right while the rows of the dependencies it folded stay unchanged. */
  lemma AccumulatorFrame(item: SubGraph, s1: Store, s2: Store)
    requires AccumulatorInvariant(item, s1)
    requires forall d :: d in item.seen ==> d in s2 && s2[d] == s1[d]
    ensures AccumulatorInvariant(item, s2)
  {
    SetProductFrame(item.seen, s1, s2);
  }

  /** An item whose to-visit set is empty is finalized at once with its product; a fresh one writes 1. */
  lemma EmptyToVisitFinalizes(s: State, order: seq<string>)
    requires |s.queue| > 0
    requires IsEnumeration(order, s.queue[0].toVisit)
    requires s.queue[0].toVisit == {}
    ensures var r := Step(s, order); var head := s.queue[0];
      && (r.outcome.Finalized? || r.outcome.Orphaned?)
      && (head.name in s.store ==> r.state.store[head.name].size == Some(head.acc))
  {
    StepShape(s, order);
    StepFinalizes(s, order);
    assert SetProduct({}, s.store) == 1;
  }

  // ------------------------------------------------ a dependency with no row

  /** Items of `p` still waiting on `d`: `d` is to visit and was never folded. */
  ghost predicate Waits(q: seq<SubGraph>, p: string, d: string)
  {
    forall i :: 0 <= i < |q| && q[i].name == p ==> d in q[i].toVisit && d !in q[i].seen
  }

  lemma StepKeepsWaiting(s: State, order: seq<string>, p: string, d: string)
    requires |s.queue| > 0
    requires IsEnumeration(order, s.queue[0].toVisit)
    requires d !in s.store
    requires Waits(s.queue, p, d)
    ensures var r := Step(s, order);
      && Waits(r.state.queue, p, d)
      && d !in r.state.store
      && (p in s.store ==> p in r.state.store && r.state.store[p] == s.store[p])
  {
    var r := Step(s, order);
    var n := |s.queue|;
    assert s.queue[0].name == p ==> !AllFolded(s.store, s.queue[0].toVisit);
    forall i | 0 <= i < |r.state.queue| && r.state.queue[i].name == p
      ensures d in r.state.queue[i].toVisit && d !in r.state.queue[i].seen
    {
      if i < n - 1 {
        assert r.state.queue[..n - 1][i] == s.queue[1..][i];
      } else {
        assert !Folded(s.store, d);
      }
    }
  }

  /** The first step of a drain keeps the items of `p` waiting and leaves the row of `p` alone. */
  lemma DrainStepKeepsWaiting(s: State, pick: set<string> -> seq<string>, fuel: nat, p: string, d: string)
    returns (next: State)
    requires Enumerates(pick)
    requires fuel > 0 && |s.queue| > 0
    requires d !in s.store
    requires Waits(s.queue, p, d)
    requires p in s.store
    ensures Drain(s, pick, fuel) == Drain(next, pick, fuel - 1)
    ensures Waits(next.queue, p, d) && d !in next.store
    ensures p in next.store && next.store[p] == s.store[p]
  {
    var order := pick(s.queue[0].toVisit);
    next := Step(s, order).state;
    StepKeepsWaiting(s, order, p, d);
  }

  /**
   * While a dependency `d` has no row, no item of `p` that still has `d` to visit can finalize,
   * so the row of `p` is never written by the drain.
   */
  lemma {:induction false} MissingDependencyBlocks(s: State, pick: set<string> -> seq<string>, fuel: nat, p: string, d: string)
    requires Enumerates(pick)
    requires d !in s.store
    requires Waits(s.queue, p, d)
    requires p in s.store
    ensures p in Drain(s, pick, fuel).store && Drain(s, pick, fuel).store[p] == s.store[p]
    decreases fuel
  {
    if fuel == 0 || |s.queue| == 0 {
      assert Drain(s, pick, fuel) == s;
    } else {
      var next := DrainStepKeepsWaiting(s, pick, fuel, p, d);
      MissingDependencyBlocks(next, pick, fuel - 1, p, d);
    }
  }

  /** A package depending on a package the store has no row for keeps its size unset, however long the drain runs. */
  lemma {:induction false} MissingDependencyLeavesSizeUnset(packages: seq<string>, graph: Graph, store: Store,
                                          pick: set<string> -> seq<string>, fuel: nat, p: string, d: string)
    requires Enumerates(pick)
    requires d in graph(p) && d !in store
    requires p in store && store[p].size.None?
    ensures var r := Pile(packages, graph, store, pick, fuel);
      p in r.store && r.store[p].size.None?
  {
    var s := Seed(packages, graph, store);
    MissingDependencyBlocks(s, pick, fuel, p, d);
  }

  // ------------------------------------------------ leaves

  /** As written: the item the seed loop enqueues unconditionally for every package finalizes a leaf with the initial product 1. */
  lemma LeafItemWritesOne(s: State, order: seq<string>, graph: Graph)
    requires |s.queue| > 0
    requires IsEnumeration(order, s.queue[0].toVisit)
    requires s.queue[0] == Fresh(s.queue[0].name, graph(s.queue[0].name))
    requires graph(s.queue[0].name) == {}
    requires s.queue[0].name in s.store
    ensures Step(s, order).state.store[s.queue[0].name].size == Some(1)
  {
    EmptyToVisitFinalizes(s, order);
  }

  /** With the corrected seed pass a leaf keeps its version count as its size, whatever the drain does. */
  lemma {:induction false} CorrectedLeafKeepsVersionCount(packages: seq<string>, graph: Graph, store: Store,
                                       pick: set<string> -> seq<string>, fuel: nat, p: string)
    requires Enumerates(pick)
    requires p in packages && graph(p) == {} && p in store
    ensures var r := PileCorrected(packages, graph, store, pick, fuel);
      p in r.store && r.store[p] == store[p].(size := Some(store[p].versionCount))
  {
    var s := SeedCorrected(packages, graph, store);
    assert p !in Subjects(s.queue);
    DrainFrame(s, pick, fuel);
  }
}
