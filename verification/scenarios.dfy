/** Small concrete runs of the graph-score worklist, for every iteration order of sets. */
module Scenarios {
  import opened Wrappers
  import opened ScoreStore
  import opened SubGraphs
  import opened GraphScore

  /** B depends on A; A has no dependencies. */
  function ChainGraph(p: string): set<string>
  {
    if p == "B" then {"A"} else {}
  }

  /** The chain's rows: A has 3 versions and B has 2, with the given sizes. */
  function ChainRows(a: Option<nat>, b: Option<nat>): Store
  {
    map["A" := Entry(3, a), "B" := Entry(2, b)]
  }

  /** Neither package is scored yet. */
  const ChainStore: Store := ChainRows(None, None)

  lemma SetSizeOfA(a: Option<nat>, b: Option<nat>, v: nat)
    ensures SetSize(ChainRows(a, b), "A", v) == ChainRows(Some(v), b)
  {
  }

  lemma SetSizeOfB(a: Option<nat>, b: Option<nat>, v: nat)
    ensures SetSize(ChainRows(a, b), "B", v) == ChainRows(a, Some(v))
  {
  }

  /** One drain step, unfolded. */
  lemma DrainUnfold(s: State, pick: set<string> -> seq<string>, fuel: nat)
    requires Enumerates(pick)
    requires fuel > 0 && |s.queue| > 0
    ensures Drain(s, pick, fuel) == Drain(Step(s, pick(s.queue[0].toVisit)).state, pick, fuel - 1)
  {
  }

  lemma PickEmpty(pick: set<string> -> seq<string>)
    requires Enumerates(pick)
    ensures pick({}) == []
  {
    EnumerationOfEmpty(pick({}));
  }

  lemma PickSingleton(pick: set<string> -> seq<string>, x: string)
    requires Enumerates(pick)
    ensures pick({x}) == [x]
  {
    EnumerationOfSingleton(pick({x}), x);
  }

  /** The seed pass handles the last listed package after all the others. */
  lemma SeedUnfold(packages: seq<string>, graph: Graph, store: Store)
    requires |packages| > 0
    ensures Seed(packages, graph, store)
         == SeedPackage(Seed(packages[..|packages| - 1], graph, store), packages[|packages| - 1], graph)
  {
  }

  lemma SeedCorrectedUnfold(packages: seq<string>, graph: Graph, store: Store)
    requires |packages| > 0
    ensures SeedCorrected(packages, graph, store)
         == SeedPackageCorrected(SeedCorrected(packages[..|packages| - 1], graph, store), packages[|packages| - 1], graph)
  {
  }

  /** A fresh item with nothing to visit writes the initial product 1. */
  lemma StepEmpty(s: State, t: State)
    requires |s.queue| > 0 && s.queue[0] == Fresh(s.queue[0].name, {})
    requires s.queue[0].name in s.store
    requires t == State(s.queue[1..], SetSize(s.store, s.queue[0].name, 1))
    ensures Step(s, []).state == t
  {
    var none: seq<string> := [];
    assert none[..0] == none;
  }

  /** A fresh item with one scored dependency writes that dependency's factor. */
  lemma StepFoldsOne(s: State, x: string, t: State)
    requires |s.queue| > 0 && s.queue[0] == Fresh(s.queue[0].name, {x})
    requires s.queue[0].name in s.store && Folded(s.store, x)
    requires t == State(s.queue[1..], SetSize(s.store, s.queue[0].name, Factor(s.store, x)))
    ensures Step(s, [x]).state == t
  {
    assert IsEnumeration([x], {x});
    assert [x][..1] == [x];
    assert [x][1..] == [];
  }

  /** A fresh item whose one dependency is not scored yet goes to the back unchanged. */
  lemma StepDefersOne(s: State, x: string)
    requires |s.queue| > 0 && s.queue[0] == Fresh(s.queue[0].name, {x})
    requires x in s.store && s.store[x].size.None?
    ensures Step(s, [x]).state == State(s.queue[1..] + [s.queue[0]], s.store)
  {
    assert IsEnumeration([x], {x});
    assert FoldedPrefix([x], s.store) == 0;
    assert [x][..0] == [];
    assert Elems([x][..0]) == {};
    var w := Walk([x], s.queue[0], s.store);
    assert w.outcome == Unset(x);
    assert w.item == s.queue[0];
    assert w.item.toVisit - w.item.seen == {x};
  }

  /** The seed pass over the chain, as written, in either listing order. */
  lemma SeedChain(packages: seq<string>)
    requires packages == ["A", "B"] || packages == ["B", "A"]
    ensures var s := Seed(packages, ChainGraph, ChainStore);
      && s.queue == ItemsFor(packages[0], ChainGraph) + ItemsFor(packages[1], ChainGraph)
      && s.store == ChainRows(Some(3), None)
  {
    var s0 := Seed([], ChainGraph, ChainStore);
    var s1 := Seed(packages[..1], ChainGraph, ChainStore);
    SeedUnfold(packages, ChainGraph, ChainStore);
    SeedUnfold(packages[..1], ChainGraph, ChainStore);
    assert packages[..1] == [packages[0]];
    assert packages[..1][..0] == [];
    SeedPackageEffect(s0, packages[0], ChainGraph);
    SeedPackageEffect(s1, packages[1], ChainGraph);
    assert s1.queue == ItemsFor(packages[0], ChainGraph);
    SetSizeOfA(None, None, 3);
  }

  /** `t` is the state one drain step takes `s` to. */
  predicate StepsTo(s: State, pick: set<string> -> seq<string>, t: State)
    requires Enumerates(pick)
  {
    |s.queue| > 0 && Step(s, pick(s.queue[0].toVisit)).state == t
  }

  /** A drain of at least one step continues from the state its first step reaches. */
  lemma DrainAfterStep(s: State, t: State, pick: set<string> -> seq<string>, fuel: nat)
    requires Enumerates(pick)
    requires fuel >= 1 && StepsTo(s, pick, t)
    ensures Drain(s, pick, fuel) == Drain(t, pick, fuel - 1)
  {
  }

  /** A drain that passes through `s1` and `s2` and then finds its queue empty ends in `s3`. */
  lemma DrainThrough(s0: State, s1: State, s2: State, s3: State, pick: set<string> -> seq<string>, fuel: nat)
    requires Enumerates(pick)
    requires fuel >= 3
    requires StepsTo(s0, pick, s1) && StepsTo(s1, pick, s2) && StepsTo(s2, pick, s3) && |s3.queue| == 0
    ensures Drain(s0, pick, fuel) == s3
  {
    DrainUnfold(s0, pick, fuel);
    DrainUnfold(s1, pick, fuel - 1);
    DrainUnfold(s2, pick, fuel - 2);
  }

  /** A drain whose first step empties the queue ends in that step's state. */
  lemma DrainThroughOne(s0: State, s1: State, pick: set<string> -> seq<string>, fuel: nat)
    requires Enumerates(pick)
    requires fuel >= 1
    requires StepsTo(s0, pick, s1) && |s1.queue| == 0
    ensures Drain(s0, pick, fuel) == s1
  {
    DrainUnfold(s0, pick, fuel);
  }

  // The chain's two kinds of items: `ItemB` waits on A, `ItemA` has nothing to visit.

  function ItemA(): SubGraph { Fresh("A", {}) }
  function ItemB(): SubGraph { Fresh("B", {"A"}) }

  /** A's own item writes 1 to A's row, whatever A held before. */
  lemma StepsOnItemA(pick: set<string> -> seq<string>, rest: seq<SubGraph>, a: Option<nat>, b: Option<nat>)
    requires Enumerates(pick)
    ensures StepsTo(State([ItemA()] + rest, ChainRows(a, b)), pick, State(rest, ChainRows(Some(1), b)))
  {
    var s := State([ItemA()] + rest, ChainRows(a, b));
    var t := State(rest, ChainRows(Some(1), b));
    assert s.queue[1..] == rest;
    SetSizeOfA(a, b, 1);
    PickEmpty(pick);
    StepEmpty(s, t);
  }

  /** B's item, with A scored `a`, writes A's factor 3 * `a` to B's row. */
  lemma StepsOnItemB(pick: set<string> -> seq<string>, rest: seq<SubGraph>, a: nat, b: Option<nat>)
    requires Enumerates(pick)
    ensures StepsTo(State([ItemB()] + rest, ChainRows(Some(a), b)), pick, State(rest, ChainRows(Some(a), Some(3 * a))))
  {
    var s := State([ItemB()] + rest, ChainRows(Some(a), b));
    var t := State(rest, ChainRows(Some(a), Some(3 * a)));
    assert s.queue[1..] == rest;
    assert Factor(s.store, "A") == 3 * a;
    SetSizeOfB(Some(a), b, 3 * a);
    PickSingleton(pick, "A");
    StepFoldsOne(s, "A", t);
  }

  /** The steps after the seed pass with A listed first: A is reset to 1, then B is scored 1 * 3, twice. */
  lemma LeafFirstSteps(pick: set<string> -> seq<string>)
    requires Enumerates(pick)
    ensures StepsTo(State([ItemA(), ItemB(), ItemB()], ChainRows(Some(3), None)), pick, State([ItemB(), ItemB()], ChainRows(Some(1), None)))
    ensures StepsTo(State([ItemB(), ItemB()], ChainRows(Some(1), None)), pick, State([ItemB()], ChainRows(Some(1), Some(3))))
    ensures StepsTo(State([ItemB()], ChainRows(Some(1), Some(3))), pick, State([], ChainRows(Some(1), Some(3))))
  {
    var b := ItemB();
    assert [ItemA()] + [b, b] == [ItemA(), b, b] && [b] + [b] == [b, b] && [b] + [] == [b];
    StepsOnItemA(pick, [b, b], Some(3), None);
    StepsOnItemB(pick, [b], 1, None);
    StepsOnItemB(pick, [], 1, Some(3));
  }

  /** The drain after the seed pass with A listed first. */
  lemma LeafFirstRun(pick: set<string> -> seq<string>, fuel: nat)
    requires Enumerates(pick)
    requires fuel >= 3
    ensures Drain(State([ItemA(), ItemB(), ItemB()], ChainRows(Some(3), None)), pick, fuel)
         == State([], ChainRows(Some(1), Some(3)))
  {
    LeafFirstSteps(pick);
    DrainThrough(State([ItemA(), ItemB(), ItemB()], ChainRows(Some(3), None)), State([ItemB(), ItemB()], ChainRows(Some(1), None)),
                 State([ItemB()], ChainRows(Some(1), Some(3))), State([], ChainRows(Some(1), Some(3))), pick, fuel);
  }

  /**
   * As written, with A listed first: A's own item resets A to 1 before B is walked,
   * so B is scored 1 * 3 = 3 and A ends at 1 instead of its version count 3.
   */
  lemma ChainLeafFirst(pick: set<string> -> seq<string>, fuel: nat)
    requires Enumerates(pick)
    requires fuel >= 3
    ensures Pile(["A", "B"], ChainGraph, ChainStore, pick, fuel) == State([], ChainRows(Some(1), Some(3)))
  {
    SeedChain(["A", "B"]);
    assert Seed(["A", "B"], ChainGraph, ChainStore) == State([ItemA(), ItemB(), ItemB()], ChainRows(Some(3), None));
    LeafFirstRun(pick, fuel);
  }

  /** The steps after the seed pass with B listed first: B is scored 3 * 3, twice, then A is reset to 1. */
  lemma LeafLastSteps(pick: set<string> -> seq<string>)
    requires Enumerates(pick)
    ensures StepsTo(State([ItemB(), ItemB(), ItemA()], ChainRows(Some(3), None)), pick, State([ItemB(), ItemA()], ChainRows(Some(3), Some(9))))
    ensures StepsTo(State([ItemB(), ItemA()], ChainRows(Some(3), Some(9))), pick, State([ItemA()], ChainRows(Some(3), Some(9))))
    ensures StepsTo(State([ItemA()], ChainRows(Some(3), Some(9))), pick, State([], ChainRows(Some(1), Some(9))))
  {
    var a := ItemA();
    var b := ItemB();
    assert [b] + [b, a] == [b, b, a] && [b] + [a] == [b, a] && [a] + [] == [a];
    StepsOnItemB(pick, [b, a], 3, None);
    StepsOnItemB(pick, [a], 3, Some(9));
    StepsOnItemA(pick, [], Some(3), Some(9));
  }

  /** The drain after the seed pass with B listed first. */
  lemma LeafLastRun(pick: set<string> -> seq<string>, fuel: nat)
    requires Enumerates(pick)
    requires fuel >= 3
    ensures Drain(State([ItemB(), ItemB(), ItemA()], ChainRows(Some(3), None)), pick, fuel)
         == State([], ChainRows(Some(1), Some(9)))
  {
    LeafLastSteps(pick);
    DrainThrough(State([ItemB(), ItemB(), ItemA()], ChainRows(Some(3), None)), State([ItemB(), ItemA()], ChainRows(Some(3), Some(9))),
                 State([ItemA()], ChainRows(Some(3), Some(9))), State([], ChainRows(Some(1), Some(9))), pick, fuel);
  }

  /**
   * As written, with B listed first: B is walked while A still holds its version count,
   * so B is scored 3 * 3 = 9; A is reset to 1 afterwards. The result depends on the listing order.
   */
  lemma ChainLeafLast(pick: set<string> -> seq<string>, fuel: nat)
    requires Enumerates(pick)
    requires fuel >= 3
    ensures Pile(["B", "A"], ChainGraph, ChainStore, pick, fuel) == State([], ChainRows(Some(1), Some(9)))
  {
    SeedChain(["B", "A"]);
    assert Seed(["B", "A"], ChainGraph, ChainStore) == State([ItemB(), ItemB(), ItemA()], ChainRows(Some(3), None));
    LeafLastRun(pick, fuel);
  }

  /** The corrected seed pass over the chain, in either listing order. */
  lemma SeedChainCorrected(packages: seq<string>)
    requires packages == ["A", "B"] || packages == ["B", "A"]
    ensures SeedCorrected(packages, ChainGraph, ChainStore) == State([ItemB()], ChainRows(Some(3), None))
  {
    var s0 := SeedCorrected(packages, ChainGraph, ChainStore);
    SeedCorrectedUnfold(packages, ChainGraph, ChainStore);
    SeedCorrectedUnfold(packages[..1], ChainGraph, ChainStore);
    assert packages[..1] == [packages[0]];
    assert packages[..1][..0] == [];
    assert s0.queue == [ItemB()];
    SetSizeOfA(None, None, 3);
  }

  /** With the corrected seed pass, A keeps 3 and B is scored 3 * 3 = 9 in either listing order. */
  lemma ChainCorrected(pick: set<string> -> seq<string>, fuel: nat, packages: seq<string>)
    requires Enumerates(pick)
    requires fuel >= 1
    requires packages == ["A", "B"] || packages == ["B", "A"]
    ensures PileCorrected(packages, ChainGraph, ChainStore, pick, fuel) == State([], ChainRows(Some(3), Some(9)))
  {
    SeedChainCorrected(packages);
    StepsOnItemB(pick, [], 3, None);
    assert [ItemB()] + [] == [ItemB()];
    DrainThroughOne(State([ItemB()], ChainRows(Some(3), None)), State([], ChainRows(Some(3), Some(9))), pick, fuel);
  }

  // ------------------------------------------------ a dependency cycle

  /** C and D depend on each other. */
  function CycleGraph(p: string): set<string>
  {
    if p == "C" then {"D"} else if p == "D" then {"C"} else {}
  }

  /** C has 2 versions and D has 5; neither is scored. */
  const CycleStore: Store := map["C" := Entry(2, None), "D" := Entry(5, None)]

  ghost predicate CycleItems(q: seq<SubGraph>)
  {
    forall i :: 0 <= i < |q| ==> q[i] == Fresh("C", {"D"}) || q[i] == Fresh("D", {"C"})
  }

  /** On the cycle the head item always waits on the other, unscored, package: it goes to the back unchanged. */
  lemma CycleStep(s: State, pick: set<string> -> seq<string>)
    requires Enumerates(pick)
    requires s.store == CycleStore && CycleItems(s.queue) && |s.queue| > 0
    ensures StepsTo(s, pick, State(s.queue[1..] + [s.queue[0]], s.store))
    ensures CycleItems(s.queue[1..] + [s.queue[0]])
  {
    var head := s.queue[0];
    var other := if head.name == "C" then "D" else "C";
    PickSingleton(pick, other);
    assert head == Fresh(head.name, {other});
    StepDefersOne(s, other);
    var q := s.queue[1..] + [head];
    forall i | 0 <= i < |q| ensures q[i] == Fresh("C", {"D"}) || q[i] == Fresh("D", {"C"}) {
      if i < |q| - 1 {
        assert q[i] == s.queue[i + 1];
      }
    }
  }

  /** On the cycle every step defers its item unchanged, so nothing is ever written and the queue never shrinks. */
  lemma {:induction false} CycleCirculates(s: State, pick: set<string> -> seq<string>, fuel: nat)
    requires Enumerates(pick)
    requires s.store == CycleStore
    requires CycleItems(s.queue)
    ensures Drain(s, pick, fuel).store == CycleStore
    ensures |Drain(s, pick, fuel).queue| == |s.queue|
    decreases fuel
  {
    if fuel > 0 && |s.queue| > 0 {
      var next := State(s.queue[1..] + [s.queue[0]], s.store);
      CycleStep(s, pick);
      DrainAfterStep(s, next, pick, fuel);
      CycleCirculates(next, pick, fuel - 1);
    }
  }

  /** Piling the cycle leaves both rows, and so both sizes, unset and four items circulating, however many steps are allowed. */
  lemma CycleNeverFinalizes(pick: set<string> -> seq<string>, fuel: nat)
    requires Enumerates(pick)
    ensures var r := Pile(["C", "D"], CycleGraph, CycleStore, pick, fuel);
      r.store == CycleStore && |r.queue| == 4
  {
    var c := Fresh("C", {"D"});
    var d := Fresh("D", {"C"});
    var s0 := Seed(["C", "D"], CycleGraph, CycleStore);
    SeedUnfold(["C", "D"], CycleGraph, CycleStore);
    SeedUnfold(["C"], CycleGraph, CycleStore);
    assert ["C", "D"][..1] == ["C"];
    assert s0 == State([c, c, d, d], CycleStore);
    CycleCirculates(s0, pick, fuel);
  }
}
