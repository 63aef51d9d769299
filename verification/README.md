# Graph score of the package memo store

This project models the graph-score computation of the graph-memory estimator
(`_fill_graph_score` in `app.py`). It also models the exit-code mapping of the
`estimate` command.

The score engine works in two phases:

- **Seed pass.** It lists every package the graph database knows. For each
  package it enqueues a work item (`SubGraphEntity`) holding the package's direct
  dependencies. A package with no dependencies (a *leaf*) has its stored subgraph
  size set straight to its version count.
- **Drain loop.** It pops work items from the front of the queue and walks each
  item's to-visit set, folding `size * version_count` of every dependency that is
  already scored into the item's running product. The walk ends in one of three
  ways:
  - a dependency has no row: the item is dropped;
  - a dependency has a row but no size yet: the item goes to the back of the
    queue;
  - every dependency is folded: the product is written as the item's own size.

## How the model is built

- The memo table is a `map` from package name to `Entry(versionCount, size)`.
  `size` is an `Option`, and `None` means "not computed yet".
- The graph database is a function from a package to its set of direct
  dependencies.
- Python's set iteration order is a parameter `pick`. `Enumerates(pick)`
  requires it to list every element of a set exactly once.
- `pick` is a function of a set's contents, so within one drain two equal sets
  are always iterated in the same order. Python's order can also depend on how
  the set was built, and the model assumes it does not. Every step lemma holds
  for an arbitrary iteration order `order`, so no per-step property rests on
  this assumption.
- The drain loop need not end on a dependency cycle, so `Drain` runs for at most
  `fuel` steps.

Modules:

| file | module | content |
|---|---|---|
| `wrappers.dfy` | `Wrappers` | `Option` |
| `store.dfy` | `ScoreStore` | rows, writing a size, the order-free product over a set of dependencies |
| `subgraph.dfy` | `SubGraphs` | the work item, set enumerations, occurrence counting |
| `engine.dfy` | `GraphScore` | seed pass, walk, drain step, drain loop, and the corrected seed pass |
| `properties.dfy` | `GraphScoreProperties` | invariants over all inputs |
| `scenarios.dfy` | `Scenarios` | a two-package chain in both listing orders, and a two-package cycle |
| `estimate.dfy` | `Estimate` | the bucket exit code |

The comment at `app.py:124` says the first walk marks down the packages that
have no dependencies, so that only packages with dependencies are left to the
drain loop. The seed loop does more than that, and the model follows the code:

- it appends an item for every package, leaves included (`app.py:127`);
- it appends a second item for each package with dependencies (`app.py:137`).

The extra item for a leaf is not harmless: see "## Findings".

## Model

| member | source | states |
|---|---|---|
| `SubGraphs.Fresh` | app.py:75-83 | A new work item has nothing folded, all dependencies to visit and product 1 |
| `GraphScore.ItemsFor` | app.py:126-137 | The seed loop enqueues one item for a leaf and two for a package with dependencies, all fresh for that package |
| `GraphScore.Seed` | app.py:125-137 | After the seed pass every queued item is fresh for a listed package. The store keeps its keys. Exactly the listed leaves that have a row get their size set to their version count, and every other row is unchanged |
| `GraphScore.SeedPackageEffect` | app.py:126-137 | One seed iteration appends that package's items to the queue. It writes only a leaf's own row, and skips a leaf with no row |
| `GraphScoreProperties.SeedOccurrences` | app.py:125-137 | As written, a package listed m times gets m items if it is a leaf and 2m otherwise |
| `GraphScoreProperties.SeedEstablishesInvariants` | app.py:127 | Every seeded item is well formed: `seen` and `to_visit` are disjoint and together make up the package's dependencies. Its product is the empty product |
| `ScoreStore.SetSize` | app.py:161-162 | Persisting a size changes only that row's size: the row keeps its version count and every other row is kept |
| `GraphScore.FoldedPrefix` | app.py:142-151 | The walk folds exactly the longest prefix of the iteration order whose dependencies all have a row with a size |
| `GraphScore.Walk` | app.py:142-154 | The inner loop adds the folded prefix to `seen` and multiplies the product by each folded dependency's size times version count. It completes exactly when the whole order was folded. Otherwise it reports the first dependency with no row, or with no size |
| `GraphScore.StepShape` | app.py:139-164 | One drain step pops the head. It finalizes exactly when every dependency has a row with a size and the subject has a row, and it is orphaned when the subject has none. Otherwise the first dependency in iteration order that cannot be folded decides: no row drops the item, no size defers it. Only finalization changes the store, and only a deferred item returns to the queue |
| `GraphScore.StepDefers` | app.py:142-164 | A deferred item goes to the back as the same subject, waiting on a dependency whose row has no size. The dependencies folded in this step move from `to_visit` to `seen`, and their product is multiplied into the item's product |
| `GraphScore.StepFinalizes` | app.py:155-162 | Finalization happens only when every dependency is folded. It writes the head's product times the product over its to-visit set into the subject's row, and changes no other row |
| `GraphScore.DrainFrame` | app.py:139-164 | The drain never grows the queue or adds a new subject. It keeps every key and version count, never unsets a size, and never touches the row of a package with no queued item |
| `GraphScoreProperties.StepKeepsWellFormed` | app.py:142-164 | A drain step keeps every queued item well formed: no dependency is folded twice or lost |
| `GraphScoreProperties.DrainKeepsWellFormed` | app.py:139-164 | The whole drain keeps every queued item well formed |
| `GraphScoreProperties.StepKeepsAccumulator` | app.py:153-164 | If an item's product equals the product over its `seen` set, a deferred item leaves with that property restored. A finalized subject receives the product over `seen` plus `to_visit` |
| `GraphScoreProperties.FinalizedSizeIsProductOverDependencies` | app.py:153-162 | For a well-formed item with a correct product, finalization stores the product, over the subject's direct dependencies, of size times version count |
| `GraphScoreProperties.AccumulatorFrame` | app.py:153-154 | An item's product stays correct while the rows it folded are unchanged |
| `GraphScoreProperties.EmptyToVisitFinalizes` | app.py:155-162 | An item with nothing to visit finalizes, or is orphaned, at once with its current product |
| `GraphScoreProperties.StepKeepsWaiting` | app.py:143-146 | While a dependency has no row, a step keeps every item of a package that still has it to visit in that state, and does not touch the package's row |
| `GraphScoreProperties.DrainStepKeepsWaiting` | app.py:139-146 | The first drain step preserves the waiting items and the package's row |
| `GraphScoreProperties.MissingDependencyBlocks` | app.py:139-146 | However long the drain runs, a package whose items wait on a dependency with no row keeps its row unchanged |
| `GraphScoreProperties.MissingDependencyLeavesSizeUnset` | app.py:143-146 | A package that depends on a package with no row, and has no size, never gets a size |
| `GraphScoreProperties.LeafItemWritesOne` | app.py:127-134 | As written, the item the seed loop enqueues unconditionally for a leaf finalizes the leaf with product 1, whatever its version count |
| `GraphScore.SeedPackageCorrectedEffect` | app.py:126-137 | One corrected seed iteration appends a single item, and only for a package with dependencies |
| `GraphScore.SeedCorrected` | app.py:125-137 | The corrected seed pass queues only fresh items of listed packages with dependencies. It writes the rows exactly as the seed pass does |
| `GraphScoreProperties.SeedCorrectedOccurrences` | app.py:125-137 | The corrected seed pass queues one item for each listing of a package with dependencies, and none for a leaf |
| `GraphScoreProperties.CorrectedLeafKeepsVersionCount` | app.py:128-135 | With the corrected seed pass, a listed leaf that has a row ends with its version count as its size, however long the drain runs |
| `Scenarios.SeedChain` | app.py:125-137 | Take A, a leaf with 3 versions, and B, which depends on A and has 2 versions. In either listing order the seed pass queues A's one item and B's two items in listing order, and sets A to 3 |
| `Scenarios.ChainLeafFirst` | app.py:118-164 | As written, with A listed first, the run ends with A = 1 and B = 3 |
| `Scenarios.ChainLeafLast` | app.py:118-164 | As written, with B listed first, the run ends with A = 1 and B = 9, so the result depends on the listing order |
| `Scenarios.SeedChainCorrected` | app.py:125-137 | The corrected seed pass over the chain queues only B and sets A to 3 |
| `Scenarios.ChainCorrected` | app.py:118-164 | With the corrected seed pass, the chain ends with A = 3 and B = 3 * 3 = 9 in either listing order |
| `Scenarios.CycleStep` | app.py:148-151 | On the cycle C ⇄ D, every step sends its item to the back of the queue unchanged |
| `Scenarios.CycleCirculates` | app.py:139-151 | On the cycle, the drain writes nothing and the queue keeps its length, for any number of steps |
| `Scenarios.CycleNeverFinalizes` | app.py:118-151 | Piling the cycle leaves both sizes unset, with four items circulating forever |
| `Estimate.ExitCode` | app.py:250-261 | `latest` exits with the small bucket (1) and an unknown type with the large bucket (3). A resource-hungry type returns normally |
| `Estimate.ExitCodeIsBucket` | app.py:50-55 | The exit code is always a bucket constant, and the medium bucket is never used |

## Left out

- Database sessions, queries and commits: the store is a value, and each `session.commit()` is the point where a new map replaces the old one.
- The graph database: the package listing and the dependency sets are inputs.
- `_fill_version_count`: version counts are already in the store. A missing version count, which the table allows, is not modelled: every row has a natural-number count.
- Floating point: sizes are natural numbers and the product is exact. There is no overflow to infinity and no rounding.
- The order in which Python iterates a set is not fixed. The model leaves it as the parameter `pick`, and every general lemma holds for any `pick`.
- Drain: the loop runs for at most `fuel` steps, because the source loop never ends on a dependency cycle (see `Scenarios.CycleNeverFinalizes`). Properties are stated for every fuel.
- Concurrent writers to the table during a run: not modelled. The store changes only through the engine.
- Logging, the click command line, `pile`'s database creation and `--recreate`, and the version option: these are I/O only.
- `estimate`: Pipfile parsing and `_do_estimate` are left out. `_do_estimate` has no body of substance, so `Estimate.ExitCode` returns `None` for a resource-hungry type.
- Re-run idempotence: not stated. With the code as written, a second run resets each leaf to its version count and then to 1 again.
- `GraphScore.StepDefers`: the product of a deferred item is stated only when the head's `seen` and `to_visit` are disjoint. Every seeded item keeps that disjointness (`GraphScoreProperties.DrainKeepsWellFormed`).
- `GraphScoreProperties.StepKeepsAccumulator`: the accumulator invariant is stated per step, not across the whole drain. A later write to a row that was already folded (a leaf reset to 1 by its own item) breaks it, and `GraphScoreProperties.AccumulatorFrame` states exactly when it survives.
- Bound on the number of drain steps: how many steps a chain of depth k needs is not stated.

## Findings

| source | as written | input that shows it | evidently intended | confidence | as-written member | corrected member |
|---|---|---|---|---|---|---|
| app.py:127 | Every package gets a work item before the leaf test. A leaf's own item therefore finalizes it with product 1, which overwrites the version count written at line 134. A dependent's score depends on whether it is walked before or after that reset | A has 3 versions and no dependencies; B depends on A. Listing [A, B] ends with A = 1 and B = 3; listing [B, A] ends with A = 1 and B = 9 | Only packages with dependencies are enqueued, and each only once, so a leaf keeps its version count and B = 3 * 3 = 9 in either order | not executed | `Scenarios.ChainLeafFirst` | `Scenarios.ChainCorrected` |
