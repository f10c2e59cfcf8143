/** Checking a plan before its tasks are created: each item by itself, then the graph of dependencies for loops. */
module PlanGraph {
  import opened Chars
  import opened Texts
  import opened Words

  // ---------------------------------------------------------------------------------------------
  // Loops and orders

  predicate InRange(deps: seq<seq<nat>>) {
    forall u, k :: 0 <= u < |deps| && 0 <= k < |deps[u]| ==> deps[u][k] < |deps|
  }

  /** Every node depends on the next one. */
  predicate Chain(deps: seq<seq<nat>>, path: seq<nat>) {
    && (forall k :: 0 <= k < |path| ==> path[k] < |deps|)
    && (forall k :: 0 <= k < |path| - 1 ==> path[k + 1] in deps[path[k]])
  }

  /** A walk along dependencies that returns to where it started. */
  predicate Loop(deps: seq<seq<nat>>, path: seq<nat>) {
    2 <= |path| && Chain(deps, path) && path[0] == path[|path| - 1]
  }

  ghost predicate Acyclic(deps: seq<seq<nat>>) {
    forall path :: !Loop(deps, path)
  }

  /** No repeats, and each node comes after all its dependencies. */
  ghost predicate Ordered(deps: seq<seq<nat>>, order: seq<nat>) {
    && (forall i :: 0 <= i < |order| ==> order[i] < |deps|)
    && (forall i, j :: 0 <= i < j < |order| ==> order[i] != order[j])
    && (forall i :: 0 <= i < |order| ==> DependsOnly(deps, order[i], order[..i]))
  }

  predicate DependsOnly(deps: seq<seq<nat>>, u: nat, done: seq<nat>)
    requires u < |deps|
  {
    forall k :: 0 <= k < |deps[u]| ==> deps[u][k] in done
  }

  /** An order of execution for the whole plan. */
  ghost predicate Schedule(deps: seq<seq<nat>>, order: seq<nat>) {
    Ordered(deps, order) && forall u: nat :: u < |deps| ==> u in order
  }

  /** Along a chain, places in an order only go down. */
  lemma {:induction false} ChainGoesDown(deps: seq<seq<nat>>, order: seq<nat>, path: seq<nat>, i: nat) returns (j: nat)
    requires Ordered(deps, order) && Chain(deps, path) && path != [] && i < |order| && order[i] == path[0]
    ensures j < |order| && order[j] == path[|path| - 1] && j + |path| - 1 <= i
    decreases |path|
  {
    j := i;
    if 1 < |path| {
      assert DependsOnly(deps, order[i], order[..i]);
      assert path[0 + 1] in deps[path[0]];
      var d :| 0 <= d < |deps[path[0]]| && deps[path[0]][d] == path[1];
      var before := order[..i];
      assert deps[order[i]][d] in before;
      var k: nat :| k < |before| && before[k] == path[1];
      j := ChainGoesDown(deps, order, path[1..], k);
    }
  }

  /** A plan with an order of execution has no loop. */
  lemma ScheduleMeansAcyclic(deps: seq<seq<nat>>, order: seq<nat>)
    requires Schedule(deps, order)
    ensures Acyclic(deps)
  {
    forall path ensures !Loop(deps, path) {
      if Loop(deps, path) {
        assert path[0] in order;
        var i: nat :| i < |order| && order[i] == path[0];
        var j := ChainGoesDown(deps, order, path, i);
      }
    }
  }

  // ---------------------------------------------------------------------------------------------
  // The walk

  datatype Verdict = Accepted | Rejected(loop: seq<nat>)

  function Index(path: seq<nat>, node: nat): (i: nat)
    requires node in path
    ensures i < |path| && path[i] == node
  {
    if path[0] == node then 0 else 1 + Index(path[1..], node)
  }

  /** How many nodes were not looked at. */
  function White(state: seq<int>): nat {
    if state == [] then 0 else White(state[..|state| - 1]) + if state[|state| - 1] == 0 then 1 else 0
  }

  /** The colours agree with the path being walked (1) and the order of nodes closed so far (2). */
  ghost predicate Coloured(deps: seq<seq<nat>>, state: seq<int>, path: seq<nat>, order: seq<nat>) {
    && |state| == |deps|
    && (forall i :: 0 <= i < |state| ==> 0 <= state[i] <= 2)
    && (forall i: nat :: i < |state| ==> (state[i] == 1 <==> i in path))
    && (forall i: nat :: i < |state| ==> (state[i] == 2 <==> i in order))
  }

  /** Nodes once looked at keep their colour. */
  ghost predicate Later(before: seq<int>, after: seq<int>) {
    |before| == |after| && forall i :: 0 <= i < |before| && before[i] != 0 ==> after[i] == before[i]
  }

  lemma {:induction false} WhiteOnlyFalls(before: seq<int>, after: seq<int>)
    requires Later(before, after)
    ensures White(after) <= White(before)
    ensures (exists i :: 0 <= i < |before| && before[i] == 0 && after[i] != 0) ==> White(after) < White(before)
    decreases |before|
  {
    if before != [] {
      var n := |before| - 1;
      WhiteOnlyFalls(before[..n], after[..n]);
      if i :| 0 <= i < n && before[i] == 0 && after[i] != 0 {
        assert before[..n][i] == 0 && after[..n][i] != 0;
      }
    }
  }

  lemma ChainTail(deps: seq<seq<nat>>, path: seq<nat>, i: nat)
    requires Chain(deps, path) && i < |path|
    ensures Chain(deps, path[i..])
  {
    var t := path[i..];
    forall k | 0 <= k < |t| - 1 ensures t[k + 1] in deps[t[k]] {
      assert path[i + k + 1] in deps[path[i + k]];
    }
  }

  /** The first dependencies of a node are closed. */
  ghost predicate ClosedUpTo(deps: seq<seq<nat>>, node: nat, n: nat, order: seq<nat>)
    requires node < |deps| && n <= |deps[node]|
  {
    forall i :: 0 <= i < n ==> deps[node][i] in order
  }

  lemma StillClosed(deps: seq<seq<nat>>, node: nat, n: nat, before: seq<nat>, after: seq<nat>)
    requires node < |deps| && n < |deps[node]| && before <= after
    requires ClosedUpTo(deps, node, n, before) && deps[node][n] in after
    ensures ClosedUpTo(deps, node, n + 1, after)
  {
    forall i | 0 <= i < n ensures deps[node][i] in after { assert deps[node][i] in before; }
  }

  method Walk(deps: seq<seq<nat>>, state: array<int>, node: nat, path: seq<nat>, ghost order: seq<nat>)
    returns (r: Verdict, ghost order': seq<nat>)
    requires InRange(deps) && node < |deps| && Chain(deps, path + [node])
    requires Coloured(deps, state[..], path, order) && Ordered(deps, order)
    modifies state
    ensures r.Rejected? ==> Loop(deps, r.loop)
    ensures r.Accepted? ==> Coloured(deps, state[..], path, order') && Ordered(deps, order') && node in order'
    ensures r.Accepted? ==> order <= order' && Later(old(state[..]), state[..])
    decreases White(state[..])
  {
    order' := order;
    if state[node] == 1 {
      ghost var i := Index(path, node);
      ChainTail(deps, path + [node], i);
      assert (path + [node])[i..] == path[Index(path, node)..] + [node];
      return Rejected(path[Index(path, node)..] + [node]), order;
    }
    if state[node] == 2 { return Accepted, order; }
    ghost var start := state[..];
    state[node] := 1;
    WhiteOnlyFalls(start, state[..]);
    var here := path + [node];
    assert Coloured(deps, state[..], here, order);
    for k := 0 to |deps[node]|
      invariant Coloured(deps, state[..], here, order') && Ordered(deps, order')
      invariant order <= order' && ClosedUpTo(deps, node, k, order')
      invariant Later(start[node := 1], state[..])
    {
      WhiteOnlyFalls(start[node := 1], state[..]);
      ChainOn(deps, here, deps[node][k]);
      ghost var prior := order';
      r, order' := Walk(deps, state, deps[node][k], here, order');
      if r.Rejected? { return; }
      StillClosed(deps, node, k, prior, order');
    }
    r := Accepted;
    ghost var ended := state[..];
    state[node] := 2;
    Closed(deps, ended, path, node, order');
    assert state[..] == ended[node := 2];
    order' := order' + [node];
  }

  lemma ChainOn(deps: seq<seq<nat>>, path: seq<nat>, next: nat)
    requires Chain(deps, path) && path != [] && next < |deps| && next in deps[path[|path| - 1]]
    ensures Chain(deps, path + [next])
  {
  }

  /** A node whose dependencies are all closed is closed next. */
  lemma Closed(deps: seq<seq<nat>>, state: seq<int>, path: seq<nat>, node: nat, order: seq<nat>)
    requires node < |deps| && Coloured(deps, state, path + [node], order) && Ordered(deps, order)
    requires node !in path && DependsOnly(deps, node, order)
    ensures Coloured(deps, state[node := 2], path, order + [node]) && Ordered(deps, order + [node])
  {
    var longer := order + [node];
    assert node !in order;
    forall i | 0 <= i < |longer| ensures DependsOnly(deps, longer[i], longer[..i]) {
      assert longer[..i] == order[..i];
    }
  }

  ghost predicate AllBelow(n: nat, order: seq<nat>) {
    forall u: nat :: u < n ==> u in order
  }

  lemma StillBelow(n: nat, before: seq<nat>, after: seq<nat>)
    requires AllBelow(n, before) && before <= after && n in after
    ensures AllBelow(n + 1, after)
  {
    forall u: nat | u < n ensures u in after { assert u in before; }
  }

  /**
   * A plan is accepted exactly when its graph has no loop; then it has an order of execution,
   * and otherwise the loop reported is one of the graph.
   */
  method RejectCycles(deps: seq<seq<nat>>) returns (r: Verdict, ghost order: seq<nat>)
    requires InRange(deps)
    ensures r.Accepted? <==> Acyclic(deps)
    ensures r.Accepted? ==> Schedule(deps, order)
    ensures r.Rejected? ==> Loop(deps, r.loop)
  {
    var state := new int[|deps|](_ => 0);
    order := [];
    for i := 0 to |deps|
      invariant Coloured(deps, state[..], [], order) && Ordered(deps, order)
      invariant AllBelow(i, order)
    {
      ghost var prior := order;
      assert [] + [i] == [i];
      r, order := Walk(deps, state, i, [], order);
      if r.Rejected? { return; }
      StillBelow(i, prior, order);
    }
    r := Accepted;
    ScheduleMeansAcyclic(deps, order);
  }

  // ---------------------------------------------------------------------------------------------
  // The whole check

  datatype Item = Item(title: string, body: string, release: string, dependsOn: seq<int>, rationale: string)

  datatype PlanError =
    | EmptyPlan
    | TooManyItems
    | NoTitle(index: nat)
    | OutOfList(index: nat, dependency: int)
    | OnItself(index: nat)
    | UnknownRelease(index: nat)
    | InLoop(loop: seq<nat>)

  datatype Validated = Valid(items: seq<Item>) | Invalid(error: PlanError)

  const TOTAL_CAP: nat := 20
  const RELEASES: set<string> := {"mvp", "grow", "support"}

  function DependencyError(deps: seq<int>, index: nat, count: nat): (e: Option<PlanError>)
    ensures e.Some? ==> (e.value.OutOfList? || e.value.OnItself?) && e.value.index == index
  {
    if deps == [] then None
    else if !(0 <= deps[0] < count) then Some(OutOfList(index, deps[0]))
    else if deps[0] == index then Some(OnItself(index))
    else DependencyError(deps[1..], index, count)
  }

  /** The first thing wrong with one item. */
  function ItemError(item: Item, index: nat, count: nat): (e: Option<PlanError>)
    ensures e.Some? ==> !e.value.InLoop?
  {
    if Trim(item.title) == "" then Some(NoTitle(index))
    else if DependencyError(item.dependsOn, index, count).Some? then DependencyError(item.dependsOn, index, count)
    else if Lower(Trim(item.release)) !in RELEASES then Some(UnknownRelease(index))
    else None
  }

  function Normal(item: Item): Item {
    Item(Trim(item.title), Trim(item.body), Lower(Trim(item.release)), item.dependsOn, Trim(item.rationale))
  }

  lemma {:induction false} DependenciesInRange(deps: seq<int>, index: nat, count: nat)
    requires DependencyError(deps, index, count) == None
    ensures forall k :: 0 <= k < |deps| ==> 0 <= deps[k] < count && deps[k] != index
  {
    if deps != [] { DependenciesInRange(deps[1..], index, count); }
  }

  // What is wrong with an item, said of its fields

  /** The title holds something else than white space. */
  predicate Titled(item: Item) {
    exists k :: 0 <= k < |item.title| && !IsSpace(item.title[k])
  }

  /** The text is one of the three releases, in any case and with any white space around. */
  ghost predicate ReleaseNamed(text: string) {
    exists w: string :: (Lower(w) == "mvp" || Lower(w) == "grow" || Lower(w) == "support") && Within(text, w, IsSpace)
  }

  predicate InList(dependency: int, count: nat) {
    0 <= dependency < count
  }

  /** Every dependency is the index of another item. */
  predicate DependsWell(item: Item, index: nat, count: nat) {
    forall k :: 0 <= k < |item.dependsOn| ==> InList(item.dependsOn[k], count) && item.dependsOn[k] != index
  }

  ghost predicate ItemFine(item: Item, index: nat, count: nat) {
    Titled(item) && DependsWell(item, index, count) && ReleaseNamed(item.release)
  }

  ghost predicate AllFine(items: seq<Item>) {
    forall i :: 0 <= i < |items| ==> ItemFine(items[i], i, |items|)
  }

  /** The item has the very fault the error names, and none that is looked for before. */
  ghost predicate HasFault(item: Item, index: nat, count: nat, error: PlanError) {
    match error
    case NoTitle(i) => i == index && !Titled(item)
    case OutOfList(i, dependency) => i == index && Titled(item) && dependency in item.dependsOn && !InList(dependency, count)
    case OnItself(i) => i == index && Titled(item) && (index as int) in item.dependsOn
    case UnknownRelease(i) => i == index && Titled(item) && DependsWell(item, index, count) && !ReleaseNamed(item.release)
    case _ => false
  }

  /** The error is of the first item with a fault, and names that fault. */
  ghost predicate NamesFault(items: seq<Item>, error: PlanError) {
    exists i: nat :: i < |items| && HasFault(items[i], i, |items|, error) &&
      forall j :: 0 <= j < i ==> ItemFine(items[j], j, |items|)
  }

  /** The text without white space at its ends. */
  ghost predicate Trimmed(text: string, t: string) {
    Within(text, t, IsSpace) && Bare(t, IsSpace)
  }

  /** The same item with its texts trimmed and its release in small letters. */
  ghost predicate SameItem(item: Item, out: Item) {
    && Trimmed(item.title, out.title) && Trimmed(item.body, out.body) && Trimmed(item.rationale, out.rationale)
    && (out.release == "mvp" || out.release == "grow" || out.release == "support")
    && (exists w: string :: Trimmed(item.release, w) && out.release == Lower(w))
    && out.dependsOn == item.dependsOn
  }

  ghost predicate SameItems(items: seq<Item>, out: seq<Item>) {
    |out| == |items| && forall i :: 0 <= i < |items| ==> SameItem(items[i], out[i])
  }

  lemma TitledIff(item: Item)
    ensures Trim(item.title) == "" <==> !Titled(item)
  {
    BlankIff(item.title);
  }

  lemma ReleaseWord(w: string)
    requires Lower(w) == "mvp" || Lower(w) == "grow" || Lower(w) == "support"
    ensures Bare(w, IsSpace)
  {
    LowerAt(w);
    LowerSpace(w[0]);
    LowerSpace(w[|w| - 1]);
  }

  lemma ReleaseIff(text: string)
    ensures Lower(Trim(text)) in RELEASES <==> ReleaseNamed(text)
  {
    TrimIff(text, Trim(text));
    if ReleaseNamed(text) {
      var w: string :| (Lower(w) == "mvp" || Lower(w) == "grow" || Lower(w) == "support") && Within(text, w, IsSpace);
      ReleaseWord(w);
      TrimIff(text, w);
    }
  }

  lemma {:induction false} DependencyFault(deps: seq<int>, index: nat, count: nat)
    ensures DependencyError(deps, index, count) == None <==>
      forall k :: 0 <= k < |deps| ==> InList(deps[k], count) && deps[k] != index
    ensures match DependencyError(deps, index, count)
      case Some(OutOfList(i, d)) => i == index && d in deps && !InList(d, count)
      case Some(OnItself(i)) => i == index && (index as int) in deps
      case Some(_) => false
      case None => true
  {
    if deps != [] {
      DependencyFault(deps[1..], index, count);
      assert deps == [deps[0]] + deps[1..];
    }
  }

  /** The check of one item finds a fault exactly when there is one, and names it. */
  lemma ItemFault(item: Item, index: nat, count: nat)
    ensures ItemError(item, index, count) == None <==> ItemFine(item, index, count)
    ensures ItemError(item, index, count).Some? ==> HasFault(item, index, count, ItemError(item, index, count).value)
  {
    TitledIff(item);
    ReleaseIff(item.release);
    DependencyFault(item.dependsOn, index, count);
  }

  lemma AllFineIff(items: seq<Item>)
    ensures ItemsFine(items) <==> AllFine(items)
  {
    forall i | 0 <= i < |items| ensures ItemError(items[i], i, |items|) == None <==> ItemFine(items[i], i, |items|) {
      ItemFault(items[i], i, |items|);
    }
  }

  lemma FaultNamed(items: seq<Item>, error: PlanError)
    requires FirstError(items, error)
    ensures NamesFault(items, error)
  {
    var i: nat :| i < |items| && FailsFirst(items, i, error);
    ItemFault(items[i], i, |items|);
    forall j | 0 <= j < i ensures ItemFine(items[j], j, |items|) { ItemFault(items[j], j, |items|); }
  }

  lemma NormalIs(item: Item)
    requires ReleaseNamed(item.release)
    ensures SameItem(item, Normal(item))
  {
    TrimIff(item.title, Trim(item.title));
    TrimIff(item.body, Trim(item.body));
    TrimIff(item.rationale, Trim(item.rationale));
    TrimIff(item.release, Trim(item.release));
    ReleaseIff(item.release);
  }

  lemma NormalisedIs(items: seq<Item>, out: seq<Item>)
    requires ItemsFine(items) && Normalised(items, out)
    ensures SameItems(items, out)
  {
    forall i | 0 <= i < |items| ensures SameItem(items[i], out[i]) {
      ItemFault(items[i], i, |items|);
      NormalIs(items[i]);
    }
  }

  ghost predicate ItemsFine(items: seq<Item>) {
    forall i :: 0 <= i < |items| ==> ItemError(items[i], i, |items|) == None
  }

  /** The graph of a plan whose items are fine. */
  ghost predicate GraphOf(items: seq<Item>, deps: seq<seq<nat>>) {
    |deps| == |items| && forall i :: 0 <= i < |items| ==> deps[i] == items[i].dependsOn
  }

  ghost predicate FineBefore(items: seq<Item>, n: nat)
    requires n <= |items|
  {
    forall j :: 0 <= j < n ==> ItemError(items[j], j, |items|) == None
  }

  ghost predicate FailsFirst(items: seq<Item>, i: nat, error: PlanError)
    requires i < |items|
  {
    ItemError(items[i], i, |items|) == Some(error) && FineBefore(items, i)
  }

  /** The first error of the first item that has one. */
  ghost predicate FirstError(items: seq<Item>, error: PlanError) {
    exists i: nat :: i < |items| && FailsFirst(items, i, error)
  }

  lemma GraphInRange(items: seq<Item>, graph: seq<seq<nat>>)
    requires ItemsFine(items) && GraphOf(items, graph)
    ensures InRange(graph)
  {
    forall i | 0 <= i < |items| ensures forall k :: 0 <= k < |graph[i]| ==> graph[i][k] < |items| {
      DependenciesInRange(items[i].dependsOn, i, |items|);
    }
  }

  ghost predicate Normalised(items: seq<Item>, out: seq<Item>) {
    |out| == |items| && forall i :: 0 <= i < |items| ==> out[i] == Normal(items[i])
  }

  /** What the check has built from the first items. */
  ghost predicate BuiltUpTo(items: seq<Item>, n: nat, out: seq<Item>, graph: seq<seq<nat>>)
    requires n <= |items|
  {
    && |out| == n && |graph| == n
    && forall j :: 0 <= j < n ==> out[j] == Normal(items[j]) && graph[j] == items[j].dependsOn
  }

  lemma BuiltOn(items: seq<Item>, n: nat, out: seq<Item>, graph: seq<seq<nat>>, deps: seq<nat>)
    requires n < |items| && BuiltUpTo(items, n, out, graph) && FineBefore(items, n)
    requires ItemError(items[n], n, |items|) == None && deps == items[n].dependsOn
    ensures BuiltUpTo(items, n + 1, out + [Normal(items[n])], graph + [deps]) && FineBefore(items, n + 1)
  {
  }

  method CheckItems(items: seq<Item>) returns (error: Option<PlanError>, out: seq<Item>, graph: seq<seq<nat>>)
    ensures error.None? ==> ItemsFine(items) && Normalised(items, out) && GraphOf(items, graph) && InRange(graph)
    ensures error.Some? ==> !ItemsFine(items) && FirstError(items, error.value) && !error.value.InLoop?
    ensures error.None? <==> AllFine(items)
    ensures if error.None? then SameItems(items, out) else NamesFault(items, error.value)
  {
    error, out, graph := None, [], [];
    for i := 0 to |items|
      invariant error.None? && BuiltUpTo(items, i, out, graph) && FineBefore(items, i)
    {
      error := ItemError(items[i], i, |items|);
      if error.Some? {
        assert FailsFirst(items, i, error.value);
        AllFineIff(items);
        FaultNamed(items, error.value);
        return;
      }
      DependenciesInRange(items[i].dependsOn, i, |items|);
      var deps: seq<nat> := items[i].dependsOn;
      BuiltOn(items, i, out, graph, deps);
      out, graph := out + [Normal(items[i])], graph + [deps];
    }
    GraphInRange(items, graph);
    AllFineIff(items);
    NormalisedIs(items, out);
  }

  /**
   * A plan passes exactly when it has one to twenty items, each with a title, with dependencies on other items and with
   * one of the three releases, and no loop of dependencies; then the items come back in their order, trimmed, and there
   * is an order to carry them out. Else the error names what is wrong: the number of items, the fault of the first item
   * that has one, or a loop.
   */
  method Validate(items: seq<Item>) returns (r: Validated, ghost deps: seq<seq<nat>>, ghost order: seq<nat>)
    ensures AllFine(items) && 0 < |items| <= 20 ==> GraphOf(items, deps)
    ensures (r == Invalid(EmptyPlan) <==> items == []) && (r == Invalid(TooManyItems) <==> 20 < |items|)
    ensures r.Valid? <==> 0 < |items| <= 20 && AllFine(items) && Acyclic(deps)
    ensures r.Valid? ==> Schedule(deps, order) && SameItems(items, r.items)
    ensures r.Invalid? && r.error.InLoop? ==> AllFine(items) && Loop(deps, r.error.loop)
    ensures r.Invalid? && !r.error.InLoop? && 0 < |items| <= 20 ==> NamesFault(items, r.error)
  {
    deps, order := [], [];
    if items == [] { return Invalid(EmptyPlan), deps, order; }
    if TOTAL_CAP < |items| { return Invalid(TooManyItems), deps, order; }
    var error, out, graph := CheckItems(items);
    if error.Some? { return Invalid(error.value), deps, order; }
    deps := graph;
    var verdict;
    verdict, order := RejectCycles(graph);
    r := if verdict.Accepted? then Valid(out) else Invalid(InLoop(verdict.loop));
  }
}
