/** Plan budgets: sums over the actions and the longest chain of dependent timeouts. */
module CriticalPath {
  import opened Collections
  import opened PlanModel
  import opened TopologicalOrder

  datatype ValidationSettings = ValidationSettings(
    maxActions: int,
    maxCriteria: int,
    maxArguments: int,
    maxEdges: int,
    maxTotalTimeout: int,
    maxCriticalPath: int)

  const DEFAULT_SETTINGS := ValidationSettings(8, 16, 64, 32, 1800, 900)

  function ArgumentCount(a: PlanAction): int { |a.arguments| }
  function DependencyCount(a: PlanAction): int { |a.dependencies| }
  function TimeoutOf(a: PlanAction): int { a.timeout }

  // ---- chains of dependent actions ----------------------------------------------------------

  /** Consecutive actions, each depending on the one before, starting from one that depends on nothing. */
  ghost predicate RootedChain(byId: map<Id, PlanAction>, chain: seq<Id>) {
    && Chain(byId, chain)
    && byId[chain[0]].dependencies == []
  }

  ghost predicate Chain(byId: map<Id, PlanAction>, chain: seq<Id>) {
    && chain != []
    && (forall i :: 0 <= i < |chain| ==> chain[i] in byId)
    && (forall i :: 0 < i < |chain| ==> chain[i - 1] in byId[chain[i]].dependencies)
  }

  ghost function Cost(byId: map<Id, PlanAction>, chain: seq<Id>): int
    requires forall i :: 0 <= i < |chain| ==> chain[i] in byId
  {
    if chain == [] then 0 else Cost(byId, chain[..|chain| - 1]) + byId[chain[|chain| - 1]].timeout
  }

  /** max((longest[d] for d in dependencies), default=0) */
  function MaxOver(longest: map<Id, int>, dependencies: seq<Id>): (m: int)
    requires forall i :: 0 <= i < |dependencies| ==> dependencies[i] in longest
    ensures dependencies == [] ==> m == 0
    ensures dependencies != [] ==> exists i :: 0 <= i < |dependencies| && m == longest[dependencies[i]]
    ensures forall i :: 0 <= i < |dependencies| ==> longest[dependencies[i]] <= m
  {
    if dependencies == [] then 0
    else if |dependencies| == 1 then longest[dependencies[0]]
    else
      var rest := MaxOver(longest, dependencies[..|dependencies| - 1]);
      var last := longest[dependencies[|dependencies| - 1]];
      if rest < last then last else rest
  }

  /** The finished table: each entry is its own timeout on top of its slowest dependency. */
  ghost predicate LongestPathTable(byId: map<Id, PlanAction>, longest: map<Id, int>) {
    && longest.Keys <= byId.Keys
    && forall id :: id in longest ==>
         && (forall i :: 0 <= i < |byId[id].dependencies| ==> byId[id].dependencies[i] in longest)
         && longest[id] == MaxOver(longest, byId[id].dependencies) + byId[id].timeout
  }

  /** No rooted chain ending at an entry costs more than the entry says. */
  lemma {:induction false} TableBoundsChains(byId: map<Id, PlanAction>, longest: map<Id, int>, chain: seq<Id>)
    requires LongestPathTable(byId, longest) && RootedChain(byId, chain) && chain[|chain| - 1] in longest
    ensures Cost(byId, chain) <= longest[chain[|chain| - 1]]
    decreases |chain|
  {
    var last := chain[|chain| - 1];
    var prefix := chain[..|chain| - 1];
    if |chain| == 1 {
      assert Cost(byId, prefix) == 0;
    } else {
      var d := chain[|chain| - 2];
      TableBoundsChains(byId, longest, prefix);
    }
  }

  /** Some rooted chain costs exactly what the entry says. */
  lemma {:induction false} TableAttained(byId: map<Id, PlanAction>, longest: map<Id, int>, order: seq<Id>, k: nat)
    returns (chain: seq<Id>)
    requires LongestPathTable(byId, longest) && k < |order|
    requires forall i :: 0 <= i <= k ==> order[i] in longest && SetOf(byId[order[i]].dependencies) <= SetOf(order[..i])
    ensures RootedChain(byId, chain) && chain[|chain| - 1] == order[k]
    ensures Cost(byId, chain) == longest[order[k]]
    decreases k
  {
    var id := order[k];
    if byId[id].dependencies == [] {
      chain := [id];
      assert Cost(byId, chain[..0]) == 0;
    } else {
      var i :| 0 <= i < |byId[id].dependencies| && MaxOver(longest, byId[id].dependencies) == longest[byId[id].dependencies[i]];
      var d := byId[id].dependencies[i];
      assert d in SetOf(order[..k]);
      var j :| 0 <= j < k && order[j] == d;
      var prefix := TableAttained(byId, longest, order, j);
      chain := prefix + [id];
      assert chain[..|chain| - 1] == prefix;
      forall i | 0 < i < |chain| ensures chain[i - 1] in byId[chain[i]].dependencies {
        if i < |prefix| { assert chain[i] == prefix[i] && chain[i - 1] == prefix[i - 1]; }
      }
    }
  }

  /** With timeouts that are not negative the bound covers every chain, rooted or not. */
  lemma {:induction false} TableBoundsAllChains(byId: map<Id, PlanAction>, longest: map<Id, int>, chain: seq<Id>)
    requires LongestPathTable(byId, longest) && Chain(byId, chain) && chain[|chain| - 1] in longest
    requires forall id :: id in longest ==> longest[id] >= byId[id].timeout
    ensures Cost(byId, chain) <= longest[chain[|chain| - 1]]
    decreases |chain|
  {
    var last := chain[|chain| - 1];
    var prefix := chain[..|chain| - 1];
    assert longest[last] >= byId[last].timeout;
    if |chain| == 1 {
      assert Cost(byId, prefix) == 0;
    } else {
      var d := chain[|chain| - 2];
      assert d in byId[last].dependencies;
      var i :| 0 <= i < |byId[last].dependencies| && byId[last].dependencies[i] == d;
      assert d in longest;
      TableBoundsAllChains(byId, longest, prefix);
    }
  }

  lemma MaxOverNonNegative(longest: map<Id, int>, dependencies: seq<Id>)
    requires forall i :: 0 <= i < |dependencies| ==> dependencies[i] in longest && longest[dependencies[i]] >= 0
    ensures MaxOver(longest, dependencies) >= 0
  {
  }

  lemma EarlierAction(byId: map<Id, PlanAction>, order: seq<PlanAction>, k: nat, d: nat) returns (i: nat)
    requires k < |order| && FollowsDependencies(byId, order, k) && d < |order[k].dependencies|
    ensures i < k && order[i].id == order[k].dependencies[d]
  {
    var before := ActionIds(order)[..k];
    assert order[k].dependencies[d] in SetOf(order[k].dependencies);
    i :| 0 <= i < k && before[i] == order[k].dependencies[d];
  }

  lemma {:induction false} TableNonNegative(byId: map<Id, PlanAction>, longest: map<Id, int>, order: seq<PlanAction>, k: nat)
    requires LongestPathTable(byId, longest) && longest.Keys == byId.Keys
    requires forall i :: 0 <= i < |order| ==> FollowsDependencies(byId, order, i)
    requires forall id :: id in byId ==> byId[id].timeout >= 0
    requires k < |order|
    ensures order[k].id in longest && longest[order[k].id] >= order[k].timeout
    decreases k
  {
    var action := order[k];
    assert FollowsDependencies(byId, order, k);
    forall d | 0 <= d < |action.dependencies|
      ensures action.dependencies[d] in longest && longest[action.dependencies[d]] >= 0
    {
      var i := EarlierAction(byId, order, k, d);
      assert FollowsDependencies(byId, order, i);
      TableNonNegative(byId, longest, order, i);
    }
    MaxOverNonNegative(longest, action.dependencies);
  }

  // ---- the budget check -----------------------------------------------------------------------

  predicate CountsWithin(plan: Plan, s: ValidationSettings) {
    && 0 < |plan.actions| <= s.maxActions
    && 0 < |plan.criteria| <= s.maxCriteria
    && Total(ArgumentCount, plan.actions) <= s.maxArguments
    && Total(DependencyCount, plan.actions) <= s.maxEdges
    && Total(TimeoutOf, plan.actions) <= s.maxTotalTimeout
  }

  ghost predicate CriticalPathWithin(plan: Plan, s: ValidationSettings) {
    forall chain :: RootedChain(ById(plan.actions), chain) ==> Cost(ById(plan.actions), chain) <= s.maxCriticalPath
  }

  /** The actions of byId in an order that puts dependencies first. */
  ghost predicate DependenciesFirst(byId: map<Id, PlanAction>, order: seq<PlanAction>) {
    && SetOf(ActionIds(order)) == byId.Keys
    && forall k :: 0 <= k < |order| ==> FollowsDependencies(byId, order, k)
  }

  ghost predicate FollowsDependencies(byId: map<Id, PlanAction>, order: seq<PlanAction>, k: nat)
    requires k < |order|
  {
    var before := ActionIds(order)[..k];
    && order[k].id in byId && byId[order[k].id] == order[k]
    && SetOf(order[k].dependencies) <= SetOf(before)
    && order[k].id !in SetOf(before)
  }

  /** Fill the table in topological order. */
  method FillLongestPaths(ghost byId: map<Id, PlanAction>, order: seq<PlanAction>) returns (longest: map<Id, int>)
    requires DependenciesFirst(byId, order)
    ensures longest.Keys == byId.Keys && LongestPathTable(byId, longest)
  {
    ghost var ids := ActionIds(order);
    longest := map[];
    for k := 0 to |order|
      invariant longest.Keys == SetOf(ids[..k])
      invariant LongestPathTable(byId, longest)
    {
      var action := order[k];
      assert FollowsDependencies(byId, order, k);
      ExtendTable(byId, longest, action);
      longest := longest[action.id := MaxOver(longest, action.dependencies) + action.timeout];
      PrefixNext(ids, k);
    }
    TakeAll(ids);
  }

  lemma OrderFacts(actions: seq<PlanAction>, order: seq<PlanAction>)
    requires Distinct(ActionIds(actions)) && IsTopologicalOrder(actions, order)
    ensures DependenciesFirst(ById(actions), order)
  {
    var ids := ActionIds(order);
    forall k | 0 <= k < |order| ensures FollowsDependencies(ById(actions), order, k) {
      assert order[k] in multiset(order);
      UniqueById(actions, order[k]);
      assert GraphOf(actions)[ids[k]] <= SetOf(ids[..k]);
    }
  }

  lemma MaxOverAgrees(a: map<Id, int>, b: map<Id, int>, dependencies: seq<Id>)
    requires forall i :: 0 <= i < |dependencies| ==> dependencies[i] in a && dependencies[i] in b && a[dependencies[i]] == b[dependencies[i]]
    ensures MaxOver(a, dependencies) == MaxOver(b, dependencies)
  {
  }

  lemma ExtendTable(byId: map<Id, PlanAction>, before: map<Id, int>, action: PlanAction)
    requires LongestPathTable(byId, before) && action.id in byId && byId[action.id] == action && action.id !in before
    requires SetOf(action.dependencies) <= before.Keys
    ensures forall i :: 0 <= i < |action.dependencies| ==> action.dependencies[i] in before
    ensures LongestPathTable(byId, before[action.id := MaxOver(before, action.dependencies) + action.timeout])
  {
    MembersIn(action.dependencies, before.Keys);
    var after := before[action.id := MaxOver(before, action.dependencies) + action.timeout];
    MaxOverAgrees(before, after, action.dependencies);
    forall id | id in before
      ensures forall i :: 0 <= i < |byId[id].dependencies| ==> byId[id].dependencies[i] in after
      ensures after[id] == MaxOver(after, byId[id].dependencies) + byId[id].timeout
    {
      MaxOverAgrees(before, after, byId[id].dependencies);
    }
  }

  lemma MembersIn(ids: seq<Id>, all: set<Id>)
    requires SetOf(ids) <= all
    ensures forall i :: 0 <= i < |ids| ==> ids[i] in all
  {
    forall i | 0 <= i < |ids| ensures ids[i] in all { assert ids[i] in SetOf(ids); }
  }

  /** max(longest.values()) */
  function MaxValue(longest: map<Id, int>, order: seq<PlanAction>): (m: int)
    requires order != [] && forall a :: a in order ==> a.id in longest
    ensures exists k :: 0 <= k < |order| && longest[order[k].id] == m
    ensures forall k :: 0 <= k < |order| ==> longest[order[k].id] <= m
  {
    assert order[|order| - 1] in order;
    var last := longest[order[|order| - 1].id];
    if |order| == 1 then last
    else
      var rest := MaxValue(longest, order[..|order| - 1]);
      if rest < last then last else rest
  }

  /** The budgets hold exactly when every count is within its limit and no chain of dependent
      actions takes longer than the critical-path limit. */
  method ValidateBudgets(plan: Plan, order: seq<PlanAction>, s: ValidationSettings) returns (r: Result<()>)
    requires Distinct(ActionIds(plan.actions)) && IsTopologicalOrder(plan.actions, order)
    ensures r.Ok? <==> CountsWithin(plan, s) && CriticalPathWithin(plan, s)
    ensures r.Err? ==> r.error == PlanBudgetExceeded
  {
    if !CountsWithin(plan, s) {
      return Err(PlanBudgetExceeded);
    }
    OrderFacts(plan.actions, order);
    var longest := FillLongestPaths(ById(plan.actions), order);
    OrderCovers(plan.actions, order);
    var slowest := MaxValue(longest, order);
    TableDecides(plan, order, longest, slowest, s);
    if slowest > s.maxCriticalPath {
      return Err(PlanBudgetExceeded);
    }
    return Ok(());
  }

  lemma OrderCovers(actions: seq<PlanAction>, order: seq<PlanAction>)
    requires multiset(order) == multiset(actions) && actions != []
    ensures order != [] && forall a :: a in order ==> a.id in ById(actions)
  {
    assert actions[0] in multiset(order);
    forall a | a in order ensures a in actions {
      assert a in multiset(order);
    }
  }

  lemma TableDecides(plan: Plan, order: seq<PlanAction>, longest: map<Id, int>, slowest: int, s: ValidationSettings)
    requires DependenciesFirst(ById(plan.actions), order)
    requires order != [] && longest.Keys == ById(plan.actions).Keys && LongestPathTable(ById(plan.actions), longest)
    requires forall a :: a in order ==> a.id in longest
    requires slowest == MaxValue(longest, order)
    ensures slowest <= s.maxCriticalPath <==> CriticalPathWithin(plan, s)
  {
    var byId := ById(plan.actions);
    forall chain | RootedChain(byId, chain) ensures Cost(byId, chain) <= slowest {
      ChainBelowMaximum(byId, order, longest, chain);
    }
    var chain := SlowestChain(byId, order, longest);
  }

  lemma ChainBelowMaximum(byId: map<Id, PlanAction>, order: seq<PlanAction>, longest: map<Id, int>, chain: seq<Id>)
    requires DependenciesFirst(byId, order) && longest.Keys == byId.Keys && LongestPathTable(byId, longest)
    requires order != [] && forall a :: a in order ==> a.id in longest
    requires RootedChain(byId, chain)
    ensures Cost(byId, chain) <= MaxValue(longest, order)
  {
    var last := chain[|chain| - 1];
    TableBoundsChains(byId, longest, chain);
    assert last in SetOf(ActionIds(order));
    var k :| 0 <= k < |order| && order[k].id == last;
    assert longest[order[k].id] <= MaxValue(longest, order);
  }

  lemma SlowestChain(byId: map<Id, PlanAction>, order: seq<PlanAction>, longest: map<Id, int>) returns (chain: seq<Id>)
    requires DependenciesFirst(byId, order) && longest.Keys == byId.Keys && LongestPathTable(byId, longest)
    requires order != [] && forall a :: a in order ==> a.id in longest
    ensures RootedChain(byId, chain) && Cost(byId, chain) == MaxValue(longest, order)
  {
    var ids := ActionIds(order);
    var k :| 0 <= k < |order| && longest[order[k].id] == MaxValue(longest, order);
    forall i | 0 <= i <= k ensures ids[i] in longest && SetOf(byId[ids[i]].dependencies) <= SetOf(ids[..i]) {
      assert FollowsDependencies(byId, order, i);
    }
    chain := TableAttained(byId, longest, ids, k);
  }

  /** Every chain is dominated by a rooted one, once timeouts are not negative. */
  lemma DominatedByRooted(byId: map<Id, PlanAction>, order: seq<PlanAction>, longest: map<Id, int>, chain: seq<Id>)
    returns (rooted: seq<Id>)
    requires DependenciesFirst(byId, order) && longest.Keys == byId.Keys && LongestPathTable(byId, longest)
    requires forall id :: id in byId ==> byId[id].timeout >= 0
    requires Chain(byId, chain)
    ensures RootedChain(byId, rooted) && Cost(byId, chain) <= Cost(byId, rooted)
  {
    var ids, last := ActionIds(order), chain[|chain| - 1];
    assert last in SetOf(ids);
    var k :| 0 <= k < |ids| && ids[k] == last;
    forall i | 0 <= i <= k ensures ids[i] in longest && SetOf(byId[ids[i]].dependencies) <= SetOf(ids[..i]) {
      assert FollowsDependencies(byId, order, i);
    }
    rooted := TableAttained(byId, longest, ids, k);
    EntriesCoverTimeouts(byId, order, longest);
    TableBoundsAllChains(byId, longest, chain);
  }

  lemma EntriesCoverTimeouts(byId: map<Id, PlanAction>, order: seq<PlanAction>, longest: map<Id, int>)
    requires DependenciesFirst(byId, order) && longest.Keys == byId.Keys && LongestPathTable(byId, longest)
    requires forall id :: id in byId ==> byId[id].timeout >= 0
    ensures forall id :: id in longest ==> longest[id] >= byId[id].timeout
  {
    forall id | id in longest ensures longest[id] >= byId[id].timeout {
      assert id in SetOf(ActionIds(order));
      var i :| 0 <= i < |order| && order[i].id == id;
      assert FollowsDependencies(byId, order, i);
      TableNonNegative(byId, longest, order, i);
    }
  }

  /** Once timeouts are not negative, limiting rooted chains is the same as limiting every chain. */
  lemma EveryChainWithin(plan: Plan, order: seq<PlanAction>, longest: map<Id, int>, s: ValidationSettings)
    requires DependenciesFirst(ById(plan.actions), order)
    requires longest.Keys == ById(plan.actions).Keys && LongestPathTable(ById(plan.actions), longest)
    requires forall id :: id in ById(plan.actions) ==> ById(plan.actions)[id].timeout >= 0
    ensures CriticalPathWithin(plan, s) <==>
            forall chain :: Chain(ById(plan.actions), chain) ==> Cost(ById(plan.actions), chain) <= s.maxCriticalPath
  {
    var byId := ById(plan.actions);
    forall chain | CriticalPathWithin(plan, s) && Chain(byId, chain) ensures Cost(byId, chain) <= s.maxCriticalPath {
      var rooted := DominatedByRooted(byId, order, longest, chain);
    }
  }

  // ---- the number of edges ----------------------------------------------------------------------

  /** An acyclic plan of n actions lists at most n(n-1)/2 dependencies. */
  lemma EdgeBound(actions: seq<PlanAction>, order: seq<PlanAction>)
    requires Distinct(ActionIds(actions)) && DependenciesKnown(actions) && IsTopologicalOrder(actions, order)
    ensures 2 * Total(DependencyCount, actions) <= |actions| * (|actions| - 1)
  {
    OrderFacts(actions, order);
    TopologicalOrder.SameMembers(actions, order);
    forall k | 0 <= k < |order| ensures SetOf(order[k].dependencies) <= SetOf(ActionIds(order)[..k]) {
      assert FollowsDependencies(ById(actions), order, k);
    }
    AllEdges(order);
    TotalPermutation(DependencyCount, order, actions);
  }

  lemma AllEdges(order: seq<PlanAction>)
    requires forall a :: a in order ==> Distinct(a.dependencies)
    requires forall k :: 0 <= k < |order| ==> SetOf(order[k].dependencies) <= SetOf(ActionIds(order)[..k])
    ensures 2 * Total(DependencyCount, order) <= |order| * (|order| - 1)
  {
    EdgesOfPrefix(order, |order|);
    TakeAll(order);
  }

  lemma {:induction false} EdgesOfPrefix(order: seq<PlanAction>, n: nat)
    requires n <= |order|
    requires forall a :: a in order ==> Distinct(a.dependencies)
    requires forall k :: 0 <= k < |order| ==> SetOf(order[k].dependencies) <= SetOf(ActionIds(order)[..k])
    ensures 2 * Total(DependencyCount, order[..n]) <= n * (n - 1)
  {
    if n > 0 {
      EdgesOfPrefix(order, n - 1);
      assert order[..n][..n - 1] == order[..n - 1];
      FewDependencies(order, n - 1);
      NextTriangle(n, Total(DependencyCount, order[..n - 1]), DependencyCount(order[n - 1]));
    }
  }

  lemma FewDependencies(order: seq<PlanAction>, k: nat)
    requires k < |order| && Distinct(order[k].dependencies)
    requires SetOf(order[k].dependencies) <= SetOf(ActionIds(order)[..k])
    ensures |order[k].dependencies| <= k
  {
    DistinctCardinality(order[k].dependencies);
    DistinctCardinality(ActionIds(order)[..k]);
    SubsetCardinality(SetOf(order[k].dependencies), SetOf(ActionIds(order)[..k]));
  }

  lemma NextTriangle(n: nat, before: int, added: int)
    requires n > 0 && 2 * before <= (n - 1) * (n - 2) && added <= n - 1
    ensures 2 * (before + added) <= n * (n - 1)
  {
  }

  // ---- plans listed with dependencies first -------------------------------------------------

  /** Distinct ids, and every action after the actions it lists as dependencies, each listed once. */
  predicate ListedInOrder(actions: seq<PlanAction>) {
    && Distinct(ActionIds(actions))
    && forall k :: 0 <= k < |actions| ==>
         && Distinct(actions[k].dependencies)
         && SetOf(actions[k].dependencies) <= SetOf(ActionIds(actions)[..k])
  }

  lemma ListedGraph(actions: seq<PlanAction>, k: nat)
    requires ListedInOrder(actions) && k < |actions|
    ensures var g, ids := GraphOf(actions), ActionIds(actions);
            ids[k] in g && g[ids[k]] == SetOf(actions[k].dependencies) <= SetOf(ids[..k]) <= g.Keys && ids[k] !in SetOf(ids[..k])
  {
    IdsCardinality(actions);
    UniqueById(actions, actions[k]);
  }

  lemma ListedIsExtension(actions: seq<PlanAction>)
    requires ListedInOrder(actions)
    ensures LinearExtension(GraphOf(actions), ActionIds(actions)) && Acyclic(GraphOf(actions))
  {
    var g, ids := GraphOf(actions), ActionIds(actions);
    IdsCardinality(actions);
    forall k | 0 <= k < |ids| ensures ids[k] in g && g[ids[k]] <= SetOf(ids[..k]) {
      ListedGraph(actions, k);
    }
    ExtensionAcyclic(g, ids);
  }

  lemma ListedKnown(actions: seq<PlanAction>)
    requires ListedInOrder(actions)
    ensures DependenciesKnown(actions)
  {
    var g, ids := GraphOf(actions), ActionIds(actions);
    IdsCardinality(actions);
    forall id | id in g ensures g[id] <= g.Keys && id !in g[id] {
      assert id in SetOf(ids);
      var k :| 0 <= k < |ids| && ids[k] == id;
      ListedGraph(actions, k);
    }
  }

  lemma ListedEdgeBound(actions: seq<PlanAction>)
    requires ListedInOrder(actions)
    ensures 2 * Total(DependencyCount, actions) <= |actions| * (|actions| - 1)
  {
    AllEdges(actions);
  }
}
