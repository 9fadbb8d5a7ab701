/** The sorted-worklist topological sort of the plan validator. */
module TopologicalOrder {
  import opened Collections
  import opened PlanModel

  /** Each identifier with the set of identifiers it depends on. */
  type Graph = map<Id, set<Id>>

  function GraphOf(actions: seq<PlanAction>): Graph {
    var m := ById(actions);
    map id | id in m :: SetOf(m[id].dependencies)
  }

  predicate Closed(g: Graph) {
    forall k :: k in g ==> g[k] <= g.Keys
  }

  /** No listed dependency is repeated, unknown or the action itself. */
  predicate DependenciesKnown(actions: seq<PlanAction>) {
    && (forall a :: a in actions ==> Distinct(a.dependencies))
    && Closed(GraphOf(actions))
    && (forall k :: k in GraphOf(actions) ==> k !in GraphOf(actions)[k])
  }

  // ---- independent reference definitions ------------------------------------------------

  /** A closed walk along dependency edges. */
  ghost predicate Cycle(g: Graph, walk: seq<Id>) {
    && |walk| >= 2
    && walk[0] == walk[|walk| - 1]
    && forall i :: 0 <= i < |walk| - 1 ==> walk[i] in g && walk[i + 1] in g[walk[i]]
  }

  ghost predicate Acyclic(g: Graph) {
    forall walk :: !Cycle(g, walk)
  }

  /** Every identifier once, each after all it depends on. */
  ghost predicate LinearExtension(g: Graph, order: seq<Id>) {
    && Distinct(order)
    && SetOf(order) == g.Keys
    && forall k :: 0 <= k < |order| ==> order[k] in g && g[order[k]] <= SetOf(order[..k])
  }

  /** The linear extension that comes first in dictionary order of identifiers. */
  ghost predicate LeastExtension(g: Graph, order: seq<Id>) {
    && LinearExtension(g, order)
    && forall other :: LinearExtension(g, other) ==> LexLeq(order, other)
  }

  /** What a successful sort returns for these actions. */
  ghost predicate IsTopologicalOrder(actions: seq<PlanAction>, ordered: seq<PlanAction>) {
    && multiset(ordered) == multiset(actions)
    && LeastExtension(GraphOf(actions), ActionIds(ordered))
  }

  // ---- greedy choice is least -------------------------------------------------------------

  ghost predicate Available(g: Graph, done: set<Id>, k: Id) {
    k in g && k !in done && g[k] <= done
  }

  /** Every element is the smallest identifier available at its position. */
  ghost predicate Greedy(g: Graph, order: seq<Id>) {
    forall k :: 0 <= k < |order| ==>
      && Available(g, SetOf(order[..k]), order[k])
      && forall x :: Available(g, SetOf(order[..k]), x) ==> order[k] <= x
  }

  lemma GreedyExtension(g: Graph, order: seq<Id>)
    requires Greedy(g, order) && |order| == |g|
    ensures LinearExtension(g, order)
  {
    forall i, j | 0 <= i < j < |order| ensures order[i] != order[j] {
      assert Available(g, SetOf(order[..j]), order[j]);
      assert order[i] in order[..j];
    }
    DistinctCardinality(order);
    assert SetOf(order) <= g.Keys;
    SubsetCardinality(SetOf(order), g.Keys);
  }

  /** At the first difference the other order holds a larger identifier. */
  lemma GreedyIsLeast(g: Graph, order: seq<Id>, other: seq<Id>)
    requires Greedy(g, order) && LinearExtension(g, order) && LinearExtension(g, other)
    ensures LexLeq(order, other)
  {
    DistinctCardinality(order);
    DistinctCardinality(other);
    if order == other {
      LexReflexive(order);
    } else {
      var k := FirstDifference(order, other);
      assert Available(g, SetOf(other[..k]), other[k]) by {
        assert other[k] !in other[..k];
      }
      LexFirstDifference(order, other, k);
    }
  }

  lemma {:induction false} FirstDifference(a: seq<Id>, b: seq<Id>) returns (k: nat)
    requires |a| == |b| && a != b
    ensures k < |a| && a[..k] == b[..k] && a[k] != b[k]
  {
    if a[0] != b[0] {
      k := 0;
    } else {
      assert a == [a[0]] + a[1..] && b == [b[0]] + b[1..];
      var j := FirstDifference(a[1..], b[1..]);
      k := j + 1;
      assert a[..k] == [a[0]] + a[1..][..j] && b[..k] == [b[0]] + b[1..][..j];
    }
  }

  // ---- acyclicity -------------------------------------------------------------------------

  function Position(order: seq<Id>, x: Id): (k: nat)
    requires x in order
    ensures k < |order| && order[k] == x
  {
    if order[0] == x then 0 else 1 + Position(order[1..], x)
  }

  /** Along a walk positions strictly fall, so no walk returns to its start. */
  lemma ExtensionAcyclic(g: Graph, order: seq<Id>)
    requires LinearExtension(g, order)
    ensures Acyclic(g)
  {
    forall walk ensures !Cycle(g, walk) {
      if Cycle(g, walk) {
        WalkDescends(g, order, walk, |walk| - 1);
      }
    }
  }

  lemma {:induction false} WalkDescends(g: Graph, order: seq<Id>, walk: seq<Id>, n: nat)
    requires LinearExtension(g, order)
    requires 1 <= n < |walk|
    requires forall i :: 0 <= i < |walk| - 1 ==> walk[i] in g && walk[i + 1] in g[walk[i]]
    ensures walk[0] in order && walk[n] in order
    ensures Position(order, walk[n]) < Position(order, walk[0])
  {
    assert walk[n - 1] in g && walk[(n - 1) + 1] in g[walk[n - 1]];
    assert walk[n - 1] in SetOf(order);
    var p := Position(order, walk[n - 1]);
    assert walk[n] in SetOf(order[..p]);
    var q :| 0 <= q < p && order[..p][q] == walk[n];
    assert order[q] == walk[n] == order[Position(order, walk[n])];
    assert Position(order, walk[n]) == q;
    if n > 1 {
      WalkDescends(g, order, walk, n - 1);
    }
  }

  /** If every remaining identifier still waits for a remaining one, a cycle exists. */
  lemma StuckMeansCycle(g: Graph, rest: set<Id>)
    requires |rest| > 0 && rest <= g.Keys
    requires forall k :: k in rest ==> g[k] * rest != {}
    ensures !Acyclic(g)
  {
    var start := AnElement(rest);
    var walk := WalkWithin(g, rest, start, |rest|);
    var i, j := Pigeonhole(walk, rest);
    var loop := walk[i..j + 1];
    assert forall k :: 0 <= k < |loop| ==> loop[k] == walk[i + k];
    forall k | 0 <= k < |loop| - 1 ensures loop[k] in g && loop[k + 1] in g[loop[k]] {
      assert loop[k] == walk[i + k] && loop[k + 1] == walk[(i + k) + 1];
    }
    assert Cycle(g, loop);
  }

  lemma {:induction false} WalkWithin(g: Graph, rest: set<Id>, start: Id, n: nat) returns (walk: seq<Id>)
    requires start in rest && rest <= g.Keys
    requires forall k :: k in rest ==> g[k] * rest != {}
    ensures |walk| == n + 1 && SetOf(walk) <= rest && walk[0] == start
    ensures forall i :: 0 <= i < n ==> walk[i] in g && walk[i + 1] in g[walk[i]]
    decreases n
  {
    if n == 0 {
      walk := [start];
    } else {
      var next := AnElement(g[start] * rest);
      var tail := WalkWithin(g, rest, next, n - 1);
      walk := [start] + tail;
      assert SetOf(walk) == {start} + SetOf(tail);
      forall i | 0 <= i < n ensures walk[i] in g && walk[i + 1] in g[walk[i]] {
        if i > 0 {
          assert walk[i] == tail[i - 1] && walk[i + 1] == tail[(i - 1) + 1];
        }
      }
    }
  }

  // ---- the worklist algorithm ---------------------------------------------------------------

  /** What the outer loop keeps: the greedy prefix, the unmet dependencies and the ready list. */
  ghost predicate WorklistInvariant(g: Graph, byId: map<Id, PlanAction>, incoming: Graph,
                                    ready: seq<Id>, ordered: seq<PlanAction>) {
    && byId.Keys == g.Keys == incoming.Keys
    && (forall a :: a in ordered ==> a.id in byId && byId[a.id] == a)
    && (forall id :: id in byId ==> byId[id].id == id)
    && Greedy(g, ActionIds(ordered))
    && (forall c :: c in g ==> incoming[c] == g[c] - SetOf(ActionIds(ordered)))
    && StrictlySorted(ready)
    && (forall x :: x in ready <==> Available(g, SetOf(ActionIds(ordered)), x))
  }

  /** Half-way through the inner loop: candidates in seen no longer wait for actionId. */
  ghost predicate StrikeInvariant(g: Graph, before: set<Id>, actionId: Id, seen: set<Id>,
                                  incoming: Graph, ready: seq<Id>) {
    && incoming.Keys == g.Keys
    && (forall c :: c in g ==> incoming[c] == g[c] - (if c in seen then before + {actionId} else before))
    && StrictlySorted(ready)
    && (forall x :: x in ready <==>
          || (Available(g, before, x) && x != actionId)
          || (x in seen && Available(g, before + {actionId}, x)))
  }

  /** A candidate that waited for actionId: it becomes ready when nothing else is missing. */
  lemma StrikeHit(g: Graph, before: set<Id>, actionId: Id, seen: set<Id>, incoming: Graph, ready: seq<Id>, candidate: Id)
    requires StrikeInvariant(g, before, actionId, seen, incoming, ready)
    requires candidate in g && candidate !in seen && actionId in incoming[candidate]
    requires Available(g, before, actionId)
    ensures !Available(g, before, candidate) && candidate !in ready
    ensures var struck := incoming[candidate := incoming[candidate] - {actionId}];
            StrikeInvariant(g, before, actionId, seen + {candidate}, struck,
                            if struck[candidate] == {} && candidate !in before + {actionId}
                            then Insert(candidate, ready) else ready)
  {
    assert actionId in g[candidate] && actionId !in before;
    var done := before + {actionId};
    assert g[candidate] - done == incoming[candidate] - {actionId};
    assert Available(g, done, candidate) <==> incoming[candidate] - {actionId} == {} && candidate !in done;
    forall x ensures x in Insert(candidate, ready) <==> x in ready || x == candidate {
      assert x in Insert(candidate, ready) <==> x in SetOf(Insert(candidate, ready));
      assert x in ready <==> x in SetOf(ready);
    }
  }

  lemma StrikeMiss(g: Graph, before: set<Id>, actionId: Id, seen: set<Id>, incoming: Graph, ready: seq<Id>, candidate: Id)
    requires StrikeInvariant(g, before, actionId, seen, incoming, ready)
    requires candidate in g && candidate !in seen && actionId !in incoming[candidate]
    requires Available(g, before, actionId)
    ensures StrikeInvariant(g, before, actionId, seen + {candidate}, incoming, ready)
  {
    var done := before + {actionId};
    assert g[candidate] - done == g[candidate] - before;
    assert Available(g, done, candidate) ==> Available(g, before, candidate) && candidate != actionId;
  }

  lemma StrikeDone(g: Graph, before: set<Id>, actionId: Id, incoming: Graph, ready: seq<Id>)
    requires StrikeInvariant(g, before, actionId, g.Keys, incoming, ready)
    ensures forall x :: x in ready <==> Available(g, before + {actionId}, x)
  {
  }

  /** One turn of the inner loop: strike actionId out of one dependency set, queue it if that was the last. */
  method Strike(ghost g: Graph, ghost before: set<Id>, byId: map<Id, PlanAction>, incoming: Graph, ready: seq<Id>,
                ordered: seq<PlanAction>, actionId: Id, candidate: Id, ghost seen: set<Id>)
    returns (incoming': Graph, ready': seq<Id>)
    requires StrikeInvariant(g, before, actionId, seen, incoming, ready)
    requires candidate in g && candidate !in seen && candidate in byId
    requires Available(g, before, actionId)
    requires byId[candidate] in ordered <==> candidate in before + {actionId}
    ensures StrikeInvariant(g, before, actionId, seen + {candidate}, incoming', ready')
  {
    incoming', ready' := incoming, ready;
    if actionId in incoming'[candidate] {
      StrikeHit(g, before, actionId, seen, incoming', ready', candidate);
      incoming' := incoming'[candidate := incoming'[candidate] - {actionId}];
      if incoming'[candidate] == {} && byId[candidate] !in ordered && candidate !in ready' {
        ready' := Insert(candidate, ready');
      }
    } else {
      StrikeMiss(g, before, actionId, seen, incoming', ready', candidate);
    }
  }

  /** The inner for loop: strike actionId out of every dependency set and queue what became ready. */
  method Release(ghost g: Graph, ghost before: set<Id>, byId: map<Id, PlanAction>, incoming: Graph, ready: seq<Id>,
                 ordered: seq<PlanAction>, actionId: Id)
    returns (incoming': Graph, ready': seq<Id>)
    requires StrikeInvariant(g, before, actionId, {}, incoming, ready)
    requires Available(g, before, actionId) && byId.Keys == g.Keys
    requires forall c :: c in byId ==> (byId[c] in ordered <==> c in before + {actionId})
    ensures StrikeInvariant(g, before, actionId, g.Keys, incoming', ready')
  {
    incoming', ready' := incoming, ready;
    var candidates := SortedSeq(incoming.Keys);
    for j := 0 to |candidates|
      invariant StrikeInvariant(g, before, actionId, SetOf(candidates[..j]), incoming', ready')
    {
      NextCandidate(candidates, j);
      incoming', ready' :=
        Strike(g, before, byId, incoming', ready', ordered, actionId, candidates[j], SetOf(candidates[..j]));
    }
    TakeAll(candidates);
  }

  lemma NextCandidate(candidates: seq<Id>, j: nat)
    requires StrictlySorted(candidates) && j < |candidates|
    ensures candidates[j] in SetOf(candidates) && candidates[j] !in SetOf(candidates[..j])
    ensures SetOf(candidates[..j + 1]) == SetOf(candidates[..j]) + {candidates[j]}
  {
    assert candidates[..j + 1] == candidates[..j] + [candidates[j]];
  }

  lemma ReadyRest(x: Id, ready: seq<Id>)
    requires StrictlySorted([x] + ready)
    ensures StrictlySorted(ready)
    ensures forall y :: y in ready <==> y in [x] + ready && y != x
  {
    var all := [x] + ready;
    assert forall i :: 0 <= i < |ready| ==> ready[i] == all[i + 1];
    assert forall i :: 0 < i < |all| ==> all[0] < all[i];
  }

  lemma OrderedIds(ordered: seq<PlanAction>)
    requires ordered != []
    ensures ActionIds(ordered) == ActionIds(ordered[..|ordered| - 1]) + [ordered[|ordered| - 1].id]
    ensures SetOf(ActionIds(ordered)) == SetOf(ActionIds(ordered[..|ordered| - 1])) + {ordered[|ordered| - 1].id}
  {
    var ids, prefix, last := ActionIds(ordered), ActionIds(ordered[..|ordered| - 1]), ordered[|ordered| - 1].id;
    assert ids == prefix + [last];
    assert forall x :: x in prefix + [last] <==> x in prefix || x == last;
  }

  lemma OrderedMembership(byId: map<Id, PlanAction>, ordered: seq<PlanAction>)
    requires forall a :: a in ordered ==> a.id in byId && byId[a.id] == a
    requires forall id :: id in byId ==> byId[id].id == id
    ensures forall c :: c in byId ==> (byId[c] in ordered <==> c in SetOf(ActionIds(ordered)))
  {
    forall c | c in byId ensures byId[c] in ordered <==> c in SetOf(ActionIds(ordered)) {
      if byId[c] in ordered {
        var k :| 0 <= k < |ordered| && ordered[k] == byId[c];
        assert ActionIds(ordered)[k] == c;
      }
      if c in ActionIds(ordered) {
        var k :| 0 <= k < |ordered| && ActionIds(ordered)[k] == c;
        assert ordered[k] in ordered;
      }
    }
  }

  lemma Initially(actions: seq<PlanAction>, ready: seq<Id>)
    requires StrictlySorted(ready)
    requires SetOf(ready) == set id | id in GraphOf(actions) && GraphOf(actions)[id] == {}
    ensures WorklistInvariant(GraphOf(actions), ById(actions), GraphOf(actions), ready, [])
  {
    assert ActionIds([]) == [];
    forall x ensures x in ready <==> Available(GraphOf(actions), {}, x) {
      assert x in ready <==> x in SetOf(ready);
    }
  }

  /** The outer while loop: take the smallest ready action until none is ready. */
  method DrainWorklist(actions: seq<PlanAction>) returns (ghost incoming': Graph, ordered: seq<PlanAction>)
    requires DependenciesKnown(actions)
    ensures WorklistInvariant(GraphOf(actions), ById(actions), incoming', [], ordered)
    ensures Greedy(GraphOf(actions), ActionIds(ordered))
    ensures forall x :: !Available(GraphOf(actions), SetOf(ActionIds(ordered)), x)
  {
    var byId := ById(actions);
    var incoming := GraphOf(actions);
    ghost var g := incoming;
    var ready := SortedSeq(set id | id in incoming && incoming[id] == {});
    ordered := [];
    Initially(actions, ready);
    while ready != []
      invariant WorklistInvariant(g, byId, incoming, ready, ordered)
      decreases |g| - |ordered|
    {
      var actionId := ready[0];
      ghost var before := SetOf(ActionIds(ordered));
      TakeSmallest(g, byId, incoming, ready, ordered);
      ordered := ordered + [byId[actionId]];
      incoming, ready := Release(g, before, byId, incoming, ready[1..], ordered, actionId);
      StrikeDone(g, before, actionId, incoming, ready);
    }
    incoming' := incoming;
  }

  /** Sort the actions of a plan, smallest ready identifier first.  It succeeds exactly when the
      identifiers are distinct and the known dependencies contain no cycle. */
  method TopologicalSort(actions: seq<PlanAction>) returns (r: Result<seq<PlanAction>>)
    ensures r == Err(PlanDependencyInvalid) <==> !DependenciesKnown(actions)
    ensures r.Ok? <==> DependenciesKnown(actions) && Distinct(ActionIds(actions)) && Acyclic(GraphOf(actions))
    ensures r.Err? && DependenciesKnown(actions) ==> r.error == PlanDependencyCycle
    ensures r.Ok? ==> IsTopologicalOrder(actions, r.value)
  {
    if !DependenciesKnown(actions) {
      return Err(PlanDependencyInvalid);
    }
    ghost var incoming;
    var ordered;
    incoming, ordered := DrainWorklist(actions);
    if |ordered| != |actions| {
      Incomplete(GraphOf(actions), ById(actions), incoming, ordered, actions);
      return Err(PlanDependencyCycle);
    }
    Complete(GraphOf(actions), ById(actions), incoming, ordered, actions);
    return Ok(ordered);
  }

  /** Popping the head of the ready list is the greedy choice, and the prefix stays within g. */
  lemma TakeSmallest(g: Graph, byId: map<Id, PlanAction>, incoming: Graph, ready: seq<Id>, ordered: seq<PlanAction>)
    requires WorklistInvariant(g, byId, incoming, ready, ordered) && ready != []
    ensures ready[0] in byId && byId[ready[0]].id == ready[0] && |ordered| < |g|
    ensures Available(g, SetOf(ActionIds(ordered)), ready[0])
    ensures var next := ordered + [byId[ready[0]]];
            && Greedy(g, ActionIds(next))
            && SetOf(ActionIds(next)) == SetOf(ActionIds(ordered)) + {ready[0]}
            && (forall a :: a in next ==> a.id in byId && byId[a.id] == a)
            && (forall c :: c in byId ==> (byId[c] in next <==> c in SetOf(ActionIds(ordered)) + {ready[0]}))
    ensures StrikeInvariant(g, SetOf(ActionIds(ordered)), ready[0], {}, incoming, ready[1..])
  {
    var ids := ActionIds(ordered);
    HeadIsAvailable(g, SetOf(ids), ready);
    GreedyAppend(g, ids, ready[0]);
    Appended(byId, ordered, ready[0]);
    GreedyCount(g, ids + [ready[0]]);
    HeadTaken(g, SetOf(ids), incoming, ready);
  }

  lemma HeadIsAvailable(g: Graph, done: set<Id>, ready: seq<Id>)
    requires StrictlySorted(ready) && ready != [] && forall x :: x in ready <==> Available(g, done, x)
    ensures Available(g, done, ready[0]) && forall y :: Available(g, done, y) ==> ready[0] <= y
  {
    assert ready[0] in ready;
  }

  lemma Appended(byId: map<Id, PlanAction>, ordered: seq<PlanAction>, id: Id)
    requires id in byId && (forall a :: a in ordered ==> a.id in byId && byId[a.id] == a)
    requires forall k :: k in byId ==> byId[k].id == k
    ensures var next := ordered + [byId[id]];
            && ActionIds(next) == ActionIds(ordered) + [id]
            && SetOf(ActionIds(next)) == SetOf(ActionIds(ordered)) + {id}
            && (forall a :: a in next ==> a.id in byId && byId[a.id] == a)
            && (forall c :: c in byId ==> (byId[c] in next <==> c in SetOf(ActionIds(ordered)) + {id}))
  {
    var next := ordered + [byId[id]];
    assert next[..|next| - 1] == ordered;
    OrderedIds(next);
    OrderedMembership(byId, next);
  }

  lemma HeadTaken(g: Graph, before: set<Id>, incoming: Graph, ready: seq<Id>)
    requires incoming.Keys == g.Keys && (forall c :: c in g ==> incoming[c] == g[c] - before)
    requires StrictlySorted(ready) && ready != [] && forall x :: x in ready <==> Available(g, before, x)
    ensures StrikeInvariant(g, before, ready[0], {}, incoming, ready[1..])
  {
    assert ready == [ready[0]] + ready[1..];
    ReadyRest(ready[0], ready[1..]);
  }

  lemma GreedyAppend(g: Graph, ids: seq<Id>, x: Id)
    requires Greedy(g, ids) && Available(g, SetOf(ids), x)
    requires forall y :: Available(g, SetOf(ids), y) ==> x <= y
    ensures Greedy(g, ids + [x])
  {
    var ids' := ids + [x];
    forall k | 0 <= k < |ids'|
      ensures Available(g, SetOf(ids'[..k]), ids'[k])
      ensures forall y :: Available(g, SetOf(ids'[..k]), y) ==> ids'[k] <= y
    {
      if k < |ids| {
        assert ids'[..k] == ids[..k];
      } else {
        assert ids'[..k] == ids;
      }
    }
  }

  lemma GreedyCount(g: Graph, ids: seq<Id>)
    requires Greedy(g, ids)
    ensures Distinct(ids) && SetOf(ids) <= g.Keys && |ids| <= |g|
  {
    forall i, j | 0 <= i < j < |ids| ensures ids[i] != ids[j] {
      assert Available(g, SetOf(ids[..j]), ids[j]);
      assert ids[i] in ids[..j];
    }
    DistinctCardinality(ids);
    SubsetCardinality(SetOf(ids), g.Keys);
  }

  lemma IdsCardinality(actions: seq<PlanAction>)
    ensures ById(actions).Keys == SetOf(ActionIds(actions))
    ensures |ById(actions)| == |actions| <==> Distinct(ActionIds(actions))
  {
    var m, ids := ById(actions), ActionIds(actions);
    forall x ensures x in m <==> x in ids {
      if x in m {
        var k :| 0 <= k < |actions| && actions[k] == m[x];
        assert ids[k] == x;
      }
      if x in ids {
        var k :| 0 <= k < |ids| && ids[k] == x;
        assert actions[k] in actions;
      }
    }
    assert m.Keys == SetOf(ids);
    DistinctCardinality(ids);
  }

  /** The worklist ran dry early: a repeated identifier or a cycle. */
  lemma Incomplete(g: Graph, byId: map<Id, PlanAction>, incoming: Graph, ordered: seq<PlanAction>, actions: seq<PlanAction>)
    requires byId == ById(actions) && g == GraphOf(actions) && Closed(g)
    requires WorklistInvariant(g, byId, incoming, [], ordered)
    requires |ordered| != |actions|
    ensures !(Distinct(ActionIds(actions)) && Acyclic(g))
  {
    IdsCardinality(actions);
    var done := SetOf(ActionIds(ordered));
    GreedyCount(g, ActionIds(ordered));
    DistinctCardinality(ActionIds(ordered));
    assert |g| == |g.Keys| == |byId.Keys| == |byId|;
    if Distinct(ActionIds(actions)) {
      DryMeansCycle(g, done);
    }
  }

  lemma DryMeansCycle(g: Graph, done: set<Id>)
    requires Closed(g) && done <= g.Keys && |done| < |g.Keys|
    requires forall x :: !Available(g, done, x)
    ensures !Acyclic(g)
  {
    var rest := g.Keys - done;
    assert g.Keys == done + rest;
    forall k | k in rest ensures g[k] * rest != {} {
      DryDepends(g, done, k);
    }
    StuckMeansCycle(g, rest);
  }

  lemma DryDepends(g: Graph, done: set<Id>, k: Id)
    requires Closed(g) && k in g && k !in done && !Available(g, done, k)
    ensures g[k] * (g.Keys - done) != {}
  {
    if g[k] * (g.Keys - done) == {} {
      forall d | d in g[k] ensures d in done {
        assert d !in g[k] * (g.Keys - done);
      }
    }
  }

  lemma Complete(g: Graph, byId: map<Id, PlanAction>, incoming: Graph, ordered: seq<PlanAction>, actions: seq<PlanAction>)
    requires byId == ById(actions) && g == GraphOf(actions)
    requires WorklistInvariant(g, byId, incoming, [], ordered)
    requires |ordered| == |actions|
    ensures Distinct(ActionIds(actions)) && Acyclic(g)
    ensures IsTopologicalOrder(actions, ordered)
  {
    var ids := ActionIds(ordered);
    GreedyCount(g, ids);
    IdsCardinality(actions);
    DistinctCardinality(ActionIds(actions));
    assert |g| == |byId|;
    GreedyExtension(g, ids);
    ExtensionAcyclic(g, ids);
    forall other | LinearExtension(g, other) ensures LexLeq(ids, other) {
      GreedyIsLeast(g, ids, other);
    }
    SameActions(byId, ordered, actions);
  }

  lemma SameActions(byId: map<Id, PlanAction>, ordered: seq<PlanAction>, actions: seq<PlanAction>)
    requires byId == ById(actions) && Distinct(ActionIds(actions)) && Distinct(ActionIds(ordered))
    requires SetOf(ActionIds(ordered)) == byId.Keys
    requires forall a :: a in ordered ==> a.id in byId && byId[a.id] == a
    ensures multiset(ordered) == multiset(actions)
  {
    DistinctActions(actions);
    DistinctActions(ordered);
    OrderedMembership(byId, ordered);
    forall a ensures a in ordered <==> a in actions {
      if a in actions {
        UniqueById(actions, a);
      }
    }
    SameElementsSameMultiset(ordered, actions);
  }

  lemma DistinctActions(actions: seq<PlanAction>)
    requires Distinct(ActionIds(actions))
    ensures Distinct(actions)
  {
    forall i, j | 0 <= i < j < |actions| ensures actions[i] != actions[j] {
      assert ActionIds(actions)[i] != ActionIds(actions)[j];
    }
  }

  lemma SamePosition(actions: seq<PlanAction>, i: nat, j: nat)
    requires Distinct(ActionIds(actions)) && i < |actions| && j < |actions| && actions[i].id == actions[j].id
    ensures i == j
  {
    var ids := ActionIds(actions);
    assert ids[i] == ids[j];
  }

  lemma UniqueById(actions: seq<PlanAction>, a: PlanAction)
    requires Distinct(ActionIds(actions)) && a in actions
    ensures a.id in ById(actions) && ById(actions)[a.id] == a
  {
    var b := ById(actions)[a.id];
    var i :| 0 <= i < |actions| && actions[i] == a;
    var j :| 0 <= j < |actions| && actions[j] == b;
    SamePosition(actions, i, j);
  }

  // ---- the order depends only on the set of actions -----------------------------------------

  /** Listing the same actions in any order gives the same result. */
  lemma OrderIndependence(actions: seq<PlanAction>, shuffled: seq<PlanAction>,
                          ordered: seq<PlanAction>, ordered': seq<PlanAction>)
    requires multiset(actions) == multiset(shuffled) && Distinct(ActionIds(actions))
    requires IsTopologicalOrder(actions, ordered) && IsTopologicalOrder(shuffled, ordered')
    ensures ordered == ordered'
  {
    SameGraph(actions, shuffled);
    LexAntisymmetric(ActionIds(ordered), ActionIds(ordered'));
    assert |ActionIds(ordered)| == |ordered|;
    forall k | 0 <= k < |ordered| ensures ordered[k] == ordered'[k] {
      assert ordered[k] in multiset(ordered) && ordered'[k] in multiset(ordered');
      UniqueById(actions, ordered[k]);
      UniqueById(actions, ordered'[k]);
      assert ActionIds(ordered)[k] == ActionIds(ordered')[k];
    }
  }

  lemma SameLookup(actions: seq<PlanAction>, shuffled: seq<PlanAction>, id: Id)
    requires Distinct(ActionIds(actions)) && (forall a :: a in shuffled <==> a in actions)
    ensures id in ById(actions) <==> id in ById(shuffled)
    ensures id in ById(actions) ==> ById(actions)[id] == ById(shuffled)[id]
  {
    if id in ById(shuffled) { UniqueById(actions, ById(shuffled)[id]); }
    if id in ById(actions) { assert ById(actions)[id] in shuffled; }
  }

  lemma SameGraph(actions: seq<PlanAction>, shuffled: seq<PlanAction>)
    requires multiset(actions) == multiset(shuffled) && Distinct(ActionIds(actions))
    ensures Distinct(ActionIds(shuffled))
    ensures ById(actions) == ById(shuffled) && GraphOf(actions) == GraphOf(shuffled)
  {
    IdsCardinality(actions);
    IdsCardinality(shuffled);
    SameMembers(actions, shuffled);
    forall id ensures id in ById(actions) <==> id in ById(shuffled)
              ensures id in ById(actions) ==> ById(actions)[id] == ById(shuffled)[id]
    {
      SameLookup(actions, shuffled, id);
    }
    SameMap(ById(actions), ById(shuffled));
  }

  lemma SameMembers(actions: seq<PlanAction>, shuffled: seq<PlanAction>)
    requires multiset(actions) == multiset(shuffled)
    ensures |actions| == |shuffled| && forall a :: a in shuffled <==> a in actions
  {
    assert |multiset(actions)| == |actions| && |multiset(shuffled)| == |shuffled|;
    forall a ensures a in shuffled <==> a in actions {
      assert a in multiset(actions) <==> a in multiset(shuffled);
    }
  }
}
