/** What the compiled plan does not depend on: label names, argument order, listing order. */
module PlanInvariance {
  import opened Collections
  import opened PlanModel
  import opened PlanDrafting
  import opened ProjectionTheorems

  // ---- renaming labels ------------------------------------------------------------------------

  type Renaming = string -> string

  function RenameLabels(f: Renaming, labels: seq<string>): seq<string> {
    seq(|labels|, i requires 0 <= i < |labels| => f(labels[i]))
  }

  function RenameAction(f: Renaming, a: ModelAction): ModelAction {
    a.(stepId := f(a.stepId), dependsOn := RenameLabels(f, a.dependsOn))
  }

  function RenameActions(f: Renaming, actions: seq<ModelAction>): seq<ModelAction> {
    seq(|actions|, i requires 0 <= i < |actions| => RenameAction(f, actions[i]))
  }

  function Rename(f: Renaming, d: ModelDraft): ModelDraft {
    d.(actions := RenameActions(f, d.actions),
       criteria := seq(|d.criteria|, i requires 0 <= i < |d.criteria| => d.criteria[i].(stepId := f(d.criteria[i].stepId))))
  }

  ghost predicate KeepsApart(f: Renaming, labels: set<string>) {
    forall a, b :: a in labels && b in labels && f(a) == f(b) ==> a == b
  }

  lemma RenameResolves(f: Renaming, actions: seq<ModelAction>)
    requires LabelsResolved(actions)
    ensures LabelsResolved(RenameActions(f, actions))
  {
    var renamed := RenameActions(f, actions);
    forall k, l | 0 <= k < |renamed| && l in renamed[k].dependsOn ensures l in Steps(renamed)[..k] {
      var i :| 0 <= i < |actions[k].dependsOn| && f(actions[k].dependsOn[i]) == l;
      assert actions[k].dependsOn[i] in SetOf(actions[k].dependsOn);
      var j :| 0 <= j < k && Steps(actions)[..k][j] == actions[k].dependsOn[i];
      assert Steps(renamed)[..k][j] == l;
    }
  }

  /** The renamed dictionary maps each new label to the id of the old one. */
  ghost predicate Renamed(f: Renaming, ids: LabelMap, ids': LabelMap) {
    forall l :: l in ids ==> f(l) in ids' && ids'[f(l)] == ids[l]
  }

  lemma RenameKey(f: Renaming, a: ModelAction, ids: LabelMap, ids': LabelMap)
    requires Renamed(f, ids, ids') && SetOf(a.dependsOn) <= ids.Keys
    ensures SetOf(RenameAction(f, a).dependsOn) <= ids'.Keys
    ensures Resolve(ids', RenameAction(f, a).dependsOn) == Resolve(ids, a.dependsOn)
  {
    var renamed := RenameAction(f, a).dependsOn;
    forall i | 0 <= i < |renamed| ensures renamed[i] in ids' && ids'[renamed[i]] == ids[a.dependsOn[i]] {
      assert a.dependsOn[i] in SetOf(a.dependsOn);
    }
  }

  lemma {:induction false} RenameProjection(digest: Digest, taskId: string, f: Renaming, actions: seq<ModelAction>)
    requires LabelsResolved(actions) && LabelsResolved(RenameActions(f, actions))
    requires KeepsApart(f, SetOf(Steps(actions)))
    ensures Renamed(f, LabelIds(digest, taskId, actions), LabelIds(digest, taskId, RenameActions(f, actions)))
    ensures ProjectActions(digest, taskId, RenameActions(f, actions)) == ProjectActions(digest, taskId, actions)
    decreases |actions|
  {
    if actions != [] {
      var n := |actions| - 1;
      var renamed := RenameActions(f, actions);
      PrefixResolved(actions, n);
      PrefixResolved(renamed, n);
      assert renamed[..n] == RenameActions(f, actions[..n]);
      assert SetOf(Steps(actions[..n])) <= SetOf(Steps(actions));
      RenameProjection(digest, taskId, f, actions[..n]);
      RenameKey(f, actions[n], LabelIds(digest, taskId, actions[..n]), LabelIds(digest, taskId, renamed[..n]));
      assert Steps(actions)[n] in SetOf(Steps(actions));
    }
  }

  lemma StepListed(actions: seq<ModelAction>, step: string) returns (k: nat)
    requires step in Steps(actions)
    ensures k < |actions| && Steps(actions)[k] == step && actions[k].stepId == step
  {
    k :| 0 <= k < |Steps(actions)| && Steps(actions)[k] == step;
  }

  /** Alpha-invariance: a renaming that keeps the labels apart leaves the compiled plan identical. */
  lemma AlphaInvariance(digest: Digest, taskId: string, f: Renaming, d: ModelDraft)
    requires LabelsResolved(d.actions) && CriteriaResolved(d)
    requires KeepsApart(f, SetOf(Steps(d.actions)))
    ensures LabelsResolved(Rename(f, d).actions) && CriteriaResolved(Rename(f, d))
    ensures Projected(digest, taskId, Rename(f, d)) == Projected(digest, taskId, d)
  {
    var renamed := Rename(f, d);
    RenameResolves(f, d.actions);
    forall i | 0 <= i < |renamed.criteria| ensures renamed.criteria[i].stepId in Steps(renamed.actions) {
      var k := StepListed(d.actions, d.criteria[i].stepId);
      assert Steps(renamed.actions)[k] == renamed.criteria[i].stepId;
    }
    RenameProjection(digest, taskId, f, d.actions);
    var ids := LabelIds(digest, taskId, d.actions);
    forall i | 0 <= i < |d.criteria|
      ensures Projected(digest, taskId, renamed).criteria[i] == Projected(digest, taskId, d).criteria[i]
    {
      assert d.criteria[i].stepId in SetOf(Steps(d.actions));
    }
  }

  // ---- reordering inside an action ----------------------------------------------------------------

  /** The same action with its arguments and dependencies listed in another order. */
  predicate SameUpToOrder(a: ModelAction, b: ModelAction) {
    && a.stepId == b.stepId && a.capabilityId == b.capabilityId && a.capabilityVersion == b.capabilityVersion
    && a.timeout == b.timeout
    && multiset(a.arguments) == multiset(b.arguments)
    && multiset(a.dependsOn) == multiset(b.dependsOn)
  }

  function Hits(ids: LabelMap, y: Id): string -> int {
    (l: string) => if l in ids && ids[l] == y then 1 else 0
  }

  lemma {:induction false} CountResolved(ids: LabelMap, a: seq<string>, y: Id)
    requires SetOf(a) <= ids.Keys
    ensures multiset(Resolve(ids, a))[y] == Total(Hits(ids, y), a)
  {
    if a != [] {
      var n := |a| - 1;
      assert a[n] in SetOf(a);
      assert SetOf(a[..n]) <= SetOf(a);
      CountResolved(ids, a[..n], y);
      assert Resolve(ids, a) == Resolve(ids, a[..n]) + [ids[a[n]]];
    }
  }

  lemma ResolveReordered(ids: LabelMap, a: seq<string>, b: seq<string>)
    requires multiset(a) == multiset(b) && SetOf(a) <= ids.Keys
    ensures SetOf(b) <= ids.Keys && multiset(Resolve(ids, a)) == multiset(Resolve(ids, b))
  {
    forall l | l in b ensures l in SetOf(a) { assert l in multiset(b); }
    forall y ensures multiset(Resolve(ids, a))[y] == multiset(Resolve(ids, b))[y] {
      CountResolved(ids, a, y);
      CountResolved(ids, b, y);
      TotalPermutation(Hits(ids, y), a, b);
    }
  }

  lemma SameKey(a: ModelAction, b: ModelAction, ids: LabelMap)
    requires SameUpToOrder(a, b) && SetOf(a.dependsOn) <= ids.Keys && SetOf(b.dependsOn) <= ids.Keys
    ensures KeyOf(a, ids) == KeyOf(b, ids)
  {
    ResolveReordered(ids, a.dependsOn, b.dependsOn);
  }

  /** Argument and dependency order never reaches the identifier of an action or of a criterion. */
  lemma {:induction false} ReorderingInvariance(digest: Digest, taskId: string, a: seq<ModelAction>, b: seq<ModelAction>)
    requires LabelsResolved(a) && LabelsResolved(b) && |a| == |b|
    requires forall k :: 0 <= k < |a| ==> SameUpToOrder(a[k], b[k])
    ensures LabelIds(digest, taskId, a) == LabelIds(digest, taskId, b)
    ensures forall k :: 0 <= k < |a| ==>
              ProjectActions(digest, taskId, a)[k].id == ProjectActions(digest, taskId, b)[k].id
    decreases |a|
  {
    if a != [] {
      var n := |a| - 1;
      PrefixResolved(a, n);
      PrefixResolved(b, n);
      forall k | 0 <= k < n ensures SameUpToOrder(a[..n][k], b[..n][k]) {
        assert SameUpToOrder(a[k], b[k]);
      }
      ReorderingInvariance(digest, taskId, a[..n], b[..n]);
      SameKey(a[n], b[n], LabelIds(digest, taskId, a[..n]));
    }
  }

  // ---- reordering the actions -----------------------------------------------------------------------

  ghost predicate AgreeOn(ids: LabelMap, ids': LabelMap, labels: set<string>) {
    labels <= ids.Keys && labels <= ids'.Keys && forall l :: l in labels ==> ids[l] == ids'[l]
  }

  lemma FoundIn(a: seq<ModelAction>, b: seq<ModelAction>, i: nat) returns (j: nat)
    requires multiset(a) == multiset(b) && i < |a|
    ensures j < |b| && b[j] == a[i]
  {
    assert a[i] in multiset(b);
    j :| 0 <= j < |b| && b[j] == a[i];
  }

  /** Two listings of the same steps give each of the first k labels the same id. */
  lemma {:induction false} ListingPrefixIds(digest: Digest, taskId: string, a: seq<ModelAction>, b: seq<ModelAction>, k: nat)
    requires LabelsResolved(a) && LabelsResolved(b) && Distinct(Steps(a)) && Distinct(Steps(b))
    requires multiset(a) == multiset(b) && k <= |a|
    ensures AgreeOn(LabelIds(digest, taskId, a), LabelIds(digest, taskId, b), SetOf(Steps(a)[..k]))
  {
    if k > 0 {
      ListingPrefixIds(digest, taskId, a, b, k - 1);
      var j := FoundIn(a, b, k - 1);
      ListingNextId(digest, taskId, a, b, k - 1, j);
      PrefixNext(Steps(a), k - 1);
    }
  }

  lemma ListingNextId(digest: Digest, taskId: string, a: seq<ModelAction>, b: seq<ModelAction>, i: nat, j: nat)
    requires LabelsResolved(a) && LabelsResolved(b) && Distinct(Steps(a)) && Distinct(Steps(b))
    requires i < |a| && j < |b| && a[i] == b[j]
    requires AgreeOn(LabelIds(digest, taskId, a), LabelIds(digest, taskId, b), SetOf(Steps(a)[..i]))
    ensures AgreeOn(LabelIds(digest, taskId, a), LabelIds(digest, taskId, b), {a[i].stepId})
  {
    LabelIdAt(digest, taskId, a, i);
    LabelIdAt(digest, taskId, b, j);
    EarlierLabels(a, i);
    forall l | l in a[i].dependsOn ensures LabelIds(digest, taskId, a)[l] == LabelIds(digest, taskId, b)[l] {
      assert l in SetOf(a[i].dependsOn);
    }
    ResolveAgrees(a[i], LabelIds(digest, taskId, a), LabelIds(digest, taskId, b));
  }

  lemma ListingSameIds(digest: Digest, taskId: string, a: seq<ModelAction>, b: seq<ModelAction>)
    requires LabelsResolved(a) && LabelsResolved(b) && Distinct(Steps(a)) && Distinct(Steps(b))
    requires multiset(a) == multiset(b)
    ensures LabelIds(digest, taskId, a) == LabelIds(digest, taskId, b)
  {
    ListingPrefixIds(digest, taskId, a, b, |a|);
    SameLabels(a, b);
    assert Steps(a)[..|a|] == Steps(a);
  }

  /** Listing order is not part of any identifier: each step compiles to the same action. */
  lemma ListingInvariance(digest: Digest, taskId: string, a: seq<ModelAction>, b: seq<ModelAction>)
    requires LabelsResolved(a) && LabelsResolved(b) && Distinct(Steps(a)) && Distinct(Steps(b))
    requires multiset(a) == multiset(b)
    ensures LabelIds(digest, taskId, a) == LabelIds(digest, taskId, b)
    ensures forall i, j :: 0 <= i < |a| && 0 <= j < |b| && a[i] == b[j] ==>
              ProjectActions(digest, taskId, a)[i] == ProjectActions(digest, taskId, b)[j]
  {
    ListingSameIds(digest, taskId, a, b);
    forall i, j | 0 <= i < |a| && 0 <= j < |b| && a[i] == b[j]
      ensures ProjectActions(digest, taskId, a)[i] == ProjectActions(digest, taskId, b)[j]
    {
      LabelIdAt(digest, taskId, a, i);
      LabelIdAt(digest, taskId, b, j);
    }
  }

  lemma SameLabels(a: seq<ModelAction>, b: seq<ModelAction>)
    requires multiset(a) == multiset(b)
    ensures SetOf(Steps(a)) == SetOf(Steps(b))
  {
    LabelsIncluded(a, b);
    LabelsIncluded(b, a);
  }

  lemma LabelsIncluded(a: seq<ModelAction>, b: seq<ModelAction>)
    requires multiset(a) == multiset(b)
    ensures SetOf(Steps(a)) <= SetOf(Steps(b))
  {
    forall l | l in Steps(a) ensures l in Steps(b) {
      var i :| 0 <= i < |a| && Steps(a)[i] == l;
      assert a[i] in multiset(b);
      var j :| 0 <= j < |b| && b[j] == a[i];
      assert Steps(b)[j] == l;
    }
  }
}
