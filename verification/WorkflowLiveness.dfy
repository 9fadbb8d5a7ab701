/** What runs can achieve: which drafts can be carried out, and which limits every draft can meet. */
module WorkflowLiveness {
  import opened Collections
  import opened PlanModel
  import opened TopologicalOrder
  import opened CriticalPath
  import opened PlanValidation
  import opened PlanDrafting
  import opened ProjectionTheorems
  import opened Policy
  import opened Verification
  import opened Dispatch
  import opened Revision
  import opened Workflow
  import opened WorkflowBounds
  import opened WorkflowSafety
  import opened WorkflowApproval
  import opened WorkflowOutcome
  import opened WorkflowResponse
  import opened WorkflowRuns

  // ---- a draft on its way --------------------------------------------------------------------------------

  /** The results of the first n actions, all successful. */
  function Successes(env: Env, actions: seq<PlanAction>, n: nat): seq<ActionResult>
    requires n <= |actions|
  {
    seq(n, i requires 0 <= i < n => Success(env, actions[i], i))
  }

  /** The plan is that of the draft, up to warnings and the order of its criteria. */
  ghost predicate OfDraft(env: Env, p: Plan, d: ModelDraft, bundle: Bundle)
    requires Viable(env, d, bundle)
  {
    && p.actions == PlanFor(env, d).actions && multiset(p.criteria) == multiset(PlanFor(env, d).criteria)
    && p.objective == env.intent && Accepted(p, bundle, env.validation)
  }

  /** The first n actions of the draft have run. */
  ghost predicate OnCourse(env: Env, s: State, d: ModelDraft, bundle: Bundle, n: nat)
    requires Viable(env, d, bundle)
  {
    var actions := PlanFor(env, d).actions;
    && n <= |actions| && s.plan.Some? && OfDraft(env, s.plan.value, d, bundle)
    && s.results == Successes(env, actions, n) && s.dispatches.Keys == SetOf(ActionIds(actions[..n]))
  }

  /** Sizes that drafting guarantees. */
  lemma SizesOf(env: Env, p: Plan, d: ModelDraft, bundle: Bundle)
    requires Viable(env, d, bundle) && OfDraft(env, p, d, bundle)
    ensures 1 <= |p.criteria| <= 16 && |p.actions| == |d.actions| && 1 <= |p.actions| <= 8 && Sound(p)
  {
    assert |multiset(p.criteria)| == |p.criteria| && |multiset(PlanFor(env, d).criteria)| == |PlanFor(env, d).criteria|;
    AcceptedIsSound(p, bundle, env.validation);
  }

  lemma ListedOf(env: Env, d: ModelDraft, bundle: Bundle)
    requires Viable(env, d, bundle)
    ensures ListedInOrder(PlanFor(env, d).actions)
  {
    CheckedStepsProper(d.actions, bundle);
    DistinctIdsIffCollisionFree(env.digest, env.identity.taskId, d.actions);
    ProjectedListedInOrder(env.digest, env.identity.taskId, d.actions);
  }

  lemma TimeoutAt(actions: seq<PlanAction>, bundle: Bundle, k: nat)
    requires ActionsFine(actions, bundle) && k < |actions|
    ensures actions[k].timeout >= 1
  {
    assert ActionCheck(actions, k, bundle).Ok?;
  }

  // ---- the next action -----------------------------------------------------------------------------------------

  lemma SuccessIds(env: Env, actions: seq<PlanAction>, n: nat)
    requires n <= |actions|
    ensures ResultIds(Successes(env, actions, n)) == ActionIds(actions)[..n] == ActionIds(actions[..n])
  {
  }

  lemma SuccessesSucceeded(env: Env, actions: seq<PlanAction>, n: nat)
    requires n <= |actions|
    ensures SucceededIds(Successes(env, actions, n)) == SetOf(ActionIds(actions)[..n])
    ensures UnsuccessfulIds(Successes(env, actions, n)) == {}
  {
    var results := Successes(env, actions, n);
    forall id ensures id in SucceededIds(results) <==> id in ActionIds(actions)[..n] {
      if id in ActionIds(actions)[..n] {
        var i :| 0 <= i < n && ActionIds(actions)[..n][i] == id;
        assert results[i].outcome.ActionSucceeded? && results[i].actionId == id;
      }
      if id in SucceededIds(results) {
        var i :| 0 <= i < |results| && results[i].actionId == id;
        assert ActionIds(actions)[..n][i] == id;
      }
    }
  }

  lemma {:induction false} FirstReadyAt(actions: seq<PlanAction>, results: seq<ActionResult>, n: nat)
    requires n < |actions| && Ready(actions[n], results)
    requires forall i :: 0 <= i < n ==> !Ready(actions[i], results)
    ensures FirstReady(actions, results) == Some(actions[n])
    decreases n
  {
    if n > 0 { FirstReadyAt(actions[1..], results, n - 1); }
  }

  lemma ReadyInOrder(env: Env, actions: seq<PlanAction>, n: nat)
    requires ListedInOrder(actions) && n < |actions|
    ensures Ready(actions[n], Successes(env, actions, n))
    ensures forall i :: 0 <= i < n ==> !Ready(actions[i], Successes(env, actions, n))
  {
    var ids := ActionIds(actions);
    SuccessIds(env, actions, n);
    SuccessesSucceeded(env, actions, n);
    forall i | 0 <= i < n ensures actions[i].id in ids[..n] { assert ids[..n][i] == actions[i].id; }
    forall i | 0 <= i < n ensures ids[..n][i] != actions[n].id { assert ids[i] != ids[n]; }
    assert SetOf(actions[n].dependencies) <= SetOf(ids[..n]);
  }

  /** Drafted actions run in the order they are listed. */
  lemma SelectsInOrder(env: Env, p: Plan, n: nat)
    requires ListedInOrder(p.actions) && n < |p.actions|
    ensures SelectAction(p, Successes(env, p.actions, n)) == Ok(p.actions[n])
  {
    ReadyInOrder(env, p.actions, n);
    FirstReadyAt(p.actions, Successes(env, p.actions, n), n);
  }

  lemma ResultsStateFine(env: Env, p: Plan, n: nat)
    requires p.actions != [] && Distinct(ActionIds(p.actions)) && n <= |p.actions|
    ensures ResultStateFine(p, Successes(env, p.actions, n))
  {
    var results := Successes(env, p.actions, n);
    SuccessIds(env, p.actions, n);
    forall i, j | 0 <= i < j < |results| ensures results[i].actionId != results[j].actionId && results[i].receiptId != results[j].receiptId {
      assert ActionIds(p.actions)[i] != ActionIds(p.actions)[j];
      assert |ReceiptName(i)| != |ReceiptName(j)|;
    }
    forall id | id in ResultIds(results) ensures id in ActionIds(p.actions) {
      var i :| 0 <= i < n && ActionIds(p.actions)[..n][i] == id;
      assert ActionIds(p.actions)[i] == id;
    }
  }

  lemma NextNotDispatched(actions: seq<PlanAction>, n: nat)
    requires Distinct(ActionIds(actions)) && n < |actions|
    ensures actions[n].id !in SetOf(ActionIds(actions[..n]))
    ensures SetOf(ActionIds(actions[..n + 1])) == SetOf(ActionIds(actions[..n])) + {actions[n].id}
  {
    var ids := ActionIds(actions);
    assert ActionIds(actions[..n]) == ids[..n] && ActionIds(actions[..n + 1]) == ids[..n + 1];
    PrefixNext(ids, n);
    forall i | 0 <= i < n ensures ids[..n][i] != ids[n] { assert ids[..n][i] == ids[i]; }
  }

  lemma OneMoreSuccess(env: Env, actions: seq<PlanAction>, n: nat)
    requires n < |actions|
    ensures Successes(env, actions, n) + [Success(env, actions[n], n)] == Successes(env, actions, n + 1)
  {
  }

  /** Ready to run the next action. */
  ghost predicate AtDispatch(env: Env, s: State, d: ModelDraft, bundle: Bundle, n: nat)
    requires Viable(env, d, bundle)
  {
    && OnCourse(env, s, d, bundle, n) && n < |PlanFor(env, d).actions| && Selects(env, s, PlanFor(env, d).actions[n])
    && s.node.DispatchNode? && s.status.Executing? && !s.pending.Paused?
  }

  /** It has run. */
  ghost predicate AtVerify(env: Env, s: State, d: ModelDraft, bundle: Bundle, n: nat)
    requires Viable(env, d, bundle)
  {
    OnCourse(env, s, d, bundle, n) && s.node.VerifyNode? && s.status.Verifying?
  }

  lemma TurnRuns(env: Env, s: State, d: ModelDraft, bundle: Bundle, n: nat) returns (t: State)
    requires Viable(env, d, bundle) && Reaches(env, s) && AtDispatch(env, s, d, bundle, n)
    ensures Reaches(env, t) && AtVerify(env, t, d, bundle, n + 1)
    ensures t.plan == s.plan && t.revision == s.revision && t.resolutions == s.resolutions
  {
    var actions := PlanFor(env, d).actions;
    SizesOf(env, s.plan.value, d, bundle);
    ResultsStateFine(env, s.plan.value, n);
    TimeoutAt(actions, bundle, n);
    NextNotDispatched(actions, n);
    t := ReachesRan(env, s, actions[n], n);
    OneMoreSuccess(env, actions, n);
  }

  // ---- the next turn ----------------------------------------------------------------------------------------------

  /** Other warnings than these. */
  function OtherWarnings(warnings: seq<string>): seq<string> {
    if warnings == [] then ["external_dependency"] else []
  }

  function Rewarned(d: ModelDraft, warnings: seq<string>): ModelDraft {
    d.(warnings := OtherWarnings(warnings))
  }

  lemma RewarnedAccepted(env: Env, d: ModelDraft, bundle: Bundle, warnings: seq<string>)
    requires Viable(env, d, bundle)
    ensures ModelAccepted(Rewarned(d, warnings), env.intent, bundle, env.drafts)
    ensures LabelsResolved(Rewarned(d, warnings).actions) && CriteriaResolved(Rewarned(d, warnings))
    ensures PlanFor(env, Rewarned(d, warnings)) == PlanFor(env, d).(warnings := OtherWarnings(warnings))
  {
    var e := Rewarned(d, warnings);
    assert ModelCriteriaFine(e, bundle);
    assert PlanFor(env, e).criteria == PlanFor(env, d).criteria;
  }

  lemma {:induction false} AllActionsWhere(actions: seq<PlanAction>, ids: set<Id>, wanted: bool, here: bool)
    requires forall a :: a in actions ==> ((a.id in ids) == wanted) == here
    ensures ActionsWhere(actions, ids, wanted) == if here then actions else []
  {
    if actions != [] {
      AllActionsWhere(actions[..|actions| - 1], ids, wanted, here);
      assert actions == actions[..|actions| - 1] + [actions[|actions| - 1]];
    }
  }

  lemma PrefixIds(actions: seq<PlanAction>, n: nat)
    requires Distinct(ActionIds(actions)) && n <= |actions|
    ensures forall a :: a in actions[..n] ==> a.id in SetOf(ActionIds(actions)[..n])
    ensures forall a :: a in actions[n..] ==> a.id !in SetOf(ActionIds(actions)[..n])
  {
    var all := ActionIds(actions);
    forall a | a in actions[..n] ensures a.id in all[..n] {
      var i :| 0 <= i < n && actions[..n][i] == a;
      assert all[..n][i] == a.id;
    }
    forall a | a in actions[n..] ensures a.id !in all[..n] {
      var i :| 0 <= i < |actions| - n && actions[n..][i] == a;
      assert all[n + i] == a.id;
      forall j | 0 <= j < n ensures all[..n][j] != a.id { assert all[j] != all[n + i]; }
    }
  }

  lemma SplitWhere(init: seq<PlanAction>, rest: seq<PlanAction>, ids: set<Id>, wanted: bool)
    requires (forall a :: a in init ==> a.id in ids) && (forall a :: a in rest ==> a.id !in ids)
    ensures ActionsWhere(init + rest, ids, wanted) == if wanted then init else rest
  {
    AllActionsWhere(init, ids, wanted, wanted);
    AllActionsWhere(rest, ids, wanted, !wanted);
    WhereConcat(init, rest, ids, wanted);
    assert [] + rest == rest && init + [] == init;
  }

  lemma PrefixWhere(actions: seq<PlanAction>, n: nat)
    requires Distinct(ActionIds(actions)) && n <= |actions|
    ensures ActionsWhere(actions, SetOf(ActionIds(actions)[..n]), true) == actions[..n]
    ensures ActionsWhere(actions, SetOf(ActionIds(actions)[..n]), false) == actions[n..]
  {
    PrefixIds(actions, n);
    SplitWhere(actions[..n], actions[n..], SetOf(ActionIds(actions)[..n]), true);
    SplitWhere(actions[..n], actions[n..], SetOf(ActionIds(actions)[..n]), false);
    TakeDrop(actions, n);
  }

  lemma TakeDrop<T>(s: seq<T>, n: nat)
    requires n <= |s|
    ensures s[..n] + s[n..] == s
  {
  }

  lemma {:induction false} WhereCount(criteria: seq<Criterion>, ids: set<Id>, wanted: bool, c: Criterion)
    ensures multiset(CriteriaWhere(criteria, ids, wanted))[c] == if (c.actionId in ids) == wanted then multiset(criteria)[c] else 0
  {
    if criteria != [] {
      var n := |criteria| - 1;
      WhereCount(criteria[..n], ids, wanted, c);
      assert criteria == criteria[..n] + [criteria[n]];
    }
  }

  /** Merging two orders of the same criteria gives a third. */
  lemma CriteriaMerged(a: seq<Criterion>, b: seq<Criterion>, ids: set<Id>)
    requires multiset(a) == multiset(b)
    ensures multiset(CriteriaWhere(a, ids, true) + CriteriaWhere(b, ids, false)) == multiset(b)
  {
    var kept, added := CriteriaWhere(a, ids, true), CriteriaWhere(b, ids, false);
    assert multiset(kept + added) == multiset(kept) + multiset(added);
    forall c ensures multiset(kept + added)[c] == multiset(b)[c] {
      WhereCount(a, ids, true, c);
      WhereCount(b, ids, false, c);
    }
  }

  // ---- acceptance does not look at warnings or the order of criteria ----------------------------------------------------

  /** Keys that tell the elements of a list apart tell them apart in every order. */
  lemma KeysApart<K>(key: Criterion -> K, a: seq<Criterion>, b: seq<Criterion>, i: nat, j: nat)
    requires multiset(a) == multiset(b) && i < j < |b|
    requires forall k, l :: 0 <= k < l < |a| ==> key(a[k]) != key(a[l])
    ensures key(b[i]) != key(b[j])
  {
    assert Distinct(a);
    DistinctPermutation(a, b);
    assert b[i] in multiset(a) && b[j] in multiset(a);
    var k :| 0 <= k < |a| && a[k] == b[i];
    var l :| 0 <= l < |a| && a[l] == b[j];
    assert k != l;
  }

  function PairOf(c: Criterion): (Id, string) { (c.actionId, c.code) }

  lemma IdsReordered(a: seq<Criterion>, b: seq<Criterion>)
    requires multiset(a) == multiset(b) && Distinct(CriterionIds(a))
    ensures Distinct(CriterionIds(b))
  {
    forall k, l | 0 <= k < l < |a| ensures CriterionId(a[k]) != CriterionId(a[l]) {
      assert CriterionIds(a)[k] != CriterionIds(a)[l];
    }
    forall i, j | 0 <= i < j < |b| ensures CriterionIds(b)[i] != CriterionIds(b)[j] {
      KeysApart(CriterionId, a, b, i, j);
    }
  }

  lemma PairsReordered(a: seq<Criterion>, b: seq<Criterion>)
    requires multiset(a) == multiset(b) && Distinct(Pairs(a))
    ensures Distinct(Pairs(b))
  {
    forall k, l | 0 <= k < l < |a| ensures PairOf(a[k]) != PairOf(a[l]) {
      assert Pairs(a)[k] != Pairs(a)[l];
    }
    forall i, j | 0 <= i < j < |b| ensures Pairs(b)[i] != Pairs(b)[j] {
      KeysApart(PairOf, a, b, i, j);
    }
  }

  lemma CoverageReordered(a: seq<Criterion>, b: seq<Criterion>)
    requires multiset(a) == multiset(b)
    ensures CoveredIds(a) <= CoveredIds(b)
  {
    forall id | id in CoveredIds(a) ensures id in CoveredIds(b) {
      var i :| 0 <= i < |a| && a[i].actionId == id;
      assert a[i] in multiset(b);
      var k :| 0 <= k < |b| && b[k] == a[i];
    }
  }

  lemma CriteriaReordered(p: Plan, q: Plan, bundle: Bundle)
    requires q.actions == p.actions && multiset(q.criteria) == multiset(p.criteria) && CriteriaFine(p, bundle)
    ensures CriteriaFine(q, bundle)
  {
    PairsReordered(p.criteria, q.criteria);
    CoverageReordered(p.criteria, q.criteria);
    CoverageReordered(q.criteria, p.criteria);
    forall i | 0 <= i < |q.criteria| ensures CriterionDeclared(q.criteria[i], ById(q.actions), bundle) {
      assert q.criteria[i] in multiset(p.criteria);
      var k :| 0 <= k < |p.criteria| && p.criteria[k] == q.criteria[i];
    }
  }

  /** The validator looks neither at warnings nor at the order of criteria. */
  lemma AcceptedReordered(p: Plan, q: Plan, bundle: Bundle, v: ValidationSettings)
    requires Accepted(p, bundle, v) && q.actions == p.actions && multiset(q.criteria) == multiset(p.criteria)
    ensures Accepted(q, bundle, v)
  {
    assert |multiset(q.criteria)| == |q.criteria| && |multiset(p.criteria)| == |p.criteria|;
    IdsReordered(p.criteria, q.criteria);
    CriteriaReordered(p, q, bundle);
  }

  // ---- the revision between two turns ------------------------------------------------------------------------------------

  lemma SameActionsAgree(candidate: Plan, plan: Plan, ids: set<Id>)
    requires candidate.actions == plan.actions
    ensures !Contradicts(candidate, plan, ids)
  {
  }

  /** The plan that results from offering the draft again with other warnings. */
  function Remerged(env: Env, p: Plan, d: ModelDraft, n: nat): Plan
    requires LabelsResolved(d.actions) && CriteriaResolved(d) && n <= |PlanFor(env, d).actions|
  {
    var base := PlanFor(env, d);
    var ids := SetOf(ActionIds(base.actions)[..n]);
    base.(warnings := OtherWarnings(p.warnings), criteria := CriteriaWhere(p.criteria, ids, true) + CriteriaWhere(base.criteria, ids, false))
  }

  lemma MergedIs(candidate: Plan, plan: Plan, results: seq<ActionResult>, ids: set<Id>)
    requires ids == SetOf(ResultIds(results)) && !Contradicts(candidate, plan, ids)
    requires ActionsWhere(plan.actions, ids, true) + ActionsWhere(candidate.actions, ids, false) == candidate.actions
    ensures MergeExecutedPlan(candidate, plan, results)
         == Ok(candidate.(criteria := CriteriaWhere(plan.criteria, ids, true) + CriteriaWhere(candidate.criteria, ids, false)))
  {
  }

  lemma MergesOnCourse(env: Env, p: Plan, d: ModelDraft, bundle: Bundle, n: nat)
    requires Viable(env, d, bundle) && OfDraft(env, p, d, bundle) && n <= |p.actions|
    ensures LabelsResolved(Rewarned(d, p.warnings).actions) && CriteriaResolved(Rewarned(d, p.warnings))
    ensures MergeExecutedPlan(PlanFor(env, Rewarned(d, p.warnings)), p, Successes(env, p.actions, n)) == Ok(Remerged(env, p, d, n))
  {
    var candidate := PlanFor(env, d).(warnings := OtherWarnings(p.warnings));
    RewarnedAccepted(env, d, bundle, p.warnings);
    SuccessIds(env, p.actions, n);
    PrefixWhere(p.actions, n);
    TakeDrop(p.actions, n);
    SameActionsAgree(candidate, p, SetOf(ActionIds(p.actions)[..n]));
    MergedIs(candidate, p, Successes(env, p.actions, n), SetOf(ActionIds(p.actions)[..n]));
  }

  lemma RemergedOfDraft(env: Env, p: Plan, d: ModelDraft, bundle: Bundle, n: nat)
    requires Viable(env, d, bundle) && OfDraft(env, p, d, bundle) && n <= |p.actions|
    ensures OfDraft(env, Remerged(env, p, d, n), d, bundle)
  {
    CriteriaMerged(p.criteria, PlanFor(env, d).criteria, SetOf(ActionIds(PlanFor(env, d).actions)[..n]));
    AcceptedReordered(PlanFor(env, d), Remerged(env, p, d, n), bundle, env.validation);
  }

  lemma PrefixOfIds(actions: seq<PlanAction>, n: nat)
    requires n <= |actions|
    ensures SetOf(ActionIds(actions)[..n]) <= SetOf(ActionIds(actions))
  {
  }

  lemma RemergedAccepted(env: Env, p: Plan, d: ModelDraft, bundle: Bundle, n: nat)
    requires Viable(env, d, bundle) && OfDraft(env, p, d, bundle) && n <= |p.actions|
    ensures RevisionAccepted(Remerged(env, p, d, n), p, Successes(env, p.actions, n), bundle, env.validation)
  {
    var results := Successes(env, p.actions, n);
    RemergedOfDraft(env, p, d, bundle, n);
    MergesOnCourse(env, p, d, bundle, n);
    SuccessIds(env, p.actions, n);
    SuccessesSucceeded(env, p.actions, n);
    PrefixOfIds(p.actions, n);
    MergeKeepsExecuted(PlanFor(env, Rewarned(d, p.warnings)), p, results);
    assert Remerged(env, p, d, n).warnings != p.warnings;
  }

  // ---- turns -------------------------------------------------------------------------------------------------------------

  /** At the start of a turn, n actions of the draft have run. */
  ghost predicate AtPolicy(env: Env, s: State, d: ModelDraft, bundle: Bundle, n: nat)
    requires Viable(env, d, bundle)
  {
    && OnCourse(env, s, d, bundle, n) && s.node.PolicyNode? && s.status.Planning? && s.decisions == [] && s.pending.NoApproval?
    && s.revision == n
  }

  lemma PlannedOnCourse(env: Env, d: ModelDraft, bundle: Bundle)
    requires Viable(env, d, bundle)
    ensures AtPolicy(env, Planned(PlanFor(env, d)), d, bundle, 0)
  {
    assert ActionIds(PlanFor(env, d).actions[..0]) == [];
    assert Accepted(PlanFor(env, d), bundle, env.validation);
  }

  lemma StartsOnCourse(env: Env, d: ModelDraft, bundle: Bundle) returns (s: State)
    requires Viable(env, d, bundle)
    ensures Reaches(env, s) && AtPolicy(env, s, d, bundle, 0) && s.plan == Some(PlanFor(env, d)) && s.resolutions == map[]
  {
    ReachesPlanned(env, d, bundle);
    PlannedOnCourse(env, d, bundle);
    s := Planned(PlanFor(env, d));
  }

  lemma SelectsOnCourse(env: Env, s: State, d: ModelDraft, bundle: Bundle, n: nat)
    requires Viable(env, d, bundle) && OnCourse(env, s, d, bundle, n) && n < |PlanFor(env, d).actions|
    ensures SelectAction(s.plan.value, s.results) == Ok(PlanFor(env, d).actions[n])
  {
    ListedOf(env, d, bundle);
    SelectsInOrder(env, s.plan.value, n);
  }

  lemma FitsOnCourse(env: Env, s: State, d: ModelDraft, bundle: Bundle, n: nat)
    requires Viable(env, d, bundle) && OnCourse(env, s, d, bundle, n)
    ensures ResultsFit(s)
  {
    SizesOf(env, s.plan.value, d, bundle);
    ResultsStateFine(env, s.plan.value, n);
  }

  /** Policy allows everything. */
  lemma TurnAllowed(env: Env, s: State, d: ModelDraft, bundle: Bundle, n: nat)
    requires Viable(env, d, bundle) && Reaches(env, s) && AtPolicy(env, s, d, bundle, n) && n < |PlanFor(env, d).actions|
    ensures Reaches(env, Judged(env, s, Allow, "1.0.0")) && AtDispatch(env, Judged(env, s, Allow, "1.0.0"), d, bundle, n)
  {
    SizesOf(env, s.plan.value, d, bundle);
    SelectsOnCourse(env, s, d, bundle, n);
    FitsOnCourse(env, s, d, bundle, n);
    ReachesJudged(env, s, Allow, "1.0.0");
    AllowedSelects(env, s, "1.0.0", PlanFor(env, d).actions[n]);
    AllowedAtDispatch(env, s, d, bundle, n);
  }

  lemma AllowedAtDispatch(env: Env, s: State, d: ModelDraft, bundle: Bundle, n: nat)
    requires Viable(env, d, bundle) && AtPolicy(env, s, d, bundle, n) && n < |PlanFor(env, d).actions|
    requires Selects(env, Judged(env, s, Allow, "1.0.0"), PlanFor(env, d).actions[n])
    ensures AtDispatch(env, Judged(env, s, Allow, "1.0.0"), d, bundle, n)
  {
    var t := Judged(env, s, Allow, "1.0.0");
    assert t.node == DispatchNode && t.status == Executing && t.pending == s.pending;
  }

  /** Every probe times out. */
  lemma TurnTimesOut(env: Env, s: State, d: ModelDraft, bundle: Bundle, n: nat) returns (t: State)
    requires Viable(env, d, bundle) && Reaches(env, s) && AtVerify(env, s, d, bundle, n) && s.revision <= env.maxRevision <= 2
    ensures Reaches(env, t) && t == AfterTimeOut(env, s, n) && OnCourse(env, t, d, bundle, n)
    ensures PassStored(env, t, TimedOutAggregate(env, s, n), TimedOutPass(VidOf(env, s), s.plan.value.criteria, s.results, n))
  {
    SizesOf(env, s.plan.value, d, bundle);
    ReachesTimedOut(env, s, n);
    t := AfterTimeOut(env, s, n);
  }

  /** The model offers the draft again with other warnings. */
  lemma TurnRevised(env: Env, s: State, d: ModelDraft, bundle: Bundle, n: nat) returns (t: State)
    requires Viable(env, d, bundle) && Reaches(env, s) && OnCourse(env, s, d, bundle, n) && env.maxRevision <= 2
    requires s.node.ReviseNode? && s.revision == n - 1
    ensures Reaches(env, t) && AtPolicy(env, t, d, bundle, n) && t.resolutions == s.resolutions
  {
    var p := s.plan.value;
    RewarnedAccepted(env, d, bundle, p.warnings);
    MergesOnCourse(env, p, d, bundle, n);
    RemergedAccepted(env, p, d, bundle, n);
    RemergedOfDraft(env, p, d, bundle, n);
    ReachesRevised(env, s, Rewarned(d, p.warnings), bundle, Remerged(env, p, d, n));
    t := Revised(s, Remerged(env, p, d, n));
  }

  /** From one verification that times out to the next turn. */
  lemma NextTurn(env: Env, s: State, d: ModelDraft, bundle: Bundle, n: nat) returns (t: State)
    requires Viable(env, d, bundle) && Reaches(env, s) && AtVerify(env, s, d, bundle, n) && s.revision == n - 1
    requires s.revision < env.maxRevision <= 2
    ensures Reaches(env, t) && AtPolicy(env, t, d, bundle, n) && t.resolutions == s.resolutions
  {
    var u := TurnTimesOut(env, s, d, bundle, n);
    t := TurnRevised(env, u, d, bundle, n);
  }

  /** A run can have carried out n actions when its n-th revision is made. */
  lemma {:induction false} Advance(env: Env, d: ModelDraft, bundle: Bundle, n: nat) returns (s: State)
    requires Viable(env, d, bundle) && n < |d.actions| && n <= env.maxRevision <= 2
    ensures Reaches(env, s) && AtPolicy(env, s, d, bundle, n)
  {
    if n == 0 {
      s := StartsOnCourse(env, d, bundle);
    } else {
      var before := Advance(env, d, bundle, n - 1);
      TurnAllowed(env, before, d, bundle, n - 1);
      var ran := TurnRuns(env, Judged(env, before, Allow, "1.0.0"), d, bundle, n - 1);
      s := NextTurn(env, ran, d, bundle, n);
    }
  }

  /** And one more in that turn. */
  lemma AdvanceAndRun(env: Env, d: ModelDraft, bundle: Bundle, n: nat) returns (s: State)
    requires Viable(env, d, bundle) && n < |d.actions| && n <= env.maxRevision <= 2
    ensures Reaches(env, s) && AtVerify(env, s, d, bundle, n + 1) && s.revision == n
  {
    var before := Advance(env, d, bundle, n);
    TurnAllowed(env, before, d, bundle, n);
    s := TurnRuns(env, Judged(env, before, Allow, "1.0.0"), d, bundle, n);
  }

  // ---- which drafts can be carried out ----------------------------------------------------------------------------------------

  lemma AllHaveRun(env: Env, s: State, d: ModelDraft, bundle: Bundle)
    requires Viable(env, d, bundle) && OnCourse(env, s, d, bundle, |PlanFor(env, d).actions|)
    ensures AllRan(s.plan.value.criteria, s.results, |PlanFor(env, d).actions|)
  {
    SizesOf(env, s.plan.value, d, bundle);
    PlanHasRun(env, s.plan.value);
  }

  lemma PlanHasRun(env: Env, p: Plan)
    requires CoveredIds(p.criteria) == SetOf(ActionIds(p.actions))
    ensures AllRan(p.criteria, Successes(env, p.actions, |p.actions|), |p.actions|)
  {
    SuccessIds(env, p.actions, |p.actions|);
    TakeAll(ActionIds(p.actions));
    forall i | 0 <= i < |p.criteria| ensures p.criteria[i].actionId in ActionIds(p.actions) {
      assert p.criteria[i].actionId in CoveredIds(p.criteria);
    }
  }

  /** All actions run and every criterion passes with so many references. */
  lemma AllPass(env: Env, d: ModelDraft, bundle: Bundle, many: nat) returns (s: State)
    requires Viable(env, d, bundle) && |d.actions| <= env.maxRevision + 1 <= 3 && 1 <= many <= 8
    ensures Reaches(env, s) && s.node.ResponseNode? && s.status.Succeeded? && s.plan.Some? && OfDraft(env, s.plan.value, d, bundle)
    ensures |EvidenceIds(FinalCriteria(s))| == |d.criteria| * many && !BoundConflict(env, s)
  {
    var n := |PlanFor(env, d).actions|;
    var t := AdvanceAndRun(env, d, bundle, n - 1);
    SizesOf(env, t.plan.value, d, bundle);
    AllHaveRun(env, t, d, bundle);
    ReachesPassed(env, t, many, n);
    s := AfterPass(env, t, many, n);
    CountReferences(VidOf(env, t), t.plan.value.criteria, t.results, many, n);
    AllPassedOutcome(VidOf(env, t), t.plan.value.criteria, t.results, many, n, s.revision, 2);
    SameCriteriaCount(env, t.plan.value, d, bundle);
  }

  lemma SameCriteriaCount(env: Env, p: Plan, d: ModelDraft, bundle: Bundle)
    requires Viable(env, d, bundle) && OfDraft(env, p, d, bundle)
    ensures |p.criteria| == |d.criteria|
  {
    assert |multiset(p.criteria)| == |p.criteria| && |multiset(PlanFor(env, d).criteria)| == |PlanFor(env, d).criteria|;
  }

  /** A run that ends with a response that reports success for a plan with the actions of the draft. */
  ghost predicate CarriesOut(env: Env, trace: seq<State>, d: ModelDraft)
    requires LabelsResolved(d.actions) && CriteriaResolved(d)
  {
    && Run(env, trace)
    && var s := trace[|trace| - 1];
       s.node.EndNode? && s.status.Succeeded? && s.plan.Some? && s.plan.value.actions == PlanFor(env, d).actions
  }

  /** Whatever the evidence, a draft with few enough actions has a run that succeeds, and whose response is
      rendered exactly if the references are at most 64. */
  lemma Succeeds(env: Env, d: ModelDraft, bundle: Bundle, many: nat) returns (trace: seq<State>)
    requires Viable(env, d, bundle) && SettingsFine(env) && |d.actions| <= env.maxRevision + 1 && 1 <= many <= 8
    ensures Run(env, trace)
    ensures var s := trace[|trace| - 1];
            && s.node.ResponseNode? && s.status.Succeeded? && s.plan.Some? && s.plan.value.actions == PlanFor(env, d).actions
            && (Renderable(s) <==> |d.criteria| * many <= 64)
  {
    var s := AllPass(env, d, bundle, many);
    PassRenders(env, s);
    trace := ReachedRun(env, s);
  }

  lemma PassRenders(env: Env, s: State)
    requires Reaches(env, s) && SettingsFine(env) && s.node.ResponseNode? && s.status.Succeeded?
    requires !BoundConflict(env, s)
    ensures Renderable(s) <==> |EvidenceIds(FinalCriteria(s))| <= 64
  {
    var trace := ReachedRun(env, s);
    ResponseAfterVerification(env, trace, |trace| - 1);
  }

  lemma Completes(env: Env, d: ModelDraft, bundle: Bundle) returns (trace: seq<State>)
    requires Viable(env, d, bundle) && SettingsFine(env) && |d.actions| <= env.maxRevision + 1
    ensures CarriesOut(env, trace, d)
  {
    var s := AllPass(env, d, bundle, 1);
    PassRenders(env, s);
    AfterResponse(env, s, s.(node := EndNode));
    trace := ReachedRun(env, s.(node := EndNode));
  }

  /** A draft that planning and validation accept can be carried out exactly if it has at most one action
      more than there may be revisions. */
  lemma CarriedOutExactly(env: Env, d: ModelDraft, bundle: Bundle)
    requires Viable(env, d, bundle) && SettingsFine(env)
    ensures (exists trace :: CarriesOut(env, trace, d)) <==> |d.actions| <= env.maxRevision + 1
  {
    if |d.actions| <= env.maxRevision + 1 {
      var trace := Completes(env, d, bundle);
    }
    forall trace | CarriesOut(env, trace, d) ensures |d.actions| <= env.maxRevision + 1 {
      CarriedOutIsShort(env, trace, d);
    }
  }

  lemma CarriedOutIsShort(env: Env, trace: seq<State>, d: ModelDraft)
    requires LabelsResolved(d.actions) && CriteriaResolved(d) && CarriesOut(env, trace, d) && env.maxRevision <= 2
    ensures |d.actions| <= env.maxRevision + 1
  {
    SuccessHasFewActions(env, trace, |trace| - 1);
  }

  // ---- limits that every draft can meet ------------------------------------------------------------------------------------------

  /** With fewer than two revisions configured every draft that needs them all can end, after nothing but
      time-outs, in evidence the response refuses. */
  lemma FailsUnrendered(env: Env, d: ModelDraft, bundle: Bundle) returns (trace: seq<State>)
    requires Viable(env, d, bundle) && SettingsFine(env) && env.maxRevision < 2 && env.maxRevision < |d.actions|
    ensures Run(env, trace)
    ensures var s := trace[|trace| - 1];
            s.node.ResponseNode? && s.status.RunFailed? && s.revision == env.maxRevision && BoundConflict(env, s) && !Renderable(s)
  {
    var t := FailsInConflict(env, d, bundle, env.maxRevision);
    trace := ReachedRun(env, t);
    ConflictUnrendered(env, trace);
  }

  lemma ConflictUnrendered(env: Env, trace: seq<State>)
    requires Run(env, trace) && SettingsFine(env) && FailedInConflict(env, trace[|trace| - 1])
    ensures !Renderable(trace[|trace| - 1])
  {
    ResponseAfterVerification(env, trace, |trace| - 1);
  }

  predicate FailedInConflict(env: Env, t: State) {
    t.node.ResponseNode? && t.status.RunFailed? && t.revision == env.maxRevision && BoundConflict(env, t)
  }

  lemma FailsInConflict(env: Env, d: ModelDraft, bundle: Bundle, n: nat) returns (t: State)
    requires Viable(env, d, bundle) && n == env.maxRevision < 2 && n < |d.actions|
    ensures Reaches(env, t) && FailedInConflict(env, t)
  {
    var s := AdvanceAndRun(env, d, bundle, n);
    t := ConflictReached(env, s, d, bundle, n + 1);
  }

  lemma ConflictReached(env: Env, s: State, d: ModelDraft, bundle: Bundle, n: nat) returns (t: State)
    requires Viable(env, d, bundle) && Reaches(env, s) && AtVerify(env, s, d, bundle, n) && s.revision == env.maxRevision < 2
    ensures Reaches(env, t) && FailedInConflict(env, t)
  {
    SizesOf(env, s.plan.value, d, bundle);
    t := TurnTimesOut(env, s, d, bundle, n);
    ConflictAfter(env, s, t, n);
  }

  lemma ConflictAfter(env: Env, s: State, t: State, at: int)
    requires s.plan.Some? && s.plan.value.criteria != [] && s.revision == env.maxRevision < 2 && t == AfterTimeOut(env, s, at)
    requires PassStored(env, t, TimedOutAggregate(env, s, at), TimedOutPass(VidOf(env, s), s.plan.value.criteria, s.results, at))
    ensures FailedInConflict(env, t)
  {
    TimedOutRecoverable(VidOf(env, s), s.plan.value.criteria, s.results, at, s.revision, 2);
  }

  lemma TurnPermitted(env: Env, s: State, d: ModelDraft, bundle: Bundle, n: nat, version: string)
    returns (t: State, request: ApprovalRequest)
    requires Viable(env, d, bundle) && Reaches(env, s) && AtPolicy(env, s, d, bundle, n)
    requires forall r :: r in s.resolutions ==> r.digest.version != version
    ensures Reaches(env, t) && t == Approved(Judged(env, s, Ask, version), request)
    ensures request.actionId == PlanFor(env, d).actions[0].id && request.digest.version == version
    ensures PauseRequest(env.identity, s.plan.value, UniformDecisions(env, s.plan.value.actions, Ask, version)) == Ok(request)
  {
    SizesOf(env, s.plan.value, d, bundle);
    t, request := ReachesPermission(env, s, version);
  }

  /** A turn in which policy asks for everything and the next action is the first of the plan. */
  lemma TurnAsked(env: Env, s: State, d: ModelDraft, bundle: Bundle, version: string) returns (t: State, request: ApprovalRequest)
    requires Viable(env, d, bundle) && Reaches(env, s) && AtPolicy(env, s, d, bundle, 0)
    requires forall r :: r in s.resolutions ==> r.digest.version != version
    ensures Reaches(env, t) && AtDispatch(env, t, d, bundle, 0) && t.revision == 0
    ensures t.resolutions.Keys == s.resolutions.Keys + {request} && request.digest.version == version
  {
    SizesOf(env, s.plan.value, d, bundle);
    SelectsOnCourse(env, s, d, bundle, 0);
    FitsOnCourse(env, s, d, bundle, 0);
    t, request := TurnPermitted(env, s, d, bundle, 0, version);
    ApprovedSelects(env, s, version, request, PlanFor(env, d).actions[0]);
    ApprovedAtDispatch(env, s, d, bundle, 0, version, request);
  }

  lemma FirstPermission(env: Env, d: ModelDraft, bundle: Bundle) returns (t: State)
    requires Viable(env, d, bundle)
    ensures Reaches(env, t) && AtDispatch(env, t, d, bundle, 0) && t.revision == 0
    ensures forall r :: r in t.resolutions ==> r.digest.version == "1.0.0"
  {
    var request;
    var s := StartsOnCourse(env, d, bundle);
    t, request := TurnAsked(env, s, d, bundle, "1.0.0");
    assert t.resolutions.Keys == {request};
  }

  lemma ApprovedAtDispatch(env: Env, s: State, d: ModelDraft, bundle: Bundle, n: nat, version: string, request: ApprovalRequest)
    requires Viable(env, d, bundle) && AtPolicy(env, s, d, bundle, n) && n < |PlanFor(env, d).actions|
    requires Selects(env, Approved(Judged(env, s, Ask, version), request), PlanFor(env, d).actions[n])
    ensures AtDispatch(env, Approved(Judged(env, s, Ask, version), request), d, bundle, n)
  {
    var t := Approved(Judged(env, s, Ask, version), request);
    assert t.node == DispatchNode && t.status == Executing && t.pending.Resolved?;
  }

  lemma SecondTurn(env: Env, d: ModelDraft, bundle: Bundle) returns (s: State)
    requires Viable(env, d, bundle) && 1 <= env.maxRevision <= 2
    ensures Reaches(env, s) && AtPolicy(env, s, d, bundle, 1)
    ensures forall r :: r in s.resolutions ==> r.digest.version == "1.0.0"
  {
    var t := FirstPermission(env, d, bundle);
    var u := TurnRuns(env, t, d, bundle, 0);
    s := NextTurn(env, u, d, bundle, 1);
  }

  /** What the second turn's dispatch finds: an approval for the action that has run. */
  ghost predicate AsksAgain(env: Env, s: State, d: ModelDraft, bundle: Bundle, request: ApprovalRequest)
    requires Viable(env, d, bundle)
  {
    && OnCourse(env, s, d, bundle, 1) && s.node.DispatchNode? && s.status.Executing?
    && s.decisions == UniformDecisions(env, s.plan.value.actions, Ask, "2.0.0")
    && PauseRequest(env.identity, s.plan.value, s.decisions) == Ok(request) && request.actionId == PlanFor(env, d).actions[0].id
    && s.pending == Resolved(ResultOf(Approves(request)))
  }

  lemma SecondPermission(env: Env, d: ModelDraft, bundle: Bundle) returns (s: State, request: ApprovalRequest)
    requires Viable(env, d, bundle) && 1 <= env.maxRevision <= 2
    ensures Reaches(env, s) && AsksAgain(env, s, d, bundle, request)
  {
    var t := SecondTurn(env, d, bundle);
    s, request := TurnPermitted(env, t, d, bundle, 1, "2.0.0");
  }

  lemma AskedAgainFacts(env: Env, s: State, d: ModelDraft, bundle: Bundle, request: ApprovalRequest)
    requires Viable(env, d, bundle) && AsksAgain(env, s, d, bundle, request) && |d.actions| >= 2
    ensures SelectAction(s.plan.value, s.results) == Ok(PlanFor(env, d).actions[1]) && request.actionId in ResultIds(s.results)
    ensures PlanFor(env, d).actions[1].id in DecisionByAction(s.decisions)
    ensures DecisionByAction(s.decisions)[PlanFor(env, d).actions[1].id].decision.Ask?
  {
    var actions := PlanFor(env, d).actions;
    SelectsOnCourse(env, s, d, bundle, 1);
    SuccessIds(env, actions, 1);
    assert ActionIds(actions)[..1][0] == actions[0].id;
    DecisionsAre(env, s.plan.value.actions, Ask, "2.0.0");
    DecisionIs(s.decisions, s.plan.value.actions, Ask, "2.0.0", actions[1]);
  }

  /** Every draft of two or more actions gets stuck when each must be asked: the second pause asks for the
      first action again, and with that approval the second action has no next step. */
  lemma SecondAskIsStuck(env: Env, d: ModelDraft, bundle: Bundle) returns (trace: seq<State>)
    requires Viable(env, d, bundle) && |d.actions| >= 2 && 1 <= env.maxRevision <= 2
    ensures Run(env, trace)
    ensures var s, actions := trace[|trace| - 1], PlanFor(env, d).actions;
            && s.node.DispatchNode? && s.plan.Some? && SelectAction(s.plan.value, s.results) == Ok(actions[1])
            && s.pending.Resolved? && s.pending.result.outcome.OutcomeApproved? && s.pending.result.actionId == actions[0].id
            && forall input :: Step(env, s, input).None?
  {
    var s, request := SecondPermission(env, d, bundle);
    trace := ReachedRun(env, s);
    AskedAgainFacts(env, s, d, bundle, request);
    forall input ensures Step(env, s, input).None? {
      LaterAskIsStuck(env, trace, |trace| - 1, PlanFor(env, d).actions[1], input);
    }
  }

  // ---- a denial after a revision ---------------------------------------------------------------------------------------------------

  /** The second plan goes on from the first action of the first one. */
  ghost predicate Continues(p: Plan, q: Plan) {
    && p.actions != [] && q.actions != [] && p.actions[0] == q.actions[0]
    && forall c: Criterion :: c.actionId == p.actions[0].id ==> multiset(p.criteria)[c] == multiset(q.criteria)[c]
  }

  /** The plan that results from offering another draft once the first action has run. */
  function Continued(p: Plan, q: Plan, ids: set<Id>): Plan {
    q.(criteria := CriteriaWhere(p.criteria, ids, true) + CriteriaWhere(q.criteria, ids, false))
  }

  lemma ContinuedCriteria(p: Plan, q: Plan, ids: set<Id>)
    requires Continues(p, q) && ids == {p.actions[0].id}
    ensures multiset(Continued(p, q, ids).criteria) == multiset(q.criteria)
  {
    var kept, added := CriteriaWhere(p.criteria, ids, true), CriteriaWhere(q.criteria, ids, false);
    assert multiset(kept + added) == multiset(kept) + multiset(added);
    forall c ensures multiset(kept + added)[c] == multiset(q.criteria)[c] {
      WhereCount(p.criteria, ids, true, c);
      WhereCount(q.criteria, ids, false, c);
    }
  }

  lemma FirstId(actions: seq<PlanAction>)
    requires actions != []
    ensures SetOf(ActionIds(actions)[..1]) == {actions[0].id} && actions[..1] == [actions[0]]
  {
    assert ActionIds(actions)[..1] == [actions[0].id];
  }

  lemma FirstAgrees(p: Plan, q: Plan)
    requires Continues(p, q) && Distinct(ActionIds(p.actions)) && Distinct(ActionIds(q.actions))
    ensures !Contradicts(q, p, {p.actions[0].id})
  {
    UniqueById(p.actions, p.actions[0]);
    UniqueById(q.actions, q.actions[0]);
  }

  lemma ContinuedMerges(env: Env, p: Plan, q: Plan)
    requires Continues(p, q) && Distinct(ActionIds(p.actions)) && Distinct(ActionIds(q.actions))
    ensures MergeExecutedPlan(q, p, Successes(env, p.actions, 1)) == Ok(Continued(p, q, {p.actions[0].id}))
  {
    FirstId(p.actions);
    FirstId(q.actions);
    SuccessIds(env, p.actions, 1);
    PrefixWhere(p.actions, 1);
    PrefixWhere(q.actions, 1);
    TakeDrop(q.actions, 1);
    FirstAgrees(p, q);
    MergedIs(q, p, Successes(env, p.actions, 1), {p.actions[0].id});
  }

  lemma ContinuedAccepted(env: Env, p: Plan, q: Plan, bundle: Bundle)
    requires Continues(p, q) && Accepted(p, bundle, env.validation) && Accepted(q, bundle, env.validation)
    requires p.objective == q.objective && |p.actions| != |q.actions|
    ensures var r := Continued(p, q, {p.actions[0].id});
            Accepted(r, bundle, env.validation) && RevisionAccepted(r, p, Successes(env, p.actions, 1), bundle, env.validation)
  {
    var r := Continued(p, q, {p.actions[0].id});
    ContinuedCriteria(p, q, {p.actions[0].id});
    AcceptedReordered(q, r, bundle, env.validation);
    ContinuedMerges(env, p, q);
    SuccessIds(env, p.actions, 1);
    SuccessesSucceeded(env, p.actions, 1);
    PrefixOfIds(p.actions, 1);
    MergeKeepsExecuted(q, p, Successes(env, p.actions, 1));
  }

  /** The first turn of one draft, revised to another. */
  lemma RevisedToAnother(env: Env, d: ModelDraft, e: ModelDraft, bundle: Bundle) returns (s: State)
    requires Viable(env, d, bundle) && Viable(env, e, bundle) && 1 <= env.maxRevision <= 2
    requires Continues(PlanFor(env, d), PlanFor(env, e)) && |d.actions| != |e.actions|
    ensures Reaches(env, s) && s.node.PolicyNode? && s.status.Planning? && s.decisions == [] && s.revision == 1
    ensures s.plan.Some? && |s.plan.value.actions| == |e.actions|
    ensures LastAggregate(s.entries).Some? && |LastAggregate(s.entries).value.verification.plan.actions| == |d.actions|
  {
    var t := FirstTimeOut(env, d, bundle);
    var p, q := PlanFor(env, d), PlanFor(env, e);
    var r := Continued(p, q, {p.actions[0].id});
    ContinuedMerges(env, p, q);
    ContinuedAccepted(env, p, q, bundle);
    ReachesRevised(env, t, e, bundle, r);
    s := Revised(t, r);
  }

  /** A state of the first turn on this plan. */
  predicate FirstOf(s: State, plan: Plan) {
    s.revision == 0 && s.plan == Some(plan)
  }

  lemma FirstDispatch(env: Env, d: ModelDraft, bundle: Bundle) returns (t: State)
    requires Viable(env, d, bundle)
    ensures Reaches(env, t) && AtDispatch(env, t, d, bundle, 0) && FirstOf(t, PlanFor(env, d))
  {
    var s := StartsOnCourse(env, d, bundle);
    TurnAllowed(env, s, d, bundle, 0);
    t := Judged(env, s, Allow, "1.0.0");
  }

  lemma FirstRun(env: Env, d: ModelDraft, bundle: Bundle) returns (u: State)
    requires Viable(env, d, bundle)
    ensures Reaches(env, u) && AtVerify(env, u, d, bundle, 1) && FirstOf(u, PlanFor(env, d))
  {
    var t := FirstDispatch(env, d, bundle);
    u := TurnRuns(env, t, d, bundle, 0);
  }

  lemma FirstTimeOut(env: Env, d: ModelDraft, bundle: Bundle) returns (t: State)
    requires Viable(env, d, bundle) && 1 <= env.maxRevision <= 2
    ensures Reaches(env, t) && t.node.ReviseNode? && t.revision == 0 && t.plan == Some(PlanFor(env, d))
    ensures t.results == Successes(env, PlanFor(env, d).actions, 1)
    ensures LastAggregate(t.entries).Some? && LastAggregate(t.entries).value.verification.plan == PlanFor(env, d)
  {
    var u := FirstRun(env, d, bundle);
    t := TurnTimesOut(env, u, d, bundle, 1);
  }

  lemma DeniedAfterRevision(env: Env, d: ModelDraft, e: ModelDraft, bundle: Bundle) returns (s: State)
    requires Viable(env, d, bundle) && Viable(env, e, bundle) && 1 <= env.maxRevision <= 2
    requires Continues(PlanFor(env, d), PlanFor(env, e)) && |d.actions| != |e.actions|
    ensures Reaches(env, s) && s.node.ResponseNode? && s.status.Denied? && s.revision == 1
    ensures s.plan.Some? && LastAggregate(s.entries).Some? && !SameCriteria(s)
  {
    var t := RevisedToAnother(env, d, e, bundle);
    ReachesJudged(env, t, Deny, "1.0.0");
    DenialKeeps(env, t);
    s := Judged(env, t, Deny, "1.0.0");
  }

  lemma DenialKeeps(env: Env, t: State)
    requires t.plan.Some? && LastAggregate(t.entries).Some?
    requires |t.plan.value.actions| != |LastAggregate(t.entries).value.verification.plan.actions|
    ensures var s := Judged(env, t, Deny, "1.0.0");
            && s.node.ResponseNode? && s.status.Denied? && s.revision == t.revision
            && s.plan.Some? && LastAggregate(s.entries).Some? && !SameCriteria(s)
  {
    var s := Judged(env, t, Deny, "1.0.0");
    assert s.node == ResponseNode && s.status == Denied && s.plan == t.plan && s.entries == t.entries;
  }

  /** Whenever a revision changes the number of actions and policy denies the revised plan, the response
      refuses the evidence of the first plan. */
  lemma DeniedUnrendered(env: Env, d: ModelDraft, e: ModelDraft, bundle: Bundle) returns (trace: seq<State>)
    requires Viable(env, d, bundle) && Viable(env, e, bundle) && SettingsFine(env) && env.maxRevision >= 1
    requires Continues(PlanFor(env, d), PlanFor(env, e)) && |d.actions| != |e.actions|
    ensures Run(env, trace)
    ensures var s := trace[|trace| - 1];
            s.node.ResponseNode? && s.status.Denied? && s.revision == 1 && !Renderable(s)
  {
    var s := DeniedAfterRevision(env, d, e, bundle);
    trace := ReachedRun(env, s);
    ResponseAfterDenial(env, trace, |trace| - 1);
  }
}
