/** Revising a plan: executed actions are merged back unchanged and everything else may be replaced. */
module Revision {
  import opened Collections
  import opened PlanModel
  import opened TopologicalOrder
  import opened CriticalPath
  import opened PlanValidation
  import opened Verification
  import opened Dispatch

  // ---- the merge ----------------------------------------------------------------------------------

  function ActionsWhere(actions: seq<PlanAction>, ids: set<Id>, wanted: bool): (r: seq<PlanAction>)
    ensures forall a :: a in r <==> a in actions && (a.id in ids) == wanted
  {
    if actions == [] then []
    else
      var rest := ActionsWhere(actions[..|actions| - 1], ids, wanted);
      var last := actions[|actions| - 1];
      assert actions == actions[..|actions| - 1] + [last];
      if (last.id in ids) == wanted then rest + [last] else rest
  }

  function CriteriaWhere(criteria: seq<Criterion>, ids: set<Id>, wanted: bool): (r: seq<Criterion>)
    ensures forall c :: c in r <==> c in criteria && (c.actionId in ids) == wanted
  {
    if criteria == [] then []
    else
      var rest := CriteriaWhere(criteria[..|criteria| - 1], ids, wanted);
      var last := criteria[|criteria| - 1];
      assert criteria == criteria[..|criteria| - 1] + [last];
      if (last.actionId in ids) == wanted then rest + [last] else rest
  }

  /** An executed action the candidate lists under the same id with other content. */
  predicate Contradicts(candidate: Plan, plan: Plan, executed: set<Id>) {
    exists id :: id in executed && id in ById(candidate.actions) && id in ById(plan.actions)
      && ById(candidate.actions)[id] != ById(plan.actions)[id]
  }

  /** Executed actions and criteria first, from the current plan; everything else from the candidate. */
  function MergeExecutedPlan(candidate: Plan, plan: Plan, results: seq<ActionResult>): Result<Plan> {
    var executed := SetOf(ResultIds(results));
    if Contradicts(candidate, plan, executed) then Err(RevisionExecutedActionChanged)
    else Ok(candidate.(
      actions := ActionsWhere(plan.actions, executed, true) + ActionsWhere(candidate.actions, executed, false),
      criteria := CriteriaWhere(plan.criteria, executed, true) + CriteriaWhere(candidate.criteria, executed, false)))
  }

  // ---- what a revision must meet --------------------------------------------------------------------

  /** The criteria of one action as identifiers with codes. */
  function CriteriaOfAction(criteria: seq<Criterion>, actionId: Id): set<(Id, string)> {
    set i | 0 <= i < |criteria| && criteria[i].actionId == actionId :: (criteria[i].id, criteria[i].code)
  }

  predicate KeptAction(revised: Plan, plan: Plan, id: Id) {
    && id in ById(revised.actions) && id in ById(plan.actions)
    && ById(revised.actions)[id] == ById(plan.actions)[id]
    && CriteriaOfAction(revised.criteria, id) == CriteriaOfAction(plan.criteria, id)
  }

  /** Every action with a result stays, unchanged and with the same criteria. */
  predicate ExecutedKept(revised: Plan, plan: Plan, results: seq<ActionResult>) {
    forall i :: 0 <= i < |results| ==> KeptAction(revised, plan, results[i].actionId)
  }

  function UnsuccessfulIds(results: seq<ActionResult>): set<Id> {
    set i | 0 <= i < |results| && !results[i].outcome.ActionSucceeded? :: results[i].actionId
  }

  /** No action without a result depends on one that ended without success. */
  predicate NoPendingOnUnsuccessful(actions: seq<PlanAction>, results: seq<ActionResult>) {
    forall i :: 0 <= i < |actions| && actions[i].id !in ResultByAction(results) ==>
      SetOf(actions[i].dependencies) * UnsuccessfulIds(results) == {}
  }

  ghost predicate RevisionAccepted(revised: Plan, plan: Plan, results: seq<ActionResult>, bundle: Bundle, s: ValidationSettings) {
    && Accepted(revised, bundle, s)
    && revised != plan && revised.objective == plan.objective
    && ExecutedKept(revised, plan, results)
    && NoPendingOnUnsuccessful(revised.actions, results)
  }

  // ---- the merge meets the executed-action rule -------------------------------------------------------

  lemma LookupMember(actions: seq<PlanAction>, a: PlanAction)
    requires a in actions && forall b :: b in actions && b.id == a.id ==> b == a
    ensures a.id in ById(actions) && ById(actions)[a.id] == a
  {
  }

  lemma MergedAction(candidate: Plan, plan: Plan, results: seq<ActionResult>, id: Id)
    requires MergeExecutedPlan(candidate, plan, results).Ok? && Distinct(ActionIds(plan.actions))
    requires id in SetOf(ResultIds(results)) && id in ById(plan.actions)
    ensures var merged := MergeExecutedPlan(candidate, plan, results).value;
            id in ById(merged.actions) && ById(merged.actions)[id] == ById(plan.actions)[id]
  {
    var executed := SetOf(ResultIds(results));
    var merged := MergeExecutedPlan(candidate, plan, results).value;
    var a := ById(plan.actions)[id];
    assert a in ActionsWhere(plan.actions, executed, true);
    forall b | b in merged.actions && b.id == id ensures b == a {
      SameAction(plan.actions, a, b);
    }
    LookupMember(merged.actions, a);
  }

  lemma CriteriaOfWhere(criteria: seq<Criterion>, ids: set<Id>, wanted: bool, id: Id)
    ensures CriteriaOfAction(CriteriaWhere(criteria, ids, wanted), id)
         == if (id in ids) == wanted then CriteriaOfAction(criteria, id) else {}
  {
    var kept := CriteriaWhere(criteria, ids, wanted);
    forall p ensures p in CriteriaOfAction(kept, id) <==> (id in ids) == wanted && p in CriteriaOfAction(criteria, id) {
      if p in CriteriaOfAction(kept, id) {
        var i :| 0 <= i < |kept| && kept[i].actionId == id && p == (kept[i].id, kept[i].code);
        assert kept[i] in criteria;
      }
      if (id in ids) == wanted && p in CriteriaOfAction(criteria, id) {
        var i :| 0 <= i < |criteria| && criteria[i].actionId == id && p == (criteria[i].id, criteria[i].code);
        assert criteria[i] in kept;
      }
    }
  }

  lemma CriteriaOfConcat(a: seq<Criterion>, b: seq<Criterion>, id: Id)
    ensures CriteriaOfAction(a + b, id) == CriteriaOfAction(a, id) + CriteriaOfAction(b, id)
  {
    var all := a + b;
    forall p ensures p in CriteriaOfAction(all, id) <==> p in CriteriaOfAction(a, id) || p in CriteriaOfAction(b, id) {
      if p in CriteriaOfAction(a, id) {
        var i :| 0 <= i < |a| && a[i].actionId == id && p == (a[i].id, a[i].code);
        assert all[i] == a[i];
      }
      if p in CriteriaOfAction(b, id) {
        var i :| 0 <= i < |b| && b[i].actionId == id && p == (b[i].id, b[i].code);
        assert all[|a| + i] == b[i];
      }
    }
  }

  /** Whatever the model proposes, a merge that succeeds keeps every executed action and its criteria:
      the later executed-action check of the revision never fails on it. */
  lemma MergeKeepsExecuted(candidate: Plan, plan: Plan, results: seq<ActionResult>)
    requires Distinct(ActionIds(plan.actions)) && SetOf(ResultIds(results)) <= SetOf(ActionIds(plan.actions))
    requires MergeExecutedPlan(candidate, plan, results).Ok?
    ensures ExecutedKept(MergeExecutedPlan(candidate, plan, results).value, plan, results)
  {
    IdsCardinality(plan.actions);
    forall i | 0 <= i < |results|
      ensures KeptAction(MergeExecutedPlan(candidate, plan, results).value, plan, results[i].actionId)
    {
      assert ResultIds(results)[i] == results[i].actionId;
      MergedAction(candidate, plan, results, results[i].actionId);
      MergedCriteria(candidate, plan, SetOf(ResultIds(results)), results[i].actionId);
    }
  }

  lemma MergedCriteria(candidate: Plan, plan: Plan, executed: set<Id>, id: Id)
    requires id in executed
    ensures CriteriaOfAction(CriteriaWhere(plan.criteria, executed, true) + CriteriaWhere(candidate.criteria, executed, false), id)
         == CriteriaOfAction(plan.criteria, id)
  {
    CriteriaOfWhere(plan.criteria, executed, true, id);
    CriteriaOfWhere(candidate.criteria, executed, false, id);
    CriteriaOfConcat(CriteriaWhere(plan.criteria, executed, true), CriteriaWhere(candidate.criteria, executed, false), id);
  }

  /** Actions of a merge: the executed ones of the plan and the others of the candidate, nothing else. */
  lemma MergedFrom(candidate: Plan, plan: Plan, results: seq<ActionResult>, a: PlanAction)
    requires MergeExecutedPlan(candidate, plan, results).Ok?
    ensures a in MergeExecutedPlan(candidate, plan, results).value.actions
       <==> if a.id in SetOf(ResultIds(results)) then a in plan.actions else a in candidate.actions
  {
  }

  lemma {:induction false} WhereAgain(actions: seq<PlanAction>, ids: set<Id>, wanted: bool)
    ensures ActionsWhere(ActionsWhere(actions, ids, wanted), ids, wanted) == ActionsWhere(actions, ids, wanted)
    ensures ActionsWhere(ActionsWhere(actions, ids, wanted), ids, !wanted) == []
  {
    if actions != [] {
      WhereAgain(actions[..|actions| - 1], ids, wanted);
      var kept := ActionsWhere(actions, ids, wanted);
      if (actions[|actions| - 1].id in ids) == wanted {
        assert kept[..|kept| - 1] == ActionsWhere(actions[..|actions| - 1], ids, wanted);
      }
    }
  }

  lemma {:induction false} CriteriaWhereAgain(criteria: seq<Criterion>, ids: set<Id>, wanted: bool)
    ensures CriteriaWhere(CriteriaWhere(criteria, ids, wanted), ids, wanted) == CriteriaWhere(criteria, ids, wanted)
    ensures CriteriaWhere(CriteriaWhere(criteria, ids, wanted), ids, !wanted) == []
  {
    if criteria != [] {
      CriteriaWhereAgain(criteria[..|criteria| - 1], ids, wanted);
      var kept := CriteriaWhere(criteria, ids, wanted);
      if (criteria[|criteria| - 1].actionId in ids) == wanted {
        assert kept[..|kept| - 1] == CriteriaWhere(criteria[..|criteria| - 1], ids, wanted);
      }
    }
  }

  lemma {:induction false} WhereConcat(a: seq<PlanAction>, b: seq<PlanAction>, ids: set<Id>, wanted: bool)
    ensures ActionsWhere(a + b, ids, wanted) == ActionsWhere(a, ids, wanted) + ActionsWhere(b, ids, wanted)
  {
    if b == [] {
      assert a + b == a;
    } else {
      WhereConcat(a, b[..|b| - 1], ids, wanted);
      ConcatInit(a, b);
    }
  }

  lemma ConcatInit<T>(a: seq<T>, b: seq<T>)
    requires b != []
    ensures (a + b)[..|a + b| - 1] == a + b[..|b| - 1] && (a + b)[|a + b| - 1] == b[|b| - 1]
  {
  }

  lemma {:induction false} CriteriaWhereConcat(a: seq<Criterion>, b: seq<Criterion>, ids: set<Id>, wanted: bool)
    ensures CriteriaWhere(a + b, ids, wanted) == CriteriaWhere(a, ids, wanted) + CriteriaWhere(b, ids, wanted)
  {
    if b == [] {
      assert a + b == a;
    } else {
      CriteriaWhereConcat(a, b[..|b| - 1], ids, wanted);
      ConcatInit(a, b);
    }
  }

  lemma MergedAgrees(candidate: Plan, plan: Plan, results: seq<ActionResult>)
    requires Distinct(ActionIds(plan.actions)) && MergeExecutedPlan(candidate, plan, results).Ok?
    ensures !Contradicts(MergeExecutedPlan(candidate, plan, results).value, plan, SetOf(ResultIds(results)))
  {
    var merged := MergeExecutedPlan(candidate, plan, results).value;
    forall id | id in SetOf(ResultIds(results)) && id in ById(merged.actions) && id in ById(plan.actions)
      ensures ById(merged.actions)[id] == ById(plan.actions)[id]
    {
      MergedAction(candidate, plan, results, id);
    }
  }

  lemma MergedPending(candidate: Plan, plan: Plan, ids: set<Id>)
    ensures ActionsWhere(ActionsWhere(plan.actions, ids, true) + ActionsWhere(candidate.actions, ids, false), ids, false)
         == ActionsWhere(candidate.actions, ids, false)
    ensures CriteriaWhere(CriteriaWhere(plan.criteria, ids, true) + CriteriaWhere(candidate.criteria, ids, false), ids, false)
         == CriteriaWhere(candidate.criteria, ids, false)
  {
    WhereAgain(plan.actions, ids, true);
    WhereAgain(candidate.actions, ids, false);
    WhereConcat(ActionsWhere(plan.actions, ids, true), ActionsWhere(candidate.actions, ids, false), ids, false);
    CriteriaWhereAgain(plan.criteria, ids, true);
    CriteriaWhereAgain(candidate.criteria, ids, false);
    CriteriaWhereConcat(CriteriaWhere(plan.criteria, ids, true), CriteriaWhere(candidate.criteria, ids, false), ids, false);
  }

  /** Merging is idempotent: a merged plan offered again merges to itself. */
  lemma MergeIdempotent(candidate: Plan, plan: Plan, results: seq<ActionResult>)
    requires Distinct(ActionIds(plan.actions)) && MergeExecutedPlan(candidate, plan, results).Ok?
    ensures MergeExecutedPlan(MergeExecutedPlan(candidate, plan, results).value, plan, results)
         == MergeExecutedPlan(candidate, plan, results)
  {
    MergedAgrees(candidate, plan, results);
    MergedPending(candidate, plan, SetOf(ResultIds(results)));
  }

  // ---- an accepted revision can go on ------------------------------------------------------------------

  lemma SameResult(results: seq<ActionResult>, i: nat, j: nat)
    requires Distinct(ResultIds(results)) && i < |results| && j < |results|
    requires results[i].actionId == results[j].actionId
    ensures i == j
  {
    assert ResultIds(results)[i] == ResultIds(results)[j];
  }

  lemma SucceededOrNot(results: seq<ActionResult>, d: Id)
    requires Distinct(ResultIds(results)) && d in ResultIds(results)
    ensures d in SucceededIds(results) <==> d !in UnsuccessfulIds(results)
  {
    var i :| 0 <= i < |results| && results[i].actionId == d;
    forall j | 0 <= j < |results| && results[j].actionId == d ensures j == i {
      SameResult(results, i, j);
    }
  }

  /** The revision rule on unsuccessful dependencies is what selection needs to make progress. */
  lemma AcceptedRevisionIsClear(actions: seq<PlanAction>, results: seq<ActionResult>)
    requires Distinct(ResultIds(results)) && NoPendingOnUnsuccessful(actions, results)
    ensures PendingClear(actions, results)
  {
    ResultKeys(results);
    forall i, d | 0 <= i < |actions| && actions[i].id !in ResultIds(results)
                  && d in actions[i].dependencies && d in ResultIds(results)
      ensures d in SucceededIds(results)
    {
      assert d !in SetOf(actions[i].dependencies) * UnsuccessfulIds(results);
      SucceededOrNot(results, d);
    }
  }

  /** After an accepted revision, or for an accepted plan nothing of which has run, selection finds an
      action unless every action already has a result. */
  lemma RevisionProgress(revised: Plan, plan: Plan, results: seq<ActionResult>, bundle: Bundle, s: ValidationSettings)
    requires Distinct(ResultIds(results))
    requires RevisionAccepted(revised, plan, results, bundle, s) || (Accepted(revised, bundle, s) && results == [])
    ensures SelectAction(revised, results).Ok? <==> SetOf(ActionIds(revised.actions)) != SetOf(ResultIds(results))
    ensures SelectAction(revised, results).Err? ==> SelectAction(revised, results).error == DispatchPlanComplete
  {
    if results != [] {
      AcceptedRevisionIsClear(revised.actions, results);
      KeptIds(revised, plan, results);
    }
    SelectionProgress(revised, results);
  }

  lemma KeptIds(revised: Plan, plan: Plan, results: seq<ActionResult>)
    requires ExecutedKept(revised, plan, results)
    ensures SetOf(ResultIds(results)) <= SetOf(ActionIds(revised.actions))
  {
    IdsCardinality(revised.actions);
    forall id | id in ResultIds(results) ensures id in ById(revised.actions) {
      var i :| 0 <= i < |results| && ResultIds(results)[i] == id;
      assert KeptAction(revised, plan, results[i].actionId);
    }
  }

  // ---- evidence for a revision ---------------------------------------------------------------------------

  /** The observations of the graph state, in the order they were appended. */
  datatype Entry = CriterionEntry(o: Observation) | AggregateEntry(a: Aggregate)

  function AggregatesAt(entries: seq<Entry>, revision: int): seq<Aggregate> {
    if entries == [] then []
    else
      var rest := AggregatesAt(entries[..|entries| - 1], revision);
      var last := entries[|entries| - 1];
      if last.AggregateEntry? && last.a.revision == revision then rest + [last.a] else rest
  }

  function CriteriaOfPass(entries: seq<Entry>, vid: VerificationId): seq<Observation> {
    if entries == [] then []
    else
      var rest := CriteriaOfPass(entries[..|entries| - 1], vid);
      var last := entries[|entries| - 1];
      if last.CriterionEntry? && last.o.verification == vid then rest + [last.o] else rest
  }

  function CriteriaIn(entries: seq<Entry>): seq<Observation> {
    if entries == [] then []
    else
      var rest := CriteriaIn(entries[..|entries| - 1]);
      if entries[|entries| - 1].CriterionEntry? then rest + [entries[|entries| - 1].o] else rest
  }

  function OfPass(criteria: seq<Observation>, vid: VerificationId): seq<Observation> {
    if criteria == [] then []
    else
      var rest := OfPass(criteria[..|criteria| - 1], vid);
      if criteria[|criteria| - 1].verification == vid then rest + [criteria[|criteria| - 1]] else rest
  }

  lemma {:induction false} OfPassOfAll(entries: seq<Entry>, vid: VerificationId)
    ensures OfPass(CriteriaIn(entries), vid) == CriteriaOfPass(entries, vid)
  {
    if entries != [] {
      OfPassOfAll(entries[..|entries| - 1], vid);
      var all := CriteriaIn(entries);
      if entries[|entries| - 1].CriterionEntry? {
        assert all[..|all| - 1] == CriteriaIn(entries[..|entries| - 1]);
      }
    }
  }

  datatype Evidence = NoEvidence | Evidence(criteria: seq<Observation>, aggregate: Aggregate)

  /** The evidence of the current revision: one aggregate with the criteria of its pass, re-checked
      with a bound of two revisions; an error if there are several or the check fails. */
  function EvidenceFor(entries: seq<Entry>, revision: int, plan: Plan, results: seq<ActionResult>): Option<Evidence> {
    var aggregates := AggregatesAt(entries, revision);
    if |aggregates| > 1 then None
    else if aggregates == [] then Some(NoEvidence)
    else
      var matching := CriteriaOfPass(entries, aggregates[0].verification);
      if SemanticsValid(aggregates[0], matching, plan, results, 2) then Some(Evidence(matching, aggregates[0])) else None
  }

  method LoadVerification(entries: seq<Entry>, revision: int, plan: Plan, results: seq<ActionResult>) returns (r: Option<Evidence>)
    ensures r == EvidenceFor(entries, revision, plan, results)
  {
    var aggregates: seq<Aggregate> := [];
    var criteria: seq<Observation> := [];
    for i := 0 to |entries|
      invariant aggregates == AggregatesAt(entries[..i], revision)
      invariant criteria == CriteriaIn(entries[..i])
    {
      assert entries[..i + 1][..i] == entries[..i];
      match entries[i]
      case AggregateEntry(a) =>
        if a.revision == revision { aggregates := aggregates + [a]; }
      case CriterionEntry(o) =>
        criteria := criteria + [o];
    }
    assert entries[..|entries|] == entries;
    if |aggregates| > 1 { return None; }
    if |aggregates| == 0 { return Some(NoEvidence); }
    var aggregate := aggregates[0];
    var matching: seq<Observation> := [];
    for i := 0 to |criteria|
      invariant matching == OfPass(criteria[..i], aggregate.verification)
    {
      assert criteria[..i + 1][..i] == criteria[..i];
      if criteria[i].verification == aggregate.verification { matching := matching + [criteria[i]]; }
    }
    assert criteria[..|criteria|] == criteria;
    OfPassOfAll(entries, aggregate.verification);
    if !SemanticsValid(aggregate, matching, plan, results, 2) { return None; }
    return Some(Evidence(matching, aggregate));
  }
}
