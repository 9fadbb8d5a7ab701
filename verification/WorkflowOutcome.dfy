/** What the evidence of a run supports: when it may revise, when it may report success, when it can report at all. */
module WorkflowOutcome {
  import opened Collections
  import opened PlanModel
  import opened TopologicalOrder
  import opened CriticalPath
  import opened PlanValidation
  import opened PlanDrafting
  import opened Policy
  import opened Verification
  import opened Dispatch
  import opened Revision
  import opened Workflow
  import opened WorkflowBounds
  import opened WorkflowSafety

  // ---- one evidence, other bounds and other plans ------------------------------------------------------

  /** A verification made under a smaller revision bound reads differently under a bound of two exactly
      when its issues are all retryable and only the smaller bound is used up. */
  lemma BoundMatters(a: Aggregate, observations: seq<Observation>, plan: Plan, results: seq<ActionResult>, maxRevision: int)
    requires SemanticsValid(a, observations, plan, results, maxRevision) && maxRevision <= 2
    ensures SemanticsValid(a, observations, plan, results, 2)
       <==> !(maxRevision <= a.revision < 2 && Recoverable(observations, a.revision, 2))
    ensures a.recoverable ==> SemanticsValid(a, observations, plan, results, 2) && a.revision < maxRevision
  {
  }

  /** Evidence for one plan fits another exactly when the two have the same criteria, by id, and as many
      actions. */
  lemma EvidenceFitsOtherPlan(a: Aggregate, observations: seq<Observation>, plan: Plan, other: Plan, results: seq<ActionResult>,
                              maxRevision: int)
    requires SemanticsValid(a, observations, plan, results, maxRevision)
    ensures SemanticsValid(a, observations, other, results, maxRevision)
       <==> ExpectedOf(other.criteria) == ExpectedOf(plan.criteria) && |other.actions| == |plan.actions|
  {
    if SemanticsValid(a, observations, other, results, maxRevision) {
      SameExpectation(a, observations, plan, other, results, maxRevision);
    }
  }

  lemma SameExpectation(a: Aggregate, observations: seq<Observation>, plan: Plan, other: Plan, results: seq<ActionResult>, maxRevision: int)
    requires SemanticsValid(a, observations, plan, results, maxRevision) && SemanticsValid(a, observations, other, results, maxRevision)
    ensures ExpectedOf(other.criteria) == ExpectedOf(plan.criteria)
  {
    var m, n, byAction := ExpectedOf(plan.criteria), ExpectedOf(other.criteria), ResultByAction(results);
    forall k | 0 <= k < |observations| ensures FitsBoth(observations[k], m, n) {
      FitsDetermines(observations[k], a.verification, m, n, byAction);
    }
    SameByObservation(observations, m, n);
  }

  /** The observation answers one criterion, the same in both. */
  predicate FitsBoth(o: Observation, m: map<Id, Criterion>, n: map<Id, Criterion>) {
    o.criterionId in m && o.criterionId in n && m[o.criterionId] == n[o.criterionId]
  }

  lemma FitsDetermines(o: Observation, vid: VerificationId, m: map<Id, Criterion>, n: map<Id, Criterion>, byAction: map<Id, ActionResult>)
    requires ObservationFits(o, vid, m, byAction) && ObservationFits(o, vid, n, byAction)
    requires m[o.criterionId].id == o.criterionId && n[o.criterionId].id == o.criterionId
    ensures FitsBoth(o, m, n)
  {
  }

  lemma SameByObservation(observations: seq<Observation>, m: map<Id, Criterion>, n: map<Id, Criterion>)
    requires SetOf(ObservedIds(observations)) == m.Keys == n.Keys
    requires forall k :: 0 <= k < |observations| ==> FitsBoth(observations[k], m, n)
    ensures n == m
  {
    forall id | id in m ensures id in n && m[id] == n[id] {
      assert id in SetOf(ObservedIds(observations));
      var k :| 0 <= k < |observations| && observations[k].criterionId == id;
      assert FitsBoth(observations[k], m, n);
    }
    SameMap(n, m);
  }

  // ---- what one pass appends -----------------------------------------------------------------------------

  function RevisionOf(e: Entry): int {
    match e case CriterionEntry(o) => o.verification.revision case AggregateEntry(a) => a.verification.revision
  }

  predicate EntryFine(e: Entry, horizon: int) {
    0 <= RevisionOf(e) < horizon
    && (e.AggregateEntry? ==> e.a.revision == e.a.verification.revision && Verification.AggregateValid(e.a))
  }

  lemma {:induction false} NothingBefore(entries: seq<Entry>, vid: VerificationId)
    requires forall i :: 0 <= i < |entries| ==> EntryFine(entries[i], vid.revision)
    ensures AggregatesAt(entries, vid.revision) == [] && CriteriaOfPass(entries, vid) == []
  {
    if entries != [] { NothingBefore(entries[..|entries| - 1], vid); }
  }

  lemma {:induction false} CriteriaAppended(entries: seq<Entry>, criteria: seq<Observation>, vid: VerificationId)
    requires AggregatesAt(entries, vid.revision) == [] && CriteriaOfPass(entries, vid) == []
    requires forall i :: 0 <= i < |criteria| ==> criteria[i].verification == vid
    ensures AggregatesAt(entries + CriterionEntries(criteria), vid.revision) == []
    ensures CriteriaOfPass(entries + CriterionEntries(criteria), vid) == criteria
  {
    if criteria == [] {
      assert entries + CriterionEntries(criteria) == entries;
    } else {
      CriteriaAppended(entries, criteria[..|criteria| - 1], vid);
      LastEntry(criteria);
      ConcatInit(entries, CriterionEntries(criteria));
    }
  }

  lemma LastEntry(criteria: seq<Observation>)
    requires criteria != []
    ensures var entries, n := CriterionEntries(criteria), |criteria| - 1;
            entries != [] && entries[..|entries| - 1] == CriterionEntries(criteria[..n]) && entries[|entries| - 1] == CriterionEntry(criteria[n])
  {
  }

  /** Looking a pass up by its id, or its aggregate by revision, finds exactly what that pass stored. */
  lemma PassFound(entries: seq<Entry>, criteria: seq<Observation>, a: Aggregate)
    requires a.revision == a.verification.revision
    requires forall i :: 0 <= i < |entries| ==> EntryFine(entries[i], a.revision)
    requires forall i :: 0 <= i < |criteria| ==> criteria[i].verification == a.verification
    ensures var after := entries + CriterionEntries(criteria) + [AggregateEntry(a)];
            && AggregatesAt(after, a.revision) == [a]
            && CriteriaOfPass(after, a.verification) == criteria
            && LastAggregate(after) == Some(a)
  {
    NothingBefore(entries, a.verification);
    CriteriaAppended(entries, criteria, a.verification);
    var before := entries + CriterionEntries(criteria);
    assert (before + [AggregateEntry(a)])[..|before|] == before;
  }

  // ---- the evidence invariant -------------------------------------------------------------------------------

  /** The current revision has been verified. */
  predicate PassDone(s: State) {
    s.node.ReviseNode? || ((s.node.ResponseNode? || s.node.EndNode?) && !s.status.Denied? && !s.status.Expired?)
  }

  function Horizon(s: State): int {
    if PassDone(s) then s.revision + 1 else s.revision
  }

  predicate EntriesFine(s: State) {
    forall i :: 0 <= i < |s.entries| ==> EntryFine(s.entries[i], Horizon(s))
  }

  /** The evidence of the pass on the current plan. */
  predicate PassStored(env: Env, s: State, a: Aggregate, criteria: seq<Observation>) {
    && s.plan.Some? && LastAggregate(s.entries) == Some(a)
    && AggregatesAt(s.entries, s.revision) == [a] && CriteriaOfPass(s.entries, a.verification) == criteria
    && a.revision == s.revision
    && (forall i :: 0 <= i < |criteria| ==> ObservationValid(criteria[i]))
    && SemanticsValid(a, criteria, s.plan.value, s.results, env.maxRevision)
    && s.status == VerifiedStatus(StatusFor(a))
  }

  predicate CurrentPass(env: Env, s: State) {
    PassDone(s) ==>
      && LastAggregate(s.entries).Some?
      && PassStored(env, s, LastAggregate(s.entries).value, CriteriaOfPass(s.entries, LastAggregate(s.entries).value.verification))
  }

  predicate AwaitsPass(s: State) {
    BeforeDispatch(s.node) || s.node.CollectNode? || ((s.node.ResponseNode? || s.node.EndNode?) && (s.status.Denied? || s.status.Expired?))
  }

  /** Until new results arrive, the last evidence is that of the plan that was revised. */
  predicate PriorPass(s: State) {
    AwaitsPass(s) && s.revision > 0 ==>
      && LastAggregate(s.entries).Some?
      && var a := LastAggregate(s.entries).value;
         SemanticsValid(a, CriteriaOfPass(s.entries, a.verification), a.verification.plan, s.results, 2)
  }

  predicate EvidenceInvariant(env: Env, s: State) {
    EntriesFine(s) && CurrentPass(env, s) && PriorPass(s) && LastIsOfPlan(env, s) && s.revision <= env.maxRevision
  }

  predicate LastIsOfPlan(env: Env, s: State) {
    PassDone(s) && s.plan.Some? && LastAggregate(s.entries).Some? ==> LastAggregate(s.entries).value.verification == VidOf(env, s)
  }

  lemma CriteriaShareId(a: Aggregate, criteria: seq<Observation>, plan: Plan, results: seq<ActionResult>, maxRevision: int)
    requires SemanticsValid(a, criteria, plan, results, maxRevision)
    ensures forall i :: 0 <= i < |criteria| ==> criteria[i].verification == a.verification
  {
    forall i | 0 <= i < |criteria| ensures criteria[i].verification == a.verification {
      assert ObservationFits(criteria[i], a.verification, ExpectedOf(plan.criteria), ResultByAction(results));
    }
  }

  lemma VerifyResult(env: Env, s: State, criteria: seq<Observation>, a: Aggregate)
    requires s.node.VerifyNode? && VerifyStep(env, s, criteria, a).Some?
    ensures var s' := VerifyStep(env, s, criteria, a).value;
            && s.plan.Some? && s'.plan == s.plan && s'.results == s.results && s'.revision == s.revision
            && s'.status == VerifiedStatus(StatusFor(a)) && PassDone(s') && VerifiedBy(env, s, criteria, a)
            && s'.entries == s.entries + CriterionEntries(criteria) + [AggregateEntry(a)]
  {
  }

  lemma VerifyEffect(env: Env, s: State, criteria: seq<Observation>, a: Aggregate)
    requires s.node.VerifyNode? && EntriesFine(s) && VerifyStep(env, s, criteria, a).Some?
    ensures var s' := VerifyStep(env, s, criteria, a).value;
            && s'.plan == s.plan && s.plan.Some? && s'.results == s.results && s'.revision == s.revision
            && PassStored(env, s', a, criteria) && a.verification == VidOf(env, s) && Verification.AggregateValid(a)
            && PassDone(s')
            && s'.entries == s.entries + CriterionEntries(criteria) + [AggregateEntry(a)]
            && forall i :: 0 <= i < |criteria| ==> criteria[i].verification == a.verification
  {
    VerifyResult(env, s, criteria, a);
    CriteriaShareId(a, criteria, s.plan.value, s.results, env.maxRevision);
    PassFound(s.entries, criteria, a);
  }

  /** Only verification completes a pass, and it never ends in a denial or an expiry. */
  lemma PassNotDone(env: Env, s: State, input: Input)
    requires Shape(s) && !s.node.VerifyNode? && !s.node.ResponseNode? && Step(env, s, input).Some?
    ensures !PassDone(Step(env, s, input).value)
  {
    if s.node.PolicyNode? {
      PolicyNotDone(env, s, input.snapshot, input.advice);
    } else if s.node.ResumeNode? {
      ResumeNotDone(env, s, input.resolutionId, input.outcome, input.decidedAt);
    } else {
      StepFollowsEdge(env, s, input);
    }
  }

  lemma PolicyNotDone(env: Env, s: State, snapshot: Snapshot, advice: Assessment)
    requires s.node.PolicyNode? && PolicyStep(env, s, snapshot, advice).Some?
    ensures !PassDone(PolicyStep(env, s, snapshot, advice).value)
  {
  }

  lemma ResumeNotDone(env: Env, s: State, resolutionId: string, outcome: ApprovalOutcome, decidedAt: int)
    requires s.node.ResumeNode? && ResumeStep(env, s, resolutionId, outcome, decidedAt).Some?
    ensures !PassDone(ResumeStep(env, s, resolutionId, outcome, decidedAt).value)
  {
  }

  lemma HorizonKept(env: Env, s: State, input: Input)
    requires Shape(s) && !s.node.VerifyNode? && Step(env, s, input).Some?
    ensures Horizon(Step(env, s, input).value) == Horizon(s)
  {
    StepFollowsEdge(env, s, input);
    if !s.node.ResponseNode? { PassNotDone(env, s, input); }
  }

  lemma EntriesExtended(entries: seq<Entry>, criteria: seq<Observation>, a: Aggregate)
    requires a.revision == a.verification.revision >= 0 && Verification.AggregateValid(a)
    requires forall i :: 0 <= i < |entries| ==> EntryFine(entries[i], a.revision)
    requires forall i :: 0 <= i < |criteria| ==> criteria[i].verification == a.verification
    ensures var after := entries + CriterionEntries(criteria) + [AggregateEntry(a)];
            forall i :: 0 <= i < |after| ==> EntryFine(after[i], a.revision + 1)
  {
    var after := entries + CriterionEntries(criteria) + [AggregateEntry(a)];
    forall i | 0 <= i < |after| ensures EntryFine(after[i], a.revision + 1) {
      if i < |entries| { assert after[i] == entries[i]; }
    }
  }

  lemma EntriesFineKept(env: Env, s: State, input: Input)
    requires Shape(s) && EntriesFine(s) && Step(env, s, input).Some?
    ensures EntriesFine(Step(env, s, input).value)
  {
    if s.node.VerifyNode? {
      VerifiedEntries(env, s, input.criteria, input.aggregate);
    } else {
      StepFrame(env, s, input);
      HorizonKept(env, s, input);
      SameEntries(s, Step(env, s, input).value);
    }
  }

  lemma SameEntries(s: State, s': State)
    requires EntriesFine(s) && s'.entries == s.entries && Horizon(s') == Horizon(s)
    ensures EntriesFine(s')
  {
  }

  lemma VerifiedEntries(env: Env, s: State, criteria: seq<Observation>, a: Aggregate)
    requires s.node.VerifyNode? && EntriesFine(s) && VerifyStep(env, s, criteria, a).Some?
    ensures EntriesFine(VerifyStep(env, s, criteria, a).value)
  {
    VerifyEffect(env, s, criteria, a);
    EntriesExtended(s.entries, criteria, a);
  }

  lemma CurrentPassKept(env: Env, s: State, input: Input)
    requires Shape(s) && EntriesFine(s) && CurrentPass(env, s) && LastIsOfPlan(env, s) && Step(env, s, input).Some?
    ensures CurrentPass(env, Step(env, s, input).value) && LastIsOfPlan(env, Step(env, s, input).value)
  {
    if s.node.VerifyNode? {
      VerifyEffect(env, s, input.criteria, input.aggregate);
    } else if !s.node.ResponseNode? {
      PassNotDone(env, s, input);
    }
  }

  lemma AwaitsEffect(env: Env, s: State, input: Input)
    requires Shape(s) && !s.node.ReviseNode? && Step(env, s, input).Some?
    requires AwaitsPass(Step(env, s, input).value) && Step(env, s, input).value.revision > 0
    ensures AwaitsPass(s) && s.revision > 0
    ensures Step(env, s, input).value.entries == s.entries && Step(env, s, input).value.results == s.results
  {
    StepFollowsEdge(env, s, input);
    StepFrame(env, s, input);
    if s.node.VerifyNode? {
      VerifiedNotAwaiting(env, s, input.criteria, input.aggregate);
    } else {
      if s.node.ResponseNode? { RespondedStatus(env, s, input); }
      AwaitsBefore(s, Step(env, s, input).value);
    }
  }

  lemma RespondedStatus(env: Env, s: State, input: Input)
    requires s.node.ResponseNode? && Step(env, s, input).Some?
    ensures Step(env, s, input).value.status == s.status
  {
  }

  lemma AwaitsBefore(s: State, s': State)
    requires Transition(s.node, s.revision, s'.node, s'.revision) && Shape(s)
    requires !s.node.ReviseNode? && !s.node.VerifyNode? && AwaitsPass(s') && s'.revision > 0
    requires s.node.ResponseNode? ==> s'.status == s.status
    ensures AwaitsPass(s) && s.revision > 0 && !s.node.CollectNode?
  {
  }

  lemma VerifiedNotAwaiting(env: Env, s: State, criteria: seq<Observation>, a: Aggregate)
    requires s.node.VerifyNode? && VerifyStep(env, s, criteria, a).Some?
    ensures !AwaitsPass(VerifyStep(env, s, criteria, a).value)
  {
  }

  lemma RevisedEvidence(env: Env, s: State)
    requires s.node.ReviseNode? && CurrentPass(env, s) && LastIsOfPlan(env, s) && s.plan.Some? && env.maxRevision <= 2
    requires s.status.Planning?
    ensures LastAggregate(s.entries).Some?
    ensures var a := LastAggregate(s.entries).value;
            && a.recoverable && a.verification.plan == s.plan.value
            && SemanticsValid(a, CriteriaOfPass(s.entries, a.verification), s.plan.value, s.results, 2)
            && s.revision < env.maxRevision
  {
    var a := LastAggregate(s.entries).value;
    BoundMatters(a, CriteriaOfPass(s.entries, a.verification), s.plan.value, s.results, env.maxRevision);
  }

  lemma PriorPassKept(env: Env, s: State, input: Input)
    requires Shape(s) && CurrentPass(env, s) && PriorPass(s) && LastIsOfPlan(env, s) && env.maxRevision <= 2
    requires Step(env, s, input).Some?
    ensures PriorPass(Step(env, s, input).value)
  {
    var s' := Step(env, s, input).value;
    if s.node.ReviseNode? {
      StepFrame(env, s, input);
      RevisedEvidence(env, s);
    } else if AwaitsPass(s') && s'.revision > 0 {
      AwaitsEffect(env, s, input);
    }
  }

  lemma RevisionsLimited(env: Env, s: State, input: Input)
    requires Shape(s) && CurrentPass(env, s) && LastIsOfPlan(env, s) && env.maxRevision <= 2 && s.revision <= env.maxRevision
    requires Step(env, s, input).Some?
    ensures Step(env, s, input).value.revision <= env.maxRevision
  {
    StepFollowsEdge(env, s, input);
    if s.node.ReviseNode? { RevisedEvidence(env, s); }
  }

  lemma {:induction false} RunEvidence(env: Env, trace: seq<State>, i: nat)
    requires Run(env, trace) && i < |trace| && env.maxRevision <= 2
    ensures EvidenceInvariant(env, trace[i])
  {
    if i == 0 {
      EvidenceStarts(env, trace[0].status);
    } else {
      RunEvidence(env, trace, i - 1);
      RunShape(env, trace, i - 1);
      RunStepEvidence(env, trace, i);
    }
  }

  lemma RunStepEvidence(env: Env, trace: seq<State>, i: nat)
    requires Run(env, trace) && 0 < i < |trace| && env.maxRevision <= 2
    requires Shape(trace[i - 1]) && EvidenceInvariant(env, trace[i - 1])
    ensures EvidenceInvariant(env, trace[i])
  {
    EvidenceKept(env, trace[i - 1], trace[i]);
  }

  lemma EvidenceStarts(env: Env, status: Status)
    ensures EvidenceInvariant(env, Start(status))
  {
  }

  lemma EvidenceKept(env: Env, s: State, s': State)
    requires Shape(s) && EvidenceInvariant(env, s) && Next(env, s, s') && env.maxRevision <= 2
    ensures EvidenceInvariant(env, s')
  {
    var input :| Step(env, s, input) == Some(s');
    EntriesFineKept(env, s, input);
    CurrentPassKept(env, s, input);
    PriorPassKept(env, s, input);
    RevisionsLimited(env, s, input);
  }

  // ---- a recoverable run can always be revised -----------------------------------------------------------------

  predicate OnObjective(env: Env, s: State) {
    s.plan.Some? ==> s.plan.value.objective == env.intent
  }

  lemma OnObjectiveKept(env: Env, s: State, input: Input)
    requires OnObjective(env, s) && Step(env, s, input).Some?
    ensures OnObjective(env, Step(env, s, input).value)
  {
    StepFrame(env, s, input);
    if s.node.PlanNode? {
      AcceptedResolves(input.draft, env.intent, input.bundle, env.drafts);
    } else if s.node.ReviseNode? {
      var candidate := ReviseEffect(env, s, input.draft, input.bundle);
    }
  }

  lemma {:induction false} RunOnObjective(env: Env, trace: seq<State>, i: nat)
    requires Run(env, trace) && i < |trace|
    ensures OnObjective(env, trace[i])
  {
    if i > 0 {
      RunOnObjective(env, trace, i - 1);
      var input :| Step(env, trace[i - 1], input) == Some(trace[i]);
      OnObjectiveKept(env, trace[i - 1], input);
    }
  }

  lemma TriggerHolds(env: Env, s: State)
    requires s.node.ReviseNode? && Shape(s) && CurrentPass(env, s) && LastIsOfPlan(env, s) && env.maxRevision <= 2
    ensures s.revision < 2 && RevisionTriggered(s)
  {
    RevisedEvidence(env, s);
    var a := LastAggregate(s.entries).value;
    assert AggregatesAt(s.entries, s.revision) == [a];
  }

  /** A run that reaches the revision node passes every check made there before the model is asked: the
      revision bound, the plan and result checks, and evidence that is unique, valid and recoverable. */
  lemma RevisionNeverRefused(env: Env, trace: seq<State>, i: nat)
    requires Run(env, trace) && i < |trace| && env.maxRevision <= 2 && trace[i].node.ReviseNode?
    ensures RevisionState(env, trace[i]) && RevisionTriggered(trace[i])
  {
    RunInvariant(env, trace, i);
    RunEvidence(env, trace, i);
    RunOnObjective(env, trace, i);
    TriggerHolds(env, trace[i]);
  }

  // ---- success means proved ------------------------------------------------------------------------------------------

  lemma SuccessfulPass(env: Env, s: State, c: Criterion) returns (o: Observation)
    requires CurrentPass(env, s) && PassDone(s) && s.status.Succeeded? && s.plan.Some?
    requires Distinct(CriterionIds(s.plan.value.criteria)) && c in s.plan.value.criteria
    ensures LastAggregate(s.entries).Some? && o in FinalCriteria(s) && Proved(o, c, s.results)
  {
    SuccessfulAggregate(env, s);
    o := SuccessIsProved(LastAggregate(s.entries).value, FinalCriteria(s), s.plan.value, s.results, env.maxRevision, c);
  }

  lemma SuccessfulAggregate(env: Env, s: State)
    requires CurrentPass(env, s) && PassDone(s) && s.status.Succeeded? && s.plan.Some?
    ensures LastAggregate(s.entries).Some? && LastAggregate(s.entries).value.outcome.OutcomeSucceeded?
    ensures SemanticsValid(LastAggregate(s.entries).value, FinalCriteria(s), s.plan.value, s.results, env.maxRevision)
    ensures forall i :: 0 <= i < |FinalCriteria(s)| ==> ObservationValid(FinalCriteria(s)[i])
  {
  }

  lemma CoveringCriterion(plan: Plan, id: Id) returns (c: Criterion)
    requires CoveredIds(plan.criteria) == SetOf(ActionIds(plan.actions)) && id in ActionIds(plan.actions)
    ensures c in plan.criteria && c.actionId == id
  {
    assert id in CoveredIds(plan.criteria);
    var i :| 0 <= i < |plan.criteria| && plan.criteria[i].actionId == id;
    c := plan.criteria[i];
  }

  lemma AllExecuted(env: Env, s: State)
    requires CurrentPass(env, s) && PassDone(s) && s.status.Succeeded? && s.plan.Some? && Sound(s.plan.value)
    ensures SetOf(ActionIds(s.plan.value.actions)) <= SetOf(ResultIds(s.results))
  {
    ResultKeys(s.results);
    forall id | id in ActionIds(s.plan.value.actions) ensures id in SetOf(ResultIds(s.results)) {
      var c := CoveringCriterion(s.plan.value, id);
      var o := SuccessfulPass(env, s, c);
      assert c.actionId in ResultByAction(s.results).Keys;
    }
  }

  /** A run that answers with success has, for every criterion of its final plan, an observation of that
      criterion that passed with evidence from a real probe on the receipt of its action's result. */
  lemma SuccessIsBacked(env: Env, trace: seq<State>, i: nat, c: Criterion) returns (o: Observation)
    requires Run(env, trace) && i < |trace| && env.maxRevision <= 2
    requires trace[i].node.ResponseNode? && trace[i].status.Succeeded?
    requires trace[i].plan.Some? && c in trace[i].plan.value.criteria
    ensures LastAggregate(trace[i].entries).Some? && o in FinalCriteria(trace[i]) && Proved(o, c, trace[i].results)
  {
    RunInvariant(env, trace, i);
    RunEvidence(env, trace, i);
    o := SuccessfulPass(env, trace[i], c);
  }

  /** A limit of the loop: one action runs per turn, so a run succeeds only with a final plan of at most one
      action more than there may be revisions, three at most, each with its one result. */
  lemma SuccessHasFewActions(env: Env, trace: seq<State>, i: nat)
    requires Run(env, trace) && i < |trace| && env.maxRevision <= 2
    requires (trace[i].node.ResponseNode? || trace[i].node.EndNode?) && trace[i].status.Succeeded?
    ensures trace[i].plan.Some? && |trace[i].plan.value.actions| <= env.maxRevision + 1
    ensures SetOf(ActionIds(trace[i].plan.value.actions)) == SetOf(ResultIds(trace[i].results))
  {
    RunInvariant(env, trace, i);
    RunEvidence(env, trace, i);
    AllExecuted(env, trace[i]);
    ActionsNoMoreThanResults(trace[i].plan.value, trace[i].results);
  }

  lemma ActionsNoMoreThanResults(plan: Plan, results: seq<ActionResult>)
    requires Distinct(ActionIds(plan.actions)) && SetOf(ActionIds(plan.actions)) <= SetOf(ResultIds(results))
    ensures |plan.actions| <= |results|
  {
    DistinctCardinality(ActionIds(plan.actions));
    DistinctCardinality(ResultIds(results));
    SubsetCardinality(SetOf(ActionIds(plan.actions)), SetOf(ResultIds(results)));
  }

  // ---- the fresh path takes the verification step ------------------------------------------------------------------------

  lemma VerifiedSteps(env: Env, s: State, criteria: seq<Observation>, a: Aggregate)
    requires Shape(s) && s.node.VerifyNode? && ResultsFit(s) && s.revision <= env.maxRevision
    requires s.plan.value.actions != [] && Distinct(ActionIds(s.plan.value.actions)) && VerifiedBy(env, s, criteria, a)
    ensures VerifyStep(env, s, criteria, a).Some?
  {
  }

  lemma FreshIsVerified(env: Env, s: State, answers: seq<ProbeAnswer>, requestedAt: int, observations: seq<Observation>, verifiedAt: int)
    requires s.plan.Some? && Distinct(CriterionIds(s.plan.value.criteria)) && s.revision <= 2
    requires 1 <= |s.plan.value.criteria| <= 16 && 1 <= |s.plan.value.actions| <= 8 && |s.results| <= |s.plan.value.actions|
    requires FreshPass(VidOf(env, s), s.plan.value, s.results, answers, requestedAt, observations)
    requires forall i :: 0 <= i < |observations| ==> observations[i].observedAt <= verifiedAt
    ensures VerifiedBy(env, s, observations,
              AggregateOf(VidOf(env, s), env.identity.taskId, env.identity.threadId, s.revision, s.plan.value, |s.results|,
                          observations, env.maxRevision, verifiedAt))
  {
    var vid, plan := VidOf(env, s), s.plan.value;
    FreshAccepted(vid, env.identity.taskId, env.identity.threadId, s.revision, plan, s.results, answers, requestedAt,
                  observations, env.maxRevision, verifiedAt);
    FreshAggregateValid(vid, env.identity.taskId, env.identity.threadId, s.revision, plan, |s.results|, observations,
                        env.maxRevision, verifiedAt);
    FreshIds(vid, plan, s.results, answers, requestedAt, observations);
  }

  /** A fresh pass over the criteria of a sound plan is accepted by the verification node, whatever the
      probes answered, as long as no answer is dated after the aggregate. */
  lemma FreshPassIsTaken(env: Env, s: State, answers: seq<ProbeAnswer>, requestedAt: int, observations: seq<Observation>, verifiedAt: int)
    requires Shape(s) && ResultsFit(s) && PlanSound(s) && s.node.VerifyNode? && s.revision <= env.maxRevision
    requires 1 <= |s.plan.value.criteria| <= 16 && 1 <= |s.plan.value.actions| <= 8
    requires FreshPass(VidOf(env, s), s.plan.value, s.results, answers, requestedAt, observations)
    requires forall i :: 0 <= i < |observations| ==> observations[i].observedAt <= verifiedAt
    ensures VerifyStep(env, s, observations,
              AggregateOf(VidOf(env, s), env.identity.taskId, env.identity.threadId, s.revision, s.plan.value, |s.results|,
                          observations, env.maxRevision, verifiedAt)).Some?
  {
    ActionsCoverResults(s.plan.value, s.results);
    FreshIsVerified(env, s, answers, requestedAt, observations, verifiedAt);
    VerifiedSteps(env, s, observations,
      AggregateOf(VidOf(env, s), env.identity.taskId, env.identity.threadId, s.revision, s.plan.value, |s.results|,
                  observations, env.maxRevision, verifiedAt));
  }

  lemma ActionsCoverResults(plan: Plan, results: seq<ActionResult>)
    requires Distinct(ResultIds(results)) && SetOf(ResultIds(results)) <= SetOf(ActionIds(plan.actions))
    ensures |results| <= |plan.actions|
  {
    DistinctCardinality(ActionIds(plan.actions));
    DistinctCardinality(ResultIds(results));
    SubsetCardinality(SetOf(ResultIds(results)), SetOf(ActionIds(plan.actions)));
  }
}
