/** What the final status of a verified run says about its observations, and what its results record. */
module WorkflowVerdict {
  import opened Collections
  import opened PlanModel
  import opened PlanValidation
  import opened Policy
  import opened Verification
  import opened Dispatch
  import opened Revision
  import opened Workflow
  import opened WorkflowBounds
  import opened WorkflowSafety
  import opened WorkflowApproval
  import opened WorkflowOutcome

  // ---- the final status ------------------------------------------------------------------------------------

  /** Some observation has this verdict. */
  predicate Given(observations: seq<Observation>, v: Verification.Verdict) {
    exists i :: 0 <= i < |observations| && observations[i].verdict == v
  }

  /** Everything that did not pass may be tried again. */
  predicate AllRetryable(observations: seq<Observation>) {
    forall i :: 0 <= i < |observations| && !observations[i].verdict.Passed? ==> observations[i].retryable
  }

  /** What each status says: which verdicts there are, and that a revision is not due. */
  predicate StatusTells(status: Status, observations: seq<Observation>, revisionsLeft: bool) {
    var due := revisionsLeft && AllRetryable(observations) && (Given(observations, Failed) || Given(observations, Uncertain));
    && (status.Planning? <==> due)
    && (status.Succeeded? <==> !Given(observations, Failed) && !Given(observations, Uncertain))
    && (status.PartiallySucceeded? <==>
          !due && Given(observations, Passed) && Given(observations, Failed) && !Given(observations, Uncertain))
    && (status.RunFailed? <==> !due && (Given(observations, Uncertain) || !Given(observations, Passed)))
  }

  /** The outcome and the recoverability of an aggregate, by which verdicts were given. */
  predicate OutcomeTells(a: Aggregate, observations: seq<Observation>, revisionsLeft: bool) {
    && (a.outcome.OutcomeSucceeded? <==> !Given(observations, Failed) && !Given(observations, Uncertain))
    && (a.outcome.OutcomePartial? <==>
          Given(observations, Passed) && Given(observations, Failed) && !Given(observations, Uncertain))
    && (a.recoverable <==>
          revisionsLeft && AllRetryable(observations) && (Given(observations, Failed) || Given(observations, Uncertain)))
    && (Given(observations, Passed) || Given(observations, Failed) || Given(observations, Uncertain))
  }

  lemma OutcomeByVerdicts(a: Aggregate, observations: seq<Observation>, plan: Plan, results: seq<ActionResult>, maxRevision: int)
    requires SemanticsValid(a, observations, plan, results, maxRevision) && observations != []
    ensures OutcomeTells(a, observations, a.revision < maxRevision)
  {
    OutcomeByCounts(a, observations, plan, results, maxRevision);
    CountsTell(observations, Passed);
    CountsTell(observations, Failed);
    CountsTell(observations, Uncertain);
  }

  lemma StatusByOutcome(a: Aggregate, observations: seq<Observation>, revisionsLeft: bool)
    requires OutcomeTells(a, observations, revisionsLeft)
    ensures StatusTells(VerifiedStatus(StatusFor(a)), observations, revisionsLeft)
  {
  }

  lemma StatusByVerdicts(a: Aggregate, observations: seq<Observation>, plan: Plan, results: seq<ActionResult>, maxRevision: int)
    requires SemanticsValid(a, observations, plan, results, maxRevision) && observations != []
    ensures StatusTells(VerifiedStatus(StatusFor(a)), observations, a.revision < maxRevision)
  {
    OutcomeByVerdicts(a, observations, plan, results, maxRevision);
    StatusByOutcome(a, observations, a.revision < maxRevision);
  }

  lemma LastIsFine(entries: seq<Entry>, horizon: int)
    requires LastAggregate(entries).Some? && forall i :: 0 <= i < |entries| ==> EntryFine(entries[i], horizon)
    ensures Verification.AggregateValid(LastAggregate(entries).value)
  {
    if !entries[|entries| - 1].AggregateEntry? { LastIsFine(entries[..|entries| - 1], horizon); }
  }

  lemma PassTells(env: Env, s: State)
    requires EntriesFine(s) && CurrentPass(env, s) && PassDone(s)
    ensures FinalCriteria(s) != [] && StatusTells(s.status, FinalCriteria(s), s.revision < env.maxRevision)
  {
    LastIsFine(s.entries, Horizon(s));
    StatusByVerdicts(LastAggregate(s.entries).value, FinalCriteria(s), s.plan.value, s.results, env.maxRevision);
  }

  /** Main result.  After the verification of a run the status says exactly what was observed: the plan is
      revised if everything that did not pass may be tried again and a revision is left; otherwise the run has
      succeeded if nothing failed or stayed uncertain, has succeeded in part if some criterion passed, some
      failed and none is uncertain, and has failed in all other cases. */
  lemma StatusTellsVerdicts(env: Env, trace: seq<State>, i: nat)
    requires Run(env, trace) && i < |trace| && env.maxRevision <= 2
    requires trace[i].node.ReviseNode?
          || (trace[i].node.ResponseNode? && !trace[i].status.Denied? && !trace[i].status.Expired?)
    ensures FinalCriteria(trace[i]) != []
    ensures StatusTells(trace[i].status, FinalCriteria(trace[i]), trace[i].revision < env.maxRevision)
  {
    RunEvidence(env, trace, i);
    PassTells(env, trace[i]);
  }

  // ---- success in part ---------------------------------------------------------------------------------------

  /** A criterion is refuted: it failed on non-empty evidence and for a reason, against a collected result. */
  predicate Refuted(o: Observation, c: Criterion, results: seq<ActionResult>) {
    && o.criterionId == c.id && o.actionId == c.actionId && o.code == c.code
    && o.verdict.Failed? && o.evidence != [] && o.reason.Some? && o.probeId != SYSTEM_PROBE
    && c.actionId in ResultByAction(results)
    && o.receiptId == Some(ResultByAction(results)[c.actionId].receiptId)
  }

  lemma ObservedCriterion(a: Aggregate, observations: seq<Observation>, plan: Plan, results: seq<ActionResult>, maxRevision: int, i: nat)
    returns (c: Criterion)
    requires SemanticsValid(a, observations, plan, results, maxRevision) && i < |observations|
    requires ObservationValid(observations[i]) && !observations[i].verdict.Uncertain?
    ensures c in plan.criteria
    ensures observations[i].verdict.Passed? ==> Proved(observations[i], c, results)
    ensures observations[i].verdict.Failed? ==> Refuted(observations[i], c, results)
  {
    var expected := ExpectedOf(plan.criteria);
    assert ObservationFits(observations[i], a.verification, expected, ResultByAction(results));
    c := expected[observations[i].criterionId];
  }

  lemma PartialPass(env: Env, s: State) returns (p: Observation, c: Criterion, f: Observation, d: Criterion)
    requires EntriesFine(s) && CurrentPass(env, s) && PassDone(s) && s.status.PartiallySucceeded?
    ensures s.plan.Some? && p in FinalCriteria(s) && f in FinalCriteria(s) && c in s.plan.value.criteria && d in s.plan.value.criteria
    ensures Proved(p, c, s.results) && Refuted(f, d, s.results)
  {
    PassTells(env, s);
    var observations, a := FinalCriteria(s), LastAggregate(s.entries).value;
    var i :| 0 <= i < |observations| && observations[i].verdict == Passed;
    var j :| 0 <= j < |observations| && observations[j].verdict == Failed;
    p, f := observations[i], observations[j];
    c := ObservedCriterion(a, observations, s.plan.value, s.results, env.maxRevision, i);
    d := ObservedCriterion(a, observations, s.plan.value, s.results, env.maxRevision, j);
  }

  /** A run that answers with success in part has a criterion of its plan that is proved, and one that a real
      probe refuted. */
  lemma PartialIsBacked(env: Env, trace: seq<State>, i: nat) returns (p: Observation, c: Criterion, f: Observation, d: Criterion)
    requires Run(env, trace) && i < |trace| && env.maxRevision <= 2
    requires trace[i].node.ResponseNode? && trace[i].status.PartiallySucceeded?
    ensures trace[i].plan.Some? && c in trace[i].plan.value.criteria && d in trace[i].plan.value.criteria
    ensures p in FinalCriteria(trace[i]) && Proved(p, c, trace[i].results)
    ensures f in FinalCriteria(trace[i]) && Refuted(f, d, trace[i].results)
  {
    RunEvidence(env, trace, i);
    p, c, f, d := PartialPass(env, trace[i]);
  }

  // ---- what a response explains ------------------------------------------------------------------------------

  /** Everything that is not a success is explained by an issue, and a success reports nothing but context that
      could not be loaded. */
  predicate Explains(s: State) {
    && (s.status.Succeeded? ==> IssueCodes(s) == SetOf(s.errors))
    && (s.status.PartiallySucceeded? || s.status.RunFailed? ==>
          exists i :: 0 <= i < |FinalCriteria(s)| && !FinalCriteria(s)[i].verdict.Passed?
            && FinalCriteria(s)[i].reason.Some? && FinalCriteria(s)[i].reason.value in IssueCodes(s))
    && (s.status.Expired? ==> "approval_expired" in IssueCodes(s))
    && (s.status.Denied? ==>
          || "approval_denied" in IssueCodes(s)
          || exists i :: 0 <= i < |s.decisions| && s.decisions[i].decision.Deny? && s.decisions[i].reasons != []
               && forall k :: 0 <= k < |s.decisions[i].reasons| ==> s.decisions[i].reasons[k] in IssueCodes(s))
  }

  lemma ReasonReported(s: State, i: nat)
    requires i < |FinalCriteria(s)| && FinalCriteria(s)[i].reason.Some?
    ensures FinalCriteria(s)[i].reason.value in IssueCodes(s)
  {
    assert FinalCriteria(s)[i].reason.value in ObservedReasons(FinalCriteria(s));
  }

  lemma UnmetExplained(env: Env, s: State)
    requires EntriesFine(s) && CurrentPass(env, s) && PassDone(s) && (s.status.PartiallySucceeded? || s.status.RunFailed?)
    ensures exists i :: 0 <= i < |FinalCriteria(s)| && !FinalCriteria(s)[i].verdict.Passed?
              && FinalCriteria(s)[i].reason.Some? && FinalCriteria(s)[i].reason.value in IssueCodes(s)
  {
    PassTells(env, s);
    var observations := FinalCriteria(s);
    var i :| 0 <= i < |observations| && !observations[i].verdict.Passed?;
    assert ObservationValid(observations[i]);
    ReasonReported(s, i);
  }

  lemma SuccessReportsContext(env: Env, s: State)
    requires EntriesFine(s) && CurrentPass(env, s) && PassDone(s) && s.status.Succeeded? && Permitted(s)
    ensures IssueCodes(s) == SetOf(s.errors)
  {
    PassTells(env, s);
    forall i | 0 <= i < |FinalCriteria(s)| ensures FinalCriteria(s)[i].reason.None? {
      assert ObservationValid(FinalCriteria(s)[i]);
    }
    assert ObservedReasons(FinalCriteria(s)) == {};
    assert DenyReasons(s.decisions) == {};
    assert RefusalCodes(s) == {};
  }

  /** Every decision gives a reason. */
  predicate Reasoned(s: State) {
    forall i :: 0 <= i < |s.decisions| ==> s.decisions[i].reasons != []
  }

  lemma DecidedReasoned(env: Env, s: State, snapshot: Snapshot, advice: Assessment)
    requires PolicyStep(env, s, snapshot, advice).Some?
    ensures Reasoned(PolicyStep(env, s, snapshot, advice).value)
  {
    var actions, decisions := s.plan.value.actions, PolicyStep(env, s, snapshot, advice).value.decisions;
    forall i | 0 <= i < |decisions| ensures decisions[i].reasons != [] {
      ProjectionNeverFails(env.identity.taskId, snapshot, advice, actions, actions[i]);
    }
  }

  lemma ReasonedNext(env: Env, s: State, s': State)
    requires Reasoned(s) && Next(env, s, s')
    ensures Reasoned(s')
  {
    var input :| Step(env, s, input) == Some(s');
    StepFrame(env, s, input);
    if s.node.PolicyNode? { DecidedReasoned(env, s, input.snapshot, input.advice); }
  }

  lemma RunReasonedNext(env: Env, trace: seq<State>, i: nat)
    requires Run(env, trace) && i + 1 < |trace| && Reasoned(trace[i])
    ensures Reasoned(trace[i + 1])
  {
    ReasonedNext(env, trace[i], trace[i + 1]);
  }

  lemma {:induction false} RunReasoned(env: Env, trace: seq<State>, i: nat)
    requires Run(env, trace) && i < |trace|
    ensures Reasoned(trace[i])
  {
    if i == 0 {
      RunStartsEmpty(env, trace);
    } else {
      RunReasoned(env, trace, i - 1);
      RunReasonedNext(env, trace, i - 1);
    }
  }

  lemma RefusalExplained(s: State)
    requires Authorized(s) && Refused(s) && Reasoned(s)
    ensures Explains(s)
  {
    if s.status.Denied? && !NoDenial(s.decisions) {
      var i :| 0 <= i < |s.decisions| && s.decisions[i].decision.Deny?;
      forall k | 0 <= k < |s.decisions[i].reasons| ensures s.decisions[i].reasons[k] in IssueCodes(s) {
        assert s.decisions[i].reasons[k] in DenyReasons(s.decisions);
      }
    }
  }

  lemma OutcomeExplained(env: Env, s: State)
    requires EvidenceInvariant(env, s) && Shape(s) && Authorized(s) && Reasoned(s) && s.node.ResponseNode?
    ensures Explains(s)
  {
    if Refused(s) {
      RefusalExplained(s);
    } else if s.status.Succeeded? {
      SuccessReportsContext(env, s);
    } else {
      UnmetExplained(env, s);
    }
  }

  /** Main result.  A run never ends without success and without saying why: a criterion that did not pass gives
      its reason, a denial by policy all the reasons of a denied action, a refused or expired approval its code;
      and a run that succeeded reports nothing but context that could not be loaded. */
  lemma EveryEndIsExplained(env: Env, trace: seq<State>, i: nat)
    requires Run(env, trace) && i < |trace| && env.maxRevision <= 2 && trace[i].node.ResponseNode?
    ensures Explains(trace[i])
  {
    RunEvidence(env, trace, i);
    RunShape(env, trace, i);
    RunAuthorized(env, trace, i);
    RunReasoned(env, trace, i);
    OutcomeExplained(env, trace[i]);
  }

  // ---- what a result records ---------------------------------------------------------------------------------

  /** The new result is what the executor reported for a dispatch of this run; only a report that came after the
      lease, or of work that ran longer than allowed, is recorded as uncertain instead. */
  predicate RecordedAs(env: Env, s: State, r: ActionResult, report: ExecutorResult) {
    && r.actionId == report.actionId && r.receiptId == report.receiptId && r.completedAt == report.completedAt
    && report.identity == env.identity && report.actionId in s.dispatches
    && var d := s.dispatches[report.actionId];
       var inTime := report.completedAt <= d.queuedAt + d.request.content.timeout + env.grace
                     && report.completedAt - report.startedAt <= d.request.content.timeout;
       && d.queuedAt <= report.startedAt <= report.completedAt
       && (inTime ==> r.outcome == report.outcome) && (!inTime ==> r.outcome.ActionUncertain?)
  }

  lemma CollectRecords(env: Env, s: State, input: Input)
    requires Step(env, s, input).Some? && s.node.CollectNode? && LeasesFine(env, s) && DispatchesFine(s)
    requires Step(env, s, input).value.results != s.results
    ensures var s' := Step(env, s, input).value;
            && input.Receipt? && |s'.results| == |s.results| + 1 && s'.results[..|s.results|] == s.results
            && RecordedAs(env, s, s'.results[|s.results|], input.result)
  {
    assert s.results + [] == s.results;
  }

  lemma NextCollects(env: Env, s: State, s': State) returns (report: ExecutorResult)
    requires LeasesFine(env, s) && DispatchesFine(s) && Next(env, s, s') && s'.results != s.results
    ensures s.node.CollectNode? && |s'.results| == |s.results| + 1 && s'.results[..|s.results|] == s.results
    ensures RecordedAs(env, s, s'.results[|s.results|], report)
  {
    var input :| Step(env, s, input) == Some(s');
    StepFrame(env, s, input);
    CollectRecords(env, s, input);
    report := input.result;
  }

  lemma RunCollects(env: Env, trace: seq<State>, i: nat) returns (report: ExecutorResult)
    requires Run(env, trace) && i + 1 < |trace| && trace[i + 1].results != trace[i].results
    ensures trace[i].node.CollectNode? && |trace[i + 1].results| == |trace[i].results| + 1
    ensures RecordedAs(env, trace[i], trace[i + 1].results[|trace[i].results|], report)
  {
    RunInvariant(env, trace, i);
    report := NextCollects(env, trace[i], trace[i + 1]);
  }

  lemma RunStartsEmpty(env: Env, trace: seq<State>)
    requires Run(env, trace)
    ensures trace[0].results == [] && trace[0].decisions == []
  {
  }

  /** Each state keeps the results of the one before and adds at most one. */
  predicate ResultsGrow(trace: seq<State>) {
    && trace != [] && trace[0].results == []
    && forall i :: 0 < i < |trace| ==> trace[i - 1].results <= trace[i].results && |trace[i].results| <= |trace[i - 1].results| + 1
  }

  lemma RunResultsGrow(env: Env, trace: seq<State>)
    requires Run(env, trace)
    ensures ResultsGrow(trace)
  {
    RunStartsEmpty(env, trace);
    forall i | 0 < i < |trace|
      ensures trace[i - 1].results <= trace[i].results && |trace[i].results| <= |trace[i - 1].results| + 1
    {
      StepResultsGrow(env, trace, i - 1);
    }
  }

  lemma StepResultsGrow(env: Env, trace: seq<State>, i: nat)
    requires Run(env, trace) && i + 1 < |trace|
    ensures trace[i].results <= trace[i + 1].results && |trace[i + 1].results| <= |trace[i].results| + 1
  {
    if trace[i + 1].results != trace[i].results { var report := RunCollects(env, trace, i); }
  }

  /** The step that appended a result. */
  lemma {:induction false} AppendedAt(trace: seq<State>, i: nat, k: nat) returns (j: nat)
    requires ResultsGrow(trace) && i < |trace| && k < |trace[i].results|
    ensures j < i && |trace[j].results| == k && |trace[j + 1].results| == k + 1 && trace[j + 1].results[k] == trace[i].results[k]
  {
    if k < |trace[i - 1].results| {
      j := AppendedAt(trace, i - 1, k);
    } else {
      j := i - 1;
    }
  }

  /** Every result of a run was recorded, when it was collected, as the executor reported it. */
  lemma ResultsAreReports(env: Env, trace: seq<State>, i: nat, k: nat) returns (j: nat, report: ExecutorResult)
    requires Run(env, trace) && i < |trace| && k < |trace[i].results|
    ensures j < i && trace[j].node.CollectNode? && |trace[j].results| == k
    ensures RecordedAs(env, trace[j], trace[i].results[k], report)
  {
    RunResultsGrow(env, trace);
    j := AppendedAt(trace, i, k);
    report := RunCollects(env, trace, j);
  }
}
