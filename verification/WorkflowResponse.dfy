/** When a run can respond: which limits of the response can bind, and exactly when one is rendered. */
module WorkflowResponse {
  import opened Collections
  import opened PlanModel
  import opened CriticalPath
  import opened PlanValidation
  import opened PlanDrafting
  import opened Policy
  import opened Verification
  import opened Dispatch
  import opened Revision
  import opened Workflow
  import opened WorkflowBounds
  import opened WorkflowSafety
  import opened WorkflowOutcome

  /** The bounds the settings of verification and validation are themselves checked against. */
  predicate SettingsFine(env: Env) {
    env.maxRevision <= 2 && env.validation.maxActions <= 8
  }

  // ---- counting the reasons of decisions ---------------------------------------------------------------

  function ReasonsOf(ts: seq<Tightening>): seq<string> {
    seq(|ts|, i requires 0 <= i < |ts| => ts[i].reason)
  }

  function AggregateReasons(rules: seq<AggregateRule>): seq<string> {
    seq(|rules|, i requires 0 <= i < |rules| => rules[i].reason)
  }

  function AdviceReasons(advice: Assessment): seq<string> {
    seq(|advice|, i requires 0 <= i < |advice| => advice[i].reason)
  }

  function BaselineReasons(snapshot: Snapshot, actions: seq<PlanAction>): seq<string> {
    seq(|actions|, i requires 0 <= i < |actions| => Baseline(snapshot, actions[i]).reasons[0])
  }

  lemma TightenedReasons(v: Policy.Verdict, t: Tightening)
    ensures SetOf(Advised(v, t).reasons) <= SetOf(Tightened(v, t).reasons) == SetOf(v.reasons) + {t.reason}
  {
  }

  lemma LastReason(ts: seq<Tightening>)
    requires ts != []
    ensures SetOf(ReasonsOf(ts)) == SetOf(ReasonsOf(ts[..|ts| - 1])) + {ts[|ts| - 1].reason}
  {
    PrefixNext(ReasonsOf(ts), |ts| - 1);
    TakeAll(ReasonsOf(ts));
    assert ReasonsOf(ts)[..|ts| - 1] == ReasonsOf(ts[..|ts| - 1]);
  }

  /** The reasons of a verdict are those it started with and those of its tightenings. */
  lemma {:induction false} ReasonsTightened(base: Policy.Verdict, ts: seq<Tightening>)
    ensures SetOf(TightenAll(base, ts).reasons) <= SetOf(base.reasons) + SetOf(ReasonsOf(ts))
    ensures SetOf(AdviseAll(base, ts).reasons) <= SetOf(base.reasons) + SetOf(ReasonsOf(ts))
  {
    if ts != [] {
      var n := |ts| - 1;
      ReasonsTightened(base, ts[..n]);
      TightenedReasons(TightenAll(base, ts[..n]), ts[n]);
      TightenedReasons(AdviseAll(base, ts[..n]), ts[n]);
      LastReason(ts);
    }
  }

  lemma {:induction false} FromRules(rules: seq<AggregateRule>, actions: seq<PlanAction>, action: PlanAction)
    ensures SetOf(ReasonsOf(AggregateTightenings(rules, actions, action))) <= SetOf(AggregateReasons(rules))
  {
    if rules != [] {
      var n := |rules| - 1;
      FromRules(rules[..n], actions, action);
      PrefixNext(AggregateReasons(rules), n);
      TakeAll(AggregateReasons(rules));
      assert AggregateReasons(rules)[..n] == AggregateReasons(rules[..n]);
      DroppedLast(AggregateTightenings(rules, actions, action), AggregateTightenings(rules[..n], actions, action), rules[n].reason);
    }
  }

  lemma {:induction false} FromAdvice(advice: Assessment, action: PlanAction)
    ensures SetOf(ReasonsOf(AdviceTightenings(advice, action))) <= SetOf(AdviceReasons(advice))
  {
    if advice != [] {
      var n := |advice| - 1;
      FromAdvice(advice[..n], action);
      PrefixNext(AdviceReasons(advice), n);
      TakeAll(AdviceReasons(advice));
      assert AdviceReasons(advice)[..n] == AdviceReasons(advice[..n]);
      DroppedLast(AdviceTightenings(advice, action), AdviceTightenings(advice[..n], action), advice[n].reason);
    }
  }

  lemma DroppedLast(ts: seq<Tightening>, rest: seq<Tightening>, reason: string)
    requires ts == rest || (ts != [] && ts[..|ts| - 1] == rest && ts[|ts| - 1].reason == reason)
    ensures SetOf(ReasonsOf(ts)) <= SetOf(ReasonsOf(rest)) + {reason}
  {
    if ts != rest { LastReason(ts); }
  }

  lemma SameAggregateReasons(rules: seq<AggregateRule>, sorted: seq<AggregateRule>)
    requires multiset(rules) == multiset(sorted)
    ensures SetOf(AggregateReasons(sorted)) <= SetOf(AggregateReasons(rules))
  {
    forall r | r in AggregateReasons(sorted) ensures r in AggregateReasons(rules) {
      var i :| 0 <= i < |sorted| && AggregateReasons(sorted)[i] == r;
      assert sorted[i] in multiset(rules);
      var j :| 0 <= j < |rules| && rules[j] == sorted[i];
      assert AggregateReasons(rules)[j] == r;
    }
  }

  lemma SameAdviceReasons(advice: Assessment, sorted: Assessment)
    requires multiset(advice) == multiset(sorted)
    ensures SetOf(AdviceReasons(sorted)) <= SetOf(AdviceReasons(advice))
  {
    forall r | r in AdviceReasons(sorted) ensures r in AdviceReasons(advice) {
      var i :| 0 <= i < |sorted| && AdviceReasons(sorted)[i] == r;
      assert sorted[i] in multiset(advice);
      var j :| 0 <= j < |advice| && advice[j] == sorted[i];
      assert AdviceReasons(advice)[j] == r;
    }
  }

  /** Every reason of a final verdict is that of its baseline, of an aggregate rule or of a recommendation. */
  lemma FinalReasons(snapshot: Snapshot, advice: Assessment, actions: seq<PlanAction>, action: PlanAction)
    ensures SetOf(FinalVerdict(snapshot, advice, actions, action).reasons)
         <= SetOf(Baseline(snapshot, action).reasons) + SetOf(AggregateReasons(snapshot.aggregates)) + SetOf(AdviceReasons(advice))
  {
    var rules, sorted := SortBy(AggregateLeq, snapshot.aggregates), SortBy(AdviceLeq, advice);
    SortByMultiset(AggregateLeq, snapshot.aggregates);
    SortByMultiset(AdviceLeq, advice);
    FromRules(rules, actions, action);
    FromAdvice(sorted, action);
    SameAggregateReasons(snapshot.aggregates, rules);
    SameAdviceReasons(advice, sorted);
    ReasonsTightened(Baseline(snapshot, action), AggregateTightenings(rules, actions, action));
    ReasonsTightened(AfterAggregates(snapshot, actions, action), AdviceTightenings(sorted, action));
  }

  /** Where the reasons of denials can come from. */
  function ReasonPool(snapshot: Snapshot, advice: Assessment, actions: seq<PlanAction>): seq<string> {
    BaselineReasons(snapshot, actions) + AggregateReasons(snapshot.aggregates) + AdviceReasons(advice)
  }

  lemma PoolHolds(snapshot: Snapshot, advice: Assessment, actions: seq<PlanAction>, i: nat)
    requires i < |actions|
    ensures SetOf(Baseline(snapshot, actions[i]).reasons) + SetOf(AggregateReasons(snapshot.aggregates)) + SetOf(AdviceReasons(advice))
         <= SetOf(ReasonPool(snapshot, advice, actions))
  {
    assert BaselineReasons(snapshot, actions)[i] in BaselineReasons(snapshot, actions);
  }

  lemma SortedTexts(texts: seq<string>)
    ensures SetOf(SortBy(TextLeq, texts)) == SetOf(texts)
  {
    SortByMultiset(TextLeq, texts);
    forall r ensures r in SortBy(TextLeq, texts) <==> r in texts {
      assert r in SortBy(TextLeq, texts) <==> r in multiset(SortBy(TextLeq, texts));
      assert r in texts <==> r in multiset(texts);
    }
  }

  lemma DecidedReasons(taskId: string, snapshot: Snapshot, advice: Assessment, actions: seq<PlanAction>, i: nat)
    requires i < |actions|
    ensures SetOf(Decide(taskId, snapshot, advice, actions)[i].reasons) <= SetOf(ReasonPool(snapshot, advice, actions))
  {
    FinalReasons(snapshot, advice, actions, actions[i]);
    PoolHolds(snapshot, advice, actions, i);
    SortedTexts(FinalVerdict(snapshot, advice, actions, actions[i]).reasons);
  }

  /** The denials of one evaluation name at most 40 different reasons together. */
  lemma FewDenyReasons(taskId: string, snapshot: Snapshot, advice: Assessment, actions: seq<PlanAction>)
    requires SnapshotValid(snapshot) && |advice| <= 16 && |actions| <= 8
    ensures |DenyReasons(Decide(taskId, snapshot, advice, actions))| <= 40
  {
    var decisions, pool := Decide(taskId, snapshot, advice, actions), ReasonPool(snapshot, advice, actions);
    forall r | r in DenyReasons(decisions) ensures r in SetOf(pool) {
      var i, k :| 0 <= i < |decisions| && decisions[i].decision.Deny? && 0 <= k < |decisions[i].reasons| && decisions[i].reasons[k] == r;
      DecidedReasons(taskId, snapshot, advice, actions, i);
      assert r in SetOf(decisions[i].reasons);
    }
    SubsetCardinality(DenyReasons(decisions), SetOf(pool));
    DistinctCardinality(pool);
  }

  // ---- the limits that never bind ------------------------------------------------------------------------

  const CONTEXT_ERRORS := {PROJECT_UNAVAILABLE, MEMORY_UNAVAILABLE}

  /** Few reasons for denial, the two context errors at most, and a validated plan of few actions. */
  predicate CodesFew(s: State) {
    && |DenyReasons(s.decisions)| <= 40 && SetOf(s.errors) <= CONTEXT_ERRORS
    && (s.plan.Some? && !s.node.ValidateNode? ==> |s.plan.value.actions| <= 8)
  }

  lemma PolicyCodes(env: Env, s: State, snapshot: Snapshot, advice: Assessment)
    requires s.node.PolicyNode? && CodesFew(s) && PolicyStep(env, s, snapshot, advice).Some?
    ensures CodesFew(PolicyStep(env, s, snapshot, advice).value)
  {
    FewDenyReasons(env.identity.taskId, snapshot, advice, s.plan.value.actions);
  }

  lemma ContextCodes(s: State, projectLoaded: bool, memoryLoaded: bool)
    requires s.node.ContextNode? && CodesFew(s) && ContextStep(s, projectLoaded, memoryLoaded).Some?
    ensures CodesFew(ContextStep(s, projectLoaded, memoryLoaded).value)
  {
    var errors := ContextStep(s, projectLoaded, memoryLoaded).value.errors;
    forall code | code in errors ensures code in CONTEXT_ERRORS {
      if code in s.errors { assert code in SetOf(s.errors); }
    }
  }

  lemma ValidatedCodes(env: Env, s: State, bundle: Bundle)
    requires s.node.ValidateNode? && CodesFew(s) && SettingsFine(env) && ValidateStep(env, s, bundle).Some?
    ensures CodesFew(ValidateStep(env, s, bundle).value)
  {
    assert WithinBudget(s.plan.value, env.validation);
  }

  lemma RevisedCodes(env: Env, s: State, draft: ModelDraft, bundle: Bundle)
    requires s.node.ReviseNode? && CodesFew(s) && ReviseStep(env, s, draft, bundle).Some?
    ensures CodesFew(ReviseStep(env, s, draft, bundle).value)
  {
    assert DenyReasons([]) == {};
  }

  lemma CodesFewKept(env: Env, s: State, input: Input)
    requires Shape(s) && CodesFew(s) && SettingsFine(env) && Step(env, s, input).Some?
    ensures CodesFew(Step(env, s, input).value)
  {
    if s.node.PolicyNode? {
      PolicyCodes(env, s, input.snapshot, input.advice);
    } else if s.node.ContextNode? {
      ContextCodes(s, input.projectLoaded, input.memoryLoaded);
    } else if s.node.ValidateNode? {
      ValidatedCodes(env, s, input.bundle);
    } else if s.node.ReviseNode? {
      RevisedCodes(env, s, input.draft, input.bundle);
    } else {
      StepFrame(env, s, input);
      StepFollowsEdge(env, s, input);
    }
  }

  lemma CodesFewNext(env: Env, s: State, s': State)
    requires Shape(s) && CodesFew(s) && SettingsFine(env) && Next(env, s, s')
    ensures CodesFew(s')
  {
    var input :| Step(env, s, input) == Some(s');
    CodesFewKept(env, s, input);
  }

  lemma CodesFewStart(status: Status)
    ensures CodesFew(Start(status))
  {
    assert DenyReasons([]) == {};
  }

  lemma RunStepCodes(env: Env, trace: seq<State>, i: nat)
    requires Run(env, trace) && 0 < i < |trace| && SettingsFine(env) && Shape(trace[i - 1]) && CodesFew(trace[i - 1])
    ensures CodesFew(trace[i])
  {
    CodesFewNext(env, trace[i - 1], trace[i]);
  }

  lemma {:induction false} RunCodes(env: Env, trace: seq<State>, i: nat)
    requires Run(env, trace) && i < |trace| && SettingsFine(env)
    ensures CodesFew(trace[i])
  {
    if i == 0 {
      CodesFewStart(trace[0].status);
    } else {
      RunCodes(env, trace, i - 1);
      RunShape(env, trace, i - 1);
      RunStepCodes(env, trace, i);
    }
  }

  function ReasonTexts(observations: seq<Observation>): seq<string> {
    seq(|observations|, i requires 0 <= i < |observations| =>
      if observations[i].reason.Some? then observations[i].reason.value else "")
  }

  lemma FewObservedReasons(observations: seq<Observation>)
    ensures |ObservedReasons(observations)| <= |observations|
  {
    var texts := ReasonTexts(observations);
    forall r | r in ObservedReasons(observations) ensures r in SetOf(texts) {
      var i :| 0 <= i < |observations| && observations[i].reason.Some? && observations[i].reason.value == r;
      assert texts[i] == r;
    }
    SubsetCardinality(ObservedReasons(observations), SetOf(texts));
    DistinctCardinality(texts);
  }

  lemma UnionCardinality<T>(a: set<T>, b: set<T>)
    ensures |a + b| <= |a| + |b|
  {
    assert |a + b| == |a| + |b| - |a * b|;
  }

  lemma FewIssues(s: State)
    requires CodesFew(s) && |FinalCriteria(s)| <= 16
    ensures |IssueCodes(s)| <= 64
  {
    var observed, denied := ObservedReasons(FinalCriteria(s)), DenyReasons(s.decisions);
    var refused, errors := RefusalCodes(s), SetOf(s.errors);
    FewObservedReasons(FinalCriteria(s));
    SubsetCardinality(refused, {APPROVAL_DENIED, APPROVAL_EXPIRED});
    SubsetCardinality(errors, CONTEXT_ERRORS);
    UnionCardinality(observed, denied);
    UnionCardinality(observed + denied, refused);
    UnionCardinality(observed + denied + refused, errors);
  }

  lemma FewReceipts(s: State)
    requires FewResults(s) && s.revision <= 2
    ensures |SetOf(ReceiptIds(s.results))| <= 3
  {
    DistinctCardinality(ReceiptIds(s.results));
  }

  lemma {:induction false} LastIsStored(entries: seq<Entry>)
    requires LastAggregate(entries).Some?
    ensures AggregateEntry(LastAggregate(entries).value) in entries
  {
    if !entries[|entries| - 1].AggregateEntry? { LastIsStored(entries[..|entries| - 1]); }
  }

  /** The final criteria are as many as the last aggregate counts, which is at most 16. */
  lemma FewFinalCriteria(s: State, plan: Plan, maxRevision: int)
    requires EntriesFine(s) && LastAggregate(s.entries).Some?
    requires SemanticsValid(LastAggregate(s.entries).value, FinalCriteria(s), plan, s.results, maxRevision)
    ensures |FinalCriteria(s)| <= 16
  {
    LastIsStored(s.entries);
    var i :| 0 <= i < |s.entries| && s.entries[i] == AggregateEntry(LastAggregate(s.entries).value);
    assert EntryFine(s.entries[i], Horizon(s));
  }

  lemma EvidenceDecides(s: State)
    requires CodesFew(s) && FewResults(s) && s.revision <= 2 && |FinalCriteria(s)| <= 16
    ensures FitsResponse(s) <==> |EvidenceIds(FinalCriteria(s))| <= 64
  {
    FewIssues(s);
    FewReceipts(s);
  }

  // ---- when a run can respond ---------------------------------------------------------------------------

  /** What makes a response check other than the verification did: a configured bound below two is used up
      and every issue is retryable. */
  predicate BoundConflict(env: Env, s: State) {
    env.maxRevision <= s.revision < 2 && Recoverable(FinalCriteria(s), s.revision, 2)
  }

  lemma VerifiedSupports(env: Env, s: State)
    requires s.node.ResponseNode? && Shape(s) && PassDone(s) && CurrentPass(env, s) && env.maxRevision <= 2
    ensures LastAggregate(s.entries).Some?
    ensures SupportsResponse(s) <==> !BoundConflict(env, s)
  {
    var a := LastAggregate(s.entries).value;
    BoundMatters(a, FinalCriteria(s), s.plan.value, s.results, env.maxRevision);
    StatusIsSupported(s, a);
  }

  /** A status that came from an aggregate is the one it supports. */
  lemma StatusIsSupported(s: State, a: Aggregate)
    requires s.status == VerifiedStatus(StatusFor(a)) && Terminal(s.status)
    requires LastAggregate(s.entries) == Some(a) && s.plan.Some?
    ensures SupportsResponse(s) <==> SemanticsValid(a, FinalCriteria(s), s.plan.value, s.results, 2)
  {
    StatusOfOutcome(a);
    SupportIs(s, a);
  }

  lemma StatusOfOutcome(a: Aggregate)
    ensures VerifiedStatus(StatusFor(a)).Succeeded? ==> a.outcome.OutcomeSucceeded?
    ensures VerifiedStatus(StatusFor(a)).PartiallySucceeded? ==> a.outcome.OutcomePartial?
  {
  }

  lemma SupportIs(s: State, a: Aggregate)
    requires Terminal(s.status) && LastAggregate(s.entries) == Some(a) && s.plan.Some?
    requires (s.status.Succeeded? ==> a.outcome.OutcomeSucceeded?) && (s.status.PartiallySucceeded? ==> a.outcome.OutcomePartial?)
    ensures SupportsResponse(s) <==> SemanticsValid(a, FinalCriteria(s), s.plan.value, s.results, 2)
  {
  }

  lemma RunFewCriteria(env: Env, trace: seq<State>, i: nat)
    requires Run(env, trace) && i < |trace| && env.maxRevision <= 2
    requires trace[i].node.ResponseNode? && !trace[i].status.Denied? && !trace[i].status.Expired?
    ensures |FinalCriteria(trace[i])| <= 16 && LastAggregate(trace[i].entries).Some?
    ensures SupportsResponse(trace[i]) <==> !BoundConflict(env, trace[i])
  {
    RunShape(env, trace, i);
    RunEvidence(env, trace, i);
    FewFinalCriteria(trace[i], trace[i].plan.value, env.maxRevision);
    VerifiedSupports(env, trace[i]);
  }

  lemma RunEvidenceDecides(env: Env, trace: seq<State>, i: nat)
    requires Run(env, trace) && i < |trace| && SettingsFine(env) && |FinalCriteria(trace[i])| <= 16
    ensures FitsResponse(trace[i]) <==> |EvidenceIds(FinalCriteria(trace[i]))| <= 64
  {
    RunCodes(env, trace, i);
    RunInvariant(env, trace, i);
    EvidenceDecides(trace[i]);
  }

  /** After a verification a response is rendered exactly unless its 64 evidence references overflow, or
      verification is configured with fewer than two revisions, that bound is used up, and every issue is
      retryable: then the response, which always checks under two, refuses what the verification stored.
      The limits on receipts and issue codes never bind. */
  lemma ResponseAfterVerification(env: Env, trace: seq<State>, i: nat)
    requires Run(env, trace) && i < |trace| && SettingsFine(env)
    requires trace[i].node.ResponseNode? && !trace[i].status.Denied? && !trace[i].status.Expired?
    ensures LastAggregate(trace[i].entries).Some?
    ensures Renderable(trace[i]) <==> !BoundConflict(env, trace[i]) && |EvidenceIds(FinalCriteria(trace[i]))| <= 64
  {
    RunFewCriteria(env, trace, i);
    RunEvidenceDecides(env, trace, i);
  }

  /** The evidence in the state is for a plan with these criteria and this many actions. */
  predicate SameCriteria(s: State)
    requires s.plan.Some? && LastAggregate(s.entries).Some?
  {
    var prior := LastAggregate(s.entries).value.verification.plan;
    ExpectedOf(s.plan.value.criteria) == ExpectedOf(prior.criteria) && |s.plan.value.actions| == |prior.actions|
  }

  lemma NoEvidenceYet(s: State)
    requires s.node.ResponseNode? && (s.status.Denied? || s.status.Expired?) && EntriesFine(s) && s.revision == 0
    ensures s.entries == [] && FinalCriteria(s) == [] && EvidenceIds(FinalCriteria(s)) == {}
  {
    assert |s.entries| > 0 ==> EntryFine(s.entries[0], Horizon(s));
  }

  lemma DeniedSupports(s: State)
    requires s.node.ResponseNode? && s.plan.Some? && (s.status.Denied? || s.status.Expired?)
    requires EntriesFine(s) && PriorPass(s)
    ensures |FinalCriteria(s)| <= 16
    ensures s.revision == 0 ==> SupportsResponse(s) && EvidenceIds(FinalCriteria(s)) == {}
    ensures s.revision > 0 ==> LastAggregate(s.entries).Some? && (SupportsResponse(s) <==> SameCriteria(s))
  {
    if s.revision == 0 {
      NoEvidenceYet(s);
    } else {
      var a := LastAggregate(s.entries).value;
      FewFinalCriteria(s, a.verification.plan, 2);
      EvidenceFitsOtherPlan(a, FinalCriteria(s), a.verification.plan, s.plan.value, s.results, 2);
    }
  }

  lemma RunDeniedSupports(env: Env, trace: seq<State>, i: nat)
    requires Run(env, trace) && i < |trace| && env.maxRevision <= 2
    requires trace[i].node.ResponseNode? && (trace[i].status.Denied? || trace[i].status.Expired?)
    ensures trace[i].plan.Some? && |FinalCriteria(trace[i])| <= 16
    ensures trace[i].revision == 0 ==> SupportsResponse(trace[i]) && EvidenceIds(FinalCriteria(trace[i])) == {}
    ensures trace[i].revision > 0 ==>
              LastAggregate(trace[i].entries).Some? && (SupportsResponse(trace[i]) <==> SameCriteria(trace[i]))
  {
    RunShape(env, trace, i);
    RunEvidence(env, trace, i);
    DeniedSupports(trace[i]);
  }

  /** A run denied by policy or by an approval: without a revision it always renders its response; after a
      revision it does so exactly when the revised plan has the same criteria and as many actions as the
      plan that was verified, because the response checks the old evidence against the new plan, and that
      evidence has at most 64 references. */
  lemma ResponseAfterDenial(env: Env, trace: seq<State>, i: nat)
    requires Run(env, trace) && i < |trace| && SettingsFine(env)
    requires trace[i].node.ResponseNode? && (trace[i].status.Denied? || trace[i].status.Expired?)
    ensures trace[i].revision == 0 ==> Renderable(trace[i])
    ensures trace[i].revision > 0 ==> trace[i].plan.Some? && LastAggregate(trace[i].entries).Some?
    ensures trace[i].revision > 0 ==>
              (Renderable(trace[i]) <==> SameCriteria(trace[i]) && |EvidenceIds(FinalCriteria(trace[i]))| <= 64)
  {
    RunDeniedSupports(env, trace, i);
    RunEvidenceDecides(env, trace, i);
  }
}
