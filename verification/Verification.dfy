/** Outcome verification: one observation per success criterion, one aggregate, one status. */
module Verification {
  import opened Collections
  import opened PlanModel
  import opened PlanValidation

  // ---- results and observations ---------------------------------------------------------------

  datatype ActionOutcome = ActionSucceeded | ActionFailed | ActionCancelled | ActionUncertain

  /** The text hashed to a dispatch id. */
  datatype DispatchId = DispatchId(taskId: string, actionId: Id)

  /** The collected projection of an executor result. */
  datatype ActionResult = ActionResult(actionId: Id, dispatchId: DispatchId, receiptId: string, outcome: ActionOutcome, completedAt: int)

  function ResultIds(results: seq<ActionResult>): seq<Id> {
    seq(|results|, i requires 0 <= i < |results| => results[i].actionId)
  }

  function ResultAction(r: ActionResult): Id { r.actionId }

  function ResultByAction(results: seq<ActionResult>): (m: map<Id, ActionResult>)
    ensures forall id :: id in m ==> m[id] in results && m[id].actionId == id
    ensures forall i :: 0 <= i < |results| ==> results[i].actionId in m
  {
    KeyedBy(ResultAction, results)
  }

  /** The text hashed to a verification id: task, thread, revision and the whole plan. */
  datatype VerificationId = VerificationId(taskId: string, threadId: string, revision: int, plan: Plan)

  /** The text hashed to an observation id. */
  datatype ObservationId = ObservationId(verification: VerificationId, criterionId: Id)

  datatype Verdict = Passed | Failed | Uncertain

  const SYSTEM_PROBE := "system.verification"
  const RESULT_MISSING := "action_result_missing"
  const PROBE_TIMEOUT := "probe_timeout"
  const PROBE_UNAVAILABLE := "probe_unavailable"

  datatype Observation = Observation(
    id: ObservationId, verification: VerificationId, criterionId: Id, actionId: Id, receiptId: Option<string>,
    code: string, probeId: string, verdict: Verdict, evidence: seq<string>, reason: Option<string>,
    retryable: bool, observedAt: int)

  /** The evidence a verdict needs. */
  predicate EvidenceFits(verdict: Verdict, evidence: seq<string>, reason: Option<string>, retryable: bool) {
    && Distinct(evidence) && |evidence| <= 8
    && (verdict.Passed? ==> evidence != [] && reason.None? && !retryable)
    && (verdict.Failed? ==> evidence != [] && reason.Some?)
    && (verdict.Uncertain? ==> reason.Some?)
  }

  predicate ObservationValid(o: Observation) {
    && EvidenceFits(o.verdict, o.evidence, o.reason, o.retryable)
    && (o.probeId == SYSTEM_PROBE ==>
          && o.verdict.Uncertain? && o.evidence == [] && o.retryable
          && o.reason.Some? && o.reason.value in {RESULT_MISSING, PROBE_TIMEOUT, PROBE_UNAVAILABLE})
    && (o.probeId != SYSTEM_PROBE ==> o.receiptId.Some?)
  }

  // ---- running one criterion ----------------------------------------------------------------------

  datatype ProbeResult = ProbeResult(
    probeId: string, verification: VerificationId, criterionId: Id, actionId: Id, receiptId: string,
    verdict: Verdict, evidence: seq<string>, reason: Option<string>, retryable: bool, observedAt: int)

  predicate ProbeResultValid(r: ProbeResult) {
    EvidenceFits(r.verdict, r.evidence, r.reason, r.retryable)
  }

  /** What the registry and the probe do with one criterion: arbitrary inputs of the run. */
  datatype ProbeAnswer =
    | NoProbe
    | TimedOut
    | Broke
    | Answered(probeId: string, result: ProbeResult)

  function SystemObservation(vid: VerificationId, c: Criterion, receiptId: Option<string>, reason: string, at: int): Observation {
    Observation(ObservationId(vid, c.id), vid, c.id, c.actionId, receiptId, c.code, SYSTEM_PROBE, Uncertain, [], Some(reason), true, at)
  }

  /** None is a rejected probe; everything else is one observation. */
  function RunCriterion(vid: VerificationId, c: Criterion, result: Option<ActionResult>, answer: ProbeAnswer, requestedAt: int): Option<Observation> {
    if result.None? then Some(SystemObservation(vid, c, None, RESULT_MISSING, requestedAt))
    else
      var receipt := Some(result.value.receiptId);
      match answer
      case NoProbe => Some(SystemObservation(vid, c, receipt, PROBE_UNAVAILABLE, requestedAt))
      case TimedOut => Some(SystemObservation(vid, c, receipt, PROBE_TIMEOUT, requestedAt))
      case Broke => Some(SystemObservation(vid, c, receipt, PROBE_UNAVAILABLE, requestedAt))
      case Answered(probeId, r) =>
        if !ProbeResultValid(r) || r.probeId != probeId || r.verification != vid || r.criterionId != c.id
           || r.actionId != c.actionId || r.receiptId != result.value.receiptId
           || r.observedAt < requestedAt || r.observedAt < result.value.completedAt
        then None
        else
          var o := Observation(ObservationId(vid, c.id), vid, c.id, c.actionId, receipt, c.code, r.probeId,
                               r.verdict, r.evidence, r.reason, r.retryable, r.observedAt);
          if ObservationValid(o) then Some(o) else None
  }

  // ---- the aggregate ------------------------------------------------------------------------------

  datatype VerifiedOutcome = OutcomeSucceeded | OutcomePartial | OutcomeFailed | OutcomeUncertain

  datatype Aggregate = Aggregate(
    verification: VerificationId, taskId: string, threadId: string, revision: int,
    outcome: VerifiedOutcome, recoverable: bool,
    criterionCount: int, passedCount: int, failedCount: int, uncertainCount: int,
    actionCount: int, resultCount: int, verifiedAt: int)

  predicate AggregateValid(a: Aggregate) {
    && 0 <= a.revision <= 2
    && 1 <= a.criterionCount <= 16 && 1 <= a.actionCount <= 8 && 0 <= a.resultCount <= a.actionCount
    && a.passedCount >= 0 && a.failedCount >= 0 && a.uncertainCount >= 0
    && a.passedCount + a.failedCount + a.uncertainCount == a.criterionCount
    && (a.outcome.OutcomeSucceeded? ==> !a.recoverable)
  }

  function VerdictCount(observations: seq<Observation>, v: Verdict): nat {
    if observations == [] then 0
    else VerdictCount(observations[..|observations| - 1], v) + if observations[|observations| - 1].verdict == v then 1 else 0
  }

  function Verdicts(observations: seq<Observation>): set<Verdict> {
    set i | 0 <= i < |observations| :: observations[i].verdict
  }

  function ClassifyOutcome(observations: seq<Observation>): VerifiedOutcome {
    var verdicts := Verdicts(observations);
    if verdicts == {Passed} then OutcomeSucceeded
    else if Uncertain in verdicts then OutcomeUncertain
    else if Passed in verdicts then OutcomePartial
    else OutcomeFailed
  }

  predicate Recoverable(observations: seq<Observation>, revision: int, maxRevision: int) {
    && (exists i :: 0 <= i < |observations| && !observations[i].verdict.Passed?)
    && (forall i :: 0 <= i < |observations| && !observations[i].verdict.Passed? ==> observations[i].retryable)
    && revision < maxRevision
  }

  function AggregateOf(vid: VerificationId, taskId: string, threadId: string, revision: int, plan: Plan, resultCount: nat,
                       observations: seq<Observation>, maxRevision: int, verifiedAt: int): Aggregate {
    Aggregate(vid, taskId, threadId, revision, ClassifyOutcome(observations), Recoverable(observations, revision, maxRevision),
              |observations|, VerdictCount(observations, Passed), VerdictCount(observations, Failed),
              VerdictCount(observations, Uncertain), |plan.actions|, resultCount, verifiedAt)
  }

  function CriterionId(c: Criterion): Id { c.id }

  function ExpectedOf(criteria: seq<Criterion>): (m: map<Id, Criterion>)
    ensures forall id :: id in m ==> m[id] in criteria && m[id].id == id
    ensures forall i :: 0 <= i < |criteria| ==> criteria[i].id in m
  {
    KeyedBy(CriterionId, criteria)
  }

  function ObservedIds(observations: seq<Observation>): seq<Id> {
    seq(|observations|, i requires 0 <= i < |observations| => observations[i].criterionId)
  }

  /** One observation answers one criterion of the plan under this verification. */
  predicate ObservationFits(o: Observation, vid: VerificationId, expected: map<Id, Criterion>, byAction: map<Id, ActionResult>) {
    && o.criterionId in expected
    && o.verification == vid && o.id == ObservationId(vid, o.criterionId)
    && o.actionId == expected[o.criterionId].actionId
    && o.code == expected[o.criterionId].code
    && (o.actionId in byAction ==> o.receiptId == Some(byAction[o.actionId].receiptId))
    && (o.actionId !in byAction ==> o.receiptId.None? && o.probeId == SYSTEM_PROBE && o.reason == Some(RESULT_MISSING))
  }

  /** The semantic validator shared by the fresh, stored and checkpointed paths. */
  predicate SemanticsValid(a: Aggregate, observations: seq<Observation>, plan: Plan, results: seq<ActionResult>, maxRevision: int) {
    var expected := ExpectedOf(plan.criteria);
    && |observations| == |expected|
    && SetOf(ObservedIds(observations)) == expected.Keys
    && (forall i :: 0 <= i < |observations| ==> ObservationFits(observations[i], a.verification, expected, ResultByAction(results)))
    && a.criterionCount == |observations| && a.actionCount == |plan.actions| && a.resultCount == |results|
    && a.outcome == ClassifyOutcome(observations)
    && a.recoverable == Recoverable(observations, a.revision, maxRevision)
    && a.passedCount == VerdictCount(observations, Passed)
    && a.failedCount == VerdictCount(observations, Failed)
    && a.uncertainCount == VerdictCount(observations, Uncertain)
    && (forall i :: 0 <= i < |observations| ==> observations[i].observedAt <= a.verifiedAt)
  }

  datatype TaskStatus = StatusPlanning | StatusSucceeded | StatusPartial | StatusFailed

  function StatusFor(a: Aggregate): TaskStatus {
    if a.recoverable then StatusPlanning
    else match a.outcome
      case OutcomeSucceeded => StatusSucceeded
      case OutcomePartial => StatusPartial
      case _ => StatusFailed
  }

  // ---- fresh aggregates are accepted --------------------------------------------------------------

  /** The observations of one fresh pass: each criterion of the plan, in order, with its own answer. */
  predicate FreshPass(vid: VerificationId, plan: Plan, results: seq<ActionResult>, answers: seq<ProbeAnswer>, requestedAt: int,
                      observations: seq<Observation>) {
    && |answers| == |observations| == |plan.criteria|
    && forall i :: 0 <= i < |observations| ==>
         RunCriterion(vid, plan.criteria[i], Find(results, plan.criteria[i].actionId), answers[i], requestedAt) == Some(observations[i])
  }

  function Find(results: seq<ActionResult>, actionId: Id): Option<ActionResult> {
    if actionId in ResultByAction(results) then Some(ResultByAction(results)[actionId]) else None
  }

  lemma {:induction false} ExpectedKeys(criteria: seq<Criterion>)
    ensures ExpectedOf(criteria).Keys == SetOf(CriterionIds(criteria))
    ensures |ExpectedOf(criteria)| == |criteria| <==> Distinct(CriterionIds(criteria))
  {
    var m, ids := ExpectedOf(criteria), CriterionIds(criteria);
    forall x ensures x in m <==> x in ids {
      if x in m {
        var k :| 0 <= k < |criteria| && criteria[k] == m[x];
        assert ids[k] == x;
      }
      if x in ids {
        var k :| 0 <= k < |ids| && ids[k] == x;
        assert criteria[k].id in m;
      }
    }
    assert m.Keys == SetOf(ids);
    DistinctCardinality(ids);
  }

  lemma SameCriterion(criteria: seq<Criterion>, i: nat, c: Criterion)
    requires Distinct(CriterionIds(criteria)) && i < |criteria| && c in criteria && c.id == criteria[i].id
    ensures c == criteria[i]
  {
    var j :| 0 <= j < |criteria| && criteria[j] == c;
    assert CriterionIds(criteria)[j] == CriterionIds(criteria)[i];
  }

  lemma ExpectedUnique(criteria: seq<Criterion>, i: nat)
    requires Distinct(CriterionIds(criteria)) && i < |criteria|
    ensures ExpectedOf(criteria)[criteria[i].id] == criteria[i]
  {
    SameCriterion(criteria, i, ExpectedOf(criteria)[criteria[i].id]);
  }

  /** A single fresh observation fits its criterion. */
  lemma RunFits(vid: VerificationId, c: Criterion, results: seq<ActionResult>, answer: ProbeAnswer, requestedAt: int)
    ensures var o := RunCriterion(vid, c, Find(results, c.actionId), answer, requestedAt);
            o.Some? ==>
              && ObservationValid(o.value) && o.value.criterionId == c.id
              && ObservationFits(o.value, vid, map[c.id := c], ResultByAction(results))
  {
  }

  /** A fresh aggregate passes the validator exactly when the plan's criterion ids are distinct. */
  lemma FreshAccepted(vid: VerificationId, taskId: string, threadId: string, revision: int, plan: Plan, results: seq<ActionResult>,
                      answers: seq<ProbeAnswer>, requestedAt: int, observations: seq<Observation>, maxRevision: int, verifiedAt: int)
    requires FreshPass(vid, plan, results, answers, requestedAt, observations)
    requires forall i :: 0 <= i < |observations| ==> observations[i].observedAt <= verifiedAt
    ensures SemanticsValid(AggregateOf(vid, taskId, threadId, revision, plan, |results|, observations, maxRevision, verifiedAt),
                           observations, plan, results, maxRevision)
       <==> Distinct(CriterionIds(plan.criteria))
  {
    ExpectedKeys(plan.criteria);
    FreshIds(vid, plan, results, answers, requestedAt, observations);
    if Distinct(CriterionIds(plan.criteria)) {
      forall i | 0 <= i < |observations|
        ensures ObservationFits(observations[i], vid, ExpectedOf(plan.criteria), ResultByAction(results))
      {
        RunFits(vid, plan.criteria[i], results, answers[i], requestedAt);
        ExpectedUnique(plan.criteria, i);
      }
    }
  }

  lemma FreshIds(vid: VerificationId, plan: Plan, results: seq<ActionResult>, answers: seq<ProbeAnswer>, requestedAt: int,
                 observations: seq<Observation>)
    requires FreshPass(vid, plan, results, answers, requestedAt, observations)
    ensures ObservedIds(observations) == CriterionIds(plan.criteria)
    ensures forall i :: 0 <= i < |observations| ==> ObservationValid(observations[i])
  {
    forall i | 0 <= i < |observations|
      ensures observations[i].criterionId == plan.criteria[i].id && ObservationValid(observations[i])
    {
      RunFits(vid, plan.criteria[i], results, answers[i], requestedAt);
    }
  }

  lemma {:induction false} CountsAddUp(observations: seq<Observation>)
    ensures VerdictCount(observations, Passed) + VerdictCount(observations, Failed) + VerdictCount(observations, Uncertain)
         == |observations|
  {
    if observations != [] {
      CountsAddUp(observations[..|observations| - 1]);
    }
  }

  /** A fresh aggregate also meets its own record contract. */
  lemma FreshAggregateValid(vid: VerificationId, taskId: string, threadId: string, revision: int, plan: Plan, resultCount: nat,
                            observations: seq<Observation>, maxRevision: int, verifiedAt: int)
    requires 1 <= |observations| <= 16 && 1 <= |plan.actions| <= 8 && resultCount <= |plan.actions| && 0 <= revision <= 2
    ensures AggregateValid(AggregateOf(vid, taskId, threadId, revision, plan, resultCount, observations, maxRevision, verifiedAt))
  {
    CountsAddUp(observations);
    if ClassifyOutcome(observations).OutcomeSucceeded? {
      forall i | 0 <= i < |observations| ensures observations[i].verdict.Passed? {
        assert observations[i].verdict in Verdicts(observations);
      }
    }
  }

  // ---- accepted aggregates are determined by their observations ---------------------------------

  /** Every path agrees: two aggregates of one revision that are accepted over the same observations, in
      any order, differ at most in their identity and time, and so give the same status. */
  lemma AcceptedAgree(a: Aggregate, observations: seq<Observation>, b: Aggregate, shuffled: seq<Observation>, plan: Plan,
                      results: seq<ActionResult>, maxRevision: int)
    requires SemanticsValid(a, observations, plan, results, maxRevision) && SemanticsValid(b, shuffled, plan, results, maxRevision)
    requires multiset(observations) == multiset(shuffled) && a.revision == b.revision
    ensures a == b.(verification := a.verification, taskId := a.taskId, threadId := a.threadId, verifiedAt := a.verifiedAt)
    ensures StatusFor(a) == StatusFor(b)
  {
    SameMembers(observations, shuffled);
    ReorderedSummary(observations, shuffled, a.revision, maxRevision);
  }

  /** The pigeonhole match: each criterion of the plan has exactly one observation. */
  lemma OneObservationEach(a: Aggregate, observations: seq<Observation>, plan: Plan, results: seq<ActionResult>, maxRevision: int, c: Criterion)
    returns (k: nat)
    requires SemanticsValid(a, observations, plan, results, maxRevision)
    requires c in plan.criteria
    ensures Distinct(ObservedIds(observations))
    ensures k < |observations| && observations[k].criterionId == c.id
    ensures forall j :: 0 <= j < |observations| && observations[j].criterionId == c.id ==> j == k
  {
    var ids := ObservedIds(observations);
    DistinctCardinality(ids);
    assert |SetOf(ids)| == |ExpectedOf(plan.criteria).Keys|;
    assert c.id in SetOf(ids);
    k :| 0 <= k < |ids| && ids[k] == c.id;
    forall j | 0 <= j < |observations| && observations[j].criterionId == c.id ensures j == k {
      assert ids[j] == ids[k];
    }
  }

  function IsVerdict(v: Verdict): Observation -> int {
    (o: Observation) => if o.verdict == v then 1 else 0
  }

  lemma {:induction false} CountIsTotal(observations: seq<Observation>, v: Verdict)
    ensures VerdictCount(observations, v) == Total(IsVerdict(v), observations)
  {
    if observations != [] {
      CountIsTotal(observations[..|observations| - 1], v);
    }
  }

  lemma SameMembers(a: seq<Observation>, b: seq<Observation>)
    requires multiset(a) == multiset(b)
    ensures |a| == |b|
    ensures forall i :: 0 <= i < |a| ==> exists j :: 0 <= j < |b| && b[j] == a[i]
  {
    assert |multiset(a)| == |a| && |multiset(b)| == |b|;
    forall i | 0 <= i < |a| ensures exists j :: 0 <= j < |b| && b[j] == a[i] {
      assert a[i] in multiset(b);
    }
  }

  lemma ReorderedSummary(a: seq<Observation>, b: seq<Observation>, revision: int, maxRevision: int)
    requires multiset(a) == multiset(b)
    ensures ClassifyOutcome(a) == ClassifyOutcome(b)
    ensures Recoverable(a, revision, maxRevision) == Recoverable(b, revision, maxRevision)
    ensures forall v :: VerdictCount(a, v) == VerdictCount(b, v)
  {
    SameMembers(a, b);
    SameMembers(b, a);
    assert Verdicts(a) == Verdicts(b);
    forall v ensures VerdictCount(a, v) == VerdictCount(b, v) {
      CountIsTotal(a, v);
      CountIsTotal(b, v);
      TotalPermutation(IsVerdict(v), a, b);
    }
  }

  /** The order in which observations come back from a checkpoint or a store does not matter. */
  lemma ObservationOrderIrrelevant(a: Aggregate, observations: seq<Observation>, shuffled: seq<Observation>, plan: Plan,
                                   results: seq<ActionResult>, maxRevision: int)
    requires SemanticsValid(a, observations, plan, results, maxRevision)
    requires multiset(observations) == multiset(shuffled)
    ensures SemanticsValid(a, shuffled, plan, results, maxRevision)
  {
    ReorderedSummary(observations, shuffled, a.revision, maxRevision);
    SameMembers(observations, shuffled);
    SameMembers(shuffled, observations);
    SameIds(observations, shuffled);
    SameIds(shuffled, observations);
  }

  lemma SameIds(a: seq<Observation>, b: seq<Observation>)
    requires multiset(a) == multiset(b)
    ensures SetOf(ObservedIds(a)) <= SetOf(ObservedIds(b))
  {
    SameMembers(a, b);
    forall x | x in ObservedIds(a) ensures x in ObservedIds(b) {
      var i :| 0 <= i < |a| && ObservedIds(a)[i] == x;
      var j :| 0 <= j < |b| && b[j] == a[i];
      assert ObservedIds(b)[j] == x;
    }
  }

  // ---- what an outcome means ------------------------------------------------------------------------

  /** The positions at which a verdict was given. */
  function Positions(observations: seq<Observation>, v: Verdict): set<nat> {
    set i: nat | i < |observations| && observations[i].verdict == v
  }

  lemma {:induction false} CountIsPositions(observations: seq<Observation>, v: Verdict)
    ensures VerdictCount(observations, v) == |Positions(observations, v)|
  {
    if observations == [] {
      assert Positions(observations, v) == {};
    } else {
      var n := |observations| - 1;
      CountIsPositions(observations[..n], v);
      if observations[n].verdict == v {
        assert Positions(observations, v) == Positions(observations[..n], v) + {n};
      } else {
        assert Positions(observations, v) == Positions(observations[..n], v);
      }
    }
  }

  lemma SomePosition(observations: seq<Observation>, v: Verdict)
    ensures |Positions(observations, v)| > 0 <==> exists i :: 0 <= i < |observations| && observations[i].verdict == v
  {
    if i :| 0 <= i < |observations| && observations[i].verdict == v {
      assert i in Positions(observations, v);
    }
  }

  /** An accepted aggregate counts each verdict exactly, and its outcome follows from the counts: success if
      nothing but passes, uncertain if anything is uncertain, and otherwise partial or failed by whether
      anything passed.  It is recoverable exactly if something did not pass, all of that may be retried and a
      revision is left; and it is dated no earlier than its observations. */
  lemma OutcomeByCounts(a: Aggregate, observations: seq<Observation>, plan: Plan, results: seq<ActionResult>, maxRevision: int)
    requires SemanticsValid(a, observations, plan, results, maxRevision) && observations != []
    ensures a.passedCount == |Positions(observations, Passed)| && a.failedCount == |Positions(observations, Failed)|
    ensures a.uncertainCount == |Positions(observations, Uncertain)|
    ensures a.passedCount + a.failedCount + a.uncertainCount == |observations| == a.criterionCount
    ensures a.actionCount == |plan.actions| && a.resultCount == |results|
    ensures forall i :: 0 <= i < |observations| ==> observations[i].observedAt <= a.verifiedAt
    ensures a.outcome.OutcomeSucceeded? <==> a.failedCount == 0 && a.uncertainCount == 0
    ensures a.outcome.OutcomePartial? <==> a.passedCount > 0 && a.failedCount > 0 && a.uncertainCount == 0
    ensures a.outcome.OutcomeFailed? <==> a.passedCount == 0 && a.uncertainCount == 0
    ensures a.outcome.OutcomeUncertain? <==> a.uncertainCount > 0
    ensures a.recoverable <==>
              && (a.failedCount > 0 || a.uncertainCount > 0) && a.revision < maxRevision
              && forall i :: 0 <= i < |observations| && !observations[i].verdict.Passed? ==> observations[i].retryable
  {
    CountsAddUp(observations);
    CountsTell(observations, Passed);
    CountsTell(observations, Failed);
    CountsTell(observations, Uncertain);
    OnlyPasses(observations);
  }

  lemma CountsTell(observations: seq<Observation>, v: Verdict)
    ensures VerdictCount(observations, v) == |Positions(observations, v)|
    ensures VerdictCount(observations, v) > 0 <==> v in Verdicts(observations)
    ensures VerdictCount(observations, v) > 0 <==> exists i :: 0 <= i < |observations| && observations[i].verdict == v
  {
    CountIsPositions(observations, v);
    SomePosition(observations, v);
  }

  lemma OnlyPasses(observations: seq<Observation>)
    requires observations != []
    ensures Verdicts(observations) == {Passed} <==> Failed !in Verdicts(observations) && Uncertain !in Verdicts(observations)
    ensures (exists i :: 0 <= i < |observations| && !observations[i].verdict.Passed?)
       <==> Failed in Verdicts(observations) || Uncertain in Verdicts(observations)
  {
    var first := observations[0].verdict;
    assert first in Verdicts(observations);
    if Failed !in Verdicts(observations) && Uncertain !in Verdicts(observations) {
      assert first == Passed;
      forall v ensures v in Verdicts(observations) <==> v == Passed {
        assert v == Passed || v == Failed || v == Uncertain;
      }
    }
    if i :| 0 <= i < |observations| && !observations[i].verdict.Passed? {
      assert observations[i].verdict in Verdicts(observations);
    }
  }

  /** A verdict other than uncertain comes from a probe that answered this very criterion, for this result and
      this pass, after the result was complete and the pass was asked for; without a result, a probe or an
      answer the criterion stays uncertain and may be retried. */
  lemma VerdictFromProbe(vid: VerificationId, c: Criterion, result: Option<ActionResult>, answer: ProbeAnswer, requestedAt: int)
    requires RunCriterion(vid, c, result, answer, requestedAt).Some?
    ensures var o := RunCriterion(vid, c, result, answer, requestedAt).value;
            && o.criterionId == c.id && o.actionId == c.actionId && o.code == c.code && o.verification == vid
            && (result.None? || !answer.Answered? ==> o.verdict.Uncertain? && o.evidence == [] && o.retryable && o.probeId == SYSTEM_PROBE)
            && (result.None? ==> o.reason == Some(RESULT_MISSING))
            && (result.Some? && answer.TimedOut? ==> o.reason == Some(PROBE_TIMEOUT))
            && (result.Some? && (answer.NoProbe? || answer.Broke?) ==> o.reason == Some(PROBE_UNAVAILABLE))
            && (result.Some? && answer.Answered? ==>
                  && answer.result.verification == vid && answer.result.criterionId == c.id && answer.result.actionId == c.actionId
                  && answer.result.receiptId == result.value.receiptId && o.receiptId == Some(result.value.receiptId)
                  && answer.result.probeId == answer.probeId == o.probeId
                  && o.verdict == answer.result.verdict && o.evidence == answer.result.evidence && o.reason == answer.result.reason
                  && o.retryable == answer.result.retryable
                  && requestedAt <= o.observedAt && result.value.completedAt <= o.observedAt == answer.result.observedAt)
            && (o.verdict.Passed? || o.verdict.Failed? ==> o.evidence != [] && |o.evidence| <= 8)
            && (o.verdict.Passed? ==> o.reason.None? && !o.retryable)
  {
  }

  // ---- what success means -------------------------------------------------------------------------

  /** A criterion is proved: it passed on non-empty evidence from a real probe, against a collected result. */
  predicate Proved(o: Observation, c: Criterion, results: seq<ActionResult>) {
    && o.criterionId == c.id && o.actionId == c.actionId && o.code == c.code
    && o.verdict.Passed? && o.evidence != [] && o.probeId != SYSTEM_PROBE
    && c.actionId in ResultByAction(results)
    && o.receiptId == Some(ResultByAction(results)[c.actionId].receiptId)
  }

  /** A succeeded status means every criterion of the plan is proved. */
  lemma SuccessIsProved(a: Aggregate, observations: seq<Observation>, plan: Plan, results: seq<ActionResult>, maxRevision: int, c: Criterion)
    returns (o: Observation)
    requires SemanticsValid(a, observations, plan, results, maxRevision)
    requires forall i :: 0 <= i < |observations| ==> ObservationValid(observations[i])
    requires a.outcome.OutcomeSucceeded? && Distinct(CriterionIds(plan.criteria)) && c in plan.criteria
    ensures o in observations && Proved(o, c, results)
  {
    var k := OneObservationEach(a, observations, plan, results, maxRevision, c);
    o := observations[k];
    var i :| 0 <= i < |plan.criteria| && plan.criteria[i] == c;
    ExpectedUnique(plan.criteria, i);
    AllPassed(observations, k);
    PassedIsProved(o, c, a.verification, ExpectedOf(plan.criteria), results);
  }

  lemma AllPassed(observations: seq<Observation>, k: nat)
    requires ClassifyOutcome(observations).OutcomeSucceeded? && k < |observations|
    ensures observations[k].verdict.Passed?
  {
    assert observations[k].verdict in Verdicts(observations);
  }

  lemma PassedIsProved(o: Observation, c: Criterion, vid: VerificationId, expected: map<Id, Criterion>, results: seq<ActionResult>)
    requires o.criterionId == c.id && c.id in expected && expected[c.id] == c
    requires ObservationFits(o, vid, expected, ResultByAction(results)) && ObservationValid(o) && o.verdict.Passed?
    ensures Proved(o, c, results)
  {
  }

  // ---- replay from a checkpoint -------------------------------------------------------------------

  /** An entry of the observation list in the state; malformed entries of either kind are kept apart. */
  datatype Raw =
    | RawCriterion(verification: VerificationId, observation: Option<Observation>)
    | RawAggregate(verification: VerificationId, aggregate: Option<Aggregate>)
    | RawOther

  /** The identity an aggregate must have to be replayed. */
  datatype ReplayContext = ReplayContext(
    vid: VerificationId, taskId: string, threadId: string, revision: int, plan: Plan, results: seq<ActionResult>, maxRevision: int)

  function CriteriaOf(raws: seq<Raw>, vid: VerificationId): seq<Observation> {
    if raws == [] then []
    else
      var rest := CriteriaOf(raws[..|raws| - 1], vid);
      var last := raws[|raws| - 1];
      if last.RawCriterion? && last.verification == vid && last.observation.Some? then rest + [last.observation.value] else rest
  }

  function AggregatesOf(raws: seq<Raw>, vid: VerificationId): seq<Aggregate> {
    if raws == [] then []
    else
      var rest := AggregatesOf(raws[..|raws| - 1], vid);
      var last := raws[|raws| - 1];
      if last.RawAggregate? && last.verification == vid && last.aggregate.Some? then rest + [last.aggregate.value] else rest
  }

  predicate Malformed(raws: seq<Raw>, vid: VerificationId) {
    exists i :: 0 <= i < |raws| && MalformedEntry(raws[i], vid)
  }

  predicate Replayable(a: Aggregate, criteria: seq<Observation>, c: ReplayContext) {
    var expected := SetOf(CriterionIds(c.plan.criteria));
    && a.taskId == c.taskId && a.threadId == c.threadId && a.revision == c.revision
    && a.criterionCount == |expected| && a.actionCount == |c.plan.actions| && a.resultCount == |c.results|
    && |criteria| == |expected| && SetOf(ObservedIds(criteria)) == expected
    && (forall i :: 0 <= i < |criteria| ==> criteria[i].verification == c.vid)
    && SemanticsValid(a, criteria, c.plan, c.results, c.maxRevision)
  }

  datatype Replay = NothingToReplay | Replayed(aggregate: Aggregate) | CheckpointInvalid

  /** Replay returns the single checkpointed aggregate when its observations still justify it, nothing
      when there is none, and rejects every mixed, repeated or malformed checkpoint. */
  method ValidateCheckpointReplay(raws: seq<Raw>, c: ReplayContext) returns (r: Replay)
    ensures r.NothingToReplay? <==>
              !Malformed(raws, c.vid) && AggregatesOf(raws, c.vid) == [] && CriteriaOf(raws, c.vid) == []
    ensures r.Replayed? <==>
              !Malformed(raws, c.vid) && |AggregatesOf(raws, c.vid)| == 1
              && Replayable(AggregatesOf(raws, c.vid)[0], CriteriaOf(raws, c.vid), c)
    ensures r.Replayed? ==> r.aggregate == AggregatesOf(raws, c.vid)[0]
  {
    var criteria: seq<Observation> := [];
    var aggregate: Option<Aggregate> := None;
    for i := 0 to |raws|
      invariant !Malformed(raws[..i], c.vid)
      invariant criteria == CriteriaOf(raws[..i], c.vid)
      invariant AggregatesOf(raws[..i], c.vid) == if aggregate.Some? then [aggregate.value] else []
    {
      var raw := raws[i];
      assert raws[..i + 1][..i] == raws[..i];
      ReplayPrefix(raws, i + 1, c.vid);
      if raw.RawCriterion? && raw.verification == c.vid {
        if raw.observation.None? {
          assert MalformedEntry(raws[i], c.vid);
          return CheckpointInvalid;
        }
        criteria := criteria + [raw.observation.value];
      } else if raw.RawAggregate? && raw.verification == c.vid {
        if raw.aggregate.None? {
          assert MalformedEntry(raws[i], c.vid);
          return CheckpointInvalid;
        }
        if aggregate.Some? {
          return CheckpointInvalid;
        }
        aggregate := raw.aggregate;
      }
    }
    assert raws[..|raws|] == raws;
    if aggregate.None? {
      return if criteria != [] then CheckpointInvalid else NothingToReplay;
    }
    return if Replayable(aggregate.value, criteria, c) then Replayed(aggregate.value) else CheckpointInvalid;
  }

  predicate MalformedEntry(raw: Raw, vid: VerificationId) {
    || (raw.RawCriterion? && raw.verification == vid && raw.observation.None?)
    || (raw.RawAggregate? && raw.verification == vid && raw.aggregate.None?)
  }

  lemma {:induction false} ReplayPrefix(raws: seq<Raw>, i: nat, vid: VerificationId)
    requires i <= |raws|
    ensures |AggregatesOf(raws[..i], vid)| <= |AggregatesOf(raws, vid)|
    decreases |raws|
  {
    if i < |raws| {
      assert raws[..|raws| - 1][..i] == raws[..i];
      ReplayPrefix(raws[..|raws| - 1], i, vid);
    } else {
      assert raws[..i] == raws;
    }
  }

  /** A replay gives the status that any accepted aggregate over its observations gives, stored or fresh. */
  lemma ReplayAgrees(a: Aggregate, criteria: seq<Observation>, c: ReplayContext, b: Aggregate, observations: seq<Observation>)
    requires Replayable(a, criteria, c)
    requires SemanticsValid(b, observations, c.plan, c.results, c.maxRevision) && b.revision == c.revision
    requires multiset(criteria) == multiset(observations)
    ensures StatusFor(a) == StatusFor(b)
  {
    AcceptedAgree(a, criteria, b, observations, c.plan, c.results, c.maxRevision);
  }
}
