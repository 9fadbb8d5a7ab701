/** Building runs: what each node can be given so that a run goes on from a state it has reached. */
module WorkflowRuns {
  import opened Collections
  import opened PlanModel
  import opened TopologicalOrder
  import opened CriticalPath
  import opened PlanValidation
  import opened PlanDrafting
  import opened Policy
  import opened Verification
  import opened Dispatch
  import opened Revision
  import opened Workflow
  import opened WorkflowBounds
  import opened WorkflowSafety
  import opened WorkflowOutcome

  /** Some run visits this state last. */
  ghost predicate Reaches(env: Env, s: State) {
    exists before :: Run(env, before + [s])
  }

  lemma ReachedRun(env: Env, s: State) returns (trace: seq<State>)
    requires Reaches(env, s)
    ensures Run(env, trace) && trace[|trace| - 1] == s
  {
    var before :| Run(env, before + [s]);
    trace := before + [s];
  }

  lemma ReachesStart(env: Env)
    ensures Reaches(env, Start(Created))
  {
    assert [] + [Start(Created)] == [Start(Created)];
    assert Run(env, [] + [Start(Created)]);
  }

  lemma ReachesNext(env: Env, s: State, s': State, input: Input)
    requires Reaches(env, s) && Step(env, s, input) == Some(s')
    ensures Reaches(env, s')
  {
    var before :| Run(env, before + [s]);
    assert Next(env, s, s');
    RunGrows(env, before + [s], s');
  }

  lemma RunGrows(env: Env, trace: seq<State>, s': State)
    requires Run(env, trace) && Next(env, trace[|trace| - 1], s')
    ensures Run(env, trace + [s'])
  {
    var longer := trace + [s'];
    forall i | 0 < i < |longer| ensures Next(env, longer[i - 1], longer[i]) {
      if i < |trace| {
        assert Next(env, trace[i - 1], trace[i]);
      }
    }
  }

  /** What holds in every state that is reached. */
  lemma ReachedInvariant(env: Env, s: State)
    requires Reaches(env, s)
    ensures Invariant(env, s)
  {
    var trace := ReachedRun(env, s);
    RunInvariant(env, trace, |trace| - 1);
  }

  lemma ReachedEvidence(env: Env, s: State)
    requires Reaches(env, s) && env.maxRevision <= 2
    ensures EvidenceInvariant(env, s)
  {
    var trace := ReachedRun(env, s);
    RunEvidence(env, trace, |trace| - 1);
  }

  lemma ReachedRevision(env: Env, s: State)
    requires Reaches(env, s) && env.maxRevision <= 2 && s.node.ReviseNode?
    ensures RevisionState(env, s) && RevisionTriggered(s)
  {
    var trace := ReachedRun(env, s);
    RevisionNeverRefused(env, trace, |trace| - 1);
  }

  // ---- one lemma per node: what it returns is reached -------------------------------------------------------

  lemma AfterPrepare(env: Env, s: State, s': State)
    requires Reaches(env, s) && (s.node.NormalizeNode? || s.node.IntentNode?) && PrepareStep(s) == Some(s')
    ensures Reaches(env, s')
  {
    ReachesNext(env, s, s', Proceed);
  }

  lemma AfterContext(env: Env, s: State, s': State)
    requires Reaches(env, s) && s.node == ContextNode && ContextStep(s, true, true) == Some(s')
    ensures Reaches(env, s')
  {
    assert Step(env, s, Context(true, true)) == ContextStep(s, true, true);
    ReachesNext(env, s, s', Context(true, true));
  }

  lemma AfterPlan(env: Env, s: State, s': State, d: ModelDraft, bundle: Bundle)
    requires Reaches(env, s) && s.node == PlanNode && PlanStep(env, s, d, bundle) == Some(s')
    ensures Reaches(env, s')
  {
    assert Step(env, s, Draft(d, bundle)) == PlanStep(env, s, d, bundle);
    ReachesNext(env, s, s', Draft(d, bundle));
  }

  lemma AtValidate(env: Env, s: State, input: Input, bundle: Bundle)
    requires s.node == ValidateNode && input == Manifest(bundle)
    ensures Step(env, s, input) == ValidateStep(env, s, bundle)
  {
    assert input.Manifest? && input.bundle == bundle;
    assert Step(env, s, input) == ValidateStep(env, s, input.bundle);
  }

  lemma AfterValidate(env: Env, s: State, s': State, bundle: Bundle)
    requires Reaches(env, s) && s.node == ValidateNode && ValidateStep(env, s, bundle) == Some(s')
    ensures Reaches(env, s')
  {
    AtValidate(env, s, Manifest(bundle), bundle);
    ReachesNext(env, s, s', Manifest(bundle));
  }

  lemma AfterPolicy(env: Env, s: State, s': State, snapshot: Snapshot)
    requires Reaches(env, s) && s.node == PolicyNode && PolicyStep(env, s, snapshot, []) == Some(s')
    ensures Reaches(env, s')
  {
    assert Step(env, s, PolicyData(snapshot, [])) == PolicyStep(env, s, snapshot, []);
    ReachesNext(env, s, s', PolicyData(snapshot, []));
  }

  lemma AfterPause(env: Env, s: State, s': State, c: Checkpoint)
    requires Reaches(env, s) && s.node == PauseNode && PauseStep(env, s, c.issuedAt, c.expiresAt, c.answered, c.approve) == Some(s')
    ensures Reaches(env, s')
  {
    var input := Answer(c.issuedAt, c.expiresAt, c.answered, c.approve);
    assert Step(env, s, input) == PauseStep(env, s, c.issuedAt, c.expiresAt, c.answered, c.approve);
    ReachesNext(env, s, s', input);
  }

  lemma AfterResume(env: Env, s: State, s': State, r: Resolution)
    requires Reaches(env, s) && s.node == ResumeNode && ResumeStep(env, s, r.resolutionId, r.outcome, r.decidedAt) == Some(s')
    ensures Reaches(env, s')
  {
    var input := Decision(r.resolutionId, r.outcome, r.decidedAt);
    assert Step(env, s, input) == ResumeStep(env, s, r.resolutionId, r.outcome, r.decidedAt);
    ReachesNext(env, s, s', input);
  }

  lemma AfterDispatch(env: Env, s: State, s': State, now: int)
    requires Reaches(env, s) && s.node == DispatchNode && DispatchStep(env, s, now) == Some(s')
    ensures Reaches(env, s')
  {
    assert Step(env, s, Clock(now)) == DispatchStep(env, s, now);
    ReachesNext(env, s, s', Clock(now));
  }

  lemma AfterCollect(env: Env, s: State, s': State, result: ExecutorResult, collectedAt: int)
    requires Reaches(env, s) && s.node == CollectNode && CollectStep(env, s, result, collectedAt) == Some(s')
    ensures Reaches(env, s')
  {
    assert Step(env, s, Receipt(result, collectedAt)) == CollectStep(env, s, result, collectedAt);
    ReachesNext(env, s, s', Receipt(result, collectedAt));
  }

  lemma AtVerify(env: Env, s: State, input: Input, criteria: seq<Observation>, a: Aggregate)
    requires s.node == VerifyNode && input == Probes(criteria, a)
    ensures Step(env, s, input) == VerifyStep(env, s, criteria, a)
  {
    assert input.Probes? && input.criteria == criteria && input.aggregate == a;
    assert Step(env, s, input) == VerifyStep(env, s, input.criteria, input.aggregate);
  }

  lemma AfterVerify(env: Env, s: State, s': State, criteria: seq<Observation>, a: Aggregate)
    requires Reaches(env, s) && s.node == VerifyNode && VerifyStep(env, s, criteria, a) == Some(s')
    ensures Reaches(env, s')
  {
    AtVerify(env, s, Probes(criteria, a), criteria, a);
    ReachesNext(env, s, s', Probes(criteria, a));
  }

  lemma AtRevise(env: Env, s: State, input: Input, d: ModelDraft, bundle: Bundle)
    requires s.node == ReviseNode && input == Draft(d, bundle)
    ensures Step(env, s, input) == ReviseStep(env, s, d, bundle)
  {
    assert input.Draft? && input.draft == d && input.bundle == bundle;
    assert Step(env, s, input) == ReviseStep(env, s, input.draft, input.bundle);
  }

  lemma AfterRevise(env: Env, s: State, s': State, d: ModelDraft, bundle: Bundle)
    requires Reaches(env, s) && s.node == ReviseNode && ReviseStep(env, s, d, bundle) == Some(s')
    ensures Reaches(env, s')
  {
    AtRevise(env, s, Draft(d, bundle), d, bundle);
    ReachesNext(env, s, s', Draft(d, bundle));
  }

  lemma AfterResponse(env: Env, s: State, s': State)
    requires Reaches(env, s) && s.node == ResponseNode && ResponseStep(s) == Some(s')
    ensures Reaches(env, s')
  {
    assert Step(env, s, Proceed) == ResponseStep(s);
    ReachesNext(env, s, s', Proceed);
  }

  // ---- from the start to policy --------------------------------------------------------------------------------

  function Planned(plan: Plan): State {
    Start(Planning).(node := PolicyNode, plan := Some(plan))
  }

  lemma ReachesPrepared(env: Env)
    ensures Reaches(env, Start(Planning).(node := PlanNode))
  {
    var s := Start(Planning);
    ReachesStart(env);
    AfterPrepare(env, Start(Created), s.(node := ContextNode));
    assert s.errors + [] == [];
    AfterContext(env, s.(node := ContextNode), s.(node := IntentNode));
    AfterPrepare(env, s.(node := IntentNode), s.(node := PlanNode));
  }

  /** The plan of an accepted draft. */
  function PlanFor(env: Env, d: ModelDraft): Plan
    requires LabelsResolved(d.actions) && CriteriaResolved(d)
  {
    Projected(env.digest, env.identity.taskId, d)
  }

  /** A draft the planner takes and whose plan the validator takes. */
  ghost predicate Viable(env: Env, d: ModelDraft, bundle: Bundle) {
    && ModelAccepted(d, env.intent, bundle, env.drafts)
    && LabelsResolved(d.actions) && CriteriaResolved(d)
    && Accepted(PlanFor(env, d), bundle, env.validation)
  }

  lemma PlanStepIs(env: Env, s: State, d: ModelDraft, bundle: Bundle)
    requires s.status.Planning? && s.plan.None? && Viable(env, d, bundle)
    ensures PlanStep(env, s, d, bundle) == Some(s.(plan := Some(PlanFor(env, d)), node := ValidateNode))
  {
  }

  lemma ReachesPlanned(env: Env, d: ModelDraft, bundle: Bundle)
    requires Viable(env, d, bundle)
    ensures Reaches(env, Planned(PlanFor(env, d)))
  {
    var s, plan := Start(Planning), PlanFor(env, d);
    var drafted := s.(plan := Some(plan), node := ValidateNode);
    ReachesPrepared(env);
    PlanStepIs(env, s.(node := PlanNode), d, bundle);
    AfterPlan(env, s.(node := PlanNode), drafted, d, bundle);
    AfterValidate(env, drafted, Planned(plan), bundle);
  }

  // ---- a policy that decides the same about every action -------------------------------------------------------------

  function RuleName(i: nat): string {
    "prl_standard" + seq(i, _ => 'x')
  }

  /** One rule for each capability of the actions. */
  function RulesFor(actions: seq<PlanAction>, kind: DecisionKind): seq<ActionRule> {
    if actions == [] then []
    else
      var rest, last := RulesFor(actions[..|actions| - 1], kind), actions[|actions| - 1];
      if FindRule(rest, last.capabilityId, last.capabilityVersion).Some? then rest
      else rest + [RuleFor(|rest|, last, kind)]
  }

  function RuleFor(i: nat, a: PlanAction, kind: DecisionKind): ActionRule {
    ActionRule(RuleName(i), a.capabilityId, a.capabilityVersion, kind, R1, "standard_rule", None)
  }

  function UniformSnapshot(actions: seq<PlanAction>, kind: DecisionKind, version: string): Snapshot {
    Snapshot("pol_standard", version, RulesFor(actions, kind), [])
  }

  predicate RuleFine(rule: ActionRule, i: nat, kind: DecisionKind) {
    rule.ruleId == RuleName(i) && rule.decision == kind && rule.risk == R1 && rule.grant == None
  }

  predicate RulesFine(rules: seq<ActionRule>, kind: DecisionKind) {
    KeysDistinct(rules) && forall i :: 0 <= i < |rules| ==> RuleFine(rules[i], i, kind)
  }

  lemma {:induction false} RulesAreFine(actions: seq<PlanAction>, kind: DecisionKind)
    ensures RulesFine(RulesFor(actions, kind), kind) && |RulesFor(actions, kind)| <= |actions|
  {
    if actions != [] {
      var rest, last := RulesFor(actions[..|actions| - 1], kind), actions[|actions| - 1];
      RulesAreFine(actions[..|actions| - 1], kind);
      if FindRule(rest, last.capabilityId, last.capabilityVersion).None? {
        RuleAdded(rest, last, kind);
      }
    }
  }

  lemma RuleAdded(rest: seq<ActionRule>, last: PlanAction, kind: DecisionKind)
    requires RulesFine(rest, kind) && FindRule(rest, last.capabilityId, last.capabilityVersion).None?
    ensures RulesFine(rest + [RuleFor(|rest|, last, kind)], kind)
  {
    var rule := RuleFor(|rest|, last, kind);
    KeyAdded(rest, rule);
    forall i | 0 <= i <= |rest| ensures RuleFine((rest + [rule])[i], i, kind) {
      if i < |rest| { assert (rest + [rule])[i] == rest[i] && RuleFine(rest[i], i, kind); }
    }
  }

  lemma KeyAdded(rest: seq<ActionRule>, rule: ActionRule)
    requires KeysDistinct(rest)
    requires forall i :: 0 <= i < |rest| ==>
               !(rest[i].capabilityId == rule.capabilityId && rest[i].capabilityVersion == rule.capabilityVersion)
    ensures KeysDistinct(rest + [rule])
  {
    var all := rest + [rule];
    forall i, j | 0 <= i < j < |all|
      ensures (all[i].capabilityId, all[i].capabilityVersion) != (all[j].capabilityId, all[j].capabilityVersion)
    {
      assert all[i] == rest[i];
      if j < |rest| { assert all[j] == rest[j]; }
    }
  }

  lemma SnapshotIsValid(actions: seq<PlanAction>, kind: DecisionKind, version: string)
    requires |actions| <= 64
    ensures SnapshotValid(UniformSnapshot(actions, kind, version))
  {
    var s := UniformSnapshot(actions, kind, version);
    RulesAreFine(actions, kind);
    forall i | 0 <= i < |s.rules| ensures RuleValid(s.rules[i]) { assert RuleFine(s.rules[i], i, kind); }
    forall i, j | 0 <= i < j < |RuleIds(s)| ensures RuleIds(s)[i] != RuleIds(s)[j] {
      assert RuleFine(s.rules[i], i, kind) && RuleFine(s.rules[j], j, kind);
      assert |RuleName(i)| != |RuleName(j)|;
    }
  }

  lemma {:induction false} RuleFound(actions: seq<PlanAction>, kind: DecisionKind, a: PlanAction)
    requires a in actions
    ensures FindRule(RulesFor(actions, kind), a.capabilityId, a.capabilityVersion).Some?
  {
    var n := |actions| - 1;
    var rest, all := RulesFor(actions[..n], kind), RulesFor(actions, kind);
    if a != actions[n] {
      InInit(actions, a);
      RuleFound(actions[..n], kind, a);
      if all != rest { assert all[..|rest|] == rest; }
    }
  }

  lemma InInit<T>(s: seq<T>, x: T)
    requires x in s && x != s[|s| - 1]
    ensures x in s[..|s| - 1]
  {
    var i :| 0 <= i < |s| && s[i] == x;
    assert s[..|s| - 1][i] == x;
  }

  lemma VerdictIs(actions: seq<PlanAction>, kind: DecisionKind, version: string, a: PlanAction)
    requires a in actions
    ensures FinalVerdict(UniformSnapshot(actions, kind, version), [], actions, a).decision == kind
  {
    var rules := RulesFor(actions, kind);
    RuleFound(actions, kind, a);
    RulesAreFine(actions, kind);
    var rule := FindRule(rules, a.capabilityId, a.capabilityVersion).value;
    var i :| 0 <= i < |rules| && rules[i] == rule;
    assert RuleFine(rules[i], i, kind);
    assert SortBy(AggregateLeq, []) == [] && SortBy(AdviceLeq, []) == [];
  }

  function UniformDecisions(env: Env, actions: seq<PlanAction>, kind: DecisionKind, version: string): seq<PolicyDecision> {
    Decide(env.identity.taskId, UniformSnapshot(actions, kind, version), [], actions)
  }

  /** One decision of this kind for each action. */
  predicate AllDecided(ds: seq<PolicyDecision>, actions: seq<PlanAction>, kind: DecisionKind, version: string) {
    && |ds| == |actions|
    && forall i :: 0 <= i < |ds| ==>
         && ds[i].actionId == actions[i].id && ds[i].decision == kind && ds[i].freshApproval == kind.Ask?
         && ds[i].referenceId == "pol_standard" && ds[i].version == version
  }

  lemma DecisionsAre(env: Env, actions: seq<PlanAction>, kind: DecisionKind, version: string)
    ensures AllDecided(UniformDecisions(env, actions, kind, version), actions, kind, version)
  {
    forall i | 0 <= i < |actions|
      ensures FinalVerdict(UniformSnapshot(actions, kind, version), [], actions, actions[i]).decision == kind
    {
      VerdictIs(actions, kind, version, actions[i]);
    }
  }

  function StatusGiven(kind: DecisionKind): WorkflowStatus {
    match kind case Deny => StatusDenied case Ask => StatusAwaitingApproval case Allow => StatusExecuting
  }

  lemma StatusIs(ds: seq<PolicyDecision>, actions: seq<PlanAction>, kind: DecisionKind, version: string)
    requires AllDecided(ds, actions, kind, version) && actions != []
    ensures StatusOf(ds) == StatusGiven(kind)
  {
    assert ds[0].decision == kind;
  }

  function NodeGiven(kind: DecisionKind): Node {
    match kind case Deny => ResponseNode case Ask => PauseNode case Allow => DispatchNode
  }

  function Judged(env: Env, s: State, kind: DecisionKind, version: string): State
    requires s.plan.Some?
  {
    s.(decisions := UniformDecisions(env, s.plan.value.actions, kind, version), status := PolicyStatus(StatusGiven(kind)),
       node := NodeGiven(kind))
  }

  lemma PolicyStepIs(env: Env, s: State, kind: DecisionKind, version: string)
    requires s.status.Planning? && s.plan.Some? && s.decisions == [] && 1 <= |s.plan.value.actions| <= 64
    ensures PolicyStep(env, s, UniformSnapshot(s.plan.value.actions, kind, version), []) == Some(Judged(env, s, kind, version))
  {
    var actions := s.plan.value.actions;
    SnapshotIsValid(actions, kind, version);
    DecisionsAre(env, actions, kind, version);
    StatusIs(UniformDecisions(env, actions, kind, version), actions, kind, version);
    JudgedIs(env, s, kind, version);
  }

  lemma JudgedIs(env: Env, s: State, kind: DecisionKind, version: string)
    requires s.status.Planning? && s.plan.Some? && s.decisions == [] && s.plan.value.actions != []
    requires SnapshotValid(UniformSnapshot(s.plan.value.actions, kind, version))
    requires StatusOf(UniformDecisions(env, s.plan.value.actions, kind, version)) == StatusGiven(kind)
    ensures PolicyStep(env, s, UniformSnapshot(s.plan.value.actions, kind, version), []) == Some(Judged(env, s, kind, version))
  {
    assert RouteAfterPolicy(PolicyStatus(StatusGiven(kind))) == Some(NodeGiven(kind));
  }

  lemma ReachesJudged(env: Env, s: State, kind: DecisionKind, version: string)
    requires Reaches(env, s) && s.node.PolicyNode? && s.status.Planning? && s.plan.Some? && s.decisions == []
    requires 1 <= |s.plan.value.actions| <= 64
    ensures Reaches(env, Judged(env, s, kind, version))
  {
    PolicyStepIs(env, s, kind, version);
    AfterPolicy(env, s, Judged(env, s, kind, version), UniformSnapshot(s.plan.value.actions, kind, version));
  }

  // ---- dispatch under such a policy --------------------------------------------------------------------------------------

  lemma {:induction false} SomeCode(criteria: seq<Criterion>, i: nat)
    requires i < |criteria|
    ensures CodesFor(criteria, criteria[i].actionId) != []
  {
    if i < |criteria| - 1 { SomeCode(criteria[..|criteria| - 1], i); }
  }

  lemma CodesOf(plan: Plan, a: PlanAction)
    requires CoveredIds(plan.criteria) == SetOf(ActionIds(plan.actions)) && a in plan.actions
    ensures SortedCodes(plan, a.id) != []
  {
    var i :| 0 <= i < |plan.actions| && plan.actions[i] == a;
    assert ActionIds(plan.actions)[i] == a.id;
    var c := CoveringCriterion(plan, a.id);
    var k :| 0 <= k < |plan.criteria| && plan.criteria[k] == c;
    SomeCode(plan.criteria, k);
    SortByMultiset(TextLeq, CodesFor(plan.criteria, a.id));
  }

  lemma DecidedIds(ds: seq<PolicyDecision>, actions: seq<PlanAction>, kind: DecisionKind, version: string)
    requires AllDecided(ds, actions, kind, version)
    ensures DecisionIds(ds) == ActionIds(actions)
  {
  }

  lemma RelationsHold(plan: Plan, ds: seq<PolicyDecision>, kind: DecisionKind, version: string, results: seq<ActionResult>)
    requires AllDecided(ds, plan.actions, kind, version) && !kind.Deny? && plan.actions != [] && Distinct(ActionIds(plan.actions))
    requires Distinct(ResultIds(results)) && SetOf(ResultIds(results)) <= SetOf(ActionIds(plan.actions))
    ensures RelationsFine(plan, ds, results)
  {
    DecidedIds(ds, plan.actions, kind, version);
  }

  lemma DecisionIs(ds: seq<PolicyDecision>, actions: seq<PlanAction>, kind: DecisionKind, version: string, a: PlanAction)
    requires AllDecided(ds, actions, kind, version) && a in actions
    ensures a.id in DecisionByAction(ds) && DecisionByAction(ds)[a.id].decision == kind
  {
    var i :| 0 <= i < |actions| && actions[i] == a;
    assert ds[i].actionId == a.id;
    var d := DecisionByAction(ds)[a.id];
    var k :| 0 <= k < |ds| && ds[k] == d;
  }

  function Approval(s: State): Option<ApprovalResult> {
    if s.pending.Resolved? then Some(s.pending.result) else None
  }

  /** The next dispatch is of this action, and nothing stops it. */
  predicate Selects(env: Env, s: State, a: PlanAction) {
    && s.plan.Some? && SelectAction(s.plan.value, s.results) == Ok(a)
    && BuildDispatch(env.identity, s.plan.value, s.decisions, s.results, Approval(s)).Ok?
  }

  lemma SelectedIn(plan: Plan, results: seq<ActionResult>, a: PlanAction)
    requires SelectAction(plan, results) == Ok(a)
    ensures a in plan.actions && a.id in ActionIds(plan.actions) && a.id !in ResultIds(results)
  {
    var i :| 0 <= i < |plan.actions| && plan.actions[i] == a;
    assert ActionIds(plan.actions)[i] == a.id;
  }

  lemma AllowedSelects(env: Env, s: State, version: string, a: PlanAction)
    requires s.plan.Some? && Sound(s.plan.value) && ResultsFit(s) && s.pending.NoApproval?
    requires SelectAction(s.plan.value, s.results) == Ok(a)
    ensures Selects(env, Judged(env, s, Allow, version), a)
  {
    var plan := s.plan.value;
    var ds := UniformDecisions(env, plan.actions, Allow, version);
    SelectedIn(plan, s.results, a);
    DecisionsAre(env, plan.actions, Allow, version);
    RelationsHold(plan, ds, Allow, version, s.results);
    CodesOf(plan, a);
    DecisionIs(ds, plan.actions, Allow, version, a);
    DispatchIsProof(env.identity, plan, ds, s.results, None, a);
  }

  // ---- an approval ----------------------------------------------------------------------------------------------------------

  lemma AskContract(plan: Plan, ds: seq<PolicyDecision>, version: string)
    requires AllDecided(ds, plan.actions, Ask, version) && plan.actions != [] && Distinct(ActionIds(plan.actions))
    ensures PauseContract(plan, ds)
  {
    DecidedIds(ds, plan.actions, Ask, version);
    assert ds[0].decision.Ask?;
  }

  lemma AsksFor(ds: seq<PolicyDecision>, actions: seq<PlanAction>, version: string)
    requires AllDecided(ds, actions, Ask, version) && actions != []
    requires forall a :: a in actions ==> a.id in DecisionByAction(ds)
    ensures FirstAsk(actions, DecisionByAction(ds)) == Some(actions[0])
    ensures DecisionByAction(ds)[actions[0].id].version == version
  {
    DecisionIs(ds, actions, Ask, version, actions[0]);
    var d := DecisionByAction(ds)[actions[0].id];
    var k :| 0 <= k < |ds| && ds[k] == d;
  }

  lemma RequestIs(identity: Identity, plan: Plan, ds: seq<PolicyDecision>, first: PlanAction)
    requires PauseContract(plan, ds) && forall a :: a in plan.actions ==> a.id in DecisionByAction(ds)
    requires FirstAsk(plan.actions, DecisionByAction(ds)) == Some(first) && SortedCodes(plan, first.id) != []
    ensures PauseRequest(identity, plan, ds)
         == Ok(ApprovalRequest(identity, first.id,
                 DigestAction(identity, first, DecisionByAction(ds)[first.id], SortedCodes(plan, first.id))))
  {
  }

  lemma AsksFirst(env: Env, plan: Plan, version: string)
    requires Sound(plan) && plan.actions != []
    ensures var ds := UniformDecisions(env, plan.actions, Ask, version);
            && PauseRequest(env.identity, plan, ds).Ok?
            && var request := PauseRequest(env.identity, plan, ds).value;
               request.actionId == plan.actions[0].id && request.identity == env.identity && request.digest.version == version
  {
    var ds := UniformDecisions(env, plan.actions, Ask, version);
    DecisionsAre(env, plan.actions, Ask, version);
    AskContract(plan, ds, version);
    DecisionsCover(plan, ds);
    AsksFor(ds, plan.actions, version);
    CodesOf(plan, plan.actions[0]);
    RequestIs(env.identity, plan, ds, plan.actions[0]);
  }

  /** The user approves in time. */
  function Approves(request: ApprovalRequest): Resolution {
    Resolution(Checkpoint(request, 0, 60, request, true), "ars_0123456789abcdef01234567", OutcomeApproved, 30)
  }

  function Asked(s: State, request: ApprovalRequest): State {
    s.(pending := Paused(Approves(request).checkpoint), node := ResumeNode)
  }

  function Approved(s: State, request: ApprovalRequest): State {
    s.(pending := Resolved(ResultOf(Approves(request))), status := Executing, node := DispatchNode,
       resolutions := s.resolutions[request := Approves(request)])
  }

  lemma ReachesAsked(env: Env, s: State, request: ApprovalRequest)
    requires Reaches(env, s) && s.node.PauseNode? && s.status.AwaitingApproval? && s.pending.NoApproval? && s.plan.Some?
    requires PauseRequest(env.identity, s.plan.value, s.decisions) == Ok(request)
    ensures Reaches(env, Asked(s, request))
  {
    AfterPause(env, s, Asked(s, request), Approves(request).checkpoint);
  }

  lemma ReachesApproved(env: Env, s: State, request: ApprovalRequest)
    requires Reaches(env, s) && s.node.PauseNode? && s.status.AwaitingApproval? && s.pending.NoApproval? && s.plan.Some?
    requires PauseRequest(env.identity, s.plan.value, s.decisions) == Ok(request)
    requires request.identity == env.identity && request !in s.resolutions
    ensures Reaches(env, Approved(s, request))
  {
    ReachesAsked(env, s, request);
    AfterResume(env, Asked(s, request), Approved(s, request), Approves(request));
  }

  /** Policy asks for every action, and the pause's request is approved. */
  lemma ReachesPermission(env: Env, s: State, version: string) returns (t: State, request: ApprovalRequest)
    requires Reaches(env, s) && s.node.PolicyNode? && s.status.Planning? && s.plan.Some? && s.decisions == [] && s.pending.NoApproval?
    requires 1 <= |s.plan.value.actions| <= 64 && Sound(s.plan.value)
    requires forall r :: r in s.resolutions ==> r.digest.version != version
    ensures Reaches(env, t) && t == Approved(Judged(env, s, Ask, version), request)
    ensures PauseRequest(env.identity, s.plan.value, UniformDecisions(env, s.plan.value.actions, Ask, version)) == Ok(request)
    ensures request.actionId == s.plan.value.actions[0].id && request.digest.version == version
  {
    AsksFirst(env, s.plan.value, version);
    request := PauseRequest(env.identity, s.plan.value, UniformDecisions(env, s.plan.value.actions, Ask, version)).value;
    ReachesJudged(env, s, Ask, version);
    ReachesApproved(env, Judged(env, s, Ask, version), request);
    t := Approved(Judged(env, s, Ask, version), request);
  }

  lemma ApprovedSelects(env: Env, s: State, version: string, request: ApprovalRequest, a: PlanAction)
    requires s.plan.Some? && Sound(s.plan.value) && ResultsFit(s) && SelectAction(s.plan.value, s.results) == Ok(a)
    requires PauseRequest(env.identity, s.plan.value, UniformDecisions(env, s.plan.value.actions, Ask, version)) == Ok(request)
    requires request.actionId == a.id
    ensures Selects(env, Approved(Judged(env, s, Ask, version), request), a)
  {
    var plan := s.plan.value;
    var ds := UniformDecisions(env, plan.actions, Ask, version);
    SelectedIn(plan, s.results, a);
    DecisionsAre(env, plan.actions, Ask, version);
    RelationsHold(plan, ds, Ask, version, s.results);
    CodesOf(plan, a);
    DecisionIs(ds, plan.actions, Ask, version, a);
    ApprovalReachesOnlyFirstAsk(env.identity, plan, ds, s.results, Approves(request), a);
  }

  // ---- one action runs -----------------------------------------------------------------------------------------------------------

  function ReceiptName(i: nat): string {
    "rcp_receipt" + seq(i, _ => 'r')
  }

  /** A success of the action, reported in second i with the i-th receipt. */
  function Success(env: Env, a: PlanAction, i: nat): ActionResult {
    ActionResult(a.id, DispatchId(env.identity.taskId, a.id), ReceiptName(i), ActionSucceeded, i)
  }

  function Dispatched(env: Env, s: State, request: DispatchRequest, now: int): State {
    s.(dispatches := s.dispatches[request.content.id := DispatchRecord(request, now, now + request.content.timeout + env.grace)],
       node := CollectNode)
  }

  lemma DispatchStepIs(env: Env, s: State, request: DispatchRequest, now: int)
    requires s.status.Executing? && s.plan.Some? && !s.pending.Paused? && request.content.id !in s.dispatches
    requires BuildDispatch(env.identity, s.plan.value, s.decisions, s.results, Approval(s)) == Ok(request)
    ensures DispatchStep(env, s, now) == Some(Dispatched(env, s, request, now))
  {
  }

  lemma ReachesDispatched(env: Env, s: State, request: DispatchRequest, now: int)
    requires Reaches(env, s) && s.node.DispatchNode? && s.status.Executing? && s.plan.Some? && !s.pending.Paused?
    requires BuildDispatch(env.identity, s.plan.value, s.decisions, s.results, Approval(s)) == Ok(request)
    requires request.content.id !in s.dispatches
    ensures Reaches(env, Dispatched(env, s, request, now))
  {
    DispatchStepIs(env, s, request, now);
    AfterDispatch(env, s, Dispatched(env, s, request, now), now);
  }

  function Executed(s: State, r: ActionResult): State {
    s.(results := s.results + [r], status := Verifying, node := VerifyNode)
  }

  function ReportOf(env: Env, a: PlanAction, i: nat): ExecutorResult {
    ExecutorResult(env.identity, a.id, ReceiptName(i), ActionSucceeded, i, i)
  }

  /** A dispatch of this action, queued in second i. */
  predicate DispatchedAt(env: Env, s: State, a: PlanAction, i: int) {
    && a.id in s.dispatches && s.dispatches[a.id].request.content == ContentOf(a) && s.dispatches[a.id].request.identity == env.identity
    && s.dispatches[a.id].queuedAt == i && s.dispatches[a.id].leaseExpiresAt >= i
  }

  lemma CollectStepIs(env: Env, s: State, a: PlanAction, i: nat)
    requires s.status.Executing? && s.plan.Some? && ResultStateFine(s.plan.value, s.results)
    requires a.id in ActionIds(s.plan.value.actions) && a.id !in ResultIds(s.results)
    requires DispatchedAt(env, s, a, i) && a.timeout >= 0
    ensures CollectStep(env, s, ReportOf(env, a, i), i) == Some(Executed(s, Success(env, a, i)))
  {
    ResultKeys(s.results);
  }

  lemma ReachesExecuted(env: Env, s: State, a: PlanAction, i: nat)
    requires Reaches(env, s) && s.node.CollectNode? && s.status.Executing? && s.plan.Some? && ResultStateFine(s.plan.value, s.results)
    requires a.id in ActionIds(s.plan.value.actions) && a.id !in ResultIds(s.results)
    requires DispatchedAt(env, s, a, i) && a.timeout >= 0
    ensures Reaches(env, Executed(s, Success(env, a, i)))
  {
    CollectStepIs(env, s, a, i);
    AfterCollect(env, s, Executed(s, Success(env, a, i)), ReportOf(env, a, i), i);
  }

  lemma BuiltFor(env: Env, s: State, a: PlanAction)
    requires Selects(env, s, a)
    ensures var request := BuildDispatch(env.identity, s.plan.value, s.decisions, s.results, Approval(s)).value;
            request.content == ContentOf(a) && request.identity == env.identity
  {
  }

  /** A selected action is dispatched and succeeds in the same second. */
  lemma ReachesRan(env: Env, s: State, a: PlanAction, i: nat) returns (t: State)
    requires Reaches(env, s) && s.node.DispatchNode? && s.status.Executing? && !s.pending.Paused?
    requires Selects(env, s, a) && ResultStateFine(s.plan.value, s.results) && a.timeout >= 0 && a.id !in s.dispatches
    ensures Reaches(env, t) && t == Executed(s, Success(env, a, i)).(dispatches := t.dispatches)
    ensures t.dispatches.Keys == s.dispatches.Keys + {a.id}
  {
    var request := BuildDispatch(env.identity, s.plan.value, s.decisions, s.results, Approval(s)).value;
    BuiltFor(env, s, a);
    SelectedIn(s.plan.value, s.results, a);
    ReachesDispatched(env, s, request, i);
    var u := Dispatched(env, s, request, i);
    assert DispatchedAt(env, u, a, i);
    ReachesExecuted(env, u, a, i);
    t := Executed(u, Success(env, a, i));
  }

  // ---- a verification in which every probe times out ----------------------------------------------------------------------------------

  function TimedOutPass(vid: VerificationId, criteria: seq<Criterion>, results: seq<ActionResult>, at: int): (r: seq<Observation>)
    ensures |r| == |criteria|
  {
    seq(|criteria|, i requires 0 <= i < |criteria| =>
      var result := Find(results, criteria[i].actionId);
      if result.None? then SystemObservation(vid, criteria[i], None, RESULT_MISSING, at)
      else SystemObservation(vid, criteria[i], Some(result.value.receiptId), PROBE_TIMEOUT, at))
  }

  function AggregateFor(env: Env, s: State, observations: seq<Observation>, at: int): Aggregate
    requires s.plan.Some?
  {
    AggregateOf(VidOf(env, s), env.identity.taskId, env.identity.threadId, s.revision, s.plan.value, |s.results|, observations,
                env.maxRevision, at)
  }

  function Verified(s: State, observations: seq<Observation>, a: Aggregate, status: Status): State {
    s.(entries := s.entries + CriterionEntries(observations) + [AggregateEntry(a)], status := status,
       node := if status.Planning? then ReviseNode else ResponseNode)
  }

  /** A state whose current plan can be verified. */
  predicate Verifiable(env: Env, s: State) {
    && s.node.VerifyNode? && s.status.Verifying? && s.plan.Some? && s.revision <= env.maxRevision <= 2
    && 1 <= |s.plan.value.criteria| <= 16 && 1 <= |s.plan.value.actions| <= 8
  }

  lemma VerifiedIs(env: Env, s: State, observations: seq<Observation>, a: Aggregate)
    requires VerifyStep(env, s, observations, a).Some?
    ensures VerifyStep(env, s, observations, a) == Some(Verified(s, observations, a, VerifiedStatus(StatusFor(a))))
  {
  }

  lemma PassIsTaken(env: Env, s: State, answers: seq<ProbeAnswer>, observations: seq<Observation>, at: int)
    requires Reaches(env, s) && Verifiable(env, s)
    requires FreshPass(VidOf(env, s), s.plan.value, s.results, answers, at, observations)
    requires forall i :: 0 <= i < |observations| ==> observations[i].observedAt <= at
    ensures VerifyStep(env, s, observations, AggregateFor(env, s, observations, at)).Some? && EntriesFine(s)
  {
    ReachedInvariant(env, s);
    ReachedEvidence(env, s);
    FreshPassIsTaken(env, s, answers, at, observations, at);
  }

  /** A fresh pass is stored, and the run goes where its status says. */
  lemma ReachesVerified(env: Env, s: State, answers: seq<ProbeAnswer>, observations: seq<Observation>, at: int) returns (t: State)
    requires Reaches(env, s) && Verifiable(env, s)
    requires FreshPass(VidOf(env, s), s.plan.value, s.results, answers, at, observations)
    requires forall i :: 0 <= i < |observations| ==> observations[i].observedAt <= at
    ensures var a := AggregateFor(env, s, observations, at);
            Reaches(env, t) && t == Verified(s, observations, a, VerifiedStatus(StatusFor(a))) && PassStored(env, t, a, observations)
  {
    var a := AggregateFor(env, s, observations, at);
    PassIsTaken(env, s, answers, observations, at);
    VerifiedIs(env, s, observations, a);
    t := Verified(s, observations, a, VerifiedStatus(StatusFor(a)));
    VerifyEffect(env, s, observations, a);
    AfterVerify(env, s, t, observations, a);
  }

  lemma TimedOutIsFresh(vid: VerificationId, plan: Plan, results: seq<ActionResult>, at: int)
    ensures FreshPass(vid, plan, results, seq(|plan.criteria|, i => TimedOut), at, TimedOutPass(vid, plan.criteria, results, at))
  {
  }

  /** All issues of such a pass can be retried. */
  lemma TimedOutRecoverable(vid: VerificationId, criteria: seq<Criterion>, results: seq<ActionResult>, at: int, revision: int, m: int)
    requires criteria != []
    ensures Recoverable(TimedOutPass(vid, criteria, results, at), revision, m) <==> revision < m
    ensures ClassifyOutcome(TimedOutPass(vid, criteria, results, at)) == OutcomeUncertain
  {
    var observations := TimedOutPass(vid, criteria, results, at);
    assert observations[0].verdict == Uncertain && observations[0].verdict in Verdicts(observations);
  }

  /** What a time-out of every probe leads to. */
  function TimedOutAggregate(env: Env, s: State, at: int): Aggregate
    requires s.plan.Some?
  {
    AggregateFor(env, s, TimedOutPass(VidOf(env, s), s.plan.value.criteria, s.results, at), at)
  }

  function AfterTimeOut(env: Env, s: State, at: int): State
    requires s.plan.Some?
  {
    Verified(s, TimedOutPass(VidOf(env, s), s.plan.value.criteria, s.results, at), TimedOutAggregate(env, s, at),
             if s.revision < env.maxRevision then Planning else RunFailed)
  }

  lemma TimedOutStatus(env: Env, s: State, at: int)
    requires s.plan.Some? && s.plan.value.criteria != []
    ensures VerifiedStatus(StatusFor(TimedOutAggregate(env, s, at))) == if s.revision < env.maxRevision then Planning else RunFailed
  {
    TimedOutRecoverable(VidOf(env, s), s.plan.value.criteria, s.results, at, s.revision, env.maxRevision);
  }

  lemma ReachesTimedOut(env: Env, s: State, at: int)
    requires Reaches(env, s) && Verifiable(env, s)
    ensures Reaches(env, AfterTimeOut(env, s, at))
    ensures PassStored(env, AfterTimeOut(env, s, at), TimedOutAggregate(env, s, at),
                       TimedOutPass(VidOf(env, s), s.plan.value.criteria, s.results, at))
  {
    var vid, plan := VidOf(env, s), s.plan.value;
    TimedOutIsFresh(vid, plan, s.results, at);
    TimedOutStatus(env, s, at);
    var t := ReachesVerified(env, s, seq(|plan.criteria|, i => TimedOut), TimedOutPass(vid, plan.criteria, s.results, at), at);
  }

  // ---- a verification in which every criterion passes -----------------------------------------------------------------------------------

  /** Reference ids, all different. */
  function Reference(n: nat): string {
    "evd_" + seq(8 + n / 2, _ => if n % 2 == 0 then 'e' else 'f')
  }

  lemma ReferencesDiffer(m: nat, n: nat)
    requires m != n
    ensures Reference(m) != Reference(n)
  {
    if m / 2 == n / 2 {
      assert Reference(m)[4] != Reference(n)[4];
    } else {
      assert |Reference(m)| != |Reference(n)|;
    }
  }

  /** The references of criterion i, of which each has so many. */
  function References(i: nat, many: nat): seq<string> {
    seq(many, j requires 0 <= j => Reference(8 * i + j))
  }

  function PassedObservation(vid: VerificationId, c: Criterion, receipt: string, refs: seq<string>, at: int): Observation {
    Observation(ObservationId(vid, c.id), vid, c.id, c.actionId, Some(receipt), c.code, "desktop.probe", Passed, refs, None, false, at)
  }

  function PassedAnswer(vid: VerificationId, c: Criterion, receipt: string, refs: seq<string>, at: int): ProbeAnswer {
    Answered("desktop.probe", ProbeResult("desktop.probe", vid, c.id, c.actionId, receipt, Passed, refs, None, false, at))
  }

  function ReceiptOf(c: Criterion, results: seq<ActionResult>): string {
    if Find(results, c.actionId).Some? then Find(results, c.actionId).value.receiptId else ""
  }

  function PassedPass(vid: VerificationId, criteria: seq<Criterion>, results: seq<ActionResult>, many: nat, at: int): (r: seq<Observation>)
    ensures |r| == |criteria|
  {
    seq(|criteria|, i requires 0 <= i < |criteria| =>
      PassedObservation(vid, criteria[i], ReceiptOf(criteria[i], results), References(i, many), at))
  }

  /** Every criterion is about an action with a result from before. */
  predicate AllRan(criteria: seq<Criterion>, results: seq<ActionResult>, at: int) {
    && (forall i :: 0 <= i < |criteria| ==> criteria[i].actionId in ResultIds(results))
    && forall i :: 0 <= i < |results| ==> results[i].completedAt <= at
  }

  lemma PassedRuns(vid: VerificationId, c: Criterion, result: ActionResult, i: nat, many: nat, at: int)
    requires result.completedAt <= at && 1 <= many <= 8
    ensures RunCriterion(vid, c, Some(result), PassedAnswer(vid, c, result.receiptId, References(i, many), at), at)
         == Some(PassedObservation(vid, c, result.receiptId, References(i, many), at))
  {
    forall j, l | 0 <= j < l < many ensures References(i, many)[j] != References(i, many)[l] {
      ReferencesDiffer(8 * i + j, 8 * i + l);
    }
    assert References(i, many) != [];
  }

  lemma PassedIsFresh(vid: VerificationId, plan: Plan, results: seq<ActionResult>, many: nat, at: int) returns (answers: seq<ProbeAnswer>)
    requires AllRan(plan.criteria, results, at) && 1 <= many <= 8
    ensures FreshPass(vid, plan, results, answers, at, PassedPass(vid, plan.criteria, results, many, at))
  {
    var criteria := plan.criteria;
    answers := seq(|criteria|, i requires 0 <= i < |criteria| =>
      PassedAnswer(vid, criteria[i], ReceiptOf(criteria[i], results), References(i, many), at));
    forall i | 0 <= i < |criteria|
      ensures RunCriterion(vid, criteria[i], Find(results, criteria[i].actionId), answers[i], at)
           == Some(PassedPass(vid, criteria, results, many, at)[i])
    {
      var result := ResultFound(results, criteria[i].actionId);
      PassedRuns(vid, criteria[i], result, i, many, at);
    }
  }

  lemma ResultFound(results: seq<ActionResult>, id: Id) returns (result: ActionResult)
    requires id in ResultIds(results)
    ensures Find(results, id) == Some(result) && result in results
  {
    ResultKeys(results);
    result := ResultByAction(results)[id];
  }

  lemma AllPassedOutcome(vid: VerificationId, criteria: seq<Criterion>, results: seq<ActionResult>, many: nat, at: int, revision: int, m: int)
    requires criteria != []
    ensures var observations := PassedPass(vid, criteria, results, many, at);
            ClassifyOutcome(observations) == OutcomeSucceeded && !Recoverable(observations, revision, m)
  {
    var observations := PassedPass(vid, criteria, results, many, at);
    assert observations[0].verdict == Passed;
    assert Verdicts(observations) == {Passed};
  }

  lemma ReferencesCount(i: nat, many: nat)
    requires many <= 8
    ensures |SetOf(References(i, many))| == many
  {
    forall j, l | 0 <= j < l < many ensures References(i, many)[j] != References(i, many)[l] {
      ReferencesDiffer(8 * i + j, 8 * i + l);
    }
    DistinctCardinality(References(i, many));
  }

  lemma PassGrows(vid: VerificationId, criteria: seq<Criterion>, results: seq<ActionResult>, many: nat, at: int)
    requires criteria != []
    ensures PassedPass(vid, criteria, results, many, at)
         == PassedPass(vid, criteria[..|criteria| - 1], results, many, at)
          + [PassedObservation(vid, criteria[|criteria| - 1], ReceiptOf(criteria[|criteria| - 1], results),
                               References(|criteria| - 1, many), at)]
  {
  }

  lemma EarlierReference(i: nat, k: nat, n: nat, many: nat)
    requires k < many <= 8 && i < n
    ensures Reference(8 * i + k) !in References(n, many)
  {
    forall l | 0 <= l < many ensures References(n, many)[l] != Reference(8 * i + k) {
      ReferencesDiffer(8 * i + k, 8 * n + l);
    }
  }

  lemma ReferenceOf(vid: VerificationId, criteria: seq<Criterion>, results: seq<ActionResult>, many: nat, at: int, x: string)
    returns (i: nat, k: nat)
    requires x in EvidenceIds(PassedPass(vid, criteria, results, many, at))
    ensures i < |criteria| && k < many && x == Reference(8 * i + k)
  {
    var pass := PassedPass(vid, criteria, results, many, at);
    i, k :| 0 <= i < |pass| && 0 <= k < |pass[i].evidence| && pass[i].evidence[k] == x;
    assert pass[i].evidence == References(i, many);
  }

  lemma NewReferences(vid: VerificationId, criteria: seq<Criterion>, results: seq<ActionResult>, many: nat, at: int)
    requires many <= 8
    ensures EvidenceIds(PassedPass(vid, criteria, results, many, at)) !! SetOf(References(|criteria|, many))
  {
    var named, further := EvidenceIds(PassedPass(vid, criteria, results, many, at)), SetOf(References(|criteria|, many));
    forall x | x in named ensures x !in further {
      var i, k := ReferenceOf(vid, criteria, results, many, at, x);
      EarlierReference(i, k, |criteria|, many);
    }
  }

  lemma EvidenceGrows(init: seq<Observation>, o: Observation)
    ensures EvidenceIds(init + [o]) == EvidenceIds(init) + SetOf(o.evidence)
  {
    var all := init + [o];
    forall x | x in EvidenceIds(init) ensures x in EvidenceIds(all) {
      var i, k :| 0 <= i < |init| && 0 <= k < |init[i].evidence| && init[i].evidence[k] == x;
      assert all[i].evidence[k] == x;
    }
    forall x | x in SetOf(o.evidence) ensures x in EvidenceIds(all) {
      var k :| 0 <= k < |o.evidence| && o.evidence[k] == x;
      assert all[|init|].evidence[k] == x;
    }
  }

  lemma MoreReferences(vid: VerificationId, criteria: seq<Criterion>, results: seq<ActionResult>, many: nat, at: int)
    requires criteria != [] && many <= 8
    ensures |EvidenceIds(PassedPass(vid, criteria, results, many, at))|
         == |EvidenceIds(PassedPass(vid, criteria[..|criteria| - 1], results, many, at))| + many
  {
    var n := |criteria| - 1;
    var init := PassedPass(vid, criteria[..n], results, many, at);
    PassGrows(vid, criteria, results, many, at);
    EvidenceGrows(init, PassedObservation(vid, criteria[n], ReceiptOf(criteria[n], results), References(n, many), at));
    NewReferences(vid, criteria[..n], results, many, at);
    ReferencesCount(n, many);
  }

  lemma NoReferences()
    ensures EvidenceIds([]) == {}
  {
  }

  lemma OneMoreTimes(n: nat, many: nat)
    requires n > 0
    ensures (n - 1) * many + many == n * many
  {
  }

  /** Such a pass names exactly so many references for each criterion. */
  lemma {:induction false} CountReferences(vid: VerificationId, criteria: seq<Criterion>, results: seq<ActionResult>, many: nat, at: int)
    requires many <= 8
    ensures |EvidenceIds(PassedPass(vid, criteria, results, many, at))| == |criteria| * many
  {
    if criteria == [] {
      NoReferences();
      assert PassedPass(vid, criteria, results, many, at) == [];
    } else {
      CountReferences(vid, criteria[..|criteria| - 1], results, many, at);
      MoreReferences(vid, criteria, results, many, at);
      OneMoreTimes(|criteria|, many);
    }
  }

  function PassedAggregate(env: Env, s: State, many: nat, at: int): Aggregate
    requires s.plan.Some?
  {
    AggregateFor(env, s, PassedPass(VidOf(env, s), s.plan.value.criteria, s.results, many, at), at)
  }

  function AfterPass(env: Env, s: State, many: nat, at: int): State
    requires s.plan.Some?
  {
    Verified(s, PassedPass(VidOf(env, s), s.plan.value.criteria, s.results, many, at), PassedAggregate(env, s, many, at), Succeeded)
  }

  lemma ReachesPassed(env: Env, s: State, many: nat, at: int)
    requires Reaches(env, s) && Verifiable(env, s) && AllRan(s.plan.value.criteria, s.results, at) && 1 <= many <= 8
    ensures Reaches(env, AfterPass(env, s, many, at))
    ensures PassStored(env, AfterPass(env, s, many, at), PassedAggregate(env, s, many, at),
                       PassedPass(VidOf(env, s), s.plan.value.criteria, s.results, many, at))
  {
    var vid, plan := VidOf(env, s), s.plan.value;
    var answers := PassedIsFresh(vid, plan, s.results, many, at);
    AllPassedOutcome(vid, plan.criteria, s.results, many, at, s.revision, env.maxRevision);
    var t := ReachesVerified(env, s, answers, PassedPass(vid, plan.criteria, s.results, many, at), at);
  }

  // ---- a revision ------------------------------------------------------------------------------------------------------------------------

  function Revised(s: State, plan: Plan): State {
    s.(plan := Some(plan), revision := s.revision + 1, decisions := [], pending := NoApproval, status := Planning, node := PolicyNode)
  }

  /** A draft whose merge the revision accepts is carried on to policy. */
  lemma ReachesRevised(env: Env, s: State, d: ModelDraft, bundle: Bundle, revised: Plan)
    requires Reaches(env, s) && env.maxRevision <= 2 && s.node.ReviseNode? && s.plan.Some?
    requires ModelAccepted(d, env.intent, bundle, env.drafts) && LabelsResolved(d.actions) && CriteriaResolved(d)
    requires MergeExecutedPlan(PlanFor(env, d), s.plan.value, s.results) == Ok(revised)
    requires RevisionAccepted(revised, s.plan.value, s.results, bundle, env.validation)
    ensures Reaches(env, Revised(s, revised))
  {
    var t := Revised(s, revised).(node := ValidateNode);
    ReachedRevision(env, s);
    ReviseStepIs(env, s, d, bundle, revised);
    AfterRevise(env, s, t, d, bundle);
    ValidateStepIs(env, t, bundle);
    AfterValidate(env, t, Revised(s, revised), bundle);
  }

  lemma ReviseStepIs(env: Env, s: State, d: ModelDraft, bundle: Bundle, revised: Plan)
    requires RevisionState(env, s) && RevisionTriggered(s)
    requires ModelAccepted(d, env.intent, bundle, env.drafts) && LabelsResolved(d.actions) && CriteriaResolved(d)
    requires MergeExecutedPlan(PlanFor(env, d), s.plan.value, s.results) == Ok(revised)
    requires RevisionAccepted(revised, s.plan.value, s.results, bundle, env.validation)
    ensures ReviseStep(env, s, d, bundle) == Some(Revised(s, revised).(node := ValidateNode))
  {
  }

  lemma ValidateStepIs(env: Env, s: State, bundle: Bundle)
    requires s.status.Planning? && s.plan.Some? && Accepted(s.plan.value, bundle, env.validation)
    ensures ValidateStep(env, s, bundle) == Some(s.(node := PolicyNode))
  {
  }
}
