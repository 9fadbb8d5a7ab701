/** Every run is short: a measure falls at each node, and the loop turns at most three times. */
module WorkflowBounds {
  import opened Collections
  import opened PlanModel
  import opened Policy
  import opened Verification
  import opened Dispatch
  import opened Revision
  import opened Workflow

  /** Which status, plan, decisions and approval go with each node. */
  predicate Shape(s: State) {
    && s.revision <= 2
    && match s.node
       case NormalizeNode => (s.status.Created? || s.status.Planning?) && Fresh(s)
       case ContextNode => s.status.Planning? && Fresh(s)
       case IntentNode => s.status.Planning? && Fresh(s)
       case PlanNode => s.status.Planning? && Fresh(s)
       case ValidateNode => s.status.Planning? && s.plan.Some? && s.decisions == [] && s.pending.NoApproval?
       case PolicyNode => s.status.Planning? && s.plan.Some? && s.decisions == [] && s.pending.NoApproval?
       case PauseNode => s.status.AwaitingApproval? && s.plan.Some? && s.pending.NoApproval?
       case ResumeNode => s.status.AwaitingApproval? && s.plan.Some? && s.pending.Paused?
       case DispatchNode => s.status.Executing? && s.plan.Some? && !s.pending.Paused?
       case CollectNode => s.status.Executing? && s.plan.Some? && !s.pending.Paused?
       case VerifyNode => s.status.Verifying? && s.plan.Some?
       case ReviseNode => s.status.Planning? && s.plan.Some?
       case ResponseNode => Terminal(s.status) && s.plan.Some?
       case EndNode => Terminal(s.status) && s.plan.Some?
  }

  predicate Fresh(s: State) {
    s.revision == 0 && s.plan.None? && s.decisions == [] && s.pending.NoApproval? && s.results == [] && s.entries == []
  }

  lemma PolicyShape(env: Env, s: State, snapshot: Snapshot, advice: Assessment)
    requires Shape(s) && s.node.PolicyNode? && PolicyStep(env, s, snapshot, advice).Some?
    ensures Shape(PolicyStep(env, s, snapshot, advice).value)
  {
  }

  lemma ResumeShape(env: Env, s: State, resolutionId: string, outcome: ApprovalOutcome, decidedAt: int)
    requires Shape(s) && s.node.ResumeNode? && ResumeStep(env, s, resolutionId, outcome, decidedAt).Some?
    ensures Shape(ResumeStep(env, s, resolutionId, outcome, decidedAt).value)
  {
  }

  lemma VerifyShape(env: Env, s: State, criteria: seq<Observation>, a: Aggregate)
    requires Shape(s) && s.node.VerifyNode? && VerifyStep(env, s, criteria, a).Some?
    ensures Shape(VerifyStep(env, s, criteria, a).value)
  {
  }

  lemma ShapeKept(env: Env, s: State, input: Input)
    requires Shape(s) && Step(env, s, input).Some?
    ensures Shape(Step(env, s, input).value)
  {
    match s.node
    case PolicyNode => PolicyShape(env, s, input.snapshot, input.advice);
    case ResumeNode => ResumeShape(env, s, input.resolutionId, input.outcome, input.decidedAt);
    case VerifyNode => VerifyShape(env, s, input.criteria, input.aggregate);
    case _ =>
  }

  /** The edges of the compiled graph. */
  predicate Edge(a: Node, b: Node) {
    match a
    case NormalizeNode => b.ContextNode?
    case ContextNode => b.IntentNode?
    case IntentNode => b.PlanNode?
    case PlanNode => b.ValidateNode?
    case ValidateNode => b.PolicyNode?
    case PolicyNode => b.PauseNode? || b.DispatchNode? || b.ResponseNode?
    case PauseNode => b.ResumeNode?
    case ResumeNode => b.DispatchNode? || b.ResponseNode?
    case DispatchNode => b.CollectNode?
    case CollectNode => b.VerifyNode?
    case VerifyNode => b.ReviseNode? || b.ResponseNode?
    case ReviseNode => b.ValidateNode?
    case ResponseNode => b.EndNode?
    case EndNode => false
  }

  /** Along an edge only a revision changes the revision count, and only below two. */
  predicate Transition(a: Node, before: nat, b: Node, after: nat) {
    Edge(a, b) && if a.ReviseNode? then before < 2 && after == before + 1 else after == before
  }

  lemma PolicyEdge(env: Env, s: State, snapshot: Snapshot, advice: Assessment)
    requires s.node.PolicyNode? && PolicyStep(env, s, snapshot, advice).Some?
    ensures var s' := PolicyStep(env, s, snapshot, advice).value; Transition(s.node, s.revision, s'.node, s'.revision)
  {
  }

  lemma ResumeEdge(env: Env, s: State, resolutionId: string, outcome: ApprovalOutcome, decidedAt: int)
    requires s.node.ResumeNode? && ResumeStep(env, s, resolutionId, outcome, decidedAt).Some?
    ensures var s' := ResumeStep(env, s, resolutionId, outcome, decidedAt).value; Transition(s.node, s.revision, s'.node, s'.revision)
  {
  }

  lemma VerifyEdge(env: Env, s: State, criteria: seq<Observation>, a: Aggregate)
    requires s.node.VerifyNode? && VerifyStep(env, s, criteria, a).Some?
    ensures var s' := VerifyStep(env, s, criteria, a).value; Transition(s.node, s.revision, s'.node, s'.revision)
  {
  }

  lemma StepFollowsEdge(env: Env, s: State, input: Input)
    requires Step(env, s, input).Some?
    ensures var s' := Step(env, s, input).value; Transition(s.node, s.revision, s'.node, s'.revision)
  {
    match s.node
    case PolicyNode => PolicyEdge(env, s, input.snapshot, input.advice);
    case ResumeNode => ResumeEdge(env, s, input.resolutionId, input.outcome, input.decidedAt);
    case VerifyNode => VerifyEdge(env, s, input.criteria, input.aggregate);
    case _ =>
  }

  // ---- termination ---------------------------------------------------------------------------------

  /** Nodes still ahead, at most: 28 at the start, one less at each step. */
  function Ahead(node: Node, revision: nat): int {
    match node
    case NormalizeNode => 28
    case ContextNode => 27
    case IntentNode => 26
    case PlanNode => 25
    case ValidateNode => Turns(revision) + 8
    case PolicyNode => Turns(revision) + 7
    case PauseNode => Turns(revision) + 6
    case ResumeNode => Turns(revision) + 5
    case DispatchNode => Turns(revision) + 4
    case CollectNode => Turns(revision) + 3
    case VerifyNode => Turns(revision) + 2
    case ReviseNode => Turns(revision) + 1
    case ResponseNode => 1
    case EndNode => 0
  }

  function Turns(revision: nat): int {
    8 * (2 - revision)
  }

  lemma TransitionConsumes(a: Node, before: nat, b: Node, after: nat)
    requires Transition(a, before, b, after) && before <= 2
    ensures 0 <= Ahead(b, after) < Ahead(a, before)
  {
  }

  /** How often a run that reaches this state can still enter a node of the loop. */
  function EntriesLeft(node: Node, revision: nat, loop: Node): int {
    if LoopRank(node) > LoopRank(loop) then 2 - revision else 3 - revision
  }

  /** Position in the loop from planning to revision; the response ends it. */
  function LoopRank(n: Node): int {
    match n
    case ValidateNode => 1
    case PolicyNode => 2
    case PauseNode => 3
    case ResumeNode => 4
    case DispatchNode => 5
    case CollectNode => 6
    case VerifyNode => 7
    case ReviseNode => 8
    case ResponseNode => 9
    case EndNode => 10
    case _ => 0
  }

  predicate InLoop(n: Node) { 1 <= LoopRank(n) <= 8 }

  function Visits(trace: seq<State>, node: Node): nat {
    if trace == [] then 0 else Visits(trace[..|trace| - 1], node) + if trace[|trace| - 1].node == node then 1 else 0
  }

  lemma TransitionUsesEntry(a: Node, before: nat, b: Node, after: nat, loop: Node)
    requires Transition(a, before, b, after) && InLoop(loop)
    ensures EntriesLeft(b, after, loop) + (if a == loop then 1 else 0) <= EntriesLeft(a, before, loop)
  {
  }

  lemma {:induction false} RunShape(env: Env, trace: seq<State>, i: nat)
    requires Run(env, trace) && i < |trace|
    ensures Shape(trace[i])
  {
    if i > 0 {
      RunShape(env, trace, i - 1);
      var input :| Step(env, trace[i - 1], input) == Some(trace[i]);
      ShapeKept(env, trace[i - 1], input);
    }
  }

  /** A run seen as a walk on the control graph. */
  predicate Walk(trace: seq<State>) {
    && trace != [] && trace[0].node.NormalizeNode? && trace[0].revision == 0
    && (forall i :: 0 <= i < |trace| ==> trace[i].revision <= 2)
    && forall i :: 0 < i < |trace| ==>
         Transition(trace[i - 1].node, trace[i - 1].revision, trace[i].node, trace[i].revision)
  }

  lemma NextFollowsEdge(env: Env, s: State, s': State)
    requires Next(env, s, s')
    ensures Transition(s.node, s.revision, s'.node, s'.revision)
  {
    var input :| Step(env, s, input) == Some(s');
    StepFollowsEdge(env, s, input);
  }

  lemma RunIsWalk(env: Env, trace: seq<State>)
    requires Run(env, trace)
    ensures Walk(trace)
  {
    forall i | 0 <= i < |trace| ensures trace[i].revision <= 2 {
      RunShape(env, trace, i);
    }
    forall i | 0 < i < |trace|
      ensures Transition(trace[i - 1].node, trace[i - 1].revision, trace[i].node, trace[i].revision)
    {
      NextFollowsEdge(env, trace[i - 1], trace[i]);
    }
  }

  lemma {:induction false} WalkConsumes(trace: seq<State>, i: nat)
    requires Walk(trace) && i < |trace|
    ensures 0 <= Ahead(trace[i].node, trace[i].revision) <= 28 - i
  {
    if i > 0 {
      WalkConsumes(trace, i - 1);
      TransitionConsumes(trace[i - 1].node, trace[i - 1].revision, trace[i].node, trace[i].revision);
    }
  }

  lemma {:induction false} WalkVisits(trace: seq<State>, i: nat, loop: Node)
    requires Walk(trace) && i < |trace| && InLoop(loop)
    ensures Visits(trace[..i], loop) + EntriesLeft(trace[i].node, trace[i].revision, loop) <= 3
  {
    if i > 0 {
      WalkVisits(trace, i - 1, loop);
      TransitionUsesEntry(trace[i - 1].node, trace[i - 1].revision, trace[i].node, trace[i].revision, loop);
      assert trace[..i][..i - 1] == trace[..i - 1];
    }
  }

  /** Every run ends: at most 28 steps and two revisions, and every node of the loop, so dispatch and
      verification too, is entered at most three times. */
  lemma RunsAreShort(env: Env, trace: seq<State>, loop: Node)
    requires Run(env, trace) && InLoop(loop)
    ensures |trace| - 1 <= 28
    ensures trace[|trace| - 1].revision <= 2
    ensures Visits(trace, loop) <= 3
  {
    var last := |trace| - 1;
    RunIsWalk(env, trace);
    WalkConsumes(trace, last);
    WalkVisits(trace, last, loop);
  }

  /** A run at the response node carries a terminal status, and revises only with a revision left to make. */
  lemma ResponseIsTerminal(env: Env, trace: seq<State>, i: nat)
    requires Run(env, trace) && i < |trace|
    ensures trace[i].node.ResponseNode? || trace[i].node.EndNode? ==> Terminal(trace[i].status)
    ensures trace[i].node.DispatchNode? ==> trace[i].status.Executing?
  {
    RunShape(env, trace, i);
  }
}
