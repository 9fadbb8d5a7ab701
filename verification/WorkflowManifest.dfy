/** Nothing is dispatched that the manifest of its plan does not admit. */
module WorkflowManifest {
  import opened Collections
  import opened PlanModel
  import opened PlanValidation
  import opened PlanContent
  import opened Policy
  import opened Verification
  import opened Dispatch
  import opened Revision
  import opened Workflow
  import opened WorkflowBounds
  import opened WorkflowSafety

  /** From validation on, some manifest has accepted the plan. */
  ghost predicate PlanValidated(env: Env, s: State) {
    s.plan.Some? && !s.node.ValidateNode? ==> exists bundle :: Accepted(s.plan.value, bundle, env.validation)
  }

  lemma PlanValidatedNext(env: Env, s: State, s': State)
    requires Shape(s) && PlanValidated(env, s) && Next(env, s, s')
    ensures PlanValidated(env, s')
  {
    var input :| Step(env, s, input) == Some(s');
    StepFrame(env, s, input);
    StepFollowsEdge(env, s, input);
    if s.node.ValidateNode? { assert Accepted(s.plan.value, input.bundle, env.validation); }
  }

  lemma RunValidatedNext(env: Env, trace: seq<State>, i: nat)
    requires Run(env, trace) && i + 1 < |trace| && PlanValidated(env, trace[i])
    ensures PlanValidated(env, trace[i + 1])
  {
    RunShape(env, trace, i);
    PlanValidatedNext(env, trace[i], trace[i + 1]);
  }

  lemma RunStartsPlanless(env: Env, trace: seq<State>)
    requires Run(env, trace)
    ensures trace[0].plan.None? && trace[0].dispatches == map[]
  {
  }

  lemma {:induction false} RunValidated(env: Env, trace: seq<State>, i: nat)
    requires Run(env, trace) && i < |trace|
    ensures PlanValidated(env, trace[i])
  {
    if i == 0 {
      RunStartsPlanless(env, trace);
    } else {
      RunValidated(env, trace, i - 1);
      RunValidatedNext(env, trace, i - 1);
    }
  }

  /** The dispatch of an action of the plan, at the dispatch node. */
  ghost predicate StoredAt(s: State, d: DispatchRecord) {
    s.node.DispatchNode? && exists a :: InPlan(s, a) && d.request.content == ContentOf(a)
  }

  lemma NextStores(env: Env, s: State, s': State, id: Id)
    requires Next(env, s, s') && id in s'.dispatches
    ensures (id in s.dispatches && s'.dispatches[id] == s.dispatches[id]) || StoredAt(s, s'.dispatches[id])
  {
    var input :| Step(env, s, input) == Some(s');
    if s.node.DispatchNode? {
      var action, request := DispatchEffect(env, s, input.now);
      assert InPlan(s, action);
    } else {
      StepFrame(env, s, input);
    }
  }

  /** Every stored dispatch was there a step before, or is of the plan at a dispatch node a step before. */
  ghost predicate StoredStepwise(trace: seq<State>) {
    && trace != [] && trace[0].dispatches == map[]
    && forall i, id :: 0 < i < |trace| && id in trace[i].dispatches ==> KeptOrStored(trace[i - 1], trace[i].dispatches[id], id)
  }

  ghost predicate KeptOrStored(s: State, d: DispatchRecord, id: Id) {
    (id in s.dispatches && s.dispatches[id] == d) || StoredAt(s, d)
  }

  lemma RunStoredStepwise(env: Env, trace: seq<State>)
    requires Run(env, trace)
    ensures StoredStepwise(trace)
  {
    forall i, id | 0 < i < |trace| && id in trace[i].dispatches ensures KeptOrStored(trace[i - 1], trace[i].dispatches[id], id) {
      NextStores(env, trace[i - 1], trace[i], id);
    }
  }

  lemma {:induction false} DispatchedAt(trace: seq<State>, i: nat, id: Id) returns (j: nat)
    requires StoredStepwise(trace) && i < |trace| && id in trace[i].dispatches
    ensures j < i && StoredAt(trace[j], trace[i].dispatches[id])
  {
    assert KeptOrStored(trace[i - 1], trace[i].dispatches[id], id);
    if StoredAt(trace[i - 1], trace[i].dispatches[id]) {
      j := i - 1;
    } else {
      j := DispatchedAt(trace, i - 1, id);
    }
  }

  /** The content of an action: all it does. */
  lemma ContentIsComplete(a: PlanAction, b: PlanAction)
    requires ContentOf(a) == ContentOf(b)
    ensures a.id == b.id && a.capabilityId == b.capabilityId && a.capabilityVersion == b.capabilityVersion && a.timeout == b.timeout
    ensures multiset(a.arguments) == multiset(b.arguments) && multiset(a.dependencies) == multiset(b.dependencies)
  {
    assert ContentOf(a).arguments == ContentOf(b).arguments && ContentOf(a).dependencies == ContentOf(b).dependencies;
  }

  lemma ValidatedKeepsTo(env: Env, s: State, a: PlanAction) returns (bundle: Bundle)
    requires PlanValidated(env, s) && InPlan(s, a) && !s.node.ValidateNode?
    ensures Accepted(s.plan.value, bundle, env.validation) && KeepsTo(a, bundle)
  {
    bundle :| Accepted(s.plan.value, bundle, env.validation);
    var k :| 0 <= k < |s.plan.value.actions| && s.plan.value.actions[k] == a;
    AcceptedKeepsTo(s.plan.value, bundle, env.validation, k);
  }

  /** Main result.  Whatever a run has dispatched is, in its content, an action of a plan of the run that some
      manifest accepted: it uses a declared capability in its version, within its time-out, with every required
      argument, no undeclared one and only suitable values. */
  lemma DispatchedKeepsToManifest(env: Env, trace: seq<State>, i: nat, id: Id) returns (j: nat, bundle: Bundle, a: PlanAction)
    requires Run(env, trace) && i < |trace| && id in trace[i].dispatches
    ensures j < i && trace[j].node.DispatchNode? && InPlan(trace[j], a)
    ensures Accepted(trace[j].plan.value, bundle, env.validation) && KeepsTo(a, bundle)
    ensures trace[i].dispatches[id].request.content == ContentOf(a)
  {
    RunStoredStepwise(env, trace);
    j := DispatchedAt(trace, i, id);
    a :| InPlan(trace[j], a) && trace[i].dispatches[id].request.content == ContentOf(a);
    RunValidated(env, trace, j);
    bundle := ValidatedKeepsTo(env, trace[j], a);
  }

  /** A dispatch step leaves exactly the request it built in the store, queued now if it is new; another request
      for the same action stops the run. */
  lemma DispatchStores(env: Env, s: State, now: int) returns (request: DispatchRequest)
    requires DispatchStep(env, s, now).Some?
    ensures s.plan.Some?
    ensures BuildDispatch(env.identity, s.plan.value, s.decisions, s.results,
                          if s.pending.Resolved? then Some(s.pending.result) else None) == Ok(request)
    ensures var s', id := DispatchStep(env, s, now).value, request.content.id;
            && id in s'.dispatches && s'.dispatches[id].request == request
            && (id in s.dispatches ==> s'.dispatches == s.dispatches)
            && (id !in s.dispatches ==>
                  s'.dispatches == s.dispatches[id := DispatchRecord(request, now, now + request.content.timeout + env.grace)])
  {
    request := BuildDispatch(env.identity, s.plan.value, s.decisions, s.results,
                             if s.pending.Resolved? then Some(s.pending.result) else None).value;
  }
}
