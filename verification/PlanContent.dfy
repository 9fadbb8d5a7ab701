/** What a compiled plan says, step by step, and what an accepted plan owes to the manifest. */
module PlanContent {
  import opened Collections
  import opened PlanModel
  import opened TopologicalOrder
  import opened CriticalPath
  import opened PlanValidation
  import opened PlanDrafting
  import opened ProjectionTheorems

  // ---- a projection says what the draft says -------------------------------------------------------------

  /** The action does what the step asks: the same capability, arguments and time-out, and each listed label
      replaced by the id of the earlier action with that label. */
  predicate DoesWhat(a: PlanAction, actions: seq<PlanAction>, steps: seq<ModelAction>, k: nat)
    requires k < |steps| == |actions|
  {
    && a.capabilityId == steps[k].capabilityId && a.capabilityVersion == steps[k].capabilityVersion
    && a.arguments == steps[k].arguments && a.timeout == steps[k].timeout
    && |a.dependencies| == |steps[k].dependsOn|
    && forall j :: 0 <= j < |a.dependencies| ==>
         exists i :: 0 <= i < k && steps[i].stepId == steps[k].dependsOn[j] && actions[i].id == a.dependencies[j]
  }

  lemma ResolvedDependency(digest: Digest, taskId: string, actions: seq<ModelAction>, k: nat, j: nat) returns (i: nat)
    requires LabelsResolved(actions) && Distinct(Steps(actions)) && k < |actions| && j < |actions[k].dependsOn|
    ensures i < k && actions[i].stepId == actions[k].dependsOn[j]
    ensures j < |ProjectActions(digest, taskId, actions)[k].dependencies|
    ensures ProjectActions(digest, taskId, actions)[i].id == ProjectActions(digest, taskId, actions)[k].dependencies[j]
  {
    LabelIdAt(digest, taskId, actions, k);
    assert actions[k].dependsOn[j] in SetOf(actions[k].dependsOn);
    i :| 0 <= i < k && Steps(actions)[..k][i] == actions[k].dependsOn[j];
    LabelIdAt(digest, taskId, actions, i);
  }

  /** Each step of a draft becomes, at its place, an action that does what the step asks. */
  lemma StepsBecomeActions(digest: Digest, taskId: string, d: ModelDraft, k: nat)
    requires LabelsResolved(d.actions) && CriteriaResolved(d) && Distinct(Steps(d.actions)) && k < |d.actions|
    ensures |Projected(digest, taskId, d).actions| == |d.actions|
    ensures DoesWhat(Projected(digest, taskId, d).actions[k], Projected(digest, taskId, d).actions, d.actions, k)
  {
    LabelIdAt(digest, taskId, d.actions, k);
    var actions := ProjectActions(digest, taskId, d.actions);
    forall j | 0 <= j < |actions[k].dependencies|
      ensures exists i :: 0 <= i < k && d.actions[i].stepId == d.actions[k].dependsOn[j] && actions[i].id == actions[k].dependencies[j]
    {
      var i := ResolvedDependency(digest, taskId, d.actions, k, j);
    }
  }

  /** Each criterion keeps its code and speaks about the action of its step; everything else is copied. */
  lemma CriteriaBecomeCriteria(digest: Digest, taskId: string, d: ModelDraft, c: nat) returns (k: nat)
    requires LabelsResolved(d.actions) && CriteriaResolved(d) && Distinct(Steps(d.actions)) && c < |d.criteria|
    ensures var plan := Projected(digest, taskId, d);
            && plan.objective == d.objective && plan.assumptions == d.assumptions && plan.warnings == d.warnings
            && |plan.criteria| == |d.criteria| && k < |d.actions| == |plan.actions|
            && d.actions[k].stepId == d.criteria[c].stepId
            && plan.criteria[c].actionId == plan.actions[k].id && plan.criteria[c].code == d.criteria[c].code
            && plan.criteria[c].id == digest(CriterionKey(taskId, plan.actions[k].id, d.criteria[c].code))
  {
    k :| 0 <= k < |d.actions| && Steps(d.actions)[k] == d.criteria[c].stepId;
    LabelIdAt(digest, taskId, d.actions, k);
  }

  // ---- identifiers, spelled out ----------------------------------------------------------------------------

  const CAPITALS := "ABCDEFGHIJKLMNOPQRSTUVWXYZ"
  const SMALL_LETTERS := "abcdefghijklmnopqrstuvwxyz"
  const DIGITS := "0123456789"

  predicate IsSpelled(c: char) {
    c in CAPITALS || c in SMALL_LETTERS || c in DIGITS
  }

  lemma CapitalsSpelled(c: char)
    ensures 'A' <= c <= 'Z' <==> c in CAPITALS
  {
    if 'A' <= c <= 'Z' { assert CAPITALS[(c as int) - ('A' as int)] == c; }
  }

  lemma SmallLettersSpelled(c: char)
    ensures 'a' <= c <= 'z' <==> c in SMALL_LETTERS
  {
    if 'a' <= c <= 'z' { assert SMALL_LETTERS[(c as int) - ('a' as int)] == c; }
  }

  lemma DigitsSpelled(c: char)
    ensures '0' <= c <= '9' <==> c in DIGITS
  {
    if '0' <= c <= '9' { assert DIGITS[(c as int) - ('0' as int)] == c; }
  }

  lemma AlphanumericsSpelled(c: char)
    ensures IsAlphanumeric(c) <==> IsSpelled(c)
  {
    CapitalsSpelled(c);
    SmallLettersSpelled(c);
    DigitsSpelled(c);
  }

  /** One to 128 letters, digits, dots, underscores, at-signs or hyphens, starting with a letter or digit. */
  predicate Identifies(s: string) {
    1 <= |s| < 129 && IsSpelled(s[0]) && forall i :: 0 <= i < |s| ==> IsSpelled(s[i]) || s[i] in "._@-"
  }

  lemma IdentifiersSpelled(s: string)
    ensures IsIdentifier(s) <==> Identifies(s)
  {
    forall c: char ensures IsAlphanumeric(c) <==> IsSpelled(c) { AlphanumericsSpelled(c); }
  }

  // ---- an accepted plan keeps to the manifest ----------------------------------------------------------------

  /** The value is of the parameter's kind and within what the parameter and the known resources allow. */
  predicate Suits(value: Scalar, p: Parameter, resourceTypes: map<string, string>) {
    && (value.BoolValue? <==> p.kind.Boolean?)
    && (value.IntValue? ==> p.kind.Integer? || p.kind.Number?)
    && (value.FloatValue? ==> p.kind.Number?)
    && (value.TextValue? <==> p.kind.Enum? || p.kind.Identifier? || p.kind.Resource?)
    && (value.IntValue? && p.minimum.Some? ==> p.minimum.value <= value.i as real)
    && (value.IntValue? && p.maximum.Some? ==> value.i as real <= p.maximum.value)
    && (value.FloatValue? && p.minimum.Some? ==> p.minimum.value <= value.r)
    && (value.FloatValue? && p.maximum.Some? ==> value.r <= p.maximum.value)
    && (p.kind.Enum? ==> value.s in p.allowedValues)
    && (p.kind.Resource? ==> value.s in resourceTypes && resourceTypes[value.s] in p.resourceTypes)
    && (p.kind.Identifier? ==> Identifies(value.s))
  }

  /** The work keeps to its capability: the declared version and time-out, each required parameter given, only
      declared ones, and every value suitable. */
  predicate WorkKeepsTo(capabilityId: string, version: string, arguments: seq<Argument>, timeout: int, bundle: Bundle) {
    && capabilityId in bundle.capabilities
    && var c := bundle.capabilities[capabilityId];
    && version == c.version && 1 <= timeout <= c.maxTimeout
    && (forall name :: name in c.parameters && c.parameters[name].required ==>
          exists i :: 0 <= i < |arguments| && arguments[i].name == name)
    && (forall i :: 0 <= i < |arguments| ==> arguments[i].name in c.parameters)
    && (forall i, j :: 0 <= i < j < |arguments| ==> arguments[i].name != arguments[j].name)
    && (forall i :: 0 <= i < |arguments| ==> Suits(arguments[i].value, c.parameters[arguments[i].name], bundle.resourceTypes))
  }

  predicate KeepsTo(a: PlanAction, bundle: Bundle) {
    WorkKeepsTo(a.capabilityId, a.capabilityVersion, a.arguments, a.timeout, bundle)
  }

  lemma FittingSuits(value: Scalar, p: Parameter, resourceTypes: map<string, string>)
    requires ArgumentFits(value, p, resourceTypes)
    ensures Suits(value, p, resourceTypes)
  {
    if p.kind.Identifier? { IdentifiersSpelled(value.s); }
  }

  lemma FittingKeepsTo(capabilityId: string, version: string, arguments: seq<Argument>, timeout: int, bundle: Bundle)
    requires capabilityId in bundle.capabilities
    requires version == bundle.capabilities[capabilityId].version && 1 <= timeout <= bundle.capabilities[capabilityId].maxTimeout
    requires NamesFit(arguments, bundle.capabilities[capabilityId])
    requires forall i :: 0 <= i < |arguments| ==>
               ArgumentFits(arguments[i].value, bundle.capabilities[capabilityId].parameters[arguments[i].name], bundle.resourceTypes)
    ensures WorkKeepsTo(capabilityId, version, arguments, timeout, bundle)
  {
    var c := bundle.capabilities[capabilityId];
    forall i | 0 <= i < |arguments| ensures Suits(arguments[i].value, c.parameters[arguments[i].name], bundle.resourceTypes) {
      FittingSuits(arguments[i].value, c.parameters[arguments[i].name], bundle.resourceTypes);
    }
    forall name | name in c.parameters && c.parameters[name].required
      ensures exists i :: 0 <= i < |arguments| && arguments[i].name == name
    {
      assert name in Names(arguments);
      var i :| 0 <= i < |Names(arguments)| && Names(arguments)[i] == name;
    }
    forall i, j | 0 <= i < j < |arguments| ensures arguments[i].name != arguments[j].name {
      assert Names(arguments)[i] != Names(arguments)[j];
    }
  }

  lemma AcceptedKeepsTo(plan: Plan, bundle: Bundle, s: ValidationSettings, k: nat)
    requires Accepted(plan, bundle, s) && k < |plan.actions|
    ensures KeepsTo(plan.actions[k], bundle)
  {
    var a := plan.actions[k];
    assert ActionCheck(plan.actions, k, bundle).Ok?;
    FittingKeepsTo(a.capabilityId, a.capabilityVersion, a.arguments, a.timeout, bundle);
  }

  /** The criterion checks an action of the plan with a code its capability declares. */
  predicate Checks(c: Criterion, a: PlanAction, bundle: Bundle) {
    && c.actionId == a.id && a.capabilityId in bundle.capabilities && c.code in bundle.capabilities[a.capabilityId].codes
  }

  lemma AcceptedChecks(plan: Plan, bundle: Bundle, s: ValidationSettings, c: nat) returns (k: nat)
    requires Accepted(plan, bundle, s) && c < |plan.criteria|
    ensures k < |plan.actions| && Checks(plan.criteria[c], plan.actions[k], bundle)
  {
    assert CriterionDeclared(plan.criteria[c], ById(plan.actions), bundle);
    var a := ById(plan.actions)[plan.criteria[c].actionId];
    k :| 0 <= k < |plan.actions| && plan.actions[k] == a;
  }

  /** The budgets, as sums over the plan. */
  predicate WithinCounts(plan: Plan, s: ValidationSettings) {
    && 1 <= |plan.actions| <= s.maxActions && 1 <= |plan.criteria| <= s.maxCriteria
    && Total((a: PlanAction) => |a.arguments|, plan.actions) <= s.maxArguments
    && Total((a: PlanAction) => |a.dependencies|, plan.actions) <= s.maxEdges
    && Total((a: PlanAction) => a.timeout, plan.actions) <= s.maxTotalTimeout
  }

  lemma {:induction false} SameTotal<T>(f: T -> int, g: T -> int, s: seq<T>)
    requires forall x :: x in s ==> f(x) == g(x)
    ensures Total(f, s) == Total(g, s)
  {
    if s != [] { SameTotal(f, g, s[..|s| - 1]); }
  }

  lemma AcceptedWithinCounts(plan: Plan, bundle: Bundle, s: ValidationSettings)
    requires Accepted(plan, bundle, s)
    ensures WithinCounts(plan, s)
  {
    SameTotal(ArgumentCount, (a: PlanAction) => |a.arguments|, plan.actions);
    SameTotal(DependencyCount, (a: PlanAction) => |a.dependencies|, plan.actions);
    SameTotal(TimeoutOf, (a: PlanAction) => a.timeout, plan.actions);
  }

  /** The same capability with the same arguments after the same actions. */
  predicate SameWork(a: PlanAction, b: PlanAction) {
    && a.capabilityId == b.capabilityId && a.capabilityVersion == b.capabilityVersion
    && multiset(a.arguments) == multiset(b.arguments) && multiset(a.dependencies) == multiset(b.dependencies)
  }

  /** No action is listed twice, under one id or two. */
  predicate NothingTwice(plan: Plan) {
    forall j, k :: 0 <= j < k < |plan.actions| ==>
      plan.actions[j].id != plan.actions[k].id && !SameWork(plan.actions[j], plan.actions[k])
  }

  /** Every action has a criterion, and every criterion checks an action with a declared code. */
  predicate Checked(plan: Plan, bundle: Bundle) {
    && (forall k :: 0 <= k < |plan.actions| ==> exists c :: 0 <= c < |plan.criteria| && plan.criteria[c].actionId == plan.actions[k].id)
    && (forall c :: 0 <= c < |plan.criteria| ==>
          exists k :: 0 <= k < |plan.actions| && Checks(plan.criteria[c], plan.actions[k], bundle))
  }

  lemma AcceptedNothingTwice(plan: Plan, bundle: Bundle, s: ValidationSettings)
    requires Accepted(plan, bundle, s)
    ensures NothingTwice(plan)
  {
    forall j, k | 0 <= j < k < |plan.actions|
      ensures plan.actions[j].id != plan.actions[k].id && !SameWork(plan.actions[j], plan.actions[k])
    {
      assert ActionCheck(plan.actions, k, bundle).Ok?;
      assert ActionIds(plan.actions)[j] != ActionIds(plan.actions)[k];
      assert FingerprintOf(plan.actions[j]) != FingerprintOf(plan.actions[k]);
    }
  }

  lemma AcceptedChecked(plan: Plan, bundle: Bundle, s: ValidationSettings)
    requires Accepted(plan, bundle, s)
    ensures Checked(plan, bundle)
  {
    forall c | 0 <= c < |plan.criteria| ensures exists k :: 0 <= k < |plan.actions| && Checks(plan.criteria[c], plan.actions[k], bundle) {
      var k := AcceptedChecks(plan, bundle, s, c);
    }
    forall k | 0 <= k < |plan.actions| ensures exists c :: 0 <= c < |plan.criteria| && plan.criteria[c].actionId == plan.actions[k].id {
      assert ActionIds(plan.actions)[k] in CoveredIds(plan.criteria);
    }
  }

  /** Main result on acceptance: every action of an accepted plan keeps to the manifest, is checked by some
      criterion with a declared code and is not listed twice; and the plan is within its budgets. */
  lemma AcceptedMeans(plan: Plan, bundle: Bundle, s: ValidationSettings)
    requires Accepted(plan, bundle, s)
    ensures forall k :: 0 <= k < |plan.actions| ==> KeepsTo(plan.actions[k], bundle)
    ensures Checked(plan, bundle) && NothingTwice(plan) && WithinCounts(plan, s)
  {
    forall k | 0 <= k < |plan.actions| ensures KeepsTo(plan.actions[k], bundle) { AcceptedKeepsTo(plan, bundle, s, k); }
    AcceptedChecked(plan, bundle, s);
    AcceptedNothingTwice(plan, bundle, s);
    AcceptedWithinCounts(plan, bundle, s);
  }

  // ---- what a rejected action is told ------------------------------------------------------------------------------

  /** The first argument that does not fit is at k. */
  predicate MisfitAt(arguments: seq<Argument>, c: Capability, resourceTypes: map<string, string>, k: nat)
    requires forall i :: 0 <= i < |arguments| ==> arguments[i].name in c.parameters
  {
    && k < |arguments| && !ArgumentFits(arguments[k].value, c.parameters[arguments[k].name], resourceTypes)
    && forall j :: 0 <= j < k ==> ArgumentFits(arguments[j].value, c.parameters[arguments[j].name], resourceTypes)
  }

  /** It decides the error: an unknown resource for a resource parameter, an invalid argument for any other. */
  lemma {:induction false} MisfitDecides(arguments: seq<Argument>, c: Capability, resourceTypes: map<string, string>) returns (k: nat)
    requires forall i :: 0 <= i < |arguments| ==> arguments[i].name in c.parameters
    requires ArgumentsCheck(arguments, c, resourceTypes).Err?
    ensures MisfitAt(arguments, c, resourceTypes, k)
    ensures c.parameters[arguments[k].name].kind.Resource? ==> ArgumentsCheck(arguments, c, resourceTypes) == Err(PlanResourceUnknown)
    ensures !c.parameters[arguments[k].name].kind.Resource? ==> ArgumentsCheck(arguments, c, resourceTypes) == Err(PlanArgumentInvalid)
  {
    k := 0;
    if ArgumentFits(arguments[0].value, c.parameters[arguments[0].name], resourceTypes) {
      assert arguments == [arguments[0]] + arguments[1..];
      k := MisfitDecides(arguments[1..], c, resourceTypes);
      k := k + 1;
    }
  }

  /** The faults of an action in the order they are looked for: unknown capability, wrong version or time-out, wrong
      argument names, an argument that does not fit, and the work of an earlier action. */
  lemma FaultNamed(actions: seq<PlanAction>, k: nat, bundle: Bundle)
    requires k < |actions|
    ensures var a, r := actions[k], ActionCheck(actions, k, bundle);
            && (a.capabilityId !in bundle.capabilities <==> r == Err(PlanCapabilityUnknown))
            && (a.capabilityId in bundle.capabilities ==>
                  var c := bundle.capabilities[a.capabilityId];
                  && (r == Err(PlanCapabilityInvalid) <==> a.capabilityVersion != c.version || a.timeout < 1 || a.timeout > c.maxTimeout)
                  && (r == Err(PlanActionDuplicate) <==>
                        && a.capabilityVersion == c.version && 1 <= a.timeout <= c.maxTimeout && NamesFit(a.arguments, c)
                        && (forall i :: 0 <= i < |a.arguments| ==>
                              ArgumentFits(a.arguments[i].value, c.parameters[a.arguments[i].name], bundle.resourceTypes))
                        && exists j :: 0 <= j < k && SameWork(actions[j], a)))
            && (r.Ok? || r.error in {PlanCapabilityUnknown, PlanCapabilityInvalid, PlanArgumentInvalid, PlanResourceUnknown, PlanActionDuplicate})
  {
    var a := actions[k];
    if a.capabilityId in bundle.capabilities && NamesFit(a.arguments, bundle.capabilities[a.capabilityId])
       && ArgumentsCheck(a.arguments, bundle.capabilities[a.capabilityId], bundle.resourceTypes).Err?
    {
      var m := MisfitDecides(a.arguments, bundle.capabilities[a.capabilityId], bundle.resourceTypes);
    }
    forall j | 0 <= j < k ensures FingerprintOf(actions[j]) == FingerprintOf(a) <==> SameWork(actions[j], a) {}
  }

  // ---- an accepted draft ---------------------------------------------------------------------------------------

  predicate LabelsEarlier(steps: seq<ModelAction>, k: nat, stepId: string)
    requires k < |steps|
  {
    exists j :: 0 <= j < k && steps[j].stepId == stepId
  }

  /** The step keeps to the manifest, has a label of its own and waits only for earlier steps, each listed once. */
  predicate StepKeepsTo(steps: seq<ModelAction>, k: nat, bundle: Bundle)
    requires k < |steps|
  {
    && WorkKeepsTo(steps[k].capabilityId, steps[k].capabilityVersion, steps[k].arguments, steps[k].timeout, bundle)
    && (forall j :: 0 <= j < k ==> steps[j].stepId != steps[k].stepId)
    && (forall i :: 0 <= i < |steps[k].dependsOn| ==> LabelsEarlier(steps, k, steps[k].dependsOn[i]))
    && (forall i, j :: 0 <= i < j < |steps[k].dependsOn| ==> steps[k].dependsOn[i] != steps[k].dependsOn[j])
  }

  lemma AcceptedStepKeepsTo(d: ModelDraft, intent: string, bundle: Bundle, s: DraftSettings, k: nat)
    requires ModelAccepted(d, intent, bundle, s) && k < |d.actions|
    ensures StepKeepsTo(d.actions, k, bundle)
  {
    var a, steps := d.actions[k], Steps(d.actions);
    assert StepFine(a, SetOf(steps[..k]), bundle);
    FittingKeepsTo(a.capabilityId, a.capabilityVersion, a.arguments, a.timeout, bundle);
    forall j | 0 <= j < k ensures d.actions[j].stepId != a.stepId {
      assert steps[..k][j] == d.actions[j].stepId && steps[..k][j] in SetOf(steps[..k]);
    }
    forall i | 0 <= i < |a.dependsOn| ensures LabelsEarlier(d.actions, k, a.dependsOn[i]) {
      assert a.dependsOn[i] in SetOf(a.dependsOn);
      var j :| 0 <= j < k && steps[..k][j] == a.dependsOn[i];
      assert d.actions[j].stepId == a.dependsOn[i];
    }
  }

  /** The criterion is of a step whose capability declares its code. */
  predicate CodeDeclared(d: ModelDraft, c: nat, bundle: Bundle)
    requires c < |d.criteria|
  {
    exists k :: 0 <= k < |d.actions| && d.actions[k].stepId == d.criteria[c].stepId
      && d.actions[k].capabilityId in bundle.capabilities && d.criteria[c].code in bundle.capabilities[d.actions[k].capabilityId].codes
  }

  /** The two steps do the same work after the same steps. */
  predicate SameStep(a: ModelAction, b: ModelAction) {
    && a.capabilityId == b.capabilityId && a.capabilityVersion == b.capabilityVersion
    && multiset(a.arguments) == multiset(b.arguments) && multiset(a.dependsOn) == multiset(b.dependsOn)
  }

  /** No two steps do the same work, every step has a criterion, and every criterion a step whose capability declares
      its code; no criterion is listed twice. */
  predicate StepsCovered(d: ModelDraft, bundle: Bundle) {
    && (forall j, k :: 0 <= j < k < |d.actions| ==> !SameStep(d.actions[j], d.actions[k]))
    && (forall k :: 0 <= k < |d.actions| ==> exists c :: 0 <= c < |d.criteria| && d.criteria[c].stepId == d.actions[k].stepId)
    && (forall c :: 0 <= c < |d.criteria| ==> CodeDeclared(d, c, bundle))
    && (forall b, c :: 0 <= b < c < |d.criteria| ==> d.criteria[b] != d.criteria[c])
  }

  lemma AcceptedStepsCovered(d: ModelDraft, intent: string, bundle: Bundle, s: DraftSettings)
    requires ModelAccepted(d, intent, bundle, s)
    ensures StepsCovered(d, bundle)
  {
    forall j, k | 0 <= j < k < |d.actions| ensures !SameStep(d.actions[j], d.actions[k]) {
      assert ModelFingerprintOf(d.actions[j]) != ModelFingerprintOf(d.actions[k]);
    }
    forall k | 0 <= k < |d.actions| ensures exists c :: 0 <= c < |d.criteria| && d.criteria[c].stepId == d.actions[k].stepId {
      assert Steps(d.actions)[k] in CoveredSteps(d.criteria);
    }
    forall c | 0 <= c < |d.criteria| ensures CodeDeclared(d, c, bundle) {
      assert ModelCriterionDeclared(d.criteria[c], d.actions, bundle);
      assert d.actions[FirstStep(d.actions, d.criteria[c].stepId)].stepId == d.criteria[c].stepId;
    }
  }

  /** The header asks for the intent within its limits and repeats nothing. */
  predicate HeaderKeepsTo(d: ModelDraft, intent: string, s: DraftSettings) {
    && d.objective == intent
    && 1 <= |d.actions| <= 8 && |d.actions| <= s.maxActions && 1 <= |d.criteria| <= 16 && |d.criteria| <= s.maxCriteria
    && Total((a: ModelAction) => |a.arguments|, d.actions) <= s.maxArguments
    && |d.assumptions| <= 3 && |d.warnings| <= 3
    && (forall i, j :: 0 <= i < j < |d.assumptions| ==> d.assumptions[i] != d.assumptions[j])
    && (forall i, j :: 0 <= i < j < |d.warnings| ==> d.warnings[i] != d.warnings[j])
    && forall k :: 0 <= k < |d.actions| ==> |d.actions[k].arguments| <= 12 && |d.actions[k].dependsOn| <= 8 && d.actions[k].timeout <= 600
  }

  /** Main result on drafting: an accepted draft asks for the intent, keeps step by step to the manifest, waits only
      backwards, repeats no work and leaves no step without a criterion. */
  lemma AcceptedDraftMeans(d: ModelDraft, intent: string, bundle: Bundle, s: DraftSettings)
    requires ModelAccepted(d, intent, bundle, s)
    ensures HeaderKeepsTo(d, intent, s) && StepsCovered(d, bundle)
    ensures forall k :: 0 <= k < |d.actions| ==> StepKeepsTo(d.actions, k, bundle)
  {
    SameTotal(ModelArgumentCount, (a: ModelAction) => |a.arguments|, d.actions);
    AcceptedStepsCovered(d, intent, bundle, s);
    forall k | 0 <= k < |d.actions| ensures StepKeepsTo(d.actions, k, bundle) { AcceptedStepKeepsTo(d, intent, bundle, s, k); }
  }
}
