/** What an evaluation decides, in terms of the rules and the advice themselves. */
module PolicyMeaning {
  import opened Collections
  import opened PlanModel
  import opened PlanValidation
  import opened Policy

  // ---- what speaks about an action -------------------------------------------------------------------

  /** The snapshot has a rule for the capability and version of the action. */
  predicate RuledBy(snapshot: Snapshot, action: PlanAction, k: nat) {
    && k < |snapshot.rules|
    && snapshot.rules[k].capabilityId == action.capabilityId && snapshot.rules[k].capabilityVersion == action.capabilityVersion
  }

  predicate Ruled(snapshot: Snapshot, action: PlanAction) {
    exists k :: 0 <= k < |snapshot.rules| && RuledBy(snapshot, action, k)
  }

  /** The positions of a plan whose capability the aggregate rule lists. */
  function Matched(rule: AggregateRule, actions: seq<PlanAction>): set<nat> {
    set i: nat | i < |actions| && actions[i].capabilityId in rule.capabilityIds
  }

  /** The aggregate rule lists the action's capability, and enough actions of the plan are listed. */
  predicate Reaches(rule: AggregateRule, actions: seq<PlanAction>, action: PlanAction) {
    action.capabilityId in rule.capabilityIds && |Matched(rule, actions)| >= rule.minimumMatches
  }

  /** The advice is about this action, or about the whole plan. */
  predicate Targets(r: Recommendation, action: PlanAction) {
    r.actionId.None? || r.actionId == Some(action.id)
  }

  /** An aggregate rule or a piece of advice holds this against the action. */
  predicate Raises(snapshot: Snapshot, advice: Assessment, actions: seq<PlanAction>, action: PlanAction, t: Tightening) {
    || (exists k :: 0 <= k < |snapshot.aggregates| && Reaches(snapshot.aggregates[k], actions, action)
          && t == Tightening(snapshot.aggregates[k].decision, snapshot.aggregates[k].risk, snapshot.aggregates[k].reason))
    || (exists k :: 0 <= k < |advice| && Targets(advice[k], action)
          && t == Tightening(advice[k].decision, advice[k].risk, advice[k].reason))
  }

  lemma {:induction false} MatchCountIsCardinality(rule: AggregateRule, actions: seq<PlanAction>)
    ensures MatchCount(rule, actions) == |Matched(rule, actions)|
  {
    if actions == [] {
      assert Matched(rule, actions) == {};
    } else {
      var n := |actions| - 1;
      MatchCountIsCardinality(rule, actions[..n]);
      if actions[n].capabilityId in rule.capabilityIds {
        assert Matched(rule, actions) == Matched(rule, actions[..n]) + {n};
      } else {
        assert Matched(rule, actions) == Matched(rule, actions[..n]);
      }
    }
  }

  lemma {:induction false} AggregateMembers(rules: seq<AggregateRule>, actions: seq<PlanAction>, action: PlanAction, t: Tightening)
    ensures t in AggregateTightenings(rules, actions, action)
       <==> exists k :: 0 <= k < |rules| && Reaches(rules[k], actions, action)
              && t == Tightening(rules[k].decision, rules[k].risk, rules[k].reason)
  {
    if rules != [] {
      var n := |rules| - 1;
      AggregateMembers(rules[..n], actions, action, t);
      MatchCountIsCardinality(rules[n], actions);
      assert forall k :: 0 <= k < n ==> rules[..n][k] == rules[k];
    }
  }

  lemma {:induction false} AdviceMembers(advice: Assessment, action: PlanAction, t: Tightening)
    ensures t in AdviceTightenings(advice, action)
       <==> exists k :: 0 <= k < |advice| && Targets(advice[k], action)
              && t == Tightening(advice[k].decision, advice[k].risk, advice[k].reason)
  {
    if advice != [] {
      var n := |advice| - 1;
      AdviceMembers(advice[..n], action, t);
      assert forall k :: 0 <= k < n ==> advice[..n][k] == advice[k];
    }
  }

  lemma ApplicableIsRaised(snapshot: Snapshot, advice: Assessment, actions: seq<PlanAction>, action: PlanAction, t: Tightening)
    ensures t in Applicable(snapshot, advice, actions, action) <==> Raises(snapshot, advice, actions, action, t)
  {
    AggregateMembers(snapshot.aggregates, actions, action, t);
    AdviceMembers(advice, action, t);
  }

  lemma RuleFound(snapshot: Snapshot, action: PlanAction, k: nat)
    requires SnapshotValid(snapshot) && RuledBy(snapshot, action, k)
    ensures Baseline(snapshot, action)
         == Verdict(snapshot.rules[k].decision, snapshot.rules[k].risk, [snapshot.rules[k].reason], snapshot.rules[k].grant)
  {
    var r := FindRule(snapshot.rules, action.capabilityId, action.capabilityVersion);
    var j :| 0 <= j < |snapshot.rules| && snapshot.rules[j] == r.value;
    assert j == k;
  }

  lemma NoRuleFound(snapshot: Snapshot, action: PlanAction)
    requires !Ruled(snapshot, action)
    ensures Baseline(snapshot, action) == Verdict(Deny, R4, ["policy_default_deny"], None)
  {
    var r := FindRule(snapshot.rules, action.capabilityId, action.capabilityVersion);
    if r.Some? {
      var j :| 0 <= j < |snapshot.rules| && snapshot.rules[j] == r.value;
      assert RuledBy(snapshot, action, j);
    }
  }

  /** The tiers in order, from R0 to R4. */
  predicate AtLeast(r: RiskTier, tier: RiskTier) {
    match tier
    case R0 => true
    case R1 => !r.R0?
    case R2 => r.R2? || r.R3? || r.R4?
    case R3 => r.R3? || r.R4?
    case R4 => r.R4?
  }

  // ---- risk ------------------------------------------------------------------------------------------

  lemma RankAtLeast(r: RiskTier, tier: RiskTier)
    ensures RiskRank(r) >= RiskRank(tier) <==> AtLeast(r, tier)
  {
  }

  lemma ReachesRisk(base: RiskTier, ts: seq<Tightening>, tier: RiskTier)
    ensures AtLeast(HighestRisk(base, ts), tier) <==> AtLeast(base, tier) || exists t :: t in ts && AtLeast(t.risk, tier)
  {
    HighestRiskBounds(base, ts);
    RankAtLeast(HighestRisk(base, ts), tier);
    RankAtLeast(base, tier);
    if AtLeast(HighestRisk(base, ts), tier) && HighestRisk(base, ts) != base {
      var i :| 0 <= i < |ts| && ts[i].risk == HighestRisk(base, ts);
      assert ts[i] in ts;
    }
    if t :| t in ts && AtLeast(t.risk, tier) {
      var i :| 0 <= i < |ts| && ts[i] == t;
      RankAtLeast(t.risk, tier);
    }
  }

  lemma RaisedReaches(snapshot: Snapshot, advice: Assessment, actions: seq<PlanAction>, action: PlanAction, tier: RiskTier)
    requires SnapshotValid(snapshot)
    ensures AtLeast(FinalVerdict(snapshot, advice, actions, action).risk, tier)
       <==> AtLeast(Baseline(snapshot, action).risk, tier) || exists t :: Raises(snapshot, advice, actions, action, t) && AtLeast(t.risk, tier)
  {
    FinalVerdictClosed(snapshot, advice, actions, action);
    ReachesRisk(Baseline(snapshot, action).risk, Applicable(snapshot, advice, actions, action), tier);
    RaisedAll(snapshot, advice, actions, action);
  }

  /** The risk of an action reaches a tier exactly if it has no rule, or its rule, an aggregate rule that is
      reached or a piece of advice reaches that tier. */
  lemma RiskReaches(snapshot: Snapshot, advice: Assessment, actions: seq<PlanAction>, action: PlanAction, tier: RiskTier)
    requires SnapshotValid(snapshot)
    ensures AtLeast(FinalVerdict(snapshot, advice, actions, action).risk, tier)
       <==> || !Ruled(snapshot, action)
            || (exists k :: 0 <= k < |snapshot.rules| && RuledBy(snapshot, action, k) && AtLeast(snapshot.rules[k].risk, tier))
            || (exists t :: Raises(snapshot, advice, actions, action, t) && AtLeast(t.risk, tier))
  {
    RaisedReaches(snapshot, advice, actions, action, tier);
    if Ruled(snapshot, action) {
      var k :| 0 <= k < |snapshot.rules| && RuledBy(snapshot, action, k);
      RuleFound(snapshot, action, k);
      forall j | 0 <= j < |snapshot.rules| && RuledBy(snapshot, action, j) ensures j == k { RuleUnique(snapshot, action, j, k); }
    } else {
      NoRuleFound(snapshot, action);
    }
  }

  lemma RuleUnique(snapshot: Snapshot, action: PlanAction, j: nat, k: nat)
    requires SnapshotValid(snapshot) && RuledBy(snapshot, action, j) && RuledBy(snapshot, action, k)
    ensures j == k
  {
  }

  // ---- decision --------------------------------------------------------------------------------------

  /** What a single source demands at least, given the grant of the action's rule. */
  predicate Admits(t: Tightening, grant: Option<string>) {
    t.decision.Allow? && !t.risk.R3? && !t.risk.R4? && (t.risk.R2? ==> grant.Some?)
  }

  lemma {:induction false} AllAllow(base: DecisionKind, ts: seq<Tightening>)
    requires base.Allow? && forall t :: t in ts ==> t.decision.Allow?
    ensures StrictestDecision(base, ts).Allow?
  {
    if ts != [] {
      assert forall t :: t in ts[..|ts| - 1] ==> t in ts;
      AllAllow(base, ts[..|ts| - 1]);
    }
  }

  lemma ClosedAllows(base: Verdict, ts: seq<Tightening>, v: Verdict)
    requires Settled(base) && ClosedForm(base, ts, v)
    ensures v.decision.Allow? <==> base.decision.Allow? && forall t :: t in ts ==> Admits(t, base.grant)
    ensures v.decision.Deny? <==> base.decision.Deny? || base.risk.R4? || exists t :: t in ts && (t.decision.Deny? || t.risk.R4?)
    ensures v.grant == if v.decision.Allow? then base.grant else None
  {
    StrictestDecisionBounds(base.decision, ts);
    HighestRiskBounds(base.risk, ts);
    forall t | t in ts
      ensures DecisionRank(t.decision) <= DecisionRank(StrictestDecision(base.decision, ts))
      ensures RiskRank(t.risk) <= RiskRank(HighestRisk(base.risk, ts))
    {
      var i :| 0 <= i < |ts| && ts[i] == t;
    }
    if base.decision.Allow? && forall t :: t in ts ==> Admits(t, base.grant) {
      assert HighestRisk(base.risk, ts) == base.risk || exists i :: 0 <= i < |ts| && ts[i].risk == HighestRisk(base.risk, ts);
      if HighestRisk(base.risk, ts) != base.risk {
        var i :| 0 <= i < |ts| && ts[i].risk == HighestRisk(base.risk, ts);
        assert ts[i] in ts;
      }
      AllAllow(base.decision, ts);
    }
    if v.decision.Deny? {
      if StrictestDecision(base.decision, ts).Deny? && !base.decision.Deny? {
        var i :| 0 <= i < |ts| && ts[i].decision == StrictestDecision(base.decision, ts);
        assert ts[i] in ts;
      }
      if HighestRisk(base.risk, ts).R4? && !base.risk.R4? {
        var i :| 0 <= i < |ts| && ts[i].risk == HighestRisk(base.risk, ts);
        assert ts[i] in ts;
      }
    }
  }

  lemma RaisedAll(snapshot: Snapshot, advice: Assessment, actions: seq<PlanAction>, action: PlanAction)
    ensures forall t :: t in Applicable(snapshot, advice, actions, action) <==> Raises(snapshot, advice, actions, action, t)
  {
    forall t ensures t in Applicable(snapshot, advice, actions, action) <==> Raises(snapshot, advice, actions, action, t) {
      ApplicableIsRaised(snapshot, advice, actions, action, t);
    }
  }

  /** An action without a rule for its capability and version is denied at the highest risk, whatever the
      plan and the advice say. */
  lemma UnruledIsDenied(snapshot: Snapshot, advice: Assessment, actions: seq<PlanAction>, action: PlanAction)
    requires SnapshotValid(snapshot) && !Ruled(snapshot, action)
    ensures var v := FinalVerdict(snapshot, advice, actions, action);
            v.decision == Deny && v.risk == R4 && v.grant == None && "policy_default_deny" in v.reasons
  {
    NoRuleFound(snapshot, action);
    NeverLooserThanBaseline(snapshot, advice, actions, action);
    FinalVerdictClosed(snapshot, advice, actions, action);
    ReasonsKept(snapshot, advice, actions, action);
    assert FinalVerdict(snapshot, advice, actions, action).reasons[0] == "policy_default_deny";
  }

  lemma HasMember<T>(s: seq<T>)
    requires s != []
    ensures exists t :: t in s
  {
    assert s[0] in s;
  }

  /** A rule nothing else speaks against is the verdict, word for word. */
  lemma RuleAloneDecides(snapshot: Snapshot, advice: Assessment, actions: seq<PlanAction>, action: PlanAction, k: nat)
    requires SnapshotValid(snapshot) && RuledBy(snapshot, action, k)
    requires forall t :: !Raises(snapshot, advice, actions, action, t)
    ensures FinalVerdict(snapshot, advice, actions, action)
         == Verdict(snapshot.rules[k].decision, snapshot.rules[k].risk, [snapshot.rules[k].reason], snapshot.rules[k].grant)
  {
    RuleFound(snapshot, action, k);
    RaisedAll(snapshot, advice, actions, action);
    var first := AggregateTightenings(SortBy(AggregateLeq, snapshot.aggregates), actions, action);
    var second := AdviceTightenings(SortBy(AdviceLeq, advice), action);
    SortedApplicable(snapshot, advice, actions, action);
    SameLength(first + second, Applicable(snapshot, advice, actions, action));
    if Applicable(snapshot, advice, actions, action) != [] { HasMember(Applicable(snapshot, advice, actions, action)); }
    assert first == [] && second == [];
  }

  /** An action is allowed exactly if its rule allows it and everything else that speaks about it is content
      with that: no decision but to allow, and a risk of R2 only under a grant. */
  lemma AllowedExactly(snapshot: Snapshot, advice: Assessment, actions: seq<PlanAction>, action: PlanAction)
    requires SnapshotValid(snapshot)
    ensures FinalVerdict(snapshot, advice, actions, action).decision.Allow?
       <==> exists k :: 0 <= k < |snapshot.rules| && RuledBy(snapshot, action, k) && snapshot.rules[k].decision.Allow?
              && forall t :: Raises(snapshot, advice, actions, action, t) ==> Admits(t, snapshot.rules[k].grant)
    ensures forall k :: 0 <= k < |snapshot.rules| && RuledBy(snapshot, action, k) ==>
              FinalVerdict(snapshot, advice, actions, action).grant
              == if FinalVerdict(snapshot, advice, actions, action).decision.Allow? then snapshot.rules[k].grant else None
  {
    if Ruled(snapshot, action) {
      var k :| 0 <= k < |snapshot.rules| && RuledBy(snapshot, action, k);
      RuledVerdict(snapshot, advice, actions, action, k);
      forall j | 0 <= j < |snapshot.rules| && RuledBy(snapshot, action, j) ensures j == k { RuleUnique(snapshot, action, j, k); }
    } else {
      UnruledIsDenied(snapshot, advice, actions, action);
      forall k | 0 <= k < |snapshot.rules| ensures !RuledBy(snapshot, action, k) {}
    }
  }

  lemma RuledVerdict(snapshot: Snapshot, advice: Assessment, actions: seq<PlanAction>, action: PlanAction, k: nat)
    requires SnapshotValid(snapshot) && RuledBy(snapshot, action, k)
    ensures var v, rule := FinalVerdict(snapshot, advice, actions, action), snapshot.rules[k];
            && (v.decision.Allow? <==>
                  (rule.decision.Allow? && forall t :: Raises(snapshot, advice, actions, action, t) ==> Admits(t, rule.grant)))
            && (v.decision.Deny? <==>
                  (rule.decision.Deny? || exists t :: Raises(snapshot, advice, actions, action, t) && (t.decision.Deny? || t.risk.R4?)))
            && v.grant == if v.decision.Allow? then rule.grant else None
  {
    RuleFound(snapshot, action, k);
    BaselineSettled(snapshot, action);
    FinalVerdictClosed(snapshot, advice, actions, action);
    RaisedAll(snapshot, advice, actions, action);
    ClosedAllows(Baseline(snapshot, action), Applicable(snapshot, advice, actions, action),
                 FinalVerdict(snapshot, advice, actions, action));
    assert RuleValid(snapshot.rules[k]);
  }

  /** An action is denied exactly if it has no rule, its rule denies it, or an aggregate rule that is reached
      or a piece of advice denies it or puts it at R4. */
  lemma DeniedExactly(snapshot: Snapshot, advice: Assessment, actions: seq<PlanAction>, action: PlanAction)
    requires SnapshotValid(snapshot)
    ensures FinalVerdict(snapshot, advice, actions, action).decision.Deny?
       <==> || !Ruled(snapshot, action)
            || (exists k :: 0 <= k < |snapshot.rules| && RuledBy(snapshot, action, k) && snapshot.rules[k].decision.Deny?)
            || (exists t :: Raises(snapshot, advice, actions, action, t) && (t.decision.Deny? || t.risk.R4?))
  {
    if Ruled(snapshot, action) {
      var k :| 0 <= k < |snapshot.rules| && RuledBy(snapshot, action, k);
      RuledVerdict(snapshot, advice, actions, action, k);
      forall j | 0 <= j < |snapshot.rules| && RuledBy(snapshot, action, j) ensures j == k { RuleUnique(snapshot, action, j, k); }
    } else {
      UnruledIsDenied(snapshot, advice, actions, action);
    }
  }

  // ---- reasons ---------------------------------------------------------------------------------------

  lemma {:induction false} TightenAllCites(base: Verdict, ts: seq<Tightening>)
    ensures base.reasons <= TightenAll(base, ts).reasons
    ensures forall i :: 0 <= i < |ts| ==> ts[i].reason in TightenAll(base, ts).reasons
    ensures forall r :: r in TightenAll(base, ts).reasons ==> r in base.reasons || exists t :: t in ts && t.reason == r
  {
    if ts != [] {
      var n := |ts| - 1;
      TightenAllCites(base, ts[..n]);
      assert forall t :: t in ts[..n] ==> t in ts;
      assert ts[n] in ts;
      assert forall i :: 0 <= i < n ==> ts[..n][i] == ts[i];
    }
  }

  lemma {:induction false} AdviseAllCites(base: Verdict, ts: seq<Tightening>)
    ensures base.reasons <= AdviseAll(base, ts).reasons
    ensures forall r :: r in AdviseAll(base, ts).reasons ==> r in base.reasons || exists t :: t in ts && t.reason == r
  {
    if ts != [] {
      var n := |ts| - 1;
      AdviseAllCites(base, ts[..n]);
      assert forall t :: t in ts[..n] ==> t in ts;
      assert ts[n] in ts;
    }
  }

  lemma ReasonsKept(snapshot: Snapshot, advice: Assessment, actions: seq<PlanAction>, action: PlanAction)
    ensures Baseline(snapshot, action).reasons <= FinalVerdict(snapshot, advice, actions, action).reasons
  {
    TightenAllCites(Baseline(snapshot, action), AggregateTightenings(SortBy(AggregateLeq, snapshot.aggregates), actions, action));
    AdviseAllCites(AfterAggregates(snapshot, actions, action), AdviceTightenings(SortBy(AdviceLeq, advice), action));
  }

  /** The recorded reasons are those of the rule first, then of every aggregate rule that is reached, and
      otherwise only of what speaks about the action. */
  lemma ReasonsCited(snapshot: Snapshot, advice: Assessment, actions: seq<PlanAction>, action: PlanAction, k: nat)
    requires SnapshotValid(snapshot) && RuledBy(snapshot, action, k)
    ensures var reasons := FinalVerdict(snapshot, advice, actions, action).reasons;
            && reasons != [] && reasons[0] == snapshot.rules[k].reason
            && (forall j :: 0 <= j < |snapshot.aggregates| && Reaches(snapshot.aggregates[j], actions, action) ==>
                  snapshot.aggregates[j].reason in reasons)
            && (forall r :: r in reasons ==>
                  r == snapshot.rules[k].reason || exists t :: Raises(snapshot, advice, actions, action, t) && t.reason == r)
  {
    var ordered, first := SortBy(AggregateLeq, snapshot.aggregates), AggregateTightenings(SortBy(AggregateLeq, snapshot.aggregates), actions, action);
    var second := AdviceTightenings(SortBy(AdviceLeq, advice), action);
    RuleFound(snapshot, action, k);
    TightenAllCites(Baseline(snapshot, action), first);
    AdviseAllCites(AfterAggregates(snapshot, actions, action), second);
    forall j | 0 <= j < |snapshot.aggregates| && Reaches(snapshot.aggregates[j], actions, action)
      ensures snapshot.aggregates[j].reason in FinalVerdict(snapshot, advice, actions, action).reasons
    {
      ReachedIsCited(snapshot, actions, action, j);
    }
    forall t | t in first || t in second ensures Raises(snapshot, advice, actions, action, t) {
      SortedIsRaised(snapshot, advice, actions, action, t);
    }
  }

  lemma ReachedIsCited(snapshot: Snapshot, actions: seq<PlanAction>, action: PlanAction, j: nat)
    requires j < |snapshot.aggregates| && Reaches(snapshot.aggregates[j], actions, action)
    ensures snapshot.aggregates[j].reason in AfterAggregates(snapshot, actions, action).reasons
  {
    var rule, ordered := snapshot.aggregates[j], SortBy(AggregateLeq, snapshot.aggregates);
    var t, ts := Tightening(rule.decision, rule.risk, rule.reason), AggregateTightenings(ordered, actions, action);
    SortByMultiset(AggregateLeq, snapshot.aggregates);
    assert rule in multiset(ordered);
    var i :| 0 <= i < |ordered| && ordered[i] == rule;
    AggregateMembers(ordered, actions, action, t);
    TightenAllCites(Baseline(snapshot, action), ts);
    var m :| 0 <= m < |ts| && ts[m] == t;
  }

  lemma SortedIsRaised(snapshot: Snapshot, advice: Assessment, actions: seq<PlanAction>, action: PlanAction, t: Tightening)
    requires t in AggregateTightenings(SortBy(AggregateLeq, snapshot.aggregates), actions, action)
          || t in AdviceTightenings(SortBy(AdviceLeq, advice), action)
    ensures Raises(snapshot, advice, actions, action, t)
  {
    var first := AggregateTightenings(SortBy(AggregateLeq, snapshot.aggregates), actions, action);
    var second := AdviceTightenings(SortBy(AdviceLeq, advice), action);
    SortedApplicable(snapshot, advice, actions, action);
    assert t in multiset(first + second);
    ApplicableIsRaised(snapshot, advice, actions, action, t);
  }

  // ---- a whole plan ----------------------------------------------------------------------------------

  /** The action may not run at all: this is the condition of DeniedExactly. */
  predicate Barred(snapshot: Snapshot, advice: Assessment, actions: seq<PlanAction>, action: PlanAction) {
    || !Ruled(snapshot, action)
    || (exists k :: 0 <= k < |snapshot.rules| && RuledBy(snapshot, action, k) && snapshot.rules[k].decision.Deny?)
    || (exists k :: 0 <= k < |snapshot.aggregates| && Reaches(snapshot.aggregates[k], actions, action)
          && (snapshot.aggregates[k].decision.Deny? || snapshot.aggregates[k].risk.R4?))
    || (exists k :: 0 <= k < |advice| && Targets(advice[k], action) && (advice[k].decision.Deny? || advice[k].risk.R4?))
  }

  /** Nothing but what the rule admits speaks about the action. */
  predicate Unopposed(snapshot: Snapshot, advice: Assessment, actions: seq<PlanAction>, action: PlanAction, grant: Option<string>) {
    && (forall j :: 0 <= j < |snapshot.aggregates| ==> !Reaches(snapshot.aggregates[j], actions, action))
    && (forall j :: 0 <= j < |advice| && Targets(advice[j], action) ==>
          Admits(Tightening(advice[j].decision, advice[j].risk, advice[j].reason), grant))
  }

  /** The action may run unasked: this is the condition of AllowedExactly. */
  predicate Free(snapshot: Snapshot, advice: Assessment, actions: seq<PlanAction>, action: PlanAction) {
    exists k :: 0 <= k < |snapshot.rules| && RuledBy(snapshot, action, k) && snapshot.rules[k].decision.Allow?
      && Unopposed(snapshot, advice, actions, action, snapshot.rules[k].grant)
  }

  lemma BarredIsDenied(snapshot: Snapshot, advice: Assessment, actions: seq<PlanAction>, action: PlanAction)
    requires SnapshotValid(snapshot)
    ensures FinalVerdict(snapshot, advice, actions, action).decision.Deny? <==> Barred(snapshot, advice, actions, action)
  {
    DeniedExactly(snapshot, advice, actions, action);
    forall k | 0 <= k < |snapshot.aggregates| && Reaches(snapshot.aggregates[k], actions, action)
      ensures Raises(snapshot, advice, actions, action,
                     Tightening(snapshot.aggregates[k].decision, snapshot.aggregates[k].risk, snapshot.aggregates[k].reason)) {}
    forall k | 0 <= k < |advice| && Targets(advice[k], action)
      ensures Raises(snapshot, advice, actions, action, Tightening(advice[k].decision, advice[k].risk, advice[k].reason)) {}
  }

  lemma UnopposedAdmits(snapshot: Snapshot, advice: Assessment, actions: seq<PlanAction>, action: PlanAction, grant: Option<string>)
    requires Unopposed(snapshot, advice, actions, action, grant)
    ensures forall t :: Raises(snapshot, advice, actions, action, t) ==> Admits(t, grant)
  {
  }

  lemma AdmitsUnopposed(snapshot: Snapshot, advice: Assessment, actions: seq<PlanAction>, action: PlanAction, grant: Option<string>)
    requires SnapshotValid(snapshot) && forall t :: Raises(snapshot, advice, actions, action, t) ==> Admits(t, grant)
    ensures Unopposed(snapshot, advice, actions, action, grant)
  {
    forall j | 0 <= j < |snapshot.aggregates| ensures !Reaches(snapshot.aggregates[j], actions, action) {
      var rule := snapshot.aggregates[j];
      assert Policy.AggregateValid(rule);
      assert !Admits(Tightening(rule.decision, rule.risk, rule.reason), grant);
    }
    forall j | 0 <= j < |advice| && Targets(advice[j], action)
      ensures Admits(Tightening(advice[j].decision, advice[j].risk, advice[j].reason), grant)
    {
      assert Raises(snapshot, advice, actions, action, Tightening(advice[j].decision, advice[j].risk, advice[j].reason));
    }
  }

  lemma FreeIsAllowed(snapshot: Snapshot, advice: Assessment, actions: seq<PlanAction>, action: PlanAction)
    requires SnapshotValid(snapshot)
    ensures FinalVerdict(snapshot, advice, actions, action).decision.Allow? <==> Free(snapshot, advice, actions, action)
  {
    AllowedExactly(snapshot, advice, actions, action);
    if FinalVerdict(snapshot, advice, actions, action).decision.Allow? {
      var k :| 0 <= k < |snapshot.rules| && RuledBy(snapshot, action, k) && snapshot.rules[k].decision.Allow?
        && forall t :: Raises(snapshot, advice, actions, action, t) ==> Admits(t, snapshot.rules[k].grant);
      AdmitsUnopposed(snapshot, advice, actions, action, snapshot.rules[k].grant);
    }
    if Free(snapshot, advice, actions, action) {
      var k :| 0 <= k < |snapshot.rules| && RuledBy(snapshot, action, k) && snapshot.rules[k].decision.Allow?
        && Unopposed(snapshot, advice, actions, action, snapshot.rules[k].grant);
      UnopposedAdmits(snapshot, advice, actions, action, snapshot.rules[k].grant);
    }
  }

  lemma StatusByDecisions(decisions: seq<PolicyDecision>)
    ensures StatusOf(decisions).StatusDenied? <==> exists i :: 0 <= i < |decisions| && decisions[i].decision.Deny?
    ensures StatusOf(decisions).StatusExecuting? <==> forall i :: 0 <= i < |decisions| ==> decisions[i].decision.Allow?
  {
    if StatusOf(decisions).StatusExecuting? {
      forall i | 0 <= i < |decisions| ensures decisions[i].decision.Allow? {
        assert !decisions[i].decision.Deny? && !decisions[i].decision.Ask?;
      }
    }
  }

  lemma Decided(taskId: string, snapshot: Snapshot, advice: Assessment, actions: seq<PlanAction>, i: nat)
    requires SnapshotValid(snapshot) && i < |actions|
    ensures var d := Decide(taskId, snapshot, advice, actions)[i];
            && d.actionId == actions[i].id
            && (d.decision.Deny? <==> Barred(snapshot, advice, actions, actions[i]))
            && (d.decision.Allow? <==> Free(snapshot, advice, actions, actions[i]))
  {
    BarredIsDenied(snapshot, advice, actions, actions[i]);
    FreeIsAllowed(snapshot, advice, actions, actions[i]);
  }

  /** Main result, on the evaluation of a plan: decision by decision, an action is denied exactly if it is
      barred and allowed exactly if it is free; so the run is stopped exactly if some action is barred and
      goes on without asking exactly if every action is free. */
  lemma PlanDecided(taskId: string, snapshot: Snapshot, advice: Assessment, actions: seq<PlanAction>)
    requires SnapshotValid(snapshot)
    ensures var decisions := Decide(taskId, snapshot, advice, actions);
            && |decisions| == |actions|
            && (forall i :: 0 <= i < |actions| ==>
                  && decisions[i].actionId == actions[i].id
                  && (decisions[i].decision.Deny? <==> Barred(snapshot, advice, actions, actions[i]))
                  && (decisions[i].decision.Allow? <==> Free(snapshot, advice, actions, actions[i])))
            && (StatusOf(decisions).StatusDenied? <==> exists i :: 0 <= i < |actions| && Barred(snapshot, advice, actions, actions[i]))
            && (StatusOf(decisions).StatusExecuting? <==> forall i :: 0 <= i < |actions| ==> Free(snapshot, advice, actions, actions[i]))
  {
    var decisions := Decide(taskId, snapshot, advice, actions);
    StatusByDecisions(decisions);
    forall i | 0 <= i < |actions|
      ensures decisions[i].actionId == actions[i].id
      ensures decisions[i].decision.Deny? <==> Barred(snapshot, advice, actions, actions[i])
      ensures decisions[i].decision.Allow? <==> Free(snapshot, advice, actions, actions[i])
    {
      Decided(taskId, snapshot, advice, actions, i);
    }
  }

  /** A decision id stands for everything the decision says. */
  lemma DecisionIdBinds(taskId: string, snapshot: Snapshot, a: PlanAction, v: Verdict, taskId': string, snapshot': Snapshot,
                        b: PlanAction, w: Verdict)
    requires ProjectDecision(taskId, snapshot, a, v).decisionId == ProjectDecision(taskId', snapshot', b, w).decisionId
    ensures taskId == taskId' && a.id == b.id && v.decision == w.decision && v.risk == w.risk && v.grant == w.grant
    ensures multiset(v.reasons) == multiset(w.reasons)
    ensures snapshot.referenceId == snapshot'.referenceId && snapshot.version == snapshot'.version
    ensures ProjectDecision(taskId, snapshot, a, v) == ProjectDecision(taskId', snapshot', b, w)
  {
    SortByMultiset(TextLeq, v.reasons);
    SortByMultiset(TextLeq, w.reasons);
  }
}
