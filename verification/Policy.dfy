/** Policy evaluation of a plan: baseline rules, aggregate rules and advice that may only tighten. */
module Policy {
  import opened Collections
  import opened PlanModel
  import opened PlanValidation

  datatype DecisionKind = Allow | Ask | Deny

  datatype RiskTier = R0 | R1 | R2 | R3 | R4

  function DecisionRank(d: DecisionKind): nat {
    match d case Allow => 0 case Ask => 1 case Deny => 2
  }

  function RiskRank(r: RiskTier): nat {
    match r case R0 => 0 case R1 => 1 case R2 => 2 case R3 => 3 case R4 => 4
  }

  function MaxDecision(a: DecisionKind, b: DecisionKind): DecisionKind {
    if DecisionRank(b) > DecisionRank(a) then b else a
  }

  function MaxRisk(a: RiskTier, b: RiskTier): RiskTier {
    if RiskRank(b) > RiskRank(a) then b else a
  }

  // ---- the trusted snapshot -----------------------------------------------------------------------

  datatype ActionRule = ActionRule(
    ruleId: string, capabilityId: string, capabilityVersion: string,
    decision: DecisionKind, risk: RiskTier, reason: string, grant: Option<string>)

  predicate RuleValid(r: ActionRule) {
    && (r.risk.R4? ==> r.decision.Deny?)
    && (r.risk.R3? ==> !r.decision.Allow? && r.grant.None?)
    && (r.risk.R2? && r.decision.Allow? ==> r.grant.Some?)
    && (!r.decision.Allow? ==> r.grant.None?)
  }

  datatype AggregateRule = AggregateRule(
    ruleId: string, capabilityIds: seq<string>, minimumMatches: nat,
    decision: DecisionKind, risk: RiskTier, reason: string)

  predicate AggregateValid(r: AggregateRule) {
    && 1 <= |r.capabilityIds| <= 16 && Distinct(r.capabilityIds) && 2 <= r.minimumMatches <= 8
    && !r.decision.Allow? && !r.risk.R0? && !r.risk.R1?
    && (r.risk.R4? ==> r.decision.Deny?)
  }

  /** The defaults are fixed: deny at risk R4. */
  datatype Snapshot = Snapshot(referenceId: string, version: string, rules: seq<ActionRule>, aggregates: seq<AggregateRule>)

  predicate SnapshotValid(s: Snapshot) {
    && |s.rules| <= 64 && |s.aggregates| <= 16
    && (forall i :: 0 <= i < |s.rules| ==> RuleValid(s.rules[i]))
    && (forall i :: 0 <= i < |s.aggregates| ==> AggregateValid(s.aggregates[i]))
    && KeysDistinct(s.rules) && Distinct(RuleIds(s))
  }

  predicate KeysDistinct(rules: seq<ActionRule>) {
    forall i, j :: 0 <= i < j < |rules| ==>
      (rules[i].capabilityId, rules[i].capabilityVersion) != (rules[j].capabilityId, rules[j].capabilityVersion)
  }

  /** The identifiers of both kinds of rules, unique together. */
  function RuleIds(s: Snapshot): seq<string> {
    seq(|s.rules|, i requires 0 <= i < |s.rules| => s.rules[i].ruleId)
    + seq(|s.aggregates|, i requires 0 <= i < |s.aggregates| => s.aggregates[i].ruleId)
  }

  datatype Recommendation = Recommendation(actionId: Option<Id>, decision: DecisionKind, risk: RiskTier, reason: string)

  type Assessment = seq<Recommendation>

  // ---- one verdict ----------------------------------------------------------------------------------

  datatype Verdict = Verdict(decision: DecisionKind, risk: RiskTier, reasons: seq<string>, grant: Option<string>)

  datatype Tightening = Tightening(decision: DecisionKind, risk: RiskTier, reason: string)

  function SafetyFloor(decision: DecisionKind, risk: RiskTier, grant: Option<string>): DecisionKind {
    if risk.R4? then Deny
    else if risk.R3? && decision.Allow? then Ask
    else if risk.R2? && decision.Allow? && grant.None? then Ask
    else decision
  }

  /** The least decision a risk tier admits under a grant. */
  function FloorOf(risk: RiskTier, grant: Option<string>): DecisionKind {
    if risk.R4? then Deny
    else if risk.R3? then Ask
    else if risk.R2? && grant.None? then Ask
    else Allow
  }

  function Tightened(v: Verdict, t: Tightening): Verdict {
    var risk := if RiskRank(t.risk) > RiskRank(v.risk) then t.risk else v.risk;
    var raised := DecisionRank(t.decision) > DecisionRank(v.decision);
    var grant := if raised then None else v.grant;
    var decision := SafetyFloor(if raised then t.decision else v.decision, risk, grant);
    Verdict(decision, risk,
            if t.reason in v.reasons then v.reasons else v.reasons + [t.reason],
            if decision.Allow? then grant else None)
  }

  /** Advice at or below the current verdict is passed over. */
  function Advised(v: Verdict, t: Tightening): Verdict {
    if DecisionRank(t.decision) <= DecisionRank(v.decision) && RiskRank(t.risk) <= RiskRank(v.risk) then v
    else Tightened(v, t)
  }

  function TightenAll(v: Verdict, ts: seq<Tightening>): Verdict {
    if ts == [] then v else Tightened(TightenAll(v, ts[..|ts| - 1]), ts[|ts| - 1])
  }

  function AdviseAll(v: Verdict, ts: seq<Tightening>): Verdict {
    if ts == [] then v else Advised(AdviseAll(v, ts[..|ts| - 1]), ts[|ts| - 1])
  }

  // ---- closed form ------------------------------------------------------------------------------------

  function HighestRisk(base: RiskTier, ts: seq<Tightening>): RiskTier {
    if ts == [] then base else MaxRisk(HighestRisk(base, ts[..|ts| - 1]), ts[|ts| - 1].risk)
  }

  function StrictestDecision(base: DecisionKind, ts: seq<Tightening>): DecisionKind {
    if ts == [] then base else MaxDecision(StrictestDecision(base, ts[..|ts| - 1]), ts[|ts| - 1].decision)
  }

  /** A verdict that already respects its own safety floor and keeps a grant only while allowing. */
  predicate Settled(v: Verdict) {
    && DecisionRank(FloorOf(v.risk, v.grant)) <= DecisionRank(v.decision)
    && (!v.decision.Allow? ==> v.grant.None?)
  }

  /** v is what base becomes under ts: the highest risk, the strictest decision including the floor
      of that risk under the base grant, and the base grant exactly while the decision allows. */
  predicate ClosedForm(base: Verdict, ts: seq<Tightening>, v: Verdict) {
    && v.risk == HighestRisk(base.risk, ts)
    && v.decision == MaxDecision(StrictestDecision(base.decision, ts), FloorOf(HighestRisk(base.risk, ts), base.grant))
    && v.grant == if v.decision.Allow? then base.grant else None
  }

  lemma TightenedClosed(base: Verdict, ts: seq<Tightening>, v: Verdict, t: Tightening)
    requires Settled(base) && ClosedForm(base, ts, v) && Settled(v)
    ensures ClosedForm(base, ts + [t], Tightened(v, t)) && Settled(Tightened(v, t))
  {
    assert (ts + [t])[..|ts|] == ts;
  }

  lemma AdvisedClosed(base: Verdict, ts: seq<Tightening>, v: Verdict, t: Tightening)
    requires Settled(base) && ClosedForm(base, ts, v) && Settled(v)
    ensures ClosedForm(base, ts + [t], Advised(v, t)) && Settled(Advised(v, t))
  {
    TightenedClosed(base, ts, v, t);
    assert (ts + [t])[..|ts|] == ts;
  }

  lemma {:induction false} TightenAllClosed(base: Verdict, ts: seq<Tightening>)
    requires Settled(base)
    ensures ClosedForm(base, ts, TightenAll(base, ts)) && Settled(TightenAll(base, ts))
  {
    if ts != [] {
      var n := |ts| - 1;
      TightenAllClosed(base, ts[..n]);
      TightenedClosed(base, ts[..n], TightenAll(base, ts[..n]), ts[n]);
      assert ts[..n] + [ts[n]] == ts;
    }
  }

  /** Passing over advice changes nothing but the reasons that are recorded. */
  lemma {:induction false} AdviseAllClosed(base: Verdict, first: seq<Tightening>, ts: seq<Tightening>)
    requires Settled(base)
    ensures ClosedForm(base, first + ts, AdviseAll(TightenAll(base, first), ts))
    ensures Settled(AdviseAll(TightenAll(base, first), ts))
  {
    if ts == [] {
      assert first + ts == first;
      TightenAllClosed(base, first);
    } else {
      var n := |ts| - 1;
      AdviseAllClosed(base, first, ts[..n]);
      AdvisedClosed(base, first + ts[..n], AdviseAll(TightenAll(base, first), ts[..n]), ts[n]);
      assert first + ts == (first + ts[..n]) + [ts[n]];
    }
  }

  /** The maxima of the closed form are bounds that some entry attains, so only the entries matter. */
  lemma {:induction false} HighestRiskBounds(base: RiskTier, ts: seq<Tightening>)
    ensures RiskRank(base) <= RiskRank(HighestRisk(base, ts))
    ensures forall i :: 0 <= i < |ts| ==> RiskRank(ts[i].risk) <= RiskRank(HighestRisk(base, ts))
    ensures HighestRisk(base, ts) == base || exists i :: 0 <= i < |ts| && ts[i].risk == HighestRisk(base, ts)
  {
    if ts != [] {
      HighestRiskBounds(base, ts[..|ts| - 1]);
    }
  }

  lemma {:induction false} StrictestDecisionBounds(base: DecisionKind, ts: seq<Tightening>)
    ensures DecisionRank(base) <= DecisionRank(StrictestDecision(base, ts))
    ensures forall i :: 0 <= i < |ts| ==> DecisionRank(ts[i].decision) <= DecisionRank(StrictestDecision(base, ts))
    ensures StrictestDecision(base, ts) == base || exists i :: 0 <= i < |ts| && ts[i].decision == StrictestDecision(base, ts)
  {
    if ts != [] {
      StrictestDecisionBounds(base, ts[..|ts| - 1]);
    }
  }

  /** More tightenings, in any order, never give a lower risk or a looser decision. */
  lemma MoreIsTighter(base: Verdict, ts: seq<Tightening>, ts': seq<Tightening>, v: Verdict, v': Verdict)
    requires ClosedForm(base, ts, v) && ClosedForm(base, ts', v')
    requires forall i :: 0 <= i < |ts| ==> ts[i] in ts'
    ensures RiskRank(v.risk) <= RiskRank(v'.risk) && DecisionRank(v.decision) <= DecisionRank(v'.decision)
  {
    HighestRiskBounds(base.risk, ts);
    HighestRiskBounds(base.risk, ts');
    StrictestDecisionBounds(base.decision, ts);
    StrictestDecisionBounds(base.decision, ts');
  }

  /** Two closed forms over the same tightenings agree. */
  lemma SameTightenings(base: Verdict, ts: seq<Tightening>, ts': seq<Tightening>, v: Verdict, v': Verdict)
    requires ClosedForm(base, ts, v) && ClosedForm(base, ts', v')
    requires multiset(ts) == multiset(ts')
    ensures v.risk == v'.risk && v.decision == v'.decision && v.grant == v'.grant
  {
    forall i | 0 <= i < |ts| ensures ts[i] in ts' { assert ts[i] in multiset(ts'); }
    forall i | 0 <= i < |ts'| ensures ts'[i] in ts { assert ts'[i] in multiset(ts); }
    MoreIsTighter(base, ts, ts', v, v');
    MoreIsTighter(base, ts', ts, v', v);
  }

  // ---- reasons ----------------------------------------------------------------------------------------

  /** Reasons stay distinct, never empty, and grow by at most one per tightening. */
  lemma {:induction false} TightenAllReasons(base: Verdict, ts: seq<Tightening>)
    requires Distinct(base.reasons)
    ensures Distinct(TightenAll(base, ts).reasons)
    ensures |base.reasons| <= |TightenAll(base, ts).reasons| <= |base.reasons| + |ts|
  {
    if ts != [] {
      TightenAllReasons(base, ts[..|ts| - 1]);
    }
  }

  lemma {:induction false} AdviseAllReasons(base: Verdict, ts: seq<Tightening>)
    requires Distinct(base.reasons)
    ensures Distinct(AdviseAll(base, ts).reasons)
    ensures |base.reasons| <= |AdviseAll(base, ts).reasons| <= |base.reasons| + |ts|
  {
    if ts != [] {
      AdviseAllReasons(base, ts[..|ts| - 1]);
    }
  }

  // ---- sorting of rules and advice ----------------------------------------------------------------------

  /** Stable insertion sort under a comparison, as sorted(key=...) does. */
  function InsertBy<T>(leq: (T, T) -> bool, s: seq<T>, x: T): seq<T> {
    if s == [] || leq(s[|s| - 1], x) then s + [x] else InsertBy(leq, s[..|s| - 1], x) + [s[|s| - 1]]
  }

  function SortBy<T>(leq: (T, T) -> bool, s: seq<T>): seq<T> {
    if s == [] then [] else InsertBy(leq, SortBy(leq, s[..|s| - 1]), s[|s| - 1])
  }

  lemma {:induction false} InsertByMultiset<T>(leq: (T, T) -> bool, s: seq<T>, x: T)
    ensures multiset(InsertBy(leq, s, x)) == multiset(s) + multiset{x}
  {
    if s != [] {
      InsertByMultiset(leq, s[..|s| - 1], x);
      assert s == s[..|s| - 1] + [s[|s| - 1]];
    }
  }

  lemma {:induction false} SortByMultiset<T>(leq: (T, T) -> bool, s: seq<T>)
    ensures multiset(SortBy(leq, s)) == multiset(s) && |SortBy(leq, s)| == |s|
  {
    if s != [] {
      SortByMultiset(leq, s[..|s| - 1]);
      InsertByMultiset(leq, SortBy(leq, s[..|s| - 1]), s[|s| - 1]);
      assert s == s[..|s| - 1] + [s[|s| - 1]];
    }
    assert |multiset(SortBy(leq, s))| == |SortBy(leq, s)| && |multiset(s)| == |s|;
  }

  /** A comparison that is total and transitive, as Python's on texts and tuples is. */
  ghost predicate Compares<T(!new)>(leq: (T, T) -> bool) {
    && (forall x, y :: leq(x, y) || leq(y, x))
    && (forall x, y, z :: leq(x, y) && leq(y, z) ==> leq(x, z))
  }

  predicate SortedBy<T>(leq: (T, T) -> bool, s: seq<T>) {
    forall i, j :: 0 <= i < j < |s| ==> leq(s[i], s[j])
  }

  lemma {:induction false} InsertBySorted<T(!new)>(leq: (T, T) -> bool, s: seq<T>, x: T)
    requires Compares(leq) && SortedBy(leq, s)
    ensures SortedBy(leq, InsertBy(leq, s, x))
  {
    if s != [] && !leq(s[|s| - 1], x) {
      var init, last := s[..|s| - 1], s[|s| - 1];
      InsertBySorted(leq, init, x);
      InsertByMultiset(leq, init, x);
      var rest := InsertBy(leq, init, x);
      forall i | 0 <= i < |rest| ensures leq(rest[i], last) {
        assert rest[i] in multiset(init) + multiset{x};
      }
    } else {
      forall i | 0 <= i < |s| ensures leq(s[i], x) {
        assert i == |s| - 1 || leq(s[i], s[|s| - 1]);
      }
    }
  }

  lemma {:induction false} SortBySorted<T(!new)>(leq: (T, T) -> bool, s: seq<T>)
    requires Compares(leq)
    ensures SortedBy(leq, SortBy(leq, s))
  {
    if s != [] {
      SortBySorted(leq, s[..|s| - 1]);
      InsertBySorted(leq, SortBy(leq, s[..|s| - 1]), s[|s| - 1]);
    }
  }

  /** The comparison tells the elements of s apart. */
  ghost predicate Separates<T(!new)>(leq: (T, T) -> bool, s: seq<T>) {
    forall i, j :: 0 <= i < |s| && 0 <= j < |s| && leq(s[i], s[j]) && leq(s[j], s[i]) ==> s[i] == s[j]
  }

  /** Two sorted lists of the same elements are equal when the comparison tells the elements apart. */
  lemma {:induction false} SortedOnce<T(!new)>(leq: (T, T) -> bool, a: seq<T>, b: seq<T>)
    requires SortedBy(leq, a) && SortedBy(leq, b) && multiset(a) == multiset(b) && Separates(leq, a)
    ensures a == b
  {
    SameLength(a, b);
    if a != [] {
      SameLast(leq, a, b);
      InitOf(a);
      InitOf(b);
      InitSorted(leq, a);
      InitSorted(leq, b);
      SortedOnce(leq, a[..|a| - 1], b[..|b| - 1]);
    }
  }

  lemma SameLength<T>(a: seq<T>, b: seq<T>)
    requires multiset(a) == multiset(b)
    ensures |a| == |b|
  {
    assert |multiset(a)| == |a| && |multiset(b)| == |b|;
  }

  lemma InitSorted<T(!new)>(leq: (T, T) -> bool, s: seq<T>)
    requires SortedBy(leq, s) && s != []
    ensures SortedBy(leq, s[..|s| - 1]) && (Separates(leq, s) ==> Separates(leq, s[..|s| - 1]))
  {
  }

  lemma InitOf<T>(s: seq<T>)
    requires s != []
    ensures s == s[..|s| - 1] + [s[|s| - 1]] && multiset(s[..|s| - 1]) == multiset(s) - multiset{s[|s| - 1]}
  {
    assert s == s[..|s| - 1] + [s[|s| - 1]];
  }

  lemma SameLast<T(!new)>(leq: (T, T) -> bool, a: seq<T>, b: seq<T>)
    requires SortedBy(leq, a) && SortedBy(leq, b) && multiset(a) == multiset(b) && a != [] && b != [] && Separates(leq, a)
    ensures a[|a| - 1] == b[|b| - 1]
  {
    var x, y := a[|a| - 1], b[|b| - 1];
    assert x in multiset(b) && y in multiset(a);
    var i :| 0 <= i < |b| && b[i] == x;
    var j :| 0 <= j < |a| && a[j] == y;
    assert i == |b| - 1 || leq(x, y);
    assert j == |a| - 1 || leq(y, x);
    assert a[j] == y && a[|a| - 1] == x;
  }

  lemma SeparatesPermuted<T(!new)>(leq: (T, T) -> bool, a: seq<T>, b: seq<T>)
    requires multiset(a) == multiset(b) && Separates(leq, a)
    ensures Separates(leq, b)
  {
    forall i, j | 0 <= i < |b| && 0 <= j < |b| && leq(b[i], b[j]) && leq(b[j], b[i]) ensures b[i] == b[j] {
      assert b[i] in multiset(a) && b[j] in multiset(a);
      var k :| 0 <= k < |a| && a[k] == b[i];
      var l :| 0 <= l < |a| && a[l] == b[j];
      assert leq(a[k], a[l]);
    }
  }

  /** Sorting forgets the order of its input when the comparison tells the elements apart. */
  lemma SortForgetsOrder<T(!new)>(leq: (T, T) -> bool, a: seq<T>, b: seq<T>)
    requires Compares(leq) && multiset(a) == multiset(b) && Separates(leq, a)
    ensures SortBy(leq, a) == SortBy(leq, b)
  {
    SortBySorted(leq, a);
    SortBySorted(leq, b);
    SortByMultiset(leq, a);
    SortByMultiset(leq, b);
    SeparatesPermuted(leq, a, SortBy(leq, a));
    SortedOnce(leq, SortBy(leq, a), SortBy(leq, b));
  }

  /** Text compares character by character. */
  predicate TextLeq(a: string, b: string) {
    a == "" || (b != "" && (a[0] < b[0] || (a[0] == b[0] && TextLeq(a[1..], b[1..]))))
  }

  lemma {:induction false} TextTotal(a: string, b: string)
    ensures TextLeq(a, b) || TextLeq(b, a)
    ensures TextLeq(a, b) && TextLeq(b, a) ==> a == b
  {
    if a != "" && b != "" {
      TextTotal(a[1..], b[1..]);
      assert a == [a[0]] + a[1..] && b == [b[0]] + b[1..];
    }
  }

  lemma {:induction false} TextTransitive(a: string, b: string, c: string)
    requires TextLeq(a, b) && TextLeq(b, c)
    ensures TextLeq(a, c)
  {
    if a != "" && a[0] == b[0] == c[0] { TextTransitive(a[1..], b[1..], c[1..]); }
  }

  /** The order of code points: a text precedes its extensions, and otherwise the first difference decides. */
  lemma {:induction false} TextOrder(a: string, b: string)
    ensures TextLeq(a, b) <==> a <= b || exists k :: 0 <= k < |a| && k < |b| && a[..k] == b[..k] && a[k] < b[k]
  {
    if a != "" && b != "" && a[0] == b[0] {
      TextOrder(a[1..], b[1..]);
      assert a == [a[0]] + a[1..] && b == [b[0]] + b[1..];
      if k :| 0 <= k < |a| - 1 && k < |b| - 1 && a[1..][..k] == b[1..][..k] && a[1..][k] < b[1..][k] {
        DifferenceAfter(a, b, k);
      }
      if k :| 0 <= k < |a| && k < |b| && a[..k] == b[..k] && a[k] < b[k] {
        DifferenceBefore(a, b, k);
      }
    } else if a != "" && b != "" && a[0] < b[0] {
      assert a[..0] == b[..0];
    } else if k :| 0 < k < |a| && k < |b| && a[..k] == b[..k] && a[k] < b[k] {
      SameStart(a, b, k);
    }
  }

  lemma SameStart(a: string, b: string, k: nat)
    requires 0 < k <= |a| && k <= |b| && a[..k] == b[..k]
    ensures a[0] == b[0]
  {
    assert a[..k][0] == b[..k][0];
  }

  lemma DifferenceAfter(a: string, b: string, k: nat)
    requires a != "" && b != "" && a[0] == b[0] && k < |a| - 1 && k < |b| - 1 && a[1..][..k] == b[1..][..k]
    ensures a[..k + 1] == b[..k + 1] && a[k + 1] == a[1..][k] && b[k + 1] == b[1..][k]
  {
    assert a[..k + 1] == [a[0]] + a[1..][..k] && b[..k + 1] == [b[0]] + b[1..][..k];
  }

  lemma DifferenceBefore(a: string, b: string, k: nat)
    requires a != "" && b != "" && a[0] == b[0] && k < |a| && k < |b| && a[..k] == b[..k] && a[k] < b[k]
    ensures 0 < k && k - 1 < |a[1..]| && k - 1 < |b[1..]|
    ensures a[1..][..k - 1] == b[1..][..k - 1] && a[1..][k - 1] < b[1..][k - 1]
  {
    assert a[1..][..k - 1] == a[..k][1..] && b[1..][..k - 1] == b[..k][1..];
  }

  predicate AggregateLeq(a: AggregateRule, b: AggregateRule) {
    TextLeq(a.ruleId, b.ruleId)
  }

  predicate TargetLess(a: Option<Id>, b: Option<Id>) {
    b.Some? && (a.None? || a.value < b.value)
  }

  /** By target, then reason, decision and risk; "allow", "ask", "deny" sort as their ranks do. */
  predicate AdviceLeq(a: Recommendation, b: Recommendation) {
    TargetLess(a.actionId, b.actionId)
    || (a.actionId == b.actionId
        && (if a.reason != b.reason then TextLeq(a.reason, b.reason)
            else if a.decision != b.decision then DecisionRank(a.decision) < DecisionRank(b.decision)
            else RiskRank(a.risk) <= RiskRank(b.risk)))
  }

  lemma AggregateCompares()
    ensures Compares(AggregateLeq)
  {
    forall x: AggregateRule, y: AggregateRule ensures AggregateLeq(x, y) || AggregateLeq(y, x) {
      TextTotal(x.ruleId, y.ruleId);
    }
    forall x: AggregateRule, y: AggregateRule, z: AggregateRule | AggregateLeq(x, y) && AggregateLeq(y, z) ensures AggregateLeq(x, z) {
      TextTransitive(x.ruleId, y.ruleId, z.ruleId);
    }
  }

  lemma AdviceTotal(x: Recommendation, y: Recommendation)
    ensures AdviceLeq(x, y) || AdviceLeq(y, x)
    ensures AdviceLeq(x, y) && AdviceLeq(y, x) ==> x == y
  {
    TextTotal(x.reason, y.reason);
  }

  lemma AdviceTransitive(x: Recommendation, y: Recommendation, z: Recommendation)
    requires AdviceLeq(x, y) && AdviceLeq(y, z)
    ensures AdviceLeq(x, z)
  {
    TextTotal(x.reason, y.reason);
    TextTotal(y.reason, z.reason);
    if TextLeq(x.reason, y.reason) && TextLeq(y.reason, z.reason) { TextTransitive(x.reason, y.reason, z.reason); }
    TextTotal(x.reason, z.reason);
  }

  lemma AdviceCompares()
    ensures Compares(AdviceLeq)
    ensures forall x, y :: AdviceLeq(x, y) && AdviceLeq(y, x) ==> x == y
  {
    forall x: Recommendation, y: Recommendation
      ensures AdviceLeq(x, y) || AdviceLeq(y, x)
      ensures AdviceLeq(x, y) && AdviceLeq(y, x) ==> x == y
    {
      AdviceTotal(x, y);
    }
    forall x: Recommendation, y: Recommendation, z: Recommendation | AdviceLeq(x, y) && AdviceLeq(y, z) ensures AdviceLeq(x, z) {
      AdviceTransitive(x, y, z);
    }
  }

  // ---- the evaluation on values ---------------------------------------------------------------------------

  function FindRule(rules: seq<ActionRule>, capabilityId: string, version: string): (r: Option<ActionRule>)
    ensures r.Some? ==> r.value in rules && r.value.capabilityId == capabilityId && r.value.capabilityVersion == version
    ensures r.None? ==> forall i :: 0 <= i < |rules| ==> !(rules[i].capabilityId == capabilityId && rules[i].capabilityVersion == version)
  {
    if rules == [] then None
    else if rules[|rules| - 1].capabilityId == capabilityId && rules[|rules| - 1].capabilityVersion == version
    then Some(rules[|rules| - 1])
    else FindRule(rules[..|rules| - 1], capabilityId, version)
  }

  function Baseline(snapshot: Snapshot, action: PlanAction): Verdict {
    var rule := FindRule(snapshot.rules, action.capabilityId, action.capabilityVersion);
    if rule.None? then Verdict(Deny, R4, ["policy_default_deny"], None)
    else Verdict(rule.value.decision, rule.value.risk, [rule.value.reason], rule.value.grant)
  }

  function MatchCount(rule: AggregateRule, actions: seq<PlanAction>): nat {
    if actions == [] then 0
    else MatchCount(rule, actions[..|actions| - 1])
         + if actions[|actions| - 1].capabilityId in rule.capabilityIds then 1 else 0
  }

  /** What the aggregate rules, in the given order, hold against one action of the plan. */
  function AggregateTightenings(rules: seq<AggregateRule>, actions: seq<PlanAction>, action: PlanAction): seq<Tightening> {
    if rules == [] then []
    else
      var rest := AggregateTightenings(rules[..|rules| - 1], actions, action);
      var rule := rules[|rules| - 1];
      if action.capabilityId in rule.capabilityIds && MatchCount(rule, actions) >= rule.minimumMatches
      then rest + [Tightening(rule.decision, rule.risk, rule.reason)] else rest
  }

  function AdviceTightenings(advice: seq<Recommendation>, action: PlanAction): seq<Tightening> {
    if advice == [] then []
    else
      var rest := AdviceTightenings(advice[..|advice| - 1], action);
      var r := advice[|advice| - 1];
      if r.actionId.None? || r.actionId.value == action.id then rest + [Tightening(r.decision, r.risk, r.reason)] else rest
  }

  function AfterAggregates(snapshot: Snapshot, actions: seq<PlanAction>, action: PlanAction): Verdict {
    TightenAll(Baseline(snapshot, action),
               AggregateTightenings(SortBy(AggregateLeq, snapshot.aggregates), actions, action))
  }

  function FinalVerdict(snapshot: Snapshot, advice: Assessment, actions: seq<PlanAction>, action: PlanAction): Verdict {
    AdviseAll(AfterAggregates(snapshot, actions, action), AdviceTightenings(SortBy(AdviceLeq, advice), action))
  }

  /** Everything that applies to an action, in the order the snapshot and the assessment list it. */
  function Applicable(snapshot: Snapshot, advice: Assessment, actions: seq<PlanAction>, action: PlanAction): seq<Tightening> {
    AggregateTightenings(snapshot.aggregates, actions, action) + AdviceTightenings(advice, action)
  }

  lemma BaselineSettled(snapshot: Snapshot, action: PlanAction)
    requires SnapshotValid(snapshot)
    ensures Settled(Baseline(snapshot, action))
  {
    var rule := FindRule(snapshot.rules, action.capabilityId, action.capabilityVersion);
    if rule.Some? {
      var i :| 0 <= i < |snapshot.rules| && snapshot.rules[i] == rule.value;
      assert RuleValid(snapshot.rules[i]);
    }
  }

  function AggregateHits(t: Tightening, actions: seq<PlanAction>, action: PlanAction): AggregateRule -> int {
    (rule: AggregateRule) =>
      if action.capabilityId in rule.capabilityIds && MatchCount(rule, actions) >= rule.minimumMatches
         && Tightening(rule.decision, rule.risk, rule.reason) == t then 1 else 0
  }

  lemma {:induction false} CountAggregates(rules: seq<AggregateRule>, actions: seq<PlanAction>, action: PlanAction, t: Tightening)
    ensures multiset(AggregateTightenings(rules, actions, action))[t] == Total(AggregateHits(t, actions, action), rules)
  {
    if rules != [] {
      CountAggregates(rules[..|rules| - 1], actions, action, t);
    }
  }

  function AdviceHits(t: Tightening, action: PlanAction): Recommendation -> int {
    (r: Recommendation) =>
      if (r.actionId.None? || r.actionId.value == action.id) && Tightening(r.decision, r.risk, r.reason) == t then 1 else 0
  }

  lemma {:induction false} CountAdvice(advice: seq<Recommendation>, action: PlanAction, t: Tightening)
    ensures multiset(AdviceTightenings(advice, action))[t] == Total(AdviceHits(t, action), advice)
  {
    if advice != [] {
      CountAdvice(advice[..|advice| - 1], action, t);
    }
  }

  /** Sorting rearranges what applies to an action and nothing else. */
  lemma SortedApplicable(snapshot: Snapshot, advice: Assessment, actions: seq<PlanAction>, action: PlanAction)
    ensures multiset(AggregateTightenings(SortBy(AggregateLeq, snapshot.aggregates), actions, action)
                     + AdviceTightenings(SortBy(AdviceLeq, advice), action))
         == multiset(Applicable(snapshot, advice, actions, action))
  {
    SortByMultiset(AggregateLeq, snapshot.aggregates);
    SortByMultiset(AdviceLeq, advice);
    forall t
      ensures multiset(AggregateTightenings(SortBy(AggregateLeq, snapshot.aggregates), actions, action))[t]
           == multiset(AggregateTightenings(snapshot.aggregates, actions, action))[t]
      ensures multiset(AdviceTightenings(SortBy(AdviceLeq, advice), action))[t] == multiset(AdviceTightenings(advice, action))[t]
    {
      CountAggregates(SortBy(AggregateLeq, snapshot.aggregates), actions, action, t);
      CountAggregates(snapshot.aggregates, actions, action, t);
      TotalPermutation(AggregateHits(t, actions, action), SortBy(AggregateLeq, snapshot.aggregates), snapshot.aggregates);
      CountAdvice(SortBy(AdviceLeq, advice), action, t);
      CountAdvice(advice, action, t);
      TotalPermutation(AdviceHits(t, action), SortBy(AdviceLeq, advice), advice);
    }
  }

  lemma ClosedFormPermuted(base: Verdict, ts: seq<Tightening>, ts': seq<Tightening>, v: Verdict)
    requires ClosedForm(base, ts, v) && multiset(ts) == multiset(ts')
    ensures ClosedForm(base, ts', v)
  {
    var risk := HighestRisk(base.risk, ts');
    var decision := MaxDecision(StrictestDecision(base.decision, ts'), FloorOf(risk, base.grant));
    var v' := Verdict(decision, risk, [], if decision.Allow? then base.grant else None);
    SameTightenings(base, ts, ts', v, v');
  }

  /** Main result: the final verdict is the closed form over everything that applies, whatever the
      order of rules and advice. */
  lemma FinalVerdictClosed(snapshot: Snapshot, advice: Assessment, actions: seq<PlanAction>, action: PlanAction)
    requires SnapshotValid(snapshot)
    ensures ClosedForm(Baseline(snapshot, action), Applicable(snapshot, advice, actions, action),
                       FinalVerdict(snapshot, advice, actions, action))
    ensures Settled(FinalVerdict(snapshot, advice, actions, action))
  {
    BaselineSettled(snapshot, action);
    var first := AggregateTightenings(SortBy(AggregateLeq, snapshot.aggregates), actions, action);
    var second := AdviceTightenings(SortBy(AdviceLeq, advice), action);
    AdviseAllClosed(Baseline(snapshot, action), first, second);
    SortedApplicable(snapshot, advice, actions, action);
    ClosedFormPermuted(Baseline(snapshot, action), first + second, Applicable(snapshot, advice, actions, action),
                       FinalVerdict(snapshot, advice, actions, action));
  }

  /** Policy and advice never loosen the baseline rule of an action. */
  lemma NeverLooserThanBaseline(snapshot: Snapshot, advice: Assessment, actions: seq<PlanAction>, action: PlanAction)
    requires SnapshotValid(snapshot)
    ensures DecisionRank(Baseline(snapshot, action).decision) <= DecisionRank(FinalVerdict(snapshot, advice, actions, action).decision)
    ensures RiskRank(Baseline(snapshot, action).risk) <= RiskRank(FinalVerdict(snapshot, advice, actions, action).risk)
  {
    FinalVerdictClosed(snapshot, advice, actions, action);
    HighestRiskBounds(Baseline(snapshot, action).risk, Applicable(snapshot, advice, actions, action));
    StrictestDecisionBounds(Baseline(snapshot, action).decision, Applicable(snapshot, advice, actions, action));
  }

  function Matches(rule: AggregateRule): PlanAction -> int {
    (a: PlanAction) => if a.capabilityId in rule.capabilityIds then 1 else 0
  }

  lemma {:induction false} MatchCountIsTotal(rule: AggregateRule, actions: seq<PlanAction>)
    ensures MatchCount(rule, actions) == Total(Matches(rule), actions)
  {
    if actions != [] { MatchCountIsTotal(rule, actions[..|actions| - 1]); }
  }

  lemma MatchCountMonotone(rule: AggregateRule, actions: seq<PlanAction>, larger: seq<PlanAction>)
    requires multiset(actions) <= multiset(larger)
    ensures MatchCount(rule, actions) <= MatchCount(rule, larger)
  {
    MatchCountIsTotal(rule, actions);
    MatchCountIsTotal(rule, larger);
    TotalMonotone(Matches(rule), actions, larger);
  }

  lemma {:induction false} AggregatesMonotone(rules: seq<AggregateRule>, actions: seq<PlanAction>, larger: seq<PlanAction>, action: PlanAction)
    requires multiset(actions) <= multiset(larger)
    ensures forall i :: 0 <= i < |AggregateTightenings(rules, actions, action)| ==>
              AggregateTightenings(rules, actions, action)[i] in AggregateTightenings(rules, larger, action)
  {
    if rules != [] {
      AggregatesMonotone(rules[..|rules| - 1], actions, larger, action);
      MatchCountMonotone(rules[|rules| - 1], actions, larger);
    }
  }

  /** A plan with more actions, added anywhere, never loosens the verdict on an action. */
  lemma MoreActionsTighten(snapshot: Snapshot, advice: Assessment, actions: seq<PlanAction>, larger: seq<PlanAction>, action: PlanAction)
    requires SnapshotValid(snapshot) && multiset(actions) <= multiset(larger)
    ensures DecisionRank(FinalVerdict(snapshot, advice, actions, action).decision)
         <= DecisionRank(FinalVerdict(snapshot, advice, larger, action).decision)
    ensures RiskRank(FinalVerdict(snapshot, advice, actions, action).risk)
         <= RiskRank(FinalVerdict(snapshot, advice, larger, action).risk)
  {
    FinalVerdictClosed(snapshot, advice, actions, action);
    FinalVerdictClosed(snapshot, advice, larger, action);
    AggregatesMonotone(snapshot.aggregates, actions, larger, action);
    MoreIsTighter(Baseline(snapshot, action),
                  Applicable(snapshot, advice, actions, action), Applicable(snapshot, advice, larger, action),
                  FinalVerdict(snapshot, advice, actions, action), FinalVerdict(snapshot, advice, larger, action));
  }

  lemma {:induction false} SameMatches(rules: seq<AggregateRule>, actions: seq<PlanAction>, shuffled: seq<PlanAction>, action: PlanAction)
    requires multiset(actions) == multiset(shuffled)
    ensures AggregateTightenings(rules, actions, action) == AggregateTightenings(rules, shuffled, action)
  {
    if rules != [] {
      SameMatches(rules[..|rules| - 1], actions, shuffled, action);
      MatchCountMonotone(rules[|rules| - 1], actions, shuffled);
      MatchCountMonotone(rules[|rules| - 1], shuffled, actions);
    }
  }

  lemma SameRule(rules: seq<ActionRule>, shuffled: seq<ActionRule>, capabilityId: string, version: string)
    requires KeysDistinct(rules) && multiset(rules) == multiset(shuffled)
    ensures FindRule(rules, capabilityId, version) == FindRule(shuffled, capabilityId, version)
  {
    var r, r' := FindRule(rules, capabilityId, version), FindRule(shuffled, capabilityId, version);
    if r.Some? {
      assert r.value in multiset(shuffled);
      var k :| 0 <= k < |shuffled| && shuffled[k] == r.value;
    }
    if r'.Some? {
      assert r'.value in multiset(rules);
      var k :| 0 <= k < |rules| && rules[k] == r'.value;
      var i :| 0 <= i < |rules| && rules[i] == r.value;
    }
  }

  /** The snapshot lists its rules in another order. */
  predicate Reordered(s: Snapshot, t: Snapshot) {
    s.referenceId == t.referenceId && s.version == t.version
    && multiset(s.rules) == multiset(t.rules) && multiset(s.aggregates) == multiset(t.aggregates)
  }

  lemma AggregateIdsDiffer(s: Snapshot, i: nat, j: nat)
    requires Distinct(RuleIds(s)) && i < |s.aggregates| && j < |s.aggregates| && s.aggregates[i].ruleId == s.aggregates[j].ruleId
    ensures i == j
  {
    var ids, n := RuleIds(s), |s.rules|;
    assert ids[n + i] == s.aggregates[i].ruleId && ids[n + j] == s.aggregates[j].ruleId;
  }

  lemma SortedAggregatesAgree(a: seq<AggregateRule>, b: seq<AggregateRule>)
    requires multiset(a) == multiset(b)
    requires forall i, j :: 0 <= i < |a| && 0 <= j < |a| && a[i].ruleId == a[j].ruleId ==> i == j
    ensures SortBy(AggregateLeq, a) == SortBy(AggregateLeq, b)
  {
    AggregateCompares();
    forall x, y | x in a && y in a && AggregateLeq(x, y) && AggregateLeq(y, x) ensures x == y {
      TextTotal(x.ruleId, y.ruleId);
      var i :| 0 <= i < |a| && a[i] == x;
      var j :| 0 <= j < |a| && a[j] == y;
    }
    SortForgetsOrder(AggregateLeq, a, b);
  }

  /** Verdicts, with their reasons, do not depend on the order of rules, advice or actions. */
  lemma OrderFree(snapshot: Snapshot, shuffled: Snapshot, advice: Assessment, advice': Assessment,
                  actions: seq<PlanAction>, actions': seq<PlanAction>, action: PlanAction)
    requires SnapshotValid(snapshot) && Reordered(snapshot, shuffled)
    requires multiset(advice) == multiset(advice') && multiset(actions) == multiset(actions')
    ensures FinalVerdict(snapshot, advice, actions, action) == FinalVerdict(shuffled, advice', actions', action)
  {
    SameRule(snapshot.rules, shuffled.rules, action.capabilityId, action.capabilityVersion);
    forall i, j | 0 <= i < |snapshot.aggregates| && 0 <= j < |snapshot.aggregates|
                  && snapshot.aggregates[i].ruleId == snapshot.aggregates[j].ruleId
      ensures i == j
    {
      AggregateIdsDiffer(snapshot, i, j);
    }
    SortedAggregatesAgree(snapshot.aggregates, shuffled.aggregates);
    SameMatches(SortBy(AggregateLeq, snapshot.aggregates), actions, actions', action);
    AdviceCompares();
    SortForgetsOrder(AdviceLeq, advice, advice');
  }

  // ---- projection -------------------------------------------------------------------------------------------

  /** The text that is hashed to a decision id. */
  datatype DecisionKey = DecisionKey(
    taskId: string, actionId: Id, decision: DecisionKind, risk: RiskTier, reasons: seq<string>,
    referenceId: string, version: string, grant: Option<string>)

  datatype PolicyDecision = PolicyDecision(
    decisionId: DecisionKey, actionId: Id, decision: DecisionKind, risk: RiskTier, reasons: seq<string>,
    referenceId: string, version: string, grant: Option<string>, freshApproval: bool)

  function ProjectDecision(taskId: string, snapshot: Snapshot, action: PlanAction, v: Verdict): PolicyDecision {
    var reasons := SortBy(TextLeq, v.reasons);
    PolicyDecision(DecisionKey(taskId, action.id, v.decision, v.risk, reasons, snapshot.referenceId, snapshot.version, v.grant),
                   action.id, v.decision, v.risk, reasons, snapshot.referenceId, snapshot.version, v.grant, v.decision.Ask?)
  }

  /** The projected final verdict of every action, in plan order. */
  function Decide(taskId: string, snapshot: Snapshot, advice: Assessment, actions: seq<PlanAction>): seq<PolicyDecision> {
    seq(|actions|, i requires 0 <= i < |actions| =>
      ProjectDecision(taskId, snapshot, actions[i], FinalVerdict(snapshot, advice, actions, actions[i])))
  }

  /** The relational validator of a projected decision. */
  predicate DecisionContract(d: PolicyDecision) {
    && 1 <= |d.reasons| <= 40 && Distinct(d.reasons)
    && (d.freshApproval <==> d.decision.Ask?)
    && (!d.decision.Allow? ==> d.grant.None?)
    && (d.risk.R2? && d.decision.Allow? ==> d.grant.Some?)
    && (d.risk.R3? ==> !d.decision.Allow?)
    && (d.risk.R4? ==> d.decision.Deny?)
  }

  lemma {:induction false} FewTightenings(rules: seq<AggregateRule>, advice: seq<Recommendation>, actions: seq<PlanAction>, action: PlanAction)
    ensures |AggregateTightenings(rules, actions, action)| <= |rules|
    ensures |AdviceTightenings(advice, action)| <= |advice|
    decreases |rules| + |advice|
  {
    if rules != [] {
      FewTightenings(rules[..|rules| - 1], advice, actions, action);
    } else if advice != [] {
      FewTightenings(rules, advice[..|advice| - 1], actions, action);
    }
  }

  lemma SortedReasons(reasons: seq<string>)
    requires Distinct(reasons)
    ensures Distinct(SortBy(TextLeq, reasons)) && |SortBy(TextLeq, reasons)| == |reasons|
  {
    SortByMultiset(TextLeq, reasons);
    DistinctPermutation(reasons, SortBy(TextLeq, reasons));
  }

  /** Projection never fails: with a valid snapshot and at most 16 pieces of advice every projected
      decision meets its contract, with between 1 and 33 distinct reasons. */
  lemma ProjectionNeverFails(taskId: string, snapshot: Snapshot, advice: Assessment, actions: seq<PlanAction>, action: PlanAction)
    requires SnapshotValid(snapshot) && |advice| <= 16
    ensures DecisionContract(ProjectDecision(taskId, snapshot, action, FinalVerdict(snapshot, advice, actions, action)))
    ensures |FinalVerdict(snapshot, advice, actions, action).reasons| <= 33
  {
    var first := AggregateTightenings(SortBy(AggregateLeq, snapshot.aggregates), actions, action);
    var second := AdviceTightenings(SortBy(AdviceLeq, advice), action);
    SortByMultiset(AggregateLeq, snapshot.aggregates);
    SortByMultiset(AdviceLeq, advice);
    FewTightenings(SortBy(AggregateLeq, snapshot.aggregates), SortBy(AdviceLeq, advice), actions, action);
    TightenAllReasons(Baseline(snapshot, action), first);
    AdviseAllReasons(AfterAggregates(snapshot, actions, action), second);
    SortedReasons(FinalVerdict(snapshot, advice, actions, action).reasons);
    FinalVerdictClosed(snapshot, advice, actions, action);
  }

  datatype WorkflowStatus = StatusDenied | StatusAwaitingApproval | StatusExecuting

  function StatusOf(decisions: seq<PolicyDecision>): WorkflowStatus {
    if exists i :: 0 <= i < |decisions| && decisions[i].decision.Deny? then StatusDenied
    else if exists i :: 0 <= i < |decisions| && decisions[i].decision.Ask? then StatusAwaitingApproval
    else StatusExecuting
  }

  // ---- the mutable evaluation ---------------------------------------------------------------------------------

  class MutableDecision {
    const action: PlanAction
    var decision: DecisionKind
    var risk: RiskTier
    var reasons: seq<string>
    var grant: Option<string>

    ghost function Value(): Verdict
      reads this
    {
      Verdict(decision, risk, reasons, grant)
    }

    constructor (action: PlanAction, v: Verdict)
      ensures this.action == action && Value() == v
    {
      this.action := action;
      decision, risk, reasons, grant := v.decision, v.risk, v.reasons, v.grant;
    }

    method Tighten(newDecision: DecisionKind, newRisk: RiskTier, reason: string)
      modifies this
      ensures Value() == Tightened(old(Value()), Tightening(newDecision, newRisk, reason))
    {
      if RiskRank(newRisk) > RiskRank(risk) {
        risk := newRisk;
      }
      if DecisionRank(newDecision) > DecisionRank(decision) {
        decision := newDecision;
        grant := None;
      }
      decision := SafetyFloor(decision, risk, grant);
      if !decision.Allow? {
        grant := None;
      }
      if reason !in reasons {
        reasons := reasons + [reason];
      }
    }
  }

  function ActionsOf(decisions: seq<MutableDecision>): seq<PlanAction> {
    seq(|decisions|, i requires 0 <= i < |decisions| => decisions[i].action)
  }

  ghost function Values(decisions: seq<MutableDecision>): seq<Verdict>
    reads decisions
  {
    seq(|decisions|, i requires 0 <= i < |decisions| reads decisions => decisions[i].Value())
  }

  /** One aggregate rule against every verdict. */
  function AfterRule(rule: AggregateRule, actions: seq<PlanAction>, values: seq<Verdict>): seq<Verdict>
    requires |values| == |actions|
  {
    seq(|values|, i requires 0 <= i < |values| =>
      if actions[i].capabilityId in rule.capabilityIds && MatchCount(rule, actions) >= rule.minimumMatches
      then Tightened(values[i], Tightening(rule.decision, rule.risk, rule.reason)) else values[i])
  }

  method ApplyRule(decisions: seq<MutableDecision>, rule: AggregateRule)
    requires Distinct(decisions)
    modifies decisions
    ensures Values(decisions) == AfterRule(rule, ActionsOf(decisions), old(Values(decisions)))
  {
    ghost var start := Values(decisions);
    ghost var after := AfterRule(rule, ActionsOf(decisions), start);
    if MatchCount(rule, ActionsOf(decisions)) < rule.minimumMatches {
      assert start == after;
      return;
    }
    for i := 0 to |decisions|
      invariant forall j :: 0 <= j < i ==> decisions[j].Value() == after[j]
      invariant forall j :: i <= j < |decisions| ==> decisions[j].Value() == start[j]
    {
      if decisions[i].action.capabilityId in rule.capabilityIds {
        decisions[i].Tighten(rule.decision, rule.risk, rule.reason);
      }
    }
    assert Values(decisions) == after;
  }

  /** After k rules every verdict is its start tightened by what those rules hold against it. */
  ghost predicate RulesApplied(rules: seq<AggregateRule>, actions: seq<PlanAction>, start: seq<Verdict>, values: seq<Verdict>) {
    |start| == |values| == |actions|
    && forall i :: 0 <= i < |values| ==> values[i] == TightenAll(start[i], AggregateTightenings(rules, actions, actions[i]))
  }

  lemma OneMoreRule(rules: seq<AggregateRule>, rule: AggregateRule, actions: seq<PlanAction>, start: seq<Verdict>, values: seq<Verdict>)
    requires RulesApplied(rules, actions, start, values)
    ensures RulesApplied(rules + [rule], actions, start, AfterRule(rule, actions, values))
  {
    var all := rules + [rule];
    assert all[..|all| - 1] == rules;
    forall i | 0 <= i < |values|
      ensures AfterRule(rule, actions, values)[i] == TightenAll(start[i], AggregateTightenings(all, actions, actions[i]))
    {
      var ts := AggregateTightenings(rules, actions, actions[i]);
      var t := Tightening(rule.decision, rule.risk, rule.reason);
      assert (ts + [t])[..|ts + [t]| - 1] == ts;
    }
  }

  method ApplyAggregateRules(decisions: seq<MutableDecision>, snapshot: Snapshot)
    requires Distinct(decisions)
    modifies decisions
    ensures RulesApplied(SortBy(AggregateLeq, snapshot.aggregates), ActionsOf(decisions), old(Values(decisions)), Values(decisions))
  {
    var rules := SortBy(AggregateLeq, snapshot.aggregates);
    for k := 0 to |rules|
      invariant RulesApplied(rules[..k], ActionsOf(decisions), old(Values(decisions)), Values(decisions))
    {
      OneMoreRule(rules[..k], rules[k], ActionsOf(decisions), old(Values(decisions)), Values(decisions));
      ApplyRule(decisions, rules[k]);
      assert rules[..k + 1] == rules[..k] + [rules[k]];
    }
    assert rules[..|rules|] == rules;
  }

  /** One recommendation against every verdict it targets. */
  function AfterAdvice(r: Recommendation, actions: seq<PlanAction>, values: seq<Verdict>): seq<Verdict>
    requires |values| == |actions|
  {
    seq(|values|, i requires 0 <= i < |values| =>
      if r.actionId.None? || r.actionId.value == actions[i].id
      then Advised(values[i], Tightening(r.decision, r.risk, r.reason)) else values[i])
  }

  method ApplyRecommendation(decisions: seq<MutableDecision>, r: Recommendation)
    requires Distinct(decisions)
    modifies decisions
    ensures Values(decisions) == AfterAdvice(r, ActionsOf(decisions), old(Values(decisions)))
  {
    ghost var start := Values(decisions);
    ghost var after := AfterAdvice(r, ActionsOf(decisions), start);
    for i := 0 to |decisions|
      invariant forall j :: 0 <= j < i ==> decisions[j].Value() == after[j]
      invariant forall j :: i <= j < |decisions| ==> decisions[j].Value() == start[j]
    {
      var target := decisions[i];
      if (r.actionId.None? || r.actionId.value == target.action.id)
         && !(DecisionRank(r.decision) <= DecisionRank(target.decision) && RiskRank(r.risk) <= RiskRank(target.risk))
      {
        target.Tighten(r.decision, r.risk, r.reason);
      }
    }
    assert Values(decisions) == after;
  }

  ghost predicate AdviceApplied(advice: seq<Recommendation>, actions: seq<PlanAction>, start: seq<Verdict>, values: seq<Verdict>) {
    |start| == |values| == |actions|
    && forall i :: 0 <= i < |values| ==> values[i] == AdviseAll(start[i], AdviceTightenings(advice, actions[i]))
  }

  lemma AdviceNext(advice: seq<Recommendation>, r: Recommendation, action: PlanAction, start: Verdict)
    ensures var value, t := AdviseAll(start, AdviceTightenings(advice, action)), Tightening(r.decision, r.risk, r.reason);
            AdviseAll(start, AdviceTightenings(advice + [r], action))
            == if r.actionId.None? || r.actionId.value == action.id then Advised(value, t) else value
  {
    var all, ts, t := advice + [r], AdviceTightenings(advice, action), Tightening(r.decision, r.risk, r.reason);
    assert all[..|all| - 1] == advice;
    assert (ts + [t])[..|ts + [t]| - 1] == ts;
  }

  lemma OneMoreAdvice(advice: seq<Recommendation>, r: Recommendation, actions: seq<PlanAction>, start: seq<Verdict>, values: seq<Verdict>)
    requires AdviceApplied(advice, actions, start, values)
    ensures AdviceApplied(advice + [r], actions, start, AfterAdvice(r, actions, values))
  {
    forall i | 0 <= i < |values|
      ensures AfterAdvice(r, actions, values)[i] == AdviseAll(start[i], AdviceTightenings(advice + [r], actions[i]))
    {
      AdviceNext(advice, r, actions[i], start[i]);
    }
  }

  method ApplySecurityAssessment(decisions: seq<MutableDecision>, assessment: Assessment)
    requires Distinct(decisions)
    modifies decisions
    ensures AdviceApplied(SortBy(AdviceLeq, assessment), ActionsOf(decisions), old(Values(decisions)), Values(decisions))
  {
    var advice := SortBy(AdviceLeq, assessment);
    for k := 0 to |advice|
      invariant AdviceApplied(advice[..k], ActionsOf(decisions), old(Values(decisions)), Values(decisions))
    {
      OneMoreAdvice(advice[..k], advice[k], ActionsOf(decisions), old(Values(decisions)), Values(decisions));
      ApplyRecommendation(decisions, advice[k]);
      assert advice[..k + 1] == advice[..k] + [advice[k]];
    }
    assert advice[..|advice|] == advice;
  }

  method BaselineDecisions(actions: seq<PlanAction>, snapshot: Snapshot) returns (decisions: seq<MutableDecision>)
    ensures fresh(decisions) && Distinct(decisions) && ActionsOf(decisions) == actions
    ensures forall i :: 0 <= i < |actions| ==> decisions[i].Value() == Baseline(snapshot, actions[i])
  {
    decisions := [];
    for k := 0 to |actions|
      invariant |decisions| == k && fresh(decisions) && Distinct(decisions)
      invariant forall i :: 0 <= i < k ==> decisions[i].action == actions[i] && decisions[i].Value() == Baseline(snapshot, actions[i])
    {
      var d := new MutableDecision(actions[k], Baseline(snapshot, actions[k]));
      decisions := decisions + [d];
    }
  }

  method ProjectDecisions(taskId: string, snapshot: Snapshot, decisions: seq<MutableDecision>) returns (projected: seq<PolicyDecision>)
    ensures |projected| == |decisions|
    ensures forall i :: 0 <= i < |decisions| ==>
              projected[i] == ProjectDecision(taskId, snapshot, ActionsOf(decisions)[i], Values(decisions)[i])
  {
    projected := [];
    for k := 0 to |decisions|
      invariant |projected| == k
      invariant forall i :: 0 <= i < k ==>
                  projected[i] == ProjectDecision(taskId, snapshot, decisions[i].action, decisions[i].Value())
    {
      var d := decisions[k];
      projected := projected + [ProjectDecision(taskId, snapshot, d.action, Verdict(d.decision, d.risk, d.reasons, d.grant))];
    }
  }

  /** Aggregate rules over the baseline and advice over that give the final verdict of every action. */
  lemma TwoPasses(snapshot: Snapshot, advice: Assessment, actions: seq<PlanAction>,
                  base: seq<Verdict>, middle: seq<Verdict>, final: seq<Verdict>)
    requires RulesApplied(SortBy(AggregateLeq, snapshot.aggregates), actions, base, middle)
    requires AdviceApplied(SortBy(AdviceLeq, advice), actions, middle, final)
    requires forall i :: 0 <= i < |actions| ==> base[i] == Baseline(snapshot, actions[i])
    ensures |final| == |actions|
    ensures forall i :: 0 <= i < |actions| ==> final[i] == FinalVerdict(snapshot, advice, actions, actions[i])
  {
    forall i | 0 <= i < |actions| ensures final[i] == FinalVerdict(snapshot, advice, actions, actions[i]) {
      assert middle[i] == AfterAggregates(snapshot, actions, actions[i]);
    }
  }

  lemma ProjectedFinal(taskId: string, snapshot: Snapshot, advice: Assessment, actions: seq<PlanAction>, listed: seq<PlanAction>,
                       final: seq<Verdict>, projected: seq<PolicyDecision>)
    requires listed == actions && |final| == |projected| == |actions|
    requires forall i :: 0 <= i < |actions| ==> final[i] == FinalVerdict(snapshot, advice, actions, actions[i])
    requires forall i :: 0 <= i < |actions| ==> projected[i] == ProjectDecision(taskId, snapshot, listed[i], final[i])
    ensures projected == Decide(taskId, snapshot, advice, actions)
  {
  }

  /** Evaluate every action.  Without an advisor the assessment is empty; advice for an action that
      is not in the plan is refused. */
  method EvaluatePolicy(taskId: string, actions: seq<PlanAction>, snapshot: Snapshot, assessment: Assessment)
    returns (r: Result<(seq<PolicyDecision>, WorkflowStatus)>)
    requires Distinct(ActionIds(actions))
    ensures r.Err? <==> exists k :: 0 <= k < |assessment| && assessment[k].actionId.Some? && assessment[k].actionId.value !in ActionIds(actions)
    ensures r.Err? ==> r.error == PolicyAssessmentInvalid
    ensures r.Ok? ==>
              && r.value.0 == Decide(taskId, snapshot, assessment, actions)
              && r.value.1 == StatusOf(r.value.0)
  {
    var decisions := BaselineDecisions(actions, snapshot);
    ghost var base := Values(decisions);
    ApplyAggregateRules(decisions, snapshot);
    if exists k :: 0 <= k < |assessment| && assessment[k].actionId.Some? && assessment[k].actionId.value !in ActionIds(actions) {
      return Err(PolicyAssessmentInvalid);
    }
    ghost var middle := Values(decisions);
    ApplySecurityAssessment(decisions, assessment);
    TwoPasses(snapshot, assessment, actions, base, middle, Values(decisions));
    var projected := ProjectDecisions(taskId, snapshot, decisions);
    ProjectedFinal(taskId, snapshot, assessment, actions, ActionsOf(decisions), Values(decisions), projected);
    r := Ok((projected, StatusOf(projected)));
  }
}
