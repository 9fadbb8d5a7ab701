/** The desktop policy loader: overlays that only tighten a signed baseline, and the signed byte layout. */
module PolicyOverlay {
  import opened Collections
  import opened Policy

  /** Enumeration values 0, 1 and 2: a smaller one is stricter. */
  datatype RuleDecision = DenyRule | AskRule | AllowRule

  function RankOf(d: RuleDecision): nat {
    match d case DenyRule => 0 case AskRule => 1 case AllowRule => 2
  }

  function Stricter(a: RuleDecision, b: RuleDecision): RuleDecision {
    if RankOf(a) <= RankOf(b) then a else b
  }

  type Rules = map<string, RuleDecision>

  datatype OverlayRule = OverlayRule(key: string, decision: RuleDecision)

  /** A parsed overlay; duplicate keys are refused while parsing. */
  datatype Overlay = Overlay(baselineVersion: string, rules: seq<OverlayRule>)

  datatype LoadError = BaselineMismatch | OverlayInvalid | CannotRelax

  datatype Loaded = Loaded(rules: Rules) | Refused(error: LoadError)

  // ---- keys -------------------------------------------------------------------------------------

  predicate IsKeyChar(c: char) {
    'a' <= c <= 'z' || '0' <= c <= '9' || c == '_' || c == '.' || c == '-'
  }

  predicate IsKeyBody(s: string) {
    3 <= |s| <= 128 && 'a' <= s[0] <= 'z' && forall i :: 1 <= i < |s| ==> IsKeyChar(s[i])
  }

  /** The end anchor of the pattern also matches before a final line feed. */
  predicate IsKey(s: string) {
    IsKeyBody(s) || (s != [] && s[|s| - 1] == '\n' && IsKeyBody(s[..|s| - 1]))
  }

  const KEY_LETTERS := "abcdefghijklmnopqrstuvwxyz"
  const KEY_OTHERS := "0123456789_.-"

  /** What the pattern admits: a small letter, then 2 to 127 small letters, digits, underscores, dots or hyphens. */
  lemma KeysSpelled(s: string)
    ensures IsKeyBody(s) <==>
              && 3 <= |s| < 129 && s[0] in KEY_LETTERS
              && forall i :: 0 <= i < |s| ==> s[i] in KEY_LETTERS || s[i] in KEY_OTHERS
  {
    forall c: char ensures 'a' <= c <= 'z' <==> c in KEY_LETTERS { SmallLetters(c); }
    forall c: char ensures IsKeyChar(c) <==> c in KEY_LETTERS || c in KEY_OTHERS { SmallLetters(c); OtherCharacters(c); }
  }

  lemma SmallLetters(c: char)
    ensures 'a' <= c <= 'z' <==> c in KEY_LETTERS
  {
    if 'a' <= c <= 'z' { assert KEY_LETTERS[(c as int) - ('a' as int)] == c; }
  }

  lemma OtherCharacters(c: char)
    ensures '0' <= c <= '9' || c == '_' || c == '.' || c == '-' <==> c in KEY_OTHERS
  {
    if '0' <= c <= '9' { assert KEY_OTHERS[(c as int) - ('0' as int)] == c; }
    assert KEY_OTHERS[10] == '_' && KEY_OTHERS[11] == '.' && KEY_OTHERS[12] == '-';
  }

  // ---- reference meaning --------------------------------------------------------------------------

  function Keys(rules: seq<OverlayRule>): seq<string> {
    seq(|rules|, i requires 0 <= i < |rules| => rules[i].key)
  }

  predicate RuleFine(current: Rules, r: OverlayRule) {
    IsKey(r.key) && r.key in current && RankOf(r.decision) <= RankOf(current[r.key])
  }

  predicate AllFine(current: Rules, rules: seq<OverlayRule>) {
    forall i :: 0 <= i < |rules| ==> RuleFine(current, rules[i])
  }

  /** The overlays that are accepted: right baseline, known keys, nothing relaxed. */
  predicate Accepts(current: Rules, version: string, overlay: Overlay) {
    overlay.baselineVersion == version && AllFine(current, overlay.rules)
  }

  /** The decision an overlay asks for, or the loosest one if it does not mention the key. */
  function Wanted(rules: seq<OverlayRule>, key: string): RuleDecision {
    if rules == [] then AllowRule else if rules[0].key == key then rules[0].decision else Wanted(rules[1..], key)
  }

  lemma {:induction false} NotWanted(rules: seq<OverlayRule>, key: string)
    requires key !in Keys(rules)
    ensures Wanted(rules, key).AllowRule?
  {
    if rules != [] {
      assert Keys(rules) == [rules[0].key] + Keys(rules[1..]);
      NotWanted(rules[1..], key);
    }
  }

  lemma {:induction false} WantedAt(rules: seq<OverlayRule>, i: nat)
    requires Distinct(Keys(rules)) && i < |rules|
    ensures Wanted(rules, rules[i].key) == rules[i].decision
  {
    if i > 0 {
      assert Keys(rules)[0] != Keys(rules)[i];
      assert Distinct(Keys(rules[1..])) by {
        assert forall j :: 0 <= j < |rules| - 1 ==> Keys(rules[1..])[j] == Keys(rules)[j + 1];
      }
      WantedAt(rules[1..], i - 1);
    }
  }

  /** The pointwise minimum of the current rules and an overlay, on the same keys. */
  function PointwiseMinimum(current: Rules, rules: seq<OverlayRule>): Rules {
    map key | key in current :: Stricter(current[key], Wanted(rules, key))
  }

  predicate RuleLeq(a: OverlayRule, b: OverlayRule) {
    TextLeq(a.key, b.key)
  }

  /** The first rule, by key, that is refused decides the error. */
  function FirstRefusal(current: Rules, rules: seq<OverlayRule>): Option<LoadError> {
    if rules == [] then None
    else
      var before := FirstRefusal(current, rules[..|rules| - 1]);
      var last := rules[|rules| - 1];
      if before.Some? then before
      else if !IsKey(last.key) || last.key !in current then Some(OverlayInvalid)
      else if RankOf(last.decision) > RankOf(current[last.key]) then Some(CannotRelax)
      else None
  }

  lemma {:induction false} NoRefusalMeansFine(current: Rules, rules: seq<OverlayRule>)
    ensures FirstRefusal(current, rules).None? <==> AllFine(current, rules)
  {
    if rules != [] {
      NoRefusalMeansFine(current, rules[..|rules| - 1]);
      FineUnfold(current, rules);
    }
  }

  lemma FineUnfold(current: Rules, rules: seq<OverlayRule>)
    requires rules != []
    ensures AllFine(current, rules) <==> AllFine(current, rules[..|rules| - 1]) && RuleFine(current, rules[|rules| - 1])
  {
    var n := |rules| - 1;
    assert forall i :: 0 <= i < n ==> rules[..n][i] == rules[i];
  }

  /** The rule cannot be applied, and this is why: its key is malformed or unknown, or it would relax. */
  predicate RefusedFor(current: Rules, r: OverlayRule, e: LoadError) {
    && (e.OverlayInvalid? <==> !IsKey(r.key) || r.key !in current)
    && (e.CannotRelax? <==> IsKey(r.key) && r.key in current && Relaxes(current[r.key], r.decision))
  }

  /** Asking relaxes a denial, and allowing relaxes both. */
  predicate Relaxes(from: RuleDecision, to: RuleDecision) {
    (from.DenyRule? && !to.DenyRule?) || (from.AskRule? && to.AllowRule?)
  }

  lemma FineOrRefused(current: Rules, r: OverlayRule)
    ensures RuleFine(current, r) <==> IsKey(r.key) && r.key in current && !Relaxes(current[r.key], r.decision)
  {
  }

  lemma {:induction false} FirstRefusalAt(current: Rules, rules: seq<OverlayRule>) returns (k: nat)
    requires FirstRefusal(current, rules).Some?
    ensures k < |rules| && !RuleFine(current, rules[k]) && RefusedFor(current, rules[k], FirstRefusal(current, rules).value)
    ensures forall j :: 0 <= j < k ==> RuleFine(current, rules[j])
  {
    var n := |rules| - 1;
    if FirstRefusal(current, rules[..n]).Some? {
      k := FirstRefusalAt(current, rules[..n]);
      assert forall j :: 0 <= j <= k ==> rules[..n][j] == rules[j];
    } else {
      k := n;
      NoRefusalMeansFine(current, rules[..n]);
      assert forall j :: 0 <= j < n ==> rules[..n][j] == rules[j];
    }
  }

  lemma RuleCompares()
    ensures Compares(RuleLeq)
  {
    forall x: OverlayRule, y: OverlayRule ensures RuleLeq(x, y) || RuleLeq(y, x) { TextTotal(x.key, y.key); }
    forall x: OverlayRule, y: OverlayRule, z: OverlayRule | RuleLeq(x, y) && RuleLeq(y, z) ensures RuleLeq(x, z) {
      TextTransitive(x.key, y.key, z.key);
    }
  }

  /** Of the rules that cannot be applied, the one with the smallest key decides the error. */
  lemma SmallestRefusalDecides(current: Rules, rules: seq<OverlayRule>) returns (r: OverlayRule)
    requires FirstRefusal(current, SortBy(RuleLeq, rules)).Some?
    ensures r in rules && !RuleFine(current, r) && RefusedFor(current, r, FirstRefusal(current, SortBy(RuleLeq, rules)).value)
    ensures forall q :: q in rules && !RuleFine(current, q) ==> TextLeq(r.key, q.key)
  {
    var ordered := SortBy(RuleLeq, rules);
    var k := FirstRefusalAt(current, ordered);
    r := ordered[k];
    RuleCompares();
    SortBySorted(RuleLeq, rules);
    SortByMultiset(RuleLeq, rules);
    assert r in multiset(ordered);
    forall q | q in rules && !RuleFine(current, q) ensures TextLeq(r.key, q.key) {
      assert q in multiset(ordered);
      var j :| 0 <= j < |ordered| && ordered[j] == q;
      if j == k { TextTotal(r.key, r.key); } else { assert RuleLeq(ordered[k], ordered[j]); }
    }
  }

  // ---- the loop ------------------------------------------------------------------------------------

  /** The loop over the rules in key order, on a builder that starts as the current rules. */
  method Tighten(current: Rules, ordered: seq<OverlayRule>) returns (r: Loaded)
    requires Distinct(Keys(ordered))
    ensures r.Loaded? ==> FirstRefusal(current, ordered).None? && r.rules == PointwiseMinimum(current, ordered)
    ensures r.Refused? ==> FirstRefusal(current, ordered) == Some(r.error)
  {
    var builder := current;
    for i := 0 to |ordered|
      invariant builder.Keys == current.Keys && FirstRefusal(current, ordered[..i]).None?
      invariant Built(current, ordered[..i], builder)
    {
      var rule := ordered[i];
      assert ordered[..i + 1][..i] == ordered[..i];
      BuiltUnmentioned(current, ordered, i, builder);
      if !IsKey(rule.key) || rule.key !in builder {
        RefusalStays(current, ordered, i + 1);
        return Refused(OverlayInvalid);
      }
      if RankOf(rule.decision) > RankOf(builder[rule.key]) {
        RefusalStays(current, ordered, i + 1);
        return Refused(CannotRelax);
      }
      BuiltNext(current, ordered, i, builder);
      builder := builder[rule.key := rule.decision];
    }
    TakeAll(ordered);
    NoRefusalMeansFine(current, ordered);
    BuiltMinimum(current, ordered, builder);
    return Loaded(builder);
  }

  /** The builder holds the decisions of the rules so far and the current ones elsewhere. */
  predicate Built(current: Rules, rules: seq<OverlayRule>, built: Rules) {
    && built.Keys == current.Keys
    && (forall i :: 0 <= i < |rules| && rules[i].key in current ==> built[rules[i].key] == rules[i].decision)
    && (forall key :: key in current && key !in Keys(rules) ==> built[key] == current[key])
  }

  lemma BuiltUnmentioned(current: Rules, ordered: seq<OverlayRule>, i: nat, built: Rules)
    requires Distinct(Keys(ordered)) && i < |ordered| && Built(current, ordered[..i], built)
    ensures ordered[i].key in current ==> built[ordered[i].key] == current[ordered[i].key]
  {
    KeysApart(ordered, i);
    assert Keys(ordered[..i]) == Keys(ordered)[..i];
  }

  lemma BuiltNext(current: Rules, ordered: seq<OverlayRule>, i: nat, built: Rules)
    requires Distinct(Keys(ordered)) && i < |ordered| && Built(current, ordered[..i], built) && ordered[i].key in current
    ensures Built(current, ordered[..i + 1], built[ordered[i].key := ordered[i].decision])
  {
    KeysApart(ordered, i);
    var before, after := Keys(ordered[..i]), Keys(ordered[..i + 1]);
    assert after == before + [ordered[i].key];
    forall key | key in current && key !in after ensures built[ordered[i].key := ordered[i].decision][key] == current[key] {
      assert key !in before && key != after[i];
    }
  }

  method ApplyTighteningOverlay(current: Rules, version: string, overlay: Overlay) returns (r: Loaded)
    requires Distinct(Keys(overlay.rules))
    ensures r.Loaded? <==> Accepts(current, version, overlay)
    ensures r.Loaded? ==> r.rules == PointwiseMinimum(current, overlay.rules)
    ensures r.Refused? && overlay.baselineVersion != version ==> r.error == BaselineMismatch
    ensures r.Refused? && overlay.baselineVersion == version ==>
              Some(r.error) == FirstRefusal(current, SortBy(RuleLeq, overlay.rules))
  {
    if overlay.baselineVersion != version { return Refused(BaselineMismatch); }
    var ordered := SortBy(RuleLeq, overlay.rules);
    SortByMultiset(RuleLeq, overlay.rules);
    SortedKeys(overlay.rules, ordered);
    SameRules(current, version, overlay, ordered);
    SameWanted(current, overlay.rules, ordered);
    r := Tighten(current, ordered);
  }

  lemma KeysApart(rules: seq<OverlayRule>, i: nat)
    requires Distinct(Keys(rules)) && i < |rules|
    ensures rules[i].key !in Keys(rules)[..i]
    ensures forall k :: 0 <= k < i ==> rules[k].key != rules[i].key
  {
    forall k | 0 <= k < i ensures rules[k].key != rules[i].key {
      assert Keys(rules)[k] != Keys(rules)[i];
    }
  }

  lemma {:induction false} RefusalStays(current: Rules, rules: seq<OverlayRule>, i: nat)
    requires i <= |rules| && FirstRefusal(current, rules[..i]).Some?
    ensures FirstRefusal(current, rules) == FirstRefusal(current, rules[..i])
    decreases |rules|
  {
    if i < |rules| {
      assert rules[..|rules| - 1][..i] == rules[..i];
      RefusalStays(current, rules[..|rules| - 1], i);
    } else {
      assert rules[..i] == rules;
    }
  }

  lemma SortedKeys(rules: seq<OverlayRule>, ordered: seq<OverlayRule>)
    requires Distinct(Keys(rules)) && multiset(ordered) == multiset(rules)
    ensures Distinct(Keys(ordered))
  {
    forall i, j | 0 <= i < j < |ordered| ensures Keys(ordered)[i] != Keys(ordered)[j] {
      assert ordered[i] in multiset(rules) && ordered[j] in multiset(rules);
      var a :| 0 <= a < |rules| && rules[a] == ordered[i];
      var b :| 0 <= b < |rules| && rules[b] == ordered[j];
      if a == b {
        RepeatedElement(rules, ordered, i, j);
      } else {
        assert Keys(rules)[a] != Keys(rules)[b];
      }
    }
  }

  lemma RepeatedElement(rules: seq<OverlayRule>, ordered: seq<OverlayRule>, i: nat, j: nat)
    requires Distinct(Keys(rules)) && multiset(ordered) == multiset(rules) && i < j < |ordered|
    ensures ordered[i] != ordered[j]
  {
    forall a, b | 0 <= a < b < |rules| ensures rules[a] != rules[b] {
      assert Keys(rules)[a] != Keys(rules)[b];
    }
    DistinctPermutation(rules, ordered);
  }

  lemma SameRules(current: Rules, version: string, overlay: Overlay, ordered: seq<OverlayRule>)
    requires multiset(ordered) == multiset(overlay.rules) && overlay.baselineVersion == version
    ensures FirstRefusal(current, ordered).None? <==> Accepts(current, version, overlay)
  {
    var rules := overlay.rules;
    NoRefusalMeansFine(current, ordered);
    forall i | 0 <= i < |rules| ensures rules[i] in ordered {
      assert rules[i] in multiset(ordered);
    }
    forall i | 0 <= i < |ordered| ensures ordered[i] in rules {
      assert ordered[i] in multiset(rules);
    }
  }

  lemma SameWanted(current: Rules, rules: seq<OverlayRule>, ordered: seq<OverlayRule>)
    requires Distinct(Keys(rules)) && Distinct(Keys(ordered)) && multiset(ordered) == multiset(rules)
    ensures PointwiseMinimum(current, ordered) == PointwiseMinimum(current, rules)
  {
    forall key | key in current ensures Wanted(ordered, key) == Wanted(rules, key) {
      if key in Keys(rules) {
        var i :| 0 <= i < |rules| && rules[i].key == key;
        assert rules[i] in multiset(ordered);
        var j :| 0 <= j < |ordered| && ordered[j] == rules[i];
        WantedAt(rules, i);
        WantedAt(ordered, j);
      } else {
        forall j | 0 <= j < |ordered| ensures ordered[j].key != key {
          assert ordered[j] in multiset(rules);
          var i :| 0 <= i < |rules| && rules[i] == ordered[j];
          assert Keys(rules)[i] == ordered[j].key;
        }
        NotWanted(rules, key);
        NotWanted(ordered, key);
      }
    }
  }

  lemma BuiltMinimum(current: Rules, ordered: seq<OverlayRule>, built: Rules)
    requires Distinct(Keys(ordered)) && Built(current, ordered, built)
    requires AllFine(current, ordered)
    ensures built == PointwiseMinimum(current, ordered)
  {
    forall key | key in current ensures built[key] == Stricter(current[key], Wanted(ordered, key)) {
      if key in Keys(ordered) {
        var i :| 0 <= i < |ordered| && ordered[i].key == key;
        assert RuleFine(current, ordered[i]);
        WantedAt(ordered, i);
      } else {
        NotWanted(ordered, key);
      }
    }
  }

  // ---- the whole load ----------------------------------------------------------------------------------

  /** Baseline, then the admin overlay, then the user overlay. */
  method ApplyOverlays(baseline: Rules, version: string, admin: Option<Overlay>, user: Option<Overlay>) returns (r: Loaded)
    requires admin.Some? ==> Distinct(Keys(admin.value.rules))
    requires user.Some? ==> Distinct(Keys(user.value.rules))
    ensures r.Loaded? <==>
              && (admin.Some? ==> Accepts(baseline, version, admin.value))
              && (user.Some? ==> Accepts(PointwiseMinimum(baseline, RulesOf(admin)), version, user.value))
    ensures r.Loaded? ==>
              r.rules.Keys == baseline.Keys
              && forall key :: key in baseline ==>
                   r.rules[key] == Stricter(baseline[key], Stricter(Wanted(RulesOf(admin), key), Wanted(RulesOf(user), key)))
  {
    var rules := baseline;
    assert PointwiseMinimum(baseline, []) == baseline;
    if admin.Some? {
      r := ApplyTighteningOverlay(rules, version, admin.value);
      if r.Refused? { return; }
      rules := r.rules;
    }
    if user.Some? {
      r := ApplyTighteningOverlay(rules, version, user.value);
      if r.Refused? { return; }
      rules := r.rules;
    }
    return Loaded(rules);
  }

  /** In what ApplyOverlays loads, a denial anywhere denies, only three allowances allow, and an overlay that does
      not mention a key has no say in it. */
  lemma StrictestWins(baseline: Rules, admin: seq<OverlayRule>, user: seq<OverlayRule>, key: string)
    requires key in baseline && Distinct(Keys(admin)) && Distinct(Keys(user))
    ensures var r := Stricter(baseline[key], Stricter(Wanted(admin, key), Wanted(user, key)));
            && (r.DenyRule? <==> baseline[key].DenyRule? || OverlayRule(key, DenyRule) in admin || OverlayRule(key, DenyRule) in user)
            && (r.AllowRule? <==>
                  && baseline[key].AllowRule?
                  && OverlayRule(key, DenyRule) !in admin && OverlayRule(key, AskRule) !in admin
                  && OverlayRule(key, DenyRule) !in user && OverlayRule(key, AskRule) !in user)
  {
    WantedMeans(admin, key);
    WantedMeans(user, key);
  }

  lemma WantedMeans(rules: seq<OverlayRule>, key: string)
    requires Distinct(Keys(rules))
    ensures Wanted(rules, key).DenyRule? <==> OverlayRule(key, DenyRule) in rules
    ensures Wanted(rules, key).AskRule? <==> OverlayRule(key, AskRule) in rules
  {
    if key in Keys(rules) {
      var i :| 0 <= i < |rules| && rules[i].key == key;
      WantedAt(rules, i);
      forall r | r in rules && r.key == key ensures r == rules[i] {
        var j :| 0 <= j < |rules| && rules[j] == r;
        assert Keys(rules)[i] == Keys(rules)[j];
      }
    } else {
      NotWanted(rules, key);
      forall r | r in rules ensures r.key != key {
        var j :| 0 <= j < |rules| && rules[j] == r;
        assert Keys(rules)[j] == r.key;
      }
    }
  }

  function RulesOf(overlay: Option<Overlay>): seq<OverlayRule> {
    if overlay.Some? then overlay.value.rules else []
  }

  /** When both overlays fit the baseline alone, the user overlay is accepted after the admin one exactly
      when it is at least as strict wherever both speak. */
  lemma UserAfterAdmin(baseline: Rules, version: string, admin: Overlay, user: Overlay)
    requires Distinct(Keys(admin.rules)) && Accepts(baseline, version, admin) && Accepts(baseline, version, user)
    ensures Accepts(PointwiseMinimum(baseline, admin.rules), version, user)
       <==> forall i :: 0 <= i < |user.rules| ==> RankOf(user.rules[i].decision) <= RankOf(Wanted(admin.rules, user.rules[i].key))
  {
    forall i | 0 <= i < |user.rules|
      ensures RuleFine(PointwiseMinimum(baseline, admin.rules), user.rules[i])
         <==> RankOf(user.rules[i].decision) <= RankOf(Wanted(admin.rules, user.rules[i].key))
    {
      assert RuleFine(baseline, user.rules[i]);
    }
  }

  // ---- the signed message -----------------------------------------------------------------------------------

  type Byte = x: int | 0 <= x < 256

  /** Domain, version, zero, key id, zero, payload. */
  function Layout(domain: seq<Byte>, version: seq<Byte>, key: seq<Byte>, payload: seq<Byte>): seq<Byte> {
    domain + version + [0] + key + [0] + payload
  }

  /** Copies a part into the buffer at an offset. */
  method CopyTo(part: seq<Byte>, message: array<Byte>, offset: nat)
    requires offset + |part| <= message.Length
    modifies message
    ensures message[..] == old(message[..offset]) + part + old(message[offset + |part|..])
  {
    for i := 0 to |part|
      invariant message[..offset] == old(message[..offset])
      invariant message[offset..offset + i] == part[..i]
      invariant message[offset + |part|..] == old(message[offset + |part|..])
    {
      message[offset + i] := part[i];
      assert message[offset..offset + i + 1] == message[offset..offset + i] + [part[i]];
    }
    assert message[..] == message[..offset] + message[offset..offset + |part|] + message[offset + |part|..];
  }

  method BuildSignatureMessage(domain: seq<Byte>, version: seq<Byte>, key: seq<Byte>, payload: seq<Byte>)
    returns (message: array<Byte>)
    ensures fresh(message) && message[..] == Layout(domain, version, key, payload)
  {
    message := new Byte[|domain| + |version| + 1 + |key| + 1 + |payload|](_ => 0);
    var offset := 0;
    CopyTo(domain, message, offset);
    offset := offset + |domain|;
    assert message[..offset] == domain;
    CopyTo(version, message, offset);
    offset := offset + |version|;
    assert message[..offset] == domain + version;
    message[offset] := 0;
    offset := offset + 1;
    assert message[..offset] == domain + version + [0];
    CopyTo(key, message, offset);
    offset := offset + |key|;
    assert message[..offset] == domain + version + [0] + key;
    message[offset] := 0;
    offset := offset + 1;
    assert message[..offset] == domain + version + [0] + key + [0];
    CopyTo(payload, message, offset);
    assert message[offset + |payload|..] == [];
  }

  predicate NoZero(s: seq<Byte>) {
    forall i :: 0 <= i < |s| ==> s[i] != 0
  }

  lemma SplitAtZero(a: seq<Byte>, b: seq<Byte>, x: seq<Byte>, y: seq<Byte>)
    requires NoZero(a) && NoZero(x) && a + [0] + b == x + [0] + y
    ensures a == x && b == y
  {
    var s := a + [0] + b;
    assert s[|a|] == 0 && s[|x|] == 0;
    assert forall i :: 0 <= i < |a| ==> s[i] == a[i];
    assert forall i :: 0 <= i < |x| ==> s[i] == x[i];
    assert |a| == |x|;
    assert a == s[..|a|] && x == s[..|x|];
    assert b == s[|a| + 1..] && y == s[|x| + 1..];
  }

  /** A signature binds version, key and payload: as long as neither version nor key id holds a zero byte,
      two equal messages have equal parts. */
  lemma LayoutInjective(domain: seq<Byte>, v: seq<Byte>, k: seq<Byte>, p: seq<Byte>, v': seq<Byte>, k': seq<Byte>, p': seq<Byte>)
    requires NoZero(v) && NoZero(k) && NoZero(v') && NoZero(k')
    requires Layout(domain, v, k, p) == Layout(domain, v', k', p')
    ensures v == v' && k == k' && p == p'
  {
    var rest, rest' := k + [0] + p, k' + [0] + p';
    assert Layout(domain, v, k, p) == domain + (v + [0] + rest);
    assert Layout(domain, v', k', p') == domain + (v' + [0] + rest');
    assert v + [0] + rest == Layout(domain, v, k, p)[|domain|..];
    assert v' + [0] + rest' == Layout(domain, v', k', p')[|domain|..];
    SplitAtZero(v, rest, v', rest');
    SplitAtZero(k, p, k', p');
  }

  /** The condition is needed: with a zero byte in the key id, different parts share a message. */
  lemma LayoutAmbiguousWithZero()
    ensures Layout([], [49], [97, 0, 98], [99]) == Layout([], [49], [97], [98, 0, 99])
  {
  }
}
