/** Loading the evidence of a final response and rendering it. */
module Response {
  import opened Collections
  import opened PlanModel
  import opened Policy
  import opened Verification
  import opened Dispatch
  import opened Revision
  import opened Workflow

  datatype FinalEvidence = FinalEvidence(
    status: Status, verification: Option<Aggregate>, evidenceIds: seq<string>, receiptIds: seq<string>, issueCodes: seq<string>)

  /** The summary is that of the status, except that a failure nobody could verify has its own. */
  datatype Summary = OfStatus(status: Status) | UncertainSummary

  datatype FinalResponse = FinalResponse(
    status: Status, summary: Summary, verification: Option<VerificationId>, evidenceIds: seq<string>, receiptIds: seq<string>,
    issueCodes: seq<string>)

  // ---- sorted lists of texts ------------------------------------------------------------------------------

  /** texts are the elements of s in ascending order, each once. */
  predicate Lists(texts: seq<string>, s: set<string>) {
    Distinct(texts) && SortedBy(TextLeq, texts) && SetOf(texts) == s
  }

  lemma TextCompares()
    ensures Compares(TextLeq)
  {
    forall x, y ensures TextLeq(x, y) || TextLeq(y, x) { TextTotal(x, y); }
    forall x, y, z | TextLeq(x, y) && TextLeq(y, z) ensures TextLeq(x, z) { TextTransitive(x, y, z); }
  }

  lemma Inserted(texts: seq<string>, s: set<string>, x: string)
    requires Lists(texts, s) && x !in s
    ensures Lists(InsertBy(TextLeq, texts, x), s + {x})
  {
    TextCompares();
    InsertBySorted(TextLeq, texts, x);
    InsertByMultiset(TextLeq, texts, x);
    var all, r := texts + [x], InsertBy(TextLeq, texts, x);
    assert Distinct(all) && SetOf(all) == s + {x} by {
      forall i | 0 <= i < |texts| ensures texts[i] != x { assert texts[i] in SetOf(texts); }
    }
    DistinctPermutation(all, r);
  }

  /** sorted(set) */
  method SortedTexts(s: set<string>) returns (texts: seq<string>)
    ensures Lists(texts, s)
  {
    texts := [];
    var rest := s;
    while rest != {}
      invariant rest <= s && Lists(texts, s - rest)
      decreases |rest|
    {
      var x :| x in rest;
      Inserted(texts, s - rest, x);
      assert s - (rest - {x}) == (s - rest) + {x};
      texts := InsertBy(TextLeq, texts, x);
      rest := rest - {x};
    }
    assert s - {} == s;
  }

  // ---- the evidence -------------------------------------------------------------------------------------------

  function AllAggregates(entries: seq<Entry>): seq<Aggregate> {
    if entries == [] then []
    else
      var rest := AllAggregates(entries[..|entries| - 1]);
      if entries[|entries| - 1].AggregateEntry? then rest + [entries[|entries| - 1].a] else rest
  }

  lemma {:induction false} LastOfAll(entries: seq<Entry>)
    ensures LastAggregate(entries)
         == if AllAggregates(entries) == [] then None else Some(AllAggregates(entries)[|AllAggregates(entries)| - 1])
  {
    if entries != [] { LastOfAll(entries[..|entries| - 1]); }
  }

  /** The observations with the identifier of a verification, in order. */
  method Matching(criteria: seq<Observation>, vid: VerificationId) returns (matching: seq<Observation>)
    ensures matching == OfPass(criteria, vid)
  {
    matching := [];
    for i := 0 to |criteria|
      invariant matching == OfPass(criteria[..i], vid)
    {
      assert criteria[..i + 1][..i] == criteria[..i];
      if criteria[i].verification == vid { matching := matching + [criteria[i]]; }
    }
    TakeAll(criteria);
  }

  /** The last verification with the sorted references of its observations, the receipts of the results and
      the unresolved issues. */
  predicate Loaded(s: State, e: FinalEvidence) {
    && e.status == s.status && e.verification == LastAggregate(s.entries)
    && Lists(e.evidenceIds, EvidenceIds(FinalCriteria(s)))
    && Lists(e.receiptIds, SetOf(ReceiptIds(s.results)))
    && Lists(e.issueCodes, IssueCodes(s))
  }

  /** Refuses a state without terminal status, and one whose last verification does not fit its plan or
      does not support its status. */
  method LoadEvidence(s: State) returns (r: Option<FinalEvidence>)
    ensures r.Some? <==> SupportsResponse(s)
    ensures r.Some? ==> Loaded(s, r.value)
  {
    if !Terminal(s.status) { return None; }
    var aggregates, criteria := Observed(s.entries);
    LastOfAll(s.entries);
    var verification := if |aggregates| == 0 then None else Some(aggregates[|aggregates| - 1]);
    var matching: seq<Observation> := [];
    if verification.Some? {
      matching := Matching(criteria, verification.value.verification);
      OfPassOfAll(s.entries, verification.value.verification);
      if s.plan.None? || !SemanticsValid(verification.value, matching, s.plan.value, s.results, 2) { return None; }
    }
    if (s.status.Succeeded? || s.status.PartiallySucceeded?) && verification.None? { return None; }
    if (s.status.Succeeded? && !verification.value.outcome.OutcomeSucceeded?)
       || (s.status.PartiallySucceeded? && !verification.value.outcome.OutcomePartial?)
    {
      return None;
    }
    var issues := ObservedReasons(matching) + DenyReasons(s.decisions) + RefusalCodes(s) + SetOf(s.errors);
    var evidenceIds := SortedTexts(EvidenceIds(matching));
    var receiptIds := SortedTexts(SetOf(ReceiptIds(s.results)));
    var issueCodes := SortedTexts(issues);
    return Some(FinalEvidence(s.status, verification, evidenceIds, receiptIds, issueCodes));
  }

  /** The aggregates and the criterion observations of the state, in order. */
  method Observed(entries: seq<Entry>) returns (aggregates: seq<Aggregate>, criteria: seq<Observation>)
    ensures aggregates == AllAggregates(entries) && criteria == CriteriaIn(entries)
  {
    aggregates, criteria := [], [];
    for i := 0 to |entries|
      invariant aggregates == AllAggregates(entries[..i]) && criteria == CriteriaIn(entries[..i])
    {
      assert entries[..i + 1][..i] == entries[..i];
      match entries[i]
      case AggregateEntry(a) => aggregates := aggregates + [a];
      case CriterionEntry(o) => criteria := criteria + [o];
    }
    TakeAll(entries);
  }

  /** The response record: its three lists have length limits, and must be sorted without repetition. */
  predicate ResponseValid(r: FinalResponse) {
    && |r.evidenceIds| <= 64 && |r.receiptIds| <= 16 && |r.issueCodes| <= 64
    && Lists(r.evidenceIds, SetOf(r.evidenceIds)) && Lists(r.receiptIds, SetOf(r.receiptIds))
    && Lists(r.issueCodes, SetOf(r.issueCodes))
  }

  function ResponseOf(e: FinalEvidence): FinalResponse {
    var uncertain := e.status.RunFailed? && e.verification.Some? && e.verification.value.outcome.OutcomeUncertain?;
    FinalResponse(e.status, if uncertain then UncertainSummary else OfStatus(e.status),
                  if e.verification.Some? then Some(e.verification.value.verification) else None,
                  e.evidenceIds, e.receiptIds, e.issueCodes)
  }

  lemma ListLength(texts: seq<string>, s: set<string>)
    requires Lists(texts, s)
    ensures |texts| == |s| && Lists(texts, SetOf(texts))
  {
    DistinctCardinality(texts);
  }

  /** Only the three lengths can make the record invalid. */
  lemma LengthsDecide(s: State, e: FinalEvidence)
    requires Loaded(s, e)
    ensures ResponseValid(ResponseOf(e)) <==> FitsResponse(s)
  {
    ListLength(e.evidenceIds, EvidenceIds(FinalCriteria(s)));
    ListLength(e.receiptIds, SetOf(ReceiptIds(s.results)));
    ListLength(e.issueCodes, IssueCodes(s));
  }

  /** A valid response about this state. */
  predicate Reports(s: State, r: FinalResponse) {
    && ResponseValid(r) && r.status == s.status
    && SetOf(r.evidenceIds) == EvidenceIds(FinalCriteria(s))
    && SetOf(r.receiptIds) == SetOf(ReceiptIds(s.results))
    && SetOf(r.issueCodes) == IssueCodes(s)
    && (r.verification.Some? <==> LastAggregate(s.entries).Some?)
    && (r.summary.UncertainSummary? <==>
          s.status.RunFailed? && LastAggregate(s.entries).Some? && LastAggregate(s.entries).value.outcome.OutcomeUncertain?)
  }

  /** A response is rendered exactly from a renderable state, and reports it. */
  method RenderFinalResponse(s: State) returns (r: Option<FinalResponse>)
    ensures r.Some? <==> Renderable(s)
    ensures r.Some? ==> Reports(s, r.value)
  {
    var evidence := LoadEvidence(s);
    if evidence.None? { return None; }
    LengthsDecide(s, evidence.value);
    if !ResponseValid(ResponseOf(evidence.value)) { return None; }
    r := Some(ResponseOf(evidence.value));
  }
}
