/**
 What every move on waiver evidence keeps true: evidence forms one line per review, entries exist
 exactly for completed requests, and the whole chain nets to its head.
 */
module WaiverInvariant {
  import opened Ledger
  import opened FiscalCycle
  import opened CycleInvariant
  import opened Waiver

  // ---------- evidence ----------

  ghost predicate FirstRow(entries: seq<Entry>, e: Evidence) {
    e.entry < |entries| && e.sequence == 1 && e.supersedes.None? && e.replacement.None? && entries[e.entry].origin == WaiverRegularization(e.review)
  }

  ghost predicate NextRow(entries: seq<Entry>, evidences: seq<Evidence>, h: nat, e: Evidence) {
    && h < |evidences| && evidences[h].entry < |entries| && e.entry < |entries|
    && e.sequence == evidences[h].sequence + 1 && e.supersedes == Some(h)
    && e.replacement.Some? && entries[e.entry].origin == WaiverReplacement(e.replacement.value)
    && ReversedBy(entries, evidences[h].entry)
  }

  /** A row starts the line of its review, or continues it from the row that was its head. */
  ghost predicate RowSound(entries: seq<Entry>, evidences: seq<Evidence>, k: nat)
    requires k < |evidences|
  {
    var e, h := evidences[k], HeadOf(evidences[..k], evidences[k].review);
    if h.None? then FirstRow(entries, e) else NextRow(entries, evidences, h.value, e)
  }

  ghost predicate Chained(entries: seq<Entry>, evidences: seq<Evidence>) {
    forall k {:trigger RowSound(entries, evidences, k)} :: 0 <= k < |evidences| ==> RowSound(entries, evidences, k)
  }

  /** A review is closed exactly when it has evidence. */
  ghost predicate ReviewsSound(reviews: seq<Review>, evidences: seq<Evidence>) {
    && (forall k :: 0 <= k < |evidences| ==> evidences[k].review < |reviews|)
    && (forall r: nat :: r < |reviews| ==> (reviews[r].closedBy.Some? <==> HeadOf(evidences, r).Some?))
  }

  // ---------- requests ----------

  ghost predicate InYear(years: seq<FiscalYear>, y: nat, date: int) {
    y < |years| && FirstDay(years[y].year) <= date <= LastDay(years[y].year)
  }

  ghost predicate ClosedReview(reviews: seq<Review>, r: nat) {
    r < |reviews| && reviews[r].closedBy.Some?
  }

  ghost predicate Independent(reviews: seq<Review>, r: nat, requestedBy: nat, approvedBy: Option<nat>) {
    && r < |reviews| && !IsParty(reviews[r], requestedBy)
    && (approvedBy.Some? ==> approvedBy.value != requestedBy && !IsParty(reviews[r], approvedBy.value))
  }

  ghost predicate ReversalRow(s: State, reviews: seq<Review>, evidences: seq<Evidence>, q: nat, r: ReversalRequest) {
    && ClosedReview(reviews, r.review) && Independent(reviews, r.review, r.requestedBy, r.approvedBy)
    && r.evidence < |evidences| && evidences[r.evidence].review == r.review && evidences[r.evidence].entry == r.target
    && r.target < |s.entries| && InYear(s.years, s.entries[r.target].fiscalYear, r.date)
    && (r.status == Awaiting ==> r.version == 1 && HeadOf(evidences, r.review) == Some(r.evidence) && !ReversedBy(s.entries, r.target))
    && (r.status != Awaiting ==> r.version == 2)
    && (r.status == Fulfilled <==> HasEntry(s.entries, WaiverReversal(q)))
    && (r.status == Fulfilled <==> r.approvedBy.Some?)
    && (r.status == Fulfilled ==> ReversedBy(s.entries, r.target))
  }

  ghost predicate ReversalsSound(s: State, reviews: seq<Review>, evidences: seq<Evidence>, reversals: seq<ReversalRequest>) {
    && (forall q {:trigger ReversalRow(s, reviews, evidences, q, reversals[q])} :: 0 <= q < |reversals| ==> ReversalRow(s, reviews, evidences, q, reversals[q]))
    && (forall p, q :: 0 <= p < q < |reversals| && IsActive(reversals[p].status) && IsActive(reversals[q].status)
                       ==> reversals[p].evidence != reversals[q].evidence && reversals[p].target != reversals[q].target)
  }

  ghost predicate ReplacementRow(s: State, reviews: seq<Review>, evidences: seq<Evidence>, q: nat, r: ReplacementRequest) {
    && ClosedReview(reviews, r.review) && Independent(reviews, r.review, r.requestedBy, r.approvedBy)
    && r.source < |evidences| && evidences[r.source].review == r.review && evidences[r.source].entry < |s.entries|
    && InYear(s.years, r.fiscalYear, r.date)
    && NonNegative(r.lines) && LinesBalance(r.lines)
    && (r.status == Awaiting ==> r.version == 1 && HeadOf(evidences, r.review) == Some(r.source) && ReversedBy(s.entries, evidences[r.source].entry))
    && (r.status != Awaiting ==> r.version == 2)
    && (r.status == Fulfilled <==> HasEntry(s.entries, WaiverReplacement(q)))
    && (r.status == Fulfilled <==> r.approvedBy.Some?)
  }

  ghost predicate ReplacementsSound(s: State, reviews: seq<Review>, evidences: seq<Evidence>, replacements: seq<ReplacementRequest>) {
    && (forall q {:trigger ReplacementRow(s, reviews, evidences, q, replacements[q])} ::
          0 <= q < |replacements| ==> ReplacementRow(s, reviews, evidences, q, replacements[q]))
    && (forall p, q :: 0 <= p < q < |replacements| && IsActive(replacements[p].status) && IsActive(replacements[q].status)
                       ==> replacements[p].source != replacements[q].source)
  }

  /** Later evidence is the result of exactly one completed replacement of its review. */
  ghost predicate ResultsSound(evidences: seq<Evidence>, replacements: seq<ReplacementRequest>) {
    && (forall k :: 0 <= k < |evidences| && evidences[k].replacement.Some? ==> ResultOf(evidences[k], replacements, evidences[k].replacement.value))
    && (forall q: nat :: q < |replacements| && replacements[q].status == Fulfilled ==> HasResult(evidences, q))
  }

  ghost predicate ResultOf(e: Evidence, replacements: seq<ReplacementRequest>, q: nat) {
    q < |replacements| && replacements[q].status == Fulfilled && replacements[q].review == e.review && e.supersedes == Some(replacements[q].source)
  }

  ghost predicate HasResult(evidences: seq<Evidence>, q: nat) {
    exists k :: 0 <= k < |evidences| && evidences[k].replacement == Some(q)
  }

  // ---------- entries ----------

  ghost predicate WaiverEntrySound(f: Files, e: Entry) {
    match e.origin
    case WaiverRegularization(r) => r < |f.reviews| && e.reverses.None?
    case WaiverReversal(q) =>
      && q < |f.reversals| && f.reversals[q].target < |f.ledger.entries|
      && e.reverses == Some(f.reversals[q].target) && e.lines == Mirror(f.ledger.entries[f.reversals[q].target].lines)
    case WaiverReplacement(q) => q < |f.replacements| && e.reverses.None? && e.lines == f.replacements[q].lines
    case _ => e.reverses.Some? ==> e.reverses.value < |f.ledger.entries| && !IsWaiver(f.ledger.entries[e.reverses.value].origin)
  }

  ghost predicate WaiverEntriesSound(f: Files) {
    && (forall k {:trigger WaiverEntrySound(f, f.ledger.entries[k])} :: 0 <= k < |f.ledger.entries| ==> WaiverEntrySound(f, f.ledger.entries[k]))
    && (forall j, k :: 0 <= j < k < |f.ledger.entries| && IsWaiver(f.ledger.entries[j].origin) ==> f.ledger.entries[j].origin != f.ledger.entries[k].origin)
  }

  // ---------- the net of a chain ----------

  /** The entry belongs to the chain of the review. */
  predicate Belongs(reversals: seq<ReversalRequest>, replacements: seq<ReplacementRequest>, origin: Origin, review: nat) {
    match origin
    case WaiverRegularization(r) => r == review
    case WaiverReversal(q) => q < |reversals| && reversals[q].review == review
    case WaiverReplacement(q) => q < |replacements| && replacements[q].review == review
    case _ => false
  }

  /** What the whole chain of a review, original, reversals and replacements, leaves on account `a`. */
  function ChainNet(reversals: seq<ReversalRequest>, replacements: seq<ReplacementRequest>, entries: seq<Entry>, review: nat, a: nat): int {
    if entries == [] then 0
    else
      var last := entries[|entries| - 1];
      ChainNet(reversals, replacements, entries[..|entries| - 1], review, a)
      + if Belongs(reversals, replacements, last.origin, review) then LineNet(last.lines, a) else 0
  }

  /** The lines of the head evidence unless it is reversed; before there is evidence, the regularizing entry. */
  ghost function HeadNet(entries: seq<Entry>, evidences: seq<Evidence>, review: nat, a: nat): int {
    var h := HeadOf(evidences, review);
    var x := FindEntry(entries, WaiverRegularization(review));
    if h.Some? then
      if evidences[h.value].entry >= |entries| || ReversedBy(entries, evidences[h.value].entry) then 0
      else LineNet(entries[evidences[h.value].entry].lines, a)
    else if x.Some? then LineNet(entries[x.value].lines, a)
    else 0
  }

  ghost predicate ChainsNet(f: Files) {
    forall review: nat, a: nat ::
      ChainNet(f.reversals, f.replacements, f.ledger.entries, review, a) == HeadNet(f.ledger.entries, f.evidences, review, a)
  }

  ghost predicate FilesInv(f: Files) {
    && Inv(f.ledger)
    && Chained(f.ledger.entries, f.evidences)
    && ReviewsSound(f.reviews, f.evidences)
    && ReversalsSound(f.ledger, f.reviews, f.evidences, f.reversals)
    && ReplacementsSound(f.ledger, f.reviews, f.evidences, f.replacements)
    && ResultsSound(f.evidences, f.replacements)
    && WaiverEntriesSound(f)
    && ChainsNet(f)
  }

  lemma NoFilesHold()
    ensures FilesInv(NO_FILES)
  {
    hide Inv;
    EmptyHolds();
  }

  // ---------- small facts ----------

  lemma HeadSnoc(evidences: seq<Evidence>, e: Evidence, review: nat)
    ensures e.review != review ==> HeadOf(evidences + [e], review) == HeadOf(evidences, review)
    ensures e.review == review && (HeadOf(evidences, review).None? || evidences[HeadOf(evidences, review).value].sequence < e.sequence)
            ==> HeadOf(evidences + [e], review) == Some(|evidences|)
  {
    assert (evidences + [e])[..|evidences|] == evidences;
  }

  lemma ChainSnoc(reversals: seq<ReversalRequest>, replacements: seq<ReplacementRequest>, entries: seq<Entry>, e: Entry, review: nat, a: nat)
    ensures ChainNet(reversals, replacements, entries + [e], review, a)
         == ChainNet(reversals, replacements, entries, review, a)
            + if Belongs(reversals, replacements, e.origin, review) then LineNet(e.lines, a) else 0
  {
    assert (entries + [e])[..|entries|] == entries;
  }

  lemma ReversedSnoc(entries: seq<Entry>, e: Entry, x: nat)
    ensures ReversedBy(entries + [e], x) <==> ReversedBy(entries, x) || e.reverses == Some(x)
  {
    assert (entries + [e])[|entries|] == e;
    if ReversedBy(entries, x) {
      var j :| 0 <= j < |entries| && entries[j].reverses == Some(x);
      assert (entries + [e])[j].reverses == Some(x);
    }
  }

  lemma OriginSnoc(entries: seq<Entry>, e: Entry, origin: Origin)
    ensures HasEntry(entries + [e], origin) <==> HasEntry(entries, origin) || e.origin == origin
    ensures e.origin != origin ==> FindEntry(entries + [e], origin) == FindEntry(entries, origin)
    ensures e.origin == origin ==> FindEntry(entries + [e], origin) == Some(|entries|)
  {
    assert (entries + [e])[..|entries|] == entries;
    assert (entries + [e])[|entries|] == e;
    if HasEntry(entries, origin) {
      var k :| 0 <= k < |entries| && entries[k].origin == origin;
      assert (entries + [e])[k].origin == origin;
    }
  }

  /** Requests keep their review, so entries keep their chain. */
  ghost predicate SameReviews(reversals: seq<ReversalRequest>, reversals': seq<ReversalRequest>, replacements: seq<ReplacementRequest>, replacements': seq<ReplacementRequest>) {
    && |reversals| <= |reversals'| && |replacements| <= |replacements'|
    && (forall q :: 0 <= q < |reversals| ==> reversals'[q].review == reversals[q].review)
    && (forall q :: 0 <= q < |replacements| ==> replacements'[q].review == replacements[q].review)
  }

  ghost predicate RequestsKnown(reversals: seq<ReversalRequest>, replacements: seq<ReplacementRequest>, entries: seq<Entry>) {
    forall k :: 0 <= k < |entries| ==>
      (entries[k].origin.WaiverReversal? ==> entries[k].origin.request < |reversals|)
      && (entries[k].origin.WaiverReplacement? ==> entries[k].origin.request < |replacements|)
  }

  lemma {:induction false} ChainNetStays(reversals: seq<ReversalRequest>, reversals': seq<ReversalRequest>,
                                         replacements: seq<ReplacementRequest>, replacements': seq<ReplacementRequest>, entries: seq<Entry>, review: nat, a: nat)
    requires SameReviews(reversals, reversals', replacements, replacements') && RequestsKnown(reversals, replacements, entries)
    ensures ChainNet(reversals', replacements', entries, review, a) == ChainNet(reversals, replacements, entries, review, a)
  {
    if entries != [] {
      var front := entries[..|entries| - 1];
      assert forall k :: 0 <= k < |front| ==> front[k] == entries[k];
      ChainNetStays(reversals, reversals', replacements, replacements', front, review, a);
    }
  }

  lemma KnownFromSound(f: Files)
    requires WaiverEntriesSound(f)
    ensures RequestsKnown(f.reversals, f.replacements, f.ledger.entries)
  {
    forall k | 0 <= k < |f.ledger.entries|
      ensures f.ledger.entries[k].origin.WaiverReversal? ==> f.ledger.entries[k].origin.request < |f.reversals|
      ensures f.ledger.entries[k].origin.WaiverReplacement? ==> f.ledger.entries[k].origin.request < |f.replacements|
    {
      assert WaiverEntrySound(f, f.ledger.entries[k]);
    }
  }
}
