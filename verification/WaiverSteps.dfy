/**
 Every move on waiver evidence keeps the invariant of the files.
 */
module WaiverSteps {
  import opened Ledger
  import opened Settlement
  import opened FiscalCycle
  import opened CycleInvariant
  import opened CycleSteps
  import opened Waiver
  import opened WaiverInvariant

  // ---------- tables that only grow ----------

  ghost predicate Onward(f: Files, f': Files) {
    && f.ledger.entries <= f'.ledger.entries
    && |f.reviews| <= |f'.reviews|
    && SameReviews(f.reversals, f'.reversals, f.replacements, f'.replacements)
    && (forall q :: 0 <= q < |f.reversals| ==> f'.reversals[q].target == f.reversals[q].target)
    && (forall q :: 0 <= q < |f.replacements| ==> f'.replacements[q].lines == f.replacements[q].lines)
  }

  lemma EntryStaysSound(f: Files, f': Files, e: Entry)
    requires Onward(f, f') && WaiverEntrySound(f, e)
    ensures WaiverEntrySound(f', e)
  {
  }

  /** No new entries. */
  lemma EntriesStaySound(f: Files, f': Files)
    requires Onward(f, f') && f'.ledger.entries == f.ledger.entries && WaiverEntriesSound(f)
    ensures WaiverEntriesSound(f')
  {
    hide WaiverEntrySound, Onward;
    forall k | 0 <= k < |f.ledger.entries| ensures WaiverEntrySound(f', f'.ledger.entries[k]) {
      assert WaiverEntrySound(f, f.ledger.entries[k]);
      EntryStaysSound(f, f', f.ledger.entries[k]);
    }
  }

  /** One new entry, under an origin not used before. */
  lemma EntriesAppendSound(f: Files, f': Files, e: Entry)
    requires Onward(f, f') && f'.ledger.entries == f.ledger.entries + [e] && WaiverEntriesSound(f)
    requires WaiverEntrySound(f', e) && !HasEntry(f.ledger.entries, e.origin)
    ensures WaiverEntriesSound(f')
  {
    hide WaiverEntrySound, Onward;
    var n := |f.ledger.entries|;
    forall k | 0 <= k < |f'.ledger.entries| ensures WaiverEntrySound(f', f'.ledger.entries[k]) {
      if k < n {
        assert WaiverEntrySound(f, f.ledger.entries[k]);
        EntryStaysSound(f, f', f.ledger.entries[k]);
      }
    }
    forall j, k | 0 <= j < k < |f'.ledger.entries| && IsWaiver(f'.ledger.entries[j].origin)
      ensures f'.ledger.entries[j].origin != f'.ledger.entries[k].origin
    {
      assert f'.ledger.entries[j] == f.ledger.entries[j];
      if k < n { assert f'.ledger.entries[k] == f.ledger.entries[k]; }
    }
  }

  // ---------- reviews ----------

  ghost predicate ReviewsProgress(reviews: seq<Review>, reviews': seq<Review>) {
    |reviews| <= |reviews'| && forall r :: 0 <= r < |reviews| && reviews[r].closedBy.Some? ==> reviews'[r] == reviews[r]
  }

  // ---------- rows of requests ----------

  lemma ReversalRowStays(s: State, s': State, reviews: seq<Review>, reviews': seq<Review>, evidences: seq<Evidence>, evidences': seq<Evidence>, q: nat, r: ReversalRequest)
    requires ReversalRow(s, reviews, evidences, q, r)
    requires ReviewsProgress(reviews, reviews') && evidences <= evidences' && s.entries <= s'.entries && SameNumbers(s.years, s'.years)
    requires r.status == Awaiting ==> HeadOf(evidences', r.review) == HeadOf(evidences, r.review) && !ReversedBy(s'.entries, r.target)
    requires HasEntry(s'.entries, WaiverReversal(q)) ==> HasEntry(s.entries, WaiverReversal(q))
    ensures ReversalRow(s', reviews', evidences', q, r)
  {
    if HasEntry(s.entries, WaiverReversal(q)) { EntryInLonger(s.entries, s'.entries, WaiverReversal(q)); }
    if ReversedBy(s.entries, r.target) { ReversedInLonger(s.entries, s'.entries, r.target); }
  }

  lemma ReplacementRowStays(s: State, s': State, reviews: seq<Review>, reviews': seq<Review>, evidences: seq<Evidence>, evidences': seq<Evidence>, q: nat, r: ReplacementRequest)
    requires ReplacementRow(s, reviews, evidences, q, r)
    requires ReviewsProgress(reviews, reviews') && evidences <= evidences' && s.entries <= s'.entries && SameNumbers(s.years, s'.years)
    requires r.status == Awaiting ==> HeadOf(evidences', r.review) == HeadOf(evidences, r.review)
    requires HasEntry(s'.entries, WaiverReplacement(q)) ==> HasEntry(s.entries, WaiverReplacement(q))
    ensures ReplacementRow(s', reviews', evidences', q, r)
  {
    if HasEntry(s.entries, WaiverReplacement(q)) { EntryInLonger(s.entries, s'.entries, WaiverReplacement(q)); }
    if ReversedBy(s.entries, evidences[r.source].entry) { ReversedInLonger(s.entries, s'.entries, evidences[r.source].entry); }
  }

  lemma ReversedInLonger(entries: seq<Entry>, longer: seq<Entry>, x: nat)
    requires entries <= longer && ReversedBy(entries, x)
    ensures ReversedBy(longer, x)
  {
    var k :| 0 <= k < |entries| && entries[k].reverses == Some(x);
    assert longer[k].reverses == Some(x);
  }

  lemma SameNumbersReflexive(years: seq<FiscalYear>)
    ensures SameNumbers(years, years)
  {
  }

  // ---------- the line of evidence ----------

  lemma RowStays(entries: seq<Entry>, entries': seq<Entry>, evidences: seq<Evidence>, evidences': seq<Evidence>, k: nat)
    requires entries <= entries' && evidences <= evidences' && k < |evidences| && RowSound(entries, evidences, k)
    ensures RowSound(entries', evidences', k)
  {
    assert evidences'[..k] == evidences[..k];
    var h := HeadOf(evidences[..k], evidences[k].review);
    if h.Some? { ReversedInLonger(entries, entries', evidences[h.value].entry); }
  }

  lemma ChainedStays(entries: seq<Entry>, entries': seq<Entry>, evidences: seq<Evidence>)
    requires entries <= entries' && Chained(entries, evidences)
    ensures Chained(entries', evidences)
  {
    hide RowSound;
    forall k | 0 <= k < |evidences| ensures RowSound(entries', evidences, k) {
      assert RowSound(entries, evidences, k);
      RowStays(entries, entries', evidences, evidences, k);
    }
  }

  lemma ChainedAppend(entries: seq<Entry>, evidences: seq<Evidence>, e: Evidence)
    requires Chained(entries, evidences) && RowSound(entries, evidences + [e], |evidences|)
    ensures Chained(entries, evidences + [e])
  {
    hide RowSound;
    forall k | 0 <= k < |evidences + [e]| ensures RowSound(entries, evidences + [e], k) {
      if k < |evidences| {
        assert RowSound(entries, evidences, k);
        RowStays(entries, entries, evidences, evidences + [e], k);
      }
    }
  }

  lemma EntryExists(entries: seq<Entry>, evidences: seq<Evidence>, k: nat)
    requires Chained(entries, evidences) && k < |evidences|
    ensures evidences[k].entry < |entries| && IsWaiver(entries[evidences[k].entry].origin) && evidences[k].sequence >= 1
    decreases k
  {
    assert RowSound(entries, evidences, k);
    var h := HeadOf(evidences[..k], evidences[k].review);
    if h.Some? { EntryExists(entries, evidences, h.value); }
  }

  // ---------- moves that post nothing ----------

  /** The ledger and the evidence stay; the requests that stay pending stay as they are. */
  lemma RequestsUnderSameEntries(f: Files, f': Files)
    requires f'.ledger == f.ledger && f'.evidences == f.evidences && ReviewsProgress(f.reviews, f'.reviews)
    requires ReversalsSound(f.ledger, f.reviews, f.evidences, f.reversals) && ReplacementsSound(f.ledger, f.reviews, f.evidences, f.replacements)
    ensures ReversalsSound(f.ledger, f'.reviews, f.evidences, f.reversals)
    ensures ReplacementsSound(f.ledger, f'.reviews, f.evidences, f.replacements)
  {
    hide ReversalRow, ReplacementRow, ReviewsProgress;
    SameNumbersReflexive(f.ledger.years);
    forall q | 0 <= q < |f.reversals| ensures ReversalRow(f.ledger, f'.reviews, f.evidences, q, f.reversals[q]) {
      assert ReversalRow(f.ledger, f.reviews, f.evidences, q, f.reversals[q]);
      AwaitingUnreversed(f.ledger, f.reviews, f.evidences, q, f.reversals[q]);
      ReversalRowStays(f.ledger, f.ledger, f.reviews, f'.reviews, f.evidences, f.evidences, q, f.reversals[q]);
    }
    forall q | 0 <= q < |f.replacements| ensures ReplacementRow(f.ledger, f'.reviews, f.evidences, q, f.replacements[q]) {
      assert ReplacementRow(f.ledger, f.reviews, f.evidences, q, f.replacements[q]);
      ReplacementRowStays(f.ledger, f.ledger, f.reviews, f'.reviews, f.evidences, f.evidences, q, f.replacements[q]);
    }
  }

  lemma AwaitingUnreversed(s: State, reviews: seq<Review>, evidences: seq<Evidence>, q: nat, r: ReversalRequest)
    requires ReversalRow(s, reviews, evidences, q, r)
    ensures r.status == Awaiting ==> !ReversedBy(s.entries, r.target)
  {
  }

  lemma OpenReviewKeeps(f: Files, openedBy: nat, assignee: nat)
    requires FilesInv(f)
    ensures FilesInv(OpenReview(f, openedBy, assignee).0)
  {
    hide Inv, ReversalsSound, ReplacementsSound, Chained, WaiverEntriesSound, HeadNet, ChainNet;
    var f' := OpenReview(f, openedBy, assignee).0;
    RequestsUnderSameEntries(f, f');
    assert Onward(f, f');
    EntriesStaySound(f, f');
  }

  lemma ChainsUnderSameEntries(f: Files, f': Files)
    requires f'.ledger == f.ledger && f'.evidences == f.evidences && Onward(f, f') && ChainsNet(f) && WaiverEntriesSound(f)
    ensures ChainsNet(f')
  {
    hide HeadNet, WaiverEntriesSound;
    KnownFromSound(f);
    forall review: nat, a: nat
      ensures ChainNet(f'.reversals, f'.replacements, f'.ledger.entries, review, a) == HeadNet(f'.ledger.entries, f'.evidences, review, a)
    {
      ChainNetStays(f.reversals, f'.reversals, f.replacements, f'.replacements, f.ledger.entries, review, a);
    }
  }

  /** A new or changed reversal request, with the ledger and the evidence as they were. */
  lemma ReversalsChangeKeeps(f: Files, reversals: seq<ReversalRequest>)
    requires FilesInv(f) && Onward(f, f.(reversals := reversals))
    requires ReversalsSound(f.ledger, f.reviews, f.evidences, reversals)
    ensures FilesInv(f.(reversals := reversals))
  {
    hide Inv, ReversalsSound, ReplacementsSound, Chained, WaiverEntriesSound, ReviewsSound, ChainsNet, Onward;
    EntriesStaySound(f, f.(reversals := reversals));
    ChainsUnderSameEntries(f, f.(reversals := reversals));
  }

  lemma ReplacementsChangeKeeps(f: Files, replacements: seq<ReplacementRequest>)
    requires FilesInv(f) && Onward(f, f.(replacements := replacements))
    requires ReplacementsSound(f.ledger, f.reviews, f.evidences, replacements) && ResultsSound(f.evidences, replacements)
    ensures FilesInv(f.(replacements := replacements))
  {
    hide ResultsSound, Inv, ReversalsSound, ReplacementsSound, Chained, WaiverEntriesSound, ReviewsSound, ChainsNet, Onward;
    EntriesStaySound(f, f.(replacements := replacements));
    ChainsUnderSameEntries(f, f.(replacements := replacements));
  }

  lemma FinishReversalKeeps(f: Files, q: nat, reject: bool, actor: nat)
    requires FilesInv(f)
    ensures FilesInv(FinishReversal(f, q, reject, actor).0)
  {
    hide FilesInv;
    var (f', v) := FinishReversal(f, q, reject, actor);
    if v.Granted? {
      FinishedReversals(f, q, f'.reversals[q]);
      ReversalsChangeKeeps(f, f'.reversals);
    }
  }

  lemma FinishedReversals(f: Files, q: nat, row: ReversalRequest)
    requires FilesInv(f) && q < |f.reversals| && f.reversals[q].status == Awaiting
    requires row == f.reversals[q].(status := row.status, version := 2) && (row.status == Declined || row.status == Withdrawn)
    ensures ReversalsSound(f.ledger, f.reviews, f.evidences, f.reversals[q := row])
    ensures Onward(f, f.(reversals := f.reversals[q := row]))
  {
    hide Inv, ReplacementsSound, Chained, WaiverEntriesSound, ReviewsSound, ChainsNet, InYear, Independent;
    var reversals := f.reversals[q := row];
    forall p | 0 <= p < |reversals| ensures ReversalRow(f.ledger, f.reviews, f.evidences, p, reversals[p]) {
      assert ReversalRow(f.ledger, f.reviews, f.evidences, p, f.reversals[p]);
    }
  }

  lemma FinishReplacementKeeps(f: Files, q: nat, reject: bool, actor: nat)
    requires FilesInv(f)
    ensures FilesInv(FinishReplacement(f, q, reject, actor).0)
  {
    hide FilesInv;
    var (f', v) := FinishReplacement(f, q, reject, actor);
    if v.Granted? {
      FinishedReplacements(f, q, f'.replacements[q]);
      ReplacementsChangeKeeps(f, f'.replacements);
    }
  }

  lemma FinishedReplacements(f: Files, q: nat, row: ReplacementRequest)
    requires FilesInv(f) && q < |f.replacements| && f.replacements[q].status == Awaiting
    requires row == f.replacements[q].(status := row.status, version := 2) && (row.status == Declined || row.status == Withdrawn)
    ensures ReplacementsSound(f.ledger, f.reviews, f.evidences, f.replacements[q := row])
    ensures ResultsSound(f.evidences, f.replacements[q := row])
    ensures Onward(f, f.(replacements := f.replacements[q := row]))
  {
    hide Inv, ReversalsSound, Chained, WaiverEntriesSound, ReviewsSound, ChainsNet, InYear, Independent, LinesBalance, NonNegative;
    var replacements := f.replacements[q := row];
    forall p | 0 <= p < |replacements| ensures ReplacementRow(f.ledger, f.reviews, f.evidences, p, replacements[p]) {
      assert ReplacementRow(f.ledger, f.reviews, f.evidences, p, f.replacements[p]);
    }
  }

  lemma NoEntryYet(f: Files, origin: Origin)
    requires WaiverEntriesSound(f)
    requires (origin.WaiverReversal? && origin.request >= |f.reversals|) || (origin.WaiverReplacement? && origin.request >= |f.replacements|)
    ensures !HasEntry(f.ledger.entries, origin)
  {
    forall k | 0 <= k < |f.ledger.entries| ensures f.ledger.entries[k].origin != origin {
      assert WaiverEntrySound(f, f.ledger.entries[k]);
    }
  }

  /** An entry of the evidence without an active reversal has not been reversed. */
  lemma InactiveUnreversed(f: Files, h: nat)
    requires FilesInv(f) && h < |f.evidences| && !ActiveReversal(f.reversals, h, f.evidences[h].entry)
    ensures !ReversedBy(f.ledger.entries, f.evidences[h].entry)
  {
    hide Inv, ChainsNet, ReplacementsSound, ReviewsSound;
    var es, x := f.ledger.entries, f.evidences[h].entry;
    EntryExists(es, f.evidences, h);
    forall j | 0 <= j < |es| ensures es[j].reverses != Some(x) {
      assert WaiverEntrySound(f, es[j]);
      if es[j].origin.WaiverReversal? {
        var q := es[j].origin.request;
        assert ReversalRow(f.ledger, f.reviews, f.evidences, q, f.reversals[q]);
        assert HasEntry(es, WaiverReversal(q));
      }
    }
  }

  lemma RequestReversalKeeps(f: Files, review: nat, duplicate: bool, date: int, actor: nat)
    requires FilesInv(f)
    ensures FilesInv(RequestReversal(f, review, duplicate, date, actor).0)
  {
    hide FilesInv, ActiveReversal, IsParty;
    var (f', v) := RequestReversal(f, review, duplicate, date, actor);
    if v.Granted? {
      var row := f'.reversals[|f.reversals|];
      InactiveUnreversed(f, row.evidence);
      NewReversals(f, row);
      ReversalsChangeKeeps(f, f'.reversals);
    }
  }

  lemma NewReversals(f: Files, row: ReversalRequest)
    requires FilesInv(f)
    requires row.status == Awaiting && row.version == 1 && row.approvedBy.None?
    requires ClosedReview(f.reviews, row.review) && Independent(f.reviews, row.review, row.requestedBy, None)
    requires HeadOf(f.evidences, row.review) == Some(row.evidence) && f.evidences[row.evidence].entry == row.target
    requires row.target < |f.ledger.entries| && InYear(f.ledger.years, f.ledger.entries[row.target].fiscalYear, row.date)
    requires !ReversedBy(f.ledger.entries, row.target) && !ActiveReversal(f.reversals, row.evidence, row.target)
    ensures ReversalsSound(f.ledger, f.reviews, f.evidences, f.reversals + [row])
    ensures Onward(f, f.(reversals := f.reversals + [row]))
  {
    hide Inv, ReplacementsSound, Chained, ReviewsSound, ChainsNet, InYear;
    NoEntryYet(f, WaiverReversal(|f.reversals|));
    hide WaiverEntriesSound;
    var reversals := f.reversals + [row];
    forall p | 0 <= p < |reversals| ensures ReversalRow(f.ledger, f.reviews, f.evidences, p, reversals[p]) {
      if p < |f.reversals| { assert ReversalRow(f.ledger, f.reviews, f.evidences, p, f.reversals[p]); }
    }
  }

  lemma CompletedIsReversed(f: Files, q: nat)
    requires FilesInv(f) && q < |f.reversals| && f.reversals[q].status == Fulfilled
    ensures f.reversals[q].evidence < |f.evidences| && f.evidences[f.reversals[q].evidence].entry < |f.ledger.entries|
    ensures ReversedBy(f.ledger.entries, f.evidences[f.reversals[q].evidence].entry)
  {
    assert ReversalRow(f.ledger, f.reviews, f.evidences, q, f.reversals[q]);
  }

  lemma RequestReplacementKeeps(f: Files, review: nat, date: int, lines: seq<Line>, actor: nat)
    requires FilesInv(f)
    ensures FilesInv(RequestReplacement(f, review, date, lines, actor).0)
  {
    hide FilesInv, ActiveReplacement, ReversalReplaced, IsParty, LinesBalance, NonNegative, ActivePostable;
    var (f', v) := RequestReplacement(f, review, date, lines, actor);
    if v.Granted? {
      var row := f'.replacements[|f.replacements|];
      CompletedIsReversed(f, row.reversal);
      NewReplacements(f, row);
      ReplacementsChangeKeeps(f, f'.replacements);
    }
  }

  lemma NewReplacements(f: Files, row: ReplacementRequest)
    requires FilesInv(f)
    requires row.status == Awaiting && row.version == 1 && row.approvedBy.None?
    requires ClosedReview(f.reviews, row.review) && Independent(f.reviews, row.review, row.requestedBy, None)
    requires HeadOf(f.evidences, row.review) == Some(row.source) && f.evidences[row.source].entry < |f.ledger.entries|
    requires ReversedBy(f.ledger.entries, f.evidences[row.source].entry)
    requires InYear(f.ledger.years, row.fiscalYear, row.date) && NonNegative(row.lines) && LinesBalance(row.lines)
    requires !ActiveReplacement(f.replacements, row.source)
    ensures ReplacementsSound(f.ledger, f.reviews, f.evidences, f.replacements + [row])
    ensures ResultsSound(f.evidences, f.replacements + [row])
    ensures Onward(f, f.(replacements := f.replacements + [row]))
  {
    hide Inv, ReversalsSound, Chained, ReviewsSound, ChainsNet, InYear, LinesBalance, NonNegative;
    NoEntryYet(f, WaiverReplacement(|f.replacements|));
    hide WaiverEntriesSound;
    var replacements := f.replacements + [row];
    forall p | 0 <= p < |replacements| ensures ReplacementRow(f.ledger, f.reviews, f.evidences, p, replacements[p]) {
      if p < |f.replacements| { assert ReplacementRow(f.ledger, f.reviews, f.evidences, p, f.replacements[p]); }
    }
  }
}
