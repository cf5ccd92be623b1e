/**
 The moves that post entries or add evidence keep the invariant of the files.
 */
module WaiverPostings {
  import opened Ledger
  import opened Settlement
  import opened FiscalCycle
  import opened CycleInvariant
  import opened CycleSteps
  import opened CycleClose
  import opened CycleCloseKeeps
  import opened CycleReopenKeeps
  import opened CycleRuns
  import opened Waiver
  import opened WaiverInvariant
  import opened WaiverSteps

  // ---------- completing a review ----------

  ghost predicate CompleteDone(f: Files, f': Files, review: nat, actor: nat, x: nat) {
    && review < |f.reviews| && f.reviews[review].closedBy.None?
    && FindEntry(f.ledger.entries, WaiverRegularization(review)) == Some(x)
    && !ReversedBy(f.ledger.entries, x)
    && f' == f.(evidences := f.evidences + [Evidence(review, x, 1, None, None)],
                reviews := f.reviews[review := f.reviews[review].(closedBy := Some(actor))])
  }

  lemma NoHeadYet(f: Files, review: nat)
    requires ReviewsSound(f.reviews, f.evidences) && review < |f.reviews| && f.reviews[review].closedBy.None?
    ensures HeadOf(f.evidences, review).None?
  {
  }

  lemma HeadsAfterFirst(evidences: seq<Evidence>, e: Evidence)
    requires HeadOf(evidences, e.review).None?
    ensures forall r: nat :: HeadOf(evidences + [e], r) == if r == e.review then Some(|evidences|) else HeadOf(evidences, r)
  {
    forall r: nat ensures HeadOf(evidences + [e], r) == if r == e.review then Some(|evidences|) else HeadOf(evidences, r) {
      HeadSnoc(evidences, e, r);
    }
  }

  lemma ResultsBeside(evidences: seq<Evidence>, e: Evidence, replacements: seq<ReplacementRequest>)
    requires ResultsSound(evidences, replacements) && e.replacement.None?
    ensures ResultsSound(evidences + [e], replacements)
  {
    var all := evidences + [e];
    forall q: nat | q < |replacements| && replacements[q].status == Fulfilled ensures HasResult(all, q) {
      assert HasResult(evidences, q);
      var k :| 0 <= k < |evidences| && evidences[k].replacement == Some(q);
      assert all[k].replacement == Some(q);
    }
  }

  lemma RequestsAfterComplete(f: Files, f': Files, review: nat, actor: nat, x: nat)
    requires FilesInv(f) && CompleteDone(f, f', review, actor, x)
    ensures ReversalsSound(f.ledger, f'.reviews, f'.evidences, f.reversals)
    ensures ReplacementsSound(f.ledger, f'.reviews, f'.evidences, f.replacements)
    ensures ReviewsSound(f'.reviews, f'.evidences) && ResultsSound(f'.evidences, f.replacements)
  {
    NoHeadYet(f, review);
    HeadsAfterFirst(f.evidences, f'.evidences[|f.evidences|]);
    ResultsBeside(f.evidences, f'.evidences[|f.evidences|], f.replacements);
    SameNumbersReflexive(f.ledger.years);
    hide Inv, Chained, WaiverEntriesSound, ChainsNet, InYear, Independent, LinesBalance, NonNegative, FindEntry, ReversedBy, SameNumbers;
    assert forall r :: 0 <= r < |f.reviews| && f.reviews[r].closedBy.Some? ==> r != review;
    forall q | 0 <= q < |f.reversals| ensures ReversalRow(f.ledger, f'.reviews, f'.evidences, q, f.reversals[q]) {
      assert ReversalRow(f.ledger, f.reviews, f.evidences, q, f.reversals[q]);
      ReversalRowStays(f.ledger, f.ledger, f.reviews, f'.reviews, f.evidences, f'.evidences, q, f.reversals[q]);
    }
    forall q | 0 <= q < |f.replacements| ensures ReplacementRow(f.ledger, f'.reviews, f'.evidences, q, f.replacements[q]) {
      assert ReplacementRow(f.ledger, f.reviews, f.evidences, q, f.replacements[q]);
      ReplacementRowStays(f.ledger, f.ledger, f.reviews, f'.reviews, f.evidences, f'.evidences, q, f.replacements[q]);
    }
  }

  lemma ChainsAfterComplete(f: Files, f': Files, review: nat, actor: nat, x: nat)
    requires FilesInv(f) && CompleteDone(f, f', review, actor, x)
    ensures Chained(f.ledger.entries, f'.evidences) && ChainsNet(f')
  {
    hide Inv, ReversalsSound, ReplacementsSound, WaiverEntriesSound, ChainNet, ResultsSound, LineNet, FindEntry, ReversedBy, HeadOf;
    NoHeadYet(f, review);
    var e := f'.evidences[|f.evidences|];
    assert f'.evidences[..|f.evidences|] == f.evidences;
    assert RowSound(f.ledger.entries, f'.evidences, |f.evidences|);
    ChainedAppend(f.ledger.entries, f.evidences, e);
    HeadsAfterFirst(f.evidences, e);
    forall r: nat, a: nat ensures HeadNet(f.ledger.entries, f'.evidences, r, a) == HeadNet(f.ledger.entries, f.evidences, r, a) {
    }
  }

  lemma CompleteReviewKeeps(f: Files, review: nat, actor: nat)
    requires FilesInv(f)
    ensures FilesInv(CompleteReview(f, review, actor).0)
  {
    hide Inv, ReversalsSound, ReplacementsSound, Chained, ReviewsSound, ChainsNet, WaiverEntriesSound;
    var (f', v) := CompleteReview(f, review, actor);
    if v.Granted? {
      var x := FindEntry(f.ledger.entries, WaiverRegularization(review)).value;
      RequestsAfterComplete(f, f', review, actor, x);
      ChainsAfterComplete(f, f', review, actor, x);
      EntriesStaySound(f, f');
    }
  }

  // ---------- a new entry beside unchanged requests ----------

  /** The entry is none of the entries the requests wait for, and reverses none of their targets. */
  lemma RequestsUnderEntry(f: Files, s': State, e: Entry)
    requires ReversalsSound(f.ledger, f.reviews, f.evidences, f.reversals) && ReplacementsSound(f.ledger, f.reviews, f.evidences, f.replacements)
    requires s' == f.ledger.(entries := f.ledger.entries + [e])
    requires !e.origin.WaiverReversal? && !e.origin.WaiverReplacement? && e.reverses.None?
    ensures ReversalsSound(s', f.reviews, f.evidences, f.reversals)
    ensures ReplacementsSound(s', f.reviews, f.evidences, f.replacements)
  {
    hide InYear, Independent, LinesBalance, NonNegative, ReversalRow, ReplacementRow;
    SameNumbersReflexive(f.ledger.years);
    forall q | 0 <= q < |f.reversals| ensures ReversalRow(s', f.reviews, f.evidences, q, f.reversals[q]) {
      assert ReversalRow(f.ledger, f.reviews, f.evidences, q, f.reversals[q]);
      AwaitingUnreversed(f.ledger, f.reviews, f.evidences, q, f.reversals[q]);
      ReversedSnoc(f.ledger.entries, e, f.reversals[q].target);
      OriginSnoc(f.ledger.entries, e, WaiverReversal(q));
      ReversalRowStays(f.ledger, s', f.reviews, f.reviews, f.evidences, f.evidences, q, f.reversals[q]);
    }
    forall q | 0 <= q < |f.replacements| ensures ReplacementRow(s', f.reviews, f.evidences, q, f.replacements[q]) {
      assert ReplacementRow(f.ledger, f.reviews, f.evidences, q, f.replacements[q]);
      OriginSnoc(f.ledger.entries, e, WaiverReplacement(q));
      ReplacementRowStays(f.ledger, s', f.reviews, f.reviews, f.evidences, f.evidences, q, f.replacements[q]);
    }
  }

  /** A waiver entry dated in an open year is accepted by the ledger. */
  lemma WaiverPosts(s: State, y: nat, year: int, date: int, origin: Origin, reverses: Option<nat>, debit: int, credit: int, lines: seq<Line>)
    requires Inv(s) && InYear(s.years, y, date) && s.years[y].status == Open && year == s.years[y].year
    requires LinesInYear(s.accounts, lines, y) && debit == DebitTotal(lines) && credit == CreditTotal(lines)
    requires IsWaiver(origin)
    requires reverses.Some? ==> reverses.value < |s.entries| && !ReversedBy(s.entries, reverses.value)
                                && !IsAutomatic(s.entries[reverses.value].origin)
    ensures var e := NumberedEntry(s.entries, y, year, date, origin, reverses, debit, credit, lines);
            TableAccepts(e) ==> Inv(s.(entries := s.entries + [e]))
  {
    DateFindsYear(s, y, date);
    hide Inv;
    InsertKeeps(s, y, date, origin, reverses, lines);
  }

  // ---------- the regularizing entry ----------

  ghost predicate PostDone(f: Files, f': Files, review: nat, date: int, lines: seq<Line>, y: nat, e: Entry) {
    && review < |f.reviews| && f.reviews[review].closedBy.None?
    && OpenYearAt(f.ledger.years, date) == Some(y) && LinesInYear(f.ledger.accounts, lines, y)
    && FindEntry(f.ledger.entries, WaiverRegularization(review)).None?
    && e == NumberedEntry(f.ledger.entries, y, YearOf(date), date, WaiverRegularization(review), None, DebitTotal(lines), CreditTotal(lines), lines)
    && TableAccepts(e)
    && f' == f.(ledger := f.ledger.(entries := f.ledger.entries + [e]))
  }

  lemma PostDoneKeeps(f: Files, f': Files, review: nat, date: int, lines: seq<Line>, y: nat, e: Entry)
    requires FilesInv(f) && PostDone(f, f', review, date, lines, y, e)
    ensures FilesInv(f')
  {
    hide Inv, ReversalsSound, ReplacementsSound, Chained, ReviewsSound, ChainsNet, TableAccepts, LinesInYear;
    InsertKeeps(f.ledger, y, date, WaiverRegularization(review), None, lines);
    ChainedStays(f.ledger.entries, f'.ledger.entries, f.evidences);
    RequestsUnderEntry(f, f'.ledger, e);
    assert !HasEntry(f.ledger.entries, WaiverRegularization(review));
    EntriesAppendSound(f, f', e);
    ChainsAfterPost(f, f', review, e);
  }

  lemma ChainsAfterPost(f: Files, f': Files, review: nat, e: Entry)
    requires ChainsNet(f) && Chained(f.ledger.entries, f.evidences) && ReviewsSound(f.reviews, f.evidences)
    requires review < |f.reviews| && f.reviews[review].closedBy.None?
    requires FindEntry(f.ledger.entries, WaiverRegularization(review)).None?
    requires e.origin == WaiverRegularization(review) && e.reverses.None?
    requires f' == f.(ledger := f.ledger.(entries := f.ledger.entries + [e]))
    ensures ChainsNet(f')
  {
    hide Chained, RowSound, ReviewsSound, Inv, ChainNet, LineNet;
    var es := f.ledger.entries;
    assert HeadOf(f.evidences, review).None? by { NoHeadYet(f, review); }
    forall r: nat, a: nat
      ensures ChainNet(f'.reversals, f'.replacements, f'.ledger.entries, r, a) == HeadNet(f'.ledger.entries, f'.evidences, r, a)
    {
      ChainSnoc(f.reversals, f.replacements, es, e, r, a);
      OriginSnoc(es, e, WaiverRegularization(r));
      var h := HeadOf(f.evidences, r);
      if h.Some? {
        EntryExists(es, f.evidences, h.value);
        ReversedSnoc(es, e, f.evidences[h.value].entry);
      }
      assert ChainNet(f.reversals, f.replacements, es, r, a) == HeadNet(es, f.evidences, r, a);
    }
  }

  lemma PostKeeps(f: Files, review: nat, date: int, lines: seq<Line>)
    requires FilesInv(f)
    ensures FilesInv(PostWaiverRegularization(f, review, date, lines).0)
  {
    hide FilesInv, TableAccepts, HasSide, NonNegative;
    var (f', v) := PostWaiverRegularization(f, review, date, lines);
    if v.Granted? {
      var y := OpenYearAt(f.ledger.years, date).value;
      var e := NumberedEntry(f.ledger.entries, y, YearOf(date), date, WaiverRegularization(review), None, DebitTotal(lines), CreditTotal(lines), lines);
      PostDoneKeeps(f, f', review, date, lines, y, e);
    }
  }

  // ---------- approving a reversal ----------

  ghost predicate ReversalDone(f: Files, f': Files, q: nat, actor: nat, e: Entry) {
    && q < |f.reversals| && f.reversals[q].status == Awaiting
    && f.reversals[q].review < |f.reviews| && f.reversals[q].target < |f.ledger.entries|
    && f.reversals[q].requestedBy != actor && !IsParty(f.reviews[f.reversals[q].review], actor)
    && var request, target := f.reversals[q], f.ledger.entries[f.reversals[q].target];
    && target.fiscalYear < |f.ledger.years| && f.ledger.years[target.fiscalYear].status == Open
    && e == NumberedEntry(f.ledger.entries, target.fiscalYear, target.year, request.date, WaiverReversal(q), Some(request.target),
                        target.totalCredit, target.totalDebit, Mirror(target.lines))
    && TableAccepts(e)
    && f' == f.(ledger := f.ledger.(entries := f.ledger.entries + [e]),
                reversals := f.reversals[q := request.(status := Fulfilled, version := 2, approvedBy := Some(actor))])
  }

  lemma ReversalPosts(f: Files, f': Files, q: nat, actor: nat, e: Entry)
    requires FilesInv(f) && ReversalDone(f, f', q, actor, e)
    ensures Inv(f'.ledger)
  {
    var s, request := f.ledger, f.reversals[q];
    var target := s.entries[request.target];
    assert ReversalRow(s, f.reviews, f.evidences, q, request);
    EntryExists(s.entries, f.evidences, request.evidence);
    assert Inv(s) && EntrySound(s.years, s.accounts, target);
    MirrorNegates(target.lines);
    hide FilesInv, Inv;
    assert LinesInYear(s.accounts, Mirror(target.lines), target.fiscalYear);
    WaiverPosts(s, target.fiscalYear, target.year, request.date, WaiverReversal(q), Some(request.target), e.totalDebit, e.totalCredit, e.lines);
  }

  lemma ReversalsAfterApproval(f: Files, f': Files, q: nat, actor: nat, e: Entry)
    requires FilesInv(f) && ReversalDone(f, f', q, actor, e)
    ensures ReversalsSound(f'.ledger, f.reviews, f.evidences, f'.reversals)
  {
    hide Inv, Chained, WaiverEntriesSound, ChainsNet, ReviewsSound, ReplacementsSound, InYear, TableAccepts, IsParty;
    SameNumbersReflexive(f.ledger.years);
    var es := f.ledger.entries;
    forall p | 0 <= p < |f'.reversals| ensures ReversalRow(f'.ledger, f.reviews, f.evidences, p, f'.reversals[p]) {
      assert ReversalRow(f.ledger, f.reviews, f.evidences, p, f.reversals[p]);
      ReversedSnoc(es, e, f.reversals[p].target);
      OriginSnoc(es, e, WaiverReversal(p));
      if p != q {
        ReversalRowStays(f.ledger, f'.ledger, f.reviews, f.reviews, f.evidences, f.evidences, p, f.reversals[p]);
      }
    }
  }

  lemma ReplacementsAfterReversal(f: Files, s': State, e: Entry, q: nat)
    requires ReplacementsSound(f.ledger, f.reviews, f.evidences, f.replacements)
    requires s' == f.ledger.(entries := f.ledger.entries + [e]) && e.origin == WaiverReversal(q)
    ensures ReplacementsSound(s', f.reviews, f.evidences, f.replacements)
  {
    hide ReplacementRow;
    SameNumbersReflexive(f.ledger.years);
    forall p | 0 <= p < |f.replacements| ensures ReplacementRow(s', f.reviews, f.evidences, p, f.replacements[p]) {
      assert ReplacementRow(f.ledger, f.reviews, f.evidences, p, f.replacements[p]);
      OriginSnoc(f.ledger.entries, e, WaiverReplacement(p));
      ReplacementRowStays(f.ledger, s', f.reviews, f.reviews, f.evidences, f.evidences, p, f.replacements[p]);
    }
  }

  lemma NoReversalEntry(f: Files, q: nat)
    requires ReversalsSound(f.ledger, f.reviews, f.evidences, f.reversals) && q < |f.reversals| && f.reversals[q].status == Awaiting
    ensures !HasEntry(f.ledger.entries, WaiverReversal(q))
    ensures f.reversals[q].evidence < |f.evidences| && f.evidences[f.reversals[q].evidence].entry == f.reversals[q].target
    ensures HeadOf(f.evidences, f.reversals[q].review) == Some(f.reversals[q].evidence)
    ensures !ReversedBy(f.ledger.entries, f.reversals[q].target)
  {
    assert ReversalRow(f.ledger, f.reviews, f.evidences, q, f.reversals[q]);
  }

  lemma ChainsAfterReversal(f: Files, f': Files, q: nat, actor: nat, e: Entry)
    requires FilesInv(f) && ReversalDone(f, f', q, actor, e)
    ensures ChainsNet(f')
  {
    var es, request := f.ledger.entries, f.reversals[q];
    NoReversalEntry(f, q);
    KnownFromSound(f);
    MirrorNegates(es[request.target].lines);
    hide Inv, ReversalsSound, ReplacementsSound, ReviewsSound, WaiverEntriesSound, ChainNet, LineNet, TableAccepts, IsParty, RowSound;
    forall r: nat, a: nat
      ensures ChainNet(f'.reversals, f'.replacements, f'.ledger.entries, r, a) == HeadNet(f'.ledger.entries, f'.evidences, r, a)
    {
      ChainNetStays(f.reversals, f'.reversals, f.replacements, f.replacements, es, r, a);
      ChainSnoc(f'.reversals, f.replacements, es, e, r, a);
      OriginSnoc(es, e, WaiverRegularization(r));
      assert ChainNet(f.reversals, f.replacements, es, r, a) == HeadNet(es, f.evidences, r, a);
      var h := HeadOf(f.evidences, r);
      if h.Some? {
        EntryExists(es, f.evidences, h.value);
        ReversedSnoc(es, e, f.evidences[h.value].entry);
        if f.evidences[h.value].entry == request.target { SameEntrySameReview(f, h.value, request.evidence); }
      }
    }
  }

  /** An entry is evidence for one review only. */
  lemma SameEntrySameReview(f: Files, j: nat, k: nat)
    requires FilesInv(f) && j < |f.evidences| && k < |f.evidences| && f.evidences[j].entry == f.evidences[k].entry
    ensures f.evidences[j].review == f.evidences[k].review
  {
    var es := f.ledger.entries;
    ReviewOfEntry(f, j);
    ReviewOfEntry(f, k);
  }

  /** The origin of an evidence's entry tells its review. */
  lemma ReviewOfEntry(f: Files, k: nat)
    requires FilesInv(f) && k < |f.evidences|
    ensures f.evidences[k].entry < |f.ledger.entries|
    ensures match f.ledger.entries[f.evidences[k].entry].origin
            case WaiverRegularization(r) => r == f.evidences[k].review
            case WaiverReplacement(q) => q < |f.replacements| && f.replacements[q].review == f.evidences[k].review
            case _ => false
  {
    hide Inv, ReversalsSound, ReviewsSound, ChainsNet;
    assert RowSound(f.ledger.entries, f.evidences, k);
    assert WaiverEntrySound(f, f.ledger.entries[f.evidences[k].entry]);
  }

  lemma ReversalDoneKeeps(f: Files, f': Files, q: nat, actor: nat, e: Entry)
    requires FilesInv(f) && ReversalDone(f, f', q, actor, e)
    ensures FilesInv(f')
  {
    hide Inv, ReversalsSound, ReplacementsSound, Chained, ReviewsSound, ChainsNet, ResultsSound, TableAccepts, IsParty;
    ReversalPosts(f, f', q, actor, e);
    ReversalsAfterApproval(f, f', q, actor, e);
    ChainsAfterReversal(f, f', q, actor, e);
    NoReversalEntry(f, q);
    ReplacementsAfterReversal(f, f'.ledger, e, q);
    ChainedStays(f.ledger.entries, f'.ledger.entries, f.evidences);
    EntriesAppendSound(f, f', e);
  }

  lemma ApproveReversalKeeps(f: Files, q: nat, actor: nat)
    requires FilesInv(f)
    ensures FilesInv(ApproveReversal(f, q, actor).0)
  {
    hide FilesInv, TableAccepts, IsParty, ReversedBy;
    var (f', v) := ApproveReversal(f, q, actor);
    if v.Granted? {
      ReversalDoneKeeps(f, f', q, actor, f'.ledger.entries[|f.ledger.entries|]);
    }
  }

  // ---------- approving a replacement ----------

  ghost predicate ReplacementDone(f: Files, f': Files, q: nat, actor: nat, e: Entry, row: Evidence) {
    && q < |f.replacements| && f.replacements[q].status == Awaiting
    && f.replacements[q].review < |f.reviews| && f.replacements[q].source < |f.evidences|
    && f.replacements[q].requestedBy != actor && !IsParty(f.reviews[f.replacements[q].review], actor)
    && var request := f.replacements[q];
    && request.fiscalYear < |f.ledger.years| && f.ledger.years[request.fiscalYear].status == Open
    && LinesInYear(f.ledger.accounts, request.lines, request.fiscalYear)
    && e == NumberedEntry(f.ledger.entries, request.fiscalYear, f.ledger.years[request.fiscalYear].year, request.date, WaiverReplacement(q), None,
                        DebitTotal(request.lines), CreditTotal(request.lines), request.lines)
    && TableAccepts(e)
    && row == Evidence(request.review, |f.ledger.entries|, f.evidences[request.source].sequence + 1, Some(request.source), Some(q))
    && f' == f.(ledger := f.ledger.(entries := f.ledger.entries + [e]),
                evidences := f.evidences + [row],
                replacements := f.replacements[q := request.(status := Fulfilled, version := 2, approvedBy := Some(actor))])
  }

  /** What is known of a pending replacement: its source is the head of its review, and reversed. */
  lemma PendingReplacement(f: Files, q: nat)
    requires ReplacementsSound(f.ledger, f.reviews, f.evidences, f.replacements) && q < |f.replacements| && f.replacements[q].status == Awaiting
    ensures var r := f.replacements[q];
            && r.source < |f.evidences| && f.evidences[r.source].entry < |f.ledger.entries|
            && HeadOf(f.evidences, r.review) == Some(r.source)
            && ReversedBy(f.ledger.entries, f.evidences[r.source].entry)
            && InYear(f.ledger.years, r.fiscalYear, r.date)
            && !HasEntry(f.ledger.entries, WaiverReplacement(q))
  {
    assert ReplacementRow(f.ledger, f.reviews, f.evidences, q, f.replacements[q]);
  }

  lemma ReplacementPosts(f: Files, f': Files, q: nat, actor: nat, e: Entry, row: Evidence)
    requires FilesInv(f) && ReplacementDone(f, f', q, actor, e, row)
    ensures Inv(f'.ledger)
  {
    var s, request := f.ledger, f.replacements[q];
    PendingReplacement(f, q);
    assert Inv(s);
    hide FilesInv, Inv;
    WaiverPosts(s, request.fiscalYear, s.years[request.fiscalYear].year, request.date, WaiverReplacement(q), None, e.totalDebit, e.totalCredit, e.lines);
  }

  lemma HeadsAfterNext(evidences: seq<Evidence>, e: Evidence, h: nat)
    requires HeadOf(evidences, e.review) == Some(h) && e.sequence == evidences[h].sequence + 1
    ensures forall r: nat :: HeadOf(evidences + [e], r) == if r == e.review then Some(|evidences|) else HeadOf(evidences, r)
  {
    forall r: nat ensures HeadOf(evidences + [e], r) == if r == e.review then Some(|evidences|) else HeadOf(evidences, r) {
      HeadSnoc(evidences, e, r);
    }
  }

  /** No reversal is pending while a replacement of the same review is. */
  lemma NoPendingReversal(f: Files, q: nat, p: nat)
    requires FilesInv(f) && q < |f.replacements| && f.replacements[q].status == Awaiting
    requires p < |f.reversals| && f.reversals[p].status == Awaiting
    ensures f.reversals[p].review != f.replacements[q].review
  {
    PendingReplacement(f, q);
    NoReversalEntry(f, p);
  }

  /** At most one replacement is pending in a review. */
  lemma OnePendingReplacement(f: Files, q: nat, p: nat)
    requires FilesInv(f) && q < |f.replacements| && f.replacements[q].status == Awaiting
    requires p < |f.replacements| && f.replacements[p].status == Awaiting && p != q
    ensures f.replacements[p].review != f.replacements[q].review
  {
    PendingReplacement(f, q);
    PendingReplacement(f, p);
  }

  lemma ReversalsAfterReplacement(f: Files, f': Files, q: nat, actor: nat, e: Entry, row: Evidence)
    requires FilesInv(f) && ReplacementDone(f, f', q, actor, e, row)
    ensures ReversalsSound(f'.ledger, f.reviews, f'.evidences, f.reversals)
  {
    PendingReplacement(f, q);
    HeadsAfterNext(f.evidences, row, f.replacements[q].source);
    SameNumbersReflexive(f.ledger.years);
    forall p | 0 <= p < |f.reversals| && f.reversals[p].status == Awaiting ensures f.reversals[p].review != f.replacements[q].review {
      NoPendingReversal(f, q, p);
    }
    hide Inv, Chained, WaiverEntriesSound, ChainsNet, ReviewsSound, ReplacementsSound, ResultsSound, TableAccepts, IsParty, ReversalRow;
    forall p | 0 <= p < |f.reversals| ensures ReversalRow(f'.ledger, f.reviews, f'.evidences, p, f.reversals[p]) {
      assert ReversalRow(f.ledger, f.reviews, f.evidences, p, f.reversals[p]);
      AwaitingUnreversed(f.ledger, f.reviews, f.evidences, p, f.reversals[p]);
      ReversedSnoc(f.ledger.entries, e, f.reversals[p].target);
      OriginSnoc(f.ledger.entries, e, WaiverReversal(p));
      ReversalRowStays(f.ledger, f'.ledger, f.reviews, f.reviews, f.evidences, f'.evidences, p, f.reversals[p]);
    }
  }

  lemma ReplacementsAfterApproval(f: Files, f': Files, q: nat, actor: nat, e: Entry, row: Evidence)
    requires FilesInv(f) && ReplacementDone(f, f', q, actor, e, row)
    ensures ReplacementsSound(f'.ledger, f.reviews, f'.evidences, f'.replacements)
  {
    PendingReplacement(f, q);
    HeadsAfterNext(f.evidences, row, f.replacements[q].source);
    SameNumbersReflexive(f.ledger.years);
    forall p | 0 <= p < |f.replacements| && f.replacements[p].status == Awaiting && p != q ensures f.replacements[p].review != f.replacements[q].review {
      OnePendingReplacement(f, q, p);
    }
    hide Inv, Chained, WaiverEntriesSound, ChainsNet, ReviewsSound, ReversalsSound, ResultsSound, TableAccepts, IsParty, InYear, LinesBalance, NonNegative, ReplacementRow;
    forall p | 0 <= p < |f'.replacements| ensures ReplacementRow(f'.ledger, f.reviews, f'.evidences, p, f'.replacements[p]) {
      assert ReplacementRow(f.ledger, f.reviews, f.evidences, p, f.replacements[p]);
      OriginSnoc(f.ledger.entries, e, WaiverReplacement(p));
      if p == q {
        ApprovedRow(f, f'.ledger, f'.evidences, q, actor, e);
      } else {
        ReplacementRowStays(f.ledger, f'.ledger, f.reviews, f.reviews, f.evidences, f'.evidences, p, f.replacements[p]);
      }
    }
  }

  lemma ApprovedRow(f: Files, s': State, evidences': seq<Evidence>, q: nat, actor: nat, e: Entry)
    requires q < |f.replacements| && f.replacements[q].status == Awaiting
    requires ReplacementRow(f.ledger, f.reviews, f.evidences, q, f.replacements[q])
    requires f.replacements[q].requestedBy != actor && !IsParty(f.reviews[f.replacements[q].review], actor)
    requires s' == f.ledger.(entries := f.ledger.entries + [e]) && e.origin == WaiverReplacement(q) && f.evidences <= evidences'
    ensures ReplacementRow(s', f.reviews, evidences', q, f.replacements[q].(status := Fulfilled, version := 2, approvedBy := Some(actor)))
  {
    hide IsParty, InYear, LinesBalance, NonNegative;
    OriginSnoc(f.ledger.entries, e, WaiverReplacement(q));
  }

  lemma EvidenceAfterReplacement(f: Files, f': Files, q: nat, actor: nat, e: Entry, row: Evidence)
    requires FilesInv(f) && ReplacementDone(f, f', q, actor, e, row)
    ensures Chained(f'.ledger.entries, f'.evidences)
    ensures ReviewsSound(f.reviews, f'.evidences)
    ensures ResultsSound(f'.evidences, f'.replacements)
  {
    hide Inv, WaiverEntriesSound, ChainsNet, ReversalsSound, ReplacementsSound, TableAccepts, IsParty, InYear, LinesInYear, ResultsSound;
    PendingReplacement(f, q);
    HeadsAfterNext(f.evidences, row, f.replacements[q].source);
    ChainedStays(f.ledger.entries, f'.ledger.entries, f.evidences);
    assert f'.evidences[..|f.evidences|] == f.evidences;
    ReversedInLonger(f.ledger.entries, f'.ledger.entries, f.evidences[f.replacements[q].source].entry);
    assert RowSound(f'.ledger.entries, f'.evidences, |f.evidences|);
    ChainedAppend(f'.ledger.entries, f.evidences, row);
    ResultsAfter(f.evidences, row, f.replacements, q, f'.replacements[q]);
  }

  lemma ResultsAfter(evidences: seq<Evidence>, row: Evidence, replacements: seq<ReplacementRequest>, q: nat, done: ReplacementRequest)
    requires ResultsSound(evidences, replacements) && q < |replacements| && replacements[q].status == Awaiting
    requires done.status == Fulfilled && row.replacement == Some(q) && ResultOf(row, replacements[q := done], q)
    ensures ResultsSound(evidences + [row], replacements[q := done])
  {
    var all := evidences + [row];
    assert all[|evidences|].replacement == Some(q);
    forall p: nat | p < |replacements| && replacements[q := done][p].status == Fulfilled ensures HasResult(all, p) {
      if p != q {
        assert HasResult(evidences, p);
        var k :| 0 <= k < |evidences| && evidences[k].replacement == Some(p);
        assert all[k].replacement == Some(p);
      }
    }
    forall k | 0 <= k < |all| && all[k].replacement.Some? ensures ResultOf(all[k], replacements[q := done], all[k].replacement.value) {
      if k < |evidences| { assert ResultOf(evidences[k], replacements, evidences[k].replacement.value); }
    }
  }

  lemma ChainsAfterReplacement(f: Files, f': Files, q: nat, actor: nat, e: Entry, row: Evidence)
    requires FilesInv(f) && ReplacementDone(f, f', q, actor, e, row)
    ensures ChainsNet(f')
  {
    var es, source := f.ledger.entries, f.replacements[q].source;
    PendingReplacement(f, q);
    HeadsAfterNext(f.evidences, row, source);
    KnownFromSound(f);
    NewestUnreversed(f, e);
    hide Inv, ReversalsSound, ReplacementsSound, ReviewsSound, WaiverEntriesSound, ResultsSound, ChainNet, LineNet, TableAccepts, IsParty, RowSound;
    forall r: nat, a: nat
      ensures ChainNet(f'.reversals, f'.replacements, f'.ledger.entries, r, a) == HeadNet(f'.ledger.entries, f'.evidences, r, a)
    {
      ChainNetStays(f.reversals, f.reversals, f.replacements, f'.replacements, es, r, a);
      ChainSnoc(f.reversals, f'.replacements, es, e, r, a);
      OriginSnoc(es, e, WaiverRegularization(r));
      assert ChainNet(f.reversals, f.replacements, es, r, a) == HeadNet(es, f.evidences, r, a);
      var h := HeadOf(f.evidences, r);
      if h.Some? {
        EntryExists(es, f.evidences, h.value);
        ReversedSnoc(es, e, f.evidences[h.value].entry);
      }
    }
  }

  /** Nothing reverses an entry that is just being posted. */
  lemma NewestUnreversed(f: Files, e: Entry)
    requires FilesInv(f) && e.reverses.None?
    ensures !ReversedBy(f.ledger.entries + [e], |f.ledger.entries|)
  {
    assert Inv(f.ledger) && ReversalsUnique(f.ledger.entries);
    LaterUnreversed(f.ledger.entries, |f.ledger.entries|);
    ReversedSnoc(f.ledger.entries, e, |f.ledger.entries|);
  }

  lemma ReplacementDoneKeeps(f: Files, f': Files, q: nat, actor: nat, e: Entry, row: Evidence)
    requires FilesInv(f) && ReplacementDone(f, f', q, actor, e, row)
    ensures FilesInv(f')
  {
    hide Inv, ReversalsSound, ReplacementsSound, Chained, ReviewsSound, ChainsNet, ResultsSound, TableAccepts, IsParty, InYear, HeadOf, LinesInYear;
    ReplacementPosts(f, f', q, actor, e, row);
    ReversalsAfterReplacement(f, f', q, actor, e, row);
    ReplacementsAfterApproval(f, f', q, actor, e, row);
    EvidenceAfterReplacement(f, f', q, actor, e, row);
    ChainsAfterReplacement(f, f', q, actor, e, row);
    PendingReplacement(f, q);
    EntriesAppendSound(f, f', e);
  }

  lemma ApproveReplacementKeeps(f: Files, q: nat, sameProposal: bool, actor: nat)
    requires FilesInv(f)
    ensures FilesInv(ApproveReplacement(f, q, sameProposal, actor).0)
  {
    hide FilesInv, TableAccepts, IsParty, Superseded;
    var (f', v) := ApproveReplacement(f, q, sameProposal, actor);
    if v.Granted? {
      ReplacementDoneKeeps(f, f', q, actor, f'.ledger.entries[|f.ledger.entries|], f'.evidences[|f.evidences|]);
    }
  }

  // ---------- the rest of the system ----------

  /** New entries are of other origins and reverse nothing of the waivers. */
  ghost predicate NothingWaived(entries: seq<Entry>, entries': seq<Entry>) {
    && entries <= entries'
    && (forall i :: |entries| <= i < |entries'| ==> !IsWaiver(entries'[i].origin) && ReversesElsewhere(entries', i))
  }

  ghost predicate ReversesElsewhere(entries: seq<Entry>, i: nat)
    requires i < |entries|
  {
    entries[i].reverses.Some? ==> entries[i].reverses.value < |entries| && !IsWaiver(entries[entries[i].reverses.value].origin)
  }

  lemma CloseWaivesNothing(s: State, y: nat)
    requires y < |s.years|
    ensures PostClosure(s, y).Closure? ==> NothingWaived(s.entries, PostClosure(s, y).entries)
  {
    hide RegularizationLines, ClosingEntryLines, OpeningEntryLines, TableAccepts;
  }

  lemma ReversalsWaiveNothing(entries: seq<Entry>, c: CloseRequest, p1: Posting, p2: Posting, p3: Posting)
    requires CloseLinksSound(entries, c) && Undone(entries, c, p1, p2, p3)
    ensures NothingWaived(entries, p3.entries)
  {
    hide PostReversals;
  }

  lemma ApproveReopenWaivesNothing(s: State, r: nat, now: int, ctx: Context, business: nat)
    requires Inv(s)
    ensures NothingWaived(s.entries, ApproveReopen(s, r, now, ctx, business).0.entries)
  {
    hide Inv, ApproveReopen, ReopenReady, ExpireStale, Undone;
    var t := Refreshed(s, now);
    ExpiryKeeps(s, now, None);
    ApproveReopenShape(s, r, now, ctx, business);
    var (t', o) := ApproveReopen(s, r, now, ctx, business);
    if o.Done? {
      var q := t.reopens[r].close;
      ReadyLinks(t, q, business);
      var p1, p2, p3 := ReadyReopenPosts(t, q, business);
      ReversalsWaiveNothing(t.entries, t.closes[q], p1, p2, p3);
      UndonePosts(t.entries, t.closes[q], p1, p2, p3);
    }
  }

  lemma UndonePosts(entries: seq<Entry>, c: CloseRequest, p1: Posting, p2: Posting, p3: Posting)
    requires Undone(entries, c, p1, p2, p3)
    ensures PostReversals(entries, c) == Closure(p3.entries, p3.id, p2.id, p1.id)
  {
  }

  lemma ApproveCloseWaivesNothing(s: State, q: nat, now: int, ctx: Context, outside: OutsideJournal)
    ensures NothingWaived(s.entries, ApproveClose(s, q, now, ctx, outside).0.entries)
  {
    hide ApproveClose, PostClosure;
    ApproveCloseShape(s, q, now, ctx, outside);
    if q < |s.closes| && s.closes[q].fiscalYear < |s.years| {
      CloseWaivesNothing(s, s.closes[q].fiscalYear);
    }
  }

  lemma OthersWaiveNothing(plan: seq<PlanAccount>, s: State, c: Command)
    requires !c.CmdApproveClose? && !c.CmdApproveReopen? && Elsewhere(s, c)
    ensures NothingWaived(s.entries, Step(plan, s, c).0.entries)
  {
    hide CloseReady, ReopenReady, NextYearTaken, ExpireStale, TableAccepts, LinesInYear, HasSide;
  }

  lemma StepWaivesNothing(plan: seq<PlanAccount>, s: State, c: Command)
    requires Inv(s) && Elsewhere(s, c)
    ensures NothingWaived(s.entries, Step(plan, s, c).0.entries)
  {
    hide Inv, ApproveClose, ApproveReopen, NothingWaived, Elsewhere;
    match c
    case CmdApproveClose(q, now, ctx, outside) => ApproveCloseWaivesNothing(s, q, now, ctx, outside);
    case CmdApproveReopen(r, now, ctx, business) => ApproveReopenWaivesNothing(s, r, now, ctx, business);
    case _ => OthersWaiveNothing(plan, s, c);
  }

  /** Appending entries from elsewhere changes neither what is reversed nor what is posted for waivers. */
  lemma WaiversUntouched(f: Files, entries': seq<Entry>)
    requires NothingWaived(f.ledger.entries, entries') && ReversalsUnique(f.ledger.entries)
    ensures forall x: nat :: x < |f.ledger.entries| && IsWaiver(f.ledger.entries[x].origin) ==> (ReversedBy(entries', x) <==> ReversedBy(f.ledger.entries, x))
    ensures forall origin :: IsWaiver(origin) ==> (HasEntry(entries', origin) <==> HasEntry(f.ledger.entries, origin))
  {
    var es := f.ledger.entries;
    forall x: nat | x < |es| && IsWaiver(es[x].origin) ensures ReversedBy(entries', x) <==> ReversedBy(es, x) {
      forall j | |es| <= j < |entries'| ensures entries'[j].reverses != Some(x) {
        assert ReversesElsewhere(entries', j);
      }
      if ReversedBy(entries', x) {
        var j :| 0 <= j < |entries'| && entries'[j].reverses == Some(x);
        assert es[j].reverses == Some(x);
      }
      if ReversedBy(es, x) { ReversedInLonger(es, entries', x); }
    }
    forall origin | IsWaiver(origin) ensures HasEntry(entries', origin) <==> HasEntry(es, origin) {
      if HasEntry(entries', origin) {
        var k :| 0 <= k < |entries'| && entries'[k].origin == origin;
        assert es[k].origin == origin;
      }
      if HasEntry(es, origin) { EntryInLonger(es, entries', origin); }
    }
  }

  lemma FindUntouched(entries: seq<Entry>, entries': seq<Entry>, origin: Origin)
    requires NothingWaived(entries, entries') && IsWaiver(origin)
    ensures FindEntry(entries', origin) == FindEntry(entries, origin)
  {
    FindPrefix(entries, entries', origin);
  }

  lemma FindPrefix(entries: seq<Entry>, longer: seq<Entry>, origin: Origin)
    requires entries <= longer && forall i :: |entries| <= i < |longer| ==> longer[i].origin != origin
    ensures FindEntry(longer, origin) == FindEntry(entries, origin)
    decreases |longer|
  {
    if |longer| == |entries| {
      assert longer == entries;
    } else {
      FindPrefix(entries, longer[..|longer| - 1], origin);
    }
  }

  lemma {:induction false} ChainNetUntouched(reversals: seq<ReversalRequest>, replacements: seq<ReplacementRequest>, entries: seq<Entry>, longer: seq<Entry>, review: nat, a: nat)
    requires entries <= longer && forall i :: |entries| <= i < |longer| ==> !IsWaiver(longer[i].origin)
    ensures ChainNet(reversals, replacements, longer, review, a) == ChainNet(reversals, replacements, entries, review, a)
    decreases |longer|
  {
    if |longer| == |entries| {
      assert longer == entries;
    } else {
      ChainNetUntouched(reversals, replacements, entries, longer[..|longer| - 1], review, a);
    }
  }

  lemma RequestsUnderLedger(f: Files, s': State)
    requires FilesInv(f) && NothingWaived(f.ledger.entries, s'.entries) && SameNumbers(f.ledger.years, s'.years)
    ensures ReversalsSound(s', f.reviews, f.evidences, f.reversals)
    ensures ReplacementsSound(s', f.reviews, f.evidences, f.replacements)
  {
    assert Inv(f.ledger) && ReversalsUnique(f.ledger.entries);
    WaiversUntouched(f, s'.entries);
    hide Inv, ReviewsSound, WaiverEntriesSound, ChainsNet, ResultsSound, ReversalRow, ReplacementRow, ReversesElsewhere, RowSound, SameNumbers;
    forall q | 0 <= q < |f.reversals| ensures ReversalRow(s', f.reviews, f.evidences, q, f.reversals[q]) {
      assert ReversalRow(f.ledger, f.reviews, f.evidences, q, f.reversals[q]);
      AwaitingUnreversed(f.ledger, f.reviews, f.evidences, q, f.reversals[q]);
      TargetIsWaiver(f, q);
      assert IsWaiver(WaiverReversal(q));
      ReversalRowStays(f.ledger, s', f.reviews, f.reviews, f.evidences, f.evidences, q, f.reversals[q]);
    }
    forall q | 0 <= q < |f.replacements| ensures ReplacementRow(s', f.reviews, f.evidences, q, f.replacements[q]) {
      assert ReplacementRow(f.ledger, f.reviews, f.evidences, q, f.replacements[q]);
      assert IsWaiver(WaiverReplacement(q));
      ReplacementRowStays(f.ledger, s', f.reviews, f.reviews, f.evidences, f.evidences, q, f.replacements[q]);
    }
  }

  lemma TargetIsWaiver(f: Files, q: nat)
    requires FilesInv(f) && q < |f.reversals|
    ensures f.reversals[q].target < |f.ledger.entries| && IsWaiver(f.ledger.entries[f.reversals[q].target].origin)
  {
    assert ReversalRow(f.ledger, f.reviews, f.evidences, q, f.reversals[q]);
    EntryExists(f.ledger.entries, f.evidences, f.reversals[q].evidence);
  }

  lemma EntriesUnderLedger(f: Files, s': State)
    requires WaiverEntriesSound(f) && NothingWaived(f.ledger.entries, s'.entries)
    ensures WaiverEntriesSound(f.(ledger := s'))
  {
    hide WaiverEntrySound;
    var f', es := f.(ledger := s'), f.ledger.entries;
    forall k | 0 <= k < |s'.entries| ensures WaiverEntrySound(f', s'.entries[k]) {
      if k < |es| {
        assert WaiverEntrySound(f, es[k]);
        EntryStaysSound(f, f', es[k]);
      } else {
        assert ReversesElsewhere(s'.entries, k);
        ForeignEntrySound(f', k);
      }
    }
    forall j, k | 0 <= j < k < |s'.entries| && IsWaiver(s'.entries[j].origin) ensures s'.entries[j].origin != s'.entries[k].origin {
      if k < |es| { assert es[k] == s'.entries[k] && es[j] == s'.entries[j]; }
    }
  }

  lemma ForeignEntrySound(f: Files, k: nat)
    requires k < |f.ledger.entries| && !IsWaiver(f.ledger.entries[k].origin) && ReversesElsewhere(f.ledger.entries, k)
    ensures WaiverEntrySound(f, f.ledger.entries[k])
  {
  }

  lemma ChainsUnderLedger(f: Files, s': State)
    requires FilesInv(f) && NothingWaived(f.ledger.entries, s'.entries)
    ensures ChainsNet(f.(ledger := s'))
  {
    assert Inv(f.ledger) && ReversalsUnique(f.ledger.entries);
    WaiversUntouched(f, s'.entries);
    var es := f.ledger.entries;
    hide Inv, ReversalsSound, ReplacementsSound, ReviewsSound, WaiverEntriesSound, ResultsSound, ChainNet, LineNet, RowSound, ReversesElsewhere;
    forall r: nat, a: nat
      ensures ChainNet(f.reversals, f.replacements, s'.entries, r, a) == HeadNet(s'.entries, f.evidences, r, a)
    {
      ChainNetUntouched(f.reversals, f.replacements, es, s'.entries, r, a);
      FindUntouched(es, s'.entries, WaiverRegularization(r));
      assert ChainNet(f.reversals, f.replacements, es, r, a) == HeadNet(es, f.evidences, r, a);
      var h := HeadOf(f.evidences, r);
      if h.Some? { EntryExists(es, f.evidences, h.value); }
    }
  }

  lemma LedgerKeeps(plan: seq<PlanAccount>, f: Files, c: Command)
    requires FilesInv(f) && ValidPlan(plan) && Elsewhere(f.ledger, c)
    ensures FilesInv(f.(ledger := Step(plan, f.ledger, c).0))
  {
    var s' := Step(plan, f.ledger, c).0;
    assert Inv(f.ledger);
    hide Inv, Step, ValidPlan, Elsewhere, NothingWaived, SameNumbers;
    StepKeeps(plan, f.ledger, c);
    StepWaivesNothing(plan, f.ledger, c);
    StepKeepsNumbers(plan, f.ledger, c);
    RequestsUnderLedger(f, s');
    ChainsUnderLedger(f, s');
    EntriesUnderLedger(f, s');
    hide ReversalsSound, ReplacementsSound, ReviewsSound, WaiverEntriesSound, ResultsSound, ChainsNet, RowSound;
    LongerJournal(f.ledger.entries, s'.entries);
    ChainedStays(f.ledger.entries, s'.entries, f.evidences);
  }

  lemma LongerJournal(entries: seq<Entry>, entries': seq<Entry>)
    requires NothingWaived(entries, entries')
    ensures entries <= entries'
  {
  }

  // ---------- every move ----------

  lemma PlayKeeps(plan: seq<PlanAccount>, f: Files, m: Move)
    requires FilesInv(f) && ValidPlan(plan)
    ensures FilesInv(Play(plan, f, m).0)
  {
    hide FilesInv, ValidPlan, OpenReview, PostWaiverRegularization, CompleteReview, RequestReversal, ApproveReversal, FinishReversal,
      RequestReplacement, ApproveReplacement, FinishReplacement, Step, Elsewhere;
    match m
    case MoveOpen(openedBy, assignee) => OpenReviewKeeps(f, openedBy, assignee);
    case MovePost(review, date, lines) => PostKeeps(f, review, date, lines);
    case MoveComplete(review, actor) => CompleteReviewKeeps(f, review, actor);
    case MoveRequestReversal(review, duplicate, date, actor) => RequestReversalKeeps(f, review, duplicate, date, actor);
    case MoveApproveReversal(q, actor) => ApproveReversalKeeps(f, q, actor);
    case MoveFinishReversal(q, reject, actor) => FinishReversalKeeps(f, q, reject, actor);
    case MoveRequestReplacement(review, date, lines, actor) => RequestReplacementKeeps(f, review, date, lines, actor);
    case MoveApproveReplacement(q, same, actor) => ApproveReplacementKeeps(f, q, same, actor);
    case MoveFinishReplacement(q, reject, actor) => FinishReplacementKeeps(f, q, reject, actor);
    case MoveLedger(c) => if Elsewhere(f.ledger, c) { LedgerKeeps(plan, f, c); }
  }

  /** The invariant of the files holds after every run. */
  lemma {:induction false} PlaysKeep(plan: seq<PlanAccount>, f: Files, moves: seq<Move>)
    requires FilesInv(f) && ValidPlan(plan)
    ensures FilesInv(Plays(plan, f, moves))
    decreases |moves|
  {
    hide FilesInv, ValidPlan, Play;
    if moves != [] {
      PlayKeeps(plan, f, moves[0]);
      PlaysKeep(plan, Play(plan, f, moves[0]).0, moves[1..]);
    }
  }
}
