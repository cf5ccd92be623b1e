/**
 When each move on waiver evidence is granted, and what it then does, in terms of rows, dates and persons.
 */
module WaiverOutcomes {
  import opened Ledger
  import opened Settlement
  import opened FiscalCycle
  import opened CycleInvariant
  import opened CycleSteps
  import opened CycleDates
  import opened CycleOutcomes
  import opened Waiver
  import opened WaiverInvariant
  import opened WaiverSteps
  import opened WaiverPostings
  import opened WaiverTheorems

  // ---------- the latest evidence ----------

  /** The evidence of the review that was added last. */
  ghost predicate IsLatest(evidences: seq<Evidence>, review: nat, h: nat) {
    && h < |evidences| && evidences[h].review == review
    && forall k :: h < k < |evidences| ==> evidences[k].review != review
  }

  lemma {:induction false} HeadIsLatest(entries: seq<Entry>, evidences: seq<Evidence>, review: nat)
    requires Chained(entries, evidences)
    ensures forall h: nat :: HeadOf(evidences, review) == Some(h) <==> IsLatest(evidences, review, h)
  {
    if evidences != [] {
      var n := |evidences| - 1;
      ChainedPrefix(entries, evidences, n);
      HeadIsLatest(entries, evidences[..n], review);
      assert RowSound(entries, evidences, n);
      forall h: nat ensures HeadOf(evidences, review) == Some(h) <==> IsLatest(evidences, review, h) {
        assert IsLatest(evidences[..n], review, h) && evidences[n].review != review ==> IsLatest(evidences, review, h);
        assert IsLatest(evidences, review, h) && h < n ==> IsLatest(evidences[..n], review, h);
      }
    }
  }

  // ---------- what requests and their entries share ----------

  /** The entry of a request bears the date of the request; a reversal lies in the year of the entry reversed. */
  ghost predicate EntryFiled(f: Files, e: Entry) {
    && (e.origin.WaiverReversal? ==>
          && e.origin.request < |f.reversals| && e.date == f.reversals[e.origin.request].date
          && f.reversals[e.origin.request].target < |f.ledger.entries|
          && e.fiscalYear == f.ledger.entries[f.reversals[e.origin.request].target].fiscalYear)
    && (e.origin.WaiverReplacement? ==>
          && e.origin.request < |f.replacements| && e.date == f.replacements[e.origin.request].date
          && e.fiscalYear == f.replacements[e.origin.request].fiscalYear)
  }

  /** Behind a replacement stands a completed reversal of its source that is no duplicate and not later; the
      replacement goes to the year of the entry reversed. */
  ghost predicate Behind(f: Files, r: ReplacementRequest) {
    && r.reversal < |f.reversals| && r.source < |f.evidences| && f.evidences[r.source].entry < |f.ledger.entries|
    && var b := f.reversals[r.reversal];
       && b.status == Fulfilled && !b.duplicate && b.evidence == r.source && b.date <= r.date
       && r.fiscalYear == f.ledger.entries[f.evidences[r.source].entry].fiscalYear
  }

  ghost predicate Filed(f: Files) {
    && (forall k {:trigger EntryFiled(f, f.ledger.entries[k])} :: 0 <= k < |f.ledger.entries| ==> EntryFiled(f, f.ledger.entries[k]))
    && (forall q {:trigger Behind(f, f.replacements[q])} :: 0 <= q < |f.replacements| ==> Behind(f, f.replacements[q]))
  }

  /** Tables grow, completed reversals stay, and requests keep what they are about. */
  ghost predicate Forward(f: Files, f': Files) {
    && f.ledger.entries <= f'.ledger.entries && f.evidences <= f'.evidences
    && |f.reversals| <= |f'.reversals| && |f.replacements| <= |f'.replacements|
    && (forall q :: 0 <= q < |f.reversals| ==>
          && f'.reversals[q].date == f.reversals[q].date && f'.reversals[q].target == f.reversals[q].target
          && (f.reversals[q].status == Fulfilled ==> f'.reversals[q] == f.reversals[q]))
    && (forall q :: 0 <= q < |f.replacements| ==> SameProposal(f.replacements[q], f'.replacements[q]))
  }

  ghost predicate SameProposal(r: ReplacementRequest, r': ReplacementRequest) {
    r' == r.(status := r'.status, version := r'.version, approvedBy := r'.approvedBy)
  }

  lemma FiledStays(f: Files, f': Files)
    requires Filed(f) && Forward(f, f')
    requires forall k :: |f.ledger.entries| <= k < |f'.ledger.entries| ==> EntryFiled(f', f'.ledger.entries[k])
    requires forall q :: |f.replacements| <= q < |f'.replacements| ==> Behind(f', f'.replacements[q])
    ensures Filed(f')
  {
    forall k | 0 <= k < |f'.ledger.entries| ensures EntryFiled(f', f'.ledger.entries[k]) {
      if k < |f.ledger.entries| { assert EntryFiled(f, f.ledger.entries[k]); }
    }
    forall q | 0 <= q < |f'.replacements| ensures Behind(f', f'.replacements[q]) {
      if q < |f.replacements| { assert Behind(f, f.replacements[q]) && SameProposal(f.replacements[q], f'.replacements[q]); }
    }
  }

  /** Moves that make no replacement request. */
  lemma OthersFiled(plan: seq<PlanAccount>, f: Files, m: Move)
    requires FilesInv(f) && !m.MoveRequestReplacement? && !m.MoveLedger?
    ensures var f' := Play(plan, f, m).0;
            && Forward(f, f') && |f'.replacements| == |f.replacements|
            && forall k :: |f.ledger.entries| <= k < |f'.ledger.entries| ==> EntryFiled(f', f'.ledger.entries[k])
  {
    hide FilesInv, TableAccepts, ActivePostable, IsParty, NonNegative, HasSide, DateAllowed, Superseded, ActiveReversal, FindEntry, HeadOf, LastSequence,
      CountYear, Mirror, DebitTotal, CreditTotal, ReversedBy, OpenYearAt, InvalidSide;
  }

  lemma RequestFiled(f: Files, review: nat, date: int, lines: seq<Line>, actor: nat)
    requires FilesInv(f) && Filed(f)
    ensures Filed(RequestReplacement(f, review, date, lines, actor).0)
  {
    hide FilesInv, Filed, EntryFiled, ActivePostable, IsParty, NonNegative, LinesBalance, ActiveReplacement, ReversalReplaced;
    var (f', v) := RequestReplacement(f, review, date, lines, actor);
    if v.Granted? {
      var row := f'.replacements[|f.replacements|];
      var x := FindEntry(f.ledger.entries, WaiverReversal(row.reversal)).value;
      ReversalLies(f, row.reversal, x);
      BehindAdded(f, f', row);
    }
  }

  /** A reversal stands in the year of the evidence it reverses. */
  lemma ReversalLies(f: Files, q: nat, x: nat)
    requires FilesInv(f) && Filed(f) && q < |f.reversals|
    requires x < |f.ledger.entries| && f.ledger.entries[x].origin == WaiverReversal(q)
    ensures var b := f.reversals[q];
            && b.evidence < |f.evidences| && f.evidences[b.evidence].entry == b.target < |f.ledger.entries|
            && f.ledger.entries[x].fiscalYear == f.ledger.entries[b.target].fiscalYear
  {
    assert ReversalRow(f.ledger, f.reviews, f.evidences, q, f.reversals[q]);
    assert EntryFiled(f, f.ledger.entries[x]);
  }

  lemma BehindAdded(f: Files, f': Files, row: ReplacementRequest)
    requires Filed(f) && f' == f.(replacements := f.replacements + [row]) && Behind(f, row)
    ensures Filed(f')
  {
    hide Filed, Behind;
    assert Behind(f', row) by { BehindStays(f, f', row); }
    FiledStays(f, f');
  }

  lemma BehindStays(f: Files, f': Files, row: ReplacementRequest)
    requires f' == f.(replacements := f'.replacements) && Behind(f, row)
    ensures Behind(f', row)
  {
  }

  lemma LedgerFiled(plan: seq<PlanAccount>, f: Files, c: Command)
    requires FilesInv(f) && Filed(f) && Elsewhere(f.ledger, c)
    ensures Filed(f.(ledger := Step(plan, f.ledger, c).0))
  {
    hide Step, Elsewhere, Filed, FilesInv;
    StepLeavesWaivers(plan, f, c);
    FiledStays(f, f.(ledger := Step(plan, f.ledger, c).0));
  }

  lemma StepLeavesWaivers(plan: seq<PlanAccount>, f: Files, c: Command)
    requires FilesInv(f) && Elsewhere(f.ledger, c)
    ensures var f' := f.(ledger := Step(plan, f.ledger, c).0);
            Forward(f, f') && forall k :: |f.ledger.entries| <= k < |f'.ledger.entries| ==> EntryFiled(f', f'.ledger.entries[k])
  {
    assert Inv(f.ledger);
    hide Inv, Step, Elsewhere, FilesInv, ReversesElsewhere;
    StepWaivesNothing(plan, f.ledger, c);
  }

  lemma PlayFiled(plan: seq<PlanAccount>, f: Files, m: Move)
    requires FilesInv(f) && Filed(f)
    ensures Filed(Play(plan, f, m).0)
  {
    hide FilesInv, Filed, OpenReview, PostWaiverRegularization, CompleteReview, RequestReversal, ApproveReversal, FinishReversal,
      RequestReplacement, ApproveReplacement, FinishReplacement, Step, Elsewhere, Forward, EntryFiled, Behind;
    match m
    case MoveRequestReplacement(review, date, lines, actor) => RequestFiled(f, review, date, lines, actor);
    case MoveLedger(c) => if Elsewhere(f.ledger, c) { LedgerFiled(plan, f, c); }
    case _ =>
      OthersFiled(plan, f, m);
      FiledStays(f, Play(plan, f, m).0);
  }

  lemma {:induction false} PlaysFiled(plan: seq<PlanAccount>, f: Files, moves: seq<Move>)
    requires FilesInv(f) && Filed(f) && ValidPlan(plan)
    ensures Filed(Plays(plan, f, moves))
    decreases |moves|
  {
    hide FilesInv, ValidPlan, Play, Filed;
    if moves != [] {
      PlayKeeps(plan, f, moves[0]);
      PlayFiled(plan, f, moves[0]);
      PlaysFiled(plan, Play(plan, f, moves[0]).0, moves[1..]);
    }
  }

  lemma FilesFiled(plan: seq<PlanAccount>, moves: seq<Move>)
    requires ValidPlan(plan)
    ensures FilesInv(FilesAfter(plan, moves)) && Filed(FilesAfter(plan, moves))
  {
    hide FilesInv;
    FilesHold(plan, moves);
    NoFilesHold();
    PlaysFiled(plan, NO_FILES, moves);
  }

  /** After every run: behind each replacement stands a completed reversal of its source, never one made for a
      duplicate, and entries bear the dates of the requests they were posted for. */
  lemma ReplacementsFollowReversals(plan: seq<PlanAccount>, moves: seq<Move>)
    requires ValidPlan(plan)
    ensures var f := FilesAfter(plan, moves);
            && (forall q :: 0 <= q < |f.replacements| ==> Behind(f, f.replacements[q]))
            && (forall k :: 0 <= k < |f.ledger.entries| ==> EntryFiled(f, f.ledger.entries[k]))
  {
    hide EntryFiled, Behind, FilesAfter;
    FilesFiled(plan, moves);
  }

  lemma FilesParts(f: Files)
    requires FilesInv(f)
    ensures Inv(f.ledger) && Sequenced(f.ledger.entries) && Chained(f.ledger.entries, f.evidences) && ReviewsSound(f.reviews, f.evidences)
    ensures forall y: nat :: LastSequence(f.ledger.entries, y) == CountYear(f.ledger.entries, y)
  {
    assert Inv(f.ledger) && Sequenced(f.ledger.entries);
    forall y: nat ensures LastSequence(f.ledger.entries, y) == CountYear(f.ledger.entries, y) {
      LastSequenceIsCount(f.ledger.entries, y);
    }
  }

  // ---------- posting and completing ----------

  /** Two lines or more, each with one positive side, and debits equal to credits. */
  ghost predicate GoodLines(lines: seq<Line>) {
    |lines| >= 2 && (forall i :: 0 <= i < |lines| ==> OneSide(lines[i])) && DebitTotal(lines) == CreditTotal(lines)
  }

  ghost predicate AllOnActive(accounts: seq<Account>, lines: seq<Line>, y: nat) {
    forall i :: 0 <= i < |lines| ==> OnActive(accounts, lines[i], y)
  }

  /** One entry more, under the next number of year `y`. */
  ghost predicate Posted(f: Files, s': State, y: nat, date: int, origin: Origin, reverses: Option<nat>, total: int, lines: seq<Line>) {
    s' == f.ledger.(entries := f.ledger.entries
            + [Entry(y, date / 10000, CountYear(f.ledger.entries, y) + 1, date, origin, reverses, total, total, lines)])
  }

  /** A regularizing entry is accepted exactly when it has good lines on active accounts of the open year of its
      date and its review is open and has no such entry. */
  lemma RegularizationOutcome(plan: seq<PlanAccount>, moves: seq<Move>, review: nat, date: int, lines: seq<Line>)
    requires ValidPlan(plan)
    ensures var f := FilesAfter(plan, moves);
            var (f', v) := PostWaiverRegularization(f, review, date, lines);
            && (v.Granted? <==>
                  && GoodLines(lines) && review < |f.reviews| && f.reviews[review].closedBy.None?
                  && (forall k :: 0 <= k < |f.ledger.entries| ==> f.ledger.entries[k].origin != WaiverRegularization(review))
                  && exists y: nat :: TakesDate(f.ledger.years, y, date) && AllOnActive(f.ledger.accounts, lines, y))
            && (v.Granted? ==>
                  && f' == f.(ledger := f'.ledger)
                  && exists y: nat :: TakesDate(f.ledger.years, y, date)
                                      && Posted(f, f'.ledger, y, date, WaiverRegularization(review), None, DebitTotal(lines), lines))
            && !v.Aborts? && (!v.Granted? ==> f' == f)
  {
    hide FilesInv, FilesAfter, GoodLines, AllOnActive, PostWaiverRegularization, Posted, TakesDate, HeadOf;
    FilesFiled(plan, moves);
    RegularizationDecided(FilesAfter(plan, moves), review, date, lines);
  }

  lemma GoodLinesMean(lines: seq<Line>)
    ensures GoodLines(lines) <==>
              && |lines| >= 2 && NonNegative(lines) && !(exists i :: 0 <= i < |lines| && InvalidSide(lines[i]))
              && DebitTotal(lines) == CreditTotal(lines)
    ensures GoodLines(lines) ==> DebitTotal(lines) > 0 && HasSide(lines, true) && HasSide(lines, false) && AllOneSided(lines)
  {
    SidesMean(lines);
    if GoodLines(lines) {
      forall i | 0 <= i < |lines| ensures OneSided(lines[i]) { assert OneSide(lines[i]); }
      OneSidedTotals(lines);
    }
  }

  lemma RegularizationDecided(f: Files, review: nat, date: int, lines: seq<Line>)
    requires FilesInv(f)
    ensures var (f', v) := PostWaiverRegularization(f, review, date, lines);
            && (v.Granted? <==>
                  && GoodLines(lines) && review < |f.reviews| && f.reviews[review].closedBy.None?
                  && (forall k :: 0 <= k < |f.ledger.entries| ==> f.ledger.entries[k].origin != WaiverRegularization(review))
                  && exists y: nat :: TakesDate(f.ledger.years, y, date) && AllOnActive(f.ledger.accounts, lines, y))
            && (v.Granted? ==>
                  && f' == f.(ledger := f'.ledger)
                  && exists y: nat :: TakesDate(f.ledger.years, y, date)
                                      && Posted(f, f'.ledger, y, date, WaiverRegularization(review), None, DebitTotal(lines), lines))
            && !v.Aborts? && (!v.Granted? ==> f' == f)
  {
    hide FilesInv, Inv, Chained, ReviewsSound, Sequenced, GoodLines, NonNegative, HasSide, InvalidSide, OpenYearAt, TakesDate, ActivePostable, AllOnActive,
      AllOneSided, FindEntry, LastSequence, CountYear;
    FilesParts(f);
    GoodLinesMean(lines);
    OpenYearIff(f.ledger, date);
    var y := OpenYearAt(f.ledger.years, date);
    if y.Some? {
      assert TakesDate(f.ledger.years, y.value, date);
      LinesOnActive(f.ledger.accounts, lines, y.value);
      var (f', v) := PostWaiverRegularization(f, review, date, lines);
      if v.Granted? {
        assert Posted(f, f'.ledger, y.value, date, WaiverRegularization(review), None, DebitTotal(lines), lines);
      }
    }
  }

  lemma LinesOnActive(accounts: seq<Account>, lines: seq<Line>, y: nat)
    ensures ActivePostable(accounts, lines, y) <==> AllOnActive(accounts, lines, y)
  {
    ActiveMeans(accounts, lines, y);
  }

  /** Entry `x` regularizes the review, and nothing reverses it. */
  ghost predicate Regularizes(entries: seq<Entry>, x: nat, review: nat) {
    && x < |entries| && entries[x].origin == WaiverRegularization(review)
    && forall j :: 0 <= j < |entries| ==> entries[j].reverses != Some(x)
  }

  /** A review is completed exactly by its assignee, once, over a regularizing entry that stands. */
  lemma CompletionOutcome(plan: seq<PlanAccount>, moves: seq<Move>, review: nat, actor: nat)
    requires ValidPlan(plan)
    ensures var f := FilesAfter(plan, moves);
            var (f', v) := CompleteReview(f, review, actor);
            && (v.Granted? <==>
                  && review < |f.reviews| && f.reviews[review].closedBy.None? && f.reviews[review].assignee == actor
                  && exists x: nat :: Regularizes(f.ledger.entries, x, review))
            && (v.Granted? ==> exists x: nat :: Regularizes(f.ledger.entries, x, review) && CompletedBy(f, f', review, actor, x))
            && (!v.Granted? ==> f' == f)
  {
    hide FilesInv, FilesAfter, CompleteReview, Regularizes, CompletedBy;
    FilesFiled(plan, moves);
    CompletionDecided(FilesAfter(plan, moves), review, actor);
  }

  ghost predicate CompletedBy(f: Files, f': Files, review: nat, actor: nat, x: nat)
    requires review < |f.reviews|
  {
    f' == f.(evidences := f.evidences + [Evidence(review, x, 1, None, None)],
             reviews := f.reviews[review := f.reviews[review].(closedBy := Some(actor))])
  }

  lemma CompletionDecided(f: Files, review: nat, actor: nat)
    requires FilesInv(f)
    ensures var (f', v) := CompleteReview(f, review, actor);
            && (v.Granted? <==>
                  && review < |f.reviews| && f.reviews[review].closedBy.None? && f.reviews[review].assignee == actor
                  && exists x: nat :: Regularizes(f.ledger.entries, x, review))
            && (v.Granted? ==> exists x: nat :: Regularizes(f.ledger.entries, x, review) && CompletedBy(f, f', review, actor, x))
            && (!v.Granted? ==> f' == f)
  {
    hide FilesInv, FindEntry;
    var x := FindEntry(f.ledger.entries, WaiverRegularization(review));
    OnlyWaiverEntry(f, WaiverRegularization(review));
    if x.Some? {
      EntryBalances(f, x.value);
      assert Regularizes(f.ledger.entries, x.value, review) <==> !ReversedBy(f.ledger.entries, x.value);
    }
  }

  lemma EntryBalances(f: Files, x: nat)
    requires FilesInv(f) && x < |f.ledger.entries|
    ensures f.ledger.entries[x].totalDebit == f.ledger.entries[x].totalCredit > 0
  {
    assert Inv(f.ledger) && EntrySound(f.ledger.years, f.ledger.accounts, f.ledger.entries[x]);
  }

  lemma OnlyWaiverEntry(f: Files, origin: Origin)
    requires FilesInv(f) && IsWaiver(origin)
    ensures forall x: nat :: x < |f.ledger.entries| && f.ledger.entries[x].origin == origin ==> FindEntry(f.ledger.entries, origin) == Some(x)
  {
    assert WaiverEntriesSound(f);
    hide FilesInv, WaiverEntrySound;
  }

  // ---------- reversing ----------

  /** Neither whoever opened the review nor whoever closed it. */
  ghost predicate Outsider(f: Files, review: nat, actor: nat) {
    review < |f.reviews| && actor != f.reviews[review].openedBy && f.reviews[review].closedBy != Some(actor)
  }

  /** Evidence `h` is the latest of its review, its entry stands in an open year that takes the date, which is not
      before that of the entry, and no reversal of it is pending or completed. */
  ghost predicate CanReverse(f: Files, review: nat, h: nat, date: int) {
    && IsLatest(f.evidences, review, h) && f.evidences[h].entry < |f.ledger.entries|
    && var e := f.ledger.entries[f.evidences[h].entry];
       && TakesDate(f.ledger.years, e.fiscalYear, date) && e.date <= date
       && forall p :: 0 <= p < |f.reversals| && f.reversals[p].evidence == h ==> f.reversals[p].status == Declined || f.reversals[p].status == Withdrawn
  }

  lemma ReversalRequestOutcome(plan: seq<PlanAccount>, moves: seq<Move>, review: nat, duplicate: bool, date: int, actor: nat)
    requires ValidPlan(plan)
    ensures var f := FilesAfter(plan, moves);
            var (f', v) := RequestReversal(f, review, duplicate, date, actor);
            && (v.Granted? <==> Outsider(f, review, actor) && exists h: nat :: CanReverse(f, review, h, date))
            && (v.Granted? ==> exists h: nat :: CanReverse(f, review, h, date) && ReversalAsked(f, f', review, h, duplicate, date, actor))
            && (!v.Granted? ==> f' == f)
  {
    hide FilesInv, FilesAfter, RequestReversal, Outsider, CanReverse, ReversalAsked;
    FilesFiled(plan, moves);
    ReversalRequestDecided(FilesAfter(plan, moves), review, duplicate, date, actor);
  }

  ghost predicate ReversalAsked(f: Files, f': Files, review: nat, h: nat, duplicate: bool, date: int, actor: nat) {
    h < |f.evidences| && f' == f.(reversals := f.reversals + [ReversalRequest(review, h, f.evidences[h].entry, Awaiting, 1, duplicate, date, actor, None)])
  }

  lemma ReversalRequestDecided(f: Files, review: nat, duplicate: bool, date: int, actor: nat)
    requires FilesInv(f)
    ensures var (f', v) := RequestReversal(f, review, duplicate, date, actor);
            && (v.Granted? <==> Outsider(f, review, actor) && exists h: nat :: CanReverse(f, review, h, date))
            && (v.Granted? ==> exists h: nat :: CanReverse(f, review, h, date) && ReversalAsked(f, f', review, h, duplicate, date, actor))
            && (!v.Granted? ==> f' == f)
  {
    hide FilesInv, Inv, Chained, ReviewsSound, Sequenced, HeadOf, IsLatest, ActiveReversal;
    FilesParts(f);
    HeadIsLatest(f.ledger.entries, f.evidences, review);
    LatestIsClosed(f, review);
    var h := HeadOf(f.evidences, review);
    if h.Some? {
      EntryExists(f.ledger.entries, f.evidences, h.value);
      ActiveOnEvidence(f, h.value);
      var (f', v) := RequestReversal(f, review, duplicate, date, actor);
      assert v.Granted? ==> CanReverse(f, review, h.value, date) && ReversalAsked(f, f', review, h.value, duplicate, date, actor);
    }
  }

  lemma LatestIsClosed(f: Files, review: nat)
    requires ReviewsSound(f.reviews, f.evidences)
    ensures HeadOf(f.evidences, review).Some? ==> review < |f.reviews| && f.reviews[review].closedBy.Some?
  {
  }

  /** No two pieces of evidence rest on one entry. */
  lemma EntriesDiffer(f: Files, k: nat, j: nat)
    requires FilesInv(f) && k < j < |f.evidences|
    ensures f.evidences[k].entry != f.evidences[j].entry
  {
    var es, ev := f.ledger.entries, f.evidences;
    assert RowSound(es, ev, k) && RowSound(es, ev, j);
    ChainedPrefix(es, ev, k);
    ChainedPrefix(es, ev, j);
    HeadIsLatest(es, ev[..k], ev[k].review);
    HeadIsLatest(es, ev[..j], ev[j].review);
    assert ev[..j][k] == ev[k];
  }

  lemma ActiveOnEvidence(f: Files, h: nat)
    requires FilesInv(f) && h < |f.evidences|
    ensures ActiveReversal(f.reversals, h, f.evidences[h].entry) <==>
              exists p :: 0 <= p < |f.reversals| && f.reversals[p].evidence == h && f.reversals[p].status != Declined && f.reversals[p].status != Withdrawn
  {
    assert ReversalsSound(f.ledger, f.reviews, f.evidences, f.reversals);
    hide FilesInv;
    forall p | 0 <= p < |f.reversals| && f.reversals[p].target == f.evidences[h].entry ensures f.reversals[p].evidence == h {
      assert ReversalRow(f.ledger, f.reviews, f.evidences, p, f.reversals[p]);
      var e := f.reversals[p].evidence;
      if e < h { EntriesDiffer(f, e, h); }
      if h < e { EntriesDiffer(f, h, e); }
    }
  }

  /** The reversal is pending, somebody independent approves it, and the year of its target is open. */
  ghost predicate CanApproveReversal(f: Files, q: nat, actor: nat) {
    && q < |f.reversals|
    && var r := f.reversals[q];
       && r.status == Awaiting && r.requestedBy != actor && Outsider(f, r.review, actor)
       && r.target < |f.ledger.entries| && f.ledger.entries[r.target].fiscalYear < |f.ledger.years|
       && f.ledger.years[f.ledger.entries[r.target].fiscalYear].status == Open
  }

  /** The mirror of the target is posted on the date asked for, in the year of the target. */
  ghost predicate ReversalPosted(f: Files, f': Files, q: nat, actor: nat) {
    && q < |f.reversals| && f.reversals[q].target < |f.ledger.entries|
    && var r, e := f.reversals[q], f.ledger.entries[f.reversals[q].target];
       && f' == f.(ledger := f'.ledger, reversals := f.reversals[q := r.(status := Fulfilled, version := 2, approvedBy := Some(actor))])
       && Posted(f, f'.ledger, e.fiscalYear, r.date, WaiverReversal(q), Some(r.target), e.totalDebit, Mirror(e.lines))
  }

  lemma ReversalApprovalOutcome(plan: seq<PlanAccount>, moves: seq<Move>, q: nat, actor: nat)
    requires ValidPlan(plan)
    ensures var f := FilesAfter(plan, moves);
            var (f', v) := ApproveReversal(f, q, actor);
            && (v.Granted? <==> CanApproveReversal(f, q, actor))
            && (v.Granted? ==> ReversalPosted(f, f', q, actor))
            && !v.Aborts? && (!v.Granted? ==> f' == f)
  {
    hide FilesInv, FilesAfter, ApproveReversal, CanApproveReversal, ReversalPosted;
    FilesFiled(plan, moves);
    ReversalApproved(FilesAfter(plan, moves), q, actor);
  }

  lemma ReversalApproved(f: Files, q: nat, actor: nat)
    requires FilesInv(f)
    ensures var (f', v) := ApproveReversal(f, q, actor);
            && (v.Granted? <==> CanApproveReversal(f, q, actor))
            && (v.Granted? ==> ReversalPosted(f, f', q, actor))
            && !v.Aborts? && (!v.Granted? ==> f' == f)
  {
    hide FilesInv, Inv, Sequenced, Chained, ReviewsSound, TableAccepts, ReversedBy, LastSequence, CountYear, Mirror;
    if q < |f.reversals| && f.reversals[q].status == Awaiting {
      ReversalDecided(f, q, actor);
      FilesParts(f);
      ReversalDates(f, q);
      EntryBalances(f, f.reversals[q].target);
    }
  }

  lemma ReversalDates(f: Files, q: nat)
    requires FilesInv(f) && q < |f.reversals|
    ensures f.reversals[q].target < |f.ledger.entries| && f.ledger.entries[f.reversals[q].target].year == f.reversals[q].date / 10000
  {
    assert ReversalRow(f.ledger, f.reviews, f.evidences, q, f.reversals[q]);
    assert Inv(f.ledger) && EntrySound(f.ledger.years, f.ledger.accounts, f.ledger.entries[f.reversals[q].target]);
  }

  /** A pending reversal is declined by anybody but who asked for it, and withdrawn by nobody else. */
  lemma ReversalFinishOutcome(plan: seq<PlanAccount>, moves: seq<Move>, q: nat, reject: bool, actor: nat)
    requires ValidPlan(plan)
    ensures var f := FilesAfter(plan, moves);
            var (f', v) := FinishReversal(f, q, reject, actor);
            && (v.Granted? <==> q < |f.reversals| && f.reversals[q].status == Awaiting && (reject <==> f.reversals[q].requestedBy != actor))
            && (v.Granted? ==>
                  f' == f.(reversals := f.reversals[q := f.reversals[q].(status := if reject then Declined else Withdrawn, version := 2)]))
            && (!v.Granted? ==> f' == f)
  {
    hide FilesAfter, FilesInv;
    FilesFiled(plan, moves);
    var f := FilesAfter(plan, moves);
    if q < |f.reversals| { VersionsOfReversal(f, q); }
  }

  lemma VersionsOfReversal(f: Files, q: nat)
    requires FilesInv(f) && q < |f.reversals|
    ensures f.reversals[q].version == if f.reversals[q].status == Awaiting then 1 else 2
  {
    assert ReversalRow(f.ledger, f.reviews, f.evidences, q, f.reversals[q]);
  }

  // ---------- replacing ----------

  /** Evidence `h` is the latest of its review, reversal `p` of it is completed and no duplicate, its year is open and
      takes the date, which is not before the reversal, and no replacement of it is pending or completed. */
  ghost predicate CanReplace(f: Files, review: nat, h: nat, p: nat, date: int) {
    && IsLatest(f.evidences, review, h) && f.evidences[h].entry < |f.ledger.entries|
    && p < |f.reversals| && f.reversals[p].evidence == h && f.reversals[p].status == Fulfilled && !f.reversals[p].duplicate
    && TakesDate(f.ledger.years, f.ledger.entries[f.evidences[h].entry].fiscalYear, date) && f.reversals[p].date <= date
    && forall k :: 0 <= k < |f.replacements| && f.replacements[k].source == h ==>
         f.replacements[k].status == Declined || f.replacements[k].status == Withdrawn
  }

  ghost predicate ReplacementAsked(f: Files, f': Files, review: nat, h: nat, p: nat, date: int, lines: seq<Line>, actor: nat) {
    && h < |f.evidences| && f.evidences[h].entry < |f.ledger.entries|
    && var y := f.ledger.entries[f.evidences[h].entry].fiscalYear;
       && AllOnActive(f.ledger.accounts, lines, y)
       && f' == f.(replacements := f.replacements + [ReplacementRequest(review, h, p, y, Awaiting, 1, date, lines, actor, None)])
  }

  lemma ReplacementRequestOutcome(plan: seq<PlanAccount>, moves: seq<Move>, review: nat, date: int, lines: seq<Line>, actor: nat)
    requires ValidPlan(plan)
    ensures var f := FilesAfter(plan, moves);
            var (f', v) := RequestReplacement(f, review, date, lines, actor);
            && (v.Granted? <==>
                  && GoodLines(lines) && |lines| <= 200 && Outsider(f, review, actor)
                  && exists h: nat, p: nat :: CanReplace(f, review, h, p, date)
                                              && AllOnActive(f.ledger.accounts, lines, f.ledger.entries[f.evidences[h].entry].fiscalYear))
            && (v.Granted? ==> exists h: nat, p: nat :: CanReplace(f, review, h, p, date) && ReplacementAsked(f, f', review, h, p, date, lines, actor))
            && (!v.Granted? ==> f' == f)
  {
    hide FilesInv, FilesAfter, Filed, RequestReplacement, GoodLines, Outsider, ReplacementAsked, AllOnActive;
    FilesFiled(plan, moves);
    ReplacementRequestDecided(FilesAfter(plan, moves), review, date, lines, actor);
  }

  lemma OneCompletedReversal(f: Files, h: nat)
    requires FilesInv(f)
    ensures forall p: nat :: p < |f.reversals| && f.reversals[p].evidence == h && f.reversals[p].status == Fulfilled ==> CompletedReversal(f.reversals, h) == Some(p)
  {
    assert ReversalsSound(f.ledger, f.reviews, f.evidences, f.reversals);
    hide FilesInv, ReversalRow;
  }

  /** The completed reversal has its entry, in the year of the evidence; only replacements of its evidence use it. */
  lemma ReversalBehind(f: Files, h: nat, p: nat)
    requires FilesInv(f) && Filed(f) && h < |f.evidences|
    requires p < |f.reversals| && f.reversals[p].evidence == h && f.reversals[p].status == Fulfilled
    ensures f.evidences[h].entry < |f.ledger.entries|
    ensures var x := FindEntry(f.ledger.entries, WaiverReversal(p));
            x.Some? && f.ledger.entries[x.value].fiscalYear == f.ledger.entries[f.evidences[h].entry].fiscalYear
    ensures ReversalReplaced(f.replacements, p) ==> ActiveReplacement(f.replacements, h)
  {
    assert ReversalRow(f.ledger, f.reviews, f.evidences, p, f.reversals[p]);
    hide FilesInv, EntryFiled;
    var x := FindEntry(f.ledger.entries, WaiverReversal(p));
    ReversalLies(f, p, x.value);
    forall k | 0 <= k < |f.replacements| && f.replacements[k].reversal == p ensures f.replacements[k].source == h {
      assert Behind(f, f.replacements[k]);
    }
  }

  lemma ReplacementRequestDecided(f: Files, review: nat, date: int, lines: seq<Line>, actor: nat)
    requires FilesInv(f) && Filed(f)
    ensures var (f', v) := RequestReplacement(f, review, date, lines, actor);
            && (v.Granted? <==>
                  && GoodLines(lines) && |lines| <= 200 && Outsider(f, review, actor)
                  && exists h: nat, p: nat :: CanReplace(f, review, h, p, date)
                                              && AllOnActive(f.ledger.accounts, lines, f.ledger.entries[f.evidences[h].entry].fiscalYear))
            && (v.Granted? ==> exists h: nat, p: nat :: CanReplace(f, review, h, p, date) && ReplacementAsked(f, f', review, h, p, date, lines, actor))
            && (!v.Granted? ==> f' == f)
  {
    hide FilesInv, Filed, Inv, Chained, ReviewsSound, Sequenced, HeadOf, IsLatest, GoodLines, NonNegative, LinesBalance, ActivePostable, AllOnActive,
      ReversalReplaced, FindEntry, CompletedReversal;
    FilesParts(f);
    GoodLinesBalance(lines);
    HeadIsLatest(f.ledger.entries, f.evidences, review);
    LatestIsClosed(f, review);
    var h := HeadOf(f.evidences, review);
    if h.Some? {
      OneCompletedReversal(f, h.value);
      var p := CompletedReversal(f.reversals, h.value);
      if p.Some? {
        ReversalBehind(f, h.value, p.value);
        var y := f.ledger.entries[f.evidences[h.value].entry].fiscalYear;
        LinesOnActive(f.ledger.accounts, lines, y);
        var (f', v) := RequestReplacement(f, review, date, lines, actor);
        assert v.Granted? ==> CanReplace(f, review, h.value, p.value, date) && ReplacementAsked(f, f', review, h.value, p.value, date, lines, actor);
      }
    }
  }

  lemma GoodLinesBalance(lines: seq<Line>)
    ensures GoodLines(lines) <==> |lines| >= 2 && NonNegative(lines) && LinesBalance(lines)
  {
    GoodLinesMean(lines);
  }

  /** The replacement is pending under the proposal seen, somebody independent approves it, its year is open and its
      accounts still take postings. */
  ghost predicate CanApproveReplacement(f: Files, q: nat, sameProposal: bool, actor: nat) {
    && q < |f.replacements| && sameProposal
    && var r := f.replacements[q];
       && r.status == Awaiting && r.requestedBy != actor && Outsider(f, r.review, actor)
       && r.fiscalYear < |f.ledger.years| && f.ledger.years[r.fiscalYear].status == Open
       && AllOnActive(f.ledger.accounts, r.lines, r.fiscalYear)
  }

  /** The proposed lines are posted on the date asked for and become the next evidence of the review. */
  ghost predicate ReplacementPosted(f: Files, f': Files, q: nat, actor: nat) {
    && q < |f.replacements| && f.replacements[q].source < |f.evidences|
    && var r := f.replacements[q];
       && f' == f.(ledger := f'.ledger,
                   evidences := f.evidences
                     + [Evidence(r.review, |f.ledger.entries|, f.evidences[r.source].sequence + 1, Some(r.source), Some(q))],
                   replacements := f.replacements[q := r.(status := Fulfilled, version := 2, approvedBy := Some(actor))])
       && Posted(f, f'.ledger, r.fiscalYear, r.date, WaiverReplacement(q), None, DebitTotal(r.lines), r.lines)
  }

  lemma ReplacementApprovalOutcome(plan: seq<PlanAccount>, moves: seq<Move>, q: nat, sameProposal: bool, actor: nat)
    requires ValidPlan(plan)
    ensures var f := FilesAfter(plan, moves);
            var (f', v) := ApproveReplacement(f, q, sameProposal, actor);
            && (v.Granted? <==> CanApproveReplacement(f, q, sameProposal, actor))
            && (v.Granted? ==> ReplacementPosted(f, f', q, actor))
            && !v.Aborts? && (!v.Granted? ==> f' == f)
  {
    hide FilesInv, FilesAfter, ApproveReplacement, CanApproveReplacement, ReplacementPosted;
    FilesFiled(plan, moves);
    ReplacementApproved(FilesAfter(plan, moves), q, sameProposal, actor);
  }

  lemma ReplacementApproved(f: Files, q: nat, sameProposal: bool, actor: nat)
    requires FilesInv(f)
    ensures var (f', v) := ApproveReplacement(f, q, sameProposal, actor);
            && (v.Granted? <==> CanApproveReplacement(f, q, sameProposal, actor))
            && (v.Granted? ==> ReplacementPosted(f, f', q, actor))
            && !v.Aborts? && (!v.Granted? ==> f' == f)
  {
    hide FilesInv, Inv, Sequenced, Chained, ReviewsSound, TableAccepts, LastSequence, CountYear, Superseded, ActivePostable, AllOnActive;
    if q < |f.replacements| && f.replacements[q].status == Awaiting {
      var r := f.replacements[q];
      ReplacementDecided(f, q, sameProposal, actor);
      FilesParts(f);
      ReplacementDates(f, q);
      LinesOnActive(f.ledger.accounts, r.lines, r.fiscalYear);
    }
  }

  lemma ReplacementDates(f: Files, q: nat)
    requires FilesInv(f) && q < |f.replacements|
    ensures var r := f.replacements[q];
            && r.source < |f.evidences| && r.fiscalYear < |f.ledger.years| && f.ledger.years[r.fiscalYear].year == r.date / 10000
            && DebitTotal(r.lines) == CreditTotal(r.lines)
  {
    assert ReplacementRow(f.ledger, f.reviews, f.evidences, q, f.replacements[q]);
  }

  /** A pending replacement is declined by anybody but who asked for it, and withdrawn by nobody else. */
  lemma ReplacementFinishOutcome(plan: seq<PlanAccount>, moves: seq<Move>, q: nat, reject: bool, actor: nat)
    requires ValidPlan(plan)
    ensures var f := FilesAfter(plan, moves);
            var (f', v) := FinishReplacement(f, q, reject, actor);
            && (v.Granted? <==> q < |f.replacements| && f.replacements[q].status == Awaiting && (reject <==> f.replacements[q].requestedBy != actor))
            && (v.Granted? ==>
                  f' == f.(replacements := f.replacements[q := f.replacements[q].(status := if reject then Declined else Withdrawn, version := 2)]))
            && (!v.Granted? ==> f' == f)
  {
    hide FilesAfter, FilesInv;
    FilesFiled(plan, moves);
    var f := FilesAfter(plan, moves);
    if q < |f.replacements| { VersionsOfReplacement(f, q); }
  }

  lemma VersionsOfReplacement(f: Files, q: nat)
    requires FilesInv(f) && q < |f.replacements|
    ensures f.replacements[q].version == if f.replacements[q].status == Awaiting then 1 else 2
  {
    assert ReplacementRow(f.ledger, f.reviews, f.evidences, q, f.replacements[q]);
  }
}
