/**
 The laws of waiver evidence, over every run from the empty files.
 */
module WaiverTheorems {
  import opened Ledger
  import opened FiscalCycle
  import opened CycleInvariant
  import opened Waiver
  import opened WaiverInvariant
  import opened WaiverSteps
  import opened WaiverPostings

  ghost function FilesAfter(plan: seq<PlanAccount>, moves: seq<Move>): Files {
    Plays(plan, NO_FILES, moves)
  }

  lemma FilesHold(plan: seq<PlanAccount>, moves: seq<Move>)
    requires ValidPlan(plan)
    ensures FilesInv(FilesAfter(plan, moves))
  {
    NoFilesHold();
    PlaysKeep(plan, NO_FILES, moves);
  }

  // ---------- the net of a chain ----------

  /** However often the evidence of a review was reversed and replaced, everything posted for it adds up,
      on every account, to the lines of its latest evidence, or to nothing if that has been reversed. */
  lemma ChainNetsToHead(plan: seq<PlanAccount>, moves: seq<Move>, review: nat, a: nat)
    requires ValidPlan(plan)
    ensures var f := FilesAfter(plan, moves);
            var h := HeadOf(f.evidences, review);
            h.Some? ==>
              && f.evidences[h.value].entry < |f.ledger.entries|
              && ChainNet(f.reversals, f.replacements, f.ledger.entries, review, a)
                 == if ReversedBy(f.ledger.entries, f.evidences[h.value].entry) then 0 else LineNet(f.ledger.entries[f.evidences[h.value].entry].lines, a)
  {
    FilesHold(plan, moves);
    HeadDecides(FilesAfter(plan, moves), review, a);
  }

  lemma HeadDecides(f: Files, review: nat, a: nat)
    requires FilesInv(f)
    ensures var h := HeadOf(f.evidences, review);
            h.Some? ==>
              && f.evidences[h.value].entry < |f.ledger.entries|
              && ChainNet(f.reversals, f.replacements, f.ledger.entries, review, a)
                 == if ReversedBy(f.ledger.entries, f.evidences[h.value].entry) then 0 else LineNet(f.ledger.entries[f.evidences[h.value].entry].lines, a)
  {
    hide Inv, ReversalsSound, ReplacementsSound, ReviewsSound, WaiverEntriesSound, ResultsSound, ChainNet, LineNet, RowSound;
    var h := HeadOf(f.evidences, review);
    if h.Some? {
      EntryExists(f.ledger.entries, f.evidences, h.value);
      assert ChainNet(f.reversals, f.replacements, f.ledger.entries, review, a) == HeadNet(f.ledger.entries, f.evidences, review, a);
    }
  }

  // ---------- the line of evidence ----------

  function CountReview(evidences: seq<Evidence>, review: nat): nat {
    if evidences == [] then 0
    else CountReview(evidences[..|evidences| - 1], review) + if evidences[|evidences| - 1].review == review then 1 else 0
  }

  /** The evidence of a review is numbered 1, 2, 3, ... in the order in which it was added, each piece
      supersedes the one just before it, and nothing that was superseded still stands. */
  ghost predicate InLine(entries: seq<Entry>, evidences: seq<Evidence>, k: nat)
    requires k < |evidences|
  {
    var e := evidences[k];
    && e.sequence == CountReview(evidences[..k], e.review) + 1
    && (e.sequence == 1 ==> e.supersedes.None?)
    && (e.sequence > 1 ==>
          && e.supersedes.Some? && e.supersedes.value < k
          && evidences[e.supersedes.value].review == e.review && evidences[e.supersedes.value].sequence == e.sequence - 1
          && ReversedBy(entries, evidences[e.supersedes.value].entry))
  }

  lemma ChainedPrefix(entries: seq<Entry>, evidences: seq<Evidence>, n: nat)
    requires Chained(entries, evidences) && n <= |evidences|
    ensures Chained(entries, evidences[..n])
  {
    var p := evidences[..n];
    forall k | 0 <= k < |p| ensures RowSound(entries, p, k) {
      assert RowSound(entries, evidences, k);
      assert p[..k] == evidences[..k];
      var h := HeadOf(p[..k], p[k].review);
      if h.Some? { assert p[h.value] == evidences[h.value]; }
    }
  }

  lemma {:induction false} HeadIsCount(entries: seq<Entry>, evidences: seq<Evidence>, review: nat)
    requires Chained(entries, evidences)
    ensures var h := HeadOf(evidences, review);
            CountReview(evidences, review) == if h.None? then 0 else evidences[h.value].sequence
  {
    if evidences != [] {
      var n := |evidences| - 1;
      ChainedPrefix(entries, evidences, n);
      HeadIsCount(entries, evidences[..n], review);
      assert RowSound(entries, evidences, n);
    }
  }

  lemma RowsInLine(entries: seq<Entry>, evidences: seq<Evidence>, k: nat)
    requires Chained(entries, evidences) && k < |evidences|
    ensures InLine(entries, evidences, k)
  {
    ChainedPrefix(entries, evidences, k);
    HeadIsCount(entries, evidences[..k], evidences[k].review);
    assert RowSound(entries, evidences, k);
    var h := HeadOf(evidences[..k], evidences[k].review);
    if h.Some? { EntryExists(entries, evidences, h.value); }
  }

  lemma EvidenceInLine(plan: seq<PlanAccount>, moves: seq<Move>, k: nat)
    requires ValidPlan(plan) && k < |FilesAfter(plan, moves).evidences|
    ensures InLine(FilesAfter(plan, moves).ledger.entries, FilesAfter(plan, moves).evidences, k)
  {
    FilesHold(plan, moves);
    hide InLine, RowSound;
    RowsInLine(FilesAfter(plan, moves).ledger.entries, FilesAfter(plan, moves).evidences, k);
  }

  // ---------- entries and requests ----------

  /** An entry stands under a request exactly when the request was completed, never twice, and it holds the
      mirror of the entry reversed, or the lines proposed; a completed replacement has its evidence. */
  lemma EntryForEveryCompletion(plan: seq<PlanAccount>, moves: seq<Move>, q: nat)
    requires ValidPlan(plan)
    ensures var f := FilesAfter(plan, moves);
            && (HasEntry(f.ledger.entries, WaiverReversal(q)) <==> q < |f.reversals| && f.reversals[q].status == Fulfilled)
            && (HasEntry(f.ledger.entries, WaiverReplacement(q)) <==> q < |f.replacements| && f.replacements[q].status == Fulfilled)
            && (HasResult(f.evidences, q) <==> q < |f.replacements| && f.replacements[q].status == Fulfilled)
            && (forall k :: 0 <= k < |f.ledger.entries| ==> WaiverEntrySound(f, f.ledger.entries[k]))
            && (forall j, k :: 0 <= j < k < |f.ledger.entries| && IsWaiver(f.ledger.entries[j].origin)
                               ==> f.ledger.entries[j].origin != f.ledger.entries[k].origin)
  {
    FilesHold(plan, moves);
    CompletionsMatch(FilesAfter(plan, moves), q);
  }

  lemma CompletionsMatch(f: Files, q: nat)
    requires FilesInv(f)
    ensures HasEntry(f.ledger.entries, WaiverReversal(q)) <==> q < |f.reversals| && f.reversals[q].status == Fulfilled
    ensures HasEntry(f.ledger.entries, WaiverReplacement(q)) <==> q < |f.replacements| && f.replacements[q].status == Fulfilled
    ensures HasResult(f.evidences, q) <==> q < |f.replacements| && f.replacements[q].status == Fulfilled
    ensures forall k :: 0 <= k < |f.ledger.entries| ==> WaiverEntrySound(f, f.ledger.entries[k])
    ensures forall j, k :: 0 <= j < k < |f.ledger.entries| && IsWaiver(f.ledger.entries[j].origin)
                           ==> f.ledger.entries[j].origin != f.ledger.entries[k].origin
  {
    hide Inv, Chained, ReviewsSound, ChainsNet;
    if q < |f.reversals| {
      assert ReversalRow(f.ledger, f.reviews, f.evidences, q, f.reversals[q]);
    } else {
      NoEntryYet(f, WaiverReversal(q));
    }
    if q < |f.replacements| {
      assert ReplacementRow(f.ledger, f.reviews, f.evidences, q, f.replacements[q]);
    } else {
      NoEntryYet(f, WaiverReplacement(q));
    }
  }

  /** Whoever approves asked for nothing, and neither opened nor closed the review; whoever asks did neither. */
  lemma ApprovalsAreIndependent(plan: seq<PlanAccount>, moves: seq<Move>, q: nat)
    requires ValidPlan(plan)
    ensures var f := FilesAfter(plan, moves);
            && (q < |f.reversals| ==> Independent(f.reviews, f.reversals[q].review, f.reversals[q].requestedBy, f.reversals[q].approvedBy))
            && (q < |f.replacements| ==> Independent(f.reviews, f.replacements[q].review, f.replacements[q].requestedBy, f.replacements[q].approvedBy))
  {
    FilesHold(plan, moves);
    var f := FilesAfter(plan, moves);
    hide Inv, Chained, ReviewsSound, ChainsNet, WaiverEntriesSound, ResultsSound, Independent;
    if q < |f.reversals| { assert ReversalRow(f.ledger, f.reviews, f.evidences, q, f.reversals[q]); }
    if q < |f.replacements| { assert ReplacementRow(f.ledger, f.reviews, f.evidences, q, f.replacements[q]); }
  }

  // ---------- when approvals succeed ----------

  /** A pending reversal never finds its target reversed; it is granted exactly when the approver is
      independent and the year of the entry is open. */
  lemma ReversalOutcome(plan: seq<PlanAccount>, moves: seq<Move>, q: nat, actor: nat)
    requires ValidPlan(plan)
    requires q < |FilesAfter(plan, moves).reversals| && FilesAfter(plan, moves).reversals[q].status == Awaiting
    ensures var f := FilesAfter(plan, moves);
            var r := f.reversals[q];
            && r.review < |f.reviews| && r.target < |f.ledger.entries| && f.ledger.entries[r.target].fiscalYear < |f.ledger.years|
            && (ApproveReversal(f, q, actor).1.Granted? <==>
                  && r.requestedBy != actor && !IsParty(f.reviews[r.review], actor)
                  && f.ledger.years[f.ledger.entries[r.target].fiscalYear].status == Open)
            && !ApproveReversal(f, q, actor).1.Aborts?
  {
    FilesHold(plan, moves);
    ReversalDecided(FilesAfter(plan, moves), q, actor);
  }

  lemma ReversalDecided(f: Files, q: nat, actor: nat)
    requires FilesInv(f) && q < |f.reversals| && f.reversals[q].status == Awaiting
    ensures var r := f.reversals[q];
            && r.review < |f.reviews| && r.target < |f.ledger.entries| && f.ledger.entries[r.target].fiscalYear < |f.ledger.years|
            && (ApproveReversal(f, q, actor).1.Granted? <==>
                  && r.requestedBy != actor && !IsParty(f.reviews[r.review], actor)
                  && f.ledger.years[f.ledger.entries[r.target].fiscalYear].status == Open)
            && !ApproveReversal(f, q, actor).1.Aborts?
  {
    var r := f.reversals[q];
    assert ReversalRow(f.ledger, f.reviews, f.evidences, q, r);
    var target := f.ledger.entries[r.target];
    assert Inv(f.ledger) && EntrySound(f.ledger.years, f.ledger.accounts, target);
    hide FilesInv, Inv, IsParty;
    MirrorNegates(target.lines);
    MirrorOneSided(target.lines);
  }

  /** A pending replacement is never superseded; it is granted exactly when the proposal is the one the
      approver saw, the approver is independent, the year is open and the accounts still take postings. */
  lemma ReplacementOutcome(plan: seq<PlanAccount>, moves: seq<Move>, q: nat, sameProposal: bool, actor: nat)
    requires ValidPlan(plan)
    requires q < |FilesAfter(plan, moves).replacements| && FilesAfter(plan, moves).replacements[q].status == Awaiting
    ensures var f := FilesAfter(plan, moves);
            var r := f.replacements[q];
            && r.review < |f.reviews| && r.fiscalYear < |f.ledger.years|
            && (ApproveReplacement(f, q, sameProposal, actor).1.Granted? <==>
                  && sameProposal && r.requestedBy != actor && !IsParty(f.reviews[r.review], actor)
                  && f.ledger.years[r.fiscalYear].status == Open
                  && ActivePostable(f.ledger.accounts, r.lines, r.fiscalYear))
            && !ApproveReplacement(f, q, sameProposal, actor).1.Aborts?
  {
    FilesHold(plan, moves);
    ReplacementDecided(FilesAfter(plan, moves), q, sameProposal, actor);
  }

  lemma HeadNotSuperseded(entries: seq<Entry>, evidences: seq<Evidence>, review: nat)
    requires Chained(entries, evidences)
    ensures var h := HeadOf(evidences, review); h.Some? ==> !Superseded(evidences, h.value)
  {
    var h := HeadOf(evidences, review);
    if h.Some? {
      forall j | 0 <= j < |evidences| ensures evidences[j].supersedes != Some(h.value) {
        RowsInLine(entries, evidences, j);
        if evidences[j].review == review { HeadIsHighest(evidences, review, j); }
      }
    }
  }

  lemma {:induction false} HeadIsHighest(evidences: seq<Evidence>, review: nat, j: nat)
    requires j < |evidences| && evidences[j].review == review
    ensures HeadOf(evidences, review).Some? && evidences[j].sequence <= evidences[HeadOf(evidences, review).value].sequence
  {
    var n := |evidences| - 1;
    if j < n { HeadIsHighest(evidences[..n], review, j); }
  }

  lemma ProposalOneSided(lines: seq<Line>)
    requires NonNegative(lines) && LinesBalance(lines)
    ensures AllOneSided(lines)
  {
    forall i | 0 <= i < |lines| ensures OneSided(lines[i]) {
      assert !InvalidSide(lines[i]);
    }
  }

  lemma ReplacementDecided(f: Files, q: nat, sameProposal: bool, actor: nat)
    requires FilesInv(f) && q < |f.replacements| && f.replacements[q].status == Awaiting
    ensures var r := f.replacements[q];
            && r.review < |f.reviews| && r.fiscalYear < |f.ledger.years|
            && (ApproveReplacement(f, q, sameProposal, actor).1.Granted? <==>
                  && sameProposal && r.requestedBy != actor && !IsParty(f.reviews[r.review], actor)
                  && f.ledger.years[r.fiscalYear].status == Open
                  && ActivePostable(f.ledger.accounts, r.lines, r.fiscalYear))
            && !ApproveReplacement(f, q, sameProposal, actor).1.Aborts?
  {
    var r := f.replacements[q];
    assert ReplacementRow(f.ledger, f.reviews, f.evidences, q, r);
    HeadNotSuperseded(f.ledger.entries, f.evidences, r.review);
    hide FilesInv, IsParty, ActivePostable;
    ProposalOneSided(r.lines);
  }
}
