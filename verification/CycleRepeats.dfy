/**
 The cycle can be repeated: a year that was closed can at once be reopened, and a year that was
 reopened can at once be closed again, into the same successor.
 */
module CycleRepeats {
  import opened Ledger
  import opened Settlement
  import opened FiscalCycle
  import opened CycleInvariant
  import opened CycleSteps
  import opened CycleClose
  import opened CycleCloseKeeps
  import opened CycleReopenKeeps
  import opened CycleRuns
  import opened CycleTheorems

  // ---------- a reversed year holds nothing but the traces of the cycle ----------

  ghost predicate Untouched(s: State, y: nat) {
    !HasCloseRequest(s.closes, y + 1) && NoForeignEntry(s, y, y + 1)
  }

  ghost predicate ReversedUntouched(s: State) {
    forall y: nat {:trigger Untouched(s, y)} :: y + 1 < |s.years| && s.years[y + 1].status == Reversed ==> Untouched(s, y)
  }

  lemma KnownStays(s: State, s': State, y: nat, next: nat, i: nat)
    requires Grows(s, s') && KnownCycleEntry(s.closes, s.reopens, y, next, i)
    ensures KnownCycleEntry(s'.closes, s'.reopens, y, next, i)
  {
    var p :| 0 <= p < |s.closes| && s.closes[p].fiscalYear == y && s.closes[p].successor == Some(next) && s.closes[p].status == Completed
             && (s.closes[p].opening == Some(i) || ReversesOpeningOf(s.reopens, p, i));
    assert s'.closes[p] == s.closes[p];
    if ReversesOpeningOf(s.reopens, p, i) {
      var r :| 0 <= r < |s.reopens| && s.reopens[r].close == p && s.reopens[r].status == Completed && s.reopens[r].openingReversal == Some(i);
      assert s'.reopens[r] == s.reopens[r];
      assert ReversesOpeningOf(s'.reopens, p, i);
    }
  }

  /** Whatever is new in `s'` is in other years, or known to the cycle. */
  lemma UntouchedStays(s: State, s': State, y: nat)
    requires Grows(s, s') && Untouched(s, y)
    requires forall i :: |s.entries| <= i < |s'.entries| && s'.entries[i].fiscalYear == y + 1 ==> KnownCycleEntry(s'.closes, s'.reopens, y, y + 1, i)
    requires forall q :: |s.closes| <= q < |s'.closes| ==> s'.closes[q].fiscalYear != y + 1
    ensures Untouched(s', y)
  {
    var next: nat := y + 1;
    assert NoForeignEntry(s', y, next) by {
      forall i | 0 <= i < |s'.entries| && s'.entries[i].fiscalYear == next ensures KnownCycleEntry(s'.closes, s'.reopens, y, next, i) {
        if i < |s.entries| {
          assert s'.entries[i] == s.entries[i];
          assert KnownCycleEntry(s.closes, s.reopens, y, next, i);
          KnownStays(s, s', y, next, i);
        }
      }
    }
    forall p | 0 <= p < |s'.closes| ensures s'.closes[p].fiscalYear != next {
      if p < |s.closes| { assert s'.closes[p].fiscalYear == s.closes[p].fiscalYear; }
    }
  }

  /** Years stay as they are, and new entries and new close requests are for open years only. */
  ghost predicate OpenYearsOnly(s: State, s': State) {
    && (s'.years == s.years || |s'.years| == 1)
    && (forall i :: |s.entries| <= i < |s'.entries| ==> s'.entries[i].fiscalYear < |s.years| && s.years[s'.entries[i].fiscalYear].status == Open)
    && (forall q :: |s.closes| <= q < |s'.closes| ==> s'.closes[q].fiscalYear < |s.years| && s.years[s'.closes[q].fiscalYear].status == Open)
  }

  lemma PostsInOpenYears(s: State, date: int, origin: Origin, reverses: Option<nat>, lines: seq<Line>)
    ensures OpenYearsOnly(s, ManualEntry(s, date, lines).0)
    ensures OpenYearsOnly(s, Post(s, date, origin, reverses, lines).0)
  {
    hide TableAccepts, HasSide, NonNegative, LinesInYear;
    OpenYearAtMeans(s.years, date);
  }

  lemma OtherStepsInOpenYears(plan: seq<PlanAccount>, s: State, c: Command)
    requires !c.CmdApproveClose? && !c.CmdApproveReopen? && !c.CmdManualEntry? && !c.CmdPost?
    ensures OpenYearsOnly(s, Step(plan, s, c).0)
  {
    hide CloseReady, ReopenReady, NextYearTaken, ExpireStale;
  }

  lemma UndoneInSuccessor(entries: seq<Entry>, c: CloseRequest, p1: Posting, p2: Posting, p3: Posting)
    requires CloseLinksSound(entries, c) && Undone(entries, c, p1, p2, p3)
    ensures forall i :: |entries| <= i < |p3.entries| && p3.entries[i].fiscalYear == c.fiscalYear + 1 ==> p1.id == Some(i) && c.opening.Some?
  {
    hide PostReversals;
  }

  lemma ReopenLeavesUntouched(t: State, t': State, r: nat, q: nat, business: nat)
    requires Inv(t) && ReopenCommitted(t, t', r, q, business) && Grows(t, t')
    ensures Untouched(t', t.closes[q].fiscalYear)
  {
    hide Inv, PostReversals, Undone, CloseLinksSound, AllLinked, PlansMatch, NoneMissing, ValidAutomatic, NoForeignEntry, HasCloseRequest;
    var y := t.closes[q].fiscalYear;
    var p1, p2, p3 := ReadyReopenPosts(t, q, business);
    ReadyLinks(t, q, business);
    SuccessorIsNext(t, q);
    UndoneInSuccessor(t.entries, t.closes[q], p1, p2, p3);
    forall i | |t.entries| <= i < |t'.entries| && t'.entries[i].fiscalYear == y + 1
      ensures KnownCycleEntry(t'.closes, t'.reopens, y, y + 1, i)
    {
      assert t'.reopens[r].openingReversal == Some(i);
      assert ReversesOpeningOf(t'.reopens, q, i);
    }
    UntouchedStays(t, t', y);
  }

  lemma OnlyOneReversed(t: State, t': State, r: nat, q: nat, business: nat)
    requires Inv(t) && ReopenCommitted(t, t', r, q, business)
    ensures forall k: nat :: k < |t'.years| && t'.years[k].status == Reversed ==> k == t.closes[q].fiscalYear + 1
  {
    ReadyReopenYears(t, q, business);
  }

  lemma QuietStaysUntouched(s: State, s': State)
    requires ReversedUntouched(s) && Grows(s, s') && OpenYearsOnly(s, s')
    ensures ReversedUntouched(s')
  {
    forall y: nat | y + 1 < |s'.years| && s'.years[y + 1].status == Reversed ensures Untouched(s', y) {
      assert Untouched(s, y);
      UntouchedStays(s, s', y);
    }
  }

  lemma ApproveReopenUntouched(s: State, r: nat, now: int, ctx: Context, business: nat)
    requires Inv(s) && ReversedUntouched(s)
    ensures ReversedUntouched(ApproveReopen(s, r, now, ctx, business).0)
  {
    hide Inv, ApproveReopen, ReopenReady, Untouched, Grows, ExpireStale;
    var t := Refreshed(s, now);
    var (t', o) := ApproveReopen(s, r, now, ctx, business);
    ApproveReopenShape(s, r, now, ctx, business);
    ExpiryKeeps(s, now, None);
    ExpiryGrows(s, now, None);
    QuietStaysUntouched(s, t);
    if o.Done? {
      var q := t.reopens[r].close;
      CommittedReopenGrows(s, r, now, ctx, business);
      ReopenLeavesUntouched(t, t', r, q, business);
      OnlyOneReversed(t, t', r, q, business);
    }
  }

  lemma CommittedReopenGrows(s: State, r: nat, now: int, ctx: Context, business: nat)
    ensures Grows(Refreshed(s, now), ApproveReopen(s, r, now, ctx, business).0) || !ApproveReopen(s, r, now, ctx, business).1.Done?
  {
    hide ReopenReady, PostReversals;
    var t := Refreshed(s, now);
    if r < |t.reopens| && t.reopens[r].close < |t.closes| {
      ReversalsGrow(t.entries, t.closes[t.reopens[r].close]);
    }
  }

  lemma ApproveCloseUntouched(s: State, q: nat, now: int, ctx: Context, outside: OutsideJournal)
    requires Inv(s) && ReversedUntouched(s)
    ensures ReversedUntouched(ApproveClose(s, q, now, ctx, outside).0)
  {
    hide ApproveClose, Untouched, UnsupportedAtZero;
    ApproveCloseShape(s, q, now, ctx, outside);
    var (s', o) := ApproveClose(s, q, now, ctx, outside);
    if o.Done? {
      var y := s.closes[q].fiscalYear;
      ClosableIsReady(s, y);
      YearsClosed(s.years, y, now, ctx.actor);
      assert forall k: nat :: k < |s'.years| ==> s'.years[k].status != Reversed;
    }
  }

  lemma StepUntouched(plan: seq<PlanAccount>, s: State, c: Command)
    requires Inv(s) && ReversedUntouched(s)
    ensures ReversedUntouched(Step(plan, s, c).0)
  {
    hide Inv, ApproveClose, ApproveReopen, ReversedUntouched, Grows, OpenYearsOnly, RequestClose, CancelClose, RequestReopen, CancelReopen, RejectReopen, ManualEntry, Post;
    match c
    case CmdApproveClose(q, now, ctx, outside) => ApproveCloseUntouched(s, q, now, ctx, outside);
    case CmdApproveReopen(r, now, ctx, business) => ApproveReopenUntouched(s, r, now, ctx, business);
    case CmdManualEntry(date, lines) =>
      PostsInOpenYears(s, date, Manual, None, lines);
      StepGrows(plan, s, c);
      QuietStaysUntouched(s, ManualEntry(s, date, lines).0);
    case CmdPost(date, origin, reverses, lines) =>
      PostsInOpenYears(s, date, origin, reverses, lines);
      StepGrows(plan, s, c);
      QuietStaysUntouched(s, Post(s, date, origin, reverses, lines).0);
    case _ =>
      OtherStepsInOpenYears(plan, s, c);
      StepGrows(plan, s, c);
      QuietStaysUntouched(s, Step(plan, s, c).0);
  }

  lemma {:induction false} RunUntouched(plan: seq<PlanAccount>, s: State, commands: seq<Command>)
    requires Inv(s) && ValidPlan(plan) && ReversedUntouched(s)
    ensures ReversedUntouched(Run(plan, s, commands))
    decreases |commands|
  {
    hide Inv, ValidPlan, Step, ReversedUntouched;
    if commands != [] {
      StepKeeps(plan, s, commands[0]);
      StepUntouched(plan, s, commands[0]);
      RunUntouched(plan, Step(plan, s, commands[0]).0, commands[1..]);
    }
  }

  // ---------- right after a close ----------

  /** The journal of the successor right after a close: openings and their reversals only. */
  lemma SuccessorAfterClose(s: State, s': State, q: nat, now: int, actor: nat)
    requires Inv(s) && ReversedUntouched(s) && CloseCommitted(s, s', q, now, actor) && Grows(s, s')
    ensures Untouched(s', s.closes[q].fiscalYear)
  {
    var y := s.closes[q].fiscalYear;
    var p1, p2, p3 := StagesOf(s, s', q, now, actor);
    ClosableIsReady(s, y);
    assert Untouched(s, y) by {
      if y + 1 == |s.years| { NothingInMissingYear(s, y); }
    }
    NewInSuccessor(s, y, p1, p2, p3);
    forall i | |s.entries| <= i < |s'.entries| && s'.entries[i].fiscalYear == y + 1
      ensures KnownCycleEntry(s'.closes, s'.reopens, y, y + 1, i)
    {
      assert s'.closes[q].opening == Some(i);
    }
    UntouchedStays(s, s', y);
  }

  lemma NothingInMissingYear(s: State, y: nat)
    requires Inv(s) && |s.years| == y + 1
    ensures Untouched(s, y)
  {
    var next: nat := y + 1;
    forall i | 0 <= i < |s.entries| ensures s.entries[i].fiscalYear != next {
      assert EntrySound(s.years, s.accounts, s.entries[i]);
    }
    forall p | 0 <= p < |s.closes| ensures s.closes[p].fiscalYear != next {
      assert CloseRowSound(s.years, s.closes[p]);
    }
  }

  lemma NewInSuccessor(s: State, y: nat, p1: Posting, p2: Posting, p3: Posting)
    requires y < |s.years| && Stages(s, y, p1, p2, p3)
    ensures forall i :: |s.entries| <= i < |p3.entries| && p3.entries[i].fiscalYear == y + 1 ==> p3.id == Some(i)
  {
    hide RegularizationLines, ClosingEntryLines, OpeningEntryLines, PostClosure;
  }

  /** Right after a close, its reopening is ready as soon as the older copies still bear the names of
      their sources; after a first close there are no older copies. */
  lemma FreshCloseIsReopenable(plan: seq<PlanAccount>, commands: seq<Command>, q: nat, now: int, ctx: Context, outside: OutsideJournal)
    requires ValidPlan(plan)
    requires ApproveClose(Reached(plan, commands), q, now, ctx, outside).1.Done?
    ensures var s := Reached(plan, commands);
            var s' := ApproveClose(s, q, now, ctx, outside).0;
            var y := s.closes[q].fiscalYear;
            && (ReopenReady(s', q, 0) <==> NamesMatch(s'.accounts, y + 1))
            && (|s.years| == y + 1 ==> ReopenReady(s', q, 0))
  {
    hide Inv, ApproveClose, Run, ValidPlan, Untouched, ReopenReady, CloseCommitted, AllLinked, NoneMissing, NamesMatch, ReversedUntouched, MadeByCloses, FullyCopied;
    var s := Reached(plan, commands);
    var s' := ApproveClose(s, q, now, ctx, outside).0;
    ReachedInv(plan, commands);
    EmptyHolds();
    EmptyUntouched();
    RunUntouched(plan, EMPTY, commands);
    NoYearsMade();
    RunMadeByCloses(plan, EMPTY, commands);
    NothingToCopy();
    RunFullyCopied(plan, EMPTY, commands);
    ApproveCloseShape(s, q, now, ctx, outside);
    ApproveCloseKeeps(s, q, now, ctx, outside);
    ApproveCloseGrows(s, q, now, ctx, outside);
    ApproveCloseMade(s, q, now, ctx, outside);
    ApproveCloseKeepsCopies(s, q, now, ctx, outside);
    CommittedIsReopenable(s, s', q, now, ctx.actor);
  }

  lemma EmptyUntouched()
    ensures ReversedUntouched(EMPTY)
  {
  }

  lemma ApproveCloseMade(s: State, q: nat, now: int, ctx: Context, outside: OutsideJournal)
    requires Inv(s) && MadeByCloses(s.years, s.closes)
    ensures var s' := ApproveClose(s, q, now, ctx, outside).0; MadeByCloses(s'.years, s'.closes)
  {
    hide Inv, ApproveClose;
    var c := CmdApproveClose(q, now, ctx, outside);
    StepMadeByCloses([], s, c);
  }

  lemma CommittedIsReopenable(s: State, s': State, q: nat, now: int, actor: nat)
    requires Inv(s) && ReversedUntouched(s) && CloseCommitted(s, s', q, now, actor) && Grows(s, s')
    requires Inv(s') && MadeByCloses(s'.years, s'.closes) && FullyCopied(s')
    ensures var y := s.closes[q].fiscalYear;
            && (ReopenReady(s', q, 0) <==> NamesMatch(s'.accounts, y + 1))
            && (|s.years| == y + 1 ==> ReopenReady(s', q, 0))
  {
    hide Inv, ReopenReady, CloseCommitted, AllLinked, NoneMissing, NamesMatch, ReversedUntouched, MadeByCloses, Grows, FullyCopied;
    CommittedCloseYear(s, s', q, now, actor);
    var y := s.closes[q].fiscalYear;
    NewCloseIsCurrent(s, s', q, now, actor);
    SuccessorAfterClose(s, s', q, now, actor);
    PlanAfterClose(s, s', q, now, actor);
    ReopenReadyFrom(s', q, 0);
    if |s.years| == y + 1 {
      FirstCopiesAgree(s, s', q, now, actor);
    }
  }

  lemma FirstCopiesAgree(s: State, s': State, q: nat, now: int, actor: nat)
    requires Inv(s) && CloseCommitted(s, s', q, now, actor) && |s.years| == s.closes[q].fiscalYear + 1
    ensures NamesMatch(s'.accounts, s.closes[q].fiscalYear + 1)
  {
    hide PostClosure, AccountsAfterClose;
    var y := s.closes[q].fiscalYear;
    ClosableIsReady(s, y);
    AfterCopying(s.years, s.accounts, y);
    var next: nat := y + 1;
    forall a | 0 <= a < |s.accounts| ensures s.accounts[a].fiscalYear < next {
      assert AccountSound(s.years, s.accounts, s.accounts[a]);
    }
    forall a | 0 <= a < |s'.accounts| && s'.accounts[a].fiscalYear == next ensures NameAgrees(s'.accounts, a) {
      if |s.accounts| <= a {
        assert FreshCopy(YearAccounts(s.accounts, y), s.accounts, next, map[], s'.accounts[a]);
      }
    }
  }

  // ---------- right after a reopening ----------

  /** Right after a reopening its year can be asked to close again: it is open, its successor does not
      stand in the way, nobody else has asked, and the journal passes the preflight. */
  lemma ReopenedYearIsClosable(plan: seq<PlanAccount>, commands: seq<Command>, r: nat, now: int, ctx: Context, business: nat, outside: OutsideJournal)
    requires ValidPlan(plan)
    requires ApproveReopen(Reached(plan, commands), r, now, ctx, business).1.Done?
    ensures var s := Reached(plan, commands);
            var s' := ApproveReopen(s, r, now, ctx, business).0;
            && r < |s.reopens| && s.reopens[r].close < |s.closes|
            && var y := s.closes[s.reopens[r].close].fiscalYear;
            && y < |s'.years| && s'.years[y].status == Open
            && !NextYearTaken(s'.years, y) && !HasRequestedClose(s'.closes, y)
            && (CloseReady(s', y, outside) <==> NothingOutside(outside) && UnsupportedAtZero(s', y))
  {
    hide Inv, ApproveReopen, Run, ValidPlan, CloseReady, UnsupportedAtZero, ReopenReady;
    var s := Reached(plan, commands);
    var (s', o) := ApproveReopen(s, r, now, ctx, business);
    ReachedInv(plan, commands);
    ApproveReopenShape(s, r, now, ctx, business);
    ApproveReopenKeeps(s, r, now, ctx, business);
    ExpiryKeeps(s, now, None);
    var t := Refreshed(s, now);
    var q := t.reopens[r].close;
    ReadyReopenYears(t, q, business);
    var y := t.closes[q].fiscalYear;
    SomeYearOpenAgain(s', y);
    ReadyMeans(s', y, outside);
    NoPendingClose(t, q, business);
  }

  lemma SomeYearOpenAgain(s: State, y: nat)
    requires Inv(s) && y < |s.years| && s.years[y].status == Open
    ensures !NextYearTaken(s.years, y)
  {
    SomeYearIsOpen(s.years, y);
    NextYearFound(s.years, y);
  }

  /** While a year is closed nobody can have asked for its close. */
  lemma NoPendingClose(t: State, q: nat, business: nat)
    requires Inv(t) && q < |t.closes| && t.closes[q].status == Completed && ReopenReady(t, q, business)
    ensures !HasRequestedClose(t.closes, t.closes[q].fiscalYear)
  {
    var y := t.closes[q].fiscalYear;
    forall p | 0 <= p < |t.closes| && t.closes[p].fiscalYear == y ensures t.closes[p].status != Requested {
      assert CloseRowSound(t.years, t.closes[p]);
    }
  }
}
