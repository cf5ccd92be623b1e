/**
 Dates: when the automatic entries of the cycle are dated, and which dates an open year takes.
 */
module CycleDates {
  import opened Ledger
  import opened Settlement
  import opened FiscalCycle
  import opened CycleInvariant
  import opened CycleSteps
  import opened CycleClose
  import opened CycleCloseKeeps
  import opened CycleReopenKeeps
  import opened CycleRuns
  import opened CycleTheorems

  // ---------- the dates of automatic entries ----------

  /** The linked entry, where there is one, bears this date. */
  ghost predicate Dated(entries: seq<Entry>, id: Option<nat>, date: int) {
    id.Some? ==> id.value < |entries| && entries[id.value].date == date
  }

  /** The 31st of December of the year closed, and the 1st of January of the year opened. */
  ghost predicate CloseDated(years: seq<FiscalYear>, entries: seq<Entry>, c: CloseRequest) {
    && c.fiscalYear < |years|
    && Dated(entries, c.regularization, years[c.fiscalYear].year * 10000 + 1231)
    && Dated(entries, c.closing, years[c.fiscalYear].year * 10000 + 1231)
    && Dated(entries, c.opening, (years[c.fiscalYear].year + 1) * 10000 + 101)
  }

  /** A reversal bears the date of the entry it reverses. */
  ghost predicate ReversalDated(entries: seq<Entry>, reversal: Option<nat>) {
    reversal.Some? ==>
      && reversal.value < |entries| && entries[reversal.value].reverses.Some?
      && entries[reversal.value].reverses.value < |entries|
      && entries[reversal.value].date == entries[entries[reversal.value].reverses.value].date
  }

  ghost predicate ReopenDated(entries: seq<Entry>, r: ReopenRequest) {
    ReversalDated(entries, r.regularizationReversal) && ReversalDated(entries, r.closingReversal) && ReversalDated(entries, r.openingReversal)
  }

  ghost predicate AllDated(s: State) {
    && (forall q {:trigger CloseDated(s.years, s.entries, s.closes[q])} ::
          0 <= q < |s.closes| && s.closes[q].status == Completed ==> CloseDated(s.years, s.entries, s.closes[q]))
    && (forall r {:trigger ReopenDated(s.entries, s.reopens[r])} ::
          0 <= r < |s.reopens| && s.reopens[r].status == Completed ==> ReopenDated(s.entries, s.reopens[r]))
  }

  lemma DatesStay(s: State, s': State)
    requires AllDated(s) && s.entries <= s'.entries && SameNumbers(s.years, s'.years)
    requires forall q :: 0 <= q < |s'.closes| && s'.closes[q].status == Completed ==>
               (q < |s.closes| && s'.closes[q] == s.closes[q]) || CloseDated(s'.years, s'.entries, s'.closes[q])
    requires forall r :: 0 <= r < |s'.reopens| && s'.reopens[r].status == Completed ==>
               (r < |s.reopens| && s'.reopens[r] == s.reopens[r]) || ReopenDated(s'.entries, s'.reopens[r])
    ensures AllDated(s')
  {
    forall q | 0 <= q < |s'.closes| && s'.closes[q].status == Completed ensures CloseDated(s'.years, s'.entries, s'.closes[q]) {
      if q < |s.closes| && s'.closes[q] == s.closes[q] { assert CloseDated(s.years, s.entries, s.closes[q]); }
    }
    forall r | 0 <= r < |s'.reopens| && s'.reopens[r].status == Completed ensures ReopenDated(s'.entries, s'.reopens[r]) {
      if r < |s.reopens| && s'.reopens[r] == s.reopens[r] { assert ReopenDated(s.entries, s.reopens[r]); }
    }
  }

  /** What one posting adds, with its date. */
  lemma PostedOn(entries: seq<Entry>, y: nat, year: int, date: int, origin: Origin, lines: seq<Line>)
    ensures var p := PostAutomatic(entries, y, year, date, origin, lines);
            p.Posted? ==> entries <= p.entries && Dated(p.entries, p.id, date)
  {
    hide TableAccepts;
  }

  lemma DatedStays(entries: seq<Entry>, longer: seq<Entry>, id: Option<nat>, date: int)
    requires entries <= longer && Dated(entries, id, date)
    ensures Dated(longer, id, date)
  {
  }

  lemma ClosureDated(s: State, y: nat)
    requires y < |s.years| && PostClosure(s, y).Closure?
    ensures var posted := PostClosure(s, y);
            && Dated(posted.entries, posted.regularization, s.years[y].year * 10000 + 1231)
            && Dated(posted.entries, posted.closing, s.years[y].year * 10000 + 1231)
            && Dated(posted.entries, posted.opening, (s.years[y].year + 1) * 10000 + 101)
  {
    hide PostAutomatic, ClosingEntryLines, OpeningEntryLines, RegularizationLines;
    var year := s.years[y].year;
    var reg := PostRegularization(s, y);
    PostedOn(s.entries, y, year, year * 10000 + 1231, Regularization, RegularizationLines(s, y).value);
    var closing := PostAutomatic(reg.entries, y, year, LastDay(year), Closing, ClosingEntryLines(s, y, reg.entries));
    PostedOn(reg.entries, y, year, year * 10000 + 1231, Closing, ClosingEntryLines(s, y, reg.entries));
    PostedOn(closing.entries, SuccessorOf(s.years, y), year + 1, (year + 1) * 10000 + 101, Opening, OpeningEntryLines(s, y, reg.entries));
    DatedStays(reg.entries, PostClosure(s, y).entries, reg.id, year * 10000 + 1231);
    DatedStays(closing.entries, PostClosure(s, y).entries, closing.id, year * 10000 + 1231);
  }

  lemma CloseKeepsDates(s: State, s': State, q: nat, now: int, actor: nat)
    requires Inv(s) && AllDated(s) && CloseCommitted(s, s', q, now, actor)
    ensures AllDated(s')
  {
    hide PostClosure, AccountsAfterClose, CloseDated, ReopenDated, JournalSound;
    var y := s.closes[q].fiscalYear;
    ClosureDated(s, y);
    ClosureGrows(s, y);
    ClosableIsReady(s, y);
    YearsClosed(s.years, y, now, actor);
    assert CloseDated(s'.years, s'.entries, s'.closes[q]) by { NewCloseDated(s, s', q, now, actor); }
    DatesStay(s, s');
  }

  lemma NewCloseDated(s: State, s': State, q: nat, now: int, actor: nat)
    requires CloseCommitted(s, s', q, now, actor) && ClosedYears(s.years, s.closes[q].fiscalYear, s'.years)
    ensures CloseDated(s'.years, s'.entries, s'.closes[q])
  {
    hide PostClosure, AccountsAfterClose;
    ClosureDated(s, s.closes[q].fiscalYear);
  }

  /** What one reversal adds, with its date. */
  lemma ReversedOn(entries: seq<Entry>, x: Option<nat>)
    ensures var p := PostReversal(entries, x);
            p.Posted? ==> entries <= p.entries && ReversalDated(p.entries, p.id)
  {
    hide TableAccepts;
  }

  lemma ReversalDatedStays(entries: seq<Entry>, longer: seq<Entry>, id: Option<nat>)
    requires entries <= longer && ReversalDated(entries, id)
    ensures ReversalDated(longer, id)
  {
  }

  lemma ReversalsDated(entries: seq<Entry>, c: CloseRequest)
    requires PostReversals(entries, c).Closure?
    ensures var posted := PostReversals(entries, c);
            && entries <= posted.entries
            && ReversalDated(posted.entries, posted.opening) && ReversalDated(posted.entries, posted.closing) && ReversalDated(posted.entries, posted.regularization)
  {
    hide PostReversal, ReversalDated;
    ReversedOn(entries, c.opening);
    var opening := PostReversal(entries, c.opening);
    ReversedOn(opening.entries, c.closing);
    var closing := PostReversal(opening.entries, c.closing);
    ReversedOn(closing.entries, c.regularization);
    ReversalDatedStays(opening.entries, PostReversals(entries, c).entries, opening.id);
    ReversalDatedStays(closing.entries, PostReversals(entries, c).entries, closing.id);
  }

  lemma ReopenKeepsDates(t: State, t': State, r: nat, q: nat, business: nat)
    requires AllDated(t) && ReopenCommitted(t, t', r, q, business) && SameNumbers(t.years, t'.years)
    ensures AllDated(t')
  {
    hide PostReversals, ReopenReady, CloseDated, ReversalDated;
    ReversalsDated(t.entries, t.closes[q]);
    DatesStay(t, t');
  }

  lemma ApproveReopenKeepsDates(s: State, r: nat, now: int, ctx: Context, business: nat)
    requires Inv(s) && AllDated(s)
    ensures AllDated(ApproveReopen(s, r, now, ctx, business).0)
  {
    hide Inv, ApproveReopen, ReopenReady, PostReversals, CloseDated, ReopenDated;
    var t := Refreshed(s, now);
    ExpiryKeeps(s, now, None);
    ExpiryQuiet(s, now, None);
    SameYearsSameNumbers(s.years);
    DatesStay(s, t);
    ApproveReopenShape(s, r, now, ctx, business);
    ApproveReopenNumbers(s, r, now, ctx, business);
    var (t', o) := ApproveReopen(s, r, now, ctx, business);
    if o.Done? { ReopenKeepsDates(t, t', r, t.reopens[r].close, business); }
  }

  lemma SameYearsSameNumbers(years: seq<FiscalYear>)
    ensures SameNumbers(years, years)
  {
  }

  /** No request becomes completed. */
  ghost predicate CompletesNothing(s: State, s': State) {
    && s.entries <= s'.entries && SameNumbers(s.years, s'.years)
    && (forall q :: 0 <= q < |s'.closes| && s'.closes[q].status == Completed ==> q < |s.closes| && s'.closes[q] == s.closes[q])
    && (forall r :: 0 <= r < |s'.reopens| && s'.reopens[r].status == Completed ==> r < |s.reopens| && s'.reopens[r] == s.reopens[r])
  }

  lemma OthersCompleteNothing(plan: seq<PlanAccount>, s: State, c: Command)
    requires !c.CmdApproveClose? && !c.CmdApproveReopen?
    ensures CompletesNothing(s, Step(plan, s, c).0)
  {
    hide CloseReady, ReopenReady, NextYearTaken, TableAccepts, LinesInYear, HasSide, MayPost, CodeTaken;
  }

  lemma StepKeepsDates(plan: seq<PlanAccount>, s: State, c: Command)
    requires Inv(s) && AllDated(s)
    ensures AllDated(Step(plan, s, c).0)
  {
    hide Inv, ApproveClose, ApproveReopen, CloseDated, ReopenDated, CloseCommitted;
    match c
    case CmdApproveClose(q, now, ctx, outside) =>
      ApproveCloseShape(s, q, now, ctx, outside);
      var (s', o) := ApproveClose(s, q, now, ctx, outside);
      if o.Done? { CloseKeepsDates(s, s', q, now, ctx.actor); }
    case CmdApproveReopen(r, now, ctx, business) => ApproveReopenKeepsDates(s, r, now, ctx, business);
    case _ =>
      OthersCompleteNothing(plan, s, c);
      DatesStay(s, Step(plan, s, c).0);
  }

  lemma {:induction false} RunKeepsDates(plan: seq<PlanAccount>, s: State, commands: seq<Command>)
    requires Inv(s) && ValidPlan(plan) && AllDated(s)
    ensures AllDated(Run(plan, s, commands))
    decreases |commands|
  {
    hide Inv, ValidPlan, Step, AllDated;
    if commands != [] {
      StepKeeps(plan, s, commands[0]);
      StepKeepsDates(plan, s, commands[0]);
      RunKeepsDates(plan, Step(plan, s, commands[0]).0, commands[1..]);
    }
  }

  /** After every run: the entries of a completed close are dated the 31st of December of its year and the
      1st of January of the next, and those of a reopening on the dates of the entries they reverse. */
  lemma AutomaticDates(plan: seq<PlanAccount>, commands: seq<Command>)
    requires ValidPlan(plan)
    ensures var s := Reached(plan, commands);
            && (forall q :: 0 <= q < |s.closes| && s.closes[q].status == Completed ==> CloseDated(s.years, s.entries, s.closes[q]))
            && (forall r :: 0 <= r < |s.reopens| && s.reopens[r].status == Completed ==> ReopenDated(s.entries, s.reopens[r]))
  {
    EmptyHolds();
    RunKeepsDates(plan, EMPTY, commands);
  }

  // ---------- the dates a year takes ----------

  /** The date lies between the 1st of January and the 31st of December of open year `y`. */
  ghost predicate TakesDate(years: seq<FiscalYear>, y: nat, date: int) {
    y < |years| && years[y].status == Open && years[y].year * 10000 + 101 <= date <= years[y].year * 10000 + 1231
  }

  lemma TakenDateFound(s: State, y: nat, date: int)
    requires Inv(s)
    ensures OpenYearAt(s.years, date) == Some(y) <==> TakesDate(s.years, y, date)
  {
    if TakesDate(s.years, y, date) {
      DateFindsYear(s, y, date);
    }
  }

  /** A date finds a year exactly when some open year takes it, and then it finds that year. */
  lemma OpenYearIff(s: State, date: int)
    requires Inv(s)
    ensures OpenYearAt(s.years, date).Some? <==> exists y: nat :: TakesDate(s.years, y, date)
    ensures forall y: nat :: OpenYearAt(s.years, date) == Some(y) <==> TakesDate(s.years, y, date)
  {
    forall y: nat ensures OpenYearAt(s.years, date) == Some(y) <==> TakesDate(s.years, y, date) {
      TakenDateFound(s, y, date);
    }
    var found := OpenYearAt(s.years, date);
    if found.Some? { assert TakesDate(s.years, found.value, date); }
  }

  /** After every run the open year takes its first and its last day and every date between them. */
  lemma OpenYearTakesItsDays(plan: seq<PlanAccount>, commands: seq<Command>, y: nat, date: int)
    requires ValidPlan(plan)
    requires y < |Reached(plan, commands).years| && Reached(plan, commands).years[y].status == Open
    ensures var years := Reached(plan, commands).years;
            && OpenYearAt(years, years[y].year * 10000 + 101) == Some(y)
            && OpenYearAt(years, years[y].year * 10000 + 1231) == Some(y)
            && (OpenYearAt(years, date) == Some(y) <==> years[y].year * 10000 + 101 <= date <= years[y].year * 10000 + 1231)
  {
    ReachedInv(plan, commands);
    var s := Reached(plan, commands);
    hide Inv, OpenYearAt;
    TakenDateFound(s, y, s.years[y].year * 10000 + 101);
    TakenDateFound(s, y, s.years[y].year * 10000 + 1231);
    TakenDateFound(s, y, date);
  }
}
