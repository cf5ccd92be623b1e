/**
 Facts about every step and every run of the cycle: the invariant, what only grows, and what stays
 frozen while a close is current.
 */
module CycleRuns {
  import opened Ledger
  import opened Settlement
  import opened FiscalCycle
  import opened CycleInvariant
  import opened CycleSteps
  import opened CycleClose
  import opened CycleCloseKeeps
  import opened CycleReopenKeeps

  lemma StepKeeps(plan: seq<PlanAccount>, s: State, c: Command)
    requires Inv(s) && ValidPlan(plan)
    ensures Inv(Step(plan, s, c).0)
  {
    hide Inv, ValidPlan, Step;
    if c.CmdCreateAccount? || c.CmdManualEntry? || c.CmdPost? || c.CmdRenameSupplier? || c.CmdListReopen? {
      LedgerStepKeeps(plan, s, c);
    } else {
      CycleStepKeeps(plan, s, c);
    }
  }

  lemma CycleStepKeeps(plan: seq<PlanAccount>, s: State, c: Command)
    requires Inv(s) && ValidPlan(plan)
    requires !(c.CmdCreateAccount? || c.CmdManualEntry? || c.CmdPost? || c.CmdRenameSupplier? || c.CmdListReopen?)
    ensures Inv(Step(plan, s, c).0)
  {
    hide Inv, ValidPlan, Initialize, RequestClose, CancelClose, ApproveClose, RequestReopen, ApproveReopen, CancelReopen, RejectReopen, CreateAccount, ManualEntry, Post, RenameSupplier;
    match c
    case CmdInitialize(year) => InitializeKeeps(plan, s, year);
    case CmdRequestClose(y, ctx, outside) => RequestCloseKeeps(s, y, ctx, outside);
    case CmdCancelClose(q, now, ctx) => CancelCloseKeeps(s, q, now, ctx);
    case CmdApproveClose(q, now, ctx, outside) => ApproveCloseKeeps(s, q, now, ctx, outside);
    case CmdRequestReopen(q, reason, now, ctx, business) => RequestReopenKeeps(s, q, reason, now, ctx, business);
    case CmdApproveReopen(r, now, ctx, business) => ApproveReopenKeeps(s, r, now, ctx, business);
    case CmdCancelReopen(r, now, ctx) => CancelReopenKeeps(s, r, now, ctx);
    case CmdRejectReopen(r, now, ctx) => RejectReopenKeeps(s, r, now, ctx);
  }

  lemma LedgerStepKeeps(plan: seq<PlanAccount>, s: State, c: Command)
    requires Inv(s) && ValidPlan(plan)
    requires c.CmdCreateAccount? || c.CmdManualEntry? || c.CmdPost? || c.CmdRenameSupplier? || c.CmdListReopen?
    ensures Inv(Step(plan, s, c).0)
  {
    hide Inv, ValidPlan, Initialize, RequestClose, CancelClose, ApproveClose, RequestReopen, ApproveReopen, CancelReopen, RejectReopen, CreateAccount, ManualEntry, Post, RenameSupplier;
    match c
    case CmdListReopen(only, now) => ExpiryKeeps(s, now, only);
    case CmdCreateAccount(y, supplier, code, name, kind, level, postable) =>
      CreateAccountKeeps(s, y, supplier, code, name, kind, level, postable);
    case CmdManualEntry(date, lines) => ManualEntryKeeps(s, date, lines);
    case CmdPost(date, origin, reverses, lines) => PostKeeps(s, date, origin, reverses, lines);
    case CmdRenameSupplier(supplier, name) => RenameSupplierKeeps(s, supplier, name);
  }

  /** The invariant holds after every run. */
  lemma {:induction false} RunKeeps(plan: seq<PlanAccount>, s: State, commands: seq<Command>)
    requires Inv(s) && ValidPlan(plan)
    ensures Inv(Run(plan, s, commands))
    decreases |commands|
  {
    hide Inv, ValidPlan, Step;
    if commands != [] {
      StepKeeps(plan, s, commands[0]);
      RunKeeps(plan, Step(plan, s, commands[0]).0, commands[1..]);
    }
  }

  lemma {:induction false} RunAppend(plan: seq<PlanAccount>, s: State, first: seq<Command>, second: seq<Command>)
    ensures Run(plan, s, first + second) == Run(plan, Run(plan, s, first), second)
    decreases |first|
  {
    if first == [] {
      assert first + second == second;
    } else {
      assert (first + second)[1..] == first[1..] + second;
      RunAppend(plan, Step(plan, s, first[0]).0, first[1..], second);
    }
  }

  // ---------- what only grows ----------

  /** Requests that left the pending status, stored replies and posted entries never change. */
  ghost predicate Grows(s: State, s': State) {
    && s.entries <= s'.entries
    && SameAccounts(s.accounts, s'.accounts)
    && |s.closes| <= |s'.closes|
    && (forall q :: 0 <= q < |s.closes| ==> s'.closes[q] == s.closes[q] || s.closes[q].status == Requested)
    && (forall q :: 0 <= q < |s.closes| ==> s'.closes[q].fiscalYear == s.closes[q].fiscalYear)
    && |s.reopens| <= |s'.reopens|
    && (forall r :: 0 <= r < |s.reopens| ==> s'.reopens[r] == s.reopens[r] || s.reopens[r].status == Requested)
    && (forall r :: 0 <= r < |s.reopens| ==> s'.reopens[r].close == s.reopens[r].close)
    && (forall k :: k in s.replies ==> k in s'.replies && s'.replies[k] == s.replies[k])
  }

  lemma GrowsTransitive(s: State, t: State, u: State)
    requires Grows(s, t) && Grows(t, u)
    ensures Grows(s, u)
  {
    assert forall i :: 0 <= i < |s.accounts| ==> Identity(u.accounts[i]) == Identity(t.accounts[i]) == Identity(s.accounts[i]);
  }

  lemma ExpiryGrows(s: State, now: int, only: Option<set<nat>>)
    ensures Grows(s, s.(reopens := ExpireStale(s.reopens, now, only)))
  {
  }

  lemma ClosureGrows(s: State, y: nat)
    requires y < |s.years|
    ensures PostClosure(s, y).Closure? ==> s.entries <= PostClosure(s, y).entries
  {
  }

  lemma ReversalsGrow(entries: seq<Entry>, c: CloseRequest)
    ensures PostReversals(entries, c).Closure? ==> entries <= PostReversals(entries, c).entries
  {
  }

  lemma CommittedCloseGrows(s: State, s': State, q: nat, now: int, actor: nat)
    requires CloseCommitted(s, s', q, now, actor)
    requires forall k :: k in s.replies ==> k in s'.replies && s'.replies[k] == s.replies[k]
    ensures Grows(s, s')
  {
    ClosureGrows(s, s.closes[q].fiscalYear);
    CopiedAccountsSame(s.years, s.accounts, s.closes[q].fiscalYear);
  }

  lemma ApproveCloseGrows(s: State, q: nat, now: int, ctx: Context, outside: OutsideJournal)
    ensures Grows(s, ApproveClose(s, q, now, ctx, outside).0)
  {
    ApproveCloseShape(s, q, now, ctx, outside);
    var (s', o) := ApproveClose(s, q, now, ctx, outside);
    if o.Done? {
      CommittedCloseGrows(s, s', q, now, ctx.actor);
    }
  }

  lemma RequestReopenGrows(s: State, q: nat, reason: string, now: int, ctx: Context, business: nat)
    ensures Grows(s, RequestReopen(s, q, reason, now, ctx, business).0)
  {
    ExpiryGrows(s, now, Some({q}));
  }

  lemma ApproveReopenGrows(s: State, r: nat, now: int, ctx: Context, business: nat)
    ensures Grows(s, ApproveReopen(s, r, now, ctx, business).0)
  {
    hide ReopenReady, PostReversals;
    ExpiryGrows(s, now, None);
    var t := Refreshed(s, now);
    ApproveReopenShape(s, r, now, ctx, business);
    var (t', o) := ApproveReopen(s, r, now, ctx, business);
    if o.Done? {
      ReversalsGrow(t.entries, t.closes[t.reopens[r].close]);
      assert t'.replies == t.replies[ctx.key := t'.replies[ctx.key]];
      assert Grows(t, t');
      GrowsTransitive(s, t, t');
    }
  }

  lemma DecisionGrows(s: State, r: nat, now: int, ctx: Context)
    ensures Grows(s, CancelReopen(s, r, now, ctx).0)
    ensures Grows(s, RejectReopen(s, r, now, ctx).0)
  {
    ExpiryGrows(s, now, None);
  }

  lemma InitializeGrows(plan: seq<PlanAccount>, s: State, year: int)
    requires Inv(s)
    ensures Grows(s, Initialize(plan, s, year).0)
  {
    if s.accounts != [] {
      RowsNeedYears(s);
    }
  }

  lemma RequestCloseGrows(s: State, y: nat, ctx: Context, outside: OutsideJournal)
    ensures Grows(s, RequestClose(s, y, ctx, outside).0)
  {
    hide CloseReady, NextYearTaken, HasRequestedClose;
  }

  lemma CancelCloseGrows(s: State, q: nat, now: int, ctx: Context)
    ensures Grows(s, CancelClose(s, q, now, ctx).0)
  {
  }

  lemma AccountsGrow(s: State, inYear: Option<nat>, supplier: Option<nat>, code: string, name: string, kind: string, level: int, postable: bool)
    ensures Grows(s, CreateAccount(s, inYear, supplier, code, name, kind, level, postable).0)
    ensures supplier.Some? ==> Grows(s, RenameSupplier(s, supplier.value, name).0)
  {
  }

  lemma PostsGrow(s: State, date: int, origin: Origin, reverses: Option<nat>, lines: seq<Line>)
    ensures Grows(s, ManualEntry(s, date, lines).0)
    ensures Grows(s, Post(s, date, origin, reverses, lines).0)
  {
    hide TableAccepts, HasSide, NonNegative, LinesInYear;
  }

  lemma StepGrows(plan: seq<PlanAccount>, s: State, c: Command)
    requires Inv(s)
    ensures Grows(s, Step(plan, s, c).0)
  {
    hide Inv, Grows, Initialize, RequestClose, CancelClose, ApproveClose, RequestReopen, ApproveReopen, CancelReopen, RejectReopen, CreateAccount, ManualEntry, Post, RenameSupplier;
    match c
    case CmdInitialize(year) => InitializeGrows(plan, s, year);
    case CmdRequestClose(y, ctx, outside) => RequestCloseGrows(s, y, ctx, outside);
    case CmdCancelClose(q, now, ctx) => CancelCloseGrows(s, q, now, ctx);
    case CmdApproveClose(q, now, ctx, outside) => ApproveCloseGrows(s, q, now, ctx, outside);
    case CmdRequestReopen(q, reason, now, ctx, business) => RequestReopenGrows(s, q, reason, now, ctx, business);
    case CmdApproveReopen(r, now, ctx, business) => ApproveReopenGrows(s, r, now, ctx, business);
    case CmdCancelReopen(r, now, ctx) => DecisionGrows(s, r, now, ctx);
    case CmdRejectReopen(r, now, ctx) => DecisionGrows(s, r, now, ctx);
    case CmdListReopen(only, now) => ExpiryGrows(s, now, only);
    case CmdCreateAccount(y, supplier, code, name, kind, level, postable) => AccountsGrow(s, y, supplier, code, name, kind, level, postable);
    case CmdManualEntry(date, lines) => PostsGrow(s, date, Manual, None, lines);
    case CmdPost(date, origin, reverses, lines) => PostsGrow(s, date, origin, reverses, lines);
    case CmdRenameSupplier(supplier, name) => AccountsGrow(s, None, Some(supplier), "", name, "", 0, false);
  }

  /** Over any run the journal only grows and every terminal request keeps its row. */
  lemma {:induction false} RunGrows(plan: seq<PlanAccount>, s: State, commands: seq<Command>)
    requires Inv(s) && ValidPlan(plan)
    ensures Grows(s, Run(plan, s, commands))
    decreases |commands|
  {
    hide Inv, ValidPlan, Step;
    if commands != [] {
      var t := Step(plan, s, commands[0]).0;
      StepKeeps(plan, s, commands[0]);
      StepGrows(plan, s, commands[0]);
      RunGrows(plan, t, commands[1..]);
      GrowsTransitive(s, t, Run(plan, t, commands[1..]));
    }
  }

  lemma ReopenedStays(s: State, s': State, q: nat)
    requires Grows(s, s') && Reopened(s.reopens, q)
    ensures Reopened(s'.reopens, q)
  {
    var r :| 0 <= r < |s.reopens| && s.reopens[r].close == q && s.reopens[r].status == Completed;
    assert s'.reopens[r] == s.reopens[r];
  }

  // ---------- what stays frozen while a close is current ----------

  /** Everything about the years up to `y` is as before. */
  ghost predicate Frozen(s: State, s': State, y: nat) {
    && y < |s.years| <= |s'.years|
    && (forall i :: 0 <= i <= y ==> s'.years[i] == s.years[i])
    && s.entries <= s'.entries
    && (forall i :: |s.entries| <= i < |s'.entries| ==> s'.entries[i].fiscalYear > y)
    && (forall p :: 0 <= p < |s'.closes| && s'.closes[p].status == Completed && s'.closes[p].fiscalYear <= y
                    ==> p < |s.closes| && s.closes[p] == s'.closes[p])
    && (forall r :: 0 <= r < |s'.reopens| && s'.reopens[r].status == Completed && s'.reopens[r].source <= y
                    ==> r < |s.reopens| && s.reopens[r] == s'.reopens[r])
  }

  lemma FrozenTransitive(s: State, t: State, u: State, y: nat)
    requires Frozen(s, t, y) && Frozen(t, u, y)
    ensures Frozen(s, u, y)
  {
  }

  lemma OpenIsLater(s: State, q: nat, k: nat)
    requires Inv(s) && IsCurrent(s.closes, s.reopens, q) && k < |s.years| && s.years[k].status == Open
    ensures s.closes[q].fiscalYear < k
  {
    SomeYearIsOpen(s.years, k);
    CurrentIsEarlier(s, k);
  }

  lemma StagesYears(s: State, y: nat, p1: Posting, p2: Posting, p3: Posting)
    requires y < |s.years| && Stages(s, y, p1, p2, p3)
    ensures s.entries <= p3.entries
    ensures forall i :: |s.entries| <= i < |p3.entries| ==> p3.entries[i].fiscalYear >= y
  {
    hide RegularizationLines, ClosingEntryLines, OpeningEntryLines;
  }

  lemma CommittedCloseFrozen(s: State, s': State, q: nat, now: int, actor: nat, c: nat)
    requires Inv(s) && IsCurrent(s.closes, s.reopens, c)
    requires CloseCommitted(s, s', q, now, actor)
    ensures Frozen(s, s', s.closes[c].fiscalYear)
  {
    var y := s.closes[q].fiscalYear;
    OpenIsLater(s, c, y);
    ClosableIsReady(s, y);
    YearsClosed(s.years, y, now, actor);
    CloseThrowsIff(s, y);
    var p1, p2, p3 := ClosurePosted(s, y, s'.years);
    StagesYears(s, y, p1, p2, p3);
  }

  lemma UndoneYears(entries: seq<Entry>, c: CloseRequest, p1: Posting, p2: Posting, p3: Posting)
    requires CloseLinksSound(entries, c) && Undone(entries, c, p1, p2, p3)
    ensures entries <= p3.entries
    ensures forall i :: |entries| <= i < |p3.entries| ==> p3.entries[i].fiscalYear >= c.fiscalYear
  {
  }

  lemma ReopenFrozenTables(t: State, t': State, r: nat, q: nat, y: nat, k: nat)
    requires ReopenedYears(t.years, y, t'.years) && k < y
    requires t.entries <= t'.entries && (forall i :: |t.entries| <= i < |t'.entries| ==> t'.entries[i].fiscalYear >= y)
    requires t'.closes == t.closes && ReopensCompleted(t.reopens, r, q, t'.reopens) && t.reopens[r].source == y
    ensures Frozen(t, t', k)
  {
  }

  lemma CommittedReopenJournal(t: State, t': State, r: nat, q: nat, business: nat)
    requires Inv(t) && ReopenCommitted(t, t', r, q, business)
    ensures t.entries <= t'.entries
    ensures forall i :: |t.entries| <= i < |t'.entries| ==> t'.entries[i].fiscalYear >= t.closes[q].fiscalYear
  {
    var p1, p2, p3 := ReadyReopenPosts(t, q, business);
    ReadyLinks(t, q, business);
    UndoneYears(t.entries, t.closes[q], p1, p2, p3);
  }

  lemma ReadyReopenYears(t: State, q: nat, business: nat)
    requires Inv(t) && q < |t.closes| && t.closes[q].status == Completed && ReopenReady(t, q, business)
    ensures t.closes[q].successor == Some(t.closes[q].fiscalYear + 1) && t.closes[q].fiscalYear + 1 < |t.years|
    ensures ReopenedYears(t.years, t.closes[q].fiscalYear, YearsAfterReopen(t.years, t.closes[q].fiscalYear, t.closes[q].fiscalYear + 1))
  {
    ReadyShape(t, q, business);
    YearsReopened(t.years, t.closes[q].fiscalYear);
  }

  lemma RowNamesItsYear(s: State, r: nat)
    requires Inv(s) && r < |s.reopens|
    ensures s.reopens[r].close < |s.closes| && s.reopens[r].source == s.closes[s.reopens[r].close].fiscalYear
  {
    assert ReopenRowSound(s.closes, s.reopens[r]);
  }

  /** Another current close is of an earlier year than the one being reopened. */
  lemma OtherCurrentIsEarlier(t: State, q: nat, business: nat, c: nat)
    requires Inv(t) && q < |t.closes| && t.closes[q].status == Completed && ReopenReady(t, q, business)
    requires IsCurrent(t.closes, t.reopens, c) && c != q
    ensures t.closes[c].fiscalYear < t.closes[q].fiscalYear
  {
    ReadyShape(t, q, business);
    OpenIsLater(t, c, t.closes[q].fiscalYear + 1);
  }

  lemma CommittedReopenFrozen(t: State, t': State, r: nat, q: nat, business: nat, c: nat)
    requires Inv(t) && IsCurrent(t.closes, t.reopens, c) && c != q
    requires ReopenCommitted(t, t', r, q, business)
    ensures Frozen(t, t', t.closes[c].fiscalYear)
  {
    hide Inv, Frozen, ReopenReady;
    OtherCurrentIsEarlier(t, q, business, c);
    CommittedReopenJournal(t, t', r, q, business);
    ReadyReopenYears(t, q, business);
    RowNamesItsYear(t, r);
    ReopenFrozenTables(t, t', r, q, t.closes[q].fiscalYear, t.closes[c].fiscalYear);
  }

  lemma ApproveReopenFrozen(s: State, r: nat, now: int, ctx: Context, business: nat, c: nat)
    requires Inv(s) && IsCurrent(s.closes, s.reopens, c)
    requires !Reopened(ApproveReopen(s, r, now, ctx, business).0.reopens, c)
    ensures Frozen(s, ApproveReopen(s, r, now, ctx, business).0, s.closes[c].fiscalYear)
  {
    var t := Refreshed(s, now);
    var (t', o) := ApproveReopen(s, r, now, ctx, business);
    ApproveReopenShape(s, r, now, ctx, business);
    ExpiryKeeps(s, now, None);
    CurrentYearExists(s, c);
    ExpiryQuiet(s, now, None);
    if o.Done? {
      var q := t.reopens[r].close;
      CompletedReopenCounts(t.reopens, r, q, t'.reopens);
      ExpiryRetires(s.reopens, now, None);
      RetiredKeepsReopened(s.reopens, t.reopens, c);
      CommittedReopenFrozen(t, t', r, q, business, c);
      FrozenTransitive(s, t, t', s.closes[c].fiscalYear);
    }
  }

  lemma CurrentYearExists(s: State, c: nat)
    requires Inv(s) && IsCurrent(s.closes, s.reopens, c)
    ensures s.closes[c].fiscalYear < |s.years|
  {
    assert CloseRowSound(s.years, s.closes[c]);
  }

  /** Years, journal and completed requests are as before. */
  ghost predicate Quiet(s: State, s': State) {
    && s'.years == s.years && s'.entries == s.entries
    && (forall p :: 0 <= p < |s'.closes| && s'.closes[p].status == Completed ==> p < |s.closes| && s.closes[p] == s'.closes[p])
    && (forall r :: 0 <= r < |s'.reopens| && s'.reopens[r].status == Completed ==> r < |s.reopens| && s.reopens[r] == s'.reopens[r])
  }

  lemma ExpiryQuiet(s: State, now: int, only: Option<set<nat>>)
    ensures Quiet(s, s.(reopens := ExpireStale(s.reopens, now, only)))
  {
  }

  lemma ReopenRequestsQuiet(s: State, r: nat, reason: string, now: int, ctx: Context, business: nat)
    ensures Quiet(s, RequestReopen(s, r, reason, now, ctx, business).0)
    ensures Quiet(s, CancelReopen(s, r, now, ctx).0)
    ensures Quiet(s, RejectReopen(s, r, now, ctx).0)
  {
    ExpiryQuiet(s, now, Some({r}));
    ExpiryQuiet(s, now, None);
  }

  lemma OthersQuiet(plan: seq<PlanAccount>, s: State, command: Command)
    requires s.years != []
    requires command.CmdRequestClose? || command.CmdCancelClose? || command.CmdCreateAccount? || command.CmdRenameSupplier?
             || command.CmdInitialize? || command.CmdListReopen?
    ensures Quiet(s, Step(plan, s, command).0)
  {
  }

  lemma PostFrozen(s: State, date: int, origin: Origin, reverses: Option<nat>, lines: seq<Line>, k: nat)
    requires k < |s.years|
    requires forall i :: 0 <= i < |s.years| && s.years[i].status == Open ==> k < i
    ensures Frozen(s, ManualEntry(s, date, lines).0, k)
    ensures Frozen(s, Post(s, date, origin, reverses, lines).0, k)
  {
    hide Frozen, TableAccepts, HasSide, NonNegative, LinesInYear;
    var y := OpenYearAt(s.years, date);
    if y.Some? {
      OpenYearAtMeans(s.years, date);
      InsertFrozen(s, NewEntry(s.entries, y.value, YearOf(date), date, Manual, None, lines), k);
      InsertFrozen(s, NewEntry(s.entries, y.value, YearOf(date), date, origin, reverses, lines), k);
    }
    InsertNothingFrozen(s, k);
  }

  lemma InsertFrozen(s: State, e: Entry, k: nat)
    requires k < |s.years| && k < e.fiscalYear
    ensures Frozen(s, Insert(s, e).0, k)
  {
  }

  lemma InsertNothingFrozen(s: State, k: nat)
    requires k < |s.years|
    ensures Frozen(s, s, k)
  {
  }

  lemma OpensAreLater(s: State, c: nat)
    requires Inv(s) && IsCurrent(s.closes, s.reopens, c)
    ensures s.closes[c].fiscalYear < |s.years|
    ensures forall i :: 0 <= i < |s.years| && s.years[i].status == Open ==> s.closes[c].fiscalYear < i
  {
    CurrentYearExists(s, c);
    forall i | 0 <= i < |s.years| && s.years[i].status == Open ensures s.closes[c].fiscalYear < i {
      OpenIsLater(s, c, i);
    }
  }

  lemma StepFrozen(plan: seq<PlanAccount>, s: State, command: Command, c: nat)
    requires Inv(s) && IsCurrent(s.closes, s.reopens, c)
    requires !Reopened(Step(plan, s, command).0.reopens, c)
    ensures Frozen(s, Step(plan, s, command).0, s.closes[c].fiscalYear)
  {
    hide Inv, Initialize, RequestClose, CancelClose, ApproveClose, RequestReopen, ApproveReopen, CancelReopen, RejectReopen, CreateAccount, ManualEntry, Post, RenameSupplier;
    OpensAreLater(s, c);
    match command
    case CmdApproveClose(q, now, ctx, outside) =>
      ApproveCloseShape(s, q, now, ctx, outside);
      var (s', o) := ApproveClose(s, q, now, ctx, outside);
      if o.Done? {
        CommittedCloseFrozen(s, s', q, now, ctx.actor, c);
      }
    case CmdApproveReopen(r, now, ctx, business) => ApproveReopenFrozen(s, r, now, ctx, business, c);
    case CmdManualEntry(date, lines) => PostFrozen(s, date, Manual, None, lines, s.closes[c].fiscalYear);
    case CmdPost(date, origin, reverses, lines) => PostFrozen(s, date, origin, reverses, lines, s.closes[c].fiscalYear);
    case CmdRequestReopen(q, reason, now, ctx, business) => ReopenRequestsQuiet(s, q, reason, now, ctx, business);
    case CmdCancelReopen(r, now, ctx) => ReopenRequestsQuiet(s, r, "", now, ctx, 0);
    case CmdRejectReopen(r, now, ctx) => ReopenRequestsQuiet(s, r, "", now, ctx, 0);
    case _ => OthersQuiet(plan, s, command);
  }

  /** While close `c` stays current, a run leaves everything up to its year as it was. */
  lemma {:induction false} RunFrozen(plan: seq<PlanAccount>, s: State, commands: seq<Command>, c: nat)
    requires Inv(s) && ValidPlan(plan) && IsCurrent(s.closes, s.reopens, c)
    requires !Reopened(Run(plan, s, commands).reopens, c)
    ensures IsCurrent(Run(plan, s, commands).closes, Run(plan, s, commands).reopens, c)
    ensures Frozen(s, Run(plan, s, commands), s.closes[c].fiscalYear)
    decreases |commands|
  {
    if commands == [] {
      assert CloseRowSound(s.years, s.closes[c]);
    } else {
      var t := Step(plan, s, commands[0]).0;
      StepKeeps(plan, s, commands[0]);
      StepGrows(plan, s, commands[0]);
      RunGrows(plan, t, commands[1..]);
      if Reopened(t.reopens, c) {
        ReopenedStays(t, Run(plan, t, commands[1..]), c);
      }
      assert t.closes[c] == s.closes[c];
      StepFrozen(plan, s, commands[0], c);
      RunFrozen(plan, t, commands[1..], c);
      FrozenTransitive(s, t, Run(plan, t, commands[1..]), s.closes[c].fiscalYear);
    }
  }

  // ---------- years keep their numbers ----------

  /** Years keep their numbers through every command. */
  lemma StepKeepsNumbers(plan: seq<PlanAccount>, s: State, c: Command)
    requires Inv(s)
    ensures SameNumbers(s.years, Step(plan, s, c).0.years)
  {
    hide Inv, ApproveClose, ApproveReopen, CloseReady, ReopenReady, ExpireStale;
    match c
    case CmdApproveClose(q, now, ctx, outside) => ApproveCloseNumbers(s, q, now, ctx, outside);
    case CmdApproveReopen(r, now, ctx, business) => ApproveReopenNumbers(s, r, now, ctx, business);
    case _ =>
  }

  lemma ApproveCloseNumbers(s: State, q: nat, now: int, ctx: Context, outside: OutsideJournal)
    requires Inv(s)
    ensures SameNumbers(s.years, ApproveClose(s, q, now, ctx, outside).0.years)
  {
    hide ApproveClose, PostClosure;
    ApproveCloseShape(s, q, now, ctx, outside);
    if ApproveClose(s, q, now, ctx, outside).1.Done? {
      ClosableIsReady(s, s.closes[q].fiscalYear);
      YearsClosed(s.years, s.closes[q].fiscalYear, now, ctx.actor);
    }
  }

  lemma ApproveReopenNumbers(s: State, r: nat, now: int, ctx: Context, business: nat)
    requires Inv(s)
    ensures SameNumbers(s.years, ApproveReopen(s, r, now, ctx, business).0.years)
  {
    hide Inv, ApproveReopen, ReopenReady, ExpireStale, PostReversals;
    ExpiryKeeps(s, now, None);
    ApproveReopenShape(s, r, now, ctx, business);
    if ApproveReopen(s, r, now, ctx, business).1.Done? {
      ReadyReopenYears(Refreshed(s, now), Refreshed(s, now).reopens[r].close, business);
    }
  }
}
