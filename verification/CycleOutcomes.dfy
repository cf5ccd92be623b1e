/**
 When each command of the cycle succeeds, and what it then does, in terms of the rows of the tables.
 */
module CycleOutcomes {
  import opened Ledger
  import opened Settlement
  import opened FiscalCycle
  import opened CycleInvariant
  import opened CycleSteps
  import opened CycleClose
  import opened CycleCloseKeeps
  import opened CycleReopenKeeps
  import opened CycleRuns
  import opened CycleTheorems
  import opened CycleDates

  // ---------- the first year ----------

  lemma InitializeOutcome(plan: seq<PlanAccount>, s: State, year: int)
    ensures var (s', o) := Initialize(plan, s, year);
            && (o.Written? <==> 2000 <= year <= 2100 && s.years == [])
            && (!o.Written? ==> s' == s)
            && (o.Written? ==>
                  && s' == s.(years := s'.years, accounts := s'.accounts)
                  && s'.years == [FiscalYear(year, Open, None, None, None)]
                  && |s'.accounts| == |plan|
                  && forall i :: 0 <= i < |plan| ==>
                       s'.accounts[i] == Account(0, None, None, plan[i].code, plan[i].name, true, plan[i].kind, |plan[i].code|, plan[i].postable))
  {
  }

  // ---------- asking for a close ----------

  /** Nothing is pending outside the journal. */
  ghost predicate NothingPending(o: OutsideJournal) {
    && o.draftInvoices == 0 && o.invoicesWithoutEntry == 0 && o.unresolvedVerifactu == 0 && o.draftPurchases == 0
    && o.purchasesWithoutEntry == 0 && o.pendingCustomerRefunds == 0 && o.pendingSupplierRefunds == 0
  }

  /** No account of groups 0, 8 and 9 of the year has a balance. */
  ghost predicate OtherGroupsAtZero(s: State, y: nat) {
    forall a {:trigger Balance(s.entries, a)} ::
      (0 <= a < |s.accounts| && s.accounts[a].fiscalYear == y && |s.accounts[a].code| > 0 && s.accounts[a].code[0] in "089")
      ==> Balance(s.entries, a) == 0
  }

  lemma OtherGroups(s: State, y: nat)
    ensures UnsupportedAtZero(s, y) <==> OtherGroupsAtZero(s, y)
  {
    forall a: nat | a < |s.accounts| && |s.accounts[a].code| > 0
      ensures s.accounts[a].code[0] in "089" <==> Unsupported(s.accounts[a])
    {
      var c := s.accounts[a].code[0];
      assert "089"[0] == '0' && "089"[1] == '8' && "089"[2] == '9';
    }
  }

  /** A close can be asked for exactly when the year is open, nobody has a request pending, nothing is
      pending outside the journal, and groups 0, 8 and 9 are at zero. */
  lemma RequestCloseOutcome(plan: seq<PlanAccount>, commands: seq<Command>, y: nat, ctx: Context, outside: OutsideJournal)
    requires ValidPlan(plan)
    ensures var s := Reached(plan, commands);
            var (s', o) := RequestClose(s, y, ctx, outside);
            && (o.Created? <==>
                  && ctx.key !in s.replies && y < |s.years| && s.years[y].status == Open
                  && (forall q :: 0 <= q < |s.closes| && s.closes[q].fiscalYear == y ==> s.closes[q].status != Requested)
                  && NothingPending(outside) && OtherGroupsAtZero(s, y))
            && (o.Created? ==> CloseAsked(s, s', y, ctx))
            && (!o.Created? ==> s' == s)
  {
    ReachedInv(plan, commands);
    var s := Reached(plan, commands);
    OtherGroups(s, y);
    if y < |s.years| {
      ReadyMeans(s, y, outside);
      if s.years[y].status == Open { SuccessorIsFree(s, y); }
    }
    hide Inv, CloseReady, UnsupportedAtZero, OtherGroupsAtZero, NextYearTaken;
  }

  lemma SuccessorIsFree(s: State, y: nat)
    requires Inv(s) && y < |s.years| && s.years[y].status == Open
    ensures !NextYearTaken(s.years, y)
  {
    SomeYearIsOpen(s.years, y);
    NextYearFound(s.years, y);
  }

  ghost predicate CloseAsked(s: State, s': State, y: nat, ctx: Context) {
    && s' == s.(closes := s'.closes, replies := s'.replies)
    && |s'.closes| == |s.closes| + 1 && s'.closes[..|s.closes|] == s.closes
    && s'.closes[|s.closes|] == CloseRequest(y, Requested, ctx.actor, None, None, None, None, None, None, None, None)
  }

  /** Only whoever asked can cancel, and only while the request is pending. */
  lemma CancelCloseOutcome(s: State, q: nat, now: int, ctx: Context)
    ensures var (s', o) := CancelClose(s, q, now, ctx);
            && (o.Done? <==>
                  ctx.key !in s.replies && q < |s.closes| && s.closes[q].status == Requested && s.closes[q].requestedBy == ctx.actor)
            && (o.Done? ==>
                  && s' == s.(closes := s'.closes, replies := s'.replies)
                  && s'.closes == s.closes[q := s.closes[q].(status := Cancelled, cancelledBy := Some(ctx.actor), cancelledAt := Some(now))])
            && (!o.Done? ==> s' == s)
  {
  }

  // ---------- approving a close ----------

  /** Accounts of groups 6 and 7 have balances, and these add up to zero. */
  ghost predicate CancelsOut(s: State, y: nat) {
    && (exists a: nat :: HasResultBalance(s, y, a))
    && ResultOf(s, y) == 0
  }

  ghost predicate HasResultBalance(s: State, y: nat, a: nat) {
    a < |s.accounts| && s.accounts[a].fiscalYear == y && OfGroups(s.accounts[a], "67") && Balance(s.entries, a) != 0
  }

  lemma CancellingMeans(s: State, y: nat)
    requires Inv(s)
    ensures ZeroResult(s, y) <==> CancelsOut(s, y)
  {
    InvJournal(s);
    var ids := YearAccounts(s.accounts, y);
    ResultSumIs(ids, s.accounts, s.entries, y);
    hide Inv, JournalSound, InGroup, OfGroups, GroupTotal, ResultSum;
    forall a | 0 <= a < |s.accounts| && s.accounts[a].fiscalYear == y
      ensures HasResultBalance(s, y, a) <==> InGroup(s.accounts[a], Results) && YearBalance(s.entries, y, a) != 0
    {
      GroupsMean(s.accounts[a]);
      BalanceIsYearBalance(s.years, s.accounts, s.entries, a);
    }
    if exists a: nat :: HasResultBalance(s, y, a) {
      var a: nat :| HasResultBalance(s, y, a);
      assert a in ids;
    }
  }

  /** A close is approved exactly when it is pending, the approver is not who asked, nothing is pending
      outside the journal, groups 0, 8 and 9 are at zero, and the result is not a zero made of balances. */
  lemma ApproveCloseOutcome(plan: seq<PlanAccount>, commands: seq<Command>, q: nat, now: int, ctx: Context, outside: OutsideJournal)
    requires ValidPlan(plan)
    ensures var s := Reached(plan, commands);
            var (s', o) := ApproveClose(s, q, now, ctx, outside);
            && (o.Done? <==>
                  && ctx.key !in s.replies && q < |s.closes| && s.closes[q].status == Requested && s.closes[q].requestedBy != ctx.actor
                  && NothingPending(outside) && OtherGroupsAtZero(s, s.closes[q].fiscalYear) && !CancelsOut(s, s.closes[q].fiscalYear))
            && (o.Done? ==> CloseDone(s, s', q, now, ctx.actor))
            && (!o.Done? ==> s' == s)
  {
    ReachedInv(plan, commands);
    var s := Reached(plan, commands);
    ApproveCloseShape(s, q, now, ctx, outside);
    if q < |s.closes| {
      OtherGroups(s, s.closes[q].fiscalYear);
      CancellingMeans(s, s.closes[q].fiscalYear);
    }
    hide Inv, ApproveClose, UnsupportedAtZero, OtherGroupsAtZero, ZeroResult, CancelsOut, CloseCommitted;
    ApproveCloseRefusals(s, q, now, ctx, outside);
    if ctx.key !in s.replies && q < |s.closes| && s.closes[q].status == Requested && s.closes[q].requestedBy != ctx.actor {
      CloseOutcome(plan, commands, q, now, ctx, outside);
    }
    if ApproveClose(s, q, now, ctx, outside).1.Done? {
      CommittedIsDone(s, ApproveClose(s, q, now, ctx, outside).0, q, now, ctx.actor);
    }
  }

  lemma ApproveCloseRefusals(s: State, q: nat, now: int, ctx: Context, outside: OutsideJournal)
    ensures ApproveClose(s, q, now, ctx, outside).1.Done? ==>
              ctx.key !in s.replies && q < |s.closes| && s.closes[q].status == Requested && s.closes[q].requestedBy != ctx.actor
  {
    hide CloseReady, PostClosure, AccountsAfterClose, YearsAfterClose, NextYearTaken;
  }

  /** The rows that a close changes: the request, the year, and its successor. */
  ghost predicate CloseDone(s: State, s': State, q: nat, now: int, actor: nat) {
    && q < |s.closes| && s.closes[q].fiscalYear < |s.years| && s'.reopens == s.reopens
    && var y := s.closes[q].fiscalYear;
    && |s'.closes| == |s.closes| && s'.closes == s.closes[q := s'.closes[q]]
    && s'.closes[q] == s.closes[q].(status := Completed, approvedBy := Some(actor), approvedAt := Some(now), successor := Some(y + 1),
                                    regularization := s'.closes[q].regularization, closing := s'.closes[q].closing, opening := s'.closes[q].opening)
    && |s'.years| == y + 2
    && (forall i :: 0 <= i < y ==> s'.years[i] == s.years[i])
    && s'.years[y] == s.years[y].(status := Closed, closedAt := Some(now), closedBy := Some(actor))
    && s'.years[y + 1] == FiscalYear(s.years[y].year + 1, Open, Some(y), None, None)
  }

  lemma CommittedIsDone(s: State, s': State, q: nat, now: int, actor: nat)
    requires Inv(s) && CloseCommitted(s, s', q, now, actor)
    ensures CloseDone(s, s', q, now, actor)
  {
    hide PostClosure, AccountsAfterClose, JournalSound, AccountsShaped, LinksSound, OpeningsNet;
    var y := s.closes[q].fiscalYear;
    ClosableIsReady(s, y);
    NextYearFound(s.years, y);
    assert s.years[y].year == s.years[0].year + y;
  }

  // ---------- when a close can be reopened ----------

  /** Entry `i` is the opening of a completed close of `y`, or the reversal of such an opening. */
  ghost predicate IsTrace(s: State, y: nat, i: nat) {
    exists p :: 0 <= p < |s.closes| && s.closes[p].fiscalYear == y && s.closes[p].status == Completed
                && (s.closes[p].opening == Some(i) || IsUndoneTrace(s, p, i))
  }

  ghost predicate IsUndoneTrace(s: State, p: nat, i: nat) {
    exists r :: 0 <= r < |s.reopens| && s.reopens[r].close == p && s.reopens[r].status == Completed && s.reopens[r].openingReversal == Some(i)
  }

  /** The copy bears the name of its source. */
  ghost predicate SameName(accounts: seq<Account>, a: nat)
    requires a < |accounts|
  {
    accounts[a].source.Some? && accounts[a].source.value < |accounts| && accounts[accounts[a].source.value].name == accounts[a].name
  }

  /** Close `q` was not reopened, nobody ever asked to close its successor, the successor holds nothing but
      openings and their reversals, all its accounts are copies under the names of their sources, and
      nothing else of the business is dated in it. */
  ghost predicate CanReopen(s: State, q: nat, business: nat)
    requires q < |s.closes|
  {
    var y := s.closes[q].fiscalYear;
    && (forall r :: 0 <= r < |s.reopens| && s.reopens[r].close == q ==> s.reopens[r].status != Completed)
    && (forall p :: 0 <= p < |s.closes| ==> s.closes[p].fiscalYear != y + 1)
    && (forall i {:trigger IsTrace(s, y, i)} :: 0 <= i < |s.entries| && s.entries[i].fiscalYear == y + 1 ==> IsTrace(s, y, i))
    && (forall a {:trigger SameName(s.accounts, a)} :: 0 <= a < |s.accounts| && s.accounts[a].fiscalYear == y + 1 ==> SameName(s.accounts, a))
    && business == 0
  }

  lemma TraceIsKnown(s: State, y: nat, i: nat)
    requires ClosesSound(s.years, s.closes)
    ensures KnownCycleEntry(s.closes, s.reopens, y, y + 1, i) <==> IsTrace(s, y, i)
  {
    forall p | 0 <= p < |s.closes| && s.closes[p].status == Completed ensures s.closes[p].successor == Some(s.closes[p].fiscalYear + 1) {
      assert CloseRowSound(s.years, s.closes[p]);
    }
    forall p: nat ensures ReversesOpeningOf(s.reopens, p, i) <==> IsUndoneTrace(s, p, i) {
    }
    if KnownCycleEntry(s.closes, s.reopens, y, y + 1, i) {
      var p :| 0 <= p < |s.closes| && s.closes[p].fiscalYear == y && s.closes[p].successor == Some(y + 1) && s.closes[p].status == Completed
               && (s.closes[p].opening == Some(i) || ReversesOpeningOf(s.reopens, p, i));
      assert s.closes[p].opening == Some(i) || IsUndoneTrace(s, p, i);
    }
    if IsTrace(s, y, i) {
      var p :| 0 <= p < |s.closes| && s.closes[p].fiscalYear == y && s.closes[p].status == Completed
               && (s.closes[p].opening == Some(i) || IsUndoneTrace(s, p, i));
      assert s.closes[p].opening == Some(i) || ReversesOpeningOf(s.reopens, p, i);
    }
  }

  lemma CopiesAndNames(s: State, y: nat)
    requires AccountsShaped(s.years, s.accounts)
    ensures (AllLinked(s.accounts, y + 1) && NamesMatch(s.accounts, y + 1))
        <==> forall a {:trigger SameName(s.accounts, a)} :: 0 <= a < |s.accounts| && s.accounts[a].fiscalYear == y + 1 ==> SameName(s.accounts, a)
  {
    forall a | 0 <= a < |s.accounts| && s.accounts[a].fiscalYear == y + 1
      ensures SameName(s.accounts, a) <==> s.accounts[a].source.Some? && NameAgrees(s.accounts, a)
    {
      assert AccountSound(s.years, s.accounts, s.accounts[a]);
    }
    if AllLinked(s.accounts, y + 1) && NamesMatch(s.accounts, y + 1) {
      forall a | 0 <= a < |s.accounts| && s.accounts[a].fiscalYear == y + 1 ensures SameName(s.accounts, a) {
        assert NameAgrees(s.accounts, a);
      }
    }
    if forall a {:trigger SameName(s.accounts, a)} :: 0 <= a < |s.accounts| && s.accounts[a].fiscalYear == y + 1 ==> SameName(s.accounts, a) {
      forall a | 0 <= a < |s.accounts| && s.accounts[a].fiscalYear == y + 1 ensures s.accounts[a].source.Some? && NameAgrees(s.accounts, a) {
        assert SameName(s.accounts, a);
      }
    }
  }

  lemma ReadyIsCanReopen(s: State, q: nat, business: nat)
    requires Inv(s) && MadeByCloses(s.years, s.closes) && FullyCopied(s) && q < |s.closes| && s.closes[q].status == Completed
    ensures ReopenReady(s, q, business) <==> CanReopen(s, q, business)
  {
    ReopenReadyFrom(s, q, business);
    var y := s.closes[q].fiscalYear;
    InvYears(s);
    InvAccounts(s);
    CopiesAndNames(s, y);
    hide Inv, ReopenReady, AllLinked, NamesMatch, MadeByCloses, FullyCopied, ClosesSound;
    var next: nat := y + 1;
    forall i: nat ensures KnownCycleEntry(s.closes, s.reopens, y, next, i) <==> IsTrace(s, y, i) {
      TraceIsKnown(s, y, i);
    }
    hide KnownCycleEntry, IsTrace;
    assert NoForeignEntry(s, y, next)
      <==> forall i {:trigger IsTrace(s, y, i)} :: 0 <= i < |s.entries| && s.entries[i].fiscalYear == next ==> IsTrace(s, y, i);
  }

  lemma InvAccounts(s: State)
    requires Inv(s)
    ensures AccountsShaped(s.years, s.accounts)
  {
  }

  /** Requests that expire change nothing about what can be reopened. */
  lemma ExpiryKeepsCanReopen(s: State, q: nat, now: int, only: Option<set<nat>>, business: nat)
    requires q < |s.closes|
    ensures CanReopen(s.(reopens := ExpireStale(s.reopens, now, only)), q, business) <==> CanReopen(s, q, business)
  {
    var t := s.(reopens := ExpireStale(s.reopens, now, only));
    var y := s.closes[q].fiscalYear;
    assert forall r :: 0 <= r < |s.reopens| && (t.reopens[r].status == Completed || s.reopens[r].status == Completed) ==> t.reopens[r] == s.reopens[r];
    hide ExpireStale, SameName;
    forall p: nat, i: nat ensures IsUndoneTrace(t, p, i) <==> IsUndoneTrace(s, p, i) {
      SameUndoneTrace(s, t, p, i);
      SameUndoneTrace(t, s, p, i);
    }
    hide IsUndoneTrace;
    forall i: nat ensures IsTrace(t, y, i) <==> IsTrace(s, y, i) {
      SameTrace(s, t, y, i);
      SameTrace(t, s, y, i);
    }
  }

  lemma SameUndoneTrace(s: State, t: State, p: nat, i: nat)
    requires |s.reopens| == |t.reopens|
    requires forall r :: 0 <= r < |s.reopens| && s.reopens[r].status == Completed ==> t.reopens[r] == s.reopens[r]
    ensures IsUndoneTrace(s, p, i) ==> IsUndoneTrace(t, p, i)
  {
    if IsUndoneTrace(s, p, i) {
      var r :| 0 <= r < |s.reopens| && s.reopens[r].close == p && s.reopens[r].status == Completed && s.reopens[r].openingReversal == Some(i);
      assert t.reopens[r] == s.reopens[r];
    }
  }

  lemma SameTrace(s: State, t: State, y: nat, i: nat)
    requires s.closes == t.closes && forall p: nat :: IsUndoneTrace(s, p, i) ==> IsUndoneTrace(t, p, i)
    ensures IsTrace(s, y, i) ==> IsTrace(t, y, i)
  {
    if IsTrace(s, y, i) {
      var p :| 0 <= p < |s.closes| && s.closes[p].fiscalYear == y && s.closes[p].status == Completed
               && (s.closes[p].opening == Some(i) || IsUndoneTrace(s, p, i));
      assert t.closes[p].opening == Some(i) || IsUndoneTrace(t, p, i);
    }
  }

  /** The preflight after stale requests have expired, in terms of the state before. */
  lemma ReadyAfterExpiry(plan: seq<PlanAccount>, commands: seq<Command>, q: nat, now: int, only: Option<set<nat>>, business: nat)
    requires ValidPlan(plan)
    requires q < |Reached(plan, commands).closes| && Reached(plan, commands).closes[q].status == Completed
    ensures var s := Reached(plan, commands);
            ReopenReady(s.(reopens := ExpireStale(s.reopens, now, only)), q, business) <==> CanReopen(s, q, business)
  {
    hide Inv, Run, ReopenReady, MadeByCloses, CanReopen, ExpireStale, ValidPlan;
    var s := Reached(plan, commands);
    var t := s.(reopens := ExpireStale(s.reopens, now, only));
    ReachedInv(plan, commands);
    EmptyHolds();
    NoYearsMade();
    RunMadeByCloses(plan, EMPTY, commands);
    NothingToCopy();
    RunFullyCopied(plan, EMPTY, commands);
    ExpiryKeeps(s, now, only);
    ReadyIsCanReopen(t, q, business);
    ExpiryKeepsCanReopen(s, q, now, only, business);
  }

  // ---------- asking for a reopening ----------

  /** Every pending request of the close is past its time. */
  ghost predicate NoLiveRequest(reopens: seq<ReopenRequest>, q: nat, now: int) {
    forall r :: 0 <= r < |reopens| && reopens[r].close == q && reopens[r].status == Requested ==> reopens[r].expiresAt <= now
  }

  /** Every pending request past its time, of the closes meant, has expired; the others are as they were. */
  ghost predicate OnlyExpired(before: seq<ReopenRequest>, after: seq<ReopenRequest>, now: int, only: Option<nat>) {
    |before| <= |after| && forall i :: 0 <= i < |before| ==> ExpiredOrSame(before[i], after[i], now, only)
  }

  ghost predicate ExpiredOrSame(before: ReopenRequest, after: ReopenRequest, now: int, only: Option<nat>) {
    if before.status == Requested && before.expiresAt <= now && (only.None? || only == Some(before.close))
    then after == before.(status := Expired, decidedAt := Some(now)) else after == before
  }

  lemma ReopenRequestState(s: State, q: nat, now: int)
    ensures var t := s.(reopens := ExpireStale(s.reopens, now, Some({q})));
            && (HasRequestedReopen(t.reopens, q) <==> !NoLiveRequest(s.reopens, q, now))
            && (Reopened(t.reopens, q) <==> Reopened(s.reopens, q))
            && OnlyExpired(s.reopens, t.reopens, now, Some(q))
  {
    ExpiryRetires(s.reopens, now, Some({q}));
    RetiredKeepsReopened(s.reopens, ExpireStale(s.reopens, now, Some({q})), q);
    var after := ExpireStale(s.reopens, now, Some({q}));
    if !NoLiveRequest(s.reopens, q, now) {
      var r :| 0 <= r < |s.reopens| && s.reopens[r].close == q && s.reopens[r].status == Requested && now < s.reopens[r].expiresAt;
      assert after[r] == s.reopens[r];
    }
    if HasRequestedReopen(after, q) {
      var r :| 0 <= r < |after| && after[r].close == q && after[r].status == Requested;
      assert after[r] == s.reopens[r];
    }
  }

  ghost predicate ReopenAsked(s: State, s': State, q: nat, reason: string, now: int, ctx: Context)
    requires q < |s.closes|
  {
    && s' == s.(reopens := s'.reopens, replies := s'.replies)
    && |s'.reopens| == |s.reopens| + 1
    && OnlyExpired(s.reopens, s'.reopens, now, Some(q))
    && s'.reopens[|s.reopens|] == ReopenRequest(q, s.closes[q].fiscalYear, s.closes[q].fiscalYear + 1, Requested, reason, ctx.actor, now, now + 604800000,
                                                None, None, None, None, None, None, None)
  }

  /** A reopening can be asked for exactly when the close is completed and can be reopened and has no other
      request alive; the request lives for seven days, 604800000 milliseconds. */
  lemma RequestReopenOutcome(plan: seq<PlanAccount>, commands: seq<Command>, q: nat, reason: string, now: int, ctx: Context, business: nat)
    requires ValidPlan(plan)
    ensures var s := Reached(plan, commands);
            var (s', o) := RequestReopen(s, q, reason, now, ctx, business);
            && (o.Created? <==>
                  && ctx.key !in s.replies && q < |s.closes| && s.closes[q].status == Completed
                  && NoLiveRequest(s.reopens, q, now) && CanReopen(s, q, business))
            && (o.Created? ==> ReopenAsked(s, s', q, reason, now, ctx))
  {
    var s := Reached(plan, commands);
    ReachedInv(plan, commands);
    ReopenRequestState(s, q, now);
    if q < |s.closes| && s.closes[q].status == Completed {
      SuccessorIsNext(s, q);
      ReadyAfterExpiry(plan, commands, q, now, Some({q}), business);
      CanReopenMeansNotReopened(s, q, business);
    }
    hide Inv, Run, ReopenReady, CanReopen, ExpireStale, NoLiveRequest, Reopened, HasRequestedReopen, ValidPlan;
    RequestReopenSteps(s, q, reason, now, ctx, business);
  }

  lemma CanReopenMeansNotReopened(s: State, q: nat, business: nat)
    requires q < |s.closes|
    ensures CanReopen(s, q, business) ==> !Reopened(s.reopens, q)
  {
  }

  lemma RequestReopenSteps(s: State, q: nat, reason: string, now: int, ctx: Context, business: nat)
    requires q < |s.closes| && s.closes[q].status == Completed ==> s.closes[q].successor == Some(s.closes[q].fiscalYear + 1)
    requires OnlyExpired(s.reopens, ExpireStale(s.reopens, now, Some({q})), now, Some(q))
    ensures var t := s.(reopens := ExpireStale(s.reopens, now, Some({q})));
            var (s', o) := RequestReopen(s, q, reason, now, ctx, business);
            && (o.Created? <==>
                  && ctx.key !in s.replies && q < |s.closes| && s.closes[q].status == Completed
                  && !Reopened(t.reopens, q) && !HasRequestedReopen(t.reopens, q) && ReopenReady(t, q, business))
            && (o.Created? ==> ReopenAsked(s, s', q, reason, now, ctx))
  {
    hide ReopenReady, ExpireStale, ExpiredOrSame;
    var (s', o) := RequestReopen(s, q, reason, now, ctx, business);
    if o.Created? {
      var after := ExpireStale(s.reopens, now, Some({q}));
      assert forall i :: 0 <= i < |s.reopens| ==> s'.reopens[i] == after[i];
    }
  }

  // ---------- deciding a reopening ----------

  lemma RefreshedRow(s: State, r: nat, now: int)
    ensures OnlyExpired(s.reopens, Refreshed(s, now).reopens, now, None)
    ensures r < |s.reopens| ==> (Refreshed(s, now).reopens[r].status == Requested <==> s.reopens[r].status == Requested && now < s.reopens[r].expiresAt)
    ensures r < |s.reopens| ==> Refreshed(s, now).reopens[r].close == s.reopens[r].close && Refreshed(s, now).reopens[r].requestedBy == s.reopens[r].requestedBy
  {
  }

  /** A pending reopening is approved exactly when its time is not over, the approver is not who asked, and
      the close can still be reopened; once its time is over it is refused as expired. */
  lemma ApproveReopenOutcome(plan: seq<PlanAccount>, commands: seq<Command>, r: nat, now: int, ctx: Context, business: nat)
    requires ValidPlan(plan)
    requires r < |Reached(plan, commands).reopens| && ctx.key !in Reached(plan, commands).replies
    ensures var s := Reached(plan, commands);
            var (s', o) := ApproveReopen(s, r, now, ctx, business);
            && s.reopens[r].close < |s.closes|
            && (o.Done? <==>
                  && s.reopens[r].status == Requested && now < s.reopens[r].expiresAt && s.reopens[r].requestedBy != ctx.actor
                  && CanReopen(s, s.reopens[r].close, business))
            && (s.reopens[r].status == Requested && s.reopens[r].expiresAt <= now ==> o == Refused(ReopenRequestExpired))
            && (o.Done? ==> ReopenDone(s, s', r, now, ctx.actor))
  {
    var s := Reached(plan, commands);
    ReachedInv(plan, commands);
    RowOfReopen(s, r);
    var q := s.reopens[r].close;
    SuccessorIsNext(s, q);
    ReadyAfterExpiry(plan, commands, q, now, None, business);
    ExpiryKeeps(s, now, None);
    ApproveReopenKeeps(s, r, now, ctx, business);
    hide Inv, Run, ReopenReady, CanReopen, ExpireStale, ValidPlan, PostReversals;
    RefreshedRow(s, r, now);
    ApproveReopenSteps(s, r, now, ctx, business);
    if ApproveReopen(s, r, now, ctx, business).1.Done? { ApprovedIsDone(s, r, now, ctx, business); }
  }

  lemma RowOfReopen(s: State, r: nat)
    requires Inv(s) && r < |s.reopens|
    ensures s.reopens[r].close < |s.closes| && s.closes[s.reopens[r].close].status == Completed
  {
    assert ReopenRowSound(s.closes, s.reopens[r]);
  }

  lemma ApproveReopenSteps(s: State, r: nat, now: int, ctx: Context, business: nat)
    requires r < |s.reopens| && s.reopens[r].close < |s.closes| && ctx.key !in s.replies
    requires s.closes[s.reopens[r].close].status == Completed && s.closes[s.reopens[r].close].successor.Some?
    requires !ApproveReopen(s, r, now, ctx, business).1.Thrown?
    ensures var t := Refreshed(s, now);
            var o := ApproveReopen(s, r, now, ctx, business).1;
            && (o.Done? <==>
                  && s.reopens[r].status == Requested && now < s.reopens[r].expiresAt && s.reopens[r].requestedBy != ctx.actor
                  && ReopenReady(t, s.reopens[r].close, business))
            && (s.reopens[r].status == Requested && s.reopens[r].expiresAt <= now ==> o == Refused(ReopenRequestExpired))
  {
    hide PostReversals, YearsAfterReopen;
  }

  /** The rows that a reopening changes: the request, both years, and one reversal for every entry of the close. */
  ghost predicate ReopenDone(s: State, s': State, r: nat, now: int, actor: nat) {
    && r < |s.reopens| && s.reopens[r].close < |s.closes|
    && s'.accounts == s.accounts && s'.closes == s.closes
    && |s'.reopens| == |s.reopens|
    && (forall i :: 0 <= i < |s.reopens| && i != r ==> ExpiredOrSame(s.reopens[i], s'.reopens[i], now, None))
    && var row, c := s'.reopens[r], s.closes[s.reopens[r].close];
    && row == s.reopens[r].(status := Completed, approvedBy := Some(actor), decidedAt := Some(now),
                            regularizationReversal := row.regularizationReversal, closingReversal := row.closingReversal, openingReversal := row.openingReversal)
    && c.fiscalYear + 1 < |s.years|
    && s'.years == s.years[c.fiscalYear + 1 := s.years[c.fiscalYear + 1].(status := Reversed)]
                          [c.fiscalYear := s.years[c.fiscalYear].(status := Open, closedAt := None, closedBy := None)]
    && s.entries <= s'.entries
    && |s'.entries| == |s.entries| + One(c.regularization) + One(c.closing) + One(c.opening)
    && ReopenLinksSound(s'.entries, c, row)
  }

  function One(id: Option<nat>): nat {
    if id.Some? then 1 else 0
  }

  lemma ApprovedIsDone(s: State, r: nat, now: int, ctx: Context, business: nat)
    requires Inv(s) && ApproveReopen(s, r, now, ctx, business).1.Done?
    ensures ReopenDone(s, ApproveReopen(s, r, now, ctx, business).0, r, now, ctx.actor)
  {
    hide Inv, ReopenReady, PostReversals, ReopenLinksSound;
    var (s', o) := ApproveReopen(s, r, now, ctx, business);
    var t := Refreshed(s, now);
    ApproveReopenShape(s, r, now, ctx, business);
    ApproveReopenKeeps(s, r, now, ctx, business);
    ExpiryKeeps(s, now, None);
    var q := t.reopens[r].close;
    SuccessorIsNext(t, q);
    CompletedLinks(s', r);
    ReversalsCounted(t, q, business);
    ReadyReopenYears(t, q, business);
    CommittedReopenJournal(t, s', r, q, business);
  }

  lemma CompletedLinks(s: State, r: nat)
    requires Inv(s) && r < |s.reopens| && s.reopens[r].status == Completed
    ensures s.reopens[r].close < |s.closes| && ReopenLinksSound(s.entries, s.closes[s.reopens[r].close], s.reopens[r])
  {
    assert ReopenRowSound(s.closes, s.reopens[r]);
  }

  lemma ReversalsCounted(t: State, q: nat, business: nat)
    requires Inv(t) && q < |t.closes| && t.closes[q].status == Completed && ReopenReady(t, q, business)
    ensures var c := t.closes[q];
            PostReversals(t.entries, c).Closure? ==>
              |PostReversals(t.entries, c).entries| == |t.entries| + One(c.regularization) + One(c.closing) + One(c.opening)
  {
    hide Inv, ReopenReady;
    var p1, p2, p3 := ReadyReopenPosts(t, q, business);
    CountUndone(t.entries, t.closes[q], p1, p2, p3);
  }

  lemma CountUndone(entries: seq<Entry>, c: CloseRequest, p1: Posting, p2: Posting, p3: Posting)
    requires Undone(entries, c, p1, p2, p3)
    ensures PostReversals(entries, c) == Closure(p3.entries, p3.id, p2.id, p1.id)
    ensures |p3.entries| == |entries| + One(c.regularization) + One(c.closing) + One(c.opening)
  {
    hide PostReversals;
  }

  /** Only whoever asked can withdraw a reopening, and only somebody else can reject it; both while it is pending
      and its time is not over. */
  lemma WithdrawalOutcome(s: State, r: nat, now: int, ctx: Context)
    ensures var (s', o) := CancelReopen(s, r, now, ctx);
            && (o.Done? <==>
                  && ctx.key !in s.replies && r < |s.reopens| && s.reopens[r].status == Requested && now < s.reopens[r].expiresAt
                  && s.reopens[r].requestedBy == ctx.actor)
            && (o.Done? ==> Decided(s, s', r, now, s.reopens[r].(status := Cancelled, cancelledBy := Some(ctx.actor), decidedAt := Some(now))))
    ensures var (s', o) := RejectReopen(s, r, now, ctx);
            && (o.Done? <==>
                  && ctx.key !in s.replies && r < |s.reopens| && s.reopens[r].status == Requested && now < s.reopens[r].expiresAt
                  && s.reopens[r].requestedBy != ctx.actor)
            && (o.Done? ==> Decided(s, s', r, now, s.reopens[r].(status := Rejected, rejectedBy := Some(ctx.actor), decidedAt := Some(now))))
  {
  }

  ghost predicate Decided(s: State, s': State, r: nat, now: int, row: ReopenRequest) {
    && s' == s.(reopens := s'.reopens, replies := s'.replies)
    && r < |s.reopens| == |s'.reopens| && s'.reopens[r] == row
    && (forall i :: 0 <= i < |s.reopens| && i != r ==> ExpiredOrSame(s.reopens[i], s'.reopens[i], now, None))
  }

  // ---------- how long a reopening request lives ----------

  /** The command does not come at or after this time. */
  ghost predicate Before(c: Command, deadline: int) {
    match c
    case CmdRequestReopen(_, _, now, _, _) => now < deadline
    case CmdApproveReopen(_, now, _, _) => now < deadline
    case CmdCancelReopen(_, now, _) => now < deadline
    case CmdRejectReopen(_, now, _) => now < deadline
    case CmdListReopen(_, now) => now < deadline
    case _ => true
  }

  ghost predicate Decides(c: Command, r: nat) {
    (c.CmdApproveReopen? && c.request == r) || (c.CmdCancelReopen? && c.request == r) || (c.CmdRejectReopen? && c.request == r)
  }

  lemma StepKeepsPending(plan: seq<PlanAccount>, s: State, c: Command, r: nat)
    requires r < |s.reopens| && s.reopens[r].status == Requested && Before(c, s.reopens[r].expiresAt) && !Decides(c, r)
    ensures r < |Step(plan, s, c).0.reopens| && Step(plan, s, c).0.reopens[r] == s.reopens[r]
  {
    hide CloseReady, ReopenReady, PostReversals, PostClosure, YearsAfterReopen, YearsAfterClose, AccountsAfterClose, NextYearTaken, TableAccepts,
      LinesInYear, HasSide, MayPost, CodeTaken, HasRequestedReopen, Reopened;
  }

  lemma {:induction false} RunKeepsPending(plan: seq<PlanAccount>, s: State, commands: seq<Command>, r: nat)
    requires r < |s.reopens| && s.reopens[r].status == Requested
    requires forall k :: 0 <= k < |commands| ==> Before(commands[k], s.reopens[r].expiresAt) && !Decides(commands[k], r)
    ensures r < |Run(plan, s, commands).reopens| && Run(plan, s, commands).reopens[r] == s.reopens[r]
    decreases |commands|
  {
    hide Step, Before, Decides;
    if commands != [] {
      StepKeepsPending(plan, s, commands[0], r);
      var t := Step(plan, s, commands[0]).0;
      forall k | 0 <= k < |commands[1..]| ensures Before(commands[1..][k], t.reopens[r].expiresAt) && !Decides(commands[1..][k], r) {
        assert commands[1..][k] == commands[k + 1];
      }
      RunKeepsPending(plan, t, commands[1..], r);
    }
  }

  /** A reopening asked for at time `asked` stays pending through any commands that do not decide it and come
      before seven days are over; until then somebody else can approve it as long as the close can be
      reopened, and afterwards every approval is refused as expired. */
  lemma ReopenRequestLives(plan: seq<PlanAccount>, before: seq<Command>, q: nat, reason: string, asked: int, ctx: Context, business: nat,
                           between: seq<Command>, now: int, approver: Context, business': nat)
    requires ValidPlan(plan)
    requires RequestReopen(Reached(plan, before), q, reason, asked, ctx, business).1.Created?
    requires var r := |Reached(plan, before).reopens|;
             forall k :: 0 <= k < |between| ==> Before(between[k], asked + 604800000) && !Decides(between[k], r)
    requires approver.key !in Run(plan, RequestReopen(Reached(plan, before), q, reason, asked, ctx, business).0, between).replies
    ensures var r := |Reached(plan, before).reopens|;
            var s := Run(plan, RequestReopen(Reached(plan, before), q, reason, asked, ctx, business).0, between);
            var o := ApproveReopen(s, r, now, approver, business').1;
            && r < |s.reopens| && s.reopens[r].status == Requested && s.reopens[r].close == q < |s.closes|
            && (asked + 604800000 <= now ==> o == Refused(ReopenRequestExpired))
            && (now < asked + 604800000 && approver.actor != ctx.actor && CanReopen(s, q, business') ==> o.Done?)
  {
    hide Step, Before, Decides, RequestReopen, ApproveReopen, CanReopen, ValidPlan;
    var s0 := Reached(plan, before);
    var r := |s0.reopens|;
    var c := CmdRequestReopen(q, reason, asked, ctx, business);
    var s1 := RequestReopen(s0, q, reason, asked, ctx, business).0;
    RequestReopenOutcome(plan, before, q, reason, asked, ctx, business);
    RunKeepsPending(plan, s1, between, r);
    assert Step(plan, s0, c).0 == s1 by { StepIsRequest(plan, s0, q, reason, asked, ctx, business); }
    RunThen(plan, before, c, between);
    ApproveReopenOutcome(plan, before + [c] + between, r, now, approver, business');
  }

  lemma StepIsRequest(plan: seq<PlanAccount>, s: State, q: nat, reason: string, now: int, ctx: Context, business: nat)
    ensures Step(plan, s, CmdRequestReopen(q, reason, now, ctx, business)) == RequestReopen(s, q, reason, now, ctx, business)
  {
  }

  lemma RunThen(plan: seq<PlanAccount>, before: seq<Command>, c: Command, between: seq<Command>)
    ensures Reached(plan, before + [c] + between) == Run(plan, Step(plan, Reached(plan, before), c).0, between)
  {
    hide Step;
    RunAppend(plan, EMPTY, before + [c], between);
    RunAppend(plan, EMPTY, before, [c]);
    assert [c][1..] == [];
  }

  // ---------- accounts and manual entries ----------

  ghost predicate IsDigits(code: string) {
    1 <= |code| <= 9 && forall i :: 0 <= i < |code| ==> code[i] in "0123456789"
  }

  lemma DigitsMean(code: string)
    ensures DigitCode(code) <==> IsDigits(code)
  {
    var d := "0123456789";
    assert d[0] == '0' && d[1] == '1' && d[2] == '2' && d[3] == '3' && d[4] == '4' && d[5] == '5' && d[6] == '6' && d[7] == '7' && d[8] == '8' && d[9] == '9';
    forall c: char ensures '0' <= c <= '9' <==> c in d {
      if '0' <= c <= '9' {
        var k := c as int - '0' as int;
        assert d[k] == c;
      }
    }
  }

  /** An account can enter open year `y` under this code. */
  ghost predicate CodeFree(s: State, y: nat, code: string) {
    && y < |s.years| && s.years[y].status == Open
    && forall a :: 0 <= a < |s.accounts| && s.accounts[a].fiscalYear == y ==> s.accounts[a].code != code
  }

  lemma {:induction false} LatestOpenIs(years: seq<FiscalYear>)
    ensures LatestOpen(years).Some? ==> LatestOpen(years).value < |years| && years[LatestOpen(years).value].status == Open
    ensures LatestOpen(years).None? ==> forall i :: 0 <= i < |years| ==> years[i].status != Open
  {
    if years != [] && years[|years| - 1].status != Open {
      LatestOpenIs(years[..|years| - 1]);
    }
  }

  /** An account is created exactly when its code has one to nine digits, nine if it is postable, and is free in
      the open year meant; without a year the open one is meant. */
  lemma CreateAccountOutcome(plan: seq<PlanAccount>, commands: seq<Command>, inYear: Option<nat>, supplier: Option<nat>, code: string,
                             name: string, kind: string, level: int, postable: bool)
    requires ValidPlan(plan)
    ensures var s := Reached(plan, commands);
            var (s', o) := CreateAccount(s, inYear, supplier, code, name, kind, level, postable);
            && (o.Written? <==>
                  && IsDigits(code) && (postable ==> |code| == 9)
                  && exists y: nat :: (inYear.Some? ==> inYear == Some(y)) && CodeFree(s, y, code))
            && (o.Written? ==>
                  && s' == s.(accounts := s'.accounts) && |s'.accounts| == |s.accounts| + 1 && s.accounts <= s'.accounts
                  && var row := s'.accounts[|s.accounts|];
                     row == Account(row.fiscalYear, None, supplier, code, name, true, kind, level, postable) && CodeFree(s, row.fiscalYear, code)
                     && (inYear.Some? ==> inYear == Some(row.fiscalYear)))
            && (!o.Written? ==> s' == s)
  {
    ReachedInv(plan, commands);
    var s := Reached(plan, commands);
    DigitsMean(code);
    LatestOpenIs(s.years);
    OneIsOpen(s);
    hide Inv, IsDigits, DigitCode, LatestOpen;
    var y := if inYear.Some? then inYear else LatestOpen(s.years);
    if y.Some? { assert CodeFree(s, y.value, code) <==> y.value < |s.years| && s.years[y.value].status == Open && !CodeTaken(s.accounts, y.value, code); }
  }

  lemma OneIsOpen(s: State)
    requires Inv(s)
    ensures forall i: nat, j: nat :: i < |s.years| && j < |s.years| && s.years[i].status == Open && s.years[j].status == Open ==> i == j
  {
    forall i: nat, j: nat | i < |s.years| && j < |s.years| && s.years[i].status == Open && s.years[j].status == Open ensures i == j {
      SomeYearIsOpen(s.years, i);
      SomeYearIsOpen(s.years, j);
    }
  }

  ghost predicate OneSide(l: Line) {
    (l.debit > 0 && l.credit == 0) || (l.credit > 0 && l.debit == 0)
  }

  /** The line is on an active postable account of year `y`. */
  ghost predicate OnActive(accounts: seq<Account>, l: Line, y: nat) {
    l.account < |accounts| && accounts[l.account].fiscalYear == y && accounts[l.account].postable && accounts[l.account].active
  }

  /** A manual entry is accepted exactly when it has two lines or more, each with one positive side, debits equal
      to credits, and all on active postable accounts of the open year of its date. */
  lemma ManualEntryOutcome(plan: seq<PlanAccount>, commands: seq<Command>, date: int, lines: seq<Line>)
    requires ValidPlan(plan)
    ensures var s := Reached(plan, commands);
            var (s', o) := ManualEntry(s, date, lines);
            && (o.Written? <==>
                  && |lines| >= 2 && (forall i :: 0 <= i < |lines| ==> OneSide(lines[i])) && DebitTotal(lines) == CreditTotal(lines)
                  && exists y: nat :: TakesDate(s.years, y, date) && forall i :: 0 <= i < |lines| ==> OnActive(s.accounts, lines[i], y))
            && (o.Written? ==> exists y: nat :: TakesDate(s.years, y, date) && ManualPosted(s, s', y, date, lines))
            && (!o.Written? ==> s' == s)
  {
    ReachedInv(plan, commands);
    var s := Reached(plan, commands);
    OpenYearIff(s, date);
    assert Sequenced(s.entries);
    hide Inv;
    if AllOneSided(lines) { OneSidedTotals(lines); }
    assert AllOneSided(lines) <==> forall i :: 0 <= i < |lines| ==> OneSide(lines[i]);
    SidesMean(lines);
    var y := OpenYearAt(s.years, date);
    if y.Some? {
      LastSequenceIsCount(s.entries, y.value);
      hide OpenYearAt;
      assert TakesDate(s.years, y.value, date);
      ActiveMeans(s.accounts, lines, y.value);
      ManualAccepted(s, date, lines, y.value);
    }
  }

  lemma SidesMean(lines: seq<Line>)
    ensures NonNegative(lines) && !(exists i :: 0 <= i < |lines| && InvalidSide(lines[i])) <==> forall i :: 0 <= i < |lines| ==> OneSide(lines[i])
  {
    if forall i :: 0 <= i < |lines| ==> OneSide(lines[i]) {
      forall i | 0 <= i < |lines| ensures lines[i].debit >= 0 && lines[i].credit >= 0 && !InvalidSide(lines[i]) {
        assert OneSide(lines[i]);
      }
    }
    if NonNegative(lines) && !(exists i :: 0 <= i < |lines| && InvalidSide(lines[i])) {
      forall i | 0 <= i < |lines| ensures OneSide(lines[i]) {
        assert !InvalidSide(lines[i]);
      }
    }
  }

  lemma ActiveMeans(accounts: seq<Account>, lines: seq<Line>, y: nat)
    ensures ActivePostable(accounts, lines, y) <==> forall i :: 0 <= i < |lines| ==> OnActive(accounts, lines[i], y)
  {
    if ActivePostable(accounts, lines, y) {
      forall i | 0 <= i < |lines| ensures OnActive(accounts, lines[i], y) {
      }
    }
    if forall i :: 0 <= i < |lines| ==> OnActive(accounts, lines[i], y) {
      forall i | 0 <= i < |lines|
        ensures lines[i].account < |accounts| && accounts[lines[i].account].fiscalYear == y && accounts[lines[i].account].postable && accounts[lines[i].account].active
      {
        assert OnActive(accounts, lines[i], y);
      }
    }
  }

  ghost predicate ManualPosted(s: State, s': State, y: nat, date: int, lines: seq<Line>) {
    s' == s.(entries := s.entries + [Entry(y, date / 10000, CountYear(s.entries, y) + 1, date, Manual, None, DebitTotal(lines), CreditTotal(lines), lines)])
  }

  lemma ManualAccepted(s: State, date: int, lines: seq<Line>, y: nat)
    requires OpenYearAt(s.years, date) == Some(y) && LastSequence(s.entries, y) == CountYear(s.entries, y)
    requires AllOneSided(lines) && lines != [] && DebitTotal(lines) == CreditTotal(lines) ==> DebitTotal(lines) > 0 && HasSide(lines, true) && HasSide(lines, false)
    requires NonNegative(lines) && !(exists i :: 0 <= i < |lines| && InvalidSide(lines[i])) <==> AllOneSided(lines)
    ensures var (s', o) := ManualEntry(s, date, lines);
            && (o.Written? <==> |lines| >= 2 && AllOneSided(lines) && DebitTotal(lines) == CreditTotal(lines) && ActivePostable(s.accounts, lines, y))
            && (o.Written? ==> ManualPosted(s, s', y, date, lines))
            && (!o.Written? ==> s' == s)
  {
    hide OpenYearAt, ActivePostable, HasSide, AllOneSided, NonNegative;
  }
}
