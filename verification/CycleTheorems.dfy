/**
 The laws of the fiscal-year cycle, over every run from the empty ledger.
 */
module CycleTheorems {
  import opened Ledger
  import opened Settlement
  import opened FiscalCycle
  import opened CycleInvariant
  import opened CycleSteps
  import opened CycleClose
  import opened CycleCloseKeeps
  import opened CycleReopenKeeps
  import opened CycleRuns

  ghost function Reached(plan: seq<PlanAccount>, commands: seq<Command>): State {
    Run(plan, EMPTY, commands)
  }

  lemma ReachedInv(plan: seq<PlanAccount>, commands: seq<Command>)
    requires ValidPlan(plan)
    ensures Inv(Reached(plan, commands))
  {
    EmptyHolds();
    RunKeeps(plan, EMPTY, commands);
  }

  // ---------- the shape of the years ----------

  /** Exactly one year is open, all earlier ones are closed, and at most one later year exists:
      the reversed copy of the open one.  Years follow each other without gaps. */
  lemma OneOpenYear(plan: seq<PlanAccount>, commands: seq<Command>)
    requires ValidPlan(plan)
    ensures var years := Reached(plan, commands).years; years == [] || exists k: nat :: OnlyOpen(years, k)
  {
    ReachedInv(plan, commands);
    var years := Reached(plan, commands).years;
    if years != [] {
      ShapeMeansOnlyOpen(years, if OpenAt(years, |years| - 1) then |years| - 1 else |years| - 2);
    }
  }

  ghost predicate OnlyOpen(years: seq<FiscalYear>, k: nat) {
    && k < |years| && years[k].status == Open
    && (forall i :: 0 <= i < |years| ==> years[i].year == years[0].year + i)
    && (forall i :: 0 <= i < k ==> years[i].status == Closed)
    && (forall i :: k < i < |years| ==> i == k + 1 && years[i].status == Reversed && years[i].source == Some(k))
  }

  lemma ShapeMeansOnlyOpen(years: seq<FiscalYear>, k: nat)
    requires Contiguous(years) && OpenAt(years, k)
    ensures OnlyOpen(years, k)
  {
  }

  /** A year is closed exactly when one completed close of it has not been reopened; there is
      never more than one, and no close is reopened twice. */
  lemma ClosedIffCurrent(plan: seq<PlanAccount>, commands: seq<Command>, y: nat)
    requires ValidPlan(plan)
    ensures var s := Reached(plan, commands);
            && (y < |s.years| ==> (s.years[y].status == Closed <==> HasCurrent(s.closes, s.reopens, y)))
            && (forall p: nat, q: nat ::
                  (IsCurrent(s.closes, s.reopens, p) && IsCurrent(s.closes, s.reopens, q)
                   && s.closes[p].fiscalYear == y && s.closes[q].fiscalYear == y) ==> p == q)
            && (forall i, j :: 0 <= i < j < |s.reopens| && s.reopens[i].status == Completed && s.reopens[j].status == Completed
                               ==> s.reopens[i].close != s.reopens[j].close)
  {
    ReachedInv(plan, commands);
  }

  /** A pending close request always points at the open year. */
  lemma PendingCloseIsOpen(plan: seq<PlanAccount>, commands: seq<Command>, q: nat)
    requires ValidPlan(plan)
    requires q < |Reached(plan, commands).closes| && Reached(plan, commands).closes[q].status == Requested
    ensures var s := Reached(plan, commands);
            s.closes[q].fiscalYear < |s.years| && s.years[s.closes[q].fiscalYear].status == Open && !NextYearTaken(s.years, s.closes[q].fiscalYear)
  {
    ReachedInv(plan, commands);
    var s := Reached(plan, commands);
    assert CloseRowSound(s.years, s.closes[q]);
    var y := s.closes[q].fiscalYear;
    SomeYearIsOpen(s.years, y);
    NextYearFound(s.years, y);
  }

  /** Once a request has left the pending status, no later command changes its row. */
  lemma TerminalRequestsNeverChange(plan: seq<PlanAccount>, first: seq<Command>, second: seq<Command>)
    requires ValidPlan(plan)
    ensures var s, s' := Reached(plan, first), Reached(plan, first + second);
            && |s.closes| <= |s'.closes| && |s.reopens| <= |s'.reopens|
            && (forall q :: 0 <= q < |s.closes| && s.closes[q].status != Requested ==> s'.closes[q] == s.closes[q])
            && (forall r :: 0 <= r < |s.reopens| && s.reopens[r].status != Requested ==> s'.reopens[r] == s.reopens[r])
  {
    ReachedInv(plan, first);
    RunAppend(plan, EMPTY, first, second);
    RunGrows(plan, Reached(plan, first), second);
  }

  // ---------- the journal ----------

  lemma SoundEntryPasses(years: seq<FiscalYear>, accounts: seq<Account>, e: Entry)
    requires EntrySound(years, accounts, e)
    ensures EntryPassesPreflight(accounts, e)
  {
    OneSidedTotals(e.lines);
    assert HasSide(e.lines, true) && HasSide(e.lines, false);
    var i :| 0 <= i < |e.lines| && e.lines[i].debit > 0;
    assert OneSided(e.lines[i]);
  }

  /** Whatever was posted, every entry of every year passes the journal checks of the close preflight. */
  lemma JournalAlwaysPasses(plan: seq<PlanAccount>, commands: seq<Command>, y: nat)
    requires ValidPlan(plan)
    ensures JournalPassesPreflight(Reached(plan, commands), y)
  {
    ReachedInv(plan, commands);
    JournalPasses(Reached(plan, commands), y);
  }

  lemma JournalPasses(s: State, y: nat)
    requires JournalSound(s.years, s.accounts, s.entries)
    ensures JournalPassesPreflight(s, y)
  {
    forall i | 0 <= i < |s.entries| ensures EntryPassesPreflight(s.accounts, s.entries[i]) {
      assert EntrySound(s.years, s.accounts, s.entries[i]);
      SoundEntryPasses(s.years, s.accounts, s.entries[i]);
    }
  }

  /** The entries of every year are numbered 1 .. n in posting order. */
  lemma JournalNumbersAreGapless(plan: seq<PlanAccount>, commands: seq<Command>, y: nat)
    requires ValidPlan(plan)
    ensures var es := Reached(plan, commands).entries;
            && (forall n :: 1 <= n <= CountYear(es, y) ==> NumberUsed(es, y, n))
            && (forall i, j :: 0 <= i < j < |es| && es[i].fiscalYear == es[j].fiscalYear ==> es[i].sequence < es[j].sequence)
            && (forall i :: 0 <= i < |es| && es[i].fiscalYear == y ==> 1 <= es[i].sequence <= CountYear(es, y))
  {
    ReachedInv(plan, commands);
    SequencesAreGapless(Reached(plan, commands).entries, y);
  }

  // ---------- when a close succeeds ----------

  lemma ReadyMeans(s: State, y: nat, outside: OutsideJournal)
    requires Inv(s) && y < |s.years|
    ensures CloseReady(s, y, outside) <==> NothingOutside(outside) && UnsupportedAtZero(s, y)
  {
    JournalPasses(s, y);
    assert HasResultAccount(s.accounts, y);
  }

  /** Approving a pending request, by another person and under a new key, has exactly three outcomes:
      refused when something outside the journal is pending or group 0, 8 or 9 has a balance; thrown
      when result accounts with balances cancel out exactly; done in every other case.  The branches
      for a missing year, a year that is not open, a taken next year, a missing result account and an
      unbalanced automatic entry are never reached. */
  lemma CloseOutcome(plan: seq<PlanAccount>, commands: seq<Command>, q: nat, now: int, ctx: Context, outside: OutsideJournal)
    requires ValidPlan(plan)
    requires var s := Reached(plan, commands);
             q < |s.closes| && s.closes[q].status == Requested && s.closes[q].requestedBy != ctx.actor && ctx.key !in s.replies
    ensures var s := Reached(plan, commands);
            var y := s.closes[q].fiscalYear;
            var o := ApproveClose(s, q, now, ctx, outside).1;
            && (o == Refused(ClosePreconditionsFailed) <==> !(NothingOutside(outside) && UnsupportedAtZero(s, y)))
            && (o == Thrown(CheckViolation) <==> NothingOutside(outside) && UnsupportedAtZero(s, y) && ZeroResult(s, y))
            && (o.Done? <==> NothingOutside(outside) && UnsupportedAtZero(s, y) && !ZeroResult(s, y))
  {
    ReachedInv(plan, commands);
    PendingCloseIsOpen(plan, commands, q);
    var s := Reached(plan, commands);
    var y := s.closes[q].fiscalYear;
    ReadyMeans(s, y, outside);
    if UnsupportedAtZero(s, y) {
      CloseThrowsIff(s, y);
    }
  }

  // ---------- what a close does to the balances ----------

  /** The sum of the balances of groups 6 and 7. */
  ghost function ResultOf(s: State, y: nat): int {
    ResultSum(YearAccounts(s.accounts, y), s.accounts, s.entries, y)
  }

  /** What the opening entry carries over for account `a`. */
  ghost function CarriedOver(s: State, y: nat, a: nat): int
    requires a < |s.accounts|
  {
    if OfGroups(s.accounts[a], "12345")
    then Balance(s.entries, a) + (if s.accounts[a].code == "129000000" then ResultOf(s, y) else 0)
    else 0
  }

  lemma {:induction false} UnknownAccountAtZero(years: seq<FiscalYear>, accounts: seq<Account>, entries: seq<Entry>, y: nat, b: nat)
    requires JournalSound(years, accounts, entries)
    requires b < |accounts| ==> accounts[b].fiscalYear != y
    ensures YearBalance(entries, y, b) == 0
  {
    if entries != [] {
      var last := entries[|entries| - 1];
      SoundPrefix(years, accounts, entries, |entries| - 1);
      UnknownAccountAtZero(years, accounts, entries[..|entries| - 1], y, b);
      assert EntrySound(years, accounts, last);
      if last.fiscalYear == y {
        NoLineNoNet(last.lines, b);
      }
    }
  }

  /** Before the close nothing stands on the accounts of the successor. */
  lemma SuccessorStartsAtZero(s: State, y: nat, b: nat)
    requires Closable(s, y)
    ensures YearBalance(s.entries, y + 1, b) == 0
  {
    ClosableIsReady(s, y);
    if b < |s.accounts| && s.accounts[b].fiscalYear == y + 1 {
      assert AccountSound(s.years, s.accounts, s.accounts[b]);
    } else {
      UnknownAccountAtZero(s.years, s.accounts, s.entries, y + 1, b);
    }
  }

  lemma StagesBalances(s: State, y: nat, p1: Posting, p2: Posting, p3: Posting)
    requires y < |s.years| && Stages(s, y, p1, p2, p3)
    ensures forall k: nat, a: nat :: k != y && k != y + 1 ==> YearBalance(p3.entries, k, a) == YearBalance(s.entries, k, a)
    ensures forall a: nat :: YearBalance(p3.entries, y, a) == YearBalance(p2.entries, y, a)
    ensures forall k: nat, a: nat :: k == y + 1 ==>
              YearBalance(p3.entries, k, a) == YearBalance(s.entries, k, a) + LineNet(OpeningEntryLines(s, y, p1.entries), a)
  {
    PostedBalances(s.entries, p1, y, Regularization, RegularizationLines(s, y).value);
    PostedBalances(p1.entries, p2, y, Closing, ClosingEntryLines(s, y, p1.entries));
    PostedBalances(p2.entries, p3, y + 1, Opening, OpeningEntryLines(s, y, p1.entries));
  }

  /** The postings behind a committed close, with what is known of the balances between them. */
  lemma StagesOf(s: State, s': State, q: nat, now: int, actor: nat) returns (p1: Posting, p2: Posting, p3: Posting)
    requires Inv(s) && CloseCommitted(s, s', q, now, actor)
    ensures p1.Posted?
    ensures var y := s.closes[q].fiscalYear;
            && Closable(s, y) && ReadyToCopy(s.years, s.accounts, y)
            && Stages(s, y, p1, p2, p3)
            && s'.entries == p3.entries && s'.accounts == AccountsAfterClose(s.years, s.accounts, y)
            && s'.closes[q].regularization == p1.id && s'.closes[q].closing == p2.id && s'.closes[q].opening == p3.id
            && (forall a: nat :: a in YearAccounts(s.accounts, y) ==> YearBalance(p1.entries, y, a) == Settled(s, y, a))
            && AllAtZero(s.accounts, p2.entries, y)
  {
    var y := s.closes[q].fiscalYear;
    ClosableIsReady(s, y);
    YearsClosed(s.years, y, now, actor);
    CloseThrowsIff(s, y);
    p1, p2, p3 := ClosurePosted(s, y, s'.years);
  }

  /** The balance that the opening puts on the copy of `a`. */
  lemma OpeningPuts(s: State, y: nat, settled: seq<Entry>, a: nat)
    requires ReadyToCopy(s.years, s.accounts, y) && a in YearAccounts(s.accounts, y)
    ensures var after := AccountsAfterClose(s.years, s.accounts, y);
            var copies := CopyMap(after, y + 1, |after|);
            && a in copies
            && copies[a] < |after| && after[copies[a]].fiscalYear == y + 1 && after[copies[a]].source == Some(a)
            && LineNet(OpeningEntryLines(s, y, settled), copies[a])
               == if InGroup(s.accounts[a], Patrimonial) then YearBalance(settled, y, a) else 0
  {
    var after := AccountsAfterClose(s.years, s.accounts, y);
    var copies := CopyMap(after, y + 1, |after|);
    var ids := YearAccounts(s.accounts, y);
    NextYearFound(s.years, y);
    CopyMapTotal(s.years, s.accounts, y);
    var i :| 0 <= i < |ids| && ids[i] == a;
    AccountsDistinct(s.accounts, y, |s.accounts|);
    OpeningNet(ids, s.accounts, settled, y, copies, a);
  }

  lemma SettledIsCarried(s: State, y: nat, a: nat)
    requires JournalSound(s.years, s.accounts, s.entries) && a in YearAccounts(s.accounts, y)
    ensures CarriedOver(s, y, a) == if InGroup(s.accounts[a], Patrimonial) then Settled(s, y, a) else 0
  {
    BalanceIsYearBalance(s.years, s.accounts, s.entries, a);
    GroupsMean(s.accounts[a]);
    ResultSumIs(YearAccounts(s.accounts, y), s.accounts, s.entries, y);
    hide InGroup, OfGroups, JournalSound, GroupTotal, ResultSum;
    assert InGroup(s.accounts[a], Patrimonial) ==> !InGroup(s.accounts[a], Results) by { GroupsApart(s.accounts[a]); }
  }

  lemma GroupsApart(a: Account)
    ensures !(InGroup(a, Patrimonial) && InGroup(a, Results))
  {
  }

  lemma CommittedCloseYear(s: State, s': State, q: nat, now: int, actor: nat)
    requires CloseCommitted(s, s', q, now, actor)
    ensures q < |s.closes| && s.closes[q].fiscalYear < |s.years|
    ensures q < |s'.closes| && s'.closes[q].fiscalYear == s.closes[q].fiscalYear
  {
  }

  lemma InvJournal(s: State)
    requires Inv(s)
    ensures JournalSound(s.years, s.accounts, s.entries)
  {
  }

  /** The copy of `a` bears this balance. */
  ghost predicate Received(accounts: seq<Account>, entries: seq<Entry>, y: nat, a: nat, balance: int) {
    var copies := CopyMap(accounts, y + 1, |accounts|);
    && a in copies
    && copies[a] < |accounts| && accounts[copies[a]].fiscalYear == y + 1 && accounts[copies[a]].source == Some(a)
    && YearBalance(entries, y + 1, copies[a]) == balance
  }

  /** The balance each copy receives. */
  lemma CopyReceives(s: State, s': State, q: nat, now: int, actor: nat, a: nat)
    requires Inv(s) && CloseCommitted(s, s', q, now, actor)
    requires a in YearAccounts(s.accounts, s.closes[q].fiscalYear)
    ensures var y := s.closes[q].fiscalYear;
            a < |s.accounts| && Received(s'.accounts, s'.entries, y, a, CarriedOver(s, y, a)) && YearBalance(s'.entries, y, a) == 0
  {
    hide Inv, CloseCommitted, Stages, Closable, ReadyToCopy, CarriedOver, AllCopied, CopyMap, AccountsAfterClose;
    CommittedCloseYear(s, s', q, now, actor);
    var y := s.closes[q].fiscalYear;
    var p1, p2, p3 := StagesOf(s, s', q, now, actor);
    StagesBalances(s, y, p1, p2, p3);
    OpeningPuts(s, y, p1.entries, a);
    SuccessorStartsAtZero(s, y, CopyMap(s'.accounts, y + 1, |s'.accounts|)[a]);
    InvJournal(s);
    SettledIsCarried(s, y, a);
  }

  /** Everything a close promises about the ledger: every account of the closed year is left at zero,
      every one of them has exactly one copy in the successor, with its code and with the balance it had
      before the close, the result account also taking in the result of the year; all other accounts
      keep their balance. */
  lemma CloseCarriesBalances(plan: seq<PlanAccount>, commands: seq<Command>, q: nat, now: int, ctx: Context, outside: OutsideJournal, a: nat)
    requires ValidPlan(plan)
    requires ApproveClose(Reached(plan, commands), q, now, ctx, outside).1.Done?
    requires a < |Reached(plan, commands).accounts|
    ensures var s := Reached(plan, commands);
            var s' := ApproveClose(s, q, now, ctx, outside).0;
            var y := s.closes[q].fiscalYear;
            && a < |s'.accounts|
            && (s.accounts[a].fiscalYear == y ==>
                  && Balance(s'.entries, a) == 0
                  && exists b :: IsOnlyCopy(s'.accounts, y + 1, a, b) && Balance(s'.entries, b) == CarriedOver(s, y, a))
            && (s.accounts[a].fiscalYear != y && s.accounts[a].fiscalYear != y + 1 ==> Balance(s'.entries, a) == Balance(s.entries, a))
  {
    ReachedInv(plan, commands);
    var s := Reached(plan, commands);
    var s' := ApproveClose(s, q, now, ctx, outside).0;
    ApproveCloseShape(s, q, now, ctx, outside);
    ApproveCloseKeeps(s, q, now, ctx, outside);
    CommittedCloseCarries(s, s', q, now, ctx.actor, a);
  }

  ghost predicate IsCopyOrTwin(accounts: seq<Account>, next: nat, a: nat, c: nat)
    requires a < |accounts| && c < |accounts|
  {
    accounts[c].fiscalYear == next && (accounts[c].source == Some(a) || accounts[c].code == accounts[a].code)
  }

  /** `b` is the one copy of `a` in year `next`, and it is all that `a` is, up to the name, which the supplier master
      may have changed since. */
  ghost predicate IsOnlyCopy(accounts: seq<Account>, next: nat, a: nat, b: nat) {
    && a < |accounts| && b < |accounts|
    && accounts[b].fiscalYear == next && accounts[b].source == Some(a)
    && accounts[b] == accounts[a].(fiscalYear := next, source := Some(a), name := accounts[b].name)
    && (forall c :: 0 <= c < |accounts| && IsCopyOrTwin(accounts, next, a, c) ==> c == b)
  }

  lemma CopyIsOnly(years: seq<FiscalYear>, accounts: seq<Account>, next: nat, a: nat, b: nat)
    requires AccountsShaped(years, accounts) && a < |accounts| && b < |accounts|
    requires accounts[b].fiscalYear == next && accounts[b].source == Some(a)
    ensures IsOnlyCopy(accounts, next, a, b)
  {
    assert AccountSound(years, accounts, accounts[b]);
    forall c | 0 <= c < |accounts| && IsCopyOrTwin(accounts, next, a, c) ensures c == b {
      assert AccountSound(years, accounts, accounts[c]);
    }
  }

  lemma ClosedYearCarries(s: State, s': State, q: nat, now: int, actor: nat, a: nat)
    requires Inv(s) && CloseCommitted(s, s', q, now, actor) && AccountsShaped(s'.years, s'.accounts)
    requires JournalSound(s'.years, s'.accounts, s'.entries)
    requires a < |s.accounts| && s.accounts[a].fiscalYear == s.closes[q].fiscalYear
    ensures var y := s.closes[q].fiscalYear;
            && a < |s'.accounts| && Balance(s'.entries, a) == 0
            && exists b :: IsOnlyCopy(s'.accounts, y + 1, a, b) && Balance(s'.entries, b) == CarriedOver(s, y, a)
  {
    hide Inv, AccountsShaped, JournalSound, CarriedOver, AccountsAfterClose, CopyMap, IsOnlyCopy, PostClosure;
    var y := s.closes[q].fiscalYear;
    CopyReceives(s, s', q, now, actor, a);
    CopyingAppends(s.years, s.accounts, y);
    assert s'.accounts[a] == s.accounts[a];
    var b := CopyMap(s'.accounts, y + 1, |s'.accounts|)[a];
    CopyIsOnly(s'.years, s'.accounts, y + 1, a, b);
    BalanceIsYearBalance(s'.years, s'.accounts, s'.entries, a);
    BalanceIsYearBalance(s'.years, s'.accounts, s'.entries, b);
    assert IsOnlyCopy(s'.accounts, y + 1, a, b) && Balance(s'.entries, b) == CarriedOver(s, y, a);
  }

  lemma CommittedCloseCarries(s: State, s': State, q: nat, now: int, actor: nat, a: nat)
    requires Inv(s) && CloseCommitted(s, s', q, now, actor) && AccountsShaped(s'.years, s'.accounts)
    requires JournalSound(s'.years, s'.accounts, s'.entries) && a < |s.accounts|
    ensures var y := s.closes[q].fiscalYear;
            && a < |s'.accounts|
            && (s.accounts[a].fiscalYear == y ==>
                  && Balance(s'.entries, a) == 0
                  && exists b :: IsOnlyCopy(s'.accounts, y + 1, a, b) && Balance(s'.entries, b) == CarriedOver(s, y, a))
            && (s.accounts[a].fiscalYear != y && s.accounts[a].fiscalYear != y + 1 ==> Balance(s'.entries, a) == Balance(s.entries, a))
  {
    var y := s.closes[q].fiscalYear;
    CopyingAppends(s.years, s.accounts, y);
    assert s'.accounts[a] == s.accounts[a];
    if s.accounts[a].fiscalYear == y {
      ClosedYearCarries(s, s', q, now, actor, a);
    } else if s.accounts[a].fiscalYear != y + 1 {
      BalanceIsYearBalance(s'.years, s'.accounts, s'.entries, a);
      OtherYearUnmoved(s, s', q, now, actor, a);
    }
  }

  lemma OtherYearUnmoved(s: State, s': State, q: nat, now: int, actor: nat, a: nat)
    requires Inv(s) && CloseCommitted(s, s', q, now, actor) && a < |s.accounts|
    requires s.accounts[a].fiscalYear != s.closes[q].fiscalYear && s.accounts[a].fiscalYear != s.closes[q].fiscalYear + 1
    ensures YearBalance(s'.entries, s.accounts[a].fiscalYear, a) == Balance(s.entries, a)
  {
    var y := s.closes[q].fiscalYear;
    var p1, p2, p3 := StagesOf(s, s', q, now, actor);
    StagesBalances(s, y, p1, p2, p3);
    BalanceIsYearBalance(s.years, s.accounts, s.entries, a);
  }

  // ---------- a reopening undoes its close ----------

  /** The effect of the entries of close `c` on each balance. */
  ghost function CloseEffect(entries: seq<Entry>, c: CloseRequest, k: nat, a: nat): int {
    (if k == c.fiscalYear then LinkNet(entries, c.regularization, a) + LinkNet(entries, c.closing, a) else 0)
    + (if k == c.fiscalYear + 1 then LinkNet(entries, c.opening, a) else 0)
  }

  lemma CloseAddsEffect(s: State, s': State, q: nat, now: int, actor: nat)
    requires Inv(s) && CloseCommitted(s, s', q, now, actor)
    ensures forall k: nat, a: nat ::
              YearBalance(s'.entries, k, a) == YearBalance(s.entries, k, a) + CloseEffect(s'.entries, s'.closes[q], k, a)
  {
    var y := s.closes[q].fiscalYear;
    var p1, p2, p3 := StagesOf(s, s', q, now, actor);
    StagesEffect(s, y, p1, p2, p3, s'.closes[q]);
  }

  lemma StagesEffect(s: State, y: nat, p1: Posting, p2: Posting, p3: Posting, c: CloseRequest)
    requires y < |s.years| && Stages(s, y, p1, p2, p3)
    requires c.fiscalYear == y && c.regularization == p1.id && c.closing == p2.id && c.opening == p3.id
    ensures forall k: nat, a: nat ::
              YearBalance(p3.entries, k, a) == YearBalance(s.entries, k, a) + CloseEffect(p3.entries, c, k, a)
  {
    var reg, closing, opening := RegularizationLines(s, y).value, ClosingEntryLines(s, y, p1.entries), OpeningEntryLines(s, y, p1.entries);
    PostedBalances(s.entries, p1, y, Regularization, reg);
    PostedBalances(p1.entries, p2, y, Closing, closing);
    PostedBalances(p2.entries, p3, y + 1, Opening, opening);
    PostedLink(s.entries, p1, y, Regularization, reg, p3.entries);
    PostedLink(p1.entries, p2, y, Closing, closing, p3.entries);
    PostedLink(p2.entries, p3, y + 1, Opening, opening, p3.entries);
  }

  lemma PostedLink(entries: seq<Entry>, p: Posting, y: nat, origin: Origin, lines: seq<Line>, later: seq<Entry>)
    requires PostedTo(entries, p, y, origin, lines) && p.entries <= later
    ensures forall a: nat :: LinkNet(later, p.id, a) == LineNet(lines, a)
  {
  }

  lemma ReopenRemovesEffect(t: State, t': State, r: nat, q: nat, business: nat)
    requires Inv(t) && ReopenCommitted(t, t', r, q, business)
    ensures forall k: nat, a: nat ::
              YearBalance(t'.entries, k, a) == YearBalance(t.entries, k, a) - CloseEffect(t.entries, t.closes[q], k, a)
  {
    var p1, p2, p3 := ReadyReopenPosts(t, q, business);
    ReadyLinks(t, q, business);
    UndoneBalances(t.entries, t.closes[q], p1, p2, p3);
  }

  lemma {:induction false} SameYearEntries(entries: seq<Entry>, later: seq<Entry>, k: nat, a: nat)
    requires entries <= later
    requires forall i :: |entries| <= i < |later| ==> later[i].fiscalYear != k
    ensures YearBalance(later, k, a) == YearBalance(entries, k, a)
    decreases |later|
  {
    if |later| == |entries| {
      assert later == entries;
    } else {
      SameYearEntries(entries, later[..|later| - 1], k, a);
    }
  }

  /** Entries posted to the successor while the close was current would show up in the reopening preflight. */
  lemma NothingNewInSuccessor(s2: State, t3: State, s4: State, r: nat, q: nat, business: nat)
    requires Inv(s2) && Inv(t3) && IsCurrent(s2.closes, s2.reopens, q)
    requires q < |t3.closes| && t3.closes[q] == s2.closes[q]
    requires Frozen(s2, t3, s2.closes[q].fiscalYear)
    requires ReopenCommitted(t3, s4, r, q, business)
    ensures forall i :: |s2.entries| <= i < |t3.entries| ==> t3.entries[i].fiscalYear != s2.closes[q].fiscalYear + 1
  {
    hide Inv, Frozen;
    var y := s2.closes[q].fiscalYear;
    var next: nat := y + 1;
    InvRequests(s2);
    InvRequests(t3);
    SuccessorIsNext(s2, q);
    forall i | |s2.entries| <= i < |t3.entries| ensures t3.entries[i].fiscalYear != next {
      if t3.entries[i].fiscalYear == next {
        assert KnownCycleEntry(t3.closes, t3.reopens, y, next, i);
        KnownEntriesAreOld(s2, t3, y, next, i);
      }
    }
  }

  lemma InvRequests(s: State)
    requires Inv(s)
    ensures LinksSound(s.entries, s.closes, s.reopens) && ReopensSound(s.closes, s.reopens)
  {
  }

  lemma SuccessorIsNext(s: State, q: nat)
    requires Inv(s) && q < |s.closes| && s.closes[q].status == Completed
    ensures s.closes[q].successor == Some(s.closes[q].fiscalYear + 1)
  {
    assert CloseRowSound(s.years, s.closes[q]);
  }

  lemma KnownEntriesAreOld(s2: State, t3: State, y: nat, next: nat, i: nat)
    requires LinksSound(s2.entries, s2.closes, s2.reopens) && ReopensSound(t3.closes, t3.reopens)
    requires Frozen(s2, t3, y) && KnownCycleEntry(t3.closes, t3.reopens, y, next, i)
    ensures i < |s2.entries|
  {
    var p :| 0 <= p < |t3.closes| && t3.closes[p].fiscalYear == y && t3.closes[p].successor == Some(next) && t3.closes[p].status == Completed
             && (t3.closes[p].opening == Some(i) || ReversesOpeningOf(t3.reopens, p, i));
    assert s2.closes[p] == t3.closes[p];
    assert CloseLinksSound(s2.entries, s2.closes[p]);
    if t3.closes[p].opening != Some(i) {
      var r :| 0 <= r < |t3.reopens| && t3.reopens[r].close == p && t3.reopens[r].status == Completed && t3.reopens[r].openingReversal == Some(i);
      assert ReopenRowSound(t3.closes, t3.reopens[r]);
      assert s2.reopens[r] == t3.reopens[r];
      assert ReopenLinksSound(s2.entries, s2.closes[s2.reopens[r].close], s2.reopens[r]);
    }
  }

  /** Closing a year and, after any commands whatever, reopening that close, brings back the year as it
      was and the balance that every account of both years had just before the close. */
  lemma ReopeningUndoesClosing(plan: seq<PlanAccount>, before: seq<Command>, between: seq<Command>,
                               q: nat, now: int, ctx: Context, outside: OutsideJournal,
                               r: nat, now': int, ctx': Context, business: nat)
    requires ValidPlan(plan)
    requires ApproveClose(Reached(plan, before), q, now, ctx, outside).1.Done?
    requires var s3 := Run(plan, ApproveClose(Reached(plan, before), q, now, ctx, outside).0, between);
             r < |s3.reopens| && s3.reopens[r].close == q && ApproveReopen(s3, r, now', ctx', business).1.Done?
    ensures var s1 := Reached(plan, before);
            var s3 := Run(plan, ApproveClose(s1, q, now, ctx, outside).0, between);
            var s4 := ApproveReopen(s3, r, now', ctx', business).0;
            var y := s1.closes[q].fiscalYear;
            && y < |s1.years| && y + 1 < |s4.years|
            && s4.years[y] == s1.years[y]
            && s4.years[y + 1].status == Reversed
            && |s1.accounts| <= |s4.accounts|
            && (forall a: nat :: a < |s1.accounts| && s1.accounts[a].fiscalYear <= y + 1 ==> Balance(s4.entries, a) == Balance(s1.entries, a))
            && (forall a: nat :: a < |s4.accounts| && s4.accounts[a].fiscalYear == y + 1 ==> Balance(s4.entries, a) == 0)
  {
    var s1 := Reached(plan, before);
    var s2 := ApproveClose(s1, q, now, ctx, outside).0;
    var s3 := Run(plan, s2, between);
    var s4 := ApproveReopen(s3, r, now', ctx', business).0;
    hide Inv, ApproveClose, ApproveReopen, Frozen, ReopenReady, Run, CloseCommitted, ReopenCommitted;
    ReachedInv(plan, before);
    ApproveCloseKeeps(s1, q, now, ctx, outside);
    ApproveCloseShape(s1, q, now, ctx, outside);
    RunKeeps(plan, s2, between);
    RunGrows(plan, s2, between);
    ApproveReopenKeeps(s3, r, now', ctx', business);
    ApproveReopenGrows(s3, r, now', ctx', business);
    ApproveReopenShape(s3, r, now', ctx', business);
    NewCloseIsCurrent(s1, s2, q, now, ctx.actor);
    WhileCurrent(plan, s2, between, q, r, now', business, s4);
    UndoFromParts(s1, s2, Refreshed(s3, now'), s4, q, now, ctx.actor, r, business);
    GrowsTransitive(s2, s3, s4);
    CommittedCloseGrows(s1, s2, q, now, ctx.actor);
    GrowsTransitive(s1, s2, s4);
    BalancesRestored(s1, s4, s1.closes[q].fiscalYear);
  }

  /** What held right after the close still holds when its reopening is approved. */
  lemma WhileCurrent(plan: seq<PlanAccount>, s2: State, between: seq<Command>, q: nat, r: nat, now: int, business: nat, s4: State)
    requires Inv(s2) && ValidPlan(plan) && IsCurrent(s2.closes, s2.reopens, q)
    requires ReopenCommitted(Refreshed(Run(plan, s2, between), now), s4, r, q, business)
    ensures var t := Refreshed(Run(plan, s2, between), now);
            Inv(t) && q < |t.closes| && t.closes[q] == s2.closes[q] && Frozen(s2, t, s2.closes[q].fiscalYear)
  {
    hide Inv, Run, Frozen;
    var s3 := Run(plan, s2, between);
    var t := Refreshed(s3, now);
    RunKeeps(plan, s2, between);
    RunGrows(plan, s2, between);
    ExpiryKeeps(s3, now, None);
    ExpiryRetires(s3.reopens, now, None);
    RetiredKeepsReopened(s3.reopens, t.reopens, q);
    RunFrozen(plan, s2, between, q);
    ExpiryQuiet(s3, now, None);
    FrozenThenQuiet(s2, s3, t, s2.closes[q].fiscalYear);
  }

  lemma FrozenThenQuiet(s: State, t: State, u: State, y: nat)
    requires Frozen(s, t, y) && Quiet(t, u)
    ensures Frozen(s, u, y)
  {
  }

  lemma BalancesRestored(s1: State, s4: State, y: nat)
    requires Inv(s1) && Inv(s4) && SameAccounts(s1.accounts, s4.accounts)
    requires y + 1 < |s4.years| && s4.years[y + 1].status == Reversed
    requires forall k: nat, a: nat :: k <= y + 1 ==> YearBalance(s4.entries, k, a) == YearBalance(s1.entries, k, a)
    ensures forall a: nat :: a < |s1.accounts| && s1.accounts[a].fiscalYear <= y + 1 ==> Balance(s4.entries, a) == Balance(s1.entries, a)
    ensures forall a: nat :: a < |s4.accounts| && s4.accounts[a].fiscalYear == y + 1 ==> Balance(s4.entries, a) == 0
  {
    hide AccountsShaped, JournalSound;
    forall a: nat | a < |s1.accounts| && s1.accounts[a].fiscalYear <= y + 1 ensures Balance(s4.entries, a) == Balance(s1.entries, a) {
      assert Identity(s4.accounts[a]) == Identity(s1.accounts[a]);
      BalanceIsYearBalance(s1.years, s1.accounts, s1.entries, a);
      BalanceIsYearBalance(s4.years, s4.accounts, s4.entries, a);
    }
    assert AllAtZero(s4.accounts, s4.entries, y + 1);
    forall a: nat | a < |s4.accounts| && s4.accounts[a].fiscalYear == y + 1 ensures Balance(s4.entries, a) == 0 {
      BalanceIsYearBalance(s4.years, s4.accounts, s4.entries, a);
    }
  }

  lemma NewCloseIsCurrent(s: State, s': State, q: nat, now: int, actor: nat)
    requires Inv(s) && CloseCommitted(s, s', q, now, actor)
    ensures IsCurrent(s'.closes, s'.reopens, q)
  {
    OnlyCompletedReopened(s.closes, s.reopens, q);
  }

  lemma UndoFromParts(s1: State, s2: State, t3: State, s4: State, q: nat, now: int, actor: nat, r: nat, business: nat)
    requires Inv(s1) && Inv(s2) && Inv(t3)
    requires CloseCommitted(s1, s2, q, now, actor)
    requires IsCurrent(s2.closes, s2.reopens, q)
    requires q < |t3.closes| && t3.closes[q] == s2.closes[q]
    requires Frozen(s2, t3, s2.closes[q].fiscalYear)
    requires ReopenCommitted(t3, s4, r, q, business)
    ensures var y := s1.closes[q].fiscalYear;
            && y < |s1.years| && y + 1 < |s4.years|
            && s4.years[y] == s1.years[y]
            && s4.years[y + 1].status == Reversed
            && (forall k: nat, a: nat :: k <= y + 1 ==> YearBalance(s4.entries, k, a) == YearBalance(s1.entries, k, a))
  {
    hide Inv, ReopenReady, CloseCommitted, ReopenCommitted, Frozen;
    CommittedCloseYear(s1, s2, q, now, actor);
    var y := s1.closes[q].fiscalYear;
    YearsRestored(s1, s2, t3, s4, q, now, actor, r, business);
    forall k: nat, a: nat | k <= y + 1 ensures YearBalance(s4.entries, k, a) == YearBalance(s1.entries, k, a) {
      BalanceUndone(s1, s2, t3, s4, q, now, actor, r, business, k, a);
    }
  }

  lemma BalanceUndone(s1: State, s2: State, t3: State, s4: State, q: nat, now: int, actor: nat, r: nat, business: nat, k: nat, a: nat)
    requires Inv(s1) && Inv(s2) && Inv(t3)
    requires CloseCommitted(s1, s2, q, now, actor)
    requires IsCurrent(s2.closes, s2.reopens, q)
    requires q < |t3.closes| && t3.closes[q] == s2.closes[q]
    requires Frozen(s2, t3, s2.closes[q].fiscalYear)
    requires ReopenCommitted(t3, s4, r, q, business)
    requires k <= s2.closes[q].fiscalYear + 1
    ensures YearBalance(s4.entries, k, a) == YearBalance(s1.entries, k, a)
  {
    hide Inv, ReopenReady, ReopenCommitted, CloseCommitted, CloseEffect;
    CloseAddsEffect(s1, s2, q, now, actor);
    ReopenRemovesEffect(t3, s4, r, q, business);
    NothingNewInSuccessor(s2, t3, s4, r, q, business);
    SameYearEntries(s2.entries, t3.entries, k, a);
    EffectUnchanged(s2, t3, q, k, a);
  }

  lemma EffectUnchanged(s2: State, t3: State, q: nat, k: nat, a: nat)
    requires Inv(s2) && s2.entries <= t3.entries
    requires q < |s2.closes| && s2.closes[q].status == Completed && q < |t3.closes| && t3.closes[q] == s2.closes[q]
    ensures CloseEffect(t3.entries, t3.closes[q], k, a) == CloseEffect(s2.entries, s2.closes[q], k, a)
  {
    assert CloseLinksSound(s2.entries, s2.closes[q]);
  }

  lemma YearsRestored(s1: State, s2: State, t3: State, s4: State, q: nat, now: int, actor: nat, r: nat, business: nat)
    requires Inv(s1) && Inv(t3)
    requires CloseCommitted(s1, s2, q, now, actor)
    requires q < |t3.closes| && t3.closes[q] == s2.closes[q]
    requires Frozen(s2, t3, s2.closes[q].fiscalYear)
    requires ReopenCommitted(t3, s4, r, q, business)
    ensures var y := s1.closes[q].fiscalYear;
            y < |s1.years| && y + 1 < |s4.years| && s4.years[y] == s1.years[y] && s4.years[y + 1].status == Reversed
  {
    ReadyReopenYears(t3, q, business);
    ClosableIsReady(s1, s1.closes[q].fiscalYear);
  }

  // ---------- what makes a close reopenable ----------

  ghost predicate WasClosed(closes: seq<CloseRequest>, y: nat) {
    exists q :: 0 <= q < |closes| && closes[q].fiscalYear == y && closes[q].status == Completed
  }

  /** Every year but the first was made by closing the year before it. */
  ghost predicate MadeByCloses(years: seq<FiscalYear>, closes: seq<CloseRequest>) {
    forall y: nat {:trigger WasClosed(closes, y)} :: y + 1 < |years| ==> WasClosed(closes, y)
  }

  lemma NoYearsMade()
    ensures MadeByCloses([], [])
  {
  }

  lemma WasClosedStays(s: State, s': State, y: nat)
    requires Grows(s, s') && WasClosed(s.closes, y)
    ensures WasClosed(s'.closes, y)
  {
    var q :| 0 <= q < |s.closes| && s.closes[q].fiscalYear == y && s.closes[q].status == Completed;
    assert s'.closes[q] == s.closes[q];
  }

  lemma StepMadeByCloses(plan: seq<PlanAccount>, s: State, c: Command)
    requires Inv(s) && MadeByCloses(s.years, s.closes)
    ensures MadeByCloses(Step(plan, s, c).0.years, Step(plan, s, c).0.closes)
  {
    var s' := Step(plan, s, c).0;
    StepGrows(plan, s, c);
    StepYears(plan, s, c);
    forall y: nat | y + 1 < |s'.years| ensures WasClosed(s'.closes, y) {
      if y + 1 < |s.years| {
        assert WasClosed(s.closes, y);
        WasClosedStays(s, s', y);
      }
    }
  }

  /** Only a first close adds a year after the first one. */
  lemma StepYears(plan: seq<PlanAccount>, s: State, c: Command)
    requires Inv(s)
    ensures var s' := Step(plan, s, c).0;
            |s'.years| == |s.years| || |s'.years| == 1 || (|s'.years| == |s.years| + 1 && |s.years| > 0 && WasClosed(s'.closes, |s.years| - 1))
  {
    hide Inv, ApproveClose, ApproveReopen, CloseReady, ReopenReady;
    match c
    case CmdApproveClose(q, now, ctx, outside) => ApproveCloseYears(s, q, now, ctx, outside);
    case CmdApproveReopen(r, now, ctx, business) => ApproveReopenYears(s, r, now, ctx, business);
    case _ =>
  }

  lemma ApproveReopenYears(s: State, r: nat, now: int, ctx: Context, business: nat)
    ensures |ApproveReopen(s, r, now, ctx, business).0.years| == |s.years|
  {
    hide PostReversals;
  }

  lemma ApproveCloseYears(s: State, q: nat, now: int, ctx: Context, outside: OutsideJournal)
    requires Inv(s)
    ensures var s' := ApproveClose(s, q, now, ctx, outside).0;
            |s'.years| == |s.years| || (|s'.years| == |s.years| + 1 && |s.years| > 0 && WasClosed(s'.closes, |s.years| - 1))
  {
    hide ApproveClose;
    ApproveCloseShape(s, q, now, ctx, outside);
    var (s', o) := ApproveClose(s, q, now, ctx, outside);
    if o.Done? {
      hide Inv;
      InvYears(s);
      NextYearFound(s.years, s.closes[q].fiscalYear);
      assert s'.closes[q].status == Completed;
    }
  }

  lemma InvYears(s: State)
    requires Inv(s)
    ensures YearsShaped(s.years) && ClosesSound(s.years, s.closes)
  {
  }

  lemma {:induction false} RunMadeByCloses(plan: seq<PlanAccount>, s: State, commands: seq<Command>)
    requires Inv(s) && ValidPlan(plan) && MadeByCloses(s.years, s.closes)
    ensures MadeByCloses(Run(plan, s, commands).years, Run(plan, s, commands).closes)
    decreases |commands|
  {
    if commands != [] {
      StepKeeps(plan, s, commands[0]);
      StepMadeByCloses(plan, s, commands[0]);
      RunMadeByCloses(plan, Step(plan, s, commands[0]).0, commands[1..]);
    }
  }

  /** The account table of the successor right after a close. */
  lemma PlanAfterClose(s: State, s': State, q: nat, now: int, actor: nat)
    requires Inv(s) && CloseCommitted(s, s', q, now, actor)
    ensures var y := s.closes[q].fiscalYear;
            AllLinked(s'.accounts, y + 1) && NoneMissing(s'.accounts, y, y + 1)
  {
    hide PostClosure, AccountsAfterClose;
    var y := s.closes[q].fiscalYear;
    ClosableIsReady(s, y);
    AfterCopying(s.years, s.accounts, y);
    var next: nat := y + 1;
    forall x | 0 <= x < |s'.accounts| && s'.accounts[x].fiscalYear == y ensures HasCopy(s'.accounts, next, x) {
      if x < |s.accounts| {
        assert s'.accounts[x] == s.accounts[x];
        assert x in YearAccounts(s.accounts, y);
      }
    }
  }

  /** Every account of year `y` has its copy in the next year. */
  ghost predicate CopiedOn(accounts: seq<Account>, y: nat) {
    NoneMissing(accounts, y, y + 1)
  }

  ghost predicate FullyCopied(s: State) {
    forall y: nat {:trigger CopiedOn(s.accounts, y)} :: y < |s.years| && s.years[y].status == Closed ==> CopiedOn(s.accounts, y)
  }

  lemma NothingToCopy()
    ensures FullyCopied(EMPTY)
  {
  }

  /** Copies stay when accounts are added to other years or renamed. */
  lemma CopiedStays(before: seq<Account>, after: seq<Account>, y: nat)
    requires CopiedOn(before, y) && SameAccounts(before, after)
    requires forall x :: |before| <= x < |after| ==> after[x].fiscalYear != y
    ensures CopiedOn(after, y)
  {
    var next: nat := y + 1;
    forall x | 0 <= x < |after| && after[x].fiscalYear == y ensures HasCopy(after, next, x) {
      assert Identity(after[x]) == Identity(before[x]);
      assert HasCopy(before, next, x);
      var a :| 0 <= a < |before| && before[a].fiscalYear == next && before[a].source == Some(x);
      assert Identity(after[a]) == Identity(before[a]);
    }
  }

  /** No year becomes closed, and new accounts are for years that are not closed. */
  ghost predicate ClosesNothing(s: State, s': State) {
    && SameAccounts(s.accounts, s'.accounts)
    && (forall y :: 0 <= y < |s'.years| && s'.years[y].status == Closed ==> y < |s.years| && s.years[y].status == Closed)
    && (forall x :: |s.accounts| <= x < |s'.accounts| ==>
          s'.accounts[x].fiscalYear < |s'.years| && s'.years[s'.accounts[x].fiscalYear].status != Closed)
  }

  lemma ClosingNothingKeepsCopies(s: State, s': State)
    requires FullyCopied(s) && ClosesNothing(s, s')
    ensures FullyCopied(s')
  {
    forall y: nat | y < |s'.years| && s'.years[y].status == Closed ensures CopiedOn(s'.accounts, y) {
      assert CopiedOn(s.accounts, y);
      CopiedStays(s.accounts, s'.accounts, y);
    }
  }

  lemma ReopeningClosesNothing(s: State, r: nat, now: int, ctx: Context, business: nat)
    ensures ClosesNothing(s, ApproveReopen(s, r, now, ctx, business).0)
  {
    hide PostReversals;
  }

  lemma OthersCloseNothing(plan: seq<PlanAccount>, s: State, c: Command)
    requires s.years == [] ==> s.accounts == []
    requires !c.CmdApproveClose? && !c.CmdApproveReopen?
    ensures ClosesNothing(s, Step(plan, s, c).0)
  {
    hide CloseReady, ReopenReady, NextYearTaken, ExpireStale, TableAccepts, LinesInYear, HasSide, MayPost;
  }

  lemma CloseKeepsCopies(s: State, s': State, q: nat, now: int, actor: nat)
    requires Inv(s) && FullyCopied(s) && CloseCommitted(s, s', q, now, actor)
    ensures FullyCopied(s')
  {
    hide PostClosure, AccountsAfterClose, NoneMissing;
    var y := s.closes[q].fiscalYear;
    PlanAfterClose(s, s', q, now, actor);
    ClosableIsReady(s, y);
    YearsClosed(s.years, y, now, actor);
    CopiedAccountsSame(s.years, s.accounts, y);
    AfterCopying(s.years, s.accounts, y);
    forall k: nat | k < |s'.years| && s'.years[k].status == Closed ensures CopiedOn(s'.accounts, k) {
      if k != y {
        assert CopiedOn(s.accounts, k);
        CopiedStays(s.accounts, s'.accounts, k);
      }
    }
  }

  lemma ApproveCloseKeepsCopies(s: State, q: nat, now: int, ctx: Context, outside: OutsideJournal)
    requires Inv(s) && FullyCopied(s)
    ensures FullyCopied(ApproveClose(s, q, now, ctx, outside).0)
  {
    hide Inv, ApproveClose, CloseCommitted, FullyCopied;
    ApproveCloseShape(s, q, now, ctx, outside);
    var (s', o) := ApproveClose(s, q, now, ctx, outside);
    if o.Done? { CloseKeepsCopies(s, s', q, now, ctx.actor); }
  }

  lemma StepFullyCopied(plan: seq<PlanAccount>, s: State, c: Command)
    requires Inv(s) && FullyCopied(s)
    ensures FullyCopied(Step(plan, s, c).0)
  {
    hide Inv, ApproveClose, ApproveReopen, FullyCopied, ClosesNothing;
    match c
    case CmdApproveClose(q, now, ctx, outside) => ApproveCloseKeepsCopies(s, q, now, ctx, outside);
    case CmdApproveReopen(r, now, ctx, business) =>
      ReopeningClosesNothing(s, r, now, ctx, business);
      ClosingNothingKeepsCopies(s, Step(plan, s, c).0);
    case _ =>
      if s.accounts != [] { RowsNeedYears(s); }
      OthersCloseNothing(plan, s, c);
      ClosingNothingKeepsCopies(s, Step(plan, s, c).0);
  }

  /** In every reachable state every account of a closed year has its copy in the next one. */
  lemma {:induction false} RunFullyCopied(plan: seq<PlanAccount>, s: State, commands: seq<Command>)
    requires Inv(s) && ValidPlan(plan) && FullyCopied(s)
    ensures FullyCopied(Run(plan, s, commands))
    decreases |commands|
  {
    hide Inv, ValidPlan, Step, FullyCopied;
    if commands != [] {
      StepKeeps(plan, s, commands[0]);
      StepFullyCopied(plan, s, commands[0]);
      RunFullyCopied(plan, Step(plan, s, commands[0]).0, commands[1..]);
    }
  }

  /** For a completed close the preflight comes down to six conditions: it was not reopened, nobody has ever
      asked to close its successor, nothing but openings and their reversals stands there, no account was
      added to it, every copy bears the name of its source, and nothing else was dated in it.  All the
      other conditions hold in every reachable state. */
  lemma ReopenReadyIff(plan: seq<PlanAccount>, commands: seq<Command>, q: nat, business: nat)
    requires ValidPlan(plan)
    requires var s := Reached(plan, commands); q < |s.closes| && s.closes[q].status == Completed
    ensures var s := Reached(plan, commands);
            var y := s.closes[q].fiscalYear;
            ReopenReady(s, q, business) <==>
              && !Reopened(s.reopens, q)
              && !HasCloseRequest(s.closes, y + 1)
              && NoForeignEntry(s, y, y + 1)
              && AllLinked(s.accounts, y + 1)
              && NamesMatch(s.accounts, y + 1)
              && business == 0
  {
    hide Inv, Run, ReopenReady, MadeByCloses, FullyCopied, NoForeignEntry, AllLinked, NamesMatch, HasCloseRequest, Reopened, ValidPlan;
    ReachedInv(plan, commands);
    hide Inv, Run, ReopenReady, MadeByCloses, NoForeignEntry, AllLinked, NamesMatch, NoneMissing;
    var s := Reached(plan, commands);
    EmptyHolds();
    assert MadeByCloses(EMPTY.years, EMPTY.closes) by { NoYearsMade(); }
    RunMadeByCloses(plan, EMPTY, commands);
    NothingToCopy();
    RunFullyCopied(plan, EMPTY, commands);
    ReopenReadyFrom(s, q, business);
  }

  ghost predicate NameAgrees(accounts: seq<Account>, a: nat)
    requires a < |accounts|
  {
    accounts[a].source.Some? && accounts[a].source.value < |accounts| ==> accounts[a].name == accounts[accounts[a].source.value].name
  }

  /** Every copy still bears the name of its source. */
  ghost predicate NamesMatch(accounts: seq<Account>, next: nat) {
    forall a {:trigger NameAgrees(accounts, a)} :: 0 <= a < |accounts| && accounts[a].fiscalYear == next ==> NameAgrees(accounts, a)
  }

  lemma NamesDecide(years: seq<FiscalYear>, accounts: seq<Account>, y: nat)
    requires AccountsShaped(years, accounts)
    ensures PlansMatch(accounts, y, y + 1) <==> NamesMatch(accounts, y + 1)
  {
    forall a | 0 <= a < |accounts| && accounts[a].fiscalYear == y + 1
      ensures AgreesWithSource(accounts, y, a) <==> NameAgrees(accounts, a)
    {
      assert AccountSound(years, accounts, accounts[a]);
    }
  }

  lemma ReopenReadyFrom(s: State, q: nat, business: nat)
    requires Inv(s) && MadeByCloses(s.years, s.closes) && FullyCopied(s) && q < |s.closes| && s.closes[q].status == Completed
    ensures var y := s.closes[q].fiscalYear;
            ReopenReady(s, q, business) <==>
              && !Reopened(s.reopens, q)
              && !HasCloseRequest(s.closes, y + 1)
              && NoForeignEntry(s, y, y + 1)
              && AllLinked(s.accounts, y + 1)
              && NamesMatch(s.accounts, y + 1)
              && business == 0
  {
    var y := s.closes[q].fiscalYear;
    assert CloseRowSound(s.years, s.closes[q]);
    NamesDecide(s.years, s.accounts, y);
    if !Reopened(s.reopens, q) && !HasCloseRequest(s.closes, y + 1) {
      CurrentEvidence(s, q);
      assert CopiedOn(s.accounts, y);
    }
  }

  /** A current close whose successor was never asked to close: the parts of the preflight that always hold. */
  lemma CurrentEvidence(s: State, q: nat)
    requires Inv(s) && MadeByCloses(s.years, s.closes)
    requires IsCurrent(s.closes, s.reopens, q) && !HasCloseRequest(s.closes, s.closes[q].fiscalYear + 1)
    ensures var c := s.closes[q];
            var y := c.fiscalYear;
            && y + 1 < |s.years| && c.successor == Some(y + 1)
            && s.years[y].status == Closed && s.years[y + 1].status == Open
            && s.years[y + 1].source == Some(y) && s.years[y + 1].year == s.years[y].year + 1
            && ValidAutomatic(s.entries, c.regularization, Regularization, y)
            && ValidAutomatic(s.entries, c.closing, Closing, y)
            && ValidAutomatic(s.entries, c.opening, Opening, y + 1)
            && !HasChildYear(s.years, y + 1)
  {
    var c := s.closes[q];
    var y := c.fiscalYear;
    assert CloseRowSound(s.years, c);
    assert CloseLinksSound(s.entries, c);
    assert Unreversed(s.entries, c);
    YearsAround(s.years, y);
    NoChildOfLast(s.years, y + 1);
    var next: nat := y + 1;
    assert next + 1 < |s.years| ==> WasClosed(s.closes, next);
  }

  lemma YearsAround(years: seq<FiscalYear>, y: nat)
    requires YearsShaped(years) && y + 1 < |years|
    ensures years[y + 1].source == Some(y) && years[y + 1].year == years[y].year + 1
    ensures years[y + 1].status == Reversed ==> years[y].status == Open
    ensures years[y].status == Closed && years[y + 1].status == Open ==> |years| <= y + 3
  {
    assert years[y].year == years[0].year + y;
  }

  lemma NoChildOfLast(years: seq<FiscalYear>, y: nat)
    requires Contiguous(years)
    ensures HasChildYear(years, y) ==> y + 1 < |years|
  {
  }
}
