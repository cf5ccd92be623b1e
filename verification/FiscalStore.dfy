/**
 The fiscal-year service as it works: tables that each operation changes step by step inside one
 transaction, which a fault rolls back.  Every operation is proved to have exactly the effect and the
 outcome that `FiscalCycle` specifies for it, and to keep the invariant of the cycle.
 */
module FiscalStore {
  import opened Ledger
  import opened Settlement
  import Spec = FiscalCycle
  import opened FiscalCycle
  import opened CycleInvariant
  import opened CycleSteps
  import opened CycleCloseKeeps
  import opened CycleReopenKeeps

  // ---------- the balances of a year as a map ----------

  function BalanceIn(balances: map<nat, int>, a: nat): int {
    if a in balances then balances[a] else 0
  }

  /** The map agrees with the journal on the accounts of the group. */
  ghost predicate MapAgrees(ids: seq<nat>, accounts: seq<Account>, entries: seq<Entry>, y: nat, g: Group, balances: map<nat, int>)
    requires Known(ids, accounts)
  {
    forall i :: 0 <= i < |ids| && InGroup(accounts[ids[i]], g) ==> BalanceIn(balances, ids[i]) == YearBalance(entries, y, ids[i])
  }

  function LinesFrom(ids: seq<nat>, accounts: seq<Account>, balances: map<nat, int>, g: Group): seq<Line>
    requires Known(ids, accounts)
  {
    if ids == [] then []
    else
      var before := LinesFrom(ids[..|ids| - 1], accounts, balances, g);
      var a := ids[|ids| - 1];
      if InGroup(accounts[a], g) && BalanceIn(balances, a) != 0
      then before + [ClosingLine(a, accounts[a].name, BalanceIn(balances, a))]
      else before
  }

  lemma {:induction false} LinesFromIsSettlement(ids: seq<nat>, accounts: seq<Account>, entries: seq<Entry>, y: nat, g: Group, balances: map<nat, int>)
    requires Known(ids, accounts) && MapAgrees(ids, accounts, entries, y, g, balances)
    ensures LinesFrom(ids, accounts, balances, g) == SettlementLines(ids, accounts, entries, y, g)
  {
    if ids != [] {
      var front := ids[..|ids| - 1];
      assert forall i :: 0 <= i < |front| ==> front[i] == ids[i];
      LinesFromIsSettlement(front, accounts, entries, y, g, balances);
    }
  }

  function OpeningFrom(ids: seq<nat>, accounts: seq<Account>, balances: map<nat, int>, copies: map<nat, nat>): seq<Line>
    requires Known(ids, accounts)
  {
    if ids == [] then []
    else
      var before := OpeningFrom(ids[..|ids| - 1], accounts, balances, copies);
      var a := ids[|ids| - 1];
      if InGroup(accounts[a], Patrimonial) && BalanceIn(balances, a) != 0 && a in copies
      then before + [OpeningLine(copies[a], accounts[a].name, BalanceIn(balances, a))]
      else before
  }

  lemma {:induction false} OpeningFromIsOpening(ids: seq<nat>, accounts: seq<Account>, entries: seq<Entry>, y: nat,
                                                balances: map<nat, int>, copies: map<nat, nat>)
    requires Known(ids, accounts) && MapAgrees(ids, accounts, entries, y, Patrimonial, balances)
    ensures OpeningFrom(ids, accounts, balances, copies) == OpeningLines(ids, accounts, entries, y, copies)
  {
    if ids != [] {
      var front := ids[..|ids| - 1];
      assert forall i :: 0 <= i < |front| ==> front[i] == ids[i];
      OpeningFromIsOpening(front, accounts, entries, y, balances, copies);
    }
  }

  ghost predicate MapIs(balances: map<nat, int>, entries: seq<Entry>, y: nat) {
    forall a: nat :: BalanceIn(balances, a) == YearBalance(entries, y, a)
  }

  method AddLines(balances: map<nat, int>, lines: seq<Line>) returns (r: map<nat, int>)
    ensures forall a: nat :: BalanceIn(r, a) == BalanceIn(balances, a) + LineNet(lines, a)
  {
    r := balances;
    for i := 0 to |lines|
      invariant forall a: nat :: BalanceIn(r, a) == BalanceIn(balances, a) + LineNet(lines[..i], a)
    {
      LinesSnoc(lines[..i], lines[i]);
      assert lines[..i] + [lines[i]] == lines[..i + 1];
      var a := lines[i].account;
      r := r[a := BalanceIn(r, a) + lines[i].debit - lines[i].credit];
    }
    assert lines[..|lines|] == lines;
  }

  /** Debits minus credits of every account, over the entries of the year. */
  method YearBalances(entries: seq<Entry>, y: nat) returns (balances: map<nat, int>)
    ensures MapIs(balances, entries, y)
  {
    balances := map[];
    for i := 0 to |entries|
      invariant MapIs(balances, entries[..i], y)
    {
      JournalSnoc(entries[..i], entries[i]);
      assert entries[..i] + [entries[i]] == entries[..i + 1];
      if entries[i].fiscalYear == y {
        balances := AddLines(balances, entries[i].lines);
      }
    }
    assert entries[..|entries|] == entries;
  }

  /** After the result is settled, correcting the one balance of the result account is enough: the map
      agrees with the journal on all accounts that the closing entry still looks at. */
  lemma ResultCorrected(accounts: seq<Account>, entries: seq<Entry>, y: nat, balances: map<nat, int>, result: nat, e: Entry)
    requires MapIs(balances, entries, y)
    requires result in YearAccounts(accounts, y)
    requires var lines := SettlementLines(YearAccounts(accounts, y), accounts, entries, y, Results);
             e.fiscalYear == y
             && e.lines == lines + [ClosingLine(result, "Resultado del ejercicio", DebitTotal(lines) - CreditTotal(lines))]
    ensures var ids := YearAccounts(accounts, y);
            var lines := SettlementLines(ids, accounts, entries, y, Results);
            MapAgrees(ids, accounts, entries + [e], y, Patrimonial,
                      balances[result := BalanceIn(balances, result) - (DebitTotal(lines) - CreditTotal(lines))])
  {
    hide SettlementLines, InGroup, YearBalance, MapIs, BalanceIn;
    var ids := YearAccounts(accounts, y);
    var lines := SettlementLines(ids, accounts, entries, y, Results);
    AccountsDistinct(accounts, y, |accounts|);
    forall i | 0 <= i < |ids| && InGroup(accounts[ids[i]], Patrimonial)
      ensures BalanceIn(balances[result := BalanceIn(balances, result) - (DebitTotal(lines) - CreditTotal(lines))], ids[i])
           == YearBalance(entries + [e], y, ids[i])
    {
      SettlementNet(ids, accounts, entries, y, Results, ids[i]);
      OneGroup(accounts[ids[i]]);
      OneCorrected(entries, y, balances, result, e, lines, ids[i]);
    }
  }

  lemma OneCorrected(entries: seq<Entry>, y: nat, balances: map<nat, int>, result: nat, e: Entry, lines: seq<Line>, a: nat)
    requires MapIs(balances, entries, y) && LineNet(lines, a) == 0
    requires e.fiscalYear == y && e.lines == lines + [ClosingLine(result, "Resultado del ejercicio", DebitTotal(lines) - CreditTotal(lines))]
    ensures BalanceIn(balances[result := BalanceIn(balances, result) - (DebitTotal(lines) - CreditTotal(lines))], a)
         == YearBalance(entries + [e], y, a)
  {
    LinesSnoc(lines, ClosingLine(result, "Resultado del ejercicio", DebitTotal(lines) - CreditTotal(lines)));
    JournalSnoc(entries, e);
  }

  lemma OneGroup(a: Account)
    ensures InGroup(a, Patrimonial) ==> !InGroup(a, Results)
  {
  }

  lemma MapAgreesEverywhere(ids: seq<nat>, accounts: seq<Account>, entries: seq<Entry>, y: nat, balances: map<nat, int>)
    requires Known(ids, accounts) && MapIs(balances, entries, y)
    ensures MapAgrees(ids, accounts, entries, y, Results, balances) && MapAgrees(ids, accounts, entries, y, Patrimonial, balances)
  {
  }

  /** A group without lines leaves the journal as it is. */
  lemma NothingPosted(entries: seq<Entry>, y: nat, year: int, date: int, origin: Origin)
    ensures PostAutomatic(entries, y, year, date, origin, []) == Posted(entries, None)
  {
  }

  lemma PostedOne(before: seq<Entry>, y: nat, year: int, date: int, origin: Origin, lines: seq<Line>, after: seq<Entry>, id: Option<nat>)
    requires lines != [] && PostAutomatic(before, y, year, date, origin, lines) == Posted(after, id)
    ensures |after| == |before| + 1 && after == before + [after[|before|]]
    ensures after[|before|].fiscalYear == y && after[|before|].lines == lines
  {
  }

  // ---------- the tables ----------

  datatype Attempt = Entered(id: Option<nat>) | Faulted(fault: Fault)

  class Store {
    var years: seq<FiscalYear>
    var accounts: seq<Account>
    var entries: seq<Entry>
    var closes: seq<CloseRequest>
    var reopens: seq<ReopenRequest>
    var replies: map<string, Reply>

    function Tables(): State
      reads this
    {
      State(years, accounts, entries, closes, reopens, replies)
    }

    constructor ()
      ensures Tables() == EMPTY && Inv(Tables())
    {
      years, accounts, entries, closes, reopens, replies := [], [], [], [], [], map[];
      new;
      EmptyHolds();
    }

    method Rollback(saved: State)
      modifies this
      ensures Tables() == saved
    {
      years, accounts, entries := saved.years, saved.accounts, saved.entries;
      closes, reopens, replies := saved.closes, saved.reopens, saved.replies;
    }

    method StoreReply(ctx: Context, status: int, body: Response)
      modifies this`replies
      ensures replies == old(replies)[ctx.key := Reply(ctx.hash, status, body)]
    {
      replies := replies[ctx.key := Reply(ctx.hash, status, body)];
    }

    /** Inserts a row, which the checks of the table may refuse. */
    method InsertEntry(e: Entry) returns (r: Attempt)
      modifies this`entries
      ensures TableAccepts(e) ==> r == Entered(Some(|old(entries)|)) && entries == old(entries) + [e]
      ensures !TableAccepts(e) ==> r == Faulted(CheckViolation) && entries == old(entries)
    {
      if !TableAccepts(e) {
        return Faulted(CheckViolation);
      }
      entries := entries + [e];
      r := Entered(Some(|entries| - 1));
    }

    method CreateAutomaticEntry(y: nat, year: int, date: int, origin: Origin, lines: seq<Line>) returns (r: Attempt)
      requires lines != []
      modifies this`entries
      ensures r.Entered? ==> PostAutomatic(old(entries), y, year, date, origin, lines) == Posted(entries, r.id)
      ensures r.Faulted? ==> PostAutomatic(old(entries), y, year, date, origin, lines) == Failed(r.fault) && entries == old(entries)
    {
      if DebitTotal(lines) != CreditTotal(lines) {
        return Faulted(Unbalanced(origin));
      }
      var last := LastNumber(entries, y);
      r := InsertEntry(Entry(y, year, last + 1, date, origin, None, DebitTotal(lines), CreditTotal(lines), lines));
    }

    method EnterIfAny(y: nat, year: int, date: int, origin: Origin, lines: seq<Line>) returns (r: Attempt)
      modifies this`entries
      ensures r.Entered? ==> PostAutomatic(old(entries), y, year, date, origin, lines) == Posted(entries, r.id)
      ensures r.Faulted? ==> PostAutomatic(old(entries), y, year, date, origin, lines) == Failed(r.fault) && entries == old(entries)
    {
      r := Entered(None);
      if lines != [] {
        r := CreateAutomaticEntry(y, year, date, origin, lines);
      }
    }

    method CreateReversalEntry(x: nat) returns (r: Attempt)
      requires x < |entries|
      modifies this`entries
      ensures r.Entered? ==> PostReversal(old(entries), Some(x)) == Posted(entries, r.id)
      ensures r.Faulted? ==> PostReversal(old(entries), Some(x)) == Failed(r.fault) && entries == old(entries)
    {
      var original := entries[x];
      var last := LastNumber(entries, original.fiscalYear);
      r := InsertEntry(Entry(original.fiscalYear, original.year, last + 1, original.date, CloseReversal, Some(x),
                             original.totalCredit, original.totalDebit, Mirror(original.lines)));
    }

    // ---------- first year ----------

    method Initialize(plan: seq<PlanAccount>, year: int) returns (o: Outcome)
      requires ValidPlan(plan) && Inv(Tables())
      modifies this
      ensures (Tables(), o) == Spec.Initialize(plan, old(Tables()), year)
      ensures Inv(Tables())
    {
      hide Inv, ValidPlan;
      InitializeKeeps(plan, Tables(), year);
      if year < 2000 || year > 2100 { return Refused(InvalidInput); }
      if years != [] { return Refused(AlreadyInitialized); }
      years := [FiscalYear(year, Open, None, None, None)];
      accounts := seq(|plan|, i requires 0 <= i < |plan| => PlanRow(plan[i]));
      o := Written;
    }

    // ---------- closing ----------

    method RequestClose(y: nat, ctx: Context, outside: OutsideJournal) returns (o: Outcome)
      requires Inv(Tables())
      modifies this
      ensures (Tables(), o) == Spec.RequestClose(old(Tables()), y, ctx, outside)
      ensures Inv(Tables())
    {
      hide Inv, CloseReady;
      RequestCloseKeeps(Tables(), y, ctx, outside);
      var stored := Replay(replies, ctx, 201, CloseShape);
      if stored.Some? { return stored.value; }
      if y >= |years| { return Refused(FiscalYearNotFound); }
      if years[y].status != Open { return Refused(FiscalYearNotOpen); }
      if NextYearTaken(years, y) { return Refused(NextYearExists); }
      if HasRequestedClose(closes, y) { return Refused(ActiveCloseExists); }
      if !CloseReady(Tables(), y, outside) { return Refused(ClosePreconditionsFailed); }
      var row := CloseRequest(y, Requested, ctx.actor, None, None, None, None, None, None, None, None);
      var view := CloseView(|closes|, row);
      closes := closes + [row];
      StoreReply(ctx, 201, view);
      o := Created(view);
    }

    method CancelClose(q: nat, now: int, ctx: Context) returns (o: Outcome)
      requires Inv(Tables())
      modifies this
      ensures (Tables(), o) == Spec.CancelClose(old(Tables()), q, now, ctx)
      ensures Inv(Tables())
    {
      hide Inv;
      CancelCloseKeeps(Tables(), q, now, ctx);
      var stored := Replay(replies, ctx, 200, CloseShape);
      if stored.Some? { return stored.value; }
      if q >= |closes| { return Refused(CloseRequestNotFound); }
      if closes[q].status != Requested || closes[q].requestedBy != ctx.actor { return Refused(CloseRequestNotCancellable); }
      var row := closes[q].(status := Cancelled, cancelledBy := Some(ctx.actor), cancelledAt := Some(now));
      closes := closes[q := row];
      var view := CloseView(q, row);
      StoreReply(ctx, 200, view);
      o := Done(view);
    }

    /** Posts the settlement of groups 6 and 7 and corrects the balance of the result account. */
    method Regularize(y: nat, found: map<nat, int>) returns (r: Attempt, balances: map<nat, int>)
      requires y < |years| && MapIs(found, entries, y)
      modifies this`entries
      ensures r.Entered? ==> PostRegularization(old(Tables()), y) == Posted(entries, r.id)
      ensures r.Faulted? ==> PostRegularization(old(Tables()), y) == Failed(r.fault)
      ensures r.Entered? ==> MapAgrees(YearAccounts(accounts, y), accounts, entries, y, Patrimonial, balances)
    {
      hide PostAutomatic, SettlementLines, LinesFrom, MapAgrees, InGroup;
      var ids := YearAccounts(accounts, y);
      balances := found;
      MapAgreesEverywhere(ids, accounts, entries, y, balances);
      var lines := LinesFrom(ids, accounts, balances, Results);
      LinesFromIsSettlement(ids, accounts, entries, y, Results, balances);
      if lines == [] {
        NothingPosted(entries, y, years[y].year, LastDay(years[y].year), Regularization);
        return Entered(None), balances;
      }
      var result := FindCode(accounts, ids, RESULT_ACCOUNT);
      if result.None? || !accounts[result.value].postable {
        return Faulted(MissingResultAccount), balances;
      }
      var total := DebitTotal(lines) - CreditTotal(lines);
      balances := balances[result.value := BalanceIn(balances, result.value) - total];
      var year := years[y].year;
      var all := lines + [ClosingLine(result.value, "Resultado del ejercicio", total)];
      r := CreateAutomaticEntry(y, year, LastDay(year), Regularization, all);
      if r.Entered? {
        PostedOne(old(entries), y, year, LastDay(year), Regularization, all, entries, r.id);
        var e := entries[|old(entries)|];
        ResultCorrected(accounts, old(entries), y, found, result.value, e);
      }
    }

    /** Copies the accounts that the successor lacks, and opens or creates the successor. */
    method OpenSuccessor(y: nat, now: int, actor: nat) returns (next: nat)
      requires y < |years|
      modifies this`years, this`accounts
      ensures years == YearsAfterClose(old(years), y, now, actor)
      ensures accounts == AccountsAfterClose(old(years), old(accounts), y)
      ensures next == SuccessorOf(old(years), y)
    {
      var found := FindYear(years, years[y].year + 1);
      var ids := YearAccounts(accounts, y);
      years := years[y := years[y].(status := Closed, closedAt := Some(now), closedBy := Some(actor))];
      if found.Some? {
        next := found.value;
        var copied := CopyMap(accounts, next, |accounts|);
        accounts := accounts + CopyAccounts(ids, accounts, next, copied);
        years := years[next := years[next].(status := Open)];
      } else {
        next := |years|;
        accounts := accounts + CopyAccounts(ids, accounts, next, map[]);
        years := years + [FiscalYear(years[y].year + 1, Open, Some(y), None, None)];
      }
    }

    /** The three postings and the change of years between them. */
    method SettleAndOpen(y: nat, now: int, actor: nat) returns (next: nat, reg: Attempt, closing: Attempt, opening: Attempt)
      requires y < |years|
      modifies this
      ensures closes == old(closes) && reopens == old(reopens) && replies == old(replies)
      ensures reg.Faulted? ==> PostClosure(old(Tables()), y) == NoClosure(reg.fault)
      ensures reg.Entered? && closing.Faulted? ==> PostClosure(old(Tables()), y) == NoClosure(closing.fault)
      ensures reg.Entered? && closing.Entered? && opening.Faulted? ==> PostClosure(old(Tables()), y) == NoClosure(opening.fault)
      ensures reg.Entered? && closing.Entered? && opening.Entered? ==>
                && PostClosure(old(Tables()), y) == Closure(entries, reg.id, closing.id, opening.id)
                && years == YearsAfterClose(old(years), y, now, actor)
                && accounts == AccountsAfterClose(old(years), old(accounts), y)
                && next == SuccessorOf(old(years), y)
    {
      hide PostRegularization, PostAutomatic, YearsAfterClose, AccountsAfterClose, SettlementLines, OpeningLines, CopyMap, MapIs, SuccessorOf, FindYear, MapAgrees;
      var ids := YearAccounts(accounts, y);
      var source := accounts;
      var year := years[y].year;
      next, closing, opening := 0, Entered(None), Entered(None);
      var balances := YearBalances(entries, y);
      reg, balances := Regularize(y, balances);
      if reg.Faulted? { return; }
      ghost var settled := entries;

      var closingLines := LinesFrom(ids, source, balances, Patrimonial);
      LinesFromIsSettlement(ids, source, entries, y, Patrimonial, balances);
      closing := EnterIfAny(y, year, LastDay(year), Closing, closingLines);
      if closing.Faulted? { return; }

      next := OpenSuccessor(y, now, actor);
      var copies := CopyMap(accounts, next, |accounts|);
      var openingLines := OpeningFrom(ids, source, balances, copies);
      OpeningFromIsOpening(ids, source, settled, y, balances, copies);
      opening := EnterIfAny(next, year + 1, FirstDay(year + 1), Opening, openingLines);
    }

    method ApproveClose(q: nat, now: int, ctx: Context, outside: OutsideJournal) returns (o: Outcome)
      requires Inv(Tables())
      modifies this
      ensures (Tables(), o) == Spec.ApproveClose(old(Tables()), q, now, ctx, outside)
      ensures Inv(Tables())
    {
      hide Inv, CloseReady, PostClosure, YearsAfterClose, AccountsAfterClose;
      ApproveCloseKeeps(Tables(), q, now, ctx, outside);
      var stored := Replay(replies, ctx, 200, YearsShape);
      if stored.Some? { return stored.value; }
      if q >= |closes| { return Refused(CloseRequestNotFound); }
      var request := closes[q];
      if request.status != Requested { return Refused(CloseRequestNotPending); }
      if request.requestedBy == ctx.actor { return Refused(SelfApproval); }
      var y := request.fiscalYear;
      if y >= |years| { return Refused(FiscalYearNotFound); }
      if years[y].status != Open { return Refused(FiscalYearNotOpen); }
      if NextYearTaken(years, y) { return Refused(NextYearExists); }
      if !CloseReady(Tables(), y, outside) { return Refused(ClosePreconditionsFailed); }

      var saved := Tables();
      var next, reg, closing, opening := SettleAndOpen(y, now, ctx.actor);
      if reg.Faulted? || closing.Faulted? || opening.Faulted? {
        Rollback(saved);
        return Thrown(if reg.Faulted? then reg.fault else if closing.Faulted? then closing.fault else opening.fault);
      }
      SuccessorIsThere(saved.years, y, now, ctx.actor);
      var view := YearsView(y, years[y], next, years[next]);
      closes := closes[q := request.(
        status := Completed, approvedBy := Some(ctx.actor), approvedAt := Some(now), successor := Some(next),
        regularization := reg.id, closing := closing.id, opening := opening.id)];
      StoreReply(ctx, 200, view);
      o := Done(view);
    }

    // ---------- reopening ----------

    method ExpireStaleReopenRequests(now: int, only: Option<set<nat>>)
      modifies this`reopens
      ensures reopens == ExpireStale(old(reopens), now, only)
    {
      for i := 0 to |reopens|
        invariant |reopens| == |old(reopens)|
        invariant forall k :: 0 <= k < i ==> reopens[k] == ExpireStale(old(reopens), now, only)[k]
        invariant forall k :: i <= k < |reopens| ==> reopens[k] == old(reopens)[k]
      {
        if IsStale(reopens[i], now, only) {
          reopens := reopens[i := reopens[i].(status := Expired, decidedAt := Some(now))];
        }
      }
    }

    method ListReopenRequests(now: int, only: Option<set<nat>>) returns (rows: seq<ReopenRequest>)
      requires Inv(Tables())
      modifies this
      ensures Tables() == old(Tables()).(reopens := ExpireStale(old(reopens), now, only))
      ensures Inv(Tables())
      ensures forall r :: 0 <= r < |rows| && rows[r].status == Requested && (only.Some? ==> rows[r].close in only.value) ==> now < rows[r].expiresAt
    {
      hide Inv;
      ExpiryKeeps(Tables(), now, only);
      ExpireStaleReopenRequests(now, only);
      rows := reopens;
    }

    method RequestReopen(q: nat, reason: string, now: int, ctx: Context, business: nat) returns (o: Outcome)
      requires Inv(Tables())
      modifies this
      ensures (Tables(), o) == Spec.RequestReopen(old(Tables()), q, reason, now, ctx, business)
      ensures Inv(Tables())
    {
      hide Inv, ReopenReady, ExpireStale;
      RequestReopenKeeps(Tables(), q, reason, now, ctx, business);
      var stored := Replay(replies, ctx, 201, ReopenShape);
      if stored.Some? { return stored.value; }
      ExpireStaleReopenRequests(now, Some({q}));
      if q >= |closes| { return Refused(CloseRequestNotFound); }
      var close := closes[q];
      if close.status != Completed || close.successor.None? { return Refused(CloseRequestNotCompleted); }
      if Reopened(reopens, q) { return Refused(AlreadyReopened); }
      if HasRequestedReopen(reopens, q) { return Refused(ActiveReopenExists); }
      if !ReopenReady(Tables(), q, business) { return Refused(ReopenPreconditionsFailed); }
      var row := ReopenRequest(q, close.fiscalYear, close.successor.value, Requested, reason, ctx.actor, now, now + REOPEN_LIFETIME,
                               None, None, None, None, None, None, None);
      var view := ReopenView(|reopens|, row);
      reopens := reopens + [row];
      StoreReply(ctx, 201, view);
      o := Created(view);
    }

    /** Reverses the entry when the close has one. */
    method ReverseIfAny(x: Option<nat>) returns (r: Attempt)
      modifies this`entries
      ensures r.Entered? ==> PostReversal(old(entries), x) == Posted(entries, r.id)
      ensures r.Faulted? ==> PostReversal(old(entries), x) == Failed(r.fault)
    {
      r := Entered(None);
      if x.Some? && x.value < |entries| {
        r := CreateReversalEntry(x.value);
      }
    }

    method PostReversals(c: CloseRequest) returns (reg: Attempt, closing: Attempt, opening: Attempt)
      modifies this`entries
      ensures opening.Faulted? ==> Spec.PostReversals(old(entries), c) == NoClosure(opening.fault)
      ensures opening.Entered? && closing.Faulted? ==> Spec.PostReversals(old(entries), c) == NoClosure(closing.fault)
      ensures opening.Entered? && closing.Entered? && reg.Faulted? ==> Spec.PostReversals(old(entries), c) == NoClosure(reg.fault)
      ensures opening.Entered? && closing.Entered? && reg.Entered? ==>
                Spec.PostReversals(old(entries), c) == Closure(entries, reg.id, closing.id, opening.id)
    {
      reg, closing := Entered(None), Entered(None);
      opening := ReverseIfAny(c.opening);
      if opening.Faulted? { return; }
      closing := ReverseIfAny(c.closing);
      if closing.Faulted? { return; }
      reg := ReverseIfAny(c.regularization);
    }

    method ApproveReopen(r: nat, now: int, ctx: Context, business: nat) returns (o: Outcome)
      requires Inv(Tables())
      modifies this
      ensures (Tables(), o) == Spec.ApproveReopen(old(Tables()), r, now, ctx, business)
      ensures Inv(Tables())
    {
      hide Inv, ExpireStale, Spec.PostReversals;
      var saved := Tables();
      ExpiryKeeps(saved, now, None);
      var stored := Replay(replies, ctx, 200, ReopenShape);
      if stored.Some? { return stored.value; }
      ExpireStaleReopenRequests(now, None);
      if r >= |reopens| { return Refused(ReopenRequestNotFound); }
      var request := reopens[r];
      if request.status == Expired { return Refused(ReopenRequestExpired); }
      if request.status != Requested { return Refused(ReopenRequestNotPending); }
      if request.requestedBy == ctx.actor { return Refused(SelfApproval); }
      var q := request.close;
      if q >= |closes| || closes[q].status != Completed || closes[q].successor.None? { return Refused(CloseRequestNotCompleted); }
      if !ReopenReady(Tables(), q, business) { return Refused(ReopenPreconditionsFailed); }

      var c := closes[q];
      var reg, closing, opening := PostReversals(c);
      if reg.Faulted? || closing.Faulted? || opening.Faulted? {
        Rollback(saved);
        return Thrown(if opening.Faulted? then opening.fault else if closing.Faulted? then closing.fault else reg.fault);
      }
      var next := c.successor.value;
      years := years[next := years[next].(status := Reversed)];
      years := years[c.fiscalYear := years[c.fiscalYear].(status := Open, closedAt := None, closedBy := None)];
      ApproveReopenKeeps(saved, r, now, ctx, business);
      var row := request.(status := Completed, approvedBy := Some(ctx.actor), decidedAt := Some(now),
                          regularizationReversal := reg.id, closingReversal := closing.id, openingReversal := opening.id);
      var view := ReopenView(r, row);
      reopens := reopens[r := row];
      StoreReply(ctx, 200, view);
      o := Done(view);
    }

    method CancelReopen(r: nat, now: int, ctx: Context) returns (o: Outcome)
      requires Inv(Tables())
      modifies this
      ensures (Tables(), o) == Spec.CancelReopen(old(Tables()), r, now, ctx)
      ensures Inv(Tables())
    {
      hide Inv, ExpireStale;
      CancelReopenKeeps(Tables(), r, now, ctx);
      var stored := Replay(replies, ctx, 200, ReopenShape);
      if stored.Some? { return stored.value; }
      ExpireStaleReopenRequests(now, None);
      if r >= |reopens| { return Refused(ReopenRequestNotFound); }
      var request := reopens[r];
      if request.status == Expired { return Refused(ReopenRequestExpired); }
      if request.status != Requested || request.requestedBy != ctx.actor { return Refused(ReopenNotCancellable); }
      var row := request.(status := Cancelled, cancelledBy := Some(ctx.actor), decidedAt := Some(now));
      var view := ReopenView(r, row);
      reopens := reopens[r := row];
      StoreReply(ctx, 200, view);
      o := Done(view);
    }

    method RejectReopen(r: nat, now: int, ctx: Context) returns (o: Outcome)
      requires Inv(Tables())
      modifies this
      ensures (Tables(), o) == Spec.RejectReopen(old(Tables()), r, now, ctx)
      ensures Inv(Tables())
    {
      hide Inv, ExpireStale;
      RejectReopenKeeps(Tables(), r, now, ctx);
      var stored := Replay(replies, ctx, 200, ReopenShape);
      if stored.Some? { return stored.value; }
      ExpireStaleReopenRequests(now, None);
      if r >= |reopens| { return Refused(ReopenRequestNotFound); }
      var request := reopens[r];
      if request.status == Expired { return Refused(ReopenRequestExpired); }
      if request.status != Requested { return Refused(ReopenRequestNotPending); }
      if request.requestedBy == ctx.actor { return Refused(SelfRejection); }
      var row := request.(status := Rejected, rejectedBy := Some(ctx.actor), decidedAt := Some(now));
      var view := ReopenView(r, row);
      reopens := reopens[r := row];
      StoreReply(ctx, 200, view);
      o := Done(view);
    }

    // ---------- the journal's own writers ----------

    method CreateAccount(inYear: Option<nat>, supplier: Option<nat>, code: string, name: string, kind: string, level: int, postable: bool)
      returns (o: Outcome)
      requires Inv(Tables())
      modifies this
      ensures (Tables(), o) == Spec.CreateAccount(old(Tables()), inYear, supplier, code, name, kind, level, postable)
      ensures Inv(Tables())
    {
      hide Inv;
      CreateAccountKeeps(Tables(), inYear, supplier, code, name, kind, level, postable);
      if !DigitCode(code) { return Refused(InvalidInput); }
      if postable && |code| != 9 { return Refused(NotPostableCode); }
      var y := if inYear.Some? then inYear else LatestOpen(years);
      if y.None? || y.value >= |years| || years[y.value].status != Open { return Refused(FiscalYearNotOpen); }
      if CodeTaken(accounts, y.value, code) { return Refused(CodeAlreadyExists); }
      accounts := accounts + [Account(y.value, None, supplier, code, name, true, kind, level, postable)];
      o := Written;
    }

    method CreateManualEntry(date: int, lines: seq<Line>) returns (o: Outcome)
      requires Inv(Tables())
      modifies this
      ensures (Tables(), o) == Spec.ManualEntry(old(Tables()), date, lines)
      ensures Inv(Tables())
    {
      hide Inv;
      ManualEntryKeeps(Tables(), date, lines);
      if |lines| < 2 || !NonNegative(lines) { return Refused(InvalidInput); }
      if !HasSide(lines, true) || !HasSide(lines, false) || (exists i :: 0 <= i < |lines| && InvalidSide(lines[i]))
         || DebitTotal(lines) != CreditTotal(lines) { return Refused(NotBalanced); }
      var y := OpenYearAt(years, date);
      if y.None? || !ActivePostable(accounts, lines, y.value) { return Refused(AccountNotPostable); }
      var last := LastNumber(entries, y.value);
      var r := InsertEntry(Entry(y.value, YearOf(date), last + 1, date, Manual, None, DebitTotal(lines), CreditTotal(lines), lines));
      o := if r.Entered? then Written else Thrown(r.fault);
    }
  }

  lemma SuccessorIsThere(years: seq<FiscalYear>, y: nat, now: int, actor: nat)
    requires y < |years|
    ensures y < |YearsAfterClose(years, y, now, actor)| && SuccessorOf(years, y) < |YearsAfterClose(years, y, now, actor)|
  {
  }
}
