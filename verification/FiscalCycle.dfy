/**
 The fiscal-year cycle: closing a year into its successor, reopening it, and closing it again.
 Every command is one transaction, written as a function from a state to the next state and an
 outcome.  `Step` dispatches the commands and `Run` folds them.
 */
module FiscalCycle {
  import opened Ledger
  import opened Settlement

  // ---------- requests, replies, state ----------

  datatype RequestStatus = Requested | Completed | Cancelled | Rejected | Expired

  datatype CloseRequest = CloseRequest(
    fiscalYear: nat, status: RequestStatus, requestedBy: nat,
    approvedBy: Option<nat>, approvedAt: Option<int>, cancelledBy: Option<nat>, cancelledAt: Option<int>,
    successor: Option<nat>, regularization: Option<nat>, closing: Option<nat>, opening: Option<nat>)

  datatype ReopenRequest = ReopenRequest(
    close: nat, source: nat, successor: nat, status: RequestStatus, reason: string,
    requestedBy: nat, requestedAt: int, expiresAt: int,
    approvedBy: Option<nat>, cancelledBy: Option<nat>, rejectedBy: Option<nat>, decidedAt: Option<int>,
    regularizationReversal: Option<nat>, closingReversal: Option<nat>, openingReversal: Option<nat>)

  /** The body of a stored response; each kind parses under one response schema only. */
  datatype Response =
    | CloseView(closeId: nat, close: CloseRequest)
    | YearsView(closedId: nat, closed: FiscalYear, nextId: nat, next: FiscalYear)
    | ReopenView(reopenId: nat, reopen: ReopenRequest)
    | OtherView(tag: string, id: nat)

  datatype Reply = Reply(hash: string, status: int, body: Response)

  datatype State = State(
    years: seq<FiscalYear>, accounts: seq<Account>, entries: seq<Entry>,
    closes: seq<CloseRequest>, reopens: seq<ReopenRequest>, replies: map<string, Reply>)

  const EMPTY := State([], [], [], [], [], map[])

  /** Who calls, the idempotency key, and the hash of the request. */
  datatype Context = Context(actor: nat, key: string, hash: string)

  /** Counts that the close preflight takes from tables outside the ledger. */
  datatype OutsideJournal = OutsideJournal(
    draftInvoices: nat, invoicesWithoutEntry: nat, unresolvedVerifactu: nat, draftPurchases: nat,
    purchasesWithoutEntry: nat, pendingCustomerRefunds: nat, pendingSupplierRefunds: nat)

  datatype Refusal =
    | AlreadyInitialized | InvalidInput | IdempotencyKeyReused
    | FiscalYearNotFound | FiscalYearNotOpen | NextYearExists | ActiveCloseExists
    | CloseRequestNotFound | CloseRequestNotPending | CloseRequestNotCancellable | ClosePreconditionsFailed
    | CloseRequestNotCompleted | AlreadyReopened | ActiveReopenExists
    | ReopenRequestNotFound | ReopenRequestNotPending | ReopenRequestExpired | ReopenNotCancellable
    | SelfApproval | SelfRejection | ReopenPreconditionsFailed
    | NotBalanced | AccountNotPostable | NotPostableCode | CodeAlreadyExists | NotPermitted

  /** What makes a transaction throw, and so leaves no trace. */
  datatype Fault = MissingResultAccount | Unbalanced(origin: Origin) | CheckViolation

  datatype Outcome =
    | Created(response: Response)
    | Done(response: Response)
    | Written
    | Replayed(response: Response)
    | Refused(reason: Refusal)
    | Thrown(fault: Fault)

  // ---------- idempotency ----------

  datatype Shape = CloseShape | YearsShape | ReopenShape

  predicate Parses(body: Response, shape: Shape) {
    match shape
    case CloseShape => body.CloseView?
    case YearsShape => body.YearsView?
    case ReopenShape => body.ReopenView?
  }

  function Replay(replies: map<string, Reply>, ctx: Context, expected: int, shape: Shape): Option<Outcome> {
    if ctx.key !in replies then None
    else
      var stored := replies[ctx.key];
      if stored.hash != ctx.hash || stored.status != expected || !Parses(stored.body, shape)
      then Some(Refused(IdempotencyKeyReused))
      else Some(Replayed(stored.body))
  }

  // ---------- posting ----------

  datatype Posting = Posted(entries: seq<Entry>, id: Option<nat>) | Failed(fault: Fault)

  function NewEntry(entries: seq<Entry>, y: nat, year: int, date: int, origin: Origin, reverses: Option<nat>, lines: seq<Line>): Entry {
    NumberedEntry(entries, y, year, date, origin, reverses, DebitTotal(lines), CreditTotal(lines), lines)
  }

  function PostAutomatic(entries: seq<Entry>, y: nat, year: int, date: int, origin: Origin, lines: seq<Line>): Posting {
    if lines == [] then Posted(entries, None)
    else if DebitTotal(lines) != CreditTotal(lines) then Failed(Unbalanced(origin))
    else
      var e := NewEntry(entries, y, year, date, origin, None, lines);
      if TableAccepts(e) then Posted(entries + [e], Some(|entries|)) else Failed(CheckViolation)
  }

  function ReversalEntry(entries: seq<Entry>, original: Entry, x: nat): Entry {
    NumberedEntry(entries, original.fiscalYear, original.year, original.date, CloseReversal, Some(x),
                  original.totalCredit, original.totalDebit, Mirror(original.lines))
  }

  function PostReversal(entries: seq<Entry>, x: Option<nat>): Posting {
    if x.None? || x.value >= |entries| then Posted(entries, None)
    else
      var e := ReversalEntry(entries, entries[x.value], x.value);
      if TableAccepts(e) then Posted(entries + [e], Some(|entries|)) else Failed(CheckViolation)
  }

  // ---------- first year ----------

  datatype PlanAccount = PlanAccount(code: string, name: string, kind: string, postable: bool)

  predicate DigitCode(code: string) {
    1 <= |code| <= 9 && forall i :: 0 <= i < |code| ==> '0' <= code[i] <= '9'
  }

  /** What the chart of accounts of the installation guarantees. */
  predicate ValidPlan(plan: seq<PlanAccount>) {
    && (forall i :: 0 <= i < |plan| ==> DigitCode(plan[i].code) && (plan[i].postable ==> |plan[i].code| == 9))
    && (forall i, j :: 0 <= i < j < |plan| ==> plan[i].code != plan[j].code)
    && (exists i :: 0 <= i < |plan| && plan[i].code == RESULT_ACCOUNT && plan[i].postable)
  }

  function PlanRow(p: PlanAccount): Account {
    Account(0, None, None, p.code, p.name, true, p.kind, |p.code|, p.postable)
  }

  function Initialize(plan: seq<PlanAccount>, s: State, year: int): (State, Outcome) {
    if year < 2000 || year > 2100 then (s, Refused(InvalidInput))
    else if s.years != [] then (s, Refused(AlreadyInitialized))
    else
      (s.(years := [FiscalYear(year, Open, None, None, None)],
          accounts := seq(|plan|, i requires 0 <= i < |plan| => PlanRow(plan[i]))),
       Written)
  }

  // ---------- close preflight ----------

  predicate HasSide(lines: seq<Line>, debit: bool) {
    exists i :: 0 <= i < |lines| && (if debit then lines[i].debit > 0 else lines[i].credit > 0)
  }

  predicate EntryPassesPreflight(accounts: seq<Account>, e: Entry) {
    && e.totalDebit == e.totalCredit
    && e.totalDebit == DebitTotal(e.lines) && e.totalCredit == CreditTotal(e.lines)
    && |e.lines| >= 2 && HasSide(e.lines, true) && HasSide(e.lines, false)
    && AllOneSided(e.lines)
    && (forall i :: 0 <= i < |e.lines| ==>
          e.lines[i].account < |accounts| && accounts[e.lines[i].account].fiscalYear == e.fiscalYear)
  }

  predicate JournalPassesPreflight(s: State, y: nat) {
    forall i :: 0 <= i < |s.entries| && s.entries[i].fiscalYear == y ==> EntryPassesPreflight(s.accounts, s.entries[i])
  }

  predicate UnsupportedAtZero(s: State, y: nat) {
    forall a :: 0 <= a < |s.accounts| && s.accounts[a].fiscalYear == y && Unsupported(s.accounts[a]) ==> Balance(s.entries, a) == 0
  }

  predicate ResultAccountRequired(s: State, y: nat) {
    exists a :: 0 <= a < |s.accounts| && s.accounts[a].fiscalYear == y && CodeStarts(s.accounts[a], '6', '7') && Balance(s.entries, a) != 0
  }

  predicate HasResultAccount(accounts: seq<Account>, y: nat) {
    exists a :: 0 <= a < |accounts| && accounts[a].fiscalYear == y && accounts[a].code == RESULT_ACCOUNT && accounts[a].active && accounts[a].postable
  }

  predicate NothingOutside(o: OutsideJournal) {
    && o.draftInvoices == 0 && o.invoicesWithoutEntry == 0 && o.unresolvedVerifactu == 0 && o.draftPurchases == 0
    && o.purchasesWithoutEntry == 0 && o.pendingCustomerRefunds == 0 && o.pendingSupplierRefunds == 0
  }

  predicate CloseReady(s: State, y: nat, o: OutsideJournal) {
    && JournalPassesPreflight(s, y)
    && NothingOutside(o)
    && UnsupportedAtZero(s, y)
    && (ResultAccountRequired(s, y) ==> HasResultAccount(s.accounts, y))
  }

  // ---------- close requests ----------

  /** The row of the year with this number, if there is one. */
  function FindYear(years: seq<FiscalYear>, year: int): (r: Option<nat>)
    ensures r.Some? ==> r.value < |years| && years[r.value].year == year
    ensures r.None? ==> forall i :: 0 <= i < |years| ==> years[i].year != year
  {
    if years == [] then None
    else if years[|years| - 1].year == year then Some(|years| - 1)
    else FindYear(years[..|years| - 1], year)
  }

  /** The year after `y` exists and is not a reversed copy of `y`. */
  predicate NextYearTaken(years: seq<FiscalYear>, y: nat)
    requires y < |years|
  {
    var next := FindYear(years, years[y].year + 1);
    next.Some? && (years[next.value].status != Reversed || years[next.value].source != Some(y))
  }

  predicate HasRequestedClose(closes: seq<CloseRequest>, y: nat) {
    exists q :: 0 <= q < |closes| && closes[q].fiscalYear == y && closes[q].status == Requested
  }

  function RequestClose(s: State, y: nat, ctx: Context, outside: OutsideJournal): (State, Outcome) {
    var replay := Replay(s.replies, ctx, 201, CloseShape);
    if replay.Some? then (s, replay.value)
    else if y >= |s.years| then (s, Refused(FiscalYearNotFound))
    else if s.years[y].status != Open then (s, Refused(FiscalYearNotOpen))
    else if NextYearTaken(s.years, y) then (s, Refused(NextYearExists))
    else if HasRequestedClose(s.closes, y) then (s, Refused(ActiveCloseExists))
    else if !CloseReady(s, y, outside) then (s, Refused(ClosePreconditionsFailed))
    else
      var row := CloseRequest(y, Requested, ctx.actor, None, None, None, None, None, None, None, None);
      var view := CloseView(|s.closes|, row);
      (s.(closes := s.closes + [row], replies := s.replies[ctx.key := Reply(ctx.hash, 201, view)]), Created(view))
  }

  function CancelClose(s: State, q: nat, now: int, ctx: Context): (State, Outcome) {
    var replay := Replay(s.replies, ctx, 200, CloseShape);
    if replay.Some? then (s, replay.value)
    else if q >= |s.closes| then (s, Refused(CloseRequestNotFound))
    else if s.closes[q].status != Requested || s.closes[q].requestedBy != ctx.actor then (s, Refused(CloseRequestNotCancellable))
    else
      var row := s.closes[q].(status := Cancelled, cancelledBy := Some(ctx.actor), cancelledAt := Some(now));
      var view := CloseView(q, row);
      (s.(closes := s.closes[q := row], replies := s.replies[ctx.key := Reply(ctx.hash, 200, view)]), Done(view))
  }

  // ---------- approving a close ----------

  /** Settlement of groups 6 and 7, balanced by a line on the result account. */
  function RegularizationLines(s: State, y: nat): (r: Option<seq<Line>>) {
    var ids := YearAccounts(s.accounts, y);
    var lines := SettlementLines(ids, s.accounts, s.entries, y, Results);
    if lines == [] then Some([])
    else
      var result := FindCode(s.accounts, ids, RESULT_ACCOUNT);
      if result.None? || !s.accounts[result.value].postable then None
      else
        var total := DebitTotal(lines) - CreditTotal(lines);
        Some(lines + [ClosingLine(result.value, "Resultado del ejercicio", total)])
  }

  function PostRegularization(s: State, y: nat): Posting
    requires y < |s.years|
  {
    var lines := RegularizationLines(s, y);
    if lines.None? then Failed(MissingResultAccount)
    else PostAutomatic(s.entries, y, s.years[y].year, LastDay(s.years[y].year), Regularization, lines.value)
  }

  /** Copies, into year `next`, of the listed accounts that have no copy there yet. */
  function CopyAccounts(ids: seq<nat>, accounts: seq<Account>, next: nat, copied: map<nat, nat>): (r: seq<Account>)
    requires Known(ids, accounts)
  {
    if ids == [] then []
    else
      var before := CopyAccounts(ids[..|ids| - 1], accounts, next, copied);
      var a := ids[|ids| - 1];
      if a in copied then before
      else before + [accounts[a].(fiscalYear := next, source := Some(a))]
  }

  function SuccessorOf(years: seq<FiscalYear>, y: nat): nat
    requires y < |years|
  {
    var next := FindYear(years, years[y].year + 1);
    if next.Some? then next.value else |years|
  }

  /** A created successor gets a copy of every account; a revived one only of those it lacks. */
  function AccountsAfterClose(years: seq<FiscalYear>, accounts: seq<Account>, y: nat): seq<Account>
    requires y < |years|
  {
    var next := FindYear(years, years[y].year + 1);
    var copied := if next.Some? then CopyMap(accounts, next.value, |accounts|) else map[];
    accounts + CopyAccounts(YearAccounts(accounts, y), accounts, SuccessorOf(years, y), copied)
  }

  /** Source closed; successor revived when it exists, created otherwise. */
  function YearsAfterClose(years: seq<FiscalYear>, y: nat, now: int, actor: nat): seq<FiscalYear>
    requires y < |years|
  {
    var closed := years[y := years[y].(status := Closed, closedAt := Some(now), closedBy := Some(actor))];
    var next := FindYear(years, years[y].year + 1);
    if next.Some? then closed[next.value := closed[next.value].(status := Open)]
    else closed + [FiscalYear(years[y].year + 1, Open, Some(y), None, None)]
  }

  function ClosingEntryLines(s: State, y: nat, entries: seq<Entry>): seq<Line> {
    SettlementLines(YearAccounts(s.accounts, y), s.accounts, entries, y, Patrimonial)
  }

  /** The opening lines, taken from the balances that `entries` gives, over the accounts after copying. */
  function OpeningEntryLines(s: State, y: nat, entries: seq<Entry>): seq<Line>
    requires y < |s.years|
  {
    var accounts := AccountsAfterClose(s.years, s.accounts, y);
    OpeningLines(YearAccounts(s.accounts, y), s.accounts, entries, y, CopyMap(accounts, SuccessorOf(s.years, y), |accounts|))
  }

  /** The journal after a close and the three entries it posted, or what made it throw. */
  datatype Closure =
    | Closure(entries: seq<Entry>, regularization: Option<nat>, closing: Option<nat>, opening: Option<nat>)
    | NoClosure(fault: Fault)

  function PostClosure(s: State, y: nat): Closure
    requires y < |s.years|
  {
    var year := s.years[y].year;
    var next := SuccessorOf(s.years, y);
    var reg := PostRegularization(s, y);
    if reg.Failed? then NoClosure(reg.fault)
    else
      var closing := PostAutomatic(reg.entries, y, year, LastDay(year), Closing, ClosingEntryLines(s, y, reg.entries));
      if closing.Failed? then NoClosure(closing.fault)
      else
        var opening := PostAutomatic(closing.entries, next, year + 1, FirstDay(year + 1), Opening,
                                     OpeningEntryLines(s, y, reg.entries));
        if opening.Failed? then NoClosure(opening.fault)
        else Closure(opening.entries, reg.id, closing.id, opening.id)
  }

  function ApproveClose(s: State, q: nat, now: int, ctx: Context, outside: OutsideJournal): (State, Outcome) {
    var replay := Replay(s.replies, ctx, 200, YearsShape);
    if replay.Some? then (s, replay.value)
    else if q >= |s.closes| then (s, Refused(CloseRequestNotFound))
    else if s.closes[q].status != Requested then (s, Refused(CloseRequestNotPending))
    else if s.closes[q].requestedBy == ctx.actor then (s, Refused(SelfApproval))
    else
      var y := s.closes[q].fiscalYear;
      if y >= |s.years| then (s, Refused(FiscalYearNotFound))
      else if s.years[y].status != Open then (s, Refused(FiscalYearNotOpen))
      else if NextYearTaken(s.years, y) then (s, Refused(NextYearExists))
      else if !CloseReady(s, y, outside) then (s, Refused(ClosePreconditionsFailed))
      else
        var posted := PostClosure(s, y);
        if posted.NoClosure? then (s, Thrown(posted.fault))
        else
          var next := SuccessorOf(s.years, y);
          var years := YearsAfterClose(s.years, y, now, ctx.actor);
          var view := YearsView(y, years[y], next, years[next]);
          var row := s.closes[q].(
            status := Completed, approvedBy := Some(ctx.actor), approvedAt := Some(now), successor := Some(next),
            regularization := posted.regularization, closing := posted.closing, opening := posted.opening);
          (State(years, AccountsAfterClose(s.years, s.accounts, y), posted.entries, s.closes[q := row], s.reopens,
                 s.replies[ctx.key := Reply(ctx.hash, 200, view)]),
           Done(view))
  }

  // ---------- reopening ----------

  /** Seven days, in milliseconds. */
  const REOPEN_LIFETIME := 7 * 24 * 60 * 60 * 1000

  predicate IsStale(r: ReopenRequest, now: int, only: Option<set<nat>>) {
    r.status == Requested && r.expiresAt <= now && (only.Some? ==> r.close in only.value)
  }

  function ExpireStale(reopens: seq<ReopenRequest>, now: int, only: Option<set<nat>>): (r: seq<ReopenRequest>)
    ensures |r| == |reopens|
  {
    seq(|reopens|, i requires 0 <= i < |reopens| =>
      if IsStale(reopens[i], now, only) then reopens[i].(status := Expired, decidedAt := Some(now)) else reopens[i])
  }

  predicate Reopened(reopens: seq<ReopenRequest>, q: nat) {
    exists r :: 0 <= r < |reopens| && reopens[r].close == q && reopens[r].status == Completed
  }

  predicate HasRequestedReopen(reopens: seq<ReopenRequest>, q: nat) {
    exists r :: 0 <= r < |reopens| && reopens[r].close == q && reopens[r].status == Requested
  }

  predicate ValidAutomatic(entries: seq<Entry>, id: Option<nat>, origin: Origin, y: nat) {
    id.None? || (id.value < |entries| && entries[id.value].fiscalYear == y && entries[id.value].origin == origin
                 && !ReversedBy(entries, id.value))
  }

  /** Entry `i` is the opening, or the reversal of the opening, of a completed close of `y` into `next`. */
  predicate KnownCycleEntry(closes: seq<CloseRequest>, reopens: seq<ReopenRequest>, y: nat, next: nat, i: nat) {
    exists p :: 0 <= p < |closes| && closes[p].fiscalYear == y && closes[p].successor == Some(next) && closes[p].status == Completed
                && (closes[p].opening == Some(i) || ReversesOpeningOf(reopens, p, i))
  }

  predicate ReversesOpeningOf(reopens: seq<ReopenRequest>, p: nat, i: nat) {
    exists r :: 0 <= r < |reopens| && reopens[r].close == p && reopens[r].status == Completed && reopens[r].openingReversal == Some(i)
  }

  predicate NoForeignEntry(s: State, y: nat, next: nat) {
    forall i {:trigger KnownCycleEntry(s.closes, s.reopens, y, next, i)} ::
      0 <= i < |s.entries| && s.entries[i].fiscalYear == next ==> KnownCycleEntry(s.closes, s.reopens, y, next, i)
  }

  predicate HasCloseRequest(closes: seq<CloseRequest>, y: nat) {
    exists p :: 0 <= p < |closes| && closes[p].fiscalYear == y
  }

  predicate HasChildYear(years: seq<FiscalYear>, y: nat) {
    exists i :: 0 <= i < |years| && years[i].source == Some(y)
  }

  predicate AllLinked(accounts: seq<Account>, next: nat) {
    forall a :: 0 <= a < |accounts| && accounts[a].fiscalYear == next ==> accounts[a].source.Some?
  }

  predicate SamePlanRow(a: Account, b: Account) {
    a.code == b.code && a.name == b.name && a.active == b.active && a.kind == b.kind && a.level == b.level
    && a.postable == b.postable && a.supplier == b.supplier
  }

  /** Copy `a`, when its source is in year `y`, still agrees with its source. */
  predicate AgreesWithSource(accounts: seq<Account>, y: nat, a: nat)
    requires a < |accounts|
  {
    accounts[a].source.Some? && accounts[a].source.value < |accounts| && accounts[accounts[a].source.value].fiscalYear == y
    ==> SamePlanRow(accounts[a], accounts[accounts[a].source.value])
  }

  predicate PlansMatch(accounts: seq<Account>, y: nat, next: nat) {
    forall a {:trigger AgreesWithSource(accounts, y, a)} ::
      0 <= a < |accounts| && accounts[a].fiscalYear == next ==> AgreesWithSource(accounts, y, a)
  }

  predicate HasCopy(accounts: seq<Account>, next: nat, x: nat) {
    exists a :: 0 <= a < |accounts| && accounts[a].fiscalYear == next && accounts[a].source == Some(x)
  }

  predicate NoneMissing(accounts: seq<Account>, y: nat, next: nat) {
    forall x {:trigger HasCopy(accounts, next, x)} ::
      0 <= x < |accounts| && accounts[x].fiscalYear == y ==> HasCopy(accounts, next, x)
  }

  predicate ReopenReady(s: State, q: nat, business: nat)
    requires q < |s.closes|
  {
    var c := s.closes[q];
    && c.successor.Some? && c.successor.value < |s.years| && c.fiscalYear < |s.years|
    && var next := c.successor.value;
    && s.years[c.fiscalYear].status == Closed
    && s.years[next].status == Open
    && s.years[next].source == Some(c.fiscalYear)
    && s.years[next].year == s.years[c.fiscalYear].year + 1
    && ValidAutomatic(s.entries, c.regularization, Regularization, c.fiscalYear)
    && ValidAutomatic(s.entries, c.closing, Closing, c.fiscalYear)
    && ValidAutomatic(s.entries, c.opening, Opening, next)
    && !Reopened(s.reopens, q)
    && NoForeignEntry(s, c.fiscalYear, next)
    && !HasCloseRequest(s.closes, next)
    && !HasChildYear(s.years, next)
    && AllLinked(s.accounts, next)
    && PlansMatch(s.accounts, c.fiscalYear, next)
    && NoneMissing(s.accounts, c.fiscalYear, next)
    && business == 0
  }

  function RequestReopen(s: State, q: nat, reason: string, now: int, ctx: Context, business: nat): (State, Outcome) {
    var replay := Replay(s.replies, ctx, 201, ReopenShape);
    if replay.Some? then (s, replay.value)
    else
      var t := s.(reopens := ExpireStale(s.reopens, now, Some({q})));
      if q >= |t.closes| then (t, Refused(CloseRequestNotFound))
      else if t.closes[q].status != Completed || t.closes[q].successor.None? then (t, Refused(CloseRequestNotCompleted))
      else if Reopened(t.reopens, q) then (t, Refused(AlreadyReopened))
      else if HasRequestedReopen(t.reopens, q) then (t, Refused(ActiveReopenExists))
      else if !ReopenReady(t, q, business) then (t, Refused(ReopenPreconditionsFailed))
      else
        var row := ReopenRequest(
          q, t.closes[q].fiscalYear, t.closes[q].successor.value, Requested, reason, ctx.actor, now, now + REOPEN_LIFETIME,
          None, None, None, None, None, None, None);
        var view := ReopenView(|t.reopens|, row);
        (t.(reopens := t.reopens + [row], replies := t.replies[ctx.key := Reply(ctx.hash, 201, view)]), Created(view))
  }

  /** The journal after the three reversals: opening first, then closing, then regularization. */
  function PostReversals(entries: seq<Entry>, c: CloseRequest): Closure {
    var opening := PostReversal(entries, c.opening);
    if opening.Failed? then NoClosure(opening.fault)
    else
      var closing := PostReversal(opening.entries, c.closing);
      if closing.Failed? then NoClosure(closing.fault)
      else
        var reg := PostReversal(closing.entries, c.regularization);
        if reg.Failed? then NoClosure(reg.fault)
        else Closure(reg.entries, reg.id, closing.id, opening.id)
  }

  function YearsAfterReopen(years: seq<FiscalYear>, y: nat, next: nat): seq<FiscalYear>
    requires y < |years| && next < |years|
  {
    var reversed := years[next := years[next].(status := Reversed)];
    reversed[y := reversed[y].(status := Open, closedAt := None, closedBy := None)]
  }

  function ApproveReopen(s: State, r: nat, now: int, ctx: Context, business: nat): (State, Outcome) {
    var replay := Replay(s.replies, ctx, 200, ReopenShape);
    if replay.Some? then (s, replay.value)
    else
      var t := s.(reopens := ExpireStale(s.reopens, now, None));
      if r >= |t.reopens| then (t, Refused(ReopenRequestNotFound))
      else if t.reopens[r].status == Expired then (t, Refused(ReopenRequestExpired))
      else if t.reopens[r].status != Requested then (t, Refused(ReopenRequestNotPending))
      else if t.reopens[r].requestedBy == ctx.actor then (t, Refused(SelfApproval))
      else
        var q := t.reopens[r].close;
        if q >= |t.closes| || t.closes[q].status != Completed || t.closes[q].successor.None? then (t, Refused(CloseRequestNotCompleted))
        else if !ReopenReady(t, q, business) then (t, Refused(ReopenPreconditionsFailed))
        else
          var c := t.closes[q];
          var posted := PostReversals(t.entries, c);
          if posted.NoClosure? then (s, Thrown(posted.fault))
          else
            var row := t.reopens[r].(
              status := Completed, approvedBy := Some(ctx.actor), decidedAt := Some(now),
              regularizationReversal := posted.regularization, closingReversal := posted.closing, openingReversal := posted.opening);
            var view := ReopenView(r, row);
            (t.(years := YearsAfterReopen(t.years, c.fiscalYear, c.successor.value), entries := posted.entries,
                reopens := t.reopens[r := row], replies := t.replies[ctx.key := Reply(ctx.hash, 200, view)]),
             Done(view))
  }

  function CancelReopen(s: State, r: nat, now: int, ctx: Context): (State, Outcome) {
    var replay := Replay(s.replies, ctx, 200, ReopenShape);
    if replay.Some? then (s, replay.value)
    else
      var t := s.(reopens := ExpireStale(s.reopens, now, None));
      if r >= |t.reopens| then (t, Refused(ReopenRequestNotFound))
      else if t.reopens[r].status == Expired then (t, Refused(ReopenRequestExpired))
      else if t.reopens[r].status != Requested || t.reopens[r].requestedBy != ctx.actor then (t, Refused(ReopenNotCancellable))
      else Decide(t, r, t.reopens[r].(status := Cancelled, cancelledBy := Some(ctx.actor), decidedAt := Some(now)), ctx)
  }

  function RejectReopen(s: State, r: nat, now: int, ctx: Context): (State, Outcome) {
    var replay := Replay(s.replies, ctx, 200, ReopenShape);
    if replay.Some? then (s, replay.value)
    else
      var t := s.(reopens := ExpireStale(s.reopens, now, None));
      if r >= |t.reopens| then (t, Refused(ReopenRequestNotFound))
      else if t.reopens[r].status == Expired then (t, Refused(ReopenRequestExpired))
      else if t.reopens[r].status != Requested then (t, Refused(ReopenRequestNotPending))
      else if t.reopens[r].requestedBy == ctx.actor then (t, Refused(SelfRejection))
      else Decide(t, r, t.reopens[r].(status := Rejected, rejectedBy := Some(ctx.actor), decidedAt := Some(now)), ctx)
  }

  function Decide(t: State, r: nat, row: ReopenRequest, ctx: Context): (State, Outcome)
    requires r < |t.reopens|
  {
    var view := ReopenView(r, row);
    (t.(reopens := t.reopens[r := row], replies := t.replies[ctx.key := Reply(ctx.hash, 200, view)]), Done(view))
  }

  // ---------- the other writers of the ledger ----------

  function LatestOpen(years: seq<FiscalYear>): Option<nat> {
    if years == [] then None
    else if years[|years| - 1].status == Open then Some(|years| - 1)
    else LatestOpen(years[..|years| - 1])
  }

  predicate CodeTaken(accounts: seq<Account>, y: nat, code: string) {
    exists a :: 0 <= a < |accounts| && accounts[a].fiscalYear == y && accounts[a].code == code
  }

  function CreateAccount(s: State, fiscalYear: Option<nat>, supplier: Option<nat>, code: string, name: string, kind: string,
                         level: int, postable: bool): (State, Outcome) {
    if !DigitCode(code) then (s, Refused(InvalidInput))
    else if postable && |code| != 9 then (s, Refused(NotPostableCode))
    else
      var y := if fiscalYear.Some? then fiscalYear else LatestOpen(s.years);
      if y.None? || y.value >= |s.years| || s.years[y.value].status != Open then (s, Refused(FiscalYearNotOpen))
      else if CodeTaken(s.accounts, y.value, code) then (s, Refused(CodeAlreadyExists))
      else (s.(accounts := s.accounts + [Account(y.value, None, supplier, code, name, true, kind, level, postable)]), Written)
  }

  predicate NonNegative(lines: seq<Line>) {
    forall i :: 0 <= i < |lines| ==> lines[i].debit >= 0 && lines[i].credit >= 0
  }

  predicate ActivePostable(accounts: seq<Account>, lines: seq<Line>, y: nat) {
    LinesInYear(accounts, lines, y) && forall i :: 0 <= i < |lines| ==> accounts[lines[i].account].active
  }

  predicate InvalidSide(l: Line) {
    l.debit == l.credit || (l.debit > 0 && l.credit > 0)
  }

  /** The open year that contains the date. */
  function OpenYearAt(years: seq<FiscalYear>, date: int): Option<nat> {
    var y := FindYear(years, YearOf(date));
    if y.Some? && years[y.value].status == Open && FirstDay(YearOf(date)) <= date <= LastDay(YearOf(date)) then y else None
  }

  function ManualEntry(s: State, date: int, lines: seq<Line>): (State, Outcome) {
    if |lines| < 2 || !NonNegative(lines) then (s, Refused(InvalidInput))
    else if !HasSide(lines, true) || !HasSide(lines, false) || (exists i :: 0 <= i < |lines| && InvalidSide(lines[i]))
            || DebitTotal(lines) != CreditTotal(lines) then (s, Refused(NotBalanced))
    else
      var y := OpenYearAt(s.years, date);
      if y.None? || !ActivePostable(s.accounts, lines, y.value) then (s, Refused(AccountNotPostable))
      else Insert(s, NewEntry(s.entries, y.value, YearOf(date), date, Manual, None, lines))
  }

  function Insert(s: State, e: Entry): (State, Outcome) {
    if TableAccepts(e) then (s.(entries := s.entries + [e]), Written) else (s, Thrown(CheckViolation))
  }

  predicate IsAutomatic(o: Origin) {
    o.Regularization? || o.Closing? || o.Opening? || o.CloseReversal?
  }

  /** What every writer outside the cycle respects: an open year, postable accounts of that year,
      and no reversal of an entry of the cycle or of an entry already reversed. */
  predicate MayPost(s: State, date: int, origin: Origin, reverses: Option<nat>, lines: seq<Line>) {
    var y := OpenYearAt(s.years, date);
    && y.Some?
    && !IsAutomatic(origin)
    && LinesInYear(s.accounts, lines, y.value)
    && (reverses.Some? ==> reverses.value < |s.entries| && !IsAutomatic(s.entries[reverses.value].origin)
                           && !ReversedBy(s.entries, reverses.value))
  }

  function Post(s: State, date: int, origin: Origin, reverses: Option<nat>, lines: seq<Line>): (State, Outcome) {
    if !MayPost(s, date, origin, reverses, lines) then (s, Refused(NotPermitted))
    else Insert(s, NewEntry(s.entries, OpenYearAt(s.years, date).value, YearOf(date), date, origin, reverses, lines))
  }

  /** Renaming a supplier renames its accounts in the open years. */
  function RenameSupplier(s: State, supplier: nat, name: string): (State, Outcome) {
    (s.(accounts := seq(|s.accounts|, i requires 0 <= i < |s.accounts| =>
          var a := s.accounts[i];
          if a.supplier == Some(supplier) && a.fiscalYear < |s.years| && s.years[a.fiscalYear].status == Open
          then a.(name := name) else a)),
     Written)
  }

  // ---------- commands and runs ----------

  datatype Command =
    | CmdInitialize(year: int)
    | CmdRequestClose(fiscalYear: nat, ctx: Context, outside: OutsideJournal)
    | CmdCancelClose(request: nat, now: int, ctx: Context)
    | CmdApproveClose(request: nat, now: int, ctx: Context, outside: OutsideJournal)
    | CmdRequestReopen(close: nat, reason: string, now: int, ctx: Context, business: nat)
    | CmdApproveReopen(request: nat, now: int, ctx: Context, business: nat)
    | CmdCancelReopen(request: nat, now: int, ctx: Context)
    | CmdRejectReopen(request: nat, now: int, ctx: Context)
    | CmdListReopen(only: Option<set<nat>>, now: int)
    | CmdCreateAccount(inYear: Option<nat>, supplier: Option<nat>, code: string, name: string, kind: string, level: int, postable: bool)
    | CmdManualEntry(date: int, lines: seq<Line>)
    | CmdPost(date: int, origin: Origin, reverses: Option<nat>, lines: seq<Line>)
    | CmdRenameSupplier(party: nat, name: string)

  function Step(plan: seq<PlanAccount>, s: State, c: Command): (State, Outcome) {
    match c
    case CmdInitialize(year) => Initialize(plan, s, year)
    case CmdRequestClose(y, ctx, outside) => RequestClose(s, y, ctx, outside)
    case CmdCancelClose(q, now, ctx) => CancelClose(s, q, now, ctx)
    case CmdApproveClose(q, now, ctx, outside) => ApproveClose(s, q, now, ctx, outside)
    case CmdRequestReopen(q, reason, now, ctx, business) => RequestReopen(s, q, reason, now, ctx, business)
    case CmdApproveReopen(r, now, ctx, business) => ApproveReopen(s, r, now, ctx, business)
    case CmdCancelReopen(r, now, ctx) => CancelReopen(s, r, now, ctx)
    case CmdRejectReopen(r, now, ctx) => RejectReopen(s, r, now, ctx)
    case CmdListReopen(only, now) => (s.(reopens := ExpireStale(s.reopens, now, only)), Written)
    case CmdCreateAccount(y, supplier, code, name, kind, level, postable) =>
      CreateAccount(s, y, supplier, code, name, kind, level, postable)
    case CmdManualEntry(date, lines) => ManualEntry(s, date, lines)
    case CmdPost(date, origin, reverses, lines) => Post(s, date, origin, reverses, lines)
    case CmdRenameSupplier(supplier, name) => RenameSupplier(s, supplier, name)
  }

  function Run(plan: seq<PlanAccount>, s: State, commands: seq<Command>): State
    decreases |commands|
  {
    if commands == [] then s
    else Run(plan, Step(plan, s, commands[0]).0, commands[1..])
  }
}
