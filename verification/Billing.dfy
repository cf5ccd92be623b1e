/**
 Invoices: drafting, issuing, rectifying and technically voiding them, each as a function from an
 office (ledger, invoices, number counters) to the next office and a verdict.
 */
module Billing {
  import opened Ledger
  import opened FiscalCycle
  import opened Calculations

  datatype DocumentType = Standard | Rectification

  datatype InvoiceOrigin = ByHand | Subscription

  datatype InvoiceStatus = Draft | Issued | Rectified | Voided

  datatype PaymentStatus = Pending | PartiallyPaid | Paid | PartiallySettled | Settled | NotApplicable | Unpaid | PaymentCancelled

  datatype VerifactuStatus = NotSent | Preparing | Sent | Accepted | AcceptedWithErrors | VerifactuRejected | VerifactuCancelled

  datatype DueStatus = DuePending | DuePaid | DueCancelled | DueOther

  /** `payments` are the amounts of its payments, each net of what was returned of it. */
  datatype DueDate = DueDate(date: int, amount: int, status: DueStatus, payments: seq<int>, hasReturn: bool, activeRemittance: bool, everRemitted: bool)

  datatype InvoiceLine = InvoiceLine(product: bool, calculated: CalculatedLine)

  datatype Invoice = Invoice(
    documentType: DocumentType, origin: InvoiceOrigin, status: InvoiceStatus, payment: PaymentStatus, verifactu: VerifactuStatus,
    series: string, number: Option<nat>, customerCode: string, issueDate: int,
    lines: seq<InvoiceLine>, totals: Totals, dueDates: seq<DueDate>, rectifies: Option<nat>)

  datatype NumberKey = NumberKey(series: string, year: int)

  datatype Office = Office(ledger: State, invoices: seq<Invoice>, counters: map<NumberKey, nat>)

  const NO_OFFICE := Office(EMPTY, [], map[])

  datatype Obstacle =
    | BadInput | InvoiceNotFound | NotEditable | NotIssuable | NoLines | DueDatesMismatch | DueDateBeforeIssue | OutOfOrder
    | YearNotOpen | AccountNotAvailable | EntryUnbalanced | VerifactuUnavailable
    | NotRectifiable | AlreadyRectified | FinancialActivity
    | AlreadyFinalized | VoidingNotAllowed | HasRectification | EvidenceInvalid | DueDateState | AccountingInvalid | Conflict | NotHere

  datatype Verdict = Performed | Blocked(obstacle: Obstacle) | Aborted(fault: Fault)

  // ---------- lines and totals of an invoice ----------

  function Calculated(lines: seq<InvoiceLine>): (r: seq<CalculatedLine>)
    ensures |r| == |lines|
  {
    seq(|lines|, i requires 0 <= i < |lines| => lines[i].calculated)
  }

  /** The summed base of the product lines, or of all the other lines. */
  function BaseOf(lines: seq<InvoiceLine>, product: bool): int {
    if lines == [] then 0
    else
      var last := lines[|lines| - 1];
      BaseOf(lines[..|lines| - 1], product) + if last.product == product then last.calculated.amounts.taxed.base else 0
  }

  function DueTotal(dues: seq<DueDate>): int {
    if dues == [] then 0 else DueTotal(dues[..|dues| - 1]) + dues[|dues| - 1].amount
  }

  /** Check `invoices_amounts_supported_chk` on an ordinary invoice. */
  predicate AmountsSupported(t: Totals) {
    t.subtotal >= 0 && t.discount >= 0 && t.taxed.base >= 0 && t.taxed.tax >= 0 && t.taxed.total >= 0
  }

  /** Totals recomputed from the lines; a single due date follows the total. */
  function Recalculate(inv: Invoice): Invoice {
    var totals := CalculateTotals(Calculated(inv.lines));
    var dues := if |inv.dueDates| == 1 then [inv.dueDates[0].(amount := totals.taxed.total)] else inv.dueDates;
    inv.(totals := totals, dueDates := dues)
  }

  function Negated(t: Totals): Totals {
    Totals(-t.subtotal, -t.discount, Taxed(-t.taxed.base, -t.taxed.tax, -t.taxed.total))
  }

  function NegatedLine(l: InvoiceLine): InvoiceLine {
    var a := l.calculated.amounts;
    l.(calculated := l.calculated.(amounts := LineAmounts(-a.subtotal, -a.discount, Taxed(-a.taxed.base, -a.taxed.tax, -a.taxed.total))))
  }

  // ---------- accounts ----------

  const PRODUCT_SALES := "700000000"
  const SERVICE_SALES := "705000000"
  const OUTPUT_TAX := "477000000"

  predicate ValidCode(code: string) {
    1 <= |code| <= 6 && forall i :: 0 <= i < |code| ==> '0' <= code[i] <= '9'
  }

  function PadStart(code: string, n: nat): (r: string)
    ensures |code| <= n ==> |r| == n
    decreases n - |code|
  {
    if |code| >= n then code else PadStart("0" + code, n)
  }

  function CustomerAccount(code: string): string {
    "430" + PadStart(code, 6)
  }

  predicate Postable(accounts: seq<Account>, a: nat, y: nat, code: string)
    requires a < |accounts|
  {
    accounts[a].fiscalYear == y && accounts[a].code == code && accounts[a].active && accounts[a].postable
  }

  function AccountFor(accounts: seq<Account>, y: nat, code: string): (r: Option<nat>)
    ensures r.Some? ==> r.value < |accounts| && Postable(accounts, r.value, y, code)
    ensures r.None? ==> forall a :: 0 <= a < |accounts| ==> !Postable(accounts, a, y, code)
  {
    if accounts == [] then None
    else
      var n := |accounts| - 1;
      if Postable(accounts, n, y, code) then Some(n)
      else
        var r := AccountFor(accounts[..n], y, code);
        assert r.None? ==> forall a :: 0 <= a < n ==> Postable(accounts[..n], a, y, code) == Postable(accounts, a, y, code);
        r
  }

  /** An active postable account for the customer and for every amount that is not zero. */
  predicate AccountsAvailable(accounts: seq<Account>, y: nat, inv: Invoice) {
    && AccountFor(accounts, y, CustomerAccount(inv.customerCode)).Some?
    && (BaseOf(inv.lines, true) != 0 ==> AccountFor(accounts, y, PRODUCT_SALES).Some?)
    && (BaseOf(inv.lines, false) != 0 ==> AccountFor(accounts, y, SERVICE_SALES).Some?)
    && (inv.totals.taxed.tax != 0 ==> AccountFor(accounts, y, OUTPUT_TAX).Some?)
  }

  function AmountLine(accounts: seq<Account>, y: nat, code: string, amount: int, debit: bool): seq<Line> {
    var a := AccountFor(accounts, y, code);
    if amount == 0 || a.None? then []
    else [Line(a.value, "", if debit then amount else 0, if debit then 0 else amount)]
  }

  /** Sales and tax, on the credit side when issuing and on the debit side when rectifying. */
  function SalesLines(accounts: seq<Account>, y: nat, inv: Invoice, debit: bool): seq<Line> {
    AmountLine(accounts, y, PRODUCT_SALES, BaseOf(inv.lines, true), debit)
    + AmountLine(accounts, y, SERVICE_SALES, BaseOf(inv.lines, false), debit)
    + AmountLine(accounts, y, OUTPUT_TAX, inv.totals.taxed.tax, debit)
  }

  function IssueLines(accounts: seq<Account>, y: nat, inv: Invoice): seq<Line>
    requires AccountsAvailable(accounts, y, inv)
  {
    [Line(AccountFor(accounts, y, CustomerAccount(inv.customerCode)).value, "", inv.totals.taxed.total, 0)]
    + SalesLines(accounts, y, inv, false)
  }

  function RectifyLines(accounts: seq<Account>, y: nat, inv: Invoice): seq<Line>
    requires AccountsAvailable(accounts, y, inv)
  {
    SalesLines(accounts, y, inv, true)
    + [Line(AccountFor(accounts, y, CustomerAccount(inv.customerCode)).value, "", 0, inv.totals.taxed.total)]
  }

  function LedgerTotal(inv: Invoice): int {
    BaseOf(inv.lines, true) + BaseOf(inv.lines, false) + inv.totals.taxed.tax
  }

  // ---------- numbering ----------

  function NextNumber(counters: map<NumberKey, nat>, key: NumberKey): nat {
    if key in counters then counters[key] else 1
  }

  /** A later date already stands in the series. */
  predicate ChronologyViolation(invoices: seq<Invoice>, series: string, date: int) {
    exists i :: 0 <= i < |invoices| && invoices[i].series == series && invoices[i].status != Draft && date < invoices[i].issueDate
  }

  // ---------- drafts ----------

  function NewDraft(origin: InvoiceOrigin, customerCode: string, issueDate: int, lines: seq<InvoiceLine>, totals: Totals, dueDate: int): Invoice {
    Invoice(Standard, origin, Draft, Pending, NotSent, "F", None, customerCode, issueDate, lines, totals,
            [DueDate(dueDate, totals.taxed.total, DuePending, [], false, false, false)], None)
  }

  function CreateDraft(o: Office, customerCode: string, issueDate: int, dueDate: int): (Office, Verdict) {
    if OpenYearAt(o.ledger.years, issueDate).None? then (o, Blocked(YearNotOpen))
    else (o.(invoices := o.invoices + [NewDraft(ByHand, customerCode, issueDate, [], CalculateTotals([]), dueDate)]), Performed)
  }

  datatype DraftLine = DraftLine(product: bool, code: string, input: LineInput)

  function MakeLine(l: DraftLine): InvoiceLine {
    InvoiceLine(l.product, CalculatedLine(TaxKey(l.code, l.input.taxRate), CalculateLine(l.input)))
  }

  function MakeLines(lines: seq<DraftLine>): (r: seq<InvoiceLine>)
    ensures |r| == |lines|
  {
    seq(|lines|, i requires 0 <= i < |lines| => MakeLine(lines[i]))
  }

  predicate ValidLines(lines: seq<DraftLine>) {
    forall i :: 0 <= i < |lines| ==> ValidInput(lines[i].input)
  }

  /** The draft of a subscription renewal comes with all its lines. */
  function CreateSubscriptionDraft(o: Office, customerCode: string, issueDate: int, lines: seq<DraftLine>, dueDate: int): (Office, Verdict) {
    if !ValidLines(lines) then (o, Blocked(BadInput))
    else if OpenYearAt(o.ledger.years, issueDate).None? then (o, Blocked(YearNotOpen))
    else
      var made := MakeLines(lines);
      var totals := CalculateTotals(Calculated(made));
      if !AmountsSupported(totals) then (o, Aborted(CheckViolation))
      else (o.(invoices := o.invoices + [NewDraft(Subscription, customerCode, issueDate, made, totals, dueDate)]), Performed)
  }

  function AddLine(o: Office, i: nat, line: DraftLine): (Office, Verdict) {
    if !ValidInput(line.input) then (o, Blocked(BadInput))
    else if i >= |o.invoices| then (o, Blocked(InvoiceNotFound))
    else
      var inv := o.invoices[i];
      if inv.status != Draft || inv.origin == Subscription then (o, Blocked(NotEditable))
      else
        var next := Recalculate(inv.(lines := inv.lines + [MakeLine(line)]));
        if !AmountsSupported(next.totals) then (o, Aborted(CheckViolation))
        else (o.(invoices := o.invoices[i := next]), Performed)
  }

  datatype Due = Due(date: int, amount: int)

  function MakeDues(dues: seq<Due>): (r: seq<DueDate>)
    ensures |r| == |dues|
  {
    seq(|dues|, i requires 0 <= i < |dues| => DueDate(dues[i].date, dues[i].amount, DuePending, [], false, false, false))
  }

  function ReplaceDueDates(o: Office, i: nat, dues: seq<Due>): (Office, Verdict) {
    if !(1 <= |dues| <= 24) || (exists k :: 0 <= k < |dues| && dues[k].amount <= 0) then (o, Blocked(BadInput))
    else if i >= |o.invoices| then (o, Blocked(InvoiceNotFound))
    else
      var inv := o.invoices[i];
      if inv.status != Draft || inv.documentType != Standard || inv.origin == Subscription then (o, Blocked(NotEditable))
      else if DueTotal(MakeDues(dues)) != inv.totals.taxed.total then (o, Blocked(DueDatesMismatch))
      else if exists k :: 0 <= k < |dues| && dues[k].date < inv.issueDate then (o, Blocked(DueDateBeforeIssue))
      else (o.(invoices := o.invoices[i := inv.(dueDates := MakeDues(dues))]), Performed)
  }

  // ---------- issuing ----------

  /** What stands in the way of issuing, up to the reservation of the number. */
  function IssueObstacle(o: Office, i: nat, origin: InvoiceOrigin, date: int): Option<Obstacle> {
    if i >= |o.invoices| then Some(InvoiceNotFound)
    else
      var inv := o.invoices[i];
      if inv.status != Draft || inv.origin != origin then Some(NotIssuable)
      else if inv.lines == [] then Some(NoLines)
      else if inv.dueDates == [] || DueTotal(inv.dueDates) != inv.totals.taxed.total then Some(DueDatesMismatch)
      else if exists k :: 0 <= k < |inv.dueDates| && inv.dueDates[k].date < date then Some(DueDateBeforeIssue)
      else if ChronologyViolation(o.invoices, inv.series, date) then Some(OutOfOrder)
      else PostingObstacle(o.ledger, inv, date)
  }

  /** What stands in the way of posting the entry of an invoice. */
  function PostingObstacle(ledger: State, inv: Invoice, date: int): Option<Obstacle> {
    var y := OpenYearAt(ledger.years, date);
    if y.None? then Some(YearNotOpen)
    else if !ValidCode(inv.customerCode) || !AccountsAvailable(ledger.accounts, y.value, inv) then Some(AccountNotAvailable)
    else if inv.totals.taxed.total != LedgerTotal(inv) then Some(EntryUnbalanced)
    else None
  }

  function Issue(o: Office, i: nat, origin: InvoiceOrigin, date: int, verifactu: bool, prepared: bool): (Office, Verdict) {
    var obstacle := IssueObstacle(o, i, origin, date);
    if obstacle.Some? then (o, Blocked(obstacle.value))
    else
      var inv := o.invoices[i];
      var y := OpenYearAt(o.ledger.years, date).value;
      var key := NumberKey(inv.series, YearOf(date));
      var n := NextNumber(o.counters, key);
      var e := NumberedEntry(o.ledger.entries, y, YearOf(date), date, InvoiceEntry(i), None, inv.totals.taxed.total, LedgerTotal(inv), IssueLines(o.ledger.accounts, y, inv));
      if !TableAccepts(e) then (o, Aborted(CheckViolation))
      else if verifactu && !prepared then (o, Blocked(VerifactuUnavailable))
      else
        var issued := inv.(status := Issued, verifactu := if verifactu then Preparing else NotSent, number := Some(n), issueDate := date);
        (Office(o.ledger.(entries := o.ledger.entries + [e]), o.invoices[i := issued], o.counters[key := n + 1]), Performed)
  }

  // ---------- rectifying ----------

  predicate IsRectified(invoices: seq<Invoice>, i: nat) {
    exists r :: 0 <= r < |invoices| && invoices[r].rectifies == Some(i)
  }

  predicate CleanUnpaid(inv: Invoice) {
    inv.payment == Pending && forall k :: 0 <= k < |inv.dueDates| ==>
      inv.dueDates[k].status == DuePending && inv.dueDates[k].payments == [] && !inv.dueDates[k].hasReturn && !inv.dueDates[k].activeRemittance
  }

  function NetPaid(dues: seq<DueDate>): int {
    if dues == [] then 0 else NetPaid(dues[..|dues| - 1]) + Sum(dues[|dues| - 1].payments)
  }

  predicate CleanPaid(inv: Invoice) {
    && inv.payment == Paid
    && (forall k :: 0 <= k < |inv.dueDates| ==>
          inv.dueDates[k].status == DuePaid && !inv.dueDates[k].hasReturn && !inv.dueDates[k].activeRemittance)
    && NetPaid(inv.dueDates) == inv.totals.taxed.total
  }

  /** `evidence` says that the fiscal record of the original is accepted, processed and of this issuer. */
  predicate VerifactuAllows(inv: Invoice, verifactu: bool, evidence: bool) {
    if verifactu then (inv.verifactu == Accepted || inv.verifactu == AcceptedWithErrors) && evidence
    else inv.verifactu == NotSent
  }

  function RectifyObstacle(o: Office, i: nat, date: int, verifactu: bool, evidence: bool): Option<Obstacle> {
    if i >= |o.invoices| then Some(InvoiceNotFound)
    else
      var inv := o.invoices[i];
      if inv.documentType != Standard || inv.status != Issued then Some(NotRectifiable)
      else if IsRectified(o.invoices, i) then Some(AlreadyRectified)
      else if !CleanUnpaid(inv) && !CleanPaid(inv) then Some(FinancialActivity)
      else if !VerifactuAllows(inv, verifactu, evidence) then Some(VerifactuUnavailable)
      else if ChronologyViolation(o.invoices, "R", date) then Some(OutOfOrder)
      else PostingObstacle(o.ledger, inv, date)
  }

  function CancelPending(dues: seq<DueDate>): (r: seq<DueDate>)
    ensures |r| == |dues|
  {
    seq(|dues|, k requires 0 <= k < |dues| => if dues[k].status == DuePending then dues[k].(status := DueCancelled) else dues[k])
  }

  function RectificationOf(i: nat, inv: Invoice, date: int, verifactu: bool, n: nat): Invoice {
    Invoice(Rectification, ByHand, Issued, NotApplicable, if verifactu then Preparing else NotSent, "R", Some(n), inv.customerCode, date,
            seq(|inv.lines|, k requires 0 <= k < |inv.lines| => NegatedLine(inv.lines[k])), Negated(inv.totals), [], Some(i))
  }

  function AfterRectification(inv: Invoice): Invoice {
    if CleanUnpaid(inv) then inv.(status := Rectified, payment := PaymentCancelled, dueDates := CancelPending(inv.dueDates))
    else inv.(status := Rectified, payment := Paid)
  }

  function Rectify(o: Office, i: nat, date: int, verifactu: bool, evidence: bool, prepared: bool): (Office, Verdict) {
    var obstacle := RectifyObstacle(o, i, date, verifactu, evidence);
    if obstacle.Some? then (o, Blocked(obstacle.value))
    else
      var inv := o.invoices[i];
      var y := OpenYearAt(o.ledger.years, date).value;
      var key := NumberKey("R", YearOf(date));
      var n := NextNumber(o.counters, key);
      var r := |o.invoices|;
      var e := NumberedEntry(o.ledger.entries, y, YearOf(date), date, InvoiceEntry(r), None, LedgerTotal(inv), inv.totals.taxed.total, RectifyLines(o.ledger.accounts, y, inv));
      if !TableAccepts(e) then (o, Aborted(CheckViolation))
      else if verifactu && !prepared then (o, Blocked(VerifactuUnavailable))
      else
        (Office(o.ledger.(entries := o.ledger.entries + [e]),
                o.invoices[i := AfterRectification(inv)] + [RectificationOf(i, inv, date, verifactu, n)],
                o.counters[key := n + 1]),
         Performed)
  }

  // ---------- technical voiding ----------

  predicate HasActivity(inv: Invoice) {
    exists k :: 0 <= k < |inv.dueDates| &&
      (inv.dueDates[k].payments != [] || inv.dueDates[k].hasReturn || inv.dueDates[k].everRemitted)
  }

  /** `evidence` says that the accepted cancellation of the fiscal record is in order and its reason allows voiding. */
  function VoidObstacle(o: Office, i: nat, date: int, evidence: bool): Option<Obstacle> {
    if i >= |o.invoices| then Some(InvoiceNotFound)
    else
      var inv := o.invoices[i];
      if inv.status == Voided || FindEntry(o.ledger.entries, InvoiceVoiding(i)).Some? then Some(AlreadyFinalized)
      else if inv.documentType != Standard || inv.status != Issued || inv.verifactu != VerifactuCancelled then Some(VoidingNotAllowed)
      else if IsRectified(o.invoices, i) then Some(HasRectification)
      else if !evidence then Some(EvidenceInvalid)
      else if HasActivity(inv) then Some(FinancialActivity)
      else if exists k :: 0 <= k < |inv.dueDates| && inv.dueDates[k].status != DuePending then Some(DueDateState)
      else
        var x := FindEntry(o.ledger.entries, InvoiceEntry(i));
        if x.None? || o.ledger.entries[x.value].lines == [] || o.ledger.entries[x.value].totalDebit != o.ledger.entries[x.value].totalCredit
        then Some(AccountingInvalid)
        else if !VoidDateAllowed(o.ledger, o.ledger.entries[x.value].fiscalYear, inv.issueDate, date) then Some(YearNotOpen)
        else if ReversedBy(o.ledger.entries, x.value) then Some(Conflict)
        else None
  }

  function CancelAll(dues: seq<DueDate>): (r: seq<DueDate>)
    ensures |r| == |dues|
  {
    seq(|dues|, k requires 0 <= k < |dues| => dues[k].(status := DueCancelled))
  }

  predicate VoidDateAllowed(s: State, y: nat, issueDate: int, date: int) {
    issueDate <= date && y < |s.years| && s.years[y].status == Open && FirstDay(s.years[y].year) <= date <= LastDay(s.years[y].year)
  }

  function Void(o: Office, i: nat, date: int, evidence: bool): (Office, Verdict) {
    var obstacle := VoidObstacle(o, i, date, evidence);
    if obstacle.Some? then (o, Blocked(obstacle.value))
    else
      var inv := o.invoices[i];
      var x := FindEntry(o.ledger.entries, InvoiceEntry(i)).value;
      var original := o.ledger.entries[x];
      var e := NumberedEntry(o.ledger.entries, original.fiscalYear, YearOf(date), date, InvoiceVoiding(i), Some(x), original.totalCredit, original.totalDebit, Mirror(original.lines));
      if !TableAccepts(e) then (o, Aborted(CheckViolation))
      else
        (Office(o.ledger.(entries := o.ledger.entries + [e]),
                o.invoices[i := inv.(status := Voided, payment := PaymentCancelled, dueDates := CancelAll(inv.dueDates))], o.counters), Performed)
  }

  // ---------- what the rest of the system does to an invoice ----------

  /** The tax agency's answers change the fiscal status of an invoice and nothing else. */
  function SetVerifactu(o: Office, i: nat, status: VerifactuStatus): (Office, Verdict) {
    if i >= |o.invoices| || o.invoices[i].status == Draft then (o, Blocked(NotHere))
    else (o.(invoices := o.invoices[i := o.invoices[i].(verifactu := status)]), Performed)
  }

  predicate SameDues(before: seq<DueDate>, after: seq<DueDate>) {
    |after| == |before| && forall k :: 0 <= k < |before| ==> after[k].date == before[k].date && after[k].amount == before[k].amount
  }

  /** Treasury changes the collection state of an issued invoice, not its dates or amounts. */
  function Collect(o: Office, i: nat, payment: PaymentStatus, dues: seq<DueDate>): (Office, Verdict) {
    if i >= |o.invoices| || o.invoices[i].status == Draft || !SameDues(o.invoices[i].dueDates, dues) then (o, Blocked(NotHere))
    else (o.(invoices := o.invoices[i := o.invoices[i].(payment := payment, dueDates := dues)]), Performed)
  }

  predicate IsDocument(origin: Origin) {
    origin.InvoiceEntry? || origin.InvoiceVoiding?
  }

  // ---------- actions and runs ----------

  datatype Action =
    | DoDraft(customerCode: string, issueDate: int, dueDate: int)
    | DoSubscription(customerCode: string, issueDate: int, lines: seq<DraftLine>, dueDate: int)
    | DoAddLine(invoice: nat, line: DraftLine)
    | DoDueDates(invoice: nat, dues: seq<Due>)
    | DoIssue(invoice: nat, origin: InvoiceOrigin, date: int, verifactu: bool, prepared: bool)
    | DoRectify(invoice: nat, date: int, verifactu: bool, evidence: bool, prepared: bool)
    | DoVoid(invoice: nat, date: int, evidence: bool)
    | DoVerifactu(invoice: nat, status: VerifactuStatus)
    | DoCollect(invoice: nat, payment: PaymentStatus, collected: seq<DueDate>)
    | DoLedger(command: Command)

  function Act(plan: seq<PlanAccount>, o: Office, a: Action): (Office, Verdict) {
    match a
    case DoDraft(code, date, due) => CreateDraft(o, code, date, due)
    case DoSubscription(code, date, lines, due) => CreateSubscriptionDraft(o, code, date, lines, due)
    case DoAddLine(i, line) => AddLine(o, i, line)
    case DoDueDates(i, dues) => ReplaceDueDates(o, i, dues)
    case DoIssue(i, origin, date, verifactu, prepared) => Issue(o, i, origin, date, verifactu, prepared)
    case DoRectify(i, date, verifactu, evidence, prepared) => Rectify(o, i, date, verifactu, evidence, prepared)
    case DoVoid(i, date, evidence) => Void(o, i, date, evidence)
    case DoVerifactu(i, status) => SetVerifactu(o, i, status)
    case DoCollect(i, payment, dues) => Collect(o, i, payment, dues)
    case DoLedger(c) =>
      if c.CmdPost? && IsDocument(c.origin) then (o, Blocked(NotHere))
      else (o.(ledger := Step(plan, o.ledger, c).0), Performed)
  }

  function Acts(plan: seq<PlanAccount>, o: Office, actions: seq<Action>): Office
    decreases |actions|
  {
    if actions == [] then o else Acts(plan, Act(plan, o, actions[0]).0, actions[1..])
  }
}
