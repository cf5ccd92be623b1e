/**
 The invoice operations as they work: rows that each operation changes step by step inside one
 transaction, which a fault rolls back.  Every operation is proved to have exactly the effect and the
 verdict that `Billing` specifies for it, and to keep the invariant of the office.
 */
module BillingDesk {
  import opened Ledger
  import opened FiscalCycle
  import opened Calculations
  import Spec = Billing
  import opened Billing
  import opened BillingInvariant
  import opened BillingSteps
  import opened BillingDocuments

  class Desk {
    var ledger: State
    var invoices: seq<Invoice>
    var counters: map<NumberKey, nat>

    function Rows(): Office
      reads this
    {
      Office(ledger, invoices, counters)
    }

    ghost predicate Valid()
      reads this
    {
      OfficeInv(Rows()) && CountersPositive(counters)
    }

    constructor ()
      ensures Rows() == NO_OFFICE && Valid()
    {
      ledger, invoices, counters := EMPTY, [], map[];
      new;
      NoOfficeHolds();
    }

    method Rollback(saved: Office)
      modifies this
      ensures Rows() == saved
    {
      ledger, invoices, counters := saved.ledger, saved.invoices, saved.counters;
    }

    // ---------- drafts ----------

    /** Recomputes the totals of the invoice; a single due date follows. */
    method RecalculateInvoice(i: nat)
      requires i < |invoices|
      modifies this`invoices
      ensures invoices == old(invoices)[i := Recalculate(old(invoices)[i])]
    {
      var inv := invoices[i];
      var totals := CalculateTotals(Calculated(inv.lines));
      invoices := invoices[i := inv.(totals := totals)];
      if |inv.dueDates| == 1 {
        var due := inv.dueDates[0].(amount := totals.taxed.total);
        invoices := invoices[i := invoices[i].(dueDates := [due])];
      }
    }

    method AddInvoiceLine(i: nat, line: DraftLine) returns (v: Verdict)
      requires Valid()
      modifies this
      ensures (Rows(), v) == Spec.AddLine(old(Rows()), i, line)
      ensures Valid()
    {
      hide OfficeInv, CountersPositive, MakeLine;
      var saved := Rows();
      AddLineKeeps(saved, i, line);
      if !ValidInput(line.input) { return Blocked(BadInput); }
      if i >= |invoices| { return Blocked(InvoiceNotFound); }
      var inv := invoices[i];
      if inv.status != Draft || inv.origin == Subscription { return Blocked(NotEditable); }
      invoices := invoices[i := inv.(lines := inv.lines + [MakeLine(line)])];
      RecalculateInvoice(i);
      assert invoices == saved.invoices[i := invoices[i]];
      if !AmountsSupported(invoices[i].totals) {
        Rollback(saved);
        return Aborted(CheckViolation);
      }
      v := Performed;
    }

    method ReplaceInvoiceDueDates(i: nat, dues: seq<Due>) returns (v: Verdict)
      requires Valid()
      modifies this
      ensures (Rows(), v) == Spec.ReplaceDueDates(old(Rows()), i, dues)
      ensures Valid()
    {
      hide OfficeInv, CountersPositive;
      ReplaceDueDatesKeeps(Rows(), i, dues);
      if !(1 <= |dues| <= 24) || (exists k :: 0 <= k < |dues| && dues[k].amount <= 0) { return Blocked(BadInput); }
      if i >= |invoices| { return Blocked(InvoiceNotFound); }
      var inv := invoices[i];
      if inv.status != Draft || inv.documentType != Standard || inv.origin == Subscription { return Blocked(NotEditable); }
      if DueTotal(MakeDues(dues)) != inv.totals.taxed.total { return Blocked(DueDatesMismatch); }
      if exists k :: 0 <= k < |dues| && dues[k].date < inv.issueDate { return Blocked(DueDateBeforeIssue); }
      invoices := invoices[i := inv.(dueDates := MakeDues(dues))];
      v := Performed;
    }

    // ---------- numbers ----------

    /** Compares the date with the latest date of the series. */
    method HasChronologyViolation(series: string, date: int) returns (violation: bool)
      ensures violation == ChronologyViolation(invoices, series, date)
    {
      var latest: Option<int> := None;
      for i := 0 to |invoices|
        invariant latest.Some? ==> exists k :: 0 <= k < i && invoices[k].series == series && invoices[k].status != Draft && invoices[k].issueDate == latest.value
        invariant forall k :: 0 <= k < i && invoices[k].series == series && invoices[k].status != Draft
                              ==> latest.Some? && invoices[k].issueDate <= latest.value
      {
        if invoices[i].series == series && invoices[i].status != Draft && (latest.None? || latest.value < invoices[i].issueDate) {
          latest := Some(invoices[i].issueDate);
        }
      }
      violation := latest.Some? && date < latest.value;
    }

    method ReserveInvoiceNumber(series: string, date: int) returns (n: nat)
      requires CountersPositive(counters)
      modifies this`counters
      ensures n == NextNumber(old(counters), NumberKey(series, YearOf(date))) && n >= 1
      ensures counters == old(counters)[NumberKey(series, YearOf(date)) := n + 1]
    {
      var key := NumberKey(series, YearOf(date));
      if key !in counters {
        counters := counters[key := 1];
      }
      n := counters[key];
      counters := counters[key := n + 1];
    }

    /** Inserts an entry, which the checks of the journal may refuse. */
    method PostEntry(y: nat, date: int, origin: Origin, reverses: Option<nat>, debit: int, credit: int, lines: seq<Line>) returns (posted: bool)
      modifies this`ledger
      ensures var e := NumberedEntry(old(ledger).entries, y, YearOf(date), date, origin, reverses, debit, credit, lines);
              && posted == TableAccepts(e)
              && ledger == if posted then old(ledger).(entries := old(ledger).entries + [e]) else old(ledger)
    {
      hide TableAccepts;
      var last := LastNumber(ledger.entries, y);
      var e := Entry(y, YearOf(date), last + 1, date, origin, reverses, debit, credit, lines);
      posted := TableAccepts(e);
      if posted {
        ledger := ledger.(entries := ledger.entries + [e]);
      }
    }

    // ---------- issuing ----------

    method FindPostingObstacle(inv: Invoice, date: int) returns (obstacle: Option<Obstacle>)
      ensures obstacle == PostingObstacle(ledger, inv, date)
    {
      hide AccountsAvailable;
      var y := OpenYearAt(ledger.years, date);
      if y.None? { return Some(YearNotOpen); }
      if !ValidCode(inv.customerCode) || !AccountsAvailable(ledger.accounts, y.value, inv) { return Some(AccountNotAvailable); }
      if inv.totals.taxed.total != LedgerTotal(inv) { return Some(EntryUnbalanced); }
      obstacle := None;
    }

    method FindIssueObstacle(i: nat, origin: InvoiceOrigin, date: int) returns (obstacle: Option<Obstacle>)
      ensures obstacle == IssueObstacle(Rows(), i, origin, date)
    {
      hide ChronologyViolation, PostingObstacle;
      if i >= |invoices| { return Some(InvoiceNotFound); }
      var inv := invoices[i];
      if inv.status != Draft || inv.origin != origin { return Some(NotIssuable); }
      if inv.lines == [] { return Some(NoLines); }
      if inv.dueDates == [] || DueTotal(inv.dueDates) != inv.totals.taxed.total { return Some(DueDatesMismatch); }
      if exists k :: 0 <= k < |inv.dueDates| && inv.dueDates[k].date < date { return Some(DueDateBeforeIssue); }
      var violation := HasChronologyViolation(inv.series, date);
      if violation { return Some(OutOfOrder); }
      obstacle := FindPostingObstacle(inv, date);
    }

    method IssueInvoice(i: nat, origin: InvoiceOrigin, date: int, verifactu: bool, prepared: bool) returns (v: Verdict)
      requires Valid()
      modifies this
      ensures (Rows(), v) == Spec.Issue(old(Rows()), i, origin, date, verifactu, prepared)
      ensures Valid()
    {
      hide OfficeInv, TableAccepts, ChronologyViolation, AccountsAvailable, IssueLines, SalesLines, LedgerTotal, DueTotal;
      var saved := Rows();
      IssueKeeps(saved, i, origin, date, verifactu, prepared);
      var obstacle := FindIssueObstacle(i, origin, date);
      if obstacle.Some? { return Blocked(obstacle.value); }
      var inv := invoices[i];
      var y := OpenYearAt(ledger.years, date).value;
      var n := ReserveInvoiceNumber(inv.series, date);
      var posted := PostEntry(y, date, InvoiceEntry(i), None, inv.totals.taxed.total, LedgerTotal(inv), IssueLines(ledger.accounts, y, inv));
      if !posted {
        Rollback(saved);
        return Aborted(CheckViolation);
      }
      invoices := invoices[i := inv.(status := Issued, verifactu := if verifactu then Preparing else NotSent, number := Some(n), issueDate := date)];
      if verifactu && !prepared {
        Rollback(saved);
        return Blocked(VerifactuUnavailable);
      }
      v := Performed;
    }

    // ---------- rectifying ----------

    method FindRectifyObstacle(i: nat, date: int, verifactu: bool, evidence: bool) returns (obstacle: Option<Obstacle>)
      ensures obstacle == RectifyObstacle(Rows(), i, date, verifactu, evidence)
    {
      hide ChronologyViolation, PostingObstacle, CleanUnpaid, CleanPaid;
      if i >= |invoices| { return Some(InvoiceNotFound); }
      var inv := invoices[i];
      if inv.documentType != Standard || inv.status != Issued { return Some(NotRectifiable); }
      if IsRectified(invoices, i) { return Some(AlreadyRectified); }
      if !CleanUnpaid(inv) && !CleanPaid(inv) { return Some(FinancialActivity); }
      if !VerifactuAllows(inv, verifactu, evidence) { return Some(VerifactuUnavailable); }
      var violation := HasChronologyViolation("R", date);
      if violation { return Some(OutOfOrder); }
      obstacle := FindPostingObstacle(inv, date);
    }

    method CreateRectification(i: nat, date: int, verifactu: bool, evidence: bool, prepared: bool) returns (v: Verdict)
      requires Valid()
      modifies this
      ensures (Rows(), v) == Spec.Rectify(old(Rows()), i, date, verifactu, evidence, prepared)
      ensures Valid()
    {
      hide OfficeInv, TableAccepts, ChronologyViolation, AccountsAvailable, RectifyLines, SalesLines, LedgerTotal, CleanUnpaid, CleanPaid, IsRectified, VerifactuAllows, CancelPending;
      var saved := Rows();
      RectifyKeeps(saved, i, date, verifactu, evidence, prepared);
      var obstacle := FindRectifyObstacle(i, date, verifactu, evidence);
      if obstacle.Some? { return Blocked(obstacle.value); }
      var inv := invoices[i];
      var y := OpenYearAt(ledger.years, date).value;
      var n := ReserveInvoiceNumber("R", date);
      invoices := invoices + [RectificationOf(i, inv, date, verifactu, n)];
      var posted := PostEntry(y, date, InvoiceEntry(|invoices| - 1), None, LedgerTotal(inv), inv.totals.taxed.total, RectifyLines(ledger.accounts, y, inv));
      if !posted {
        Rollback(saved);
        return Aborted(CheckViolation);
      }
      if verifactu && !prepared {
        Rollback(saved);
        return Blocked(VerifactuUnavailable);
      }
      var rectified := inv.(status := Rectified, payment := if CleanUnpaid(inv) then PaymentCancelled else Paid);
      invoices := invoices[i := rectified];
      if CleanUnpaid(inv) {
        invoices := invoices[i := rectified.(dueDates := CancelPending(inv.dueDates))];
      }
      assert invoices == saved.invoices[i := invoices[i]] + [RectificationOf(i, inv, date, verifactu, n)];
      v := Performed;
    }

    // ---------- voiding ----------

    method FinalizeTechnicalVoiding(i: nat, date: int, evidence: bool) returns (v: Verdict)
      requires Valid()
      modifies this
      ensures (Rows(), v) == Spec.Void(old(Rows()), i, date, evidence)
      ensures Valid()
    {
      hide OfficeInv, CountersPositive, TableAccepts, HasActivity, IsRectified, VoidDateAllowed, ReversedBy, FindEntry;
      var saved := Rows();
      VoidKeeps(saved, i, date, evidence);
      if i >= |invoices| { return Blocked(InvoiceNotFound); }
      var inv := invoices[i];
      if inv.status == Voided || FindEntry(ledger.entries, InvoiceVoiding(i)).Some? { return Blocked(AlreadyFinalized); }
      if inv.documentType != Standard || inv.status != Issued || inv.verifactu != VerifactuCancelled { return Blocked(VoidingNotAllowed); }
      if IsRectified(invoices, i) { return Blocked(HasRectification); }
      if !evidence { return Blocked(EvidenceInvalid); }
      if HasActivity(inv) { return Blocked(FinancialActivity); }
      if exists k :: 0 <= k < |inv.dueDates| && inv.dueDates[k].status != DuePending { return Blocked(DueDateState); }
      var x := FindEntry(ledger.entries, InvoiceEntry(i));
      if x.None? || ledger.entries[x.value].lines == [] || ledger.entries[x.value].totalDebit != ledger.entries[x.value].totalCredit {
        return Blocked(AccountingInvalid);
      }
      var original := ledger.entries[x.value];
      if !VoidDateAllowed(ledger, original.fiscalYear, inv.issueDate, date) { return Blocked(YearNotOpen); }
      if ReversedBy(ledger.entries, x.value) { return Blocked(Conflict); }
      var posted := PostEntry(original.fiscalYear, date, InvoiceVoiding(i), x, original.totalCredit, original.totalDebit, Mirror(original.lines));
      if !posted {
        return Aborted(CheckViolation);
      }
      invoices := invoices[i := inv.(dueDates := CancelAll(inv.dueDates))];
      invoices := invoices[i := invoices[i].(status := Voided, payment := PaymentCancelled)];
      assert invoices == saved.invoices[i := invoices[i]];
      v := Performed;
    }
  }
}
