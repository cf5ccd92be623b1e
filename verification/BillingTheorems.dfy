/**
 The laws of invoicing, over every run from the empty office.
 */
module BillingTheorems {
  import opened Ledger
  import opened Settlement
  import opened FiscalCycle
  import opened CycleInvariant
  import opened CycleSteps
  import opened CycleRuns
  import opened Calculations
  import opened Billing
  import opened BillingEntries
  import opened BillingInvariant
  import opened BillingSteps
  import opened BillingDocuments

  ghost function OfficeAfter(plan: seq<PlanAccount>, actions: seq<Action>): Office {
    Acts(plan, NO_OFFICE, actions)
  }

  lemma OfficeHolds(plan: seq<PlanAccount>, actions: seq<Action>)
    requires ValidPlan(plan)
    ensures OfficeInv(OfficeAfter(plan, actions)) && CountersPositive(OfficeAfter(plan, actions).counters)
  {
    NoOfficeHolds();
    ActsKeep(plan, NO_OFFICE, actions);
  }

  // ---------- the sub-ledger ----------

  /** Totals of the ordinary invoices of one customer account that are still issued. */
  function OpenInvoices(invoices: seq<Invoice>, account: string): int {
    if invoices == [] then 0
    else
      var last := invoices[|invoices| - 1];
      OpenInvoices(invoices[..|invoices| - 1], account)
      + if last.documentType == Standard && last.status == Issued && CustomerAccount(last.customerCode) == account then last.totals.taxed.total else 0
  }

  lemma CustomerCodeIsOwn(code: string)
    ensures CustomerAccount(code) != PRODUCT_SALES && CustomerAccount(code) != SERVICE_SALES && CustomerAccount(code) != OUTPUT_TAX
  {
    assert CustomerAccount(code)[0] == '4' && CustomerAccount(code)[1] == '3';
    assert PRODUCT_SALES[0] == '7' && SERVICE_SALES[0] == '7' && OUTPUT_TAX[1] == '7';
  }

  lemma {:induction false} OutstandingOnCustomer(invoices: seq<Invoice>, customerCode: string)
    ensures Outstanding(invoices, CustomerAccount(customerCode)) == OpenInvoices(invoices, CustomerAccount(customerCode))
  {
    CustomerCodeIsOwn(customerCode);
    if invoices != [] {
      OutstandingOnCustomer(invoices[..|invoices| - 1], customerCode);
    }
  }

  /** What the document entries leave on a customer's account code, over all years, is the sum of the
      totals of the customer's ordinary invoices still issued. */
  lemma CustomerLedgerAgrees(plan: seq<PlanAccount>, actions: seq<Action>, customerCode: string)
    requires ValidPlan(plan)
    ensures var o := OfficeAfter(plan, actions);
            var account := CustomerAccount(customerCode);
            DocumentNet(o.ledger.accounts, o.ledger.entries, account) == OpenInvoices(o.invoices, account)
  {
    OfficeHolds(plan, actions);
    OutstandingOnCustomer(OfficeAfter(plan, actions).invoices, customerCode);
  }

  /** On every account code whatever, sales and tax included, the document entries add up to what the
      ordinary invoices still issued put there. */
  lemma SubLedgerLaw(plan: seq<PlanAccount>, actions: seq<Action>, code: string)
    requires ValidPlan(plan)
    ensures var o := OfficeAfter(plan, actions);
            DocumentNet(o.ledger.accounts, o.ledger.entries, code) == Outstanding(o.invoices, code)
  {
    OfficeHolds(plan, actions);
  }

  // ---------- a rectified or voided invoice leaves nothing behind ----------

  /** Every invoice out of the draft has exactly one entry; when it is rectified, the entry of its
      rectification cancels it on every account code, and when it is voided, the contra entry does. */
  lemma CancelledLeavesNothing(plan: seq<PlanAccount>, actions: seq<Action>, i: nat, j: nat, k: nat, code: string)
    requires ValidPlan(plan)
    requires var o := OfficeAfter(plan, actions);
             && j < |o.ledger.entries| && k < |o.ledger.entries|
             && i < |o.invoices| && o.invoices[i].documentType == Standard
             && o.ledger.entries[j].origin == InvoiceEntry(i)
             && (o.ledger.entries[k].origin == InvoiceVoiding(i)
                 || (o.ledger.entries[k].origin.InvoiceEntry? && o.ledger.entries[k].origin.invoice < |o.invoices|
                     && o.invoices[o.ledger.entries[k].origin.invoice].rectifies == Some(i)))
    ensures var o := OfficeAfter(plan, actions);
            CodeNet(o.ledger.accounts, o.ledger.entries[j].lines, code) + CodeNet(o.ledger.accounts, o.ledger.entries[k].lines, code) == 0
  {
    OfficeHolds(plan, actions);
    var o := OfficeAfter(plan, actions);
    EntriesCancel(o, i, j, k, code);
  }

  lemma EntriesCancel(o: Office, i: nat, j: nat, k: nat, code: string)
    requires OfficeInv(o)
    requires j < |o.ledger.entries| && k < |o.ledger.entries| && i < |o.invoices| && o.invoices[i].documentType == Standard
    requires o.ledger.entries[j].origin == InvoiceEntry(i)
    requires o.ledger.entries[k].origin == InvoiceVoiding(i)
             || (o.ledger.entries[k].origin.InvoiceEntry? && o.ledger.entries[k].origin.invoice < |o.invoices|
                 && o.invoices[o.ledger.entries[k].origin.invoice].rectifies == Some(i))
    ensures CodeNet(o.ledger.accounts, o.ledger.entries[j].lines, code) + CodeNet(o.ledger.accounts, o.ledger.entries[k].lines, code) == 0
  {
    hide Inv, IssueNet, CodeNet, NumbersSound, DatesFollowNumbers, SubLedgerAgrees, LinesComputed;
    var es := o.ledger.entries;
    assert DocumentSound(o.ledger.accounts, o.invoices, es[j]);
    assert DocumentSound(o.ledger.accounts, o.invoices, es[k]);
    assert CodeNet(o.ledger.accounts, es[j].lines, code) == 1 * IssueNet(o.invoices[i], code);
    if es[k].origin.InvoiceEntry? {
      InvoiceIsSound(o, es[k].origin.invoice);
    }
    assert CodeNet(o.ledger.accounts, es[k].lines, code) == -1 * IssueNet(o.invoices[i], code);
  }

  /** No document has two entries. */
  ghost predicate OneEntryEach(entries: seq<Entry>) {
    forall j, k :: 0 <= j < |entries| && 0 <= k < |entries| && IsDocument(entries[j].origin) && entries[j].origin == entries[k].origin ==> j == k
  }

  /** No invoice is ever both rectified and voided; rectified means that exactly one rectification of it
      exists, voided means that its contra entry exists. */
  lemma RectifiedOrVoided(plan: seq<PlanAccount>, actions: seq<Action>, i: nat)
    requires ValidPlan(plan)
    requires i < |OfficeAfter(plan, actions).invoices|
    ensures var o := OfficeAfter(plan, actions);
            && (IsRectified(o.invoices, i) <==> o.invoices[i].status == Rectified)
            && (HasEntry(o.ledger.entries, InvoiceVoiding(i)) <==> o.invoices[i].status == Voided)
            && (HasEntry(o.ledger.entries, InvoiceEntry(i)) <==> o.invoices[i].status != Draft)
            && (forall r, s :: 0 <= r < |o.invoices| && 0 <= s < |o.invoices| && o.invoices[r].rectifies == Some(i) && o.invoices[s].rectifies == Some(i) ==> r == s)
            && OneEntryEach(o.ledger.entries)
  {
    OfficeHolds(plan, actions);
    StatusesMatch(OfficeAfter(plan, actions), i);
  }

  lemma StatusesMatch(o: Office, i: nat)
    requires OfficeInv(o) && i < |o.invoices|
    ensures IsRectified(o.invoices, i) <==> o.invoices[i].status == Rectified
    ensures HasEntry(o.ledger.entries, InvoiceVoiding(i)) <==> o.invoices[i].status == Voided
    ensures HasEntry(o.ledger.entries, InvoiceEntry(i)) <==> o.invoices[i].status != Draft
    ensures forall r, s :: 0 <= r < |o.invoices| && 0 <= s < |o.invoices| && o.invoices[r].rectifies == Some(i) && o.invoices[s].rectifies == Some(i) ==> r == s
    ensures OneEntryEach(o.ledger.entries)
  {
    hide Inv, NetsTo, NumbersSound, DatesFollowNumbers, SubLedgerAgrees, LinesComputed;
    forall r | 0 <= r < |o.invoices| && o.invoices[r].rectifies == Some(i) ensures o.invoices[i].status == Rectified {
      InvoiceIsSound(o, r);
    }
    if o.invoices[i].status == Draft {
      NoEarlierEntry(o.ledger.accounts, o.invoices, o.ledger.entries, InvoiceEntry(i));
    }
    if o.invoices[i].status != Voided {
      NoEarlierEntry(o.ledger.accounts, o.invoices, o.ledger.entries, InvoiceVoiding(i));
    }
  }

  // ---------- numbers and dates ----------

  /** In every series and year the numbers given out are exactly 1 up to the next number, each once,
      whatever attempts failed; and a later number never has an earlier date. */
  lemma NumbersAreGapless(plan: seq<PlanAccount>, actions: seq<Action>, key: NumberKey)
    requires ValidPlan(plan)
    ensures var o := OfficeAfter(plan, actions);
            && (forall n :: NumberTaken(o.invoices, key, n) <==> 1 <= n < NextNumber(o.counters, key))
            && (forall i, j, n :: 0 <= i < |o.invoices| && 0 <= j < |o.invoices| && Numbered(o.invoices[i], key, n) && Numbered(o.invoices[j], key, n) ==> i == j)
            && DatesFollowNumbers(o.invoices)
  {
    OfficeHolds(plan, actions);
    NumbersExact(OfficeAfter(plan, actions), key);
  }

  lemma NumbersExact(o: Office, key: NumberKey)
    requires OfficeInv(o)
    ensures forall n :: NumberTaken(o.invoices, key, n) <==> 1 <= n < NextNumber(o.counters, key)
    ensures forall i, j, n :: 0 <= i < |o.invoices| && 0 <= j < |o.invoices| && Numbered(o.invoices[i], key, n) && Numbered(o.invoices[j], key, n) ==> i == j
  {
    hide Inv, DocumentsSound, SubLedgerAgrees, InvoicesSound, EntriesThere, DatesFollowNumbers;
    forall n ensures NumberTaken(o.invoices, key, n) <==> 1 <= n < NextNumber(o.counters, key) {
      if NumberTaken(o.invoices, key, n) {
        var i :| 0 <= i < |o.invoices| && Numbered(o.invoices[i], key, n);
        assert KeyOf(o.invoices[i]) == key;
      }
    }
    forall i, j, n | 0 <= i < |o.invoices| && 0 <= j < |o.invoices| && Numbered(o.invoices[i], key, n) && Numbered(o.invoices[j], key, n) ensures i == j {
      assert KeyOf(o.invoices[i]) == key == KeyOf(o.invoices[j]);
    }
  }

  // ---------- when issuing, rectifying and voiding succeed ----------

  /** An invoice always balances against its own lines, and its single due date always covers its total. */
  lemma InvoicesBalance(plan: seq<PlanAccount>, actions: seq<Action>, i: nat)
    requires ValidPlan(plan)
    requires i < |OfficeAfter(plan, actions).invoices| && OfficeAfter(plan, actions).invoices[i].documentType == Standard
    ensures var inv := OfficeAfter(plan, actions).invoices[i];
            && inv.totals.taxed.total == LedgerTotal(inv)
            && inv.totals.taxed.total == inv.totals.taxed.base + inv.totals.taxed.tax
            && (inv.status == Draft && |inv.dueDates| == 1 ==> DueTotal(inv.dueDates) == inv.totals.taxed.total)
  {
    OfficeHolds(plan, actions);
    var o := OfficeAfter(plan, actions);
    InvoiceIsSound(o, i);
    RecalculatedBalances(o.invoices[i]);
    TotalsAddUp(Calculated(o.invoices[i].lines));
    if |o.invoices[i].dueDates| == 1 { SingleDue(o.invoices[i].dueDates); }
  }

  /** Issuing a draft never meets an unbalanced entry; what is left after the other checks is decided by
      the total alone: zero throws, anything else is issued, provided that the fiscal record can be prepared. */
  lemma IssueOutcome(plan: seq<PlanAccount>, actions: seq<Action>, i: nat, origin: InvoiceOrigin, date: int, verifactu: bool, prepared: bool)
    requires ValidPlan(plan)
    ensures var o := OfficeAfter(plan, actions);
            var v := Issue(o, i, origin, date, verifactu, prepared).1;
            && v != Blocked(EntryUnbalanced)
            && (IssueObstacle(o, i, origin, date).None? ==>
                  && (v == Aborted(CheckViolation) <==> o.invoices[i].totals.taxed.total == 0)
                  && (v.Performed? <==> o.invoices[i].totals.taxed.total != 0 && (verifactu ==> prepared)))
  {
    OfficeHolds(plan, actions);
    var o := OfficeAfter(plan, actions);
    IssueDecided(o, i, origin, date, verifactu, prepared);
  }

  lemma IssueDecided(o: Office, i: nat, origin: InvoiceOrigin, date: int, verifactu: bool, prepared: bool)
    requires OfficeInv(o)
    ensures var v := Issue(o, i, origin, date, verifactu, prepared).1;
            && v != Blocked(EntryUnbalanced)
            && (IssueObstacle(o, i, origin, date).None? ==>
                  && (v == Aborted(CheckViolation) <==> o.invoices[i].totals.taxed.total == 0)
                  && (v.Performed? <==> o.invoices[i].totals.taxed.total != 0 && (verifactu ==> prepared)))
  {
    hide OfficeInv, StandardSound, IssueLines, AccountsAvailable, ChronologyViolation, AllOneSided, LedgerTotal;
    if i < |o.invoices| && o.invoices[i].status == Draft {
      DraftIsStandard(o, i);
      NeverUnbalanced(o, i);
      if IssueObstacle(o, i, origin, date).None? {
        var y := OpenYearAt(o.ledger.years, date).value;
        DraftPostings(o, i, y);
        IssueLinesFacts(o.ledger.accounts, y, o.invoices[i], "");
      }
    }
  }

  lemma NeverUnbalanced(o: Office, i: nat)
    requires OfficeInv(o) && i < |o.invoices| && o.invoices[i].documentType == Standard
    ensures o.invoices[i].totals.taxed.total == LedgerTotal(o.invoices[i])
  {
    InvoiceIsSound(o, i);
    RecalculatedBalances(o.invoices[i]);
  }

  /** Rectifying is decided by its checks alone: no unbalanced entry, no earlier rectification behind an
      issued status, no refusal by the journal. */
  lemma RectifyOutcome(plan: seq<PlanAccount>, actions: seq<Action>, i: nat, date: int, verifactu: bool, evidence: bool, prepared: bool)
    requires ValidPlan(plan)
    ensures var o := OfficeAfter(plan, actions);
            var v := Rectify(o, i, date, verifactu, evidence, prepared).1;
            && v != Blocked(EntryUnbalanced) && v != Blocked(AlreadyRectified) && !v.Aborted?
            && (RectifyObstacle(o, i, date, verifactu, evidence).None? ==> (v.Performed? <==> (verifactu ==> prepared)))
  {
    OfficeHolds(plan, actions);
    RectifyDecided(OfficeAfter(plan, actions), i, date, verifactu, evidence, prepared);
  }

  lemma RectifyDecided(o: Office, i: nat, date: int, verifactu: bool, evidence: bool, prepared: bool)
    requires OfficeInv(o)
    ensures var v := Rectify(o, i, date, verifactu, evidence, prepared).1;
            && v != Blocked(EntryUnbalanced) && v != Blocked(AlreadyRectified) && !v.Aborted?
            && (RectifyObstacle(o, i, date, verifactu, evidence).None? ==> (v.Performed? <==> (verifactu ==> prepared)))
  {
    hide OfficeInv, RectifyLines, AccountsAvailable, ChronologyViolation, AllOneSided, LedgerTotal, CleanUnpaid, CleanPaid, VerifactuAllows, IsRectified, AfterRectification;
    if i < |o.invoices| && o.invoices[i].documentType == Standard && o.invoices[i].status == Issued {
      StatusesMatch(o, i);
      NeverUnbalanced(o, i);
      InvoiceIsSound(o, i);
      if RectifyObstacle(o, i, date, verifactu, evidence).None? {
        var y := OpenYearAt(o.ledger.years, date).value;
        DraftPostings(o, i, y);
        RectifyLinesFacts(o.ledger.accounts, y, o.invoices[i], "");
      }
    }
  }

  /** Voiding never finds an issued invoice without a sound entry, nor one with a rectification, and what
      passes its checks is posted. */
  lemma VoidOutcome(plan: seq<PlanAccount>, actions: seq<Action>, i: nat, date: int, evidence: bool)
    requires ValidPlan(plan)
    ensures var o := OfficeAfter(plan, actions);
            var v := Void(o, i, date, evidence).1;
            && v != Blocked(AccountingInvalid) && v != Blocked(HasRectification) && !v.Aborted?
            && (VoidObstacle(o, i, date, evidence).None? <==> v.Performed?)
  {
    OfficeHolds(plan, actions);
    VoidDecided(OfficeAfter(plan, actions), i, date, evidence);
  }

  lemma SoundNotEmpty(s: State, x: nat)
    requires Inv(s) && x < |s.entries|
    ensures var e := s.entries[x];
            e.lines != [] && e.totalDebit == e.totalCredit == DebitTotal(e.lines) == CreditTotal(e.lines) && e.totalDebit > 0 && AllOneSided(e.lines)
  {
    assert EntrySound(s.years, s.accounts, s.entries[x]);
  }

  lemma VoidDecided(o: Office, i: nat, date: int, evidence: bool)
    requires OfficeInv(o)
    ensures var v := Void(o, i, date, evidence).1;
            && v != Blocked(AccountingInvalid) && v != Blocked(HasRectification) && !v.Aborted?
            && (VoidObstacle(o, i, date, evidence).None? <==> v.Performed?)
  {
    hide OfficeInv, Inv, HasActivity, VoidDateAllowed, ReversedBy, IsRectified, AllOneSided, DebitTotal, CreditTotal, OneEntryEach;
    OfficeParts(o);
    if i < |o.invoices| {
      StatusesMatch(o, i);
      var x := FindEntry(o.ledger.entries, InvoiceEntry(i));
      if x.Some? {
        SoundNotEmpty(o.ledger, x.value);
        MirrorNegates(o.ledger.entries[x.value].lines);
        MirrorOneSided(o.ledger.entries[x.value].lines);
      }
    }
  }
}
