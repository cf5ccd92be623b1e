/**
 Every action on invoices keeps the invariant of the office.
 */
module BillingSteps {
  import opened Ledger
  import opened Settlement
  import opened FiscalCycle
  import opened CycleInvariant
  import opened CycleSteps
  import opened CycleCloseKeeps
  import opened CycleReopenKeeps
  import opened CycleRuns
  import opened Calculations
  import opened Billing
  import opened BillingEntries
  import opened BillingInvariant

  // ---------- what never changes in an invoice ----------

  /** Once out of the draft an invoice keeps its content, and leaves the issued status at most once. */
  ghost predicate Progress(a: Invoice, b: Invoice) {
    && b.documentType == a.documentType && b.rectifies == a.rectifies
    && (a.status != Draft ==>
          && b.customerCode == a.customerCode && b.lines == a.lines && b.totals == a.totals
          && b.series == a.series && b.number == a.number && b.issueDate == a.issueDate
          && b.status != Draft && (a.status != Issued ==> b.status == a.status))
  }

  ghost predicate Extends(invoices: seq<Invoice>, invoices': seq<Invoice>) {
    |invoices| <= |invoices'| && forall i :: 0 <= i < |invoices| ==> Progress(invoices[i], invoices'[i])
  }

  lemma SameNet(a: Invoice, b: Invoice)
    requires a.customerCode == b.customerCode && a.lines == b.lines && a.totals == b.totals
    ensures forall code :: IssueNet(a, code) == IssueNet(b, code)
  {
  }

  lemma DocumentStays(accounts: seq<Account>, invoices: seq<Invoice>, invoices': seq<Invoice>, e: Entry)
    requires InvoicesSound(invoices) && Extends(invoices, invoices') && DocumentSound(accounts, invoices, e)
    ensures DocumentSound(accounts, invoices', e)
  {
    hide IssueNet, CodeNet;
    match e.origin
    case InvoiceEntry(i) =>
      assert InvoiceSound(invoices, invoices[i]);
      assert Progress(invoices[i], invoices'[i]);
      if invoices[i].documentType == Rectification {
        assert Progress(invoices[invoices[i].rectifies.value], invoices'[invoices[i].rectifies.value]);
      }
      SameNet(Basis(invoices, i), Basis(invoices', i));
    case InvoiceVoiding(i) =>
      assert Progress(invoices[i], invoices'[i]);
      SameNet(invoices[i], invoices'[i]);
    case _ =>
  }

  lemma DocumentsStay(accounts: seq<Account>, invoices: seq<Invoice>, invoices': seq<Invoice>, entries: seq<Entry>)
    requires InvoicesSound(invoices) && Extends(invoices, invoices') && DocumentsSound(accounts, invoices, entries)
    ensures DocumentsSound(accounts, invoices', entries)
  {
    hide InvoicesSound, Extends, DocumentSound;
    forall k | 0 <= k < |entries| ensures DocumentSound(accounts, invoices', entries[k]) {
      assert DocumentSound(accounts, invoices, entries[k]);
      DocumentStays(accounts, invoices, invoices', entries[k]);
    }
  }

  lemma DocumentsAppend(accounts: seq<Account>, invoices: seq<Invoice>, entries: seq<Entry>, e: Entry)
    requires DocumentsSound(accounts, invoices, entries) && DocumentSound(accounts, invoices, e)
    requires IsDocument(e.origin) && !HasEntry(entries, e.origin)
    ensures DocumentsSound(accounts, invoices, entries + [e])
  {
    hide DocumentSound;
    var all := entries + [e];
    forall k | 0 <= k < |all| ensures DocumentSound(accounts, invoices, all[k]) {
      if k < |entries| { assert DocumentSound(accounts, invoices, entries[k]); }
    }
  }

  lemma InvoiceStays(invoices: seq<Invoice>, invoices': seq<Invoice>, r: Invoice)
    requires Extends(invoices, invoices') && InvoiceSound(invoices, r)
    ensures InvoiceSound(invoices', r)
  {
    if r.documentType == Rectification {
      assert Progress(invoices[r.rectifies.value], invoices'[r.rectifies.value]);
    }
  }

  /** Only invoice `i` changed; it is sound, and it is rectified only if it was before. */
  lemma InvoicesUpdate(invoices: seq<Invoice>, i: nat, inv: Invoice)
    requires InvoicesSound(invoices) && i < |invoices| && Progress(invoices[i], inv)
    requires InvoiceSound(invoices[i := inv], inv)
    requires inv.status == Rectified ==> invoices[i].status == Rectified
    ensures InvoicesSound(invoices[i := inv])
  {
    hide InvoiceSound;
    var invoices' := invoices[i := inv];
    assert Extends(invoices, invoices');
    forall j | 0 <= j < |invoices'| ensures InvoiceSound(invoices', invoices'[j]) {
      if j != i {
        assert InvoiceSound(invoices, invoices[j]);
        InvoiceStays(invoices, invoices', invoices[j]);
      }
    }
    forall j: nat | j < |invoices'| && invoices'[j].status == Rectified ensures IsRectified(invoices', j) {
      assert IsRectified(invoices, j);
      var r :| 0 <= r < |invoices| && invoices[r].rectifies == Some(j);
      assert invoices'[r].rectifies == Some(j);
    }
  }

  lemma InvoicesAppendDraft(invoices: seq<Invoice>, inv: Invoice)
    requires InvoicesSound(invoices) && inv.documentType == Standard && inv.status == Draft && StandardSound(inv)
    ensures InvoicesSound(invoices + [inv])
  {
    hide InvoiceSound, StandardSound;
    var invoices' := invoices + [inv];
    assert InvoiceSound(invoices', inv) && inv.rectifies.None? by { DraftIsSound(invoices', inv); }
    forall j | 0 <= j < |invoices'| ensures InvoiceSound(invoices', invoices'[j]) {
      if j < |invoices| {
        assert InvoiceSound(invoices, invoices[j]);
        InvoiceStays(invoices, invoices', invoices[j]);
      }
    }
    forall j: nat | j < |invoices'| && invoices'[j].status == Rectified ensures IsRectified(invoices', j) {
      assert IsRectified(invoices, j);
      var r :| 0 <= r < |invoices| && invoices[r].rectifies == Some(j);
      assert invoices'[r].rectifies == Some(j);
    }
  }

  lemma DraftIsSound(invoices: seq<Invoice>, inv: Invoice)
    requires inv.documentType == Standard && StandardSound(inv)
    ensures InvoiceSound(invoices, inv) && inv.rectifies.None?
  {
  }

  // ---------- changes that leave the documents alone ----------

  /** The same invoices are out of the draft, and they bear the same numbers and dates. */
  ghost predicate NoneIssued(invoices: seq<Invoice>, invoices': seq<Invoice>) {
    && Extends(invoices, invoices')
    && (forall i :: 0 <= i < |invoices| && invoices[i].status == Draft ==> invoices'[i].status == Draft)
    && (forall i :: |invoices| <= i < |invoices'| ==> invoices'[i].status == Draft)
  }

  lemma NumbersStay(invoices: seq<Invoice>, invoices': seq<Invoice>, counters: map<NumberKey, nat>)
    requires NumbersSound(invoices, counters) && DatesFollowNumbers(invoices) && NoneIssued(invoices, invoices')
    ensures NumbersSound(invoices', counters) && DatesFollowNumbers(invoices')
  {
    assert forall i :: 0 <= i < |invoices'| && invoices'[i].status != Draft ==> i < |invoices| && Progress(invoices[i], invoices'[i]);
    forall key, n | 1 <= n < NextNumber(counters, key) ensures NumberTaken(invoices', key, n) {
      assert NumberTaken(invoices, key, n);
      var i :| 0 <= i < |invoices| && Numbered(invoices[i], key, n);
      assert Numbered(invoices'[i], key, n);
    }
    forall i, j | 0 <= i < |invoices'| && 0 <= j < |invoices'| && InOrder(invoices'[i], invoices'[j])
      ensures invoices'[i].issueDate <= invoices'[j].issueDate
    {
      assert InOrder(invoices[i], invoices[j]);
    }
  }

  lemma EntriesStay(invoices: seq<Invoice>, invoices': seq<Invoice>, entries: seq<Entry>)
    requires EntriesThere(invoices, entries) && NoneIssued(invoices, invoices')
    requires forall i :: 0 <= i < |invoices| ==> invoices'[i].status == invoices[i].status
    ensures EntriesThere(invoices', entries)
  {
  }

  /** An update that neither issues, rectifies nor voids. */
  lemma UpdateKeeps(o: Office, i: nat, inv: Invoice)
    requires OfficeInv(o) && i < |o.invoices| && Progress(o.invoices[i], inv) && inv.status == o.invoices[i].status
    requires inv.documentType == Standard ==> StandardSound(inv)
    ensures OfficeInv(o.(invoices := o.invoices[i := inv]))
  {
    hide Inv, DocumentsSound, NumbersSound, EntriesThere, DatesFollowNumbers, StandardSound, IssueNet;
    var invoices' := o.invoices[i := inv];
    assert Extends(o.invoices, invoices');
    UpdatedIsSound(o.invoices, i, inv);
    InvoicesUpdate(o.invoices, i, inv);
    DocumentsStay(o.ledger.accounts, o.invoices, invoices', o.ledger.entries);
    NumbersStay(o.invoices, invoices', o.counters);
    EntriesStay(o.invoices, invoices', o.ledger.entries);
    forall code ensures DocumentNet(o.ledger.accounts, o.ledger.entries, code) == Outstanding(invoices', code) {
      OutstandingUpdate(o.invoices, i, inv, code);
      if inv.status != Draft { SameNet(o.invoices[i], inv); }
    }
  }

  lemma UpdatedIsSound(invoices: seq<Invoice>, i: nat, inv: Invoice)
    requires InvoicesSound(invoices) && i < |invoices| && Progress(invoices[i], inv) && inv.status == invoices[i].status
    requires inv.documentType == Standard ==> StandardSound(inv)
    ensures InvoiceSound(invoices[i := inv], inv)
  {
    assert InvoiceSound(invoices, invoices[i]);
  }

  lemma AppendDraftKeeps(o: Office, inv: Invoice)
    requires OfficeInv(o) && inv.documentType == Standard && inv.status == Draft && StandardSound(inv)
    ensures OfficeInv(o.(invoices := o.invoices + [inv]))
  {
    hide Inv, DocumentsSound, NumbersSound, EntriesThere, DatesFollowNumbers, StandardSound, IssueNet;
    var invoices' := o.invoices + [inv];
    assert Extends(o.invoices, invoices');
    InvoicesAppendDraft(o.invoices, inv);
    DocumentsStay(o.ledger.accounts, o.invoices, invoices', o.ledger.entries);
    NumbersStay(o.invoices, invoices', o.counters);
    EntriesStay(o.invoices, invoices', o.ledger.entries);
    forall code ensures DocumentNet(o.ledger.accounts, o.ledger.entries, code) == Outstanding(invoices', code) {
      OutstandingSnoc(o.invoices, inv, code);
    }
  }

  // ---------- drafts ----------

  lemma MadeLineIsComputed(l: DraftLine)
    requires ValidInput(l.input)
    ensures Computed(MakeLine(l).calculated)
  {
    LineIsExact(l.input, CalculateLine(l.input));
    assert ComputedFrom(MakeLine(l).calculated, l.input);
  }

  lemma MadeLinesComputed(lines: seq<DraftLine>)
    requires ValidLines(lines)
    ensures LinesComputed(MakeLines(lines))
  {
    forall i | 0 <= i < |lines| ensures Computed(Calculated(MakeLines(lines))[i]) {
      MadeLineIsComputed(lines[i]);
    }
  }

  lemma LinesComputedSnoc(lines: seq<InvoiceLine>, l: InvoiceLine)
    requires LinesComputed(lines) && Computed(l.calculated)
    ensures LinesComputed(lines + [l])
  {
    var all := Calculated(lines + [l]);
    forall i | 0 <= i < |all| ensures Computed(all[i]) {
      if i < |lines| { assert all[i] == Calculated(lines)[i]; }
    }
  }

  lemma NewDraftIsSound(origin: InvoiceOrigin, customerCode: string, issueDate: int, lines: seq<InvoiceLine>, dueDate: int)
    requires LinesComputed(lines)
    ensures StandardSound(NewDraft(origin, customerCode, issueDate, lines, CalculateTotals(Calculated(lines)), dueDate))
  {
  }

  lemma CreateDraftKeeps(o: Office, customerCode: string, issueDate: int, dueDate: int)
    requires OfficeInv(o)
    ensures OfficeInv(CreateDraft(o, customerCode, issueDate, dueDate).0)
  {
    hide OfficeInv;
    assert Calculated([]) == [];
    assert LinesComputed([]);
    NewDraftIsSound(ByHand, customerCode, issueDate, [], dueDate);
    AppendDraftKeeps(o, NewDraft(ByHand, customerCode, issueDate, [], CalculateTotals([]), dueDate));
  }

  lemma CreateSubscriptionDraftKeeps(o: Office, customerCode: string, issueDate: int, lines: seq<DraftLine>, dueDate: int)
    requires OfficeInv(o)
    ensures OfficeInv(CreateSubscriptionDraft(o, customerCode, issueDate, lines, dueDate).0)
  {
    hide OfficeInv;
    if ValidLines(lines) {
      MadeLinesComputed(lines);
      NewDraftIsSound(Subscription, customerCode, issueDate, MakeLines(lines), dueDate);
      AppendDraftKeeps(o, NewDraft(Subscription, customerCode, issueDate, MakeLines(lines), CalculateTotals(Calculated(MakeLines(lines))), dueDate));
    }
  }

  lemma InvoiceIsSound(o: Office, i: nat)
    requires OfficeInv(o) && i < |o.invoices|
    ensures InvoiceSound(o.invoices, o.invoices[i])
  {
  }

  lemma AddLineKeeps(o: Office, i: nat, line: DraftLine)
    requires OfficeInv(o)
    ensures OfficeInv(AddLine(o, i, line).0)
  {
    hide OfficeInv;
    if ValidInput(line.input) && i < |o.invoices| && o.invoices[i].status == Draft {
      var inv := o.invoices[i];
      InvoiceIsSound(o, i);
      MadeLineIsComputed(line);
      LinesComputedSnoc(inv.lines, MakeLine(line));
      UpdateKeeps(o, i, Recalculate(inv.(lines := inv.lines + [MakeLine(line)])));
    }
  }

  lemma SingleDue(dues: seq<DueDate>)
    requires |dues| == 1
    ensures DueTotal(dues) == dues[0].amount
  {
    assert dues[..0] == [];
  }

  lemma ReplaceDueDatesKeeps(o: Office, i: nat, dues: seq<Due>)
    requires OfficeInv(o)
    ensures OfficeInv(ReplaceDueDates(o, i, dues).0)
  {
    hide OfficeInv;
    var (o', v) := ReplaceDueDates(o, i, dues);
    if v.Performed? {
      InvoiceIsSound(o, i);
      if |dues| == 1 { SingleDue(MakeDues(dues)); }
      UpdateKeeps(o, i, o.invoices[i].(dueDates := MakeDues(dues)));
    }
  }

  lemma EnvironmentKeeps(o: Office, i: nat, status: VerifactuStatus, payment: PaymentStatus, dues: seq<DueDate>)
    requires OfficeInv(o)
    ensures OfficeInv(SetVerifactu(o, i, status).0)
    ensures OfficeInv(Collect(o, i, payment, dues).0)
  {
    hide OfficeInv, LinesComputed, CalculateTotals;
    if i < |o.invoices| && o.invoices[i].status != Draft {
      InvoiceIsSound(o, i);
      UpdateKeeps(o, i, o.invoices[i].(verifactu := status));
      UpdateKeeps(o, i, o.invoices[i].(payment := payment, dueDates := dues));
    }
  }
}
