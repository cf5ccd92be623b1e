/**
 Issuing, rectifying and voiding keep the invariant of the office, and so does every other writer of
 the ledger.
 */
module BillingDocuments {
  import opened Ledger
  import opened Settlement
  import opened FiscalCycle
  import opened CycleInvariant
  import opened CycleSteps
  import opened CycleCloseKeeps
  import opened CycleReopenKeeps
  import opened CycleRuns
  import opened Calculations
  import opened Billing
  import opened BillingEntries
  import opened BillingInvariant
  import opened BillingSteps

  // ---------- numbers ----------

  /** A numbered invoice takes the next number of its series and year, and no date of the series is later. */
  ghost predicate NextInLine(invoices: seq<Invoice>, counters: map<NumberKey, nat>, inv: Invoice) {
    && inv.status != Draft
    && inv.number == Some(NextNumber(counters, KeyOf(inv)))
    && !ChronologyViolation(invoices, inv.series, inv.issueDate)
  }

  lemma NumbersAfterIssue(invoices: seq<Invoice>, i: nat, inv: Invoice, counters: map<NumberKey, nat>)
    requires NumbersSound(invoices, counters) && DatesFollowNumbers(invoices)
    requires i < |invoices| && invoices[i].status == Draft && NextInLine(invoices, counters, inv)
    requires inv.number.value >= 1
    ensures NumbersSound(invoices[i := inv], counters[KeyOf(inv) := inv.number.value + 1])
    ensures DatesFollowNumbers(invoices[i := inv])
  {
    var invoices' := invoices[i := inv];
    var key := KeyOf(inv);
    var counters' := counters[key := inv.number.value + 1];
    forall k, n | 1 <= n < NextNumber(counters', k) ensures NumberTaken(invoices', k, n) {
      if k == key && n == inv.number.value {
        assert Numbered(invoices'[i], k, n);
      } else {
        assert NumberTaken(invoices, k, n);
        var j :| 0 <= j < |invoices| && Numbered(invoices[j], k, n);
        assert Numbered(invoices'[j], k, n);
      }
    }
    forall a, b | 0 <= a < |invoices'| && 0 <= b < |invoices'| && InOrder(invoices'[a], invoices'[b])
      ensures invoices'[a].issueDate <= invoices'[b].issueDate
    {
      if a != i && b != i { assert InOrder(invoices[a], invoices[b]); }
    }
  }

  lemma NumbersAfterAppend(invoices: seq<Invoice>, inv: Invoice, counters: map<NumberKey, nat>)
    requires NumbersSound(invoices, counters) && DatesFollowNumbers(invoices)
    requires NextInLine(invoices, counters, inv) && inv.number.value >= 1
    ensures NumbersSound(invoices + [inv], counters[KeyOf(inv) := inv.number.value + 1])
    ensures DatesFollowNumbers(invoices + [inv])
  {
    var invoices' := invoices + [inv];
    var key := KeyOf(inv);
    var counters' := counters[key := inv.number.value + 1];
    forall k, n | 1 <= n < NextNumber(counters', k) ensures NumberTaken(invoices', k, n) {
      if k == key && n == inv.number.value {
        assert Numbered(invoices'[|invoices|], k, n);
      } else {
        assert NumberTaken(invoices, k, n);
        var j :| 0 <= j < |invoices| && Numbered(invoices[j], k, n);
        assert Numbered(invoices'[j], k, n);
      }
    }
    forall a, b | 0 <= a < |invoices'| && 0 <= b < |invoices'| && InOrder(invoices'[a], invoices'[b])
      ensures invoices'[a].issueDate <= invoices'[b].issueDate
    {
      if a < |invoices| && b < |invoices| { assert InOrder(invoices[a], invoices[b]); }
    }
  }

  /** Numbers start at one. */
  ghost predicate CountersPositive(counters: map<NumberKey, nat>) {
    forall k :: k in counters ==> counters[k] >= 1
  }

  // ---------- the ledger under a document entry ----------

  lemma DocumentPosts(s: State, y: nat, date: int, origin: Origin, reverses: Option<nat>, debit: int, credit: int, lines: seq<Line>)
    requires Inv(s) && OpenYearAt(s.years, date) == Some(y)
    requires LinesInYear(s.accounts, lines, y) && debit == DebitTotal(lines) && credit == CreditTotal(lines)
    requires IsDocument(origin)
    requires reverses.Some? ==> reverses.value < |s.entries| && !ReversedBy(s.entries, reverses.value)
                                && !IsAutomatic(s.entries[reverses.value].origin)
    ensures var e := NumberedEntry(s.entries, y, YearOf(date), date, origin, reverses, debit, credit, lines);
            TableAccepts(e) ==> Inv(s.(entries := s.entries + [e]))
  {
    hide Inv;
    InsertKeeps(s, y, date, origin, reverses, lines);
  }

  lemma EntriesAfterDocument(invoices: seq<Invoice>, invoices': seq<Invoice>, entries: seq<Entry>, e: Entry)
    requires EntriesThere(invoices, entries) && |invoices| <= |invoices'|
    requires forall i: nat :: i < |invoices'| && invoices'[i].status != Draft ==>
               (i < |invoices| && invoices[i].status != Draft) || e.origin == InvoiceEntry(i)
    requires forall i: nat :: i < |invoices'| && invoices'[i].status == Voided ==>
               (i < |invoices| && invoices[i].status == Voided) || e.origin == InvoiceVoiding(i)
    ensures EntriesThere(invoices', entries + [e])
  {
    var all := entries + [e];
    assert all[|entries|] == e;
    forall i: nat | i < |invoices'| && invoices'[i].status != Draft ensures HasEntry(all, InvoiceEntry(i)) {
      if e.origin != InvoiceEntry(i) {
        assert HasEntry(entries, InvoiceEntry(i));
        EntryInLonger(entries, all, InvoiceEntry(i));
      }
    }
    forall i: nat | i < |invoices'| && invoices'[i].status == Voided ensures HasEntry(all, InvoiceVoiding(i)) {
      if e.origin != InvoiceVoiding(i) {
        assert HasEntry(entries, InvoiceVoiding(i));
        EntryInLonger(entries, all, InvoiceVoiding(i));
      }
    }
  }

  lemma NoEarlierEntry(accounts: seq<Account>, invoices: seq<Invoice>, entries: seq<Entry>, origin: Origin)
    requires DocumentsSound(accounts, invoices, entries)
    requires match origin
             case InvoiceEntry(i) => i < |invoices| ==> invoices[i].status == Draft
             case InvoiceVoiding(i) => i < |invoices| ==> invoices[i].status != Voided
             case _ => false
    ensures !HasEntry(entries, origin)
  {
    hide NetsTo;
    forall k | 0 <= k < |entries| ensures entries[k].origin != origin {
      assert DocumentSound(accounts, invoices, entries[k]);
    }
  }

  // ---------- issuing ----------

  /** What an issued invoice looks like, and the entry it got. */
  ghost predicate IssueDone(o: Office, o': Office, i: nat, date: int, inv: Invoice, e: Entry, y: nat) {
    && i < |o.invoices| && o.invoices[i].status == Draft
    && OpenYearAt(o.ledger.years, date) == Some(y)
    && AccountsAvailable(o.ledger.accounts, y, o.invoices[i])
    && o.invoices[i].totals.taxed.total == LedgerTotal(o.invoices[i])
    && !ChronologyViolation(o.invoices, o.invoices[i].series, date)
    && inv == o.invoices[i].(status := Issued, verifactu := inv.verifactu,
                             number := Some(NextNumber(o.counters, NumberKey(o.invoices[i].series, YearOf(date)))), issueDate := date)
    && e == NumberedEntry(o.ledger.entries, y, YearOf(date), date, InvoiceEntry(i), None, o.invoices[i].totals.taxed.total, LedgerTotal(o.invoices[i]),
                          IssueLines(o.ledger.accounts, y, o.invoices[i]))
    && TableAccepts(e)
    && o' == Office(o.ledger.(entries := o.ledger.entries + [e]), o.invoices[i := inv], o.counters[KeyOf(inv) := inv.number.value + 1])
  }

  lemma IssueShape(o: Office, i: nat, origin: InvoiceOrigin, date: int, verifactu: bool, prepared: bool) returns (inv: Invoice, e: Entry, y: nat)
    ensures var (o', v) := Issue(o, i, origin, date, verifactu, prepared);
            (v.Performed? ==> IssueDone(o, o', i, date, inv, e, y)) && (!v.Performed? ==> o' == o)
  {
    hide TableAccepts, AccountsAvailable, ChronologyViolation, IssueLines, LedgerTotal;
    var (o', v) := Issue(o, i, origin, date, verifactu, prepared);
    if v.Performed? {
      inv, e := o'.invoices[i], o'.ledger.entries[|o.ledger.entries|];
      y := OpenYearAt(o.ledger.years, date).value;
    } else {
      inv, e, y := *, *, 0;
    }
  }

  lemma DraftPostings(o: Office, i: nat, y: nat)
    requires OfficeInv(o) && i < |o.invoices| && o.invoices[i].documentType == Standard
    requires AccountsAvailable(o.ledger.accounts, y, o.invoices[i])
    ensures Postings(o.ledger.accounts, y, o.invoices[i]) && o.invoices[i].totals.taxed.total == LedgerTotal(o.invoices[i])
  {
    InvoiceIsSound(o, i);
    RecalculatedBalances(o.invoices[i]);
  }

  lemma DraftIsStandard(o: Office, i: nat)
    requires OfficeInv(o) && i < |o.invoices| && o.invoices[i].status == Draft
    ensures o.invoices[i].documentType == Standard && StandardSound(o.invoices[i])
  {
    InvoiceIsSound(o, i);
  }

  lemma IssueKeepsLedger(o: Office, o': Office, i: nat, date: int, inv: Invoice, e: Entry, y: nat)
    requires OfficeInv(o) && IssueDone(o, o', i, date, inv, e, y)
    ensures Inv(o'.ledger)
    ensures NetsTo(o.ledger.accounts, e.lines, inv, 1) && inv.totals.taxed.total > 0
  {
    DraftIsStandard(o, i);
    DraftPostings(o, i, y);
    assert Inv(o.ledger);
    hide OfficeInv, Inv, IssueLines, AllOneSided, LinesInYear;
    IssueLinesFacts(o.ledger.accounts, y, o.invoices[i], "");
    DocumentPosts(o.ledger, y, date, InvoiceEntry(i), None, e.totalDebit, e.totalCredit, e.lines);
    SameNet(o.invoices[i], inv);
    forall code ensures CodeNet(o.ledger.accounts, e.lines, code) == 1 * IssueNet(inv, code) {
      IssueLinesFacts(o.ledger.accounts, y, o.invoices[i], code);
    }
  }

  lemma IssueDocuments(o: Office, i: nat, inv: Invoice, e: Entry)
    requires InvoicesSound(o.invoices) && DocumentsSound(o.ledger.accounts, o.invoices, o.ledger.entries)
    requires i < |o.invoices| && o.invoices[i].status == Draft && o.invoices[i].documentType == Standard && StandardSound(o.invoices[i])
    requires inv == o.invoices[i].(status := Issued, verifactu := inv.verifactu, number := inv.number, issueDate := inv.issueDate)
    requires inv.number.Some? && inv.totals.taxed.total > 0
    requires e.origin == InvoiceEntry(i) && NetsTo(o.ledger.accounts, e.lines, inv, 1)
    ensures InvoicesSound(o.invoices[i := inv])
    ensures DocumentsSound(o.ledger.accounts, o.invoices[i := inv], o.ledger.entries + [e])
  {
    hide IssueNet, CodeNet, LinesComputed, NetsTo;
    var accounts, entries, invoices' := o.ledger.accounts, o.ledger.entries, o.invoices[i := inv];
    assert Extends(o.invoices, invoices');
    InvoicesUpdate(o.invoices, i, inv);
    DocumentsStay(accounts, o.invoices, invoices', entries);
    NoEarlierEntry(accounts, o.invoices, entries, InvoiceEntry(i));
    assert DocumentSound(accounts, invoices', e);
    DocumentsAppend(accounts, invoices', entries, e);
  }

  lemma IssueDoneKeeps(o: Office, o': Office, i: nat, date: int, inv: Invoice, e: Entry, y: nat)
    requires OfficeInv(o) && CountersPositive(o.counters) && IssueDone(o, o', i, date, inv, e, y)
    ensures OfficeInv(o') && CountersPositive(o'.counters)
  {
    hide Inv, IssueLines, AllOneSided, LinesInYear, AccountsAvailable, TableAccepts, LinesComputed, IssueNet, CodeNet, InvoicesSound, DocumentsSound,
      NetsTo, StandardSound, LedgerTotal, EntriesThere, SubLedgerAgrees, NumbersSound, DatesFollowNumbers, ChronologyViolation, OpenYearAt;
    IssueKeepsLedger(o, o', i, date, inv, e, y);
    DraftIsStandard(o, i);
    IssueDocuments(o, i, inv, e);
    EntriesAfterDocument(o.invoices, o'.invoices, o.ledger.entries, e);
    NumbersAfterIssue(o.invoices, i, inv, o.counters);
    OutstandingAfterUpdate(o.invoices, i, inv, 1);
    SubLedgerAfter(o, o', e, inv, 1);
  }

  /** An entry that nets to `sign` times the invoice matches the change in what is outstanding. */
  lemma SubLedgerAfter(o: Office, o': Office, e: Entry, inv: Invoice, sign: int)
    requires SubLedgerAgrees(o.ledger.accounts, o.invoices, o.ledger.entries)
    requires o'.ledger.accounts == o.ledger.accounts && o'.ledger.entries == o.ledger.entries + [e]
    requires IsDocument(e.origin) && NetsTo(o.ledger.accounts, e.lines, inv, sign)
    requires forall code :: Outstanding(o'.invoices, code) == Outstanding(o.invoices, code) + sign * IssueNet(inv, code)
    ensures SubLedgerAgrees(o'.ledger.accounts, o'.invoices, o'.ledger.entries)
  {
    hide IssueNet, CodeNet, Outstanding;
    forall code ensures DocumentNet(o'.ledger.accounts, o'.ledger.entries, code) == Outstanding(o'.invoices, code) {
      DocumentSnoc(o.ledger.accounts, o.ledger.entries, e, code);
      assert CodeNet(o.ledger.accounts, e.lines, code) == sign * IssueNet(inv, code);
      assert DocumentNet(o.ledger.accounts, o.ledger.entries, code) == Outstanding(o.invoices, code);
    }
  }

  /** An invoice starts to be outstanding (`sign` 1) or stops (`sign` -1). */
  lemma OutstandingAfterUpdate(invoices: seq<Invoice>, i: nat, inv: Invoice, sign: int)
    requires i < |invoices|
    requires forall code :: sign * IssueNet(inv, code) == Contribution(inv, code) - Contribution(invoices[i], code)
    ensures forall code :: Outstanding(invoices[i := inv], code) == Outstanding(invoices, code) + sign * IssueNet(inv, code)
  {
    hide IssueNet, Outstanding, Contribution;
    forall code ensures Outstanding(invoices[i := inv], code) == Outstanding(invoices, code) + sign * IssueNet(inv, code) {
      OutstandingUpdate(invoices, i, inv, code);
    }
  }

  // ---------- rectifying ----------

  ghost predicate RectifyDone(o: Office, o': Office, i: nat, date: int, inv: Invoice, r: Invoice, e: Entry, y: nat) {
    && i < |o.invoices| && o.invoices[i].documentType == Standard && o.invoices[i].status == Issued
    && !IsRectified(o.invoices, i)
    && OpenYearAt(o.ledger.years, date) == Some(y)
    && AccountsAvailable(o.ledger.accounts, y, o.invoices[i])
    && !ChronologyViolation(o.invoices, "R", date)
    && inv == AfterRectification(o.invoices[i])
    && r.number == Some(NextNumber(o.counters, NumberKey("R", YearOf(date))))
    && r == RectificationOf(i, o.invoices[i], date, r.verifactu == Preparing, r.number.value)
    && e == NumberedEntry(o.ledger.entries, y, YearOf(date), date, InvoiceEntry(|o.invoices|), None, LedgerTotal(o.invoices[i]), o.invoices[i].totals.taxed.total,
                          RectifyLines(o.ledger.accounts, y, o.invoices[i]))
    && TableAccepts(e)
    && o' == Office(o.ledger.(entries := o.ledger.entries + [e]), o.invoices[i := inv] + [r], o.counters[KeyOf(r) := r.number.value + 1])
  }

  lemma RectifyShape(o: Office, i: nat, date: int, verifactu: bool, evidence: bool, prepared: bool)
    returns (inv: Invoice, r: Invoice, e: Entry, y: nat)
    ensures var (o', v) := Rectify(o, i, date, verifactu, evidence, prepared);
            (v.Performed? ==> RectifyDone(o, o', i, date, inv, r, e, y)) && (!v.Performed? ==> o' == o)
  {
    hide TableAccepts, AccountsAvailable, ChronologyViolation, RectifyLines, LedgerTotal, IsRectified, CleanUnpaid, CleanPaid, VerifactuAllows, AfterRectification;
    var (o', v) := Rectify(o, i, date, verifactu, evidence, prepared);
    if v.Performed? {
      inv, r, e := o'.invoices[i], o'.invoices[|o.invoices|], o'.ledger.entries[|o.ledger.entries|];
      y := OpenYearAt(o.ledger.years, date).value;
    } else {
      inv, r, e, y := *, *, *, 0;
    }
  }

  lemma RectifyKeepsLedger(o: Office, o': Office, i: nat, date: int, inv: Invoice, r: Invoice, e: Entry, y: nat)
    requires OfficeInv(o) && RectifyDone(o, o', i, date, inv, r, e, y)
    ensures Inv(o'.ledger)
    ensures NetsTo(o.ledger.accounts, e.lines, inv, -1)
  {
    DraftPostings(o, i, y);
    assert Inv(o.ledger);
    hide OfficeInv, Inv, RectifyLines, AllOneSided, LinesInYear;
    RectifyLinesFacts(o.ledger.accounts, y, o.invoices[i], "");
    DocumentPosts(o.ledger, y, date, InvoiceEntry(|o.invoices|), None, e.totalDebit, e.totalCredit, e.lines);
    SameNet(o.invoices[i], inv);
    forall code ensures CodeNet(o.ledger.accounts, e.lines, code) == -1 * IssueNet(inv, code) {
      RectifyLinesFacts(o.ledger.accounts, y, o.invoices[i], code);
    }
  }

  lemma InvoicesAfterRectify(invoices: seq<Invoice>, i: nat, inv: Invoice, r: Invoice)
    requires InvoicesSound(invoices) && i < |invoices| && invoices[i].documentType == Standard && invoices[i].status == Issued
    requires !IsRectified(invoices, i)
    requires inv == AfterRectification(invoices[i])
    requires r.documentType == Rectification && r.status == Issued && r.number.Some? && r.series == "R" && r.rectifies == Some(i)
             && r.totals == Negated(invoices[i].totals) && Opposes(r, invoices[i])
    ensures Extends(invoices, invoices[i := inv] + [r])
    ensures InvoicesSound(invoices[i := inv] + [r])
  {
    hide InvoiceSound, CleanUnpaid;
    var invoices' := invoices[i := inv] + [r];
    assert Progress(invoices[i], inv);
    assert Extends(invoices, invoices');
    assert InvoiceSound(invoices, invoices[i]);
    RectifiedIsSound(invoices, invoices', i, inv, r);
    forall j | 0 <= j < |invoices'| ensures InvoiceSound(invoices', invoices'[j]) {
      if j < |invoices| && j != i {
        assert InvoiceSound(invoices, invoices[j]);
        InvoiceStays(invoices, invoices', invoices[j]);
      }
    }
    forall j: nat | j < |invoices'| && invoices'[j].status == Rectified ensures IsRectified(invoices', j) {
      if j == i {
        assert invoices'[|invoices|].rectifies == Some(j);
      } else {
        assert IsRectified(invoices, j);
        var k :| 0 <= k < |invoices| && invoices[k].rectifies == Some(j);
        assert invoices'[k].rectifies == Some(j);
      }
    }
    forall a, b | 0 <= a < b < |invoices'| && invoices'[a].rectifies.Some? ensures invoices'[a].rectifies != invoices'[b].rectifies {
      assert invoices'[a].rectifies == invoices[a].rectifies;
    }
  }

  lemma RectifiedIsSound(invoices: seq<Invoice>, invoices': seq<Invoice>, i: nat, inv: Invoice, r: Invoice)
    requires i < |invoices| < |invoices'| && invoices[i].documentType == Standard && InvoiceSound(invoices, invoices[i])
    requires invoices[i].status == Issued
    requires inv == AfterRectification(invoices[i]) && invoices'[i] == inv
    requires r.documentType == Rectification && r.status == Issued && r.number.Some? && r.series == "R" && r.rectifies == Some(i)
             && r.totals == Negated(invoices[i].totals) && Opposes(r, invoices[i])
    ensures InvoiceSound(invoices', inv) && InvoiceSound(invoices', r)
  {
  }

  lemma RectifyDocuments(o: Office, i: nat, inv: Invoice, r: Invoice, e: Entry)
    requires InvoicesSound(o.invoices) && DocumentsSound(o.ledger.accounts, o.invoices, o.ledger.entries)
    requires i < |o.invoices| && o.invoices[i].documentType == Standard && o.invoices[i].status == Issued && !IsRectified(o.invoices, i)
    requires inv == AfterRectification(o.invoices[i])
    requires r.documentType == Rectification && r.status == Issued && r.number.Some? && r.series == "R" && r.rectifies == Some(i)
             && r.totals == Negated(o.invoices[i].totals) && Opposes(r, o.invoices[i])
    requires e.origin == InvoiceEntry(|o.invoices|) && NetsTo(o.ledger.accounts, e.lines, inv, -1)
    ensures InvoicesSound(o.invoices[i := inv] + [r])
    ensures DocumentsSound(o.ledger.accounts, o.invoices[i := inv] + [r], o.ledger.entries + [e])
  {
    hide IssueNet, CodeNet, LinesComputed, NetsTo, CleanUnpaid, IsRectified;
    var accounts, entries, invoices' := o.ledger.accounts, o.ledger.entries, o.invoices[i := inv] + [r];
    InvoicesAfterRectify(o.invoices, i, inv, r);
    hide InvoicesSound;
    DocumentsStay(accounts, o.invoices, invoices', entries);
    NoEarlierEntry(accounts, o.invoices, entries, InvoiceEntry(|o.invoices|));
    assert DocumentSound(accounts, invoices', e);
    DocumentsAppend(accounts, invoices', entries, e);
  }

  lemma RectifyDoneKeeps(o: Office, o': Office, i: nat, date: int, inv: Invoice, r: Invoice, e: Entry, y: nat)
    requires OfficeInv(o) && CountersPositive(o.counters) && RectifyDone(o, o', i, date, inv, r, e, y)
    ensures OfficeInv(o') && CountersPositive(o'.counters)
  {
    hide Inv, RectifyLines, AllOneSided, LinesInYear, AccountsAvailable, TableAccepts, LinesComputed, IssueNet, CodeNet, CleanUnpaid,
      InvoicesSound, DocumentsSound, NetsTo, LedgerTotal, IsRectified, EntriesThere, SubLedgerAgrees, NumbersSound, DatesFollowNumbers, ChronologyViolation, OpenYearAt;
    RectifyKeepsLedger(o, o', i, date, inv, r, e, y);
    RectifyDocuments(o, i, inv, r, e);
    EntriesAfterDocument(o.invoices, o'.invoices, o.ledger.entries, e);
    RectifyNumbers(o, i, inv, r);
    OutstandingAfterRectify(o.invoices, i, inv, r);
    SubLedgerAfter(o, o', e, inv, -1);
  }

  lemma RectifyNumbers(o: Office, i: nat, inv: Invoice, r: Invoice)
    requires NumbersSound(o.invoices, o.counters) && DatesFollowNumbers(o.invoices) && CountersPositive(o.counters)
    requires i < |o.invoices| && o.invoices[i].status == Issued && inv == AfterRectification(o.invoices[i])
    requires NextInLine(o.invoices, o.counters, r)
    ensures NumbersSound(o.invoices[i := inv] + [r], o.counters[KeyOf(r) := r.number.value + 1])
    ensures DatesFollowNumbers(o.invoices[i := inv] + [r])
  {
    hide CleanUnpaid;
    assert Progress(o.invoices[i], inv);
    assert Extends(o.invoices, o.invoices[i := inv]);
    NumbersStay(o.invoices, o.invoices[i := inv], o.counters);
    NumbersAfterAppend(o.invoices[i := inv], r, o.counters);
  }

  lemma OutstandingAfterRectify(invoices: seq<Invoice>, i: nat, inv: Invoice, r: Invoice)
    requires i < |invoices| && invoices[i].documentType == Standard && invoices[i].status == Issued
    requires inv == AfterRectification(invoices[i]) && r.documentType == Rectification
    ensures forall code :: Outstanding(invoices[i := inv] + [r], code) == Outstanding(invoices, code) + -1 * IssueNet(inv, code)
  {
    hide CleanUnpaid, IssueNet;
    SameNet(invoices[i], inv);
    forall code ensures Outstanding(invoices[i := inv] + [r], code) == Outstanding(invoices, code) + -1 * IssueNet(inv, code) {
      OutstandingUpdate(invoices, i, inv, code);
      OutstandingSnoc(invoices[i := inv], r, code);
    }
  }

  // ---------- voiding ----------

  ghost predicate VoidDone(o: Office, o': Office, i: nat, date: int, inv: Invoice, x: nat, e: Entry) {
    && i < |o.invoices| && o.invoices[i].documentType == Standard && o.invoices[i].status == Issued
    && x < |o.ledger.entries| && o.ledger.entries[x].origin == InvoiceEntry(i) && !ReversedBy(o.ledger.entries, x)
    && VoidDateAllowed(o.ledger, o.ledger.entries[x].fiscalYear, o.invoices[i].issueDate, date)
    && inv == o.invoices[i].(status := Voided, payment := PaymentCancelled, dueDates := inv.dueDates)
    && var original := o.ledger.entries[x];
    && e == NumberedEntry(o.ledger.entries, original.fiscalYear, YearOf(date), date, InvoiceVoiding(i), Some(x), original.totalCredit, original.totalDebit, Mirror(original.lines))
    && TableAccepts(e)
    && o' == Office(o.ledger.(entries := o.ledger.entries + [e]), o.invoices[i := inv], o.counters)
  }

  lemma VoidShape(o: Office, i: nat, date: int, evidence: bool) returns (inv: Invoice, x: nat, e: Entry)
    ensures var (o', v) := Void(o, i, date, evidence);
            (v.Performed? ==> VoidDone(o, o', i, date, inv, x, e)) && (!v.Performed? ==> o' == o)
  {
    hide TableAccepts, VoidDateAllowed, IsRectified, HasActivity, ReversedBy;
    var (o', v) := Void(o, i, date, evidence);
    if v.Performed? {
      x := FindEntry(o.ledger.entries, InvoiceEntry(i)).value;
      inv, e := o'.invoices[i], o'.ledger.entries[|o.ledger.entries|];
    } else {
      inv, x, e := *, 0, *;
    }
  }

  lemma VoidKeepsLedger(o: Office, o': Office, i: nat, date: int, inv: Invoice, x: nat, e: Entry)
    requires OfficeInv(o) && VoidDone(o, o', i, date, inv, x, e)
    ensures Inv(o'.ledger)
    ensures NetsTo(o.ledger.accounts, e.lines, inv, -1)
  {
    var s, original := o.ledger, o.ledger.entries[x];
    assert Inv(s) && EntrySound(s.years, s.accounts, original);
    assert DocumentSound(s.accounts, o.invoices, original);
    hide OfficeInv;
    DateFindsYear(s, original.fiscalYear, date);
    MirrorNegates(original.lines);
    MirrorInYear(s.accounts, original.lines, original.fiscalYear);
    hide Inv, IssueNet, CodeNet;
    DocumentPosts(s, original.fiscalYear, date, InvoiceVoiding(i), Some(x), e.totalDebit, e.totalCredit, e.lines);
    SameNet(o.invoices[i], inv);
    forall code ensures CodeNet(s.accounts, e.lines, code) == -1 * IssueNet(inv, code) {
      MirrorNegatesCodes(s.accounts, original.lines, code);
      assert CodeNet(s.accounts, original.lines, code) == 1 * IssueNet(o.invoices[i], code);
    }
  }

  lemma MirrorInYear(accounts: seq<Account>, lines: seq<Line>, y: nat)
    requires LinesInYear(accounts, lines, y)
    ensures LinesInYear(accounts, Mirror(lines), y)
  {
  }

  lemma VoidDocuments(o: Office, i: nat, inv: Invoice, e: Entry)
    requires InvoicesSound(o.invoices) && DocumentsSound(o.ledger.accounts, o.invoices, o.ledger.entries)
    requires i < |o.invoices| && o.invoices[i].documentType == Standard && o.invoices[i].status == Issued
    requires inv == o.invoices[i].(status := Voided, payment := PaymentCancelled, dueDates := inv.dueDates)
    requires e.origin == InvoiceVoiding(i) && NetsTo(o.ledger.accounts, e.lines, inv, -1)
    ensures InvoicesSound(o.invoices[i := inv])
    ensures DocumentsSound(o.ledger.accounts, o.invoices[i := inv], o.ledger.entries + [e])
  {
    hide IssueNet, CodeNet, LinesComputed, NetsTo;
    var accounts, entries, invoices' := o.ledger.accounts, o.ledger.entries, o.invoices[i := inv];
    assert InvoiceSound(o.invoices, o.invoices[i]);
    assert Extends(o.invoices, invoices');
    InvoicesUpdate(o.invoices, i, inv);
    DocumentsStay(accounts, o.invoices, invoices', entries);
    NoEarlierEntry(accounts, o.invoices, entries, InvoiceVoiding(i));
    assert DocumentSound(accounts, invoices', e);
    DocumentsAppend(accounts, invoices', entries, e);
  }

  lemma VoidDoneKeeps(o: Office, o': Office, i: nat, date: int, inv: Invoice, x: nat, e: Entry)
    requires OfficeInv(o) && VoidDone(o, o', i, date, inv, x, e)
    ensures OfficeInv(o')
  {
    hide Inv, TableAccepts, LinesComputed, IssueNet, CodeNet, VoidDateAllowed, ReversedBy, InvoicesSound, DocumentsSound, SubLedgerAgrees, NetsTo,
      StandardSound, EntriesThere, NumbersSound, DatesFollowNumbers;
    VoidKeepsLedger(o, o', i, date, inv, x, e);
    InvoiceIsSound(o, i);
    VoidDocuments(o, i, inv, e);
    var accounts, entries := o.ledger.accounts, o.ledger.entries;
    assert Extends(o.invoices, o'.invoices);
    EntriesAfterDocument(o.invoices, o'.invoices, entries, e);
    NumbersStay(o.invoices, o'.invoices, o.counters);
    SameNet(o.invoices[i], inv);
    OutstandingAfterUpdate(o.invoices, i, inv, -1);
    SubLedgerAfter(o, o', e, inv, -1);
  }

  // ---------- the other writers ----------

  lemma ClosureNoDocuments(s: State, y: nat)
    requires y < |s.years|
    ensures PostClosure(s, y).Closure? ==> s.entries <= PostClosure(s, y).entries && NoDocuments(PostClosure(s, y).entries, |s.entries|)
  {
    hide RegularizationLines, ClosingEntryLines, OpeningEntryLines, PostAutomatic;
    forall entries: seq<Entry>, k: nat, year: int, date: int, origin: Origin, lines: seq<Line> | IsAutomatic(origin)
      ensures PostAutomatic(entries, k, year, date, origin, lines).Posted? ==>
                entries <= PostAutomatic(entries, k, year, date, origin, lines).entries
                && NoDocuments(PostAutomatic(entries, k, year, date, origin, lines).entries, |entries|)
    {
      AutomaticNoDocument(entries, k, year, date, origin, lines);
    }
  }

  lemma AutomaticNoDocument(entries: seq<Entry>, y: nat, year: int, date: int, origin: Origin, lines: seq<Line>)
    requires IsAutomatic(origin)
    ensures var p := PostAutomatic(entries, y, year, date, origin, lines);
            p.Posted? ==> entries <= p.entries && NoDocuments(p.entries, |entries|)
  {
    hide TableAccepts;
  }

  lemma ReversalsNoDocuments(entries: seq<Entry>, c: CloseRequest)
    ensures PostReversals(entries, c).Closure? ==> NoDocuments(PostReversals(entries, c).entries, |entries|)
  {
    hide TableAccepts;
  }

  lemma ApprovalsNoDocuments(s: State, q: nat, now: int, ctx: Context, outside: OutsideJournal, business: nat)
    ensures NoDocuments(ApproveClose(s, q, now, ctx, outside).0.entries, |s.entries|)
    ensures NoDocuments(ApproveReopen(s, q, now, ctx, business).0.entries, |s.entries|)
  {
    hide ApproveClose, ApproveReopen, PostClosure, PostReversals, ReopenReady;
    ApproveCloseShape(s, q, now, ctx, outside);
    if q < |s.closes| && s.closes[q].fiscalYear < |s.years| {
      ClosureNoDocuments(s, s.closes[q].fiscalYear);
    }
    ApproveReopenShape(s, q, now, ctx, business);
    var t := Refreshed(s, now);
    if q < |t.reopens| && t.reopens[q].close < |t.closes| {
      ReversalsNoDocuments(t.entries, t.closes[t.reopens[q].close]);
    }
  }

  lemma OthersNoDocuments(plan: seq<PlanAccount>, s: State, c: Command)
    requires !c.CmdApproveClose? && !c.CmdApproveReopen? && (c.CmdPost? ==> !IsDocument(c.origin))
    ensures NoDocuments(Step(plan, s, c).0.entries, |s.entries|)
  {
    hide CloseReady, ReopenReady, NextYearTaken, ExpireStale, TableAccepts, MayPost, LinesInYear, HasSide;
  }

  lemma LedgerKeeps(plan: seq<PlanAccount>, o: Office, c: Command)
    requires OfficeInv(o) && ValidPlan(plan) && (c.CmdPost? ==> !IsDocument(c.origin))
    ensures OfficeInv(o.(ledger := Step(plan, o.ledger, c).0))
  {
    hide *;
    var s, s' := o.ledger, Step(plan, o.ledger, c).0;
    OfficeParts(o);
    StepKeeps(plan, s, c);
    StepGrows(plan, s, c);
    StepNoDocuments(plan, s, c);
    DocumentsUnderLedger(o, s');
    LedgerReplaced(o, s');
  }

  lemma OfficeParts(o: Office)
    requires OfficeInv(o)
    ensures Inv(o.ledger) && JournalSound(o.ledger.years, o.ledger.accounts, o.ledger.entries)
    ensures DocumentsSound(o.ledger.accounts, o.invoices, o.ledger.entries) && EntriesThere(o.invoices, o.ledger.entries)
    ensures SubLedgerAgrees(o.ledger.accounts, o.invoices, o.ledger.entries)
  {
  }

  lemma LedgerReplaced(o: Office, s': State)
    requires OfficeInv(o) && Inv(s')
    requires DocumentsSound(s'.accounts, o.invoices, s'.entries) && EntriesThere(o.invoices, s'.entries)
    requires SubLedgerAgrees(s'.accounts, o.invoices, s'.entries)
    ensures OfficeInv(o.(ledger := s'))
  {
    hide Inv, DocumentsSound, EntriesThere, SubLedgerAgrees, InvoicesSound, NumbersSound, DatesFollowNumbers;
  }

  lemma StepNoDocuments(plan: seq<PlanAccount>, s: State, c: Command)
    requires c.CmdPost? ==> !IsDocument(c.origin)
    ensures NoDocuments(Step(plan, s, c).0.entries, |s.entries|)
  {
    hide Step;
    match c
    case CmdApproveClose(q, now, ctx, outside) => StepIsApproval(plan, s, c); ApprovalsNoDocuments(s, q, now, ctx, outside, 0);
    case CmdApproveReopen(q, now, ctx, business) =>
      StepIsApproval(plan, s, c);
      ApprovalsNoDocuments(s, q, now, ctx, OutsideJournal(0, 0, 0, 0, 0, 0, 0), business);
    case _ => OthersNoDocuments(plan, s, c);
  }

  lemma StepIsApproval(plan: seq<PlanAccount>, s: State, c: Command)
    ensures c.CmdApproveClose? ==> Step(plan, s, c) == ApproveClose(s, c.request, c.now, c.ctx, c.outside)
    ensures c.CmdApproveReopen? ==> Step(plan, s, c) == ApproveReopen(s, c.request, c.now, c.ctx, c.business)
  {
  }

  lemma DocumentsUnderLedger(o: Office, s': State)
    requires JournalSound(o.ledger.years, o.ledger.accounts, o.ledger.entries)
    requires Grows(o.ledger, s') && NoDocuments(s'.entries, |o.ledger.entries|)
    requires DocumentsSound(o.ledger.accounts, o.invoices, o.ledger.entries)
    requires EntriesThere(o.invoices, o.ledger.entries)
    requires SubLedgerAgrees(o.ledger.accounts, o.invoices, o.ledger.entries)
    ensures DocumentsSound(s'.accounts, o.invoices, s'.entries)
    ensures EntriesThere(o.invoices, s'.entries)
    ensures SubLedgerAgrees(s'.accounts, o.invoices, s'.entries)
  {
    var s := o.ledger;
    forall k | 0 <= k < |s'.entries| ensures DocumentSound(s'.accounts, o.invoices, s'.entries[k]) {
      if k < |s.entries| {
        assert DocumentSound(s.accounts, o.invoices, s.entries[k]);
        DocumentUnderAccounts(s, s'.accounts, o.invoices, k);
      }
    }
    forall j, k | 0 <= j < k < |s'.entries| && IsDocument(s'.entries[j].origin) ensures s'.entries[j].origin != s'.entries[k].origin {
      if k < |s.entries| { assert s'.entries[k] == s.entries[k] && s'.entries[j] == s.entries[j]; }
    }
    forall i: nat | i < |o.invoices| && o.invoices[i].status != Draft ensures HasEntry(s'.entries, InvoiceEntry(i)) {
      assert HasEntry(s.entries, InvoiceEntry(i));
      EntryInLonger(s.entries, s'.entries, InvoiceEntry(i));
    }
    forall i: nat | i < |o.invoices| && o.invoices[i].status == Voided ensures HasEntry(s'.entries, InvoiceVoiding(i)) {
      assert HasEntry(s.entries, InvoiceVoiding(i));
      EntryInLonger(s.entries, s'.entries, InvoiceVoiding(i));
    }
    forall code ensures DocumentNet(s'.accounts, s'.entries, code) == Outstanding(o.invoices, code) {
      DocumentNetStays(s.years, s.accounts, s'.accounts, s.entries, s'.entries, code);
    }
  }

  lemma DocumentUnderAccounts(s: State, accounts': seq<Account>, invoices: seq<Invoice>, k: nat)
    requires JournalSound(s.years, s.accounts, s.entries) && SameAccounts(s.accounts, accounts') && k < |s.entries|
    requires DocumentSound(s.accounts, invoices, s.entries[k])
    ensures DocumentSound(accounts', invoices, s.entries[k])
  {
    var lines := s.entries[k].lines;
    assert EntrySound(s.years, s.accounts, s.entries[k]);
    hide IssueNet, CodeNet;
    forall code ensures CodeNet(accounts', lines, code) == CodeNet(s.accounts, lines, code) {
      CodesStay(s.accounts, accounts', lines, code);
    }
  }

  // ---------- every action ----------

  lemma IssueKeeps(o: Office, i: nat, origin: InvoiceOrigin, date: int, verifactu: bool, prepared: bool)
    requires OfficeInv(o) && CountersPositive(o.counters)
    ensures var o' := Issue(o, i, origin, date, verifactu, prepared).0; OfficeInv(o') && CountersPositive(o'.counters)
  {
    hide OfficeInv, Issue, IssueDone;
    var inv, e, y := IssueShape(o, i, origin, date, verifactu, prepared);
    if Issue(o, i, origin, date, verifactu, prepared).1.Performed? {
      IssueDoneKeeps(o, Issue(o, i, origin, date, verifactu, prepared).0, i, date, inv, e, y);
    }
  }

  lemma RectifyKeeps(o: Office, i: nat, date: int, verifactu: bool, evidence: bool, prepared: bool)
    requires OfficeInv(o) && CountersPositive(o.counters)
    ensures var o' := Rectify(o, i, date, verifactu, evidence, prepared).0; OfficeInv(o') && CountersPositive(o'.counters)
  {
    hide OfficeInv, Rectify, RectifyDone;
    var inv, r, e, y := RectifyShape(o, i, date, verifactu, evidence, prepared);
    if Rectify(o, i, date, verifactu, evidence, prepared).1.Performed? {
      RectifyDoneKeeps(o, Rectify(o, i, date, verifactu, evidence, prepared).0, i, date, inv, r, e, y);
    }
  }

  lemma VoidKeeps(o: Office, i: nat, date: int, evidence: bool)
    requires OfficeInv(o)
    ensures OfficeInv(Void(o, i, date, evidence).0) && Void(o, i, date, evidence).0.counters == o.counters
  {
    hide OfficeInv, Void;
    var inv, x, e := VoidShape(o, i, date, evidence);
    if Void(o, i, date, evidence).1.Performed? {
      VoidDoneKeeps(o, Void(o, i, date, evidence).0, i, date, inv, x, e);
    }
  }

  lemma ActKeeps(plan: seq<PlanAccount>, o: Office, a: Action)
    requires OfficeInv(o) && CountersPositive(o.counters) && ValidPlan(plan)
    ensures var o' := Act(plan, o, a).0; OfficeInv(o') && CountersPositive(o'.counters)
  {
    hide OfficeInv, Issue, Rectify, Void, Step, ValidPlan, CountersPositive;
    match a
    case DoDraft(code, date, due) => CreateDraftKeeps(o, code, date, due);
    case DoSubscription(code, date, lines, due) => CreateSubscriptionDraftKeeps(o, code, date, lines, due);
    case DoAddLine(i, line) => AddLineKeeps(o, i, line);
    case DoDueDates(i, dues) => ReplaceDueDatesKeeps(o, i, dues);
    case DoIssue(i, origin, date, verifactu, prepared) => IssueKeeps(o, i, origin, date, verifactu, prepared);
    case DoRectify(i, date, verifactu, evidence, prepared) => RectifyKeeps(o, i, date, verifactu, evidence, prepared);
    case DoVoid(i, date, evidence) => VoidKeeps(o, i, date, evidence);
    case DoVerifactu(i, status) => EnvironmentKeeps(o, i, status, Pending, []);
    case DoCollect(i, payment, dues) => EnvironmentKeeps(o, i, NotSent, payment, dues);
    case DoLedger(c) =>
      if !(c.CmdPost? && IsDocument(c.origin)) { LedgerKeeps(plan, o, c); }
  }

  /** The invariant of the office holds after every run. */
  lemma {:induction false} ActsKeep(plan: seq<PlanAccount>, o: Office, actions: seq<Action>)
    requires OfficeInv(o) && CountersPositive(o.counters) && ValidPlan(plan)
    ensures var o' := Acts(plan, o, actions); OfficeInv(o') && CountersPositive(o'.counters)
    decreases |actions|
  {
    hide OfficeInv, Act, ValidPlan, CountersPositive;
    if actions != [] {
      ActKeeps(plan, o, actions[0]);
      ActsKeep(plan, Act(plan, o, actions[0]).0, actions[1..]);
    }
  }
}
