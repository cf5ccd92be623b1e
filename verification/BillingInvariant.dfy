/**
 What every action on invoices keeps true: invoices and entries agree, numbers have no gaps, dates
 follow numbers, and the document entries add up to the invoices still outstanding.
 */
module BillingInvariant {
  import opened Ledger
  import opened Settlement
  import opened FiscalCycle
  import opened CycleInvariant
  import opened CycleSteps
  import opened CycleRuns
  import opened Calculations
  import opened Billing
  import opened BillingEntries

  // ---------- invoices ----------

  /** Totals come from the lines; whatever has been issued has a number and something to pay. */
  ghost predicate StandardSound(inv: Invoice) {
    && LinesComputed(inv.lines)
    && inv.totals == CalculateTotals(Calculated(inv.lines))
    && inv.rectifies.None?
    && inv.series == "F"
    && (inv.status == Draft <==> inv.number.None?)
    && (inv.status != Draft ==> inv.totals.taxed.total > 0)
    && (inv.status == Draft && |inv.dueDates| == 1 ==> inv.dueDates[0].amount == inv.totals.taxed.total)
  }

  /** The same kind of line at the same tax rate, with every amount turned round. */
  ghost predicate OpposesLine(l: InvoiceLine, original: InvoiceLine) {
    && l.product == original.product && l.calculated.key == original.calculated.key
    && var a, b := l.calculated.amounts, original.calculated.amounts;
       a.subtotal == -b.subtotal && a.discount == -b.discount
       && a.taxed.base == -b.taxed.base && a.taxed.tax == -b.taxed.tax && a.taxed.total == -b.taxed.total
  }

  /** Line for line the opposite of the original, for the same customer. */
  ghost predicate Opposes(r: Invoice, original: Invoice) {
    && r.customerCode == original.customerCode
    && |r.lines| == |original.lines|
    && forall k :: 0 <= k < |r.lines| ==> OpposesLine(r.lines[k], original.lines[k])
  }

  ghost predicate RectificationSound(invoices: seq<Invoice>, r: Invoice) {
    && r.status == Issued && r.number.Some? && r.series == "R"
    && r.rectifies.Some? && r.rectifies.value < |invoices|
    && var inv := invoices[r.rectifies.value];
       inv.documentType == Standard && inv.status == Rectified && r.totals == Negated(inv.totals) && Opposes(r, inv)
  }

  ghost predicate InvoiceSound(invoices: seq<Invoice>, inv: Invoice) {
    match inv.documentType
    case Standard => StandardSound(inv)
    case Rectification => RectificationSound(invoices, inv)
  }

  /** Unique index on `rectifiesInvoiceId`, and every rectified invoice has its rectification. */
  ghost predicate InvoicesSound(invoices: seq<Invoice>) {
    && (forall i {:trigger InvoiceSound(invoices, invoices[i])} :: 0 <= i < |invoices| ==> InvoiceSound(invoices, invoices[i]))
    && (forall i, j :: 0 <= i < j < |invoices| && invoices[i].rectifies.Some? ==> invoices[i].rectifies != invoices[j].rectifies)
    && (forall i: nat :: i < |invoices| && invoices[i].status == Rectified ==> IsRectified(invoices, i))
  }

  // ---------- invoices and entries ----------

  ghost predicate NetsTo(accounts: seq<Account>, lines: seq<Line>, inv: Invoice, sign: int) {
    forall code :: CodeNet(accounts, lines, code) == sign * IssueNet(inv, code)
  }

  /** The invoice whose amounts an invoice carries: itself, or the one it rectifies. */
  ghost function Basis(invoices: seq<Invoice>, i: nat): Invoice
    requires i < |invoices|
  {
    var inv := invoices[i];
    if inv.documentType == Rectification && inv.rectifies.Some? && inv.rectifies.value < |invoices| then invoices[inv.rectifies.value] else inv
  }

  ghost function SignOf(inv: Invoice): int {
    if inv.documentType == Standard then 1 else -1
  }

  ghost predicate DocumentSound(accounts: seq<Account>, invoices: seq<Invoice>, e: Entry) {
    match e.origin
    case InvoiceEntry(i) =>
      i < |invoices| && invoices[i].status != Draft && NetsTo(accounts, e.lines, Basis(invoices, i), SignOf(invoices[i]))
    case InvoiceVoiding(i) =>
      i < |invoices| && invoices[i].status == Voided && invoices[i].documentType == Standard && NetsTo(accounts, e.lines, invoices[i], -1)
    case _ => true
  }

  ghost predicate DocumentsSound(accounts: seq<Account>, invoices: seq<Invoice>, entries: seq<Entry>) {
    && (forall k {:trigger DocumentSound(accounts, invoices, entries[k])} :: 0 <= k < |entries| ==> DocumentSound(accounts, invoices, entries[k]))
    && (forall j, k :: 0 <= j < k < |entries| && IsDocument(entries[j].origin) ==> entries[j].origin != entries[k].origin)
  }

  /** Every invoice that left the draft has its entry, every voided one its contra entry. */
  ghost predicate EntriesThere(invoices: seq<Invoice>, entries: seq<Entry>) {
    && (forall i: nat :: i < |invoices| && invoices[i].status != Draft ==> HasEntry(entries, InvoiceEntry(i)))
    && (forall i: nat :: i < |invoices| && invoices[i].status == Voided ==> HasEntry(entries, InvoiceVoiding(i)))
  }

  // ---------- what is outstanding ----------

  function Outstanding(invoices: seq<Invoice>, code: string): int {
    if invoices == [] then 0
    else
      var last := invoices[|invoices| - 1];
      Outstanding(invoices[..|invoices| - 1], code)
      + if last.documentType == Standard && last.status == Issued then IssueNet(last, code) else 0
  }

  /** On every account code, the document entries add up to the ordinary invoices still issued. */
  ghost predicate SubLedgerAgrees(accounts: seq<Account>, invoices: seq<Invoice>, entries: seq<Entry>) {
    forall code :: DocumentNet(accounts, entries, code) == Outstanding(invoices, code)
  }

  // ---------- numbers ----------

  predicate Numbered(inv: Invoice, key: NumberKey, n: int) {
    inv.status != Draft && inv.series == key.series && YearOf(inv.issueDate) == key.year && inv.number.Some? && inv.number.value == n
  }

  predicate NumberTaken(invoices: seq<Invoice>, key: NumberKey, n: int) {
    exists i :: 0 <= i < |invoices| && Numbered(invoices[i], key, n)
  }

  function KeyOf(inv: Invoice): NumberKey {
    NumberKey(inv.series, YearOf(inv.issueDate))
  }

  /** The numbers of a series in a year are exactly those below the next one, each used once. */
  ghost predicate NumbersSound(invoices: seq<Invoice>, counters: map<NumberKey, nat>) {
    && (forall key, n :: 1 <= n < NextNumber(counters, key) ==> NumberTaken(invoices, key, n))
    && (forall i :: 0 <= i < |invoices| && invoices[i].status != Draft ==>
          invoices[i].number.Some? && 1 <= invoices[i].number.value < NextNumber(counters, KeyOf(invoices[i])))
    && (forall i, j :: 0 <= i < j < |invoices| && invoices[i].status != Draft && invoices[j].status != Draft && KeyOf(invoices[i]) == KeyOf(invoices[j])
                       ==> invoices[i].number != invoices[j].number)
  }

  /** Within a series, an invoice with a later number does not have an earlier date. */
  ghost predicate DatesFollowNumbers(invoices: seq<Invoice>) {
    forall i, j :: 0 <= i < |invoices| && 0 <= j < |invoices| && InOrder(invoices[i], invoices[j]) ==> invoices[i].issueDate <= invoices[j].issueDate
  }

  ghost predicate InOrder(a: Invoice, b: Invoice) {
    a.status != Draft && b.status != Draft && KeyOf(a) == KeyOf(b) && a.number.Some? && b.number.Some? && a.number.value < b.number.value
  }

  ghost predicate OfficeInv(o: Office) {
    && Inv(o.ledger)
    && InvoicesSound(o.invoices)
    && DocumentsSound(o.ledger.accounts, o.invoices, o.ledger.entries)
    && EntriesThere(o.invoices, o.ledger.entries)
    && SubLedgerAgrees(o.ledger.accounts, o.invoices, o.ledger.entries)
    && NumbersSound(o.invoices, o.counters)
    && DatesFollowNumbers(o.invoices)
  }

  lemma NoOfficeHolds()
    ensures OfficeInv(NO_OFFICE)
  {
    hide Inv;
    EmptyHolds();
  }

  // ---------- sums over invoices ----------

  function Contribution(inv: Invoice, code: string): int {
    if inv.documentType == Standard && inv.status == Issued then IssueNet(inv, code) else 0
  }

  lemma OutstandingSnoc(invoices: seq<Invoice>, inv: Invoice, code: string)
    ensures Outstanding(invoices + [inv], code) == Outstanding(invoices, code) + Contribution(inv, code)
  {
    assert (invoices + [inv])[..|invoices|] == invoices;
  }

  lemma {:induction false} OutstandingUpdate(invoices: seq<Invoice>, i: nat, inv: Invoice, code: string)
    requires i < |invoices|
    ensures Outstanding(invoices[i := inv], code) == Outstanding(invoices, code) - Contribution(invoices[i], code) + Contribution(inv, code)
  {
    var n := |invoices| - 1;
    if i == n {
      assert invoices[i := inv][..n] == invoices[..n];
    } else {
      assert invoices[i := inv][..n] == invoices[..n][i := inv];
      OutstandingUpdate(invoices[..n], i, inv, code);
    }
  }
}
