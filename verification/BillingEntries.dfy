/**
 The entries that invoices write, measured by account code: what an issued invoice, its rectification
 and its voiding put on each code, and what all document entries of the journal add up to.
 */
module BillingEntries {
  import opened Ledger
  import opened Settlement
  import opened FiscalCycle
  import opened CycleInvariant
  import opened CycleSteps
  import opened CycleRuns
  import opened Calculations
  import opened Billing

  // ---------- net of lines by account code ----------

  /** What one line puts on an account code. */
  function LineOnCode(accounts: seq<Account>, l: Line, code: string): int {
    if l.account < |accounts| && accounts[l.account].code == code then l.debit - l.credit else 0
  }

  function CodeNet(accounts: seq<Account>, lines: seq<Line>, code: string): int {
    if lines == [] then 0
    else CodeNet(accounts, lines[..|lines| - 1], code) + LineOnCode(accounts, lines[|lines| - 1], code)
  }

  lemma {:induction false} SumsConcat(accounts: seq<Account>, a: seq<Line>, b: seq<Line>, code: string)
    ensures CodeNet(accounts, a + b, code) == CodeNet(accounts, a, code) + CodeNet(accounts, b, code)
    ensures DebitTotal(a + b) == DebitTotal(a) + DebitTotal(b)
    ensures CreditTotal(a + b) == CreditTotal(a) + CreditTotal(b)
  {
    if b == [] {
      assert a + b == a;
    } else {
      assert (a + b)[..|a + b| - 1] == a + b[..|b| - 1];
      SumsConcat(accounts, a, b[..|b| - 1], code);
    }
  }

  lemma SumsOfOne(accounts: seq<Account>, l: Line, code: string)
    ensures CodeNet(accounts, [l], code) == LineOnCode(accounts, l, code)
    ensures DebitTotal([l]) == l.debit && CreditTotal([l]) == l.credit
  {
    assert [l][..0] == [];
  }

  lemma {:induction false} MirrorNegatesCodes(accounts: seq<Account>, lines: seq<Line>, code: string)
    ensures CodeNet(accounts, Mirror(lines), code) == -CodeNet(accounts, lines, code)
  {
    if lines != [] {
      MirrorNegatesCodes(accounts, lines[..|lines| - 1], code);
      assert Mirror(lines)[..|lines| - 1] == Mirror(lines[..|lines| - 1]);
    }
  }

  // ---------- the lines of an invoice ----------

  /** Sales and tax of the invoice on an account code. */
  function SalesOnCode(inv: Invoice, code: string): int {
    (if code == "700000000" then BaseOf(inv.lines, true) else 0)
    + (if code == "705000000" then BaseOf(inv.lines, false) else 0)
    + (if code == "477000000" then inv.totals.taxed.tax else 0)
  }

  /** What issuing the invoice puts on each account code: the total on the customer, sales and tax against it. */
  function IssueNet(inv: Invoice, code: string): int {
    (if code == CustomerAccount(inv.customerCode) then inv.totals.taxed.total else 0) - SalesOnCode(inv, code)
  }

  lemma AmountLineFacts(accounts: seq<Account>, y: nat, account: string, amount: int, debit: bool, code: string)
    requires amount >= 0 && (amount != 0 ==> AccountFor(accounts, y, account).Some?)
    ensures var lines := AmountLine(accounts, y, account, amount, debit);
            && AllOneSided(lines) && LinesInYear(accounts, lines, y)
            && DebitTotal(lines) == (if debit then amount else 0)
            && CreditTotal(lines) == (if debit then 0 else amount)
            && CodeNet(accounts, lines, code) == if code == account then (if debit then amount else -amount) else 0
  {
    var lines := AmountLine(accounts, y, account, amount, debit);
    if amount != 0 {
      SumsOfOne(accounts, lines[0], code);
    }
  }

  /** Amounts are not negative and there is an account for each that is not zero. */
  predicate Postings(accounts: seq<Account>, y: nat, inv: Invoice) {
    && AccountsAvailable(accounts, y, inv)
    && BaseOf(inv.lines, true) >= 0 && BaseOf(inv.lines, false) >= 0 && inv.totals.taxed.tax >= 0
  }

  lemma SalesLinesFacts(accounts: seq<Account>, y: nat, inv: Invoice, debit: bool)
    requires Postings(accounts, y, inv)
    ensures var lines := SalesLines(accounts, y, inv, debit);
            && AllOneSided(lines) && LinesInYear(accounts, lines, y)
            && DebitTotal(lines) == (if debit then LedgerTotal(inv) else 0)
            && CreditTotal(lines) == (if debit then 0 else LedgerTotal(inv))
  {
    var a := AmountLine(accounts, y, PRODUCT_SALES, BaseOf(inv.lines, true), debit);
    var b := AmountLine(accounts, y, SERVICE_SALES, BaseOf(inv.lines, false), debit);
    var c := AmountLine(accounts, y, OUTPUT_TAX, inv.totals.taxed.tax, debit);
    AmountLineFacts(accounts, y, PRODUCT_SALES, BaseOf(inv.lines, true), debit, "");
    AmountLineFacts(accounts, y, SERVICE_SALES, BaseOf(inv.lines, false), debit, "");
    AmountLineFacts(accounts, y, OUTPUT_TAX, inv.totals.taxed.tax, debit, "");
    hide *;
    ThreeParts(accounts, y, a, b, c, "");
  }

  lemma SalesLinesOnCode(accounts: seq<Account>, y: nat, inv: Invoice, debit: bool, code: string)
    requires Postings(accounts, y, inv)
    ensures CodeNet(accounts, SalesLines(accounts, y, inv, debit), code) == if debit then SalesOnCode(inv, code) else -SalesOnCode(inv, code)
  {
    var a := AmountLine(accounts, y, PRODUCT_SALES, BaseOf(inv.lines, true), debit);
    var b := AmountLine(accounts, y, SERVICE_SALES, BaseOf(inv.lines, false), debit);
    var c := AmountLine(accounts, y, OUTPUT_TAX, inv.totals.taxed.tax, debit);
    AmountLineFacts(accounts, y, PRODUCT_SALES, BaseOf(inv.lines, true), debit, code);
    AmountLineFacts(accounts, y, SERVICE_SALES, BaseOf(inv.lines, false), debit, code);
    AmountLineFacts(accounts, y, OUTPUT_TAX, inv.totals.taxed.tax, debit, code);
    hide *;
    ThreeParts(accounts, y, a, b, c, code);
  }

  lemma ThreeParts(accounts: seq<Account>, y: nat, a: seq<Line>, b: seq<Line>, c: seq<Line>, code: string)
    requires AllOneSided(a) && AllOneSided(b) && AllOneSided(c)
    requires LinesInYear(accounts, a, y) && LinesInYear(accounts, b, y) && LinesInYear(accounts, c, y)
    ensures AllOneSided(a + b + c) && LinesInYear(accounts, a + b + c, y)
    ensures DebitTotal(a + b + c) == DebitTotal(a) + DebitTotal(b) + DebitTotal(c)
    ensures CreditTotal(a + b + c) == CreditTotal(a) + CreditTotal(b) + CreditTotal(c)
    ensures CodeNet(accounts, a + b + c, code) == CodeNet(accounts, a, code) + CodeNet(accounts, b, code) + CodeNet(accounts, c, code)
  {
    SumsConcat(accounts, a, b, code);
    SumsConcat(accounts, a + b, c, code);
  }

  /** An entry of an invoice balances, stays in its year, has one side on every line exactly when the
      total is not zero, and puts on each account code what `IssueNet` says. */
  lemma IssueLinesFacts(accounts: seq<Account>, y: nat, inv: Invoice, code: string)
    requires Postings(accounts, y, inv) && inv.totals.taxed.total == LedgerTotal(inv)
    ensures var lines := IssueLines(accounts, y, inv);
            && LinesInYear(accounts, lines, y)
            && DebitTotal(lines) == CreditTotal(lines) == inv.totals.taxed.total >= 0
            && (inv.totals.taxed.total > 0 ==> AllOneSided(lines))
            && CodeNet(accounts, lines, code) == IssueNet(inv, code)
  {
    var customer := AccountFor(accounts, y, CustomerAccount(inv.customerCode)).value;
    var first := [Line(customer, "", inv.totals.taxed.total, 0)];
    SumsOfOne(accounts, first[0], code);
    SalesLinesFacts(accounts, y, inv, false);
    SalesLinesOnCode(accounts, y, inv, false, code);
    SumsConcat(accounts, first, SalesLines(accounts, y, inv, false), code);
  }

  lemma RectifyLinesFacts(accounts: seq<Account>, y: nat, inv: Invoice, code: string)
    requires Postings(accounts, y, inv) && inv.totals.taxed.total == LedgerTotal(inv)
    ensures var lines := RectifyLines(accounts, y, inv);
            && LinesInYear(accounts, lines, y)
            && DebitTotal(lines) == CreditTotal(lines) == inv.totals.taxed.total >= 0
            && (inv.totals.taxed.total > 0 ==> AllOneSided(lines))
            && CodeNet(accounts, lines, code) == -IssueNet(inv, code)
  {
    var customer := AccountFor(accounts, y, CustomerAccount(inv.customerCode)).value;
    var last := [Line(customer, "", 0, inv.totals.taxed.total)];
    SumsOfOne(accounts, last[0], code);
    SalesLinesFacts(accounts, y, inv, true);
    SalesLinesOnCode(accounts, y, inv, true, code);
    SumsConcat(accounts, SalesLines(accounts, y, inv, true), last, code);
  }

  // ---------- bases and totals ----------

  ghost predicate LinesComputed(lines: seq<InvoiceLine>) {
    AllComputed(Calculated(lines))
  }

  lemma {:induction false} BasesPartition(lines: seq<InvoiceLine>)
    requires LinesComputed(lines)
    ensures BaseOf(lines, true) + BaseOf(lines, false) == SumLines(Calculated(lines)).base
    ensures BaseOf(lines, true) >= 0 && BaseOf(lines, false) >= 0
  {
    if lines != [] {
      var front := lines[..|lines| - 1];
      assert Calculated(lines)[..|lines| - 1] == Calculated(front);
      assert LinesComputed(front) by {
        forall i | 0 <= i < |front| ensures Computed(Calculated(front)[i]) {
          assert Computed(Calculated(lines)[i]);
        }
      }
      BasesPartition(front);
      assert Computed(Calculated(lines)[|lines| - 1]);
      ComputedLine(Calculated(lines)[|lines| - 1]);
    }
  }

  lemma OneLineBase(l: InvoiceLine, product: bool)
    ensures BaseOf([l], product) == if l.product == product then l.calculated.amounts.taxed.base else 0
  {
    assert [l][..0] == [];
  }

  /** From recalculated totals, sales plus tax is always the total: the entry of an invoice never fails to balance. */
  lemma RecalculatedBalances(inv: Invoice)
    requires LinesComputed(inv.lines) && inv.totals == CalculateTotals(Calculated(inv.lines))
    ensures inv.totals.taxed.total == LedgerTotal(inv)
    ensures BaseOf(inv.lines, true) >= 0 && BaseOf(inv.lines, false) >= 0 && inv.totals.taxed.tax >= 0
  {
    BasesPartition(inv.lines);
    TotalsAddUp(Calculated(inv.lines));
  }

  // ---------- all document entries ----------

  function EntryOnCode(accounts: seq<Account>, e: Entry, code: string): int {
    if IsDocument(e.origin) then CodeNet(accounts, e.lines, code) else 0
  }

  function DocumentNet(accounts: seq<Account>, entries: seq<Entry>, code: string): int {
    if entries == [] then 0
    else DocumentNet(accounts, entries[..|entries| - 1], code) + EntryOnCode(accounts, entries[|entries| - 1], code)
  }

  lemma DocumentSnoc(accounts: seq<Account>, entries: seq<Entry>, e: Entry, code: string)
    ensures DocumentNet(accounts, entries + [e], code) == DocumentNet(accounts, entries, code) + EntryOnCode(accounts, e, code)
  {
    assert (entries + [e])[..|entries|] == entries;
  }

  /** Lines are on accounts that exist. */
  predicate OnAccounts(accounts: seq<Account>, lines: seq<Line>) {
    forall i :: 0 <= i < |lines| ==> lines[i].account < |accounts|
  }

  lemma {:induction false} CodesStay(accounts: seq<Account>, accounts': seq<Account>, lines: seq<Line>, code: string)
    requires SameAccounts(accounts, accounts') && OnAccounts(accounts, lines)
    ensures CodeNet(accounts', lines, code) == CodeNet(accounts, lines, code)
  {
    if lines != [] {
      var last := lines[|lines| - 1];
      assert last.account < |accounts|;
      assert Identity(accounts'[last.account]) == Identity(accounts[last.account]);
      CodesStay(accounts, accounts', lines[..|lines| - 1], code);
    }
  }

  predicate NoDocuments(entries: seq<Entry>, n: nat) {
    forall i :: n <= i < |entries| ==> !IsDocument(entries[i].origin)
  }

  /** Documents keep their weight when accounts are added or renamed and other entries are posted. */
  lemma {:induction false} DocumentNetStays(years: seq<FiscalYear>, accounts: seq<Account>, accounts': seq<Account>, entries: seq<Entry>, entries': seq<Entry>, code: string)
    requires JournalSound(years, accounts, entries) && SameAccounts(accounts, accounts')
    requires entries <= entries' && NoDocuments(entries', |entries|)
    ensures DocumentNet(accounts', entries', code) == DocumentNet(accounts, entries, code)
    decreases |entries'|
  {
    if |entries'| > |entries| {
      DocumentNetStays(years, accounts, accounts', entries, entries'[..|entries'| - 1], code);
    } else if entries != [] {
      assert entries' == entries;
      var n := |entries| - 1;
      SoundPrefix(years, accounts, entries, n);
      DocumentNetStays(years, accounts, accounts', entries[..n], entries[..n], code);
      assert EntrySound(years, accounts, entries[n]);
      CodesStay(accounts, accounts', entries[n].lines, code);
    }
  }
}
