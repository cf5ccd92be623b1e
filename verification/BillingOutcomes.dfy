/**
 When each operation on invoices succeeds, and what it then does, in terms of rows, dates and codes.
 */
module BillingOutcomes {
  import opened Ledger
  import opened Settlement
  import opened FiscalCycle
  import opened CycleInvariant
  import opened CycleSteps
  import opened CycleDates
  import opened Calculations
  import opened Billing
  import opened BillingEntries
  import opened BillingInvariant
  import opened BillingSteps
  import opened BillingDocuments
  import opened BillingTheorems

  // ---------- amounts of an invoice ----------

  function Amounts(lines: seq<InvoiceLine>): (r: seq<LineAmounts>)
    ensures |r| == |lines|
  {
    seq(|lines|, k requires 0 <= k < |lines| => lines[k].calculated.amounts)
  }

  /** After every run each line of an ordinary invoice fits the description of a line for some valid input at its
      tax rate, and each total of the invoice is the sum over its lines. */
  lemma InvoiceAmountsExact(plan: seq<PlanAccount>, actions: seq<Action>, i: nat)
    requires ValidPlan(plan)
    requires i < |OfficeAfter(plan, actions).invoices| && OfficeAfter(plan, actions).invoices[i].documentType == Standard
    ensures var inv := OfficeAfter(plan, actions).invoices[i];
            && (forall k :: 0 <= k < |inv.lines| ==> Computed(inv.lines[k].calculated))
            && TotalsAreSums(inv)
  {
    OfficeHolds(plan, actions);
    var o := OfficeAfter(plan, actions);
    InvoiceIsSound(o, i);
    var inv := o.invoices[i];
    forall k | 0 <= k < |inv.lines| ensures Computed(inv.lines[k].calculated) {
      assert Computed(Calculated(inv.lines)[k]);
    }
    SumsOfLines(inv);
  }

  ghost predicate TotalsAreSums(inv: Invoice) {
    var a, n := Amounts(inv.lines), |inv.lines|;
    && inv.totals.subtotal == Sum(seq(n, k requires 0 <= k < n => a[k].subtotal))
    && inv.totals.discount == Sum(seq(n, k requires 0 <= k < n => a[k].discount))
    && inv.totals.taxed.base == Sum(seq(n, k requires 0 <= k < n => a[k].taxed.base))
    && inv.totals.taxed.tax == Sum(seq(n, k requires 0 <= k < n => a[k].taxed.tax))
    && inv.totals.taxed.total == Sum(seq(n, k requires 0 <= k < n => a[k].taxed.total))
  }

  lemma SumsOfLines(inv: Invoice)
    requires inv.totals == CalculateTotals(Calculated(inv.lines))
    ensures TotalsAreSums(inv)
  {
    var a, c, n := Amounts(inv.lines), Calculated(inv.lines), |inv.lines|;
    hide CalculateTotals, Sum;
    TotalsLineByLine(c);
    assert seq(n, k requires 0 <= k < n => c[k].amounts.subtotal) == seq(n, k requires 0 <= k < n => a[k].subtotal);
    assert seq(n, k requires 0 <= k < n => c[k].amounts.discount) == seq(n, k requires 0 <= k < n => a[k].discount);
    assert seq(n, k requires 0 <= k < n => c[k].amounts.taxed.base) == seq(n, k requires 0 <= k < n => a[k].taxed.base);
    assert seq(n, k requires 0 <= k < n => c[k].amounts.taxed.tax) == seq(n, k requires 0 <= k < n => a[k].taxed.tax);
    assert seq(n, k requires 0 <= k < n => c[k].amounts.taxed.total) == seq(n, k requires 0 <= k < n => a[k].taxed.total);
  }

  /** The base of a kind is the sum over the lines of that kind. */
  lemma {:induction false} BaseIsSum(lines: seq<InvoiceLine>, product: bool)
    ensures BaseOf(lines, product)
         == Sum(seq(|lines|, k requires 0 <= k < |lines| => if lines[k].product == product then lines[k].calculated.amounts.taxed.base else 0))
  {
    if lines != [] {
      var front := lines[..|lines| - 1];
      BaseIsSum(front, product);
      FrontSum(seq(|lines|, k requires 0 <= k < |lines| => if lines[k].product == product then lines[k].calculated.amounts.taxed.base else 0),
               seq(|front|, k requires 0 <= k < |front| => if front[k].product == product then front[k].calculated.amounts.taxed.base else 0));
    }
  }

  function DueAmounts(dues: seq<DueDate>): (r: seq<int>)
    ensures |r| == |dues|
  {
    seq(|dues|, k requires 0 <= k < |dues| => dues[k].amount)
  }

  lemma {:induction false} DuesAreSummed(dues: seq<DueDate>)
    ensures DueTotal(dues) == Sum(DueAmounts(dues))
  {
    if dues != [] {
      var front := dues[..|dues| - 1];
      DuesAreSummed(front);
      FrontSum(DueAmounts(dues), DueAmounts(front));
    }
  }

  function PaidAmounts(dues: seq<DueDate>): (r: seq<int>)
    ensures |r| == |dues|
  {
    seq(|dues|, k requires 0 <= k < |dues| => Sum(dues[k].payments))
  }

  lemma {:induction false} PaymentsAreSummed(dues: seq<DueDate>)
    ensures NetPaid(dues) == Sum(PaidAmounts(dues))
  {
    if dues != [] {
      var front := dues[..|dues| - 1];
      PaymentsAreSummed(front);
      FrontSum(PaidAmounts(dues), PaidAmounts(front));
    }
  }

  // ---------- a rectification is the opposite of its original ----------

  ghost predicate OpposesAmounts(a: LineAmounts, b: LineAmounts) {
    && a.subtotal == -b.subtotal && a.discount == -b.discount
    && a.taxed.base == -b.taxed.base && a.taxed.tax == -b.taxed.tax && a.taxed.total == -b.taxed.total
  }

  lemma {:induction false} OppositeGross(r: seq<CalculatedLine>, lines: seq<CalculatedLine>)
    requires |r| == |lines| && forall k :: 0 <= k < |r| ==> OpposesAmounts(r[k].amounts, lines[k].amounts)
    ensures SumSubtotals(r) == -SumSubtotals(lines) && SumDiscounts(r) == -SumDiscounts(lines)
  {
    if r != [] {
      var n := |r| - 1;
      OppositeGross(r[..n], lines[..n]);
      assert OpposesAmounts(r[n].amounts, lines[n].amounts);
    }
  }

  lemma {:induction false} OppositeTaxed(r: seq<CalculatedLine>, lines: seq<CalculatedLine>)
    requires |r| == |lines| && forall k :: 0 <= k < |r| ==> OpposesAmounts(r[k].amounts, lines[k].amounts)
    ensures var a, b := SumLines(r), SumLines(lines); a == Taxed(-b.base, -b.tax, -b.total)
  {
    if r != [] {
      var n := |r| - 1;
      OppositeTaxed(r[..n], lines[..n]);
      assert OpposesAmounts(r[n].amounts, lines[n].amounts);
    }
  }

  lemma OppositeTotals(r: seq<CalculatedLine>, lines: seq<CalculatedLine>)
    requires |r| == |lines| && forall k :: 0 <= k < |r| ==> OpposesAmounts(r[k].amounts, lines[k].amounts)
    ensures CalculateTotals(r) == Negated(CalculateTotals(lines))
  {
    hide SumSubtotals, SumDiscounts, SumLines, OpposesAmounts;
    OppositeGross(r, lines);
    OppositeTaxed(r, lines);
  }

  lemma {:induction false} OppositeBases(r: seq<InvoiceLine>, lines: seq<InvoiceLine>, product: bool)
    requires |r| == |lines| && forall k :: 0 <= k < |r| ==> OpposesLine(r[k], lines[k])
    ensures BaseOf(r, product) == -BaseOf(lines, product)
  {
    if r != [] {
      var n := |r| - 1;
      OppositeBases(r[..n], lines[..n], product);
      assert OpposesLine(r[n], lines[n]);
    }
  }

  lemma OppositeSums(r: seq<InvoiceLine>, lines: seq<InvoiceLine>)
    requires |r| == |lines| && forall k :: 0 <= k < |r| ==> OpposesLine(r[k], lines[k])
    ensures CalculateTotals(Calculated(r)) == Negated(CalculateTotals(Calculated(lines)))
    ensures forall p :: BaseOf(r, p) == -BaseOf(lines, p)
  {
    hide CalculateTotals, BaseOf, Negated;
    forall k | 0 <= k < |r| ensures OpposesAmounts(Calculated(r)[k].amounts, Calculated(lines)[k].amounts) {
      assert OpposesLine(r[k], lines[k]);
    }
    OppositeTotals(Calculated(r), Calculated(lines));
    forall p ensures BaseOf(r, p) == -BaseOf(lines, p) { OppositeBases(r, lines, p); }
  }

  /** After every run: each rectification names an ordinary rectified invoice of the same customer; its lines
      are those of the original with every amount turned round, its totals are those of its own lines, and so
      are the bases of both kinds. */
  lemma RectificationOpposes(plan: seq<PlanAccount>, actions: seq<Action>, j: nat)
    requires ValidPlan(plan)
    requires j < |OfficeAfter(plan, actions).invoices| && OfficeAfter(plan, actions).invoices[j].documentType == Rectification
    ensures var o := OfficeAfter(plan, actions);
            var r := o.invoices[j];
            && r.rectifies.Some? && r.rectifies.value < |o.invoices|
            && var original := o.invoices[r.rectifies.value];
            && original.documentType == Standard && original.status == Rectified
            && Opposes(r, original)
            && r.totals == CalculateTotals(Calculated(r.lines))
            && r.totals.taxed.total == -original.totals.taxed.total
            && (forall p :: BaseOf(r.lines, p) == -BaseOf(original.lines, p))
  {
    OfficeHolds(plan, actions);
    var o := OfficeAfter(plan, actions);
    InvoiceIsSound(o, j);
    var r := o.invoices[j];
    InvoiceIsSound(o, r.rectifies.value);
    OppositeSums(r.lines, o.invoices[r.rectifies.value].lines);
  }

  // ---------- accounts and codes ----------

  /** 430, zeros, and the code of the customer: nine digits. */
  ghost predicate IsCustomerAccount(account: string, code: string) {
    && |account| == 9 && account[..3] == "430"
    && |code| <= 6 && account[9 - |code|..] == code
    && forall k :: 3 <= k < 9 - |code| ==> account[k] == '0'
  }

  lemma {:induction false} Padded(code: string, n: nat)
    requires |code| <= n
    ensures var p := PadStart(code, n);
            |p| == n && p[n - |code|..] == code && forall k :: 0 <= k < n - |code| ==> p[k] == '0'
    decreases n - |code|
  {
    if |code| < n {
      Padded("0" + code, n);
      var p := PadStart(code, n);
      assert p[n - |code| - 1..] == "0" + code;
      assert p[n - |code| - 1..][1..] == code;
    }
  }

  lemma CustomerAccountIs(code: string)
    requires |code| <= 6
    ensures IsCustomerAccount(CustomerAccount(code), code)
  {
    Padded(code, 6);
    var p := PadStart(code, 6);
    assert CustomerAccount(code)[9 - |code|..] == p[6 - |code|..];
    assert CustomerAccount(code)[..3] == "430";
  }

  /** An active postable account of year `y` under this code. */
  ghost predicate HasAccount(accounts: seq<Account>, y: nat, code: string) {
    exists a :: 0 <= a < |accounts| && accounts[a].fiscalYear == y && accounts[a].code == code && accounts[a].active && accounts[a].postable
  }

  lemma AccountForIs(accounts: seq<Account>, y: nat, code: string)
    ensures AccountFor(accounts, y, code).Some? <==> HasAccount(accounts, y, code)
  {
    var r := AccountFor(accounts, y, code);
    if r.Some? { assert Postable(accounts, r.value, y, code); }
    if r.None? {
      forall a | 0 <= a < |accounts| ensures !(accounts[a].fiscalYear == y && accounts[a].code == code && accounts[a].active && accounts[a].postable) {
        assert !Postable(accounts, a, y, code);
      }
    }
  }

  ghost predicate UpToSixDigits(code: string) {
    1 <= |code| <= 6 && forall i :: 0 <= i < |code| ==> '0' <= code[i] <= '9'
  }

  /** The accounts that the entry of the invoice needs in year `y`. */
  ghost predicate AccountsThere(accounts: seq<Account>, y: nat, inv: Invoice) {
    && (exists account :: IsCustomerAccount(account, inv.customerCode) && HasAccount(accounts, y, account))
    && (BaseOf(inv.lines, true) != 0 ==> HasAccount(accounts, y, "700000000"))
    && (BaseOf(inv.lines, false) != 0 ==> HasAccount(accounts, y, "705000000"))
    && (inv.totals.taxed.tax != 0 ==> HasAccount(accounts, y, "477000000"))
  }

  lemma OneCustomerAccount(a: string, b: string, code: string)
    requires IsCustomerAccount(a, code) && IsCustomerAccount(b, code)
    ensures a == b
  {
    forall k | 0 <= k < 9 ensures a[k] == b[k] {
      if k < 3 {
        assert a[k] == a[..3][k] && b[k] == b[..3][k];
      } else if k >= 9 - |code| {
        assert a[k] == a[9 - |code|..][k - (9 - |code|)] && b[k] == b[9 - |code|..][k - (9 - |code|)];
      }
    }
  }

  lemma AccountsMean(accounts: seq<Account>, y: nat, inv: Invoice)
    requires UpToSixDigits(inv.customerCode)
    ensures AccountsAvailable(accounts, y, inv) <==> AccountsThere(accounts, y, inv)
  {
    var own := CustomerAccount(inv.customerCode);
    CustomerAccountIs(inv.customerCode);
    AccountForIs(accounts, y, own);
    AccountForIs(accounts, y, "700000000");
    AccountForIs(accounts, y, "705000000");
    AccountForIs(accounts, y, "477000000");
    hide IsCustomerAccount, HasAccount, CustomerAccount, BaseOf;
    forall account | IsCustomerAccount(account, inv.customerCode) ensures account == own {
      OneCustomerAccount(account, own, inv.customerCode);
    }
  }

  /** An open year takes the date, the customer has a code of up to six digits, and the accounts are there. */
  ghost predicate CanPost(s: State, inv: Invoice, date: int) {
    && UpToSixDigits(inv.customerCode)
    && exists y: nat :: TakesDate(s.years, y, date) && AccountsThere(s.accounts, y, inv)
  }

  lemma PostingDecided(o: Office, i: nat, date: int)
    requires OfficeInv(o) && i < |o.invoices| && o.invoices[i].documentType == Standard
    ensures PostingObstacle(o.ledger, o.invoices[i], date).None? <==> CanPost(o.ledger, o.invoices[i], date)
  {
    var s, inv := o.ledger, o.invoices[i];
    OfficeParts(o);
    NeverUnbalanced(o, i);
    OpenYearIff(s, date);
    hide OfficeInv, Inv, OpenYearAt, AccountsAvailable, AccountsThere, LedgerTotal;
    assert ValidCode(inv.customerCode) <==> UpToSixDigits(inv.customerCode);
    if UpToSixDigits(inv.customerCode) {
      forall y: nat ensures AccountsAvailable(s.accounts, y, inv) <==> AccountsThere(s.accounts, y, inv) {
        AccountsMean(s.accounts, y, inv);
      }
    }
  }

  // ---------- drafts ----------

  lemma CreateDraftOutcome(o: Office, customerCode: string, issueDate: int, dueDate: int)
    requires OfficeInv(o)
    ensures var (o', v) := CreateDraft(o, customerCode, issueDate, dueDate);
            && (v.Performed? <==> exists y: nat :: TakesDate(o.ledger.years, y, issueDate))
            && (v.Performed? ==>
                  o' == o.(invoices := o.invoices + [Invoice(Standard, ByHand, Draft, Pending, NotSent, "F", None, customerCode, issueDate, [],
                                                             Totals(0, 0, Taxed(0, 0, 0)), [DueDate(dueDate, 0, DuePending, [], false, false, false)], None)]))
            && (!v.Performed? ==> o' == o)
  {
    OfficeParts(o);
    OpenYearIff(o.ledger, issueDate);
    assert CalculateTotals([]) == Totals(0, 0, Taxed(0, 0, 0));
  }

  /** The line of the request: its kind, its tax rate, and amounts that fit its input. */
  ghost predicate LineMade(l: InvoiceLine, d: DraftLine) {
    l.product == d.product && l.calculated.key == TaxKey(d.code, d.input.taxRate) && IsLine(d.input, l.calculated.amounts)
  }

  ghost predicate InputAllowed(i: LineInput) {
    i.quantity != 0 && i.unitPrice >= 0 && 0 <= i.discountPercent <= 10000 && i.discountAmount >= 0 && 0 <= i.taxRate <= 10000
  }

  /** Lines fitting these inputs would have a negative sum of subtotals or of discounts. */
  ghost predicate SumsNegative(lines: seq<DraftLine>) {
    exists made: seq<InvoiceLine> ::
      && |made| == |lines| && (forall k :: 0 <= k < |lines| ==> LineMade(made[k], lines[k]))
      && var a, n := Amounts(made), |made|;
         (Sum(seq(n, k requires 0 <= k < n => a[k].subtotal)) < 0 || Sum(seq(n, k requires 0 <= k < n => a[k].discount)) < 0)
  }

  lemma NegativeSums(lines: seq<DraftLine>)
    requires ValidLines(lines) && !AmountsSupported(CalculateTotals(Calculated(MakeLines(lines))))
    ensures SumsNegative(lines)
  {
    hide CalculateTotals, CalculateLine, IsLine, Sum;
    var made := MakeLines(lines);
    forall k | 0 <= k < |lines| ensures LineMade(made[k], lines[k]) && ComputedFrom(made[k].calculated, lines[k].input) {
      LineIsExact(lines[k].input, CalculateLine(lines[k].input));
    }
    TotalsAddUp(Calculated(made));
    var inv := NewDraft(Subscription, "", 0, made, CalculateTotals(Calculated(made)), 0);
    SumsOfLines(inv);
  }

  /** A subscription draft: allowed inputs, an open year for its date, and neither a negative subtotal nor a negative
      discount in the sum. */
  lemma CreateSubscriptionOutcome(o: Office, customerCode: string, issueDate: int, lines: seq<DraftLine>, dueDate: int)
    requires OfficeInv(o)
    ensures var (o', v) := CreateSubscriptionDraft(o, customerCode, issueDate, lines, dueDate);
            && (v.Performed? ==>
                  && (forall k :: 0 <= k < |lines| ==> InputAllowed(lines[k].input))
                  && |o'.invoices| == |o.invoices| + 1 && o' == o.(invoices := o.invoices + [o'.invoices[|o.invoices|]])
                  && var inv := o'.invoices[|o.invoices|];
                     && |inv.lines| == |lines| && (forall k :: 0 <= k < |lines| ==> LineMade(inv.lines[k], lines[k]))
                     && TotalsAreSums(inv) && inv.totals.subtotal >= 0 && inv.totals.discount >= 0
                     && inv == Invoice(Standard, Subscription, Draft, Pending, NotSent, "F", None, customerCode, issueDate, inv.lines, inv.totals,
                                       [DueDate(dueDate, inv.totals.taxed.total, DuePending, [], false, false, false)], None))
            && (v.Blocked? <==>
                  !((forall k :: 0 <= k < |lines| ==> InputAllowed(lines[k].input)) && exists y: nat :: TakesDate(o.ledger.years, y, issueDate)))
            && (v.Aborted? ==> SumsNegative(lines))
            && (!v.Performed? ==> o' == o)
  {
    OfficeParts(o);
    OpenYearIff(o.ledger, issueDate);
    hide OfficeInv, Inv, OpenYearAt, TakesDate, CalculateTotals, CalculateLine, TotalsAreSums, IsLine, SumsNegative;
    var (o', v) := CreateSubscriptionDraft(o, customerCode, issueDate, lines, dueDate);
    assert ValidLines(lines) <==> forall k :: 0 <= k < |lines| ==> InputAllowed(lines[k].input);
    if v.Performed? {
      forall k | 0 <= k < |lines| ensures LineMade(MakeLines(lines)[k], lines[k]) {
        LineIsExact(lines[k].input, CalculateLine(lines[k].input));
      }
      SumsOfLines(o'.invoices[|o.invoices|]);
    }
    if v.Aborted? { NegativeSums(lines); }
  }

  /** The draft with one line more, totals recomputed, and the amount of a single due date along with them. */
  ghost predicate LineAdded(inv: Invoice, inv': Invoice, line: DraftLine) {
    && |inv'.lines| == |inv.lines| + 1 && inv.lines <= inv'.lines && LineMade(inv'.lines[|inv.lines|], line)
    && TotalsAreSums(inv')
    && inv' == inv.(lines := inv'.lines, totals := inv'.totals, dueDates := inv'.dueDates)
    && (|inv.dueDates| != 1 ==> inv'.dueDates == inv.dueDates)
    && (|inv.dueDates| == 1 ==> inv'.dueDates == [inv.dueDates[0].(amount := inv'.totals.taxed.total)])
  }

  /** A line is added exactly to a draft made by hand, with an allowed input, unless the sum of subtotals or of
      discounts becomes negative. */
  lemma AddLineOutcome(plan: seq<PlanAccount>, actions: seq<Action>, i: nat, line: DraftLine)
    requires ValidPlan(plan)
    ensures var o := OfficeAfter(plan, actions);
            var (o', v) := AddLine(o, i, line);
            && (v.Blocked? <==> !(InputAllowed(line.input) && i < |o.invoices| && o.invoices[i].status == Draft && o.invoices[i].origin == ByHand))
            && (v.Performed? ==>
                  && i < |o.invoices| == |o'.invoices| && o' == o.(invoices := o.invoices[i := o'.invoices[i]])
                  && LineAdded(o.invoices[i], o'.invoices[i], line)
                  && o'.invoices[i].totals.subtotal >= 0 && o'.invoices[i].totals.discount >= 0)
            && (!v.Performed? ==> o' == o)
            && (v.Aborted? ==> i < |o.invoices| && SumTurnsNegative(o.invoices[i], line))
            && (v.Performed? ==> !SumTurnsNegative(o.invoices[i], line))
  {
    hide *;
    OfficeHolds(plan, actions);
    AddLineDecided(OfficeAfter(plan, actions), i, line);
  }

  lemma AddLineDecided(o: Office, i: nat, line: DraftLine)
    requires OfficeInv(o)
    ensures var (o', v) := AddLine(o, i, line);
            && (v.Blocked? <==> !(InputAllowed(line.input) && i < |o.invoices| && o.invoices[i].status == Draft && o.invoices[i].origin == ByHand))
            && (v.Performed? ==>
                  && i < |o.invoices| == |o'.invoices| && o' == o.(invoices := o.invoices[i := o'.invoices[i]])
                  && LineAdded(o.invoices[i], o'.invoices[i], line)
                  && o'.invoices[i].totals.subtotal >= 0 && o'.invoices[i].totals.discount >= 0)
            && (!v.Performed? ==> o' == o)
            && (v.Aborted? ==> i < |o.invoices| && SumTurnsNegative(o.invoices[i], line))
            && (v.Performed? ==> !SumTurnsNegative(o.invoices[i], line))
  {
    hide OfficeInv, LinesComputed, CalculateTotals, CalculateLine, IsLine, TotalsAreSums, LineAdded, SumTurnsNegative;
    if InputAllowed(line.input) && i < |o.invoices| && o.invoices[i].status == Draft && o.invoices[i].origin == ByHand {
      DraftIsStandard(o, i);
      MadeLineIsComputed(line);
      var inv := o.invoices[i];
      LinesComputedSnoc(inv.lines, MakeLine(line));
      AddedLine(inv, line);
    }
  }

  /** With this line the subtotals, or the discounts, would add up to less than nothing. */
  ghost predicate SumTurnsNegative(inv: Invoice, line: DraftLine) {
    exists a :: IsLine(line.input, a) && (inv.totals.subtotal + a.subtotal < 0 || inv.totals.discount + a.discount < 0)
  }

  lemma AddedLine(inv: Invoice, line: DraftLine)
    requires inv.totals == CalculateTotals(Calculated(inv.lines))
    requires LinesComputed(inv.lines + [MakeLine(line)])
    ensures var inv' := Recalculate(inv.(lines := inv.lines + [MakeLine(line)]));
            LineAdded(inv, inv', line) && (AmountsSupported(inv'.totals) <==> !SumTurnsNegative(inv, line))
  {
    var inv' := Recalculate(inv.(lines := inv.lines + [MakeLine(line)]));
    var c := CalculateLine(line.input);
    LineIsExact(line.input, c);
    SumsOfLines(inv');
    TotalsAddUp(Calculated(inv'.lines));
    assert Calculated(inv'.lines)[..|inv.lines|] == Calculated(inv.lines);
    assert inv'.totals.subtotal == inv.totals.subtotal + c.subtotal && inv'.totals.discount == inv.totals.discount + c.discount;
    hide CalculateTotals, CalculateLine, TotalsAreSums, IsLine;
    if SumTurnsNegative(inv, line) {
      var a :| IsLine(line.input, a) && (inv.totals.subtotal + a.subtotal < 0 || inv.totals.discount + a.discount < 0);
      LineIsExact(line.input, a);
    }
  }

  /** The new due dates: positive, at most 24, adding up to the total, none before the date of the draft. */
  ghost predicate DuesAllowed(inv: Invoice, dues: seq<Due>) {
    && 1 <= |dues| <= 24
    && (forall k :: 0 <= k < |dues| ==> dues[k].amount > 0 && inv.issueDate <= dues[k].date)
    && Sum(seq(|dues|, k requires 0 <= k < |dues| => dues[k].amount)) == inv.totals.taxed.total
  }

  lemma ReplaceDueDatesOutcome(o: Office, i: nat, dues: seq<Due>)
    ensures var (o', v) := ReplaceDueDates(o, i, dues);
            && (v.Performed? <==>
                  && i < |o.invoices| && o.invoices[i].status == Draft && o.invoices[i].documentType == Standard && o.invoices[i].origin == ByHand
                  && DuesAllowed(o.invoices[i], dues))
            && (v.Performed? ==>
                  && i < |o'.invoices| && o' == o.(invoices := o.invoices[i := o.invoices[i].(dueDates := o'.invoices[i].dueDates)])
                  && |o'.invoices[i].dueDates| == |dues|
                  && forall k :: 0 <= k < |dues| ==> o'.invoices[i].dueDates[k] == DueDate(dues[k].date, dues[k].amount, DuePending, [], false, false, false))
            && (!v.Performed? ==> o' == o)
  {
    DuesAreSummed(MakeDues(dues));
    assert DueAmounts(MakeDues(dues)) == seq(|dues|, k requires 0 <= k < |dues| => dues[k].amount);
    hide DueTotal, Sum;
  }

  // ---------- issuing ----------

  /** An invoice of the series, out of the draft, bears a later date. */
  ghost predicate LaterStands(invoices: seq<Invoice>, series: string, date: int) {
    exists j :: 0 <= j < |invoices| && invoices[j].series == series && invoices[j].status != Draft && date < invoices[j].issueDate
  }

  /** No invoice of the series out of the draft is dated later. */
  ghost predicate NoneLater(invoices: seq<Invoice>, series: string, date: int) {
    forall j :: 0 <= j < |invoices| && invoices[j].series == series && invoices[j].status != Draft ==> invoices[j].issueDate <= date
  }

  lemma OrderMeans(invoices: seq<Invoice>, series: string, date: int)
    ensures ChronologyViolation(invoices, series, date) <==> LaterStands(invoices, series, date)
    ensures LaterStands(invoices, series, date) <==> !NoneLater(invoices, series, date)
  {
  }

  /** A draft of this origin with lines and a total that is not zero; its due dates add up to the total and none is
      before the date; no invoice of series F out of the draft is dated later; and its entry can be posted. */
  ghost predicate CanIssue(o: Office, i: nat, origin: InvoiceOrigin, date: int) {
    && i < |o.invoices|
    && var inv := o.invoices[i];
    && inv.status == Draft && inv.origin == origin && inv.lines != [] && inv.totals.taxed.total != 0
    && inv.dueDates != []
    && Sum(DueAmounts(inv.dueDates)) == inv.totals.taxed.total
    && (forall k :: 0 <= k < |inv.dueDates| ==> date <= inv.dueDates[k].date)
    && NoneLater(o.invoices, "F", date)
    && CanPost(o.ledger, inv, date)
  }

  /** One entry more, in the open year of the date, under the next number of that year. */
  ghost predicate EntryPosted(s: State, s': State, date: int, origin: Origin, reverses: Option<nat>, total: int) {
    && |s'.entries| == |s.entries| + 1 && s' == s.(entries := s.entries + [s'.entries[|s.entries|]])
    && var e := s'.entries[|s.entries|];
       && TakesDate(s.years, e.fiscalYear, date)
       && e == Entry(e.fiscalYear, date / 10000, CountYear(s.entries, e.fiscalYear) + 1, date, origin, reverses, total, total, e.lines)
  }

  ghost predicate IssuedAs(o: Office, o': Office, i: nat, date: int, verifactu: bool)
    requires i < |o.invoices|
  {
    var inv, key := o.invoices[i], NumberKey("F", date / 10000);
    && o'.invoices == o.invoices[i := inv.(status := Issued, verifactu := if verifactu then Preparing else NotSent,
                                           number := Some(NextNumber(o.counters, key)), issueDate := date)]
    && o'.counters == o.counters[key := NextNumber(o.counters, key) + 1]
    && EntryPosted(o.ledger, o'.ledger, date, InvoiceEntry(i), None, inv.totals.taxed.total)
  }

  /** The whole of issuing: it succeeds exactly when the invoice can be issued and the fiscal record prepared; it is
      out of order only behind a later date of the series, never on the latest date or after it. */
  lemma IssueVerdict(plan: seq<PlanAccount>, actions: seq<Action>, i: nat, origin: InvoiceOrigin, date: int, verifactu: bool, prepared: bool)
    requires ValidPlan(plan)
    ensures var o := OfficeAfter(plan, actions);
            var (o', v) := Issue(o, i, origin, date, verifactu, prepared);
            && (v.Performed? <==> CanIssue(o, i, origin, date) && (verifactu ==> prepared))
            && (v == Blocked(OutOfOrder) ==> LaterStands(o.invoices, "F", date))
            && (v.Performed? ==> IssuedAs(o, o', i, date, verifactu))
            && (!v.Performed? ==> o' == o)
  {
    hide *;
    OfficeHolds(plan, actions);
    IssueDecidedPlainly(OfficeAfter(plan, actions), i, origin, date, verifactu, prepared);
  }

  lemma IssueDecidedPlainly(o: Office, i: nat, origin: InvoiceOrigin, date: int, verifactu: bool, prepared: bool)
    requires OfficeInv(o)
    ensures var (o', v) := Issue(o, i, origin, date, verifactu, prepared);
            && (v.Performed? <==> CanIssue(o, i, origin, date) && (verifactu ==> prepared))
            && (v == Blocked(OutOfOrder) ==> LaterStands(o.invoices, "F", date))
            && (v.Performed? ==> IssuedAs(o, o', i, date, verifactu))
            && (!v.Performed? ==> o' == o)
  {
    hide OfficeInv, Issue, IssuedAs, IssueObstacle, CanIssue, IssueDone, LaterStands;
    var (o', v) := Issue(o, i, origin, date, verifactu, prepared);
    IssueDecided(o, i, origin, date, verifactu, prepared);
    IssueObstacleMeans(o, i, origin, date);
    IssueBlocks(o, i, origin, date, verifactu, prepared);
    var inv, e, y := IssueShape(o, i, origin, date, verifactu, prepared);
    if v.Performed? {
      IssueFiscal(o, i, origin, date, verifactu, prepared);
      IssuedIs(o, o', i, date, inv, e, y, verifactu);
    }
  }

  lemma IssueBlocks(o: Office, i: nat, origin: InvoiceOrigin, date: int, verifactu: bool, prepared: bool)
    ensures Issue(o, i, origin, date, verifactu, prepared).1 == Blocked(OutOfOrder) ==> IssueObstacle(o, i, origin, date) == Some(OutOfOrder)
    ensures Issue(o, i, origin, date, verifactu, prepared).1.Performed? ==> IssueObstacle(o, i, origin, date).None?
  {
    hide IssueObstacle, TableAccepts;
  }

  lemma IssueFiscal(o: Office, i: nat, origin: InvoiceOrigin, date: int, verifactu: bool, prepared: bool)
    ensures var (o', v) := Issue(o, i, origin, date, verifactu, prepared);
            v.Performed? ==> i < |o'.invoices| && o'.invoices[i].verifactu == if verifactu then Preparing else NotSent
  {
    hide TableAccepts, AccountsAvailable, ChronologyViolation, IssueLines, LedgerTotal;
  }

  lemma IssueObstacleMeans(o: Office, i: nat, origin: InvoiceOrigin, date: int)
    requires OfficeInv(o)
    ensures CanIssue(o, i, origin, date) <==> IssueObstacle(o, i, origin, date).None? && o.invoices[i].totals.taxed.total != 0
    ensures IssueObstacle(o, i, origin, date) == Some(OutOfOrder) ==> LaterStands(o.invoices, "F", date)
  {
    hide OfficeInv, StandardSound, PostingObstacle, CanPost, DueTotal, Sum, LaterStands, NoneLater, ChronologyViolation;
    if i < |o.invoices| && o.invoices[i].status == Draft {
      DraftIsStandard(o, i);
      SeriesOfStandard(o, i);
      PostingDecided(o, i, date);
      DuesAreSummed(o.invoices[i].dueDates);
      PostingIsNotOrder(o.ledger, o.invoices[i], date);
      OrderMeans(o.invoices, "F", date);
    }
  }

  lemma SeriesOfStandard(o: Office, i: nat)
    requires OfficeInv(o) && i < |o.invoices| && o.invoices[i].documentType == Standard
    ensures o.invoices[i].series == "F"
  {
    InvoiceIsSound(o, i);
  }

  lemma PostingIsNotOrder(s: State, inv: Invoice, date: int)
    ensures PostingObstacle(s, inv, date) != Some(OutOfOrder)
  {
    hide AccountsAvailable, LedgerTotal;
  }

  lemma IssuedIs(o: Office, o': Office, i: nat, date: int, inv: Invoice, e: Entry, y: nat, verifactu: bool)
    requires OfficeInv(o) && IssueDone(o, o', i, date, inv, e, y)
    requires o'.invoices[i].verifactu == if verifactu then Preparing else NotSent
    ensures IssuedAs(o, o', i, date, verifactu)
  {
    hide OfficeInv, Inv, TableAccepts, AccountsAvailable, ChronologyViolation, IssueLines, LedgerTotal, OpenYearAt, LinesComputed, LastSequence;
    DraftIsStandard(o, i);
    NumberedNext(o, y);
    OfficeParts(o);
    TakenDateFound(o.ledger, y, date);
  }

  lemma NumberedNext(o: Office, y: nat)
    requires OfficeInv(o)
    ensures LastSequence(o.ledger.entries, y) == CountYear(o.ledger.entries, y)
  {
    assert Sequenced(o.ledger.entries);
    LastSequenceIsCount(o.ledger.entries, y);
  }

  // ---------- rectifying ----------

  /** Nothing collected, or everything. */
  ghost predicate Uncollected(inv: Invoice) {
    inv.payment == Pending && forall k :: 0 <= k < |inv.dueDates| ==>
      inv.dueDates[k].status == DuePending && inv.dueDates[k].payments == [] && !inv.dueDates[k].hasReturn && !inv.dueDates[k].activeRemittance
  }

  ghost predicate Collected(inv: Invoice) {
    && inv.payment == Paid
    && (forall k :: 0 <= k < |inv.dueDates| ==>
          inv.dueDates[k].status == DuePaid && !inv.dueDates[k].hasReturn && !inv.dueDates[k].activeRemittance)
    && Sum(PaidAmounts(inv.dueDates)) == inv.totals.taxed.total
  }

  /** With fiscal records, an accepted one in order; without, an invoice that never had one. */
  ghost predicate FiscallyFree(inv: Invoice, verifactu: bool, evidence: bool) {
    && (verifactu ==> evidence && (inv.verifactu == VerifactuStatus.Accepted || inv.verifactu == AcceptedWithErrors))
    && (!verifactu ==> inv.verifactu == NotSent)
  }

  /** An ordinary issued invoice, collected wholly or not at all and fiscally free; no rectification out of the draft is
      dated later; and its entry can be posted. */
  ghost predicate CanRectify(o: Office, i: nat, date: int, verifactu: bool, evidence: bool) {
    && i < |o.invoices|
    && var inv := o.invoices[i];
    && inv.documentType == Standard && inv.status == Issued && (Uncollected(inv) || Collected(inv)) && FiscallyFree(inv, verifactu, evidence)
    && NoneLater(o.invoices, "R", date)
    && CanPost(o.ledger, inv, date)
  }

  /** The original is rectified; if nothing was collected its payment is cancelled along with every due date. */
  ghost predicate OriginalAfter(inv: Invoice, inv': Invoice) {
    && inv' == inv.(status := Rectified, payment := inv'.payment, dueDates := inv'.dueDates)
    && (Uncollected(inv) ==>
          && inv'.payment == PaymentCancelled && |inv'.dueDates| == |inv.dueDates|
          && forall k :: 0 <= k < |inv.dueDates| ==> inv'.dueDates[k] == inv.dueDates[k].(status := DueCancelled))
    && (!Uncollected(inv) ==> inv'.payment == Paid && inv'.dueDates == inv.dueDates)
  }

  ghost predicate RectifiedAs(o: Office, o': Office, i: nat, date: int, verifactu: bool)
    requires i < |o.invoices|
  {
    var inv, key, n := o.invoices[i], NumberKey("R", date / 10000), |o.invoices|;
    && |o'.invoices| == n + 1 && OriginalAfter(inv, o'.invoices[i])
    && (forall j :: 0 <= j < n && j != i ==> o'.invoices[j] == o.invoices[j])
    && var r := o'.invoices[n];
    && r == Invoice(Rectification, ByHand, Issued, NotApplicable, if verifactu then Preparing else NotSent, "R", Some(NextNumber(o.counters, key)),
                    inv.customerCode, date, r.lines, r.totals, [], Some(i))
    && Opposes(r, inv)
    && o'.counters == o.counters[key := NextNumber(o.counters, key) + 1]
    && EntryPosted(o.ledger, o'.ledger, date, InvoiceEntry(n), None, inv.totals.taxed.total)
  }

  /** The whole of rectifying, likewise. */
  lemma RectifyVerdict(plan: seq<PlanAccount>, actions: seq<Action>, i: nat, date: int, verifactu: bool, evidence: bool, prepared: bool)
    requires ValidPlan(plan)
    ensures var o := OfficeAfter(plan, actions);
            var (o', v) := Rectify(o, i, date, verifactu, evidence, prepared);
            && (v.Performed? <==> CanRectify(o, i, date, verifactu, evidence) && (verifactu ==> prepared))
            && (v == Blocked(OutOfOrder) ==> LaterStands(o.invoices, "R", date))
            && (v.Performed? ==> RectifiedAs(o, o', i, date, verifactu))
            && (!v.Performed? ==> o' == o)
  {
    hide *;
    OfficeHolds(plan, actions);
    RectifyDecidedPlainly(OfficeAfter(plan, actions), i, date, verifactu, evidence, prepared);
  }

  lemma RectifyDecidedPlainly(o: Office, i: nat, date: int, verifactu: bool, evidence: bool, prepared: bool)
    requires OfficeInv(o)
    ensures var (o', v) := Rectify(o, i, date, verifactu, evidence, prepared);
            && (v.Performed? <==> CanRectify(o, i, date, verifactu, evidence) && (verifactu ==> prepared))
            && (v == Blocked(OutOfOrder) ==> LaterStands(o.invoices, "R", date))
            && (v.Performed? ==> RectifiedAs(o, o', i, date, verifactu))
            && (!v.Performed? ==> o' == o)
  {
    hide OfficeInv, Rectify, RectifiedAs, RectifyObstacle, CanRectify, RectifyDone, LaterStands;
    var (o', v) := Rectify(o, i, date, verifactu, evidence, prepared);
    RectifyDecided(o, i, date, verifactu, evidence, prepared);
    RectifyObstacleMeans(o, i, date, verifactu, evidence);
    RectifyBlocks(o, i, date, verifactu, evidence, prepared);
    var inv, r, e, y := RectifyShape(o, i, date, verifactu, evidence, prepared);
    if v.Performed? {
      RectifyFiscal(o, i, date, verifactu, evidence, prepared);
      RectifyAdds(o, o', i, date, inv, r, e, y);
      RectifiedIs(o, o', i, date, inv, r, e, y, verifactu);
    }
  }

  lemma RectifyBlocks(o: Office, i: nat, date: int, verifactu: bool, evidence: bool, prepared: bool)
    ensures Rectify(o, i, date, verifactu, evidence, prepared).1 == Blocked(OutOfOrder) ==> RectifyObstacle(o, i, date, verifactu, evidence) == Some(OutOfOrder)
    ensures Rectify(o, i, date, verifactu, evidence, prepared).1.Performed? ==> RectifyObstacle(o, i, date, verifactu, evidence).None?
  {
    hide RectifyObstacle, TableAccepts, RectificationOf, AfterRectification;
  }

  lemma RectifyAdds(o: Office, o': Office, i: nat, date: int, inv: Invoice, r: Invoice, e: Entry, y: nat)
    requires RectifyDone(o, o', i, date, inv, r, e, y)
    ensures i < |o.invoices| && |o'.invoices| == |o.invoices| + 1 && o'.invoices[|o.invoices|] == r
  {
    hide TableAccepts, AccountsAvailable, ChronologyViolation, RectifyLines, LedgerTotal, IsRectified, RectificationOf, AfterRectification;
  }

  lemma RectifyFiscal(o: Office, i: nat, date: int, verifactu: bool, evidence: bool, prepared: bool)
    ensures var (o', v) := Rectify(o, i, date, verifactu, evidence, prepared);
            v.Performed? ==> |o'.invoices| == |o.invoices| + 1 && o'.invoices[|o.invoices|].verifactu == if verifactu then Preparing else NotSent
  {
    hide TableAccepts, AccountsAvailable, ChronologyViolation, RectifyLines, LedgerTotal, IsRectified, CleanUnpaid, CleanPaid, VerifactuAllows, AfterRectification;
  }

  lemma RectifyObstacleMeans(o: Office, i: nat, date: int, verifactu: bool, evidence: bool)
    requires OfficeInv(o)
    ensures CanRectify(o, i, date, verifactu, evidence) <==> RectifyObstacle(o, i, date, verifactu, evidence).None?
    ensures RectifyObstacle(o, i, date, verifactu, evidence) == Some(OutOfOrder) ==> LaterStands(o.invoices, "R", date)
  {
    hide OfficeInv, PostingObstacle, CanPost, IsRectified, OneEntryEach, LaterStands, NoneLater, ChronologyViolation;
    hide Uncollected, Collected, CleanUnpaid, CleanPaid, FiscallyFree, VerifactuAllows;
    if i < |o.invoices| && o.invoices[i].documentType == Standard && o.invoices[i].status == Issued {
      StatusesMatch(o, i);
      PostingDecided(o, i, date);
      PostingIsNotOrder(o.ledger, o.invoices[i], date);
      CollectionMeans(o.invoices[i]);
      FiscalMeans(o.invoices[i], verifactu, evidence);
      OrderMeans(o.invoices, "R", date);
    }
  }

  lemma CollectionMeans(inv: Invoice)
    ensures CleanUnpaid(inv) <==> Uncollected(inv)
    ensures CleanPaid(inv) <==> Collected(inv)
  {
    hide NetPaid, Sum;
    PaymentsAreSummed(inv.dueDates);
  }

  lemma FiscalMeans(inv: Invoice, verifactu: bool, evidence: bool)
    ensures VerifactuAllows(inv, verifactu, evidence) <==> FiscallyFree(inv, verifactu, evidence)
  {
  }

  lemma RectifiedIs(o: Office, o': Office, i: nat, date: int, inv: Invoice, r: Invoice, e: Entry, y: nat, verifactu: bool)
    requires OfficeInv(o) && RectifyDone(o, o', i, date, inv, r, e, y)
    requires r.verifactu == if verifactu then Preparing else NotSent
    ensures RectifiedAs(o, o', i, date, verifactu)
  {
    hide OfficeInv, Inv, TableAccepts, AccountsAvailable, ChronologyViolation, RectifyLines, LedgerTotal, OpenYearAt, LastSequence, IsRectified;
    NumberedNext(o, y);
    OfficeParts(o);
    NeverUnbalanced(o, i);
    TakenDateFound(o.ledger, y, date);
  }

  // ---------- voiding ----------

  /** Nothing was ever paid, returned or remitted, and every due date is pending. */
  ghost predicate NeverCollected(inv: Invoice) {
    forall k :: 0 <= k < |inv.dueDates| ==>
      inv.dueDates[k].status == DuePending && inv.dueDates[k].payments == [] && !inv.dueDates[k].hasReturn && !inv.dueDates[k].everRemitted
  }

  /** An ordinary issued invoice whose fiscal record was cancelled, never collected, whose entry was not reversed
      and stands in an open year that takes the date; the date is not before the issue. */
  ghost predicate CanVoid(o: Office, i: nat, date: int, evidence: bool) {
    && i < |o.invoices|
    && var inv := o.invoices[i];
    && inv.documentType == Standard && inv.status == Issued && inv.verifactu == VerifactuCancelled && evidence && NeverCollected(inv)
    && inv.issueDate <= date
    && exists x: nat :: EntryCanBeVoided(o.ledger, i, x, date)
  }

  ghost predicate EntryCanBeVoided(s: State, i: nat, x: nat, date: int) {
    x < |s.entries| && s.entries[x].origin == InvoiceEntry(i) && TakesDate(s.years, s.entries[x].fiscalYear, date) && !ReversedBy(s.entries, x)
  }

  /** The contra entry is posted in the year of the original, the payment is cancelled, and so is every due date. */
  ghost predicate VoidedAs(o: Office, o': Office, i: nat, date: int)
    requires i < |o.invoices|
  {
    var inv := o.invoices[i];
    && |o'.invoices| == |o.invoices| && o'.invoices == o.invoices[i := o'.invoices[i]] && o'.counters == o.counters
    && o'.invoices[i] == inv.(status := Voided, payment := PaymentCancelled, dueDates := o'.invoices[i].dueDates)
    && |o'.invoices[i].dueDates| == |inv.dueDates|
    && (forall k :: 0 <= k < |inv.dueDates| ==> o'.invoices[i].dueDates[k] == inv.dueDates[k].(status := DueCancelled))
    && exists x: nat :: EntryCanBeVoided(o.ledger, i, x, date) && ContraPosted(o.ledger, o'.ledger, i, x, date)
  }

  ghost predicate ContraPosted(s: State, s': State, i: nat, x: nat, date: int) {
    && x < |s.entries|
    && EntryPosted(s, s', date, InvoiceVoiding(i), Some(x), s.entries[x].totalDebit)
    && s'.entries[|s.entries|].fiscalYear == s.entries[x].fiscalYear
    && s'.entries[|s.entries|].lines == Mirror(s.entries[x].lines)
  }

  /** The whole of voiding. */
  lemma VoidVerdict(plan: seq<PlanAccount>, actions: seq<Action>, i: nat, date: int, evidence: bool)
    requires ValidPlan(plan)
    ensures var o := OfficeAfter(plan, actions);
            var (o', v) := Void(o, i, date, evidence);
            && (v.Performed? <==> CanVoid(o, i, date, evidence))
            && (v.Performed? ==> VoidedAs(o, o', i, date))
            && (!v.Performed? ==> o' == o)
  {
    hide *;
    OfficeHolds(plan, actions);
    VoidDecidedPlainly(OfficeAfter(plan, actions), i, date, evidence);
  }

  lemma VoidDecidedPlainly(o: Office, i: nat, date: int, evidence: bool)
    requires OfficeInv(o)
    ensures var (o', v) := Void(o, i, date, evidence);
            && (v.Performed? <==> CanVoid(o, i, date, evidence))
            && (v.Performed? ==> VoidedAs(o, o', i, date))
            && (!v.Performed? ==> o' == o)
  {
    hide OfficeInv, Void, VoidedAs, VoidObstacle, CanVoid, VoidDone;
    var (o', v) := Void(o, i, date, evidence);
    VoidDecided(o, i, date, evidence);
    VoidObstacleMeans(o, i, date, evidence);
    var inv, x, e := VoidShape(o, i, date, evidence);
    if v.Performed? {
      VoidedDues(o, i, date, evidence);
      VoidReplaces(o, o', i, date, inv, x, e);
      VoidedIs(o, o', i, date, inv, x, e);
    }
  }

  lemma VoidedDues(o: Office, i: nat, date: int, evidence: bool)
    ensures var (o', v) := Void(o, i, date, evidence);
            v.Performed? ==>
              && i < |o.invoices| == |o'.invoices| && |o'.invoices[i].dueDates| == |o.invoices[i].dueDates|
              && forall k :: 0 <= k < |o.invoices[i].dueDates| ==> o'.invoices[i].dueDates[k] == o.invoices[i].dueDates[k].(status := DueCancelled)
  {
    hide VoidObstacle, TableAccepts;
    var (o', v) := Void(o, i, date, evidence);
    if v.Performed? {
      assert i < |o.invoices| by { VoidKnowsInvoice(o, i, date, evidence); }
    }
  }

  lemma VoidKnowsInvoice(o: Office, i: nat, date: int, evidence: bool)
    ensures VoidObstacle(o, i, date, evidence).None? ==> i < |o.invoices|
  {
  }

  lemma VoidReplaces(o: Office, o': Office, i: nat, date: int, inv: Invoice, x: nat, e: Entry)
    requires VoidDone(o, o', i, date, inv, x, e)
    ensures i < |o.invoices| == |o'.invoices| && o'.invoices[i] == inv
  {
    hide TableAccepts, ReversedBy, VoidDateAllowed, Mirror;
  }

  lemma VoidObstacleMeans(o: Office, i: nat, date: int, evidence: bool)
    requires OfficeInv(o)
    ensures CanVoid(o, i, date, evidence) <==> VoidObstacle(o, i, date, evidence).None?
  {
    hide OfficeInv, Inv, IsRectified, OneEntryEach, ReversedBy, DebitTotal, CreditTotal, AllOneSided, HasActivity, NeverCollected, FindEntry;
    if i < |o.invoices| && o.invoices[i].documentType == Standard && o.invoices[i].status == Issued {
      StatusesMatch(o, i);
      OfficeParts(o);
      var x := FindEntry(o.ledger.entries, InvoiceEntry(i)).value;
      SoundNotEmpty(o.ledger, x);
      OnlyEntryFound(o, i);
      ActivityMeans(o.invoices[i]);
      VoidFreeOf(o, i, x, date, evidence);
    }
  }

  lemma ActivityMeans(inv: Invoice)
    ensures NeverCollected(inv) <==> !HasActivity(inv) && !exists k :: 0 <= k < |inv.dueDates| && inv.dueDates[k].status != DuePending
  {
  }

  lemma VoidFreeOf(o: Office, i: nat, x: nat, date: int, evidence: bool)
    requires i < |o.invoices| && o.invoices[i].documentType == Standard && o.invoices[i].status == Issued
    requires FindEntry(o.ledger.entries, InvoiceVoiding(i)).None? && !IsRectified(o.invoices, i)
    requires FindEntry(o.ledger.entries, InvoiceEntry(i)) == Some(x)
    requires o.ledger.entries[x].lines != [] && o.ledger.entries[x].totalDebit == o.ledger.entries[x].totalCredit
    requires forall k: nat :: k < |o.ledger.entries| && o.ledger.entries[k].origin == InvoiceEntry(i) ==> k == x
    requires var inv := o.invoices[i];
             NeverCollected(inv) <==> !HasActivity(inv) && !exists k :: 0 <= k < |inv.dueDates| && inv.dueDates[k].status != DuePending
    ensures CanVoid(o, i, date, evidence) <==> VoidObstacle(o, i, date, evidence).None?
  {
    hide IsRectified, ReversedBy, HasActivity, NeverCollected, FindEntry;
    assert EntryCanBeVoided(o.ledger, i, x, date) <==>
      TakesDate(o.ledger.years, o.ledger.entries[x].fiscalYear, date) && !ReversedBy(o.ledger.entries, x);
    forall k: nat | EntryCanBeVoided(o.ledger, i, k, date) ensures k == x { }
  }

  /** The entry found for a document is the only one. */
  lemma OnlyEntryFound(o: Office, i: nat)
    requires OneEntryEach(o.ledger.entries)
    ensures forall x: nat :: x < |o.ledger.entries| && o.ledger.entries[x].origin == InvoiceEntry(i) ==> FindEntry(o.ledger.entries, InvoiceEntry(i)) == Some(x)
  {
  }

  lemma VoidedIs(o: Office, o': Office, i: nat, date: int, inv: Invoice, x: nat, e: Entry)
    requires OfficeInv(o) && VoidDone(o, o', i, date, inv, x, e)
    requires |inv.dueDates| == |o.invoices[i].dueDates|
    requires forall k :: 0 <= k < |inv.dueDates| ==> inv.dueDates[k] == o.invoices[i].dueDates[k].(status := DueCancelled)
    ensures VoidedAs(o, o', i, date)
  {
    hide OfficeInv, Inv, TableAccepts, LastSequence, ReversedBy, DebitTotal, CreditTotal, AllOneSided;
    var y := o.ledger.entries[x].fiscalYear;
    NumberedNext(o, y);
    OfficeParts(o);
    SoundNotEmpty(o.ledger, x);
    assert TakesDate(o.ledger.years, y, date);
    assert EntryCanBeVoided(o.ledger, i, x, date) && ContraPosted(o.ledger, o'.ledger, i, x, date);
  }
}
