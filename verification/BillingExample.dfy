/**
 A concrete run in which issuing passes every check and is then refused by the journal: an invoice
 whose only line is free of charge.
 */
module BillingExample {
  import opened Ledger
  import opened Settlement
  import opened FiscalCycle
  import opened CycleInvariant
  import opened CycleRuns
  import opened CycleExample
  import opened Calculations
  import opened Billing
  import opened BillingEntries
  import opened BillingInvariant
  import opened BillingSteps
  import opened BillingDocuments
  import opened BillingTheorems

  const FREE := DraftLine(true, "IVA21", LineInput(1000, 0, 0, 0, 2100))
  const CUSTOMER := CmdCreateAccount(None, None, "430000007", "Cliente", "ASSET", 9, true)
  const ACTIONS := [DoLedger(CmdInitialize(2024)), DoLedger(CUSTOMER), DoDraft("7", 20240601, 20240701), DoAddLine(0, FREE)]

  const ROW := Account(0, None, None, "430000007", "Cliente", true, "ASSET", 9, true)
  const AFTER_CUSTOMER := EMPTY.(years := YEARS, accounts := ACCOUNTS + [ROW])
  const NO_TOTALS := Totals(0, 0, NOTHING)
  const BLANK := NewDraft(ByHand, "7", 20240601, [], NO_TOTALS, 20240701)
  const FILLED := BLANK.(lines := [MakeLine(FREE)])

  lemma FirstAction()
    ensures Act(PLAN, NO_OFFICE, ACTIONS[0]).0 == NO_OFFICE.(ledger := EMPTY.(years := YEARS, accounts := ACCOUNTS))
  {
    hide Step;
    AfterInitialize();
  }

  lemma CustomerAction()
    ensures Act(PLAN, NO_OFFICE.(ledger := EMPTY.(years := YEARS, accounts := ACCOUNTS)), ACTIONS[1]).0 == NO_OFFICE.(ledger := AFTER_CUSTOMER)
  {
    assert LatestOpen(YEARS) == Some(0);
    assert ACCOUNTS[0].code[0] == '1' && ACCOUNTS[1].code[0] == '6' && ACCOUNTS[2].code[0] == '7' && "430000007"[0] == '4';
    assert !CodeTaken(ACCOUNTS, 0, "430000007");
    assert DigitCode("430000007");
  }

  lemma OpenDates()
    ensures OpenYearAt(YEARS, 20240601) == Some(0) && OpenYearAt(YEARS, 20240615) == Some(0)
  {
  }

  lemma NoLines()
    ensures Calculated([]) == [] && CalculateTotals([]) == NO_TOTALS
  {
  }

  lemma DraftAction()
    ensures Act(PLAN, NO_OFFICE.(ledger := AFTER_CUSTOMER), ACTIONS[2]).0 == Office(AFTER_CUSTOMER, [BLANK], map[])
  {
    hide OpenYearAt, CalculateTotals;
    OpenDates();
    NoLines();
    assert NO_OFFICE.invoices + [BLANK] == [BLANK];
  }

  lemma FreeLine()
    ensures ValidInput(FREE.input) && MakeLine(FREE).calculated.amounts == LineAmounts(0, 0, NOTHING)
  {
    hide CalculateLine;
    FreeOfCharge(FREE.input);
  }

  lemma LineAction()
    ensures Act(PLAN, Office(AFTER_CUSTOMER, [BLANK], map[]), ACTIONS[3]).0 == Office(AFTER_CUSTOMER, [FILLED], map[])
  {
    FreeLine();
    hide MakeLine, CalculateTotals, ValidInput;
    assert BLANK.lines + [MakeLine(FREE)] == [MakeLine(FREE)];
    assert Calculated([MakeLine(FREE)]) == [MakeLine(FREE).calculated];
    OneFreeLine(MakeLine(FREE).calculated);
    assert Recalculate(FILLED) == FILLED;
    assert [BLANK][0 := FILLED] == [FILLED];
  }

  lemma AfterActions()
    ensures OfficeAfter(PLAN, ACTIONS) == Office(AFTER_CUSTOMER, [FILLED], map[])
  {
    hide Act;
    FirstAction();
    CustomerAction();
    DraftAction();
    LineAction();
    assert ACTIONS[1..] == [ACTIONS[1], ACTIONS[2], ACTIONS[3]];
    assert ACTIONS[1..][1..] == [ACTIONS[2], ACTIONS[3]] && [ACTIONS[2], ACTIONS[3]][1..] == [ACTIONS[3]] && [ACTIONS[3]][1..] == [];
    var o1 := NO_OFFICE.(ledger := EMPTY.(years := YEARS, accounts := ACCOUNTS));
    var o2 := NO_OFFICE.(ledger := AFTER_CUSTOMER);
    var o3 := Office(AFTER_CUSTOMER, [BLANK], map[]);
    assert Acts(PLAN, o3, [ACTIONS[3]]) == Act(PLAN, o3, ACTIONS[3]).0;
    assert Acts(PLAN, o2, [ACTIONS[2], ACTIONS[3]]) == Acts(PLAN, o3, [ACTIONS[3]]);
    assert Acts(PLAN, o1, ACTIONS[1..]) == Acts(PLAN, o2, [ACTIONS[2], ACTIONS[3]]);
  }

  lemma CustomerFound()
    ensures CustomerAccount("7") == "430000007"
    ensures AccountFor(AFTER_CUSTOMER.accounts, 0, "430000007") == Some(3)
  {
    assert "0" + "7" == "07" && "0" + "07" == "007" && "0" + "007" == "0007" && "0" + "0007" == "00007" && "0" + "00007" == "000007";
    assert PadStart("0007", 6) == "000007";
    assert PadStart("7", 6) == PadStart("0007", 6);
    assert AFTER_CUSTOMER.accounts[3] == ROW;
  }

  lemma NothingToPay()
    ensures BaseOf(FILLED.lines, true) == 0 && BaseOf(FILLED.lines, false) == 0 && FILLED.totals == NO_TOTALS
  {
    FreeLine();
    hide MakeLine;
    OneLineBase(MakeLine(FREE), true);
    OneLineBase(MakeLine(FREE), false);
  }

  lemma NothingStandsInTheWay()
    ensures IssueObstacle(Office(AFTER_CUSTOMER, [FILLED], map[]), 0, ByHand, 20240615).None?
  {
    CustomerFound();
    NothingToPay();
    SingleDue(FILLED.dueDates);
    OpenDates();
    hide OpenYearAt, BaseOf, DueTotal, AccountFor, CustomerAccount, MakeLine;
  }

  /** Every check passes, and the journal refuses the entry. */
  lemma FreeInvoiceAborts()
    ensures ValidPlan(PLAN)
    ensures var o := OfficeAfter(PLAN, ACTIONS);
            IssueObstacle(o, 0, ByHand, 20240615).None? && Issue(o, 0, ByHand, 20240615, false, false).1 == Aborted(CheckViolation)
  {
    hide IssueObstacle, Issue, Acts;
    PlanIsValid();
    AfterActions();
    NothingStandsInTheWay();
    IssueOutcome(PLAN, ACTIONS, 0, ByHand, 20240615, false, false);
  }
}
