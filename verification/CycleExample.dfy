/**
 A concrete run in which a close that passes its preflight throws: purchases and sales of the same
 amount, so that groups 6 and 7 carry balances and the result of the year is exactly zero.
 */
module CycleExample {
  import opened Ledger
  import opened Settlement
  import opened FiscalCycle
  import opened CycleInvariant
  import opened CycleClose
  import opened CycleRuns
  import opened CycleTheorems

  const RESULT := PlanAccount("129000000", "Resultado", "EQUITY", true)
  const PURCHASES := PlanAccount("600000000", "Compras", "EXPENSE", true)
  const SALES := PlanAccount("700000000", "Ventas", "INCOME", true)
  const PLAN := [RESULT, PURCHASES, SALES]

  const LINES := [Line(1, "Compra", 100, 0), Line(2, "Venta", 0, 100)]
  const ASKS := Context(1, "first", "h1")
  const APPROVES := Context(2, "second", "h2")
  const CALM := OutsideJournal(0, 0, 0, 0, 0, 0, 0)
  const COMMANDS := [CmdInitialize(2024), CmdManualEntry(20240601, LINES), CmdRequestClose(0, ASKS, CALM)]

  const YEARS := [FiscalYear(2024, Open, None, None, None)]
  const ACCOUNTS := [PlanRow(RESULT), PlanRow(PURCHASES), PlanRow(SALES)]
  const ENTRY := Entry(0, 2024, 1, 20240601, Manual, None, 100, 100, LINES)
  const REQUEST := CloseRequest(0, Requested, 1, None, None, None, None, None, None, None, None)

  lemma PlanIsValid()
    ensures ValidPlan(PLAN)
  {
    assert PLAN[0] == RESULT;
  }

  lemma AfterInitialize()
    ensures Step(PLAN, EMPTY, COMMANDS[0]).0 == EMPTY.(years := YEARS, accounts := ACCOUNTS)
  {
  }

  lemma LinesAddUp()
    ensures DebitTotal(LINES) == 100 == CreditTotal(LINES)
    ensures LineNet(LINES, 1) == 100 && LineNet(LINES, 2) == -100 && LineNet(LINES, 0) == 0
  {
    assert LINES[..1] == [LINES[0]];
    LinesSnoc([], LINES[0]);
    LinesSnoc([LINES[0]], LINES[1]);
    assert LINES == [] + [LINES[0]] + [LINES[1]];
    assert LINES == [LINES[0]] + [LINES[1]];
    assert [] + [LINES[0]] == [LINES[0]];
  }

  lemma AfterEntry()
    ensures Step(PLAN, EMPTY.(years := YEARS, accounts := ACCOUNTS), COMMANDS[1]).0
         == EMPTY.(years := YEARS, accounts := ACCOUNTS, entries := [ENTRY])
  {
    LinesAddUp();
    assert LINES[0].debit > 0 && LINES[1].credit > 0;
    assert OpenYearAt(YEARS, 20240601) == Some(0);
  }

  lemma Balances(a: nat)
    ensures YearBalance([ENTRY], 0, a) == Balance([ENTRY], a) == LineNet(LINES, a)
  {
    JournalSnoc([], ENTRY);
    assert [] + [ENTRY] == [ENTRY];
  }

  ghost function Posted(): State {
    EMPTY.(years := YEARS, accounts := ACCOUNTS, entries := [ENTRY])
  }

  lemma PostedHolds()
    ensures Inv(Posted())
  {
    hide Inv, Step;
    PlanIsValid();
    AfterInitialize();
    AfterEntry();
    EmptyHolds();
    StepKeeps(PLAN, EMPTY, COMMANDS[0]);
    StepKeeps(PLAN, EMPTY.(years := YEARS, accounts := ACCOUNTS), COMMANDS[1]);
  }

  lemma NoUnsupported()
    ensures UnsupportedAtZero(Posted(), 0)
  {
    assert ACCOUNTS[0].code[0] == '1' && ACCOUNTS[1].code[0] == '6' && ACCOUNTS[2].code[0] == '7';
  }

  lemma AfterAsking()
    ensures Step(PLAN, Posted(), COMMANDS[2]).0
         == Posted().(closes := [REQUEST], replies := map["first" := Reply("h1", 201, CloseView(0, REQUEST))])
  {
    PostedHolds();
    NoUnsupported();
    ReadyMeans(Posted(), 0, CALM);
    hide Inv, CloseReady, UnsupportedAtZero;
    assert FindYear(YEARS, 2025).None?;
  }

  /** Every command of the run succeeds and leaves a pending request. */
  lemma AfterRequest()
    ensures var s := Reached(PLAN, COMMANDS);
            s.years == YEARS && s.accounts == ACCOUNTS && s.entries == [ENTRY] && s.closes == [REQUEST] && s.replies.Keys == {"first"}
  {
    hide Step;
    AfterInitialize();
    AfterEntry();
    AfterAsking();
    var s1 := EMPTY.(years := YEARS, accounts := ACCOUNTS);
    assert COMMANDS == [COMMANDS[0]] + [COMMANDS[1]] + [COMMANDS[2]];
    assert COMMANDS[1..] == [COMMANDS[1], COMMANDS[2]] && COMMANDS[1..][1..] == [COMMANDS[2]] && [COMMANDS[2]][1..] == [];
    assert Run(PLAN, Posted(), [COMMANDS[2]]) == Step(PLAN, Posted(), COMMANDS[2]).0;
    assert Run(PLAN, s1, COMMANDS[1..]) == Run(PLAN, Posted(), [COMMANDS[2]]);
  }

  /** A close whose preflight is ready and whose approval nevertheless throws. */
  lemma ReadyCloseCanThrow()
    ensures ValidPlan(PLAN)
    ensures var s := Reached(PLAN, COMMANDS);
            CloseReady(s, 0, CALM) && ApproveClose(s, 0, 0, APPROVES, CALM).1 == Thrown(CheckViolation)
  {
    PlanIsValid();
    AfterRequest();
    var s := Reached(PLAN, COMMANDS);
    ReachedInv(PLAN, COMMANDS);
    ReadyMeans(s, 0, CALM);
    assert UnsupportedAtZero(s, 0);
    ResultIsZero(s);
    CloseOutcome(PLAN, COMMANDS, 0, 0, APPROVES, CALM);
  }

  lemma ResultIsZero(s: State)
    requires s.accounts == ACCOUNTS && s.entries == [ENTRY]
    ensures ZeroResult(s, 0)
  {
    LinesAddUp();
    Balances(0);
    Balances(1);
    Balances(2);
    var ids := YearAccounts(ACCOUNTS, 0);
    AccountsDistinct(ACCOUNTS, 0, 3);
    assert InGroup(ACCOUNTS[1], Results) && YearBalance([ENTRY], 0, 1) != 0;
    assert 1 in ids;
    BothCounted(ids);
  }

  /** Whatever the order of the accounts, the balances of purchases and sales cancel. */
  lemma {:induction false} BothCounted(ids: seq<nat>)
    requires Known(ids, ACCOUNTS) && Distinct(ids)
    requires YearBalance([ENTRY], 0, 1) == 100 && YearBalance([ENTRY], 0, 2) == -100
    ensures GroupTotal(ids, ACCOUNTS, [ENTRY], 0, Results) == (if 1 in ids then 100 else 0) - (if 2 in ids then 100 else 0)
  {
    if ids != [] {
      var front, last := ids[..|ids| - 1], ids[|ids| - 1];
      assert ids == front + [last];
      BothCounted(front);
      assert last !in front;
    }
  }
}
