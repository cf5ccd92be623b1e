/**
 What an approved close posts: the regularization, the closing entry and the opening entry, and the
 copies of the accounts.
 */
module CycleClose {
  import opened Ledger
  import opened Settlement
  import opened FiscalCycle
  import opened CycleInvariant
  import opened CycleSteps

  // ---------- one automatic entry ----------

  /** `p` posted exactly these lines to year `y`, or nothing when there are none. */
  ghost predicate PostedTo(entries: seq<Entry>, p: Posting, y: nat, origin: Origin, lines: seq<Line>) {
    && p.Posted?
    && (lines == [] ==> p == Posted(entries, None))
    && (lines != [] ==>
          && p.id == Some(|entries|)
          && |p.entries| == |entries| + 1
          && p.entries == entries + [p.entries[|entries|]]
          && var e := p.entries[|entries|];
             e.fiscalYear == y && e.origin == origin && e.reverses.None? && e.lines == lines)
  }

  ghost predicate JournalKept(years: seq<FiscalYear>, accounts: seq<Account>, entries: seq<Entry>) {
    JournalSound(years, accounts, entries) && Sequenced(entries) && ReversalsUnique(entries)
  }

  lemma PostAutomaticSucceeds(years: seq<FiscalYear>, accounts: seq<Account>, entries: seq<Entry>, y: nat, date: int, origin: Origin, lines: seq<Line>)
    requires JournalKept(years, accounts, entries)
    requires y < |years| && YearOf(date) == years[y].year
    requires LinesInYear(accounts, lines, y) && AllOneSided(lines) && DebitTotal(lines) == CreditTotal(lines)
    ensures var p := PostAutomatic(entries, y, years[y].year, date, origin, lines);
            PostedTo(entries, p, y, origin, lines) && JournalKept(years, accounts, p.entries)
  {
    if lines != [] {
      var e := NewEntry(entries, y, years[y].year, date, origin, None, lines);
      OneSidedTotals(lines);
      assert EntrySound(years, accounts, e);
      JournalAppend(years, accounts, entries, e);
      SequencedSnoc(entries, e);
      ReversalsAppend(entries, e);
    }
  }

  lemma PostedBalances(entries: seq<Entry>, p: Posting, y: nat, origin: Origin, lines: seq<Line>)
    requires PostedTo(entries, p, y, origin, lines)
    ensures forall k: nat, a: nat ::
              YearBalance(p.entries, k, a) == YearBalance(entries, k, a) + if k == y then LineNet(lines, a) else 0
    ensures forall k: nat, a: nat ::
              OpeningsTotal(p.entries, k, a) == OpeningsTotal(entries, k, a) + if k == y && origin == Opening then LineNet(lines, a) else 0
  {
    if lines != [] {
      JournalSnoc(entries, p.entries[|entries|]);
      OpeningsSnoc(entries, p.entries[|entries|]);
    }
  }

  // ---------- regularization ----------

  /** Some result account carries a balance, yet the result of the year is exactly zero. */
  ghost predicate ZeroResult(s: State, y: nat) {
    var ids := YearAccounts(s.accounts, y);
    !GroupAtZero(ids, s.accounts, s.entries, y, Results) && GroupTotal(ids, s.accounts, s.entries, y, Results) == 0
  }

  ghost predicate IsResultAccount(a: Account) {
    a.code == "129000000"
  }

  /** A postable account whose code starts with one of these digits. */
  ghost predicate OfGroups(a: Account, digits: string) {
    a.postable && a.code != "" && a.code[0] in digits
  }

  lemma GroupsMean(a: Account)
    ensures InGroup(a, Results) <==> OfGroups(a, "67")
    ensures InGroup(a, Patrimonial) <==> OfGroups(a, "12345")
  {
    var r, p := "67", "12345";
    assert r[0] == '6' && r[1] == '7' && p[0] == '1' && p[1] == '2' && p[2] == '3' && p[3] == '4' && p[4] == '5';
    forall c: char ensures ('6' <= c <= '7' <==> c in r) && ('1' <= c <= '5' <==> c in p) {
      if '6' <= c <= '7' { assert r[c as int - '6' as int] == c; }
      if '1' <= c <= '5' { assert p[c as int - '1' as int] == c; }
    }
  }

  /** The sum of the year's balances of the listed accounts of groups 6 and 7. */
  ghost function ResultSum(ids: seq<nat>, accounts: seq<Account>, entries: seq<Entry>, y: nat): int
    requires Known(ids, accounts)
  {
    if ids == [] then 0
    else
      var a := ids[|ids| - 1];
      ResultSum(ids[..|ids| - 1], accounts, entries, y) + if OfGroups(accounts[a], "67") then YearBalance(entries, y, a) else 0
  }

  lemma {:induction false} ResultSumIs(ids: seq<nat>, accounts: seq<Account>, entries: seq<Entry>, y: nat)
    requires Known(ids, accounts)
    ensures GroupTotal(ids, accounts, entries, y, Results) == ResultSum(ids, accounts, entries, y)
  {
    hide InGroup, OfGroups, YearBalance;
    if ids != [] {
      ResultSumIs(ids[..|ids| - 1], accounts, entries, y);
      GroupsMean(accounts[ids[|ids| - 1]]);
    }
  }

  lemma ResultAccountFound(s: State, y: nat)
    requires AccountsShaped(s.years, s.accounts) && y < |s.years|
    ensures var r := FindCode(s.accounts, YearAccounts(s.accounts, y), RESULT_ACCOUNT);
            && r.Some? && s.accounts[r.value].postable
            && InGroup(s.accounts[r.value], Patrimonial)
            && (forall a :: a in YearAccounts(s.accounts, y) && IsResultAccount(s.accounts[a]) ==> a == r.value)
  {
    assert HasResultAccount(s.accounts, y);
    var a :| 0 <= a < |s.accounts| && s.accounts[a].fiscalYear == y && s.accounts[a].code == RESULT_ACCOUNT && s.accounts[a].active && s.accounts[a].postable;
    assert a in YearAccounts(s.accounts, y);
    assert CodesUnique(s.accounts);
  }

  /** The settlement of groups 6 and 7, and the line that balances it. */
  ghost function ResultLines(s: State, y: nat): seq<Line> {
    SettlementLines(YearAccounts(s.accounts, y), s.accounts, s.entries, y, Results)
  }

  ghost function BalancingLine(s: State, y: nat, result: nat): Line {
    ClosingLine(result, "Resultado del ejercicio", DebitTotal(ResultLines(s, y)) - CreditTotal(ResultLines(s, y)))
  }

  lemma RegularizationShape(s: State, y: nat) returns (result: nat)
    requires Inv(s) && y < |s.years|
    ensures result in YearAccounts(s.accounts, y) && IsResultAccount(s.accounts[result]) && InGroup(s.accounts[result], Patrimonial)
    ensures RegularizationLines(s, y)
         == Some(if ResultLines(s, y) == [] then [] else ResultLines(s, y) + [BalancingLine(s, y, result)])
  {
    ResultAccountFound(s, y);
    result := FindCode(s.accounts, YearAccounts(s.accounts, y), RESULT_ACCOUNT).value;
  }

  lemma BalancedByLast(accounts: seq<Account>, y: nat, lines: seq<Line>, result: nat, concept: string)
    requires AllOneSided(lines) && LinesInYear(accounts, lines, y)
    requires result < |accounts| && accounts[result].fiscalYear == y && accounts[result].postable
    ensures var total := DebitTotal(lines) - CreditTotal(lines);
            var all := lines + [ClosingLine(result, concept, total)];
            && DebitTotal(all) == CreditTotal(all)
            && LinesInYear(accounts, all, y)
            && (AllOneSided(all) <==> total != 0)
  {
    var total := DebitTotal(lines) - CreditTotal(lines);
    var last := ClosingLine(result, concept, total);
    LinesSnoc(lines, last);
    var all := lines + [last];
    assert all[|lines|] == last;
    assert OneSided(last) <==> total != 0;
  }

  lemma RegularizationFacts(s: State, y: nat)
    requires Inv(s) && y < |s.years|
    ensures var r := RegularizationLines(s, y);
            && r.Some?
            && DebitTotal(r.value) == CreditTotal(r.value)
            && LinesInYear(s.accounts, r.value, y)
            && (AllOneSided(r.value) <==> !ZeroResult(s, y))
  {
    hide Inv, RegularizationLines, AccountsShaped, ResultLines, ZeroResult;
    var result := RegularizationShape(s, y);
    ResultLinesFacts(s, y);
    BalancedByLast(s.accounts, y, ResultLines(s, y), result, "Resultado del ejercicio");
  }

  lemma ResultLinesFacts(s: State, y: nat)
    ensures var lines := ResultLines(s, y);
            && AllOneSided(lines) && LinesInYear(s.accounts, lines, y)
            && (ZeroResult(s, y) <==> lines != [] && DebitTotal(lines) == CreditTotal(lines))
  {
    var ids := YearAccounts(s.accounts, y);
    SettlementTotals(ids, s.accounts, s.entries, y, Results);
    NothingToSettle(ids, s.accounts, s.entries, y, Results);
  }

  /** Regularising brings groups 6 and 7 to zero and moves their total to the result account. */
  lemma RegularizationNet(s: State, y: nat, a: nat)
    requires Inv(s) && y < |s.years| && a in YearAccounts(s.accounts, y)
    ensures var ids := YearAccounts(s.accounts, y);
            var r := RegularizationLines(s, y);
            && r.Some?
            && LineNet(r.value, a)
               == if InGroup(s.accounts[a], Results) then -YearBalance(s.entries, y, a)
                  else if IsResultAccount(s.accounts[a]) then GroupTotal(ids, s.accounts, s.entries, y, Results)
                  else 0
  {
    var ids := YearAccounts(s.accounts, y);
    var lines := ResultLines(s, y);
    var result := RegularizationShape(s, y);
    assert IsResultAccount(s.accounts[a]) <==> a == result by {
      ResultAccountFound(s, y);
    }
    SettlementNetAndTotal(s, y, a);
    LinesSnoc(lines, BalancingLine(s, y, result));
  }

  lemma SettlementNetAndTotal(s: State, y: nat, a: nat)
    requires a in YearAccounts(s.accounts, y)
    ensures LineNet(ResultLines(s, y), a) == if InGroup(s.accounts[a], Results) then -YearBalance(s.entries, y, a) else 0
    ensures DebitTotal(ResultLines(s, y)) - CreditTotal(ResultLines(s, y))
         == -GroupTotal(YearAccounts(s.accounts, y), s.accounts, s.entries, y, Results)
    ensures ResultLines(s, y) == [] ==> GroupTotal(YearAccounts(s.accounts, y), s.accounts, s.entries, y, Results) == 0
  {
    var ids := YearAccounts(s.accounts, y);
    AccountsDistinct(s.accounts, y, |s.accounts|);
    SettlementNet(ids, s.accounts, s.entries, y, Results, a);
    SettlementTotals(ids, s.accounts, s.entries, y, Results);
  }

  lemma {:induction false} GroupTotalAtZero(ids: seq<nat>, accounts: seq<Account>, entries: seq<Entry>, y: nat, g: Group)
    requires Known(ids, accounts) && GroupAtZero(ids, accounts, entries, y, g)
    ensures GroupTotal(ids, accounts, entries, y, g) == 0
  {
    if ids != [] {
      var front := ids[..|ids| - 1];
      assert forall i :: 0 <= i < |front| ==> front[i] == ids[i];
      GroupTotalAtZero(front, accounts, entries, y, g);
      assert InGroup(accounts[ids[|ids| - 1]], g) ==> YearBalance(entries, y, ids[|ids| - 1]) == 0;
    }
  }

  /** The balance an account of the year has once the result of the year is settled. */
  ghost function Settled(s: State, y: nat, a: nat): int
    requires a < |s.accounts|
  {
    if InGroup(s.accounts[a], Results) then 0
    else YearBalance(s.entries, y, a)
         + if IsResultAccount(s.accounts[a]) then GroupTotal(YearAccounts(s.accounts, y), s.accounts, s.entries, y, Results) else 0
  }

  lemma AfterRegularization(s: State, y: nat)
    requires Inv(s) && y < |s.years| && !ZeroResult(s, y)
    ensures var p := PostRegularization(s, y);
            && RegularizationLines(s, y).Some?
            && PostedTo(s.entries, p, y, Regularization, RegularizationLines(s, y).value)
            && JournalKept(s.years, s.accounts, p.entries)
            && (forall a: nat :: a in YearAccounts(s.accounts, y) ==> YearBalance(p.entries, y, a) == Settled(s, y, a))
  {
    RegularizationFacts(s, y);
    var lines := RegularizationLines(s, y).value;
    PostAutomaticSucceeds(s.years, s.accounts, s.entries, y, LastDay(s.years[y].year), Regularization, lines);
    var p := PostRegularization(s, y);
    PostedBalances(s.entries, p, y, Regularization, lines);
    forall a: nat | a in YearAccounts(s.accounts, y) ensures YearBalance(p.entries, y, a) == Settled(s, y, a) {
      RegularizationNet(s, y, a);
      ResultAccountFound(s, y);
    }
  }

  /** Exactly when the result is zero, the balancing line has no side and the insert is refused. */
  lemma ZeroResultThrows(s: State, y: nat)
    requires Inv(s) && y < |s.years| && ZeroResult(s, y)
    ensures PostRegularization(s, y) == Failed(CheckViolation)
  {
    RegularizationFacts(s, y);
  }

  // ---------- closing entry ----------

  /** An account outside groups 1 to 7, or not postable, carries no balance when the preflight is ready. */
  lemma OutsideGroupsAtZero(s: State, y: nat, a: nat)
    requires JournalSound(s.years, s.accounts, s.entries) && UnsupportedAtZero(s, y)
    requires a < |s.accounts| && s.accounts[a].fiscalYear == y && DigitCode(s.accounts[a].code)
    requires !InGroup(s.accounts[a], Results) && !InGroup(s.accounts[a], Patrimonial)
    ensures YearBalance(s.entries, y, a) == 0
  {
    BalanceIsYearBalance(s.years, s.accounts, s.entries, a);
    assert '0' <= s.accounts[a].code[0] <= '9';
  }

  lemma OutsideGroupsSettled(s: State, y: nat, a: nat)
    requires Inv(s) && y < |s.years| && UnsupportedAtZero(s, y)
    requires a in YearAccounts(s.accounts, y)
    requires !InGroup(s.accounts[a], Results) && !InGroup(s.accounts[a], Patrimonial)
    ensures Settled(s, y, a) == 0
  {
    assert AccountSound(s.years, s.accounts, s.accounts[a]);
    OutsideGroupsAtZero(s, y, a);
    ResultAccountFound(s, y);
  }

  lemma SettledPatrimonialCancels(s: State, y: nat, entries: seq<Entry>)
    requires Inv(s) && y < |s.years| && UnsupportedAtZero(s, y)
    requires JournalSound(s.years, s.accounts, entries)
    requires forall a: nat :: a in YearAccounts(s.accounts, y) ==> YearBalance(entries, y, a) == Settled(s, y, a)
    ensures GroupTotal(YearAccounts(s.accounts, y), s.accounts, entries, y, Patrimonial) == 0
  {
    var ids := YearAccounts(s.accounts, y);
    YearBalancesCancel(s.years, s.accounts, entries, y);
    forall a | a in ids && !InGroup(s.accounts[a], Results) && !InGroup(s.accounts[a], Patrimonial)
      ensures YearBalance(entries, y, a) == 0
    {
      OutsideGroupsSettled(s, y, a);
    }
    GroupsPartition(ids, s.accounts, entries, y);
    assert GroupAtZero(ids, s.accounts, entries, y, Results);
    GroupTotalAtZero(ids, s.accounts, entries, y, Results);
  }

  /** The closing entry posts and leaves every account of the year at zero. */
  lemma AfterClosing(s: State, y: nat, entries: seq<Entry>)
    requires Inv(s) && y < |s.years| && UnsupportedAtZero(s, y)
    requires JournalKept(s.years, s.accounts, entries)
    requires forall a: nat :: a in YearAccounts(s.accounts, y) ==> YearBalance(entries, y, a) == Settled(s, y, a)
    ensures var lines := ClosingEntryLines(s, y, entries);
            var p := PostAutomatic(entries, y, s.years[y].year, LastDay(s.years[y].year), Closing, lines);
            && PostedTo(entries, p, y, Closing, lines)
            && JournalKept(s.years, s.accounts, p.entries)
            && AllAtZero(s.accounts, p.entries, y)
  {
    hide Inv, UnsupportedAtZero;
    var ids := YearAccounts(s.accounts, y);
    var lines := ClosingEntryLines(s, y, entries);
    SettlementTotals(ids, s.accounts, entries, y, Patrimonial);
    SettledPatrimonialCancels(s, y, entries);
    PostAutomaticSucceeds(s.years, s.accounts, entries, y, LastDay(s.years[y].year), Closing, lines);
    var p := PostAutomatic(entries, y, s.years[y].year, LastDay(s.years[y].year), Closing, lines);
    PostedBalances(entries, p, y, Closing, lines);
    AccountsDistinct(s.accounts, y, |s.accounts|);
    forall a: nat | a < |s.accounts| && s.accounts[a].fiscalYear == y ensures YearBalance(p.entries, y, a) == 0 {
      assert a in ids;
      SettlementNet(ids, s.accounts, entries, y, Patrimonial, a);
      if !InGroup(s.accounts[a], Results) && !InGroup(s.accounts[a], Patrimonial) {
        OutsideGroupsSettled(s, y, a);
      }
    }
  }

  // ---------- copies ----------

  ghost predicate FreshCopy(ids: seq<nat>, accounts: seq<Account>, next: nat, copied: map<nat, nat>, c: Account) {
    && c.source.Some? && c.source.value in ids && c.source.value !in copied && c.source.value < |accounts|
    && c == accounts[c.source.value].(fiscalYear := next, source := c.source)
  }

  ghost predicate HasSource(copies: seq<Account>, x: nat) {
    exists i :: 0 <= i < |copies| && copies[i].source == Some(x)
  }

  lemma {:induction false} CopiesAreFresh(ids: seq<nat>, accounts: seq<Account>, next: nat, copied: map<nat, nat>)
    requires Known(ids, accounts)
    ensures var r := CopyAccounts(ids, accounts, next, copied);
            && (forall i :: 0 <= i < |r| ==> FreshCopy(ids, accounts, next, copied, r[i]))
            && (forall x :: x in ids && x !in copied ==> HasSource(r, x))
  {
    if ids != [] {
      var front, a := ids[..|ids| - 1], ids[|ids| - 1];
      assert ids == front + [a];
      CopiesAreFresh(front, accounts, next, copied);
      var before, r := CopyAccounts(front, accounts, next, copied), CopyAccounts(ids, accounts, next, copied);
      forall i | 0 <= i < |r| ensures FreshCopy(ids, accounts, next, copied, r[i]) {
        if i < |before| { assert FreshCopy(front, accounts, next, copied, before[i]); }
      }
      forall x | x in ids && x !in copied ensures HasSource(r, x) {
        if x in front {
          assert HasSource(before, x);
          var i :| 0 <= i < |before| && before[i].source == Some(x);
          assert r[i].source == Some(x);
        } else {
          assert r[|before|].source == Some(x);
        }
      }
    }
  }

  lemma {:induction false} CopySourcesDiffer(ids: seq<nat>, accounts: seq<Account>, next: nat, copied: map<nat, nat>)
    requires Known(ids, accounts) && Distinct(ids)
    ensures var r := CopyAccounts(ids, accounts, next, copied);
            forall i, j :: 0 <= i < j < |r| ==> r[i].source != r[j].source
  {
    if ids != [] {
      var front, a := ids[..|ids| - 1], ids[|ids| - 1];
      assert ids == front + [a];
      CopySourcesDiffer(front, accounts, next, copied);
      CopiesAreFresh(front, accounts, next, copied);
      assert a !in front;
    }
  }

  /** Years and accounts around a close of `y`: a year that follows `y` holds copies of its accounts only. */
  ghost predicate ReadyToCopy(years: seq<FiscalYear>, accounts: seq<Account>, y: nat) {
    && y < |years| && |years| <= y + 2
    && Contiguous(years)
    && AccountsShaped(years, accounts)
    && (y + 1 < |years| ==> AllLinked(accounts, y + 1))
  }

  lemma FreshAt(ids: seq<nat>, accounts: seq<Account>, next: nat, copied: map<nat, nat>, i: nat)
    requires Known(ids, accounts) && i < |CopyAccounts(ids, accounts, next, copied)|
    ensures FreshCopy(ids, accounts, next, copied, CopyAccounts(ids, accounts, next, copied)[i])
  {
    CopiesAreFresh(ids, accounts, next, copied);
  }

  lemma AfterCopying(years: seq<FiscalYear>, accounts: seq<Account>, y: nat)
    requires ReadyToCopy(years, accounts, y)
    ensures var after := AccountsAfterClose(years, accounts, y);
            var ids := YearAccounts(accounts, y);
            var copied := if y + 1 < |years| then CopyMap(accounts, y + 1, |accounts|) else map[];
            && SuccessorOf(years, y) == y + 1
            && |accounts| <= |after| && after[..|accounts|] == accounts
            && (forall i :: |accounts| <= i < |after| ==> FreshCopy(ids, accounts, y + 1, copied, after[i]))
            && (forall i, j :: |accounts| <= i < j < |after| ==> after[i].source != after[j].source)
            && (forall x :: x in ids ==> HasCopy(after, y + 1, x))
            && AllLinked(after, y + 1)
  {
    hide CodesUnique, HasResultAccount, CopyAccounts, AccountsByCode, DigitCode, IsCopyOf;
    NextYearFound(years, y);
    var ids := YearAccounts(accounts, y);
    var copied := if y + 1 < |years| then CopyMap(accounts, y + 1, |accounts|) else map[];
    var r := CopyAccounts(ids, accounts, y + 1, copied);
    var after := AccountsAfterClose(years, accounts, y);
    assert after == accounts + r;
    CopiesAreFresh(ids, accounts, y + 1, copied);
    AccountsDistinct(accounts, y, |accounts|);
    CopySourcesDiffer(ids, accounts, y + 1, copied);
    CopyMapMeaning(accounts, y + 1, |accounts|);
    forall i | |accounts| <= i < |after| ensures FreshCopy(ids, accounts, y + 1, copied, after[i]) {
      FreshAt(ids, accounts, y + 1, copied, i - |accounts|);
      assert after[i] == r[i - |accounts|];
    }
    forall x | x in ids ensures HasCopy(after, y + 1, x) {
      if x in copied {
        assert after[copied[x]] == accounts[copied[x]];
      } else {
        assert HasSource(r, x);
        var i :| 0 <= i < |r| && r[i].source == Some(x);
        assert after[|accounts| + i] == r[i];
        assert FreshCopy(ids, accounts, y + 1, copied, r[i]);
      }
    }
    forall a | 0 <= a < |after| && after[a].fiscalYear == y + 1 ensures after[a].source.Some? {
      if a < |accounts| {
        assert AccountSound(years, accounts, accounts[a]);
      } else {
        assert FreshCopy(ids, accounts, y + 1, copied, after[a]);
      }
    }
  }

  /** Copying only what is missing never repeats a code in the successor. */
  lemma CopiedCodesUnique(years: seq<FiscalYear>, accounts: seq<Account>, y: nat)
    requires ReadyToCopy(years, accounts, y)
    ensures CodesUnique(AccountsAfterClose(years, accounts, y))
  {
    AfterCopying(years, accounts, y);
    CopyMapMeaning(accounts, y + 1, |accounts|);
    var ids := YearAccounts(accounts, y);
    var copied := if y + 1 < |years| then CopyMap(accounts, y + 1, |accounts|) else map[];
    var after := AccountsAfterClose(years, accounts, y);
    forall i, j | 0 <= i < j < |after| && after[i].fiscalYear == after[j].fiscalYear ensures after[i].code != after[j].code {
      if j < |accounts| {
        assert after[i] == accounts[i] && after[j] == accounts[j];
      } else {
        assert FreshCopy(ids, accounts, y + 1, copied, after[j]);
        var x := after[j].source.value;
        if i < |accounts| {
          assert after[i] == accounts[i];
          assert AccountSound(years, accounts, accounts[i]);
          assert accounts[i].source.value in copied;
        } else {
          assert FreshCopy(ids, accounts, y + 1, copied, after[i]);
        }
      }
    }
  }

  lemma CopiedAccountsSame(years: seq<FiscalYear>, accounts: seq<Account>, y: nat)
    requires y < |years|
    ensures SameAccounts(accounts, AccountsAfterClose(years, accounts, y))
  {
  }

  lemma CopiedResultAccount(years: seq<FiscalYear>, accounts: seq<Account>, y: nat)
    requires ReadyToCopy(years, accounts, y)
    ensures HasResultAccount(AccountsAfterClose(years, accounts, y), y + 1)
  {
    hide AccountsAfterClose;
    AfterCopying(years, accounts, y);
    CopyMapMeaning(accounts, y + 1, |accounts|);
    var after := AccountsAfterClose(years, accounts, y);
    assert HasResultAccount(accounts, y);
    var a :| 0 <= a < |accounts| && accounts[a].fiscalYear == y && accounts[a].code == RESULT_ACCOUNT && accounts[a].active && accounts[a].postable;
    assert a in YearAccounts(accounts, y);
    assert HasCopy(after, y + 1, a);
    var b :| 0 <= b < |after| && after[b].fiscalYear == y + 1 && after[b].source == Some(a);
    if b < |accounts| {
      assert after[b] == accounts[b];
      assert AccountSound(years, accounts, accounts[b]);
    } else {
      assert FreshCopy(YearAccounts(accounts, y), accounts, y + 1, if y + 1 < |years| then CopyMap(accounts, y + 1, |accounts|) else map[], after[b]);
    }
  }

  lemma CopiedAccountsShaped(years: seq<FiscalYear>, years': seq<FiscalYear>, accounts: seq<Account>, y: nat)
    requires ReadyToCopy(years, accounts, y) && |years'| == y + 2
    ensures AccountsShaped(years', AccountsAfterClose(years, accounts, y))
  {
    AfterCopying(years, accounts, y);
    CopiedCodesUnique(years, accounts, y);
    var ids := YearAccounts(accounts, y);
    var copied := if y + 1 < |years| then CopyMap(accounts, y + 1, |accounts|) else map[];
    var after := AccountsAfterClose(years, accounts, y);
    CopiedAccountsSame(years, accounts, y);
    assert forall i :: 0 <= i < |accounts| ==> after[i] == accounts[i];
    forall i | 0 <= i < |after| ensures AccountSound(years', after, after[i]) {
      if i < |accounts| {
        assert AccountSound(years, accounts, accounts[i]);
      } else {
        assert FreshCopy(ids, accounts, y + 1, copied, after[i]);
        assert AccountSound(years, accounts, accounts[after[i].source.value]);
      }
    }
    forall k | 0 <= k < |years'| ensures HasResultAccount(after, k) {
      if k <= y {
        ResultAccountStays(accounts, after, k);
      } else {
        CopiedResultAccount(years, accounts, y);
      }
    }
  }

  /** The map from accounts of `y` to their copies is total and one to one. */
  lemma CopyMapTotal(years: seq<FiscalYear>, accounts: seq<Account>, y: nat)
    requires ReadyToCopy(years, accounts, y)
    ensures var after := AccountsAfterClose(years, accounts, y);
            var copies := CopyMap(after, y + 1, |after|);
            && AllCopied(YearAccounts(accounts, y), copies)
            && CopiesInjective(copies)
            && CopiesSound(after, y + 1, |after|, copies)
  {
    AfterCopying(years, accounts, y);
    var after := AccountsAfterClose(years, accounts, y);
    CopyMapMeaning(after, y + 1, |after|);
    var ids := YearAccounts(accounts, y);
    forall i | 0 <= i < |ids| ensures ids[i] in CopyMap(after, y + 1, |after|) {
      assert ids[i] in ids;
      assert HasCopy(after, y + 1, ids[i]);
    }
  }

  // ---------- opening entry ----------

  lemma CopyIsPostable(years: seq<FiscalYear>, accounts: seq<Account>, next: nat, copies: map<nat, nat>, a: nat)
    requires AccountsShaped(years, accounts) && CopiesSound(accounts, next, |accounts|, copies)
    requires a in copies
    ensures a < |accounts| && copies[a] < |accounts| && accounts[copies[a]].fiscalYear == next
    ensures accounts[copies[a]].postable == accounts[a].postable && accounts[copies[a]].code == accounts[a].code
  {
    assert AccountSound(years, accounts, accounts[copies[a]]);
  }

  lemma LinesOnCopiesInYear(years: seq<FiscalYear>, accounts: seq<Account>, after: seq<Account>, ids: seq<nat>, next: nat,
                            copies: map<nat, nat>, lines: seq<Line>)
    requires AccountsShaped(years, after) && CopiesSound(after, next, |after|, copies)
    requires Known(ids, accounts) && |accounts| <= |after| && after[..|accounts|] == accounts
    requires LinesOnCopies(ids, accounts, copies, lines)
    ensures LinesInYear(after, lines, next)
  {
    forall i | 0 <= i < |lines|
      ensures lines[i].account < |after| && after[lines[i].account].fiscalYear == next && after[lines[i].account].postable
    {
      assert CopyOfListed(ids, accounts, copies, lines[i].account);
      var a :| a in ids && a in copies && InGroup(accounts[a], Patrimonial) && copies[a] == lines[i].account;
      CopyIsPostable(years, after, next, copies, a);
      assert after[a] == accounts[a];
    }
  }

  lemma CopyingAppends(years: seq<FiscalYear>, accounts: seq<Account>, y: nat)
    requires y < |years|
    ensures var after := AccountsAfterClose(years, accounts, y); |accounts| <= |after| && after[..|accounts|] == accounts
  {
  }

  lemma OpeningLinesInYear(s: State, y: nat, entries: seq<Entry>, years': seq<FiscalYear>)
    requires ReadyToCopy(s.years, s.accounts, y) && |years'| == y + 2
    ensures LinesInYear(AccountsAfterClose(s.years, s.accounts, y), OpeningEntryLines(s, y, entries), y + 1)
  {
    hide AccountsShaped, CopiesSound, CopiesInjective, AllCopied, LinesOnCopies, LinesInYear, CopyMap, OpeningLines, AccountsAfterClose;
    var after := AccountsAfterClose(s.years, s.accounts, y);
    var copies := CopyMap(after, y + 1, |after|);
    var ids := YearAccounts(s.accounts, y);
    CopyingAppends(s.years, s.accounts, y);
    NextYearFound(s.years, y);
    CopyMapTotal(s.years, s.accounts, y);
    CopiedAccountsShaped(s.years, years', s.accounts, y);
    OpeningAccounts(ids, s.accounts, entries, y, copies);
    LinesOnCopiesInYear(years', s.accounts, after, ids, y + 1, copies, OpeningEntryLines(s, y, entries));
  }

  lemma OpeningBalanced(s: State, y: nat, settled: seq<Entry>)
    requires ReadyToCopy(s.years, s.accounts, y)
    requires GroupTotal(YearAccounts(s.accounts, y), s.accounts, settled, y, Patrimonial) == 0
    ensures var lines := OpeningEntryLines(s, y, settled); AllOneSided(lines) && DebitTotal(lines) == CreditTotal(lines)
  {
    hide AccountsShaped, CopiesSound, CopiesInjective, AccountsAfterClose, CopyMap;
    var after := AccountsAfterClose(s.years, s.accounts, y);
    AfterCopying(s.years, s.accounts, y);
    CopyMapTotal(s.years, s.accounts, y);
    OpeningTotals(YearAccounts(s.accounts, y), s.accounts, settled, y, CopyMap(after, y + 1, |after|));
  }

  /** The opening entry posts into the successor. */
  lemma AfterOpening(s: State, y: nat, settled: seq<Entry>, entries: seq<Entry>, years': seq<FiscalYear>)
    requires ReadyToCopy(s.years, s.accounts, y)
    requires GroupTotal(YearAccounts(s.accounts, y), s.accounts, settled, y, Patrimonial) == 0
    requires JournalKept(s.years, s.accounts, entries)
    requires |years'| == y + 2 && SameNumbers(s.years, years') && years'[y + 1].year == s.years[y].year + 1
    ensures var lines := OpeningEntryLines(s, y, settled);
            var year := s.years[y].year + 1;
            var p := PostAutomatic(entries, y + 1, year, FirstDay(year), Opening, lines);
            && PostedTo(entries, p, y + 1, Opening, lines)
            && JournalKept(years', AccountsAfterClose(s.years, s.accounts, y), p.entries)
  {
    OpeningBalanced(s, y, settled);
    OpeningLinesInYear(s, y, settled, years');
    CopiedAccountsSame(s.years, s.accounts, y);
    PostOpening(s.years, years', s.accounts, AccountsAfterClose(s.years, s.accounts, y), entries, y + 1, OpeningEntryLines(s, y, settled));
  }

  lemma PostOpening(years: seq<FiscalYear>, years': seq<FiscalYear>, accounts: seq<Account>, after: seq<Account>, entries: seq<Entry>,
                    next: nat, lines: seq<Line>)
    requires JournalKept(years, accounts, entries)
    requires SameNumbers(years, years') && SameAccounts(accounts, after) && next < |years'|
    requires LinesInYear(after, lines, next) && AllOneSided(lines) && DebitTotal(lines) == CreditTotal(lines)
    ensures var year := years'[next].year;
            var p := PostAutomatic(entries, next, year, FirstDay(year), Opening, lines);
            PostedTo(entries, p, next, Opening, lines) && JournalKept(years', after, p.entries)
  {
    JournalStaysSound(years, years', accounts, after, entries);
    PostAutomaticSucceeds(years', after, entries, next, FirstDay(years'[next].year), Opening, lines);
  }
}
