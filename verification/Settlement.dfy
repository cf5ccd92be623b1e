/**
 The lines that a fiscal-year close writes: the lines that bring a group of accounts to zero,
 and the lines that carry balances over to the copied accounts of the next year.
 */
module Settlement {
  import opened Ledger

  const RESULT_ACCOUNT := "129000000"

  /** Groups 6 and 7 are regularised against the result account; groups 1 to 5 are carried over. */
  datatype Group = Results | Patrimonial

  predicate CodeStarts(a: Account, low: char, high: char) {
    |a.code| > 0 && low <= a.code[0] <= high
  }

  predicate InGroup(a: Account, g: Group) {
    a.postable && match g
                  case Results => CodeStarts(a, '6', '7')
                  case Patrimonial => CodeStarts(a, '1', '5')
  }

  /** Groups 0, 8 and 9 take no part in a close; the preflight demands that they are at zero. */
  predicate Unsupported(a: Account) {
    |a.code| > 0 && (a.code[0] == '0' || a.code[0] == '8' || a.code[0] == '9')
  }

  // ---------- the accounts of a year, in code order ----------

  predicate CodeBefore(a: string, b: string) {
    if b == "" then false
    else if a == "" then true
    else if a[0] != b[0] then a[0] < b[0]
    else CodeBefore(a[1..], b[1..])
  }

  predicate Known(ids: seq<nat>, accounts: seq<Account>) {
    forall i :: 0 <= i < |ids| ==> ids[i] < |accounts|
  }

  predicate Distinct(ids: seq<nat>) {
    forall i, j :: 0 <= i < j < |ids| ==> ids[i] != ids[j]
  }

  function InsertByCode(accounts: seq<Account>, ids: seq<nat>, x: nat): (r: seq<nat>)
    requires Known(ids, accounts) && x < |accounts|
    ensures Known(r, accounts)
    ensures |r| == |ids| + 1
    ensures forall a :: a in r <==> a in ids || a == x
  {
    if ids == [] then [x]
    else if CodeBefore(accounts[x].code, accounts[ids[0]].code) then [x] + ids
    else
      var rest := InsertByCode(accounts, ids[1..], x);
      assert forall a :: a in ids <==> a == ids[0] || a in ids[1..];
      [ids[0]] + rest
  }

  lemma {:induction false} InsertDistinct(accounts: seq<Account>, ids: seq<nat>, x: nat)
    requires Known(ids, accounts) && x < |accounts|
    requires Distinct(ids) && x !in ids
    ensures Distinct(InsertByCode(accounts, ids, x))
  {
    if ids != [] && !CodeBefore(accounts[x].code, accounts[ids[0]].code) {
      InsertDistinct(accounts, ids[1..], x);
      var rest := InsertByCode(accounts, ids[1..], x);
      assert ids[0] !in rest;
    }
  }

  /** The accounts of year `y` among the first `n` rows, ordered by code. */
  function AccountsByCode(accounts: seq<Account>, y: nat, n: nat): (ids: seq<nat>)
    requires n <= |accounts|
    ensures Known(ids, accounts)
    ensures forall a: nat :: a in ids <==> a < n && accounts[a].fiscalYear == y
  {
    if n == 0 then []
    else
      var rest := AccountsByCode(accounts, y, n - 1);
      if accounts[n - 1].fiscalYear == y then InsertByCode(accounts, rest, n - 1) else rest
  }

  lemma {:induction false} AccountsDistinct(accounts: seq<Account>, y: nat, n: nat)
    requires n <= |accounts|
    ensures Distinct(AccountsByCode(accounts, y, n))
  {
    if n > 0 {
      AccountsDistinct(accounts, y, n - 1);
      if accounts[n - 1].fiscalYear == y {
        InsertDistinct(accounts, AccountsByCode(accounts, y, n - 1), n - 1);
      }
    }
  }

  function YearAccounts(accounts: seq<Account>, y: nat): (ids: seq<nat>)
    ensures Known(ids, accounts)
    ensures forall a: nat :: a in ids <==> a < |accounts| && accounts[a].fiscalYear == y
  {
    AccountsByCode(accounts, y, |accounts|)
  }

  lemma {:induction false} CodeBeforeTransitive(a: string, b: string, c: string)
    requires CodeBefore(a, b) && CodeBefore(b, c)
    ensures CodeBefore(a, c)
  {
    if a != "" && a[0] == b[0] && b[0] == c[0] { CodeBeforeTransitive(a[1..], b[1..], c[1..]); }
  }

  lemma {:induction false} NotBeforeItself(a: string)
    ensures !CodeBefore(a, a)
  {
    if a != "" { NotBeforeItself(a[1..]); }
  }

  /** No later account of the list has an earlier code. */
  ghost predicate InCodeOrder(accounts: seq<Account>, ids: seq<nat>)
    requires Known(ids, accounts)
  {
    forall i, j :: 0 <= i < j < |ids| ==> !CodeBefore(accounts[ids[j]].code, accounts[ids[i]].code)
  }

  lemma {:induction false} InsertInOrder(accounts: seq<Account>, ids: seq<nat>, x: nat)
    requires Known(ids, accounts) && x < |accounts| && InCodeOrder(accounts, ids)
    ensures InCodeOrder(accounts, InsertByCode(accounts, ids, x))
  {
    hide CodeBefore;
    if ids != [] {
      var first, code := accounts[ids[0]].code, accounts[x].code;
      if CodeBefore(code, first) {
        forall j | 0 <= j < |ids| ensures !CodeBefore(accounts[ids[j]].code, code) {
          NotBeforeItself(first);
          if CodeBefore(accounts[ids[j]].code, code) { CodeBeforeTransitive(accounts[ids[j]].code, code, first); }
        }
      } else {
        InsertInOrder(accounts, ids[1..], x);
        var rest := InsertByCode(accounts, ids[1..], x);
        forall j | 0 <= j < |rest| ensures !CodeBefore(accounts[rest[j]].code, first) {
          assert rest[j] in ids[1..] || rest[j] == x;
        }
      }
    }
  }

  /** The accounts of a year come in the order of their codes. */
  lemma {:induction false} AccountsInOrder(accounts: seq<Account>, y: nat, n: nat)
    requires n <= |accounts|
    ensures InCodeOrder(accounts, AccountsByCode(accounts, y, n))
  {
    hide InsertByCode, InCodeOrder;
    if n == 0 {
      NoneInOrder(accounts);
    } else {
      AccountsInOrder(accounts, y, n - 1);
      if accounts[n - 1].fiscalYear == y { InsertInOrder(accounts, AccountsByCode(accounts, y, n - 1), n - 1); }
    }
  }

  lemma NoneInOrder(accounts: seq<Account>)
    ensures InCodeOrder(accounts, [])
  {
  }

  /** The first of the listed accounts with this code. */
  function FindCode(accounts: seq<Account>, ids: seq<nat>, code: string): (r: Option<nat>)
    requires Known(ids, accounts)
    ensures r.Some? ==> r.value in ids && accounts[r.value].code == code
    ensures r.None? ==> forall a :: a in ids ==> accounts[a].code != code
  {
    if ids == [] then None
    else if accounts[ids[0]].code == code then Some(ids[0])
    else FindCode(accounts, ids[1..], code)
  }

  // ---------- lines that bring accounts to zero ----------

  function ClosingLine(account: nat, concept: string, balance: int): Line {
    Line(account, concept, if balance < 0 then -balance else 0, if balance > 0 then balance else 0)
  }

  /** One closing line for every listed account of the group whose balance is not zero. */
  function SettlementLines(ids: seq<nat>, accounts: seq<Account>, entries: seq<Entry>, y: nat, g: Group): seq<Line>
    requires Known(ids, accounts)
  {
    if ids == [] then []
    else
      var before := SettlementLines(ids[..|ids| - 1], accounts, entries, y, g);
      var a := ids[|ids| - 1];
      var balance := YearBalance(entries, y, a);
      if InGroup(accounts[a], g) && balance != 0
      then before + [ClosingLine(a, accounts[a].name, balance)]
      else before
  }

  function GroupTotal(ids: seq<nat>, accounts: seq<Account>, entries: seq<Entry>, y: nat, g: Group): int
    requires Known(ids, accounts)
  {
    if ids == [] then 0
    else
      var a := ids[|ids| - 1];
      GroupTotal(ids[..|ids| - 1], accounts, entries, y, g)
      + if InGroup(accounts[a], g) then YearBalance(entries, y, a) else 0
  }

  /** No listed account of the group carries a balance. */
  predicate GroupAtZero(ids: seq<nat>, accounts: seq<Account>, entries: seq<Entry>, y: nat, g: Group)
    requires Known(ids, accounts)
  {
    forall i :: 0 <= i < |ids| && InGroup(accounts[ids[i]], g) ==> YearBalance(entries, y, ids[i]) == 0
  }

  lemma {:induction false} SettlementTotals(ids: seq<nat>, accounts: seq<Account>, entries: seq<Entry>, y: nat, g: Group)
    requires Known(ids, accounts)
    ensures var lines := SettlementLines(ids, accounts, entries, y, g);
            && DebitTotal(lines) - CreditTotal(lines) == -GroupTotal(ids, accounts, entries, y, g)
            && AllOneSided(lines)
            && (forall i :: 0 <= i < |lines| ==> lines[i].account in ids && InGroup(accounts[lines[i].account], g))
  {
    if ids != [] {
      var front, a := ids[..|ids| - 1], ids[|ids| - 1];
      SettlementTotals(front, accounts, entries, y, g);
      assert ids == front + [a];
      var before := SettlementLines(front, accounts, entries, y, g);
      if InGroup(accounts[a], g) && YearBalance(entries, y, a) != 0 {
        LinesSnoc(before, ClosingLine(a, accounts[a].name, YearBalance(entries, y, a)));
      }
    }
  }

  lemma {:induction false} AtZeroSnoc(ids: seq<nat>, accounts: seq<Account>, entries: seq<Entry>, y: nat, g: Group)
    requires Known(ids, accounts) && ids != []
    ensures GroupAtZero(ids, accounts, entries, y, g)
         <==> GroupAtZero(ids[..|ids| - 1], accounts, entries, y, g)
              && (InGroup(accounts[ids[|ids| - 1]], g) ==> YearBalance(entries, y, ids[|ids| - 1]) == 0)
  {
    var front := ids[..|ids| - 1];
    assert forall i :: 0 <= i < |front| ==> front[i] == ids[i];
  }

  lemma {:induction false} NothingToSettle(ids: seq<nat>, accounts: seq<Account>, entries: seq<Entry>, y: nat, g: Group)
    requires Known(ids, accounts)
    ensures SettlementLines(ids, accounts, entries, y, g) == [] <==> GroupAtZero(ids, accounts, entries, y, g)
  {
    if ids != [] {
      NothingToSettle(ids[..|ids| - 1], accounts, entries, y, g);
      AtZeroSnoc(ids, accounts, entries, y, g);
    }
  }

  /** Posting the settlement lines cancels the balance of exactly the accounts of the group. */
  lemma {:induction false} SettlementNet(ids: seq<nat>, accounts: seq<Account>, entries: seq<Entry>, y: nat, g: Group, a: nat)
    requires Known(ids, accounts) && Distinct(ids)
    ensures LineNet(SettlementLines(ids, accounts, entries, y, g), a)
         == if a in ids && InGroup(accounts[a], g) then -YearBalance(entries, y, a) else 0
  {
    if ids != [] {
      var front, last := ids[..|ids| - 1], ids[|ids| - 1];
      assert ids == front + [last];
      SettlementNet(front, accounts, entries, y, g, a);
      assert a in ids <==> a in front || a == last;
      assert last !in front;
      var before := SettlementLines(front, accounts, entries, y, g);
      if InGroup(accounts[last], g) && YearBalance(entries, y, last) != 0 {
        LinesSnoc(before, ClosingLine(last, accounts[last].name, YearBalance(entries, y, last)));
      }
    }
  }

  // ---------- the balances of a year cancel ----------

  function TotalBalance(ids: seq<nat>, entries: seq<Entry>, y: nat): int {
    if ids == [] then 0 else TotalBalance(ids[..|ids| - 1], entries, y) + YearBalance(entries, y, ids[|ids| - 1])
  }

  function NetOver(ids: seq<nat>, lines: seq<Line>): int {
    if ids == [] then 0 else NetOver(ids[..|ids| - 1], lines) + LineNet(lines, ids[|ids| - 1])
  }

  lemma {:induction false} NetOverSnoc(ids: seq<nat>, lines: seq<Line>, l: Line)
    requires Distinct(ids)
    ensures NetOver(ids, lines + [l]) == NetOver(ids, lines) + if l.account in ids then l.debit - l.credit else 0
  {
    LinesSnoc(lines, l);
    if ids != [] {
      var front, last := ids[..|ids| - 1], ids[|ids| - 1];
      assert ids == front + [last];
      NetOverSnoc(front, lines, l);
      assert last !in front;
    }
  }

  lemma {:induction false} NetOverEmpty(ids: seq<nat>)
    ensures NetOver(ids, []) == 0
  {
    if ids != [] { NetOverEmpty(ids[..|ids| - 1]); }
  }

  lemma {:induction false} NetOverIsTotals(ids: seq<nat>, lines: seq<Line>)
    requires Distinct(ids)
    requires forall i :: 0 <= i < |lines| ==> lines[i].account in ids
    ensures NetOver(ids, lines) == DebitTotal(lines) - CreditTotal(lines)
  {
    if lines == [] {
      NetOverEmpty(ids);
    } else {
      var front, last := lines[..|lines| - 1], lines[|lines| - 1];
      assert lines == front + [last];
      NetOverIsTotals(ids, front);
      NetOverSnoc(ids, front, last);
    }
  }

  lemma {:induction false} TotalBalanceSnoc(ids: seq<nat>, entries: seq<Entry>, e: Entry, y: nat)
    ensures TotalBalance(ids, entries + [e], y)
         == TotalBalance(ids, entries, y) + if e.fiscalYear == y then NetOver(ids, e.lines) else 0
  {
    JournalSnoc(entries, e);
    if ids != [] { TotalBalanceSnoc(ids[..|ids| - 1], entries, e, y); }
  }

  lemma {:induction false} TotalBalanceEmpty(ids: seq<nat>, y: nat)
    ensures TotalBalance(ids, [], y) == 0
  {
    if ids != [] { TotalBalanceEmpty(ids[..|ids| - 1], y); }
  }

  /** Double entry: the balances of all the accounts of a year add up to zero. */
  lemma {:induction false} YearBalancesCancel(years: seq<FiscalYear>, accounts: seq<Account>, entries: seq<Entry>, y: nat)
    requires JournalSound(years, accounts, entries)
    ensures TotalBalance(YearAccounts(accounts, y), entries, y) == 0
  {
    var ids := YearAccounts(accounts, y);
    AccountsDistinct(accounts, y, |accounts|);
    if entries == [] {
      TotalBalanceEmpty(ids, y);
    } else {
      var front, last := entries[..|entries| - 1], entries[|entries| - 1];
      assert entries == front + [last];
      SoundPrefix(years, accounts, entries, |front|);
      YearBalancesCancel(years, accounts, front, y);
      TotalBalanceSnoc(ids, front, last, y);
      assert EntrySound(years, accounts, last);
      if last.fiscalYear == y {
        NetOverIsTotals(ids, last.lines);
      }
    }
  }

  /** When every other listed account is at zero, the two groups carry the whole total. */
  lemma {:induction false} GroupsPartition(ids: seq<nat>, accounts: seq<Account>, entries: seq<Entry>, y: nat)
    requires Known(ids, accounts)
    requires forall a :: a in ids && !InGroup(accounts[a], Results) && !InGroup(accounts[a], Patrimonial)
                         ==> YearBalance(entries, y, a) == 0
    ensures TotalBalance(ids, entries, y)
         == GroupTotal(ids, accounts, entries, y, Results) + GroupTotal(ids, accounts, entries, y, Patrimonial)
  {
    if ids != [] {
      var front, last := ids[..|ids| - 1], ids[|ids| - 1];
      assert ids == front + [last];
      GroupsPartition(front, accounts, entries, y);
      assert last in ids;
    }
  }

  // ---------- copies and opening lines ----------

  /** The copy in year `next` of every account that has one, among the first `n` rows. */
  function CopyMap(accounts: seq<Account>, next: nat, n: nat): map<nat, nat>
    requires n <= |accounts|
  {
    if n == 0 then map[]
    else
      var before := CopyMap(accounts, next, n - 1);
      var a := accounts[n - 1];
      if a.fiscalYear == next && a.source.Some? then before[a.source.value := n - 1] else before
  }

  /** The map leads from source accounts to rows of year `next` that name them as their source. */
  predicate CopiesSound(accounts: seq<Account>, next: nat, n: nat, copies: map<nat, nat>) {
    forall x :: x in copies ==>
      copies[x] < n <= |accounts| && accounts[copies[x]].fiscalYear == next && accounts[copies[x]].source == Some(x)
  }

  predicate CopiesComplete(accounts: seq<Account>, next: nat, n: nat, copies: map<nat, nat>) {
    forall i :: 0 <= i < n <= |accounts| && accounts[i].fiscalYear == next && accounts[i].source.Some?
                ==> accounts[i].source.value in copies
  }

  lemma {:induction false} CopyMapMeaning(accounts: seq<Account>, next: nat, n: nat)
    requires n <= |accounts|
    ensures CopiesSound(accounts, next, n, CopyMap(accounts, next, n))
    ensures CopiesComplete(accounts, next, n, CopyMap(accounts, next, n))
  {
    if n > 0 {
      CopyMapMeaning(accounts, next, n - 1);
    }
  }

  function OpeningLine(account: nat, concept: string, balance: int): Line {
    Line(account, concept, if balance > 0 then balance else 0, if balance < 0 then -balance else 0)
  }

  /** One line on the copy of every listed patrimonial account that has a balance and a copy. */
  function OpeningLines(ids: seq<nat>, accounts: seq<Account>, entries: seq<Entry>, y: nat, copies: map<nat, nat>): seq<Line>
    requires Known(ids, accounts)
  {
    if ids == [] then []
    else
      var before := OpeningLines(ids[..|ids| - 1], accounts, entries, y, copies);
      var a := ids[|ids| - 1];
      var balance := YearBalance(entries, y, a);
      if InGroup(accounts[a], Patrimonial) && balance != 0 && a in copies
      then before + [OpeningLine(copies[a], accounts[a].name, balance)]
      else before
  }

  predicate AllCopied(ids: seq<nat>, copies: map<nat, nat>) {
    forall i :: 0 <= i < |ids| ==> ids[i] in copies
  }

  predicate CopiesInjective(copies: map<nat, nat>) {
    forall x, y :: x in copies && y in copies && copies[x] == copies[y] ==> x == y
  }

  lemma {:induction false} OpeningTotals(ids: seq<nat>, accounts: seq<Account>, entries: seq<Entry>, y: nat, copies: map<nat, nat>)
    requires Known(ids, accounts) && AllCopied(ids, copies)
    ensures var lines := OpeningLines(ids, accounts, entries, y, copies);
            && DebitTotal(lines) - CreditTotal(lines) == GroupTotal(ids, accounts, entries, y, Patrimonial)
            && AllOneSided(lines)
  {
    if ids != [] {
      var front, a := ids[..|ids| - 1], ids[|ids| - 1];
      assert ids[|ids| - 1] in copies;
      assert AllCopied(front, copies) by {
        assert forall i :: 0 <= i < |front| ==> front[i] == ids[i];
      }
      OpeningTotals(front, accounts, entries, y, copies);
      var before := OpeningLines(front, accounts, entries, y, copies);
      if InGroup(accounts[a], Patrimonial) && YearBalance(entries, y, a) != 0 {
        LinesSnoc(before, OpeningLine(copies[a], accounts[a].name, YearBalance(entries, y, a)));
      }
    }
  }

  /** `b` is the copy of a listed patrimonial account. */
  predicate CopyOfListed(ids: seq<nat>, accounts: seq<Account>, copies: map<nat, nat>, b: nat)
    requires Known(ids, accounts)
  {
    exists a :: a in ids && a in copies && InGroup(accounts[a], Patrimonial) && copies[a] == b
  }

  predicate LinesOnCopies(ids: seq<nat>, accounts: seq<Account>, copies: map<nat, nat>, lines: seq<Line>)
    requires Known(ids, accounts)
  {
    forall i :: 0 <= i < |lines| ==> CopyOfListed(ids, accounts, copies, lines[i].account)
  }

  lemma {:induction false} OpeningAccounts(ids: seq<nat>, accounts: seq<Account>, entries: seq<Entry>, y: nat, copies: map<nat, nat>)
    requires Known(ids, accounts)
    ensures LinesOnCopies(ids, accounts, copies, OpeningLines(ids, accounts, entries, y, copies))
  {
    if ids != [] {
      var front, a := ids[..|ids| - 1], ids[|ids| - 1];
      assert ids == front + [a];
      OpeningAccounts(front, accounts, entries, y, copies);
      var before := OpeningLines(front, accounts, entries, y, copies);
      assert LinesOnCopies(ids, accounts, copies, before) by {
        forall i | 0 <= i < |before| ensures CopyOfListed(ids, accounts, copies, before[i].account) {
          assert CopyOfListed(front, accounts, copies, before[i].account);
        }
      }
      assert a in ids;
    }
  }

  /** The opening lines put on each copy the balance of its source, and nothing anywhere else. */
  lemma {:induction false} OpeningNet(ids: seq<nat>, accounts: seq<Account>, entries: seq<Entry>, y: nat, copies: map<nat, nat>, a: nat)
    requires Known(ids, accounts) && Distinct(ids) && AllCopied(ids, copies) && CopiesInjective(copies)
    requires a in copies
    ensures LineNet(OpeningLines(ids, accounts, entries, y, copies), copies[a])
         == if a in ids && InGroup(accounts[a], Patrimonial) then YearBalance(entries, y, a) else 0
  {
    if ids != [] {
      var front, last := ids[..|ids| - 1], ids[|ids| - 1];
      assert ids == front + [last];
      assert forall i :: 0 <= i < |front| ==> front[i] == ids[i];
      OpeningNet(front, accounts, entries, y, copies, a);
      assert ids[|ids| - 1] in copies;
      LinesSnoc(OpeningLines(front, accounts, entries, y, copies),
                OpeningLine(copies[last], accounts[last].name, YearBalance(entries, y, last)));
      assert last !in front;
    }
  }
}
