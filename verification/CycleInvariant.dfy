/**
 What every command of the fiscal-year cycle keeps true of the ledger.
 */
module CycleInvariant {
  import opened Ledger
  import opened Settlement
  import opened FiscalCycle

  // ---------- years ----------

  ghost predicate Contiguous(years: seq<FiscalYear>) {
    forall i :: 0 <= i < |years| ==>
      years[i].year == years[0].year + i && years[i].source == if i == 0 then None else Some(i - 1)
  }

  /** Year `k` is the open one: all earlier years are closed, and a later one can only be its reversed copy. */
  ghost predicate OpenAt(years: seq<FiscalYear>, k: int) {
    && 0 <= k < |years| <= k + 2
    && years[k].status == Open
    && (forall i :: 0 <= i < k ==> years[i].status == Closed)
    && (k + 1 < |years| ==> years[k + 1].status == Reversed)
  }

  ghost predicate YearsShaped(years: seq<FiscalYear>) {
    && Contiguous(years)
    && (years == [] || OpenAt(years, |years| - 1) || OpenAt(years, |years| - 2))
    && (forall i :: 0 <= i < |years| && years[i].status != Closed ==> years[i].closedAt.None? && years[i].closedBy.None?)
  }

  // ---------- accounts ----------

  ghost predicate IsCopyOf(copy: Account, original: Account) {
    && copy.fiscalYear == original.fiscalYear + 1
    && SamePlanRow(copy.(name := ""), original.(name := ""))
  }

  ghost predicate AccountSound(years: seq<FiscalYear>, accounts: seq<Account>, a: Account) {
    && a.fiscalYear < |years|
    && DigitCode(a.code)
    && (a.postable ==> |a.code| == 9)
    && (a.source.Some? ==> a.source.value < |accounts| && IsCopyOf(a, accounts[a.source.value]))
  }

  ghost predicate CodesUnique(accounts: seq<Account>) {
    forall i, j :: 0 <= i < j < |accounts| && accounts[i].fiscalYear == accounts[j].fiscalYear ==> accounts[i].code != accounts[j].code
  }

  ghost predicate AccountsShaped(years: seq<FiscalYear>, accounts: seq<Account>) {
    && (forall i {:trigger AccountSound(years, accounts, accounts[i])} :: 0 <= i < |accounts| ==> AccountSound(years, accounts, accounts[i]))
    && CodesUnique(accounts)
    && (forall y :: 0 <= y < |years| ==> HasResultAccount(accounts, y))
  }

  // ---------- requests ----------

  ghost predicate CloseRowSound(years: seq<FiscalYear>, c: CloseRequest) {
    && c.fiscalYear < |years|
    && (c.status == Requested || c.status == Completed || c.status == Cancelled)
    && (c.status == Requested ==> years[c.fiscalYear].status == Open)
    && (c.status == Completed ==> c.successor == Some(c.fiscalYear + 1) && c.fiscalYear + 1 < |years|)
  }

  ghost predicate ClosesSound(years: seq<FiscalYear>, closes: seq<CloseRequest>) {
    && (forall q {:trigger CloseRowSound(years, closes[q])} :: 0 <= q < |closes| ==> CloseRowSound(years, closes[q]))
    && (forall p, q :: 0 <= p < q < |closes| && closes[p].status == Requested && closes[q].status == Requested
                       ==> closes[p].fiscalYear != closes[q].fiscalYear)
  }

  /** Request `q` closed its year and has not been reopened. */
  ghost predicate IsCurrent(closes: seq<CloseRequest>, reopens: seq<ReopenRequest>, q: nat) {
    q < |closes| && closes[q].status == Completed && !Reopened(reopens, q)
  }

  ghost predicate HasCurrent(closes: seq<CloseRequest>, reopens: seq<ReopenRequest>, y: nat) {
    exists q: nat :: IsCurrent(closes, reopens, q) && closes[q].fiscalYear == y
  }

  /** A year is closed exactly when one completed close of it has not been reopened. */
  ghost predicate CurrentSound(years: seq<FiscalYear>, closes: seq<CloseRequest>, reopens: seq<ReopenRequest>) {
    && (forall q: nat :: IsCurrent(closes, reopens, q) && closes[q].fiscalYear < |years| ==> years[closes[q].fiscalYear].status == Closed)
    && (forall p: nat, q: nat ::
          (IsCurrent(closes, reopens, p) && IsCurrent(closes, reopens, q) && closes[p].fiscalYear == closes[q].fiscalYear) ==> p == q)
    && (forall y: nat :: y < |years| && years[y].status == Closed ==> HasCurrent(closes, reopens, y))
  }

  ghost predicate ReopenRowSound(closes: seq<CloseRequest>, r: ReopenRequest) {
    && r.close < |closes|
    && closes[r.close].status == Completed
    && r.source == closes[r.close].fiscalYear
    && closes[r.close].successor == Some(r.successor)
  }

  ghost predicate ReopensSound(closes: seq<CloseRequest>, reopens: seq<ReopenRequest>) {
    && (forall r {:trigger ReopenRowSound(closes, reopens[r])} :: 0 <= r < |reopens| ==> ReopenRowSound(closes, reopens[r]))
    && (forall p, r :: 0 <= p < r < |reopens| && reopens[p].close == reopens[r].close && reopens[p].status == reopens[r].status
                       ==> reopens[p].status != Requested && reopens[p].status != Completed)
  }

  // ---------- links from requests to entries ----------

  ghost predicate LinkSound(entries: seq<Entry>, id: Option<nat>, origin: Origin, y: nat) {
    id.Some? ==> id.value < |entries| && entries[id.value].fiscalYear == y && entries[id.value].origin == origin
  }

  ghost predicate CloseLinksSound(entries: seq<Entry>, c: CloseRequest) {
    && LinkSound(entries, c.regularization, Regularization, c.fiscalYear)
    && LinkSound(entries, c.closing, Closing, c.fiscalYear)
    && LinkSound(entries, c.opening, Opening, c.fiscalYear + 1)
  }

  ghost predicate ReversalLinkSound(entries: seq<Entry>, reversal: Option<nat>, original: Option<nat>) {
    && (reversal.Some? <==> original.Some?)
    && (reversal.Some? ==>
          && original.value < reversal.value < |entries|
          && var e, o := entries[reversal.value], entries[original.value];
             e.origin == CloseReversal && e.reverses == original && e.fiscalYear == o.fiscalYear && e.lines == Mirror(o.lines))
  }

  ghost predicate ReopenLinksSound(entries: seq<Entry>, c: CloseRequest, r: ReopenRequest) {
    && ReversalLinkSound(entries, r.regularizationReversal, c.regularization)
    && ReversalLinkSound(entries, r.closingReversal, c.closing)
    && ReversalLinkSound(entries, r.openingReversal, c.opening)
  }

  ghost predicate LinksSound(entries: seq<Entry>, closes: seq<CloseRequest>, reopens: seq<ReopenRequest>) {
    && (forall q {:trigger CloseLinksSound(entries, closes[q])} :: 0 <= q < |closes| && closes[q].status == Completed ==> CloseLinksSound(entries, closes[q]))
    && (forall r {:trigger ReopenLinksSound(entries, closes[reopens[r].close], reopens[r])} ::
          (0 <= r < |reopens| && reopens[r].status == Completed && reopens[r].close < |closes|)
          ==> ReopenLinksSound(entries, closes[reopens[r].close], reopens[r]))
  }

  ghost predicate Unreversed(entries: seq<Entry>, c: CloseRequest) {
    && (c.regularization.Some? ==> !ReversedBy(entries, c.regularization.value))
    && (c.closing.Some? ==> !ReversedBy(entries, c.closing.value))
    && (c.opening.Some? ==> !ReversedBy(entries, c.opening.value))
  }

  /** The entries of a current close stand unreversed. */
  ghost predicate CurrentUnreversed(entries: seq<Entry>, closes: seq<CloseRequest>, reopens: seq<ReopenRequest>) {
    forall q: nat {:trigger Unreversed(entries, closes[q])} :: IsCurrent(closes, reopens, q) ==> Unreversed(entries, closes[q])
  }

  // ---------- what openings and their reversals add up to ----------

  /** An opening entry, or the reversal of one that stands earlier in the journal. */
  ghost predicate OpeningKind(before: seq<Entry>, e: Entry) {
    e.origin == Opening
    || (e.origin == CloseReversal && e.reverses.Some? && e.reverses.value < |before| && before[e.reverses.value].origin == Opening)
  }

  ghost function OpeningsTotal(entries: seq<Entry>, y: nat, a: nat): int {
    if entries == [] then 0
    else
      var before, last := entries[..|entries| - 1], entries[|entries| - 1];
      OpeningsTotal(before, y, a) + if last.fiscalYear == y && OpeningKind(before, last) then LineNet(last.lines, a) else 0
  }

  ghost function LinkNet(entries: seq<Entry>, id: Option<nat>, a: nat): int {
    if id.Some? && id.value < |entries| then LineNet(entries[id.value].lines, a) else 0
  }

  /** Openings and their reversals cancel, except for the opening of a close that is still current. */
  ghost predicate OpeningsNet(years: seq<FiscalYear>, entries: seq<Entry>, closes: seq<CloseRequest>, reopens: seq<ReopenRequest>) {
    && (forall q: nat, a: nat :: IsCurrent(closes, reopens, q)
          ==> OpeningsTotal(entries, closes[q].fiscalYear + 1, a) == LinkNet(entries, closes[q].opening, a))
    && (forall k: nat, a: nat :: k < |years| && (k == 0 || years[k - 1].status != Closed) ==> OpeningsTotal(entries, k, a) == 0)
  }

  /** A reversed year holds copies only, and every balance in it is zero. */
  ghost predicate ReversedIsEmpty(years: seq<FiscalYear>, accounts: seq<Account>, entries: seq<Entry>) {
    forall y: nat :: y < |years| && years[y].status == Reversed ==>
      AllLinked(accounts, y) && AllAtZero(accounts, entries, y)
  }

  ghost predicate AllAtZero(accounts: seq<Account>, entries: seq<Entry>, y: nat) {
    forall a: nat :: a < |accounts| && accounts[a].fiscalYear == y ==> YearBalance(entries, y, a) == 0
  }

  ghost predicate Inv(s: State) {
    && YearsShaped(s.years)
    && AccountsShaped(s.years, s.accounts)
    && JournalSound(s.years, s.accounts, s.entries)
    && Sequenced(s.entries)
    && ReversalsUnique(s.entries)
    && ClosesSound(s.years, s.closes)
    && CurrentSound(s.years, s.closes, s.reopens)
    && ReopensSound(s.closes, s.reopens)
    && LinksSound(s.entries, s.closes, s.reopens)
    && CurrentUnreversed(s.entries, s.closes, s.reopens)
    && OpeningsNet(s.years, s.entries, s.closes, s.reopens)
    && ReversedIsEmpty(s.years, s.accounts, s.entries)
  }

  // ---------- small facts ----------

  lemma NextYearFound(years: seq<FiscalYear>, y: nat)
    requires Contiguous(years) && y < |years|
    ensures FindYear(years, years[y].year + 1) == if y + 1 < |years| then Some(y + 1) else None
    ensures SuccessorOf(years, y) == y + 1
  {
    var r := FindYear(years, years[y].year + 1);
    assert years[y].year == years[0].year + y;
    if r.Some? {
      assert years[r.value].year == years[0].year + r.value;
    }
  }

  /** Adding accounts or years, renaming accounts and changing statuses keep an entry sound. */
  ghost predicate SameNumbers(before: seq<FiscalYear>, after: seq<FiscalYear>) {
    |before| <= |after| && forall i :: 0 <= i < |before| ==> after[i].year == before[i].year
  }

  lemma JournalStaysSound(years: seq<FiscalYear>, years': seq<FiscalYear>, accounts: seq<Account>, accounts': seq<Account>, entries: seq<Entry>)
    requires JournalSound(years, accounts, entries)
    requires SameNumbers(years, years') && SameAccounts(accounts, accounts')
    ensures JournalSound(years', accounts', entries)
  {
    forall i | 0 <= i < |entries| ensures EntrySound(years', accounts', entries[i]) {
      var e := entries[i];
      assert EntrySound(years, accounts, e);
      LinesStayInYear(accounts, accounts', e.lines, e.fiscalYear);
    }
  }

  lemma LinesStayInYear(accounts: seq<Account>, accounts': seq<Account>, lines: seq<Line>, y: nat)
    requires LinesInYear(accounts, lines, y) && SameAccounts(accounts, accounts')
    ensures LinesInYear(accounts', lines, y)
  {
    forall i | 0 <= i < |lines|
      ensures lines[i].account < |accounts'| && accounts'[lines[i].account].fiscalYear == y && accounts'[lines[i].account].postable
    {
      var a := lines[i].account;
      assert Identity(accounts'[a]) == Identity(accounts[a]);
    }
  }

  lemma OpeningsSnoc(entries: seq<Entry>, e: Entry)
    ensures forall y: nat, a: nat ::
              OpeningsTotal(entries + [e], y, a)
              == OpeningsTotal(entries, y, a) + if e.fiscalYear == y && OpeningKind(entries, e) then LineNet(e.lines, a) else 0
  {
    assert (entries + [e])[..|entries|] == entries;
  }

  /** When a year holds nothing but openings and their reversals, they make up its balances. */
  lemma {:induction false} OnlyOpenings(entries: seq<Entry>, y: nat, a: nat)
    requires ReversalsUnique(entries)
    requires forall i :: 0 <= i < |entries| && entries[i].fiscalYear == y ==> OpeningKind(entries, entries[i])
    ensures YearBalance(entries, y, a) == OpeningsTotal(entries, y, a)
  {
    if entries != [] {
      var before, last := entries[..|entries| - 1], entries[|entries| - 1];
      forall i | 0 <= i < |before| && before[i].fiscalYear == y ensures OpeningKind(before, before[i]) {
        assert entries[i] == before[i];
        assert OpeningKind(entries, entries[i]);
      }
      assert ReversalsUnique(before) by {
        forall i | 0 <= i < |before| && before[i].reverses.Some? ensures before[i].reverses.value < i {
          assert before[i] == entries[i];
        }
        forall i, j | 0 <= i < j < |before| && before[i].reverses.Some? ensures before[i].reverses != before[j].reverses {
          assert before[i] == entries[i] && before[j] == entries[j];
        }
      }
      OnlyOpenings(before, y, a);
      if last.fiscalYear == y {
        assert OpeningKind(entries, last);
        assert OpeningKind(before, last);
      }
    }
  }

  lemma EmptyHolds()
    ensures Inv(EMPTY)
  {
  }
}
