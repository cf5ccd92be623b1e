/**
 The double-entry ledger: fiscal years, accounts, journal entries, the checks the database
 puts on a journal row, and the sums taken over the journal.  Rows are never deleted, so the
 identifier of a row is its position in its table.
 */
module Ledger {

  datatype Option<+T> = None | Some(value: T)

  datatype YearStatus = Open | Closed | Reversed

  datatype FiscalYear = FiscalYear(
    year: int, status: YearStatus, source: Option<nat>, closedAt: Option<int>, closedBy: Option<nat>)

  datatype Account = Account(
    fiscalYear: nat, source: Option<nat>, supplier: Option<nat>, code: string, name: string,
    active: bool, kind: string, level: int, postable: bool)

  /** The origin of an entry, with the row that the entry documents where it has one. */
  datatype Origin =
    | Regularization
    | Closing
    | Opening
    | CloseReversal
    | Manual
    | WaiverRegularization(review: nat)
    | WaiverReversal(request: nat)
    | WaiverReplacement(request: nat)
    | InvoiceEntry(invoice: nat)
    | InvoiceVoiding(invoice: nat)
    | OtherWriter

  /** Amounts are whole cents. */
  datatype Line = Line(account: nat, concept: string, debit: int, credit: int)

  /** Dates are written yyyymmdd, so the year of a date is the date divided by 10000. */
  datatype Entry = Entry(
    fiscalYear: nat, year: int, sequence: int, date: int, origin: Origin, reverses: Option<nat>,
    totalDebit: int, totalCredit: int, lines: seq<Line>)

  function YearOf(date: int): int {
    date / 10000
  }

  function FirstDay(year: int): int {
    year * 10000 + 101
  }

  function LastDay(year: int): int {
    year * 10000 + 1231
  }

  // ---------- sums over lines ----------

  function DebitTotal(lines: seq<Line>): int {
    if lines == [] then 0 else DebitTotal(lines[..|lines| - 1]) + lines[|lines| - 1].debit
  }

  function CreditTotal(lines: seq<Line>): int {
    if lines == [] then 0 else CreditTotal(lines[..|lines| - 1]) + lines[|lines| - 1].credit
  }

  /** Debit minus credit that the lines put on account `a`. */
  function LineNet(lines: seq<Line>, a: nat): int {
    if lines == [] then 0
    else
      var last := lines[|lines| - 1];
      LineNet(lines[..|lines| - 1], a) + if last.account == a then last.debit - last.credit else 0
  }

  lemma LinesSnoc(lines: seq<Line>, l: Line)
    ensures DebitTotal(lines + [l]) == DebitTotal(lines) + l.debit
    ensures CreditTotal(lines + [l]) == CreditTotal(lines) + l.credit
    ensures forall a: nat :: LineNet(lines + [l], a) == LineNet(lines, a) + if l.account == a then l.debit - l.credit else 0
  {
    assert (lines + [l])[..|lines|] == lines;
  }

  /** A journal line has exactly one positive side (check `accounting_journal_lines_side_chk`). */
  predicate OneSided(l: Line) {
    (l.debit > 0 && l.credit == 0) || (l.credit > 0 && l.debit == 0)
  }

  predicate AllOneSided(lines: seq<Line>) {
    forall i :: 0 <= i < |lines| ==> OneSided(lines[i])
  }

  lemma {:induction false} OneSidedTotals(lines: seq<Line>)
    requires AllOneSided(lines)
    ensures DebitTotal(lines) >= 0 && CreditTotal(lines) >= 0
    ensures lines != [] ==> DebitTotal(lines) + CreditTotal(lines) > 0
    ensures DebitTotal(lines) > 0 ==> exists i :: 0 <= i < |lines| && lines[i].debit > 0
    ensures CreditTotal(lines) > 0 ==> exists i :: 0 <= i < |lines| && lines[i].credit > 0
  {
    if lines != [] {
      var last := lines[|lines| - 1];
      assert OneSided(last);
      OneSidedTotals(lines[..|lines| - 1]);
    }
  }

  /** The same lines with debit and credit exchanged. */
  function Mirror(lines: seq<Line>): (r: seq<Line>)
    ensures |r| == |lines|
    ensures forall i :: 0 <= i < |lines| ==> r[i] == lines[i].(debit := lines[i].credit, credit := lines[i].debit)
  {
    seq(|lines|, i requires 0 <= i < |lines| => lines[i].(debit := lines[i].credit, credit := lines[i].debit))
  }

  lemma {:induction false} MirrorNegates(lines: seq<Line>)
    ensures DebitTotal(Mirror(lines)) == CreditTotal(lines)
    ensures CreditTotal(Mirror(lines)) == DebitTotal(lines)
    ensures forall a: nat :: LineNet(Mirror(lines), a) == -LineNet(lines, a)
  {
    if lines != [] {
      MirrorNegates(lines[..|lines| - 1]);
      assert Mirror(lines)[..|lines| - 1] == Mirror(lines[..|lines| - 1]);
    }
  }

  lemma MirrorOneSided(lines: seq<Line>)
    requires AllOneSided(lines)
    ensures AllOneSided(Mirror(lines))
  {
    forall k | 0 <= k < |lines| ensures OneSided(Mirror(lines)[k]) {
      assert OneSided(lines[k]);
    }
  }

  // ---------- entries ----------

  /** Check `accounting_journal_entries_totals_chk` together with the check on every line. */
  predicate TableAccepts(e: Entry) {
    e.totalDebit == e.totalCredit && e.totalDebit > 0 && AllOneSided(e.lines)
  }

  /** What an account is, apart from its name, which the supplier master may change. */
  function Identity(a: Account): Account {
    a.(name := "")
  }

  /** `after` holds the accounts of `before`, up to their names, and possibly more. */
  predicate SameAccounts(before: seq<Account>, after: seq<Account>) {
    |before| <= |after| && forall i :: 0 <= i < |before| ==> Identity(after[i]) == Identity(before[i])
  }

  predicate LinesInYear(accounts: seq<Account>, lines: seq<Line>, y: nat) {
    forall i :: 0 <= i < |lines| ==>
      lines[i].account < |accounts| && accounts[lines[i].account].fiscalYear == y && accounts[lines[i].account].postable
  }

  /** Every condition the close preflight puts on a single entry, and the balance law it serves. */
  predicate EntrySound(years: seq<FiscalYear>, accounts: seq<Account>, e: Entry) {
    && e.fiscalYear < |years|
    && e.year == years[e.fiscalYear].year == YearOf(e.date)
    && e.totalDebit == DebitTotal(e.lines)
    && e.totalCredit == CreditTotal(e.lines)
    && TableAccepts(e)
    && LinesInYear(accounts, e.lines, e.fiscalYear)
  }

  /** The next entry of year `y`. */
  function NumberedEntry(entries: seq<Entry>, y: nat, year: int, date: int, origin: Origin, reverses: Option<nat>,
                         debit: int, credit: int, lines: seq<Line>): Entry {
    Entry(y, year, LastSequence(entries, y) + 1, date, origin, reverses, debit, credit, lines)
  }

  predicate HasEntry(entries: seq<Entry>, origin: Origin) {
    exists k :: 0 <= k < |entries| && entries[k].origin == origin
  }

  /** The latest entry of this origin, if there is one. */
  function FindEntry(entries: seq<Entry>, origin: Origin): (r: Option<nat>)
    ensures r.Some? ==> r.value < |entries| && entries[r.value].origin == origin
    ensures r.None? ==> forall k :: 0 <= k < |entries| ==> entries[k].origin != origin
  {
    if entries == [] then None
    else if entries[|entries| - 1].origin == origin then Some(|entries| - 1)
    else FindEntry(entries[..|entries| - 1], origin)
  }

  lemma EntryInLonger(entries: seq<Entry>, longer: seq<Entry>, origin: Origin)
    requires entries <= longer && HasEntry(entries, origin)
    ensures HasEntry(longer, origin)
  {
    var k :| 0 <= k < |entries| && entries[k].origin == origin;
    assert longer[k].origin == origin;
  }

  // ---------- sums over the journal ----------

  /** Balance of account `a`, over the whole journal. */
  function Balance(entries: seq<Entry>, a: nat): int {
    if entries == [] then 0
    else Balance(entries[..|entries| - 1], a) + LineNet(entries[|entries| - 1].lines, a)
  }

  /** Balance of account `a`, over the entries of fiscal year `y` only. */
  function YearBalance(entries: seq<Entry>, y: nat, a: nat): int {
    if entries == [] then 0
    else
      var last := entries[|entries| - 1];
      YearBalance(entries[..|entries| - 1], y, a) + if last.fiscalYear == y then LineNet(last.lines, a) else 0
  }

  lemma JournalSnoc(entries: seq<Entry>, e: Entry)
    ensures forall a: nat :: Balance(entries + [e], a) == Balance(entries, a) + LineNet(e.lines, a)
    ensures forall y: nat, a: nat :: YearBalance(entries + [e], y, a)
                                  == YearBalance(entries, y, a) + if e.fiscalYear == y then LineNet(e.lines, a) else 0
  {
    assert (entries + [e])[..|entries|] == entries;
  }

  lemma {:induction false} NoLineNoNet(lines: seq<Line>, a: nat)
    requires forall i :: 0 <= i < |lines| ==> lines[i].account != a
    ensures LineNet(lines, a) == 0
  {
    if lines != [] {
      NoLineNoNet(lines[..|lines| - 1], a);
    }
  }

  predicate JournalSound(years: seq<FiscalYear>, accounts: seq<Account>, entries: seq<Entry>) {
    forall i {:trigger EntrySound(years, accounts, entries[i])} :: 0 <= i < |entries| ==> EntrySound(years, accounts, entries[i])
  }

  lemma SoundPrefix(years: seq<FiscalYear>, accounts: seq<Account>, entries: seq<Entry>, n: nat)
    requires JournalSound(years, accounts, entries) && n <= |entries|
    ensures JournalSound(years, accounts, entries[..n])
  {
    var p := entries[..n];
    forall i | 0 <= i < |p| ensures EntrySound(years, accounts, p[i]) {
      assert EntrySound(years, accounts, entries[i]);
    }
  }

  /** Because lines stay inside the year of their entry, both balances of an account agree. */
  lemma {:induction false} BalanceIsYearBalance(years: seq<FiscalYear>, accounts: seq<Account>, entries: seq<Entry>, a: nat)
    requires JournalSound(years, accounts, entries)
    requires a < |accounts|
    ensures Balance(entries, a) == YearBalance(entries, accounts[a].fiscalYear, a)
    ensures !accounts[a].postable ==> Balance(entries, a) == 0
  {
    if entries != [] {
      var last := entries[|entries| - 1];
      assert EntrySound(years, accounts, last);
      SoundPrefix(years, accounts, entries, |entries| - 1);
      BalanceIsYearBalance(years, accounts, entries[..|entries| - 1], a);
      if last.fiscalYear != accounts[a].fiscalYear || !accounts[a].postable {
        NoLineNoNet(last.lines, a);
      }
    }
  }

  // ---------- sequence numbers ----------

  /** Highest sequence of the year, or zero. */
  function LastSequence(entries: seq<Entry>, y: nat): int {
    if entries == [] then 0
    else
      var last := entries[|entries| - 1];
      var before := LastSequence(entries[..|entries| - 1], y);
      if last.fiscalYear == y && last.sequence > before then last.sequence else before
  }

  method LastNumber(entries: seq<Entry>, y: nat) returns (last: int)
    ensures last == LastSequence(entries, y)
  {
    last := 0;
    for i := 0 to |entries|
      invariant last == LastSequence(entries[..i], y)
    {
      assert entries[..i + 1][..i] == entries[..i];
      if entries[i].fiscalYear == y && entries[i].sequence > last {
        last := entries[i].sequence;
      }
    }
    assert entries[..|entries|] == entries;
  }

  function CountYear(entries: seq<Entry>, y: nat): nat {
    if entries == [] then 0
    else CountYear(entries[..|entries| - 1], y) + if entries[|entries| - 1].fiscalYear == y then 1 else 0
  }

  /** The entries of every year are numbered 1, 2, 3, ... in the order in which they were posted. */
  predicate Sequenced(entries: seq<Entry>) {
    forall i :: 0 <= i < |entries| ==> entries[i].sequence == CountYear(entries[..i], entries[i].fiscalYear) + 1
  }

  lemma SequencedPrefix(entries: seq<Entry>, n: nat)
    requires Sequenced(entries) && n <= |entries|
    ensures Sequenced(entries[..n])
  {
    var p := entries[..n];
    forall i | 0 <= i < |p| ensures p[i].sequence == CountYear(p[..i], p[i].fiscalYear) + 1 {
      assert p[..i] == entries[..i];
      assert p[i] == entries[i];
    }
  }

  lemma {:induction false} LastSequenceIsCount(entries: seq<Entry>, y: nat)
    requires Sequenced(entries)
    ensures LastSequence(entries, y) == CountYear(entries, y)
  {
    if entries != [] {
      SequencedPrefix(entries, |entries| - 1);
      LastSequenceIsCount(entries[..|entries| - 1], y);
    }
  }

  lemma SequencedSnoc(entries: seq<Entry>, e: Entry)
    requires Sequenced(entries)
    requires e.sequence == LastSequence(entries, e.fiscalYear) + 1
    ensures Sequenced(entries + [e])
  {
    LastSequenceIsCount(entries, e.fiscalYear);
    var n := entries + [e];
    forall i | 0 <= i < |n| ensures n[i].sequence == CountYear(n[..i], n[i].fiscalYear) + 1 {
      assert n[..i] == entries[..i];
      if i == |entries| {
        assert entries[..i] == entries;
      }
    }
  }

  lemma {:induction false} CountYearMonotone(entries: seq<Entry>, i: nat, j: nat, y: nat)
    requires i <= j <= |entries|
    ensures CountYear(entries[..i], y) <= CountYear(entries[..j], y)
    decreases j - i
  {
    if i < j {
      CountYearMonotone(entries, i, j - 1, y);
      assert entries[..j][..j - 1] == entries[..j - 1];
    }
  }

  predicate NumberUsed(entries: seq<Entry>, y: nat, n: int) {
    exists i :: 0 <= i < |entries| && entries[i].fiscalYear == y && entries[i].sequence == n
  }

  /** Sequence numbers of a year are exactly 1 .. n: no gap, no repetition. */
  lemma {:induction false} SequencesAreGapless(entries: seq<Entry>, y: nat)
    requires Sequenced(entries)
    ensures forall n :: 1 <= n <= CountYear(entries, y) ==> NumberUsed(entries, y, n)
    ensures forall i, j :: 0 <= i < j < |entries| && entries[i].fiscalYear == entries[j].fiscalYear ==>
              entries[i].sequence < entries[j].sequence
    ensures forall i :: 0 <= i < |entries| && entries[i].fiscalYear == y ==> 1 <= entries[i].sequence <= CountYear(entries, y)
  {
    forall i, j | 0 <= i < j < |entries| && entries[i].fiscalYear == entries[j].fiscalYear
      ensures entries[i].sequence < entries[j].sequence
    {
      var k := entries[i].fiscalYear;
      assert entries[..i + 1][..i] == entries[..i];
      CountYearMonotone(entries, i + 1, j, k);
    }
    forall i | 0 <= i < |entries| && entries[i].fiscalYear == y
      ensures 1 <= entries[i].sequence <= CountYear(entries, y)
    {
      assert entries[..i + 1][..i] == entries[..i];
      assert entries[..|entries|] == entries;
      CountYearMonotone(entries, i + 1, |entries|, y);
    }
    forall n | 1 <= n <= CountYear(entries, y)
      ensures NumberUsed(entries, y, n)
    {
      EveryNumberIsUsed(entries, y, n);
    }
  }

  lemma {:induction false} EveryNumberIsUsed(entries: seq<Entry>, y: nat, n: int)
    requires Sequenced(entries)
    requires 1 <= n <= CountYear(entries, y)
    ensures NumberUsed(entries, y, n)
  {
    var p := entries[..|entries| - 1];
    var last := |entries| - 1;
    assert entries[last].sequence == CountYear(p, entries[last].fiscalYear) + 1;
    if entries[last].fiscalYear != y || entries[last].sequence != n {
      SequencedPrefix(entries, |p|);
      EveryNumberIsUsed(p, y, n);
      var i :| 0 <= i < |p| && p[i].fiscalYear == y && p[i].sequence == n;
      assert entries[i] == p[i];
    }
  }

  // ---------- reversals ----------

  predicate ReversedBy(entries: seq<Entry>, x: nat) {
    exists j :: 0 <= j < |entries| && entries[j].reverses == Some(x)
  }

  /** Unique index on `reversesEntryId`; an entry reverses an earlier entry. */
  predicate ReversalsUnique(entries: seq<Entry>) {
    && (forall i :: 0 <= i < |entries| && entries[i].reverses.Some? ==> entries[i].reverses.value < i)
    && (forall i, j :: 0 <= i < j < |entries| && entries[i].reverses.Some? ==> entries[i].reverses != entries[j].reverses)
  }
}
