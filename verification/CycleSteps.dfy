/**
 Every command other than the two approvals keeps the invariant of the cycle.
 */
module CycleSteps {
  import opened Ledger
  import opened Settlement
  import opened FiscalCycle
  import opened CycleInvariant

  // ---------- changes to reopening requests ----------

  /** Requests that were pending may have left that status without completing; nothing else changed. */
  ghost predicate OnlyRetired(before: seq<ReopenRequest>, after: seq<ReopenRequest>) {
    |after| == |before|
    && forall r :: 0 <= r < |before| ==> RowRetired(before[r], after[r])
  }

  ghost predicate RowRetired(before: ReopenRequest, after: ReopenRequest) {
    after == before
    || (before.status == Requested && after.status != Requested && after.status != Completed
        && after.close == before.close && after.source == before.source && after.successor == before.successor)
  }

  lemma RetiredKeepsReopened(before: seq<ReopenRequest>, after: seq<ReopenRequest>, q: nat)
    requires OnlyRetired(before, after)
    ensures Reopened(after, q) == Reopened(before, q)
  {
    if Reopened(before, q) {
      var r :| 0 <= r < |before| && before[r].close == q && before[r].status == Completed;
      assert RowRetired(before[r], after[r]);
    }
    if Reopened(after, q) {
      var r :| 0 <= r < |after| && after[r].close == q && after[r].status == Completed;
      assert RowRetired(before[r], after[r]);
    }
  }

  /** Reopening requests may change freely as long as the completed ones stay as they are. */
  lemma CurrentUnchanged(s: State, reopens: seq<ReopenRequest>)
    requires Inv(s)
    requires forall q: nat :: Reopened(reopens, q) == Reopened(s.reopens, q)
    ensures CurrentSound(s.years, s.closes, reopens)
    ensures CurrentUnreversed(s.entries, s.closes, reopens)
    ensures OpeningsNet(s.years, s.entries, s.closes, reopens)
  {
    assert forall q: nat :: IsCurrent(s.closes, reopens, q) == IsCurrent(s.closes, s.reopens, q);
    forall y: nat | y < |s.years| && s.years[y].status == Closed ensures HasCurrent(s.closes, reopens, y) {
      assert HasCurrent(s.closes, s.reopens, y);
    }
  }

  lemma RetiringKeeps(s: State, reopens: seq<ReopenRequest>, replies: map<string, Reply>)
    requires Inv(s) && OnlyRetired(s.reopens, reopens)
    ensures Inv(s.(reopens := reopens, replies := replies))
  {
    forall q: nat ensures Reopened(reopens, q) == Reopened(s.reopens, q) {
      RetiredKeepsReopened(s.reopens, reopens, q);
    }
    CurrentUnchanged(s, reopens);
    assert ReopensSound(s.closes, reopens) by {
      forall r | 0 <= r < |reopens| ensures ReopenRowSound(s.closes, reopens[r]) {
        assert RowRetired(s.reopens[r], reopens[r]);
        assert ReopenRowSound(s.closes, s.reopens[r]);
      }
      forall p, r | 0 <= p < r < |reopens| && reopens[p].close == reopens[r].close && reopens[p].status == reopens[r].status
        ensures reopens[p].status != Requested && reopens[p].status != Completed
      {
        assert RowRetired(s.reopens[r], reopens[r]) && RowRetired(s.reopens[p], reopens[p]);
      }
    }
    assert LinksSound(s.entries, s.closes, reopens) by {
      forall r | 0 <= r < |reopens| && reopens[r].status == Completed && reopens[r].close < |s.closes|
        ensures ReopenLinksSound(s.entries, s.closes[reopens[r].close], reopens[r])
      {
        assert RowRetired(s.reopens[r], reopens[r]);
      }
    }
  }

  lemma ExpiryRetires(reopens: seq<ReopenRequest>, now: int, only: Option<set<nat>>)
    ensures OnlyRetired(reopens, ExpireStale(reopens, now, only))
  {
    var after := ExpireStale(reopens, now, only);
    forall r | 0 <= r < |reopens| ensures RowRetired(reopens[r], after[r]) {
    }
  }

  lemma ExpiryKeeps(s: State, now: int, only: Option<set<nat>>)
    requires Inv(s)
    ensures Inv(s.(reopens := ExpireStale(s.reopens, now, only)))
  {
    ExpiryRetires(s.reopens, now, only);
    RetiringKeeps(s, ExpireStale(s.reopens, now, only), s.replies);
  }

  lemma DecideKeeps(t: State, r: nat, row: ReopenRequest, ctx: Context)
    requires Inv(t) && r < |t.reopens| && RowRetired(t.reopens[r], row)
    ensures Inv(Decide(t, r, row, ctx).0)
  {
    var u := Decide(t, r, row, ctx).0;
    assert OnlyRetired(t.reopens, u.reopens);
    RetiringKeeps(t, u.reopens, u.replies);
  }

  lemma CancelReopenKeeps(s: State, r: nat, now: int, ctx: Context)
    requires Inv(s)
    ensures Inv(CancelReopen(s, r, now, ctx).0)
  {
    ExpiryKeeps(s, now, None);
    var t := s.(reopens := ExpireStale(s.reopens, now, None));
    var u := CancelReopen(s, r, now, ctx).0;
    if u != s && u != t {
      var row := t.reopens[r].(status := Cancelled, cancelledBy := Some(ctx.actor), decidedAt := Some(now));
      assert u == Decide(t, r, row, ctx).0;
      DecideKeeps(t, r, row, ctx);
    }
  }

  lemma RejectReopenKeeps(s: State, r: nat, now: int, ctx: Context)
    requires Inv(s)
    ensures Inv(RejectReopen(s, r, now, ctx).0)
  {
    ExpiryKeeps(s, now, None);
    var t := s.(reopens := ExpireStale(s.reopens, now, None));
    var u := RejectReopen(s, r, now, ctx).0;
    if u != s && u != t {
      var row := t.reopens[r].(status := Rejected, rejectedBy := Some(ctx.actor), decidedAt := Some(now));
      assert u == Decide(t, r, row, ctx).0;
      DecideKeeps(t, r, row, ctx);
    }
  }

  lemma NewReopenKeeps(t: State, row: ReopenRequest, replies: map<string, Reply>)
    requires Inv(t)
    requires row.status == Requested && ReopenRowSound(t.closes, row) && !HasRequestedReopen(t.reopens, row.close)
    ensures Inv(t.(reopens := t.reopens + [row], replies := replies))
  {
    var reopens := t.reopens + [row];
    forall p: nat ensures Reopened(reopens, p) == Reopened(t.reopens, p) {
      if Reopened(t.reopens, p) {
        var r :| 0 <= r < |t.reopens| && t.reopens[r].close == p && t.reopens[r].status == Completed;
        assert reopens[r] == t.reopens[r];
      }
    }
    CurrentUnchanged(t, reopens);
  }

  lemma RequestReopenKeeps(s: State, q: nat, reason: string, now: int, ctx: Context, business: nat)
    requires Inv(s)
    ensures Inv(RequestReopen(s, q, reason, now, ctx, business).0)
  {
    ExpiryKeeps(s, now, Some({q}));
    var t := s.(reopens := ExpireStale(s.reopens, now, Some({q})));
    var (u, o) := RequestReopen(s, q, reason, now, ctx, business);
    if o.Created? {
      var row := u.reopens[|t.reopens|];
      NewReopenKeeps(t, row, u.replies);
    }
  }

  // ---------- changes to close requests ----------

  /** Close requests that are not completed play no part in what is current or in the links. */
  lemma ClosesWithSameCompleted(s: State, closes: seq<CloseRequest>)
    requires Inv(s) && |s.closes| <= |closes|
    requires forall q :: 0 <= q < |s.closes| ==>
               closes[q] == s.closes[q] || (s.closes[q].status != Completed && closes[q].status != Completed
                                            && closes[q].fiscalYear == s.closes[q].fiscalYear)
    requires forall q :: |s.closes| <= q < |closes| ==> closes[q].status != Completed
    ensures CurrentSound(s.years, closes, s.reopens)
    ensures ReopensSound(closes, s.reopens)
    ensures LinksSound(s.entries, closes, s.reopens)
    ensures CurrentUnreversed(s.entries, closes, s.reopens)
    ensures OpeningsNet(s.years, s.entries, closes, s.reopens)
  {
    assert forall q: nat :: IsCurrent(closes, s.reopens, q) == IsCurrent(s.closes, s.reopens, q);
    assert forall q: nat :: IsCurrent(s.closes, s.reopens, q) ==> closes[q] == s.closes[q];
    forall y: nat | y < |s.years| && s.years[y].status == Closed ensures HasCurrent(closes, s.reopens, y) {
      assert HasCurrent(s.closes, s.reopens, y);
      var q: nat :| IsCurrent(s.closes, s.reopens, q) && s.closes[q].fiscalYear == y;
      assert IsCurrent(closes, s.reopens, q);
    }
    forall r | 0 <= r < |s.reopens| ensures ReopenRowSound(closes, s.reopens[r]) {
      assert ReopenRowSound(s.closes, s.reopens[r]);
    }
    forall r | 0 <= r < |s.reopens| && s.reopens[r].status == Completed && s.reopens[r].close < |closes|
      ensures ReopenLinksSound(s.entries, closes[s.reopens[r].close], s.reopens[r])
    {
      assert ReopenRowSound(s.closes, s.reopens[r]);
    }
  }

  lemma RequestCloseKeeps(s: State, y: nat, ctx: Context, outside: OutsideJournal)
    requires Inv(s)
    ensures Inv(RequestClose(s, y, ctx, outside).0)
  {
    hide Inv, CloseReady;
    var (u, o) := RequestClose(s, y, ctx, outside);
    if o.Created? {
      NewCloseKeeps(s, u.closes[|s.closes|], u.replies);
    }
  }

  lemma NewCloseKeeps(s: State, row: CloseRequest, replies: map<string, Reply>)
    requires Inv(s)
    requires row.status == Requested && CloseRowSound(s.years, row) && !HasRequestedClose(s.closes, row.fiscalYear)
    ensures Inv(s.(closes := s.closes + [row], replies := replies))
  {
    var closes := s.closes + [row];
    ClosesWithSameCompleted(s, closes);
    assert ClosesSound(s.years, closes) by {
      forall q | 0 <= q < |closes| ensures CloseRowSound(s.years, closes[q]) {
        if q < |s.closes| { assert CloseRowSound(s.years, s.closes[q]); }
      }
    }
  }

  lemma CancelCloseKeeps(s: State, q: nat, now: int, ctx: Context)
    requires Inv(s)
    ensures Inv(CancelClose(s, q, now, ctx).0)
  {
    var (u, o) := CancelClose(s, q, now, ctx);
    if o.Done? {
      ClosesWithSameCompleted(s, u.closes);
      assert ClosesSound(s.years, u.closes) by {
        forall p | 0 <= p < |u.closes| ensures CloseRowSound(s.years, u.closes[p]) {
          assert CloseRowSound(s.years, s.closes[p]);
        }
      }
    }
  }

  // ---------- accounts ----------

  lemma SomeYearIsOpen(years: seq<FiscalYear>, y: nat)
    requires YearsShaped(years) && y < |years| && years[y].status == Open
    ensures OpenAt(years, y)
  {
  }

  lemma ResultAccountStays(accounts: seq<Account>, accounts': seq<Account>, y: nat)
    requires HasResultAccount(accounts, y) && SameAccounts(accounts, accounts')
    ensures HasResultAccount(accounts', y)
  {
    var a :| 0 <= a < |accounts| && accounts[a].fiscalYear == y && accounts[a].code == RESULT_ACCOUNT && accounts[a].active && accounts[a].postable;
    assert Identity(accounts'[a]) == Identity(accounts[a]);
  }

  lemma CreateAccountKeeps(s: State, fiscalYear: Option<nat>, supplier: Option<nat>, code: string, name: string, kind: string, level: int, postable: bool)
    requires Inv(s)
    ensures Inv(CreateAccount(s, fiscalYear, supplier, code, name, kind, level, postable).0)
  {
    var (u, o) := CreateAccount(s, fiscalYear, supplier, code, name, kind, level, postable);
    if o.Written? {
      var row := u.accounts[|s.accounts|];
      assert u.accounts == s.accounts + [row];
      assert SameAccounts(s.accounts, u.accounts);
      SomeYearIsOpen(s.years, row.fiscalYear);
      JournalStaysSound(s.years, s.years, s.accounts, u.accounts, s.entries);
      assert AccountsShaped(s.years, u.accounts) by {
        forall i | 0 <= i < |u.accounts| ensures AccountSound(s.years, u.accounts, u.accounts[i]) {
          if i < |s.accounts| { assert AccountSound(s.years, s.accounts, s.accounts[i]); }
        }
        forall y | 0 <= y < |s.years| ensures HasResultAccount(u.accounts, y) {
          ResultAccountStays(s.accounts, u.accounts, y);
        }
      }
      assert ReversedIsEmpty(s.years, u.accounts, s.entries) by {
        forall y: nat | y < |s.years| && s.years[y].status == Reversed
          ensures AllLinked(u.accounts, y) && AllAtZero(u.accounts, s.entries, y)
        {
          assert AllLinked(s.accounts, y) && AllAtZero(s.accounts, s.entries, y);
        }
      }
    }
  }

  lemma RenameSupplierKeeps(s: State, supplier: nat, name: string)
    requires Inv(s)
    ensures Inv(RenameSupplier(s, supplier, name).0)
  {
    var u := RenameSupplier(s, supplier, name).0;
    assert SameAccounts(s.accounts, u.accounts);
    JournalStaysSound(s.years, s.years, s.accounts, u.accounts, s.entries);
    forall i | 0 <= i < |u.accounts| ensures AccountSound(s.years, u.accounts, u.accounts[i]) {
      assert AccountSound(s.years, s.accounts, s.accounts[i]);
    }
    forall y | 0 <= y < |s.years| ensures HasResultAccount(u.accounts, y) {
      ResultAccountStays(s.accounts, u.accounts, y);
    }
    forall y: nat | y < |s.years| && s.years[y].status == Reversed
      ensures AllLinked(u.accounts, y) && AllAtZero(u.accounts, s.entries, y)
    {
      assert AllLinked(s.accounts, y) && AllAtZero(s.accounts, s.entries, y);
    }
  }

  lemma RowsNeedYears(s: State)
    requires Inv(s)
    requires s.accounts != [] || s.entries != [] || s.closes != []
    ensures s.years != []
  {
    if s.accounts != [] {
      assert AccountSound(s.years, s.accounts, s.accounts[0]);
    } else if s.entries != [] {
      assert EntrySound(s.years, s.accounts, s.entries[0]);
    } else {
      assert CloseRowSound(s.years, s.closes[0]);
    }
  }

  lemma ReopensNeedCloses(closes: seq<CloseRequest>, reopens: seq<ReopenRequest>)
    requires ReopensSound(closes, reopens) && reopens != []
    ensures closes != []
  {
    assert ReopenRowSound(closes, reopens[0]);
  }

  lemma InitializeKeeps(plan: seq<PlanAccount>, s: State, year: int)
    requires Inv(s) && ValidPlan(plan)
    ensures Inv(Initialize(plan, s, year).0)
  {
    var (u, o) := Initialize(plan, s, year);
    if o.Written? {
      if s.reopens != [] { ReopensNeedCloses(s.closes, s.reopens); }
      if s.accounts != [] || s.entries != [] || s.closes != [] { RowsNeedYears(s); }
      PlanShaped(plan, u.years, u.accounts);
    }
  }

  lemma PlanShaped(plan: seq<PlanAccount>, years: seq<FiscalYear>, accounts: seq<Account>)
    requires ValidPlan(plan) && |years| == 1
    requires |accounts| == |plan| && forall i :: 0 <= i < |plan| ==> accounts[i] == PlanRow(plan[i])
    ensures AccountsShaped(years, accounts)
  {
    var i :| 0 <= i < |plan| && plan[i].code == RESULT_ACCOUNT && plan[i].postable;
    assert accounts[i] == PlanRow(plan[i]);
    assert HasResultAccount(accounts, 0);
  }

  // ---------- entries ----------

  /** Linked entries stay where they are when the journal grows. */
  lemma LinksSurviveAppend(entries: seq<Entry>, more: seq<Entry>, closes: seq<CloseRequest>, reopens: seq<ReopenRequest>)
    requires LinksSound(entries, closes, reopens)
    ensures LinksSound(entries + more, closes, reopens)
  {
    var all := entries + more;
    forall q | 0 <= q < |closes| && closes[q].status == Completed ensures CloseLinksSound(all, closes[q]) {
      assert CloseLinksSound(entries, closes[q]);
    }
    forall r | 0 <= r < |reopens| && reopens[r].status == Completed && reopens[r].close < |closes|
      ensures ReopenLinksSound(all, closes[reopens[r].close], reopens[r])
    {
      assert ReopenLinksSound(entries, closes[reopens[r].close], reopens[r]);
    }
  }

  lemma ReversalsAppend(entries: seq<Entry>, e: Entry)
    requires ReversalsUnique(entries)
    requires e.reverses.Some? ==> e.reverses.value < |entries| && !ReversedBy(entries, e.reverses.value)
    ensures ReversalsUnique(entries + [e])
  {
  }

  lemma JournalAppend(years: seq<FiscalYear>, accounts: seq<Account>, entries: seq<Entry>, e: Entry)
    requires JournalSound(years, accounts, entries) && EntrySound(years, accounts, e)
    ensures JournalSound(years, accounts, entries + [e])
  {
  }

  /** An entry that reverses nothing automatic leaves the entries of every current close unreversed. */
  lemma UnreversedAppend(entries: seq<Entry>, e: Entry, closes: seq<CloseRequest>, reopens: seq<ReopenRequest>)
    requires CurrentUnreversed(entries, closes, reopens) && LinksSound(entries, closes, reopens)
    requires e.reverses.Some? ==> e.reverses.value < |entries| && !IsAutomatic(entries[e.reverses.value].origin)
    ensures CurrentUnreversed(entries + [e], closes, reopens)
  {
    forall q: nat | IsCurrent(closes, reopens, q) ensures Unreversed(entries + [e], closes[q]) {
      assert CloseLinksSound(entries, closes[q]);
      assert Unreversed(entries, closes[q]);
    }
  }

  /** An entry that is no opening and reverses none leaves the totals of openings alone. */
  lemma OpeningsIgnore(years: seq<FiscalYear>, entries: seq<Entry>, closes: seq<CloseRequest>, reopens: seq<ReopenRequest>, e: Entry)
    requires OpeningsNet(years, entries, closes, reopens) && LinksSound(entries, closes, reopens)
    requires !OpeningKind(entries, e)
    ensures OpeningsNet(years, entries + [e], closes, reopens)
  {
    OpeningsSnoc(entries, e);
    forall q: nat, a: nat | IsCurrent(closes, reopens, q)
      ensures OpeningsTotal(entries + [e], closes[q].fiscalYear + 1, a) == LinkNet(entries + [e], closes[q].opening, a)
    {
      assert OpeningsTotal(entries, closes[q].fiscalYear + 1, a) == LinkNet(entries, closes[q].opening, a);
      assert CloseLinksSound(entries, closes[q]);
    }
  }

  lemma ReversedIgnores(years: seq<FiscalYear>, accounts: seq<Account>, entries: seq<Entry>, e: Entry)
    requires ReversedIsEmpty(years, accounts, entries)
    requires e.fiscalYear < |years| && years[e.fiscalYear].status != Reversed
    ensures ReversedIsEmpty(years, accounts, entries + [e])
  {
    JournalSnoc(entries, e);
    forall y: nat | y < |years| && years[y].status == Reversed
      ensures AllLinked(accounts, y) && AllAtZero(accounts, entries + [e], y)
    {
      assert AllLinked(accounts, y) && AllAtZero(accounts, entries, y);
    }
  }

  /** A sound entry, numbered next in an open year, that is neither an opening nor the reversal of one. */
  lemma AppendKeeps(s: State, e: Entry)
    requires Inv(s)
    requires EntrySound(s.years, s.accounts, e)
    requires s.years[e.fiscalYear].status == Open
    requires e.sequence == LastSequence(s.entries, e.fiscalYear) + 1
    requires !IsAutomatic(e.origin)
    requires e.reverses.Some? ==> e.reverses.value < |s.entries| && !ReversedBy(s.entries, e.reverses.value)
                                  && !IsAutomatic(s.entries[e.reverses.value].origin)
    ensures Inv(s.(entries := s.entries + [e]))
  {
    JournalAppend(s.years, s.accounts, s.entries, e);
    SequencedSnoc(s.entries, e);
    ReversalsAppend(s.entries, e);
    LinksSurviveAppend(s.entries, [e], s.closes, s.reopens);
    UnreversedAppend(s.entries, e, s.closes, s.reopens);
    OpeningsIgnore(s.years, s.entries, s.closes, s.reopens, e);
    ReversedIgnores(s.years, s.accounts, s.entries, e);
  }

  /** A date inside an open year finds that year. */
  lemma DateFindsYear(s: State, y: nat, date: int)
    requires Inv(s) && y < |s.years| && s.years[y].status == Open
    requires FirstDay(s.years[y].year) <= date <= LastDay(s.years[y].year)
    ensures YearOf(date) == s.years[y].year && OpenYearAt(s.years, date) == Some(y)
  {
    var year := s.years[y].year;
    assert YearOf(date) == year;
    var found := FindYear(s.years, year);
    assert Contiguous(s.years);
    assert s.years[found.value].year == s.years[0].year + found.value;
    assert s.years[y].year == s.years[0].year + y;
  }

  lemma OpenYearAtMeans(years: seq<FiscalYear>, date: int)
    ensures var y := OpenYearAt(years, date);
            y.Some? ==> y.value < |years| && years[y.value].status == Open && years[y.value].year == YearOf(date)
  {
  }

  lemma InsertKeeps(s: State, y: nat, date: int, origin: Origin, reverses: Option<nat>, lines: seq<Line>)
    requires Inv(s)
    requires OpenYearAt(s.years, date) == Some(y)
    requires LinesInYear(s.accounts, lines, y)
    requires !IsAutomatic(origin)
    requires reverses.Some? ==> reverses.value < |s.entries| && !ReversedBy(s.entries, reverses.value)
                                && !IsAutomatic(s.entries[reverses.value].origin)
    ensures Inv(Insert(s, NewEntry(s.entries, y, YearOf(date), date, origin, reverses, lines)).0)
  {
    var e := NewEntry(s.entries, y, YearOf(date), date, origin, reverses, lines);
    if TableAccepts(e) {
      AppendKeeps(s, e);
    }
  }

  lemma ManualEntryKeeps(s: State, date: int, lines: seq<Line>)
    requires Inv(s)
    ensures Inv(ManualEntry(s, date, lines).0)
  {
    var y := OpenYearAt(s.years, date);
    if y.Some? && LinesInYear(s.accounts, lines, y.value) {
      InsertKeeps(s, y.value, date, Manual, None, lines);
    }
  }

  lemma PostKeeps(s: State, date: int, origin: Origin, reverses: Option<nat>, lines: seq<Line>)
    requires Inv(s)
    ensures Inv(Post(s, date, origin, reverses, lines).0)
  {
    if MayPost(s, date, origin, reverses, lines) {
      InsertKeeps(s, OpenYearAt(s.years, date).value, date, origin, reverses, lines);
    }
  }
}
