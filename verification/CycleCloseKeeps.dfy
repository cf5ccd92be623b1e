/**
 An approved close: it succeeds exactly when the result of the year is not zero, and it keeps the invariant.
 */
module CycleCloseKeeps {
  import opened Ledger
  import opened Settlement
  import opened FiscalCycle
  import opened CycleInvariant
  import opened CycleSteps
  import opened CycleClose

  /** The year is open, and a later year can only be its reversed copy. */
  ghost predicate Closable(s: State, y: nat) {
    Inv(s) && y < |s.years| && s.years[y].status == Open && UnsupportedAtZero(s, y)
  }

  lemma ClosableIsReady(s: State, y: nat)
    requires Closable(s, y)
    ensures OpenAt(s.years, y) && ReadyToCopy(s.years, s.accounts, y)
    ensures SuccessorOf(s.years, y) == y + 1 && !NextYearTaken(s.years, y)
    ensures y + 1 < |s.years| ==> s.years[y + 1].status == Reversed && AllAtZero(s.accounts, s.entries, y + 1)
  {
    SomeYearIsOpen(s.years, y);
    NextYearFound(s.years, y);
    if y + 1 < |s.years| {
      assert AllLinked(s.accounts, y + 1) && AllAtZero(s.accounts, s.entries, y + 1);
    }
  }

  /** The years after closing `y`: the source is closed and its successor is open. */
  ghost predicate ClosedYears(years: seq<FiscalYear>, y: nat, years': seq<FiscalYear>) {
    && y < |years|
    && |years'| == y + 2
    && (forall i :: 0 <= i < y ==> years'[i] == years[i])
    && years'[y].status == Closed && years'[y].year == years[y].year && years'[y].source == years[y].source
    && years'[y + 1].status == Open
    && YearsShaped(years')
    && SameNumbers(years, years')
    && years'[y + 1].year == years[y].year + 1
  }

  lemma YearsClosed(years: seq<FiscalYear>, y: nat, now: int, actor: nat)
    requires YearsShaped(years) && OpenAt(years, y)
    ensures ClosedYears(years, y, YearsAfterClose(years, y, now, actor))
  {
    NextYearFound(years, y);
    var years' := YearsAfterClose(years, y, now, actor);
    assert years[y].year == years[0].year + y;
    assert OpenAt(years', y + 1);
    assert |years'| == y + 2;
    forall i | 0 <= i < |years'|
      ensures years'[i].year == years'[0].year + i && years'[i].source == if i == 0 then None else Some(i - 1)
    {
      if i < |years| {
        assert years[i].year == years[0].year + i && years[i].source == if i == 0 then None else Some(i - 1);
      }
    }
  }

  /** The three postings of a close, one after the other. */
  ghost predicate Stages(s: State, y: nat, p1: Posting, p2: Posting, p3: Posting)
    requires y < |s.years|
  {
    && RegularizationLines(s, y).Some?
    && PostedTo(s.entries, p1, y, Regularization, RegularizationLines(s, y).value)
    && PostedTo(p1.entries, p2, y, Closing, ClosingEntryLines(s, y, p1.entries))
    && PostedTo(p2.entries, p3, y + 1, Opening, OpeningEntryLines(s, y, p1.entries))
    && PostClosure(s, y) == Closure(p3.entries, p1.id, p2.id, p3.id)
  }

  lemma StagesAssemble(s: State, y: nat, p1: Posting, p2: Posting, p3: Posting)
    requires y < |s.years| && SuccessorOf(s.years, y) == y + 1
    requires RegularizationLines(s, y).Some? && p1 == PostRegularization(s, y)
    requires PostedTo(s.entries, p1, y, Regularization, RegularizationLines(s, y).value)
    requires p2 == PostAutomatic(p1.entries, y, s.years[y].year, LastDay(s.years[y].year), Closing, ClosingEntryLines(s, y, p1.entries))
    requires PostedTo(p1.entries, p2, y, Closing, ClosingEntryLines(s, y, p1.entries))
    requires p3 == PostAutomatic(p2.entries, y + 1, s.years[y].year + 1, FirstDay(s.years[y].year + 1), Opening,
                                 OpeningEntryLines(s, y, p1.entries))
    requires PostedTo(p2.entries, p3, y + 1, Opening, OpeningEntryLines(s, y, p1.entries))
    ensures Stages(s, y, p1, p2, p3)
  {
  }

  lemma ClosurePosted(s: State, y: nat, years': seq<FiscalYear>) returns (p1: Posting, p2: Posting, p3: Posting)
    requires Closable(s, y) && !ZeroResult(s, y) && ClosedYears(s.years, y, years')
    ensures Stages(s, y, p1, p2, p3)
    ensures JournalKept(years', AccountsAfterClose(s.years, s.accounts, y), p3.entries)
    ensures forall a: nat :: a in YearAccounts(s.accounts, y) ==> YearBalance(p1.entries, y, a) == Settled(s, y, a)
    ensures AllAtZero(s.accounts, p2.entries, y)
  {
    ClosableIsReady(s, y);
    AfterRegularization(s, y);
    p1 := PostRegularization(s, y);
    AfterClosing(s, y, p1.entries);
    p2 := PostAutomatic(p1.entries, y, s.years[y].year, LastDay(s.years[y].year), Closing, ClosingEntryLines(s, y, p1.entries));
    SettledPatrimonialCancels(s, y, p1.entries);
    AfterOpening(s, y, p1.entries, p2.entries, years');
    var year := s.years[y].year + 1;
    p3 := PostAutomatic(p2.entries, y + 1, year, FirstDay(year), Opening, OpeningEntryLines(s, y, p1.entries));
    StagesAssemble(s, y, p1, p2, p3);
  }

  /** The close posts exactly when the result accounts are at zero or do not cancel out. */
  lemma CloseThrowsIff(s: State, y: nat)
    requires Closable(s, y)
    ensures PostClosure(s, y).NoClosure? <==> ZeroResult(s, y)
    ensures PostClosure(s, y).NoClosure? ==> PostClosure(s, y).fault == CheckViolation
  {
    if ZeroResult(s, y) {
      ZeroResultThrows(s, y);
    } else {
      ClosableIsReady(s, y);
      YearsClosed(s.years, y, 0, 0);
      var p1, p2, p3 := ClosurePosted(s, y, YearsAfterClose(s.years, y, 0, 0));
    }
  }

  // ---------- the tables after the close ----------

  ghost predicate CompletedRow(c: CloseRequest, y: nat) {
    c.fiscalYear == y && c.status == Completed && c.successor == Some(y + 1)
  }

  /** While `y` is open, the request being approved is the only pending one. */
  lemma ClosesAfter(years: seq<FiscalYear>, years': seq<FiscalYear>, closes: seq<CloseRequest>, q: nat, row: CloseRequest)
    requires ClosesSound(years, closes) && q < |closes| && closes[q].status == Requested
    requires OpenAt(years, closes[q].fiscalYear)
    requires ClosedYears(years, closes[q].fiscalYear, years')
    requires CompletedRow(row, closes[q].fiscalYear)
    ensures ClosesSound(years', closes[q := row])
    ensures forall p :: 0 <= p < |closes| && p != q ==> closes[p].status != Requested
  {
    forall p | 0 <= p < |closes| && p != q ensures closes[p].status != Requested {
      assert CloseRowSound(years, closes[p]);
    }
    var closes' := closes[q := row];
    forall p | 0 <= p < |closes'| ensures CloseRowSound(years', closes'[p]) {
      assert CloseRowSound(years, closes[p]);
    }
  }

  lemma OnlyCompletedReopened(closes: seq<CloseRequest>, reopens: seq<ReopenRequest>, q: nat)
    requires ReopensSound(closes, reopens)
    ensures Reopened(reopens, q) ==> q < |closes| && closes[q].status == Completed
  {
    if Reopened(reopens, q) {
      var r :| 0 <= r < |reopens| && reopens[r].close == q && reopens[r].status == Completed;
      assert ReopenRowSound(closes, reopens[r]);
    }
  }

  lemma CurrentAfterClose(years: seq<FiscalYear>, years': seq<FiscalYear>, closes: seq<CloseRequest>, reopens: seq<ReopenRequest>, q: nat, row: CloseRequest)
    requires CurrentSound(years, closes, reopens) && ReopensSound(closes, reopens)
    requires q < |closes| && closes[q].status == Requested
    requires ClosedYears(years, closes[q].fiscalYear, years') && OpenAt(years, closes[q].fiscalYear)
    requires forall p :: 0 <= p < |closes| ==> CloseRowSound(years, closes[p])
    requires CompletedRow(row, closes[q].fiscalYear)
    ensures CurrentSound(years', closes[q := row], reopens)
    ensures forall p: nat :: IsCurrent(closes[q := row], reopens, p) <==> p == q || IsCurrent(closes, reopens, p)
    ensures ReopensSound(closes[q := row], reopens)
  {
    var y := closes[q].fiscalYear;
    var closes' := closes[q := row];
    OnlyCompletedReopened(closes, reopens, q);
    assert forall p: nat :: IsCurrent(closes', reopens, p) <==> p == q || IsCurrent(closes, reopens, p);
    forall p: nat | IsCurrent(closes, reopens, p) ensures closes[p].fiscalYear < y {
      assert CloseRowSound(years, closes[p]);
    }
    forall k: nat | k < |years'| && years'[k].status == Closed ensures HasCurrent(closes', reopens, k) {
      if k == y {
        assert IsCurrent(closes', reopens, q);
      } else {
        assert HasCurrent(closes, reopens, k);
        var p: nat :| IsCurrent(closes, reopens, p) && closes[p].fiscalYear == k;
        assert IsCurrent(closes', reopens, p);
      }
    }
    forall r | 0 <= r < |reopens| ensures ReopenRowSound(closes', reopens[r]) {
      assert ReopenRowSound(closes, reopens[r]);
    }
  }

  lemma LinksAfterClose(entries: seq<Entry>, entries': seq<Entry>, closes: seq<CloseRequest>, reopens: seq<ReopenRequest>, q: nat, row: CloseRequest)
    requires LinksSound(entries, closes, reopens) && ReopensSound(closes, reopens)
    requires q < |closes| && closes[q].status == Requested
    requires entries <= entries'
    requires CloseLinksSound(entries', row)
    ensures LinksSound(entries', closes[q := row], reopens)
  {
    assert entries' == entries + entries'[|entries|..];
    LinksSurviveAppend(entries, entries'[|entries|..], closes, reopens);
    forall r | 0 <= r < |reopens| && reopens[r].status == Completed && reopens[r].close < |closes|
      ensures ReopenLinksSound(entries', closes[q := row][reopens[r].close], reopens[r])
    {
      assert ReopenRowSound(closes, reopens[r]);
    }
  }

  lemma {:induction false} NoEntriesNoOpenings(entries: seq<Entry>, k: nat, a: nat)
    requires forall i :: 0 <= i < |entries| ==> entries[i].fiscalYear != k
    ensures OpeningsTotal(entries, k, a) == 0
  {
    if entries != [] {
      NoEntriesNoOpenings(entries[..|entries| - 1], k, a);
    }
  }

  ghost predicate NoOpenings(entries: seq<Entry>, k: nat) {
    forall a: nat :: OpeningsTotal(entries, k, a) == 0
  }

  lemma SuccessorHasNoOpening(s: State, y: nat)
    requires Closable(s, y)
    ensures NoOpenings(s.entries, y + 1)
  {
    ClosableIsReady(s, y);
    if y + 1 == |s.years| {
      forall i | 0 <= i < |s.entries| ensures s.entries[i].fiscalYear != y + 1 {
        assert EntrySound(s.years, s.accounts, s.entries[i]);
      }
      var k := y + 1;
      forall a: nat ensures OpeningsTotal(s.entries, k, a) == 0 {
        NoEntriesNoOpenings(s.entries, k, a);
      }
    }
  }

  lemma StagesOpenings(s: State, y: nat, p1: Posting, p2: Posting, p3: Posting)
    requires y < |s.years| && Stages(s, y, p1, p2, p3)
    ensures s.entries <= p3.entries
    ensures CloseLinksSound(p3.entries, CloseRequest(y, Completed, 0, None, None, None, None, Some(y + 1), p1.id, p2.id, p3.id))
    ensures forall k: nat, a: nat ::
              OpeningsTotal(p3.entries, k, a) == OpeningsTotal(s.entries, k, a) + if k == y + 1 then LinkNet(p3.entries, p3.id, a) else 0
  {
    PostedBalances(s.entries, p1, y, Regularization, RegularizationLines(s, y).value);
    PostedBalances(p1.entries, p2, y, Closing, ClosingEntryLines(s, y, p1.entries));
    PostedBalances(p2.entries, p3, y + 1, Opening, OpeningEntryLines(s, y, p1.entries));
  }

  lemma OpeningsAfterClose(s: State, y: nat, years': seq<FiscalYear>, closes': seq<CloseRequest>, q: nat, p1: Posting, p2: Posting, p3: Posting)
    requires y < |s.years| && Stages(s, y, p1, p2, p3) && ClosedYears(s.years, y, years')
    requires OpeningsNet(s.years, s.entries, s.closes, s.reopens) && LinksSound(s.entries, s.closes, s.reopens)
    requires forall p: nat :: IsCurrent(s.closes, s.reopens, p) ==> s.closes[p].fiscalYear < y
    requires NoOpenings(s.entries, y + 1)
    requires forall i :: 0 <= i < y ==> s.years[i].status == Closed
    requires |closes'| == |s.closes| && q < |closes'| && closes'[q].fiscalYear == y && closes'[q].opening == p3.id
    requires forall p :: 0 <= p < |closes'| && p != q ==> closes'[p] == s.closes[p]
    requires forall p: nat :: IsCurrent(closes', s.reopens, p) <==> p == q || IsCurrent(s.closes, s.reopens, p)
    ensures OpeningsNet(years', p3.entries, closes', s.reopens)
  {
    hide OpeningsTotal;
    StagesOpenings(s, y, p1, p2, p3);
    forall p: nat, a: nat | IsCurrent(closes', s.reopens, p)
      ensures OpeningsTotal(p3.entries, closes'[p].fiscalYear + 1, a) == LinkNet(p3.entries, closes'[p].opening, a)
    {
      if p == q {
        assert NoOpenings(s.entries, y + 1);
      } else {
        assert IsCurrent(s.closes, s.reopens, p) && closes'[p] == s.closes[p];
        var k: nat := s.closes[p].fiscalYear + 1;
        assert OpeningsTotal(p3.entries, k, a) == OpeningsTotal(s.entries, k, a);
        assert OpeningsTotal(s.entries, k, a) == LinkNet(s.entries, s.closes[p].opening, a);
        assert CloseLinksSound(s.entries, s.closes[p]);
        assert LinkNet(p3.entries, s.closes[p].opening, a) == LinkNet(s.entries, s.closes[p].opening, a);
      }
    }
    forall k: nat, a: nat | k < |years'| && (k == 0 || years'[k - 1].status != Closed)
      ensures OpeningsTotal(p3.entries, k, a) == 0
    {
      assert k == 0;
    }
  }

  lemma CurrentIsEarlier(s: State, y: nat)
    requires Inv(s) && OpenAt(s.years, y)
    ensures forall p: nat :: IsCurrent(s.closes, s.reopens, p) ==> s.closes[p].fiscalYear < y
  {
    forall p: nat | IsCurrent(s.closes, s.reopens, p) ensures s.closes[p].fiscalYear < y {
      assert CloseRowSound(s.years, s.closes[p]);
    }
  }

  /** The table of close requests after approving request `q`. */
  ghost predicate ClosesCompleted(s: State, q: nat, y: nat, closes': seq<CloseRequest>, p1: Posting, p2: Posting, p3: Posting) {
    && q < |s.closes| && s.closes[q].status == Requested && s.closes[q].fiscalYear == y
    && |closes'| == |s.closes|
    && closes' == s.closes[q := closes'[q]]
    && CompletedRow(closes'[q], y)
    && p1.Posted? && p2.Posted? && p3.Posted?
    && closes'[q].regularization == p1.id && closes'[q].closing == p2.id && closes'[q].opening == p3.id
  }

  lemma RequestTablesAfterClose(s: State, y: nat, years': seq<FiscalYear>, q: nat, closes': seq<CloseRequest>, p1: Posting, p2: Posting, p3: Posting)
    requires Inv(s) && OpenAt(s.years, y) && ClosedYears(s.years, y, years')
    requires ClosesCompleted(s, q, y, closes', p1, p2, p3)
    ensures ClosesSound(years', closes') && CurrentSound(years', closes', s.reopens) && ReopensSound(closes', s.reopens)
    ensures forall p: nat :: IsCurrent(closes', s.reopens, p) <==> p == q || IsCurrent(s.closes, s.reopens, p)
  {
    ClosesAfter(s.years, years', s.closes, q, closes'[q]);
    CurrentAfterClose(s.years, years', s.closes, s.reopens, q, closes'[q]);
  }

  /** A close posts no reversal, so nothing it found unreversed becomes reversed. */
  lemma StagesReverseNothing(s: State, y: nat, p1: Posting, p2: Posting, p3: Posting, x: nat)
    requires y < |s.years| && Stages(s, y, p1, p2, p3) && ReversalsUnique(s.entries)
    requires x < |s.entries| ==> !ReversedBy(s.entries, x)
    ensures !ReversedBy(p3.entries, x)
  {
    if |s.entries| <= x { LaterUnreversed(s.entries, x); }
    PostedReversesNothing(s.entries, p1, y, Regularization, RegularizationLines(s, y).value, x);
    PostedReversesNothing(p1.entries, p2, y, Closing, ClosingEntryLines(s, y, p1.entries), x);
    PostedReversesNothing(p2.entries, p3, y + 1, Opening, OpeningEntryLines(s, y, p1.entries), x);
  }

  lemma PostedReversesNothing(entries: seq<Entry>, p: Posting, y: nat, origin: Origin, lines: seq<Line>, x: nat)
    requires PostedTo(entries, p, y, origin, lines)
    ensures ReversedBy(p.entries, x) ==> ReversedBy(entries, x)
  {
  }

  /** No entry reverses an entry that is not there yet. */
  lemma LaterUnreversed(entries: seq<Entry>, x: nat)
    requires ReversalsUnique(entries) && |entries| <= x
    ensures !ReversedBy(entries, x)
  {
  }

  lemma UnreversedAfterClose(s: State, y: nat, closes': seq<CloseRequest>, q: nat, p1: Posting, p2: Posting, p3: Posting)
    requires y < |s.years| && Stages(s, y, p1, p2, p3) && ReversalsUnique(s.entries)
    requires CurrentUnreversed(s.entries, s.closes, s.reopens)
    requires ClosesCompleted(s, q, y, closes', p1, p2, p3)
    requires forall p: nat :: IsCurrent(closes', s.reopens, p) <==> p == q || IsCurrent(s.closes, s.reopens, p)
    ensures CurrentUnreversed(p3.entries, closes', s.reopens)
  {
    forall p: nat | IsCurrent(closes', s.reopens, p) ensures Unreversed(p3.entries, closes'[p]) {
      var c := closes'[p];
      if p != q {
        assert Unreversed(s.entries, s.closes[p]) && c == s.closes[p];
      }
      if c.regularization.Some? { StagesReverseNothing(s, y, p1, p2, p3, c.regularization.value); }
      if c.closing.Some? { StagesReverseNothing(s, y, p1, p2, p3, c.closing.value); }
      if c.opening.Some? { StagesReverseNothing(s, y, p1, p2, p3, c.opening.value); }
    }
  }

  lemma LinkTablesAfterClose(s: State, y: nat, years': seq<FiscalYear>, q: nat, closes': seq<CloseRequest>, p1: Posting, p2: Posting, p3: Posting)
    requires Closable(s, y) && Stages(s, y, p1, p2, p3) && ClosedYears(s.years, y, years')
    requires ClosesCompleted(s, q, y, closes', p1, p2, p3)
    requires forall p: nat :: IsCurrent(closes', s.reopens, p) <==> p == q || IsCurrent(s.closes, s.reopens, p)
    ensures LinksSound(p3.entries, closes', s.reopens)
    ensures CurrentUnreversed(p3.entries, closes', s.reopens)
    ensures OpeningsNet(years', p3.entries, closes', s.reopens)
  {
    ClosableIsReady(s, y);
    CurrentIsEarlier(s, y);
    StagesOpenings(s, y, p1, p2, p3);
    LinksAfterClose(s.entries, p3.entries, s.closes, s.reopens, q, closes'[q]);
    UnreversedAfterClose(s, y, closes', q, p1, p2, p3);
    SuccessorHasNoOpening(s, y);
    OpeningsAfterClose(s, y, years', closes', q, p1, p2, p3);
  }

  lemma Assemble(s: State)
    requires YearsShaped(s.years) && AccountsShaped(s.years, s.accounts)
    requires JournalKept(s.years, s.accounts, s.entries)
    requires ClosesSound(s.years, s.closes) && CurrentSound(s.years, s.closes, s.reopens) && ReopensSound(s.closes, s.reopens)
    requires LinksSound(s.entries, s.closes, s.reopens) && OpeningsNet(s.years, s.entries, s.closes, s.reopens)
    requires CurrentUnreversed(s.entries, s.closes, s.reopens)
    requires ReversedIsEmpty(s.years, s.accounts, s.entries)
    ensures Inv(s)
  {
  }

  lemma NothingReversed(years: seq<FiscalYear>, y: nat, years': seq<FiscalYear>, accounts: seq<Account>, entries: seq<Entry>)
    requires ClosedYears(years, y, years') && OpenAt(years, y)
    ensures ReversedIsEmpty(years', accounts, entries)
  {
  }

  /** What an approved close did to the state, apart from storing its reply. */
  ghost predicate CloseCommitted(s: State, s': State, q: nat, now: int, actor: nat) {
    && q < |s.closes| && s.closes[q].status == Requested && s.closes[q].requestedBy != actor
    && var y := s.closes[q].fiscalYear;
    && y < |s.years| && s.years[y].status == Open && UnsupportedAtZero(s, y)
    && PostClosure(s, y).Closure?
    && s'.years == YearsAfterClose(s.years, y, now, actor)
    && s'.accounts == AccountsAfterClose(s.years, s.accounts, y)
    && s'.entries == PostClosure(s, y).entries
    && s'.reopens == s.reopens
    && |s'.closes| == |s.closes| && s'.closes == s.closes[q := s'.closes[q]]
    && s'.closes[q].fiscalYear == y && s'.closes[q].status == Completed
    && s'.closes[q].successor == Some(SuccessorOf(s.years, y))
    && s'.closes[q].regularization == PostClosure(s, y).regularization
    && s'.closes[q].closing == PostClosure(s, y).closing
    && s'.closes[q].opening == PostClosure(s, y).opening
    && s'.closes[q].requestedBy == s.closes[q].requestedBy
    && s'.closes[q].approvedBy == Some(actor) && s'.closes[q].approvedAt == Some(now)
    && s'.closes[q].cancelledBy == s.closes[q].cancelledBy && s'.closes[q].cancelledAt == s.closes[q].cancelledAt
  }

  lemma ApproveCloseShape(s: State, q: nat, now: int, ctx: Context, outside: OutsideJournal)
    ensures var (s', o) := ApproveClose(s, q, now, ctx, outside);
            && (o.Done? ==> CloseCommitted(s, s', q, now, ctx.actor) && ctx.key !in s.replies
                            && s'.replies == s.replies[ctx.key := Reply(ctx.hash, 200, o.response)])
            && (!o.Done? ==> s' == s)
  {
  }

  lemma StagesAreClosure(s: State, y: nat, p1: Posting, p2: Posting, p3: Posting)
    requires y < |s.years| && Stages(s, y, p1, p2, p3) && PostClosure(s, y).Closure?
    ensures p1.Posted? && p2.Posted? && p3.Posted? && PostClosure(s, y) == Closure(p3.entries, p1.id, p2.id, p3.id)
  {
    hide RegularizationLines, ClosingEntryLines, OpeningEntryLines, TableAccepts, PostAutomatic;
  }

  /** An approved close keeps the invariant. */
  lemma CommittedCloseKeeps(s: State, s': State, q: nat, now: int, actor: nat)
    requires Inv(s) && CloseCommitted(s, s', q, now, actor)
    ensures Inv(s')
  {
    hide AccountsShaped, JournalSound, Sequenced, ReversalsUnique, ClosesSound, CurrentSound, ReopensSound, LinksSound, CurrentUnreversed, OpeningsNet,
      ReversedIsEmpty, AccountsAfterClose, UnsupportedAtZero, ZeroResult, Stages, PostClosure, JournalKept, YearsAfterClose, ReadyToCopy, AllAtZero;
    var y := s.closes[q].fiscalYear;
    ClosableIsReady(s, y);
    YearsClosed(s.years, y, now, actor);
    CloseThrowsIff(s, y);
    var p1, p2, p3 := ClosurePosted(s, y, s'.years);
    StagesAreClosure(s, y, p1, p2, p3);
    assert ClosesCompleted(s, q, y, s'.closes, p1, p2, p3);
    CopiedAccountsShaped(s.years, s'.years, s.accounts, y);
    RequestTablesAfterClose(s, y, s'.years, q, s'.closes, p1, p2, p3);
    LinkTablesAfterClose(s, y, s'.years, q, s'.closes, p1, p2, p3);
    NothingReversed(s.years, y, s'.years, s'.accounts, s'.entries);
    Assemble(s');
  }

  lemma ApproveCloseKeeps(s: State, q: nat, now: int, ctx: Context, outside: OutsideJournal)
    requires Inv(s)
    ensures Inv(ApproveClose(s, q, now, ctx, outside).0)
  {
    hide Inv, ApproveClose, CloseCommitted;
    ApproveCloseShape(s, q, now, ctx, outside);
    if ApproveClose(s, q, now, ctx, outside).1.Done? {
      CommittedCloseKeeps(s, ApproveClose(s, q, now, ctx, outside).0, q, now, ctx.actor);
    }
  }
}
