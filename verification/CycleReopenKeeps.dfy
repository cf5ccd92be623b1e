/**
 An approved reopening: its three reversals always post, and it keeps the invariant.
 */
module CycleReopenKeeps {
  import opened Ledger
  import opened Settlement
  import opened FiscalCycle
  import opened CycleInvariant
  import opened CycleSteps
  import opened CycleClose
  import opened CycleCloseKeeps

  // ---------- one reversal ----------

  ghost predicate ReversedTo(entries: seq<Entry>, p: Posting, x: Option<nat>) {
    && p.Posted?
    && (x.None? ==> p == Posted(entries, None))
    && (x.Some? ==>
          && x.value < |entries|
          && p.id == Some(|entries|)
          && |p.entries| == |entries| + 1
          && p.entries == entries + [p.entries[|entries|]]
          && var e, o := p.entries[|entries|], entries[x.value];
             e.fiscalYear == o.fiscalYear && e.origin == CloseReversal && e.reverses == x && e.lines == Mirror(o.lines))
  }

  ghost predicate Reversible(entries: seq<Entry>, x: Option<nat>) {
    x.Some? ==> x.value < |entries| && !ReversedBy(entries, x.value)
  }

  lemma ReversalIsSound(years: seq<FiscalYear>, accounts: seq<Account>, entries: seq<Entry>, original: Entry, x: nat)
    requires EntrySound(years, accounts, original)
    ensures EntrySound(years, accounts, ReversalEntry(entries, original, x))
  {
    MirrorNegates(original.lines);
    MirrorOneSided(original.lines);
  }

  lemma PostReversalSucceeds(years: seq<FiscalYear>, accounts: seq<Account>, entries: seq<Entry>, x: Option<nat>)
    requires JournalKept(years, accounts, entries) && Reversible(entries, x)
    ensures ReversedTo(entries, PostReversal(entries, x), x)
    ensures JournalKept(years, accounts, PostReversal(entries, x).entries)
  {
    if x.Some? {
      var original := entries[x.value];
      assert EntrySound(years, accounts, original);
      ReversalIsSound(years, accounts, entries, original, x.value);
      var e := ReversalEntry(entries, original, x.value);
      JournalAppend(years, accounts, entries, e);
      SequencedSnoc(entries, e);
      ReversalsAppend(entries, e);
    }
  }

  /** The year in which entry `x` stands. */
  ghost predicate StandsIn(entries: seq<Entry>, x: Option<nat>, y: nat, opening: bool) {
    x.Some? ==> x.value < |entries| && entries[x.value].fiscalYear == y && (entries[x.value].origin == Opening <==> opening)
  }

  lemma ReversalBalances(entries: seq<Entry>, p: Posting, x: Option<nat>, y: nat, opening: bool)
    requires ReversedTo(entries, p, x) && StandsIn(entries, x, y, opening)
    ensures forall k: nat, a: nat ::
              YearBalance(p.entries, k, a) == YearBalance(entries, k, a) - if k == y then LinkNet(entries, x, a) else 0
    ensures forall k: nat, a: nat ::
              OpeningsTotal(p.entries, k, a) == OpeningsTotal(entries, k, a) - if k == y && opening then LinkNet(entries, x, a) else 0
  {
    if x.Some? {
      MirrorNegates(entries[x.value].lines);
      JournalSnoc(entries, p.entries[|entries|]);
      OpeningsSnoc(entries, p.entries[|entries|]);
    }
  }

  // ---------- the three reversals ----------

  /** The links of a completed close point at entries of their own kind, none of which is reversed. */
  ghost predicate LinksReversible(entries: seq<Entry>, c: CloseRequest) {
    && CloseLinksSound(entries, c)
    && Reversible(entries, c.opening) && Reversible(entries, c.closing) && Reversible(entries, c.regularization)
  }

  ghost predicate Undone(entries: seq<Entry>, c: CloseRequest, p1: Posting, p2: Posting, p3: Posting) {
    && ReversedTo(entries, p1, c.opening)
    && ReversedTo(p1.entries, p2, c.closing)
    && ReversedTo(p2.entries, p3, c.regularization)
    && PostReversals(entries, c) == Closure(p3.entries, p3.id, p2.id, p1.id)
  }

  /** Reversing one entry leaves another one reversible. */
  lemma StillReversible(entries: seq<Entry>, p: Posting, x: Option<nat>, y: Option<nat>)
    requires ReversedTo(entries, p, x) && Reversible(entries, y)
    requires x.Some? && y.Some? ==> x != y
    ensures Reversible(p.entries, y)
    ensures y.Some? ==> p.entries[y.value] == entries[y.value]
  {
  }

  lemma ReversalsPosted(years: seq<FiscalYear>, accounts: seq<Account>, entries: seq<Entry>, c: CloseRequest)
    returns (p1: Posting, p2: Posting, p3: Posting)
    requires JournalKept(years, accounts, entries) && LinksReversible(entries, c)
    ensures Undone(entries, c, p1, p2, p3)
    ensures JournalKept(years, accounts, p3.entries)
  {
    PostReversalSucceeds(years, accounts, entries, c.opening);
    p1 := PostReversal(entries, c.opening);
    StillReversible(entries, p1, c.opening, c.closing);
    StillReversible(entries, p1, c.opening, c.regularization);
    PostReversalSucceeds(years, accounts, p1.entries, c.closing);
    p2 := PostReversal(p1.entries, c.closing);
    StillReversible(p1.entries, p2, c.closing, c.regularization);
    PostReversalSucceeds(years, accounts, p2.entries, c.regularization);
    p3 := PostReversal(p2.entries, c.regularization);
  }

  lemma LinkNetKept(entries: seq<Entry>, p: Posting, x: Option<nat>, y: Option<nat>)
    requires ReversedTo(entries, p, x) && (y.Some? ==> y.value < |entries|)
    ensures forall a: nat :: LinkNet(p.entries, y, a) == LinkNet(entries, y, a)
  {
  }

  /** What the reversals of close `c` take away from every balance. */
  lemma UndoneBalances(entries: seq<Entry>, c: CloseRequest, p1: Posting, p2: Posting, p3: Posting)
    requires CloseLinksSound(entries, c) && Undone(entries, c, p1, p2, p3)
    ensures entries <= p3.entries
    ensures forall k: nat, a: nat ::
              YearBalance(p3.entries, k, a) == YearBalance(entries, k, a)
              - (if k == c.fiscalYear then LinkNet(entries, c.regularization, a) + LinkNet(entries, c.closing, a) else 0)
              - (if k == c.fiscalYear + 1 then LinkNet(entries, c.opening, a) else 0)
    ensures forall k: nat, a: nat ::
              OpeningsTotal(p3.entries, k, a) == OpeningsTotal(entries, k, a)
              - (if k == c.fiscalYear + 1 then LinkNet(entries, c.opening, a) else 0)
  {
    hide PostReversals, LinkNet, OpeningsTotal, YearBalance;
    LinkNetKept(entries, p1, c.opening, c.closing);
    LinkNetKept(entries, p1, c.opening, c.regularization);
    LinkNetKept(p1.entries, p2, c.closing, c.regularization);
    ReversalBalances(entries, p1, c.opening, c.fiscalYear + 1, true);
    ReversalBalances(p1.entries, p2, c.closing, c.fiscalYear, false);
    ReversalBalances(p2.entries, p3, c.regularization, c.fiscalYear, false);
  }

  lemma UndoneLinks(entries: seq<Entry>, c: CloseRequest, p1: Posting, p2: Posting, p3: Posting)
    requires CloseLinksSound(entries, c) && Undone(entries, c, p1, p2, p3)
    ensures ReversalLinkSound(p3.entries, p1.id, c.opening)
    ensures ReversalLinkSound(p3.entries, p2.id, c.closing)
    ensures ReversalLinkSound(p3.entries, p3.id, c.regularization)
    ensures forall i :: |entries| <= i < |p3.entries| && p3.entries[i].fiscalYear == c.fiscalYear + 1 ==> OpeningKind(p3.entries, p3.entries[i])
  {
    hide PostReversals;
  }

  // ---------- what a ready preflight says ----------

  lemma LastWithoutChild(years: seq<FiscalYear>, y: nat)
    requires Contiguous(years) && y < |years|
    ensures !HasChildYear(years, y) ==> |years| == y + 1
  {
    if y + 1 < |years| {
      assert years[y + 1].source == Some(y);
    }
  }

  /** The successor of the close is the open year and the last one. */
  lemma ReadyShape(t: State, q: nat, business: nat)
    requires Inv(t) && q < |t.closes| && t.closes[q].status == Completed && ReopenReady(t, q, business)
    ensures var y := t.closes[q].fiscalYear;
            && t.closes[q].successor == Some(y + 1)
            && |t.years| == y + 2 && OpenAt(t.years, y + 1)
            && IsCurrent(t.closes, t.reopens, q)
  {
    var y := t.closes[q].fiscalYear;
    assert CloseRowSound(t.years, t.closes[q]);
    SomeYearIsOpen(t.years, y + 1);
    LastWithoutChild(t.years, y + 1);
  }

  lemma ReadyLinks(t: State, q: nat, business: nat)
    requires Inv(t) && q < |t.closes| && t.closes[q].status == Completed && ReopenReady(t, q, business)
    ensures LinksReversible(t.entries, t.closes[q])
  {
    assert CloseLinksSound(t.entries, t.closes[q]);
  }

  /** The preflight admits nothing in the successor but openings and their reversals. */
  lemma OnlyOpeningsInSuccessor(t: State, y: nat, next: nat)
    requires LinksSound(t.entries, t.closes, t.reopens) && ReopensSound(t.closes, t.reopens)
    requires NoForeignEntry(t, y, next)
    ensures forall i :: 0 <= i < |t.entries| && t.entries[i].fiscalYear == next ==> OpeningKind(t.entries, t.entries[i])
  {
    forall i | 0 <= i < |t.entries| && t.entries[i].fiscalYear == next ensures OpeningKind(t.entries, t.entries[i]) {
      assert KnownCycleEntry(t.closes, t.reopens, y, next, i);
      var p :| 0 <= p < |t.closes| && t.closes[p].fiscalYear == y && t.closes[p].successor == Some(next) && t.closes[p].status == Completed
               && (t.closes[p].opening == Some(i) || ReversesOpeningOf(t.reopens, p, i));
      assert CloseLinksSound(t.entries, t.closes[p]);
      if t.closes[p].opening != Some(i) {
        var r :| 0 <= r < |t.reopens| && t.reopens[r].close == p && t.reopens[r].status == Completed && t.reopens[r].openingReversal == Some(i);
        assert ReopenLinksSound(t.entries, t.closes[t.reopens[r].close], t.reopens[r]);
      }
    }
  }

  // ---------- the tables after the reopening ----------

  ghost predicate ReopenedYears(years: seq<FiscalYear>, y: nat, years': seq<FiscalYear>) {
    && |years'| == |years| == y + 2
    && OpenAt(years, y + 1) && OpenAt(years', y)
    && (forall i :: 0 <= i < y ==> years'[i] == years[i])
    && years'[y + 1].status == Reversed
    && YearsShaped(years')
    && SameNumbers(years, years')
  }

  lemma YearsReopened(years: seq<FiscalYear>, y: nat)
    requires YearsShaped(years) && |years| == y + 2 && OpenAt(years, y + 1)
    ensures ReopenedYears(years, y, YearsAfterReopen(years, y, y + 1))
  {
    var years' := YearsAfterReopen(years, y, y + 1);
    assert OpenAt(years', y);
    forall i | 0 <= i < |years'|
      ensures years'[i].year == years'[0].year + i && years'[i].source == if i == 0 then None else Some(i - 1)
    {
      assert years[i].year == years[0].year + i && years[i].source == if i == 0 then None else Some(i - 1);
    }
  }

  lemma ClosesAfterReopen(years: seq<FiscalYear>, years': seq<FiscalYear>, y: nat, closes: seq<CloseRequest>)
    requires ClosesSound(years, closes) && ReopenedYears(years, y, years') && !HasCloseRequest(closes, y + 1)
    ensures ClosesSound(years', closes)
  {
    forall q | 0 <= q < |closes| ensures CloseRowSound(years', closes[q]) {
      assert CloseRowSound(years, closes[q]);
    }
  }

  /** Request `r` for close `q` becomes completed. */
  ghost predicate ReopensCompleted(reopens: seq<ReopenRequest>, r: nat, q: nat, reopens': seq<ReopenRequest>) {
    && r < |reopens| && reopens[r].status == Requested && reopens[r].close == q
    && |reopens'| == |reopens|
    && (forall i :: 0 <= i < |reopens| && i != r ==> reopens'[i] == reopens[i])
    && reopens'[r].status == Completed && reopens'[r].close == q
    && reopens'[r].source == reopens[r].source && reopens'[r].successor == reopens[r].successor
  }

  lemma CompletedReopenCounts(reopens: seq<ReopenRequest>, r: nat, q: nat, reopens': seq<ReopenRequest>)
    requires ReopensCompleted(reopens, r, q, reopens')
    ensures forall p: nat :: Reopened(reopens', p) <==> p == q || Reopened(reopens, p)
  {
    forall p: nat ensures Reopened(reopens', p) <==> p == q || Reopened(reopens, p) {
      if p == q {
        assert reopens'[r].close == p && reopens'[r].status == Completed;
      }
      if Reopened(reopens, p) {
        var i :| 0 <= i < |reopens| && reopens[i].close == p && reopens[i].status == Completed;
        assert reopens'[i] == reopens[i];
      }
      if p != q && Reopened(reopens', p) {
        var i :| 0 <= i < |reopens'| && reopens'[i].close == p && reopens'[i].status == Completed;
        assert reopens[i] == reopens'[i];
      }
    }
  }

  lemma CurrentAfterReopen(years: seq<FiscalYear>, years': seq<FiscalYear>, y: nat, closes: seq<CloseRequest>,
                           reopens: seq<ReopenRequest>, r: nat, q: nat, reopens': seq<ReopenRequest>)
    requires CurrentSound(years, closes, reopens) && ReopenedYears(years, y, years')
    requires ClosesSound(years, closes)
    requires IsCurrent(closes, reopens, q) && closes[q].fiscalYear == y
    requires ReopensCompleted(reopens, r, q, reopens')
    ensures CurrentSound(years', closes, reopens')
    ensures forall p: nat :: IsCurrent(closes, reopens', p) <==> p != q && IsCurrent(closes, reopens, p)
  {
    CompletedReopenCounts(reopens, r, q, reopens');
    assert forall p: nat :: IsCurrent(closes, reopens', p) <==> p != q && IsCurrent(closes, reopens, p);
    forall p: nat | IsCurrent(closes, reopens', p) && closes[p].fiscalYear < |years'|
      ensures years'[closes[p].fiscalYear].status == Closed
    {
      assert IsCurrent(closes, reopens, p);
    }
    forall k: nat | k < |years'| && years'[k].status == Closed ensures HasCurrent(closes, reopens', k) {
      assert HasCurrent(closes, reopens, k);
      var p: nat :| IsCurrent(closes, reopens, p) && closes[p].fiscalYear == k;
      assert IsCurrent(closes, reopens', p);
    }
  }

  lemma ReopensAfter(closes: seq<CloseRequest>, reopens: seq<ReopenRequest>, r: nat, q: nat, reopens': seq<ReopenRequest>)
    requires ReopensSound(closes, reopens) && !Reopened(reopens, q)
    requires ReopensCompleted(reopens, r, q, reopens')
    ensures ReopensSound(closes, reopens')
  {
    forall i | 0 <= i < |reopens'| ensures ReopenRowSound(closes, reopens'[i]) {
      assert ReopenRowSound(closes, reopens[i]);
    }
  }

  lemma LinksAfterReopen(entries: seq<Entry>, closes: seq<CloseRequest>, reopens: seq<ReopenRequest>, r: nat, q: nat,
                         reopens': seq<ReopenRequest>, p1: Posting, p2: Posting, p3: Posting)
    requires LinksSound(entries, closes, reopens)
    requires q < |closes| && closes[q].status == Completed && Undone(entries, closes[q], p1, p2, p3)
    requires ReopensCompleted(reopens, r, q, reopens')
    requires Undone(entries, closes[q], p1, p2, p3) && p1.Posted? && p2.Posted? && p3.Posted?
    requires reopens'[r].openingReversal == p1.id && reopens'[r].closingReversal == p2.id && reopens'[r].regularizationReversal == p3.id
    ensures LinksSound(p3.entries, closes, reopens')
  {
    hide CloseLinksSound, ReopenLinksSound, Undone;
    var c := closes[q];
    assert CloseLinksSound(entries, c);
    UndoneBalances(entries, c, p1, p2, p3);
    NewLinks(entries, c, p1, p2, p3, reopens'[r]);
    assert p3.entries == entries + p3.entries[|entries|..];
    LinksSurviveAppend(entries, p3.entries[|entries|..], closes, reopens);
  }

  lemma NewLinks(entries: seq<Entry>, c: CloseRequest, p1: Posting, p2: Posting, p3: Posting, row: ReopenRequest)
    requires CloseLinksSound(entries, c) && Undone(entries, c, p1, p2, p3)
    requires row.openingReversal == p1.id && row.closingReversal == p2.id && row.regularizationReversal == p3.id
    ensures ReopenLinksSound(p3.entries, c, row)
  {
    UndoneLinks(entries, c, p1, p2, p3);
  }

  lemma OpeningsAfterReopen(years: seq<FiscalYear>, years': seq<FiscalYear>, y: nat, entries: seq<Entry>, closes: seq<CloseRequest>,
                            reopens: seq<ReopenRequest>, q: nat, reopens': seq<ReopenRequest>, p1: Posting, p2: Posting, p3: Posting)
    requires OpeningsNet(years, entries, closes, reopens) && LinksSound(entries, closes, reopens)
    requires CurrentSound(years, closes, reopens) && ReopenedYears(years, y, years')
    requires IsCurrent(closes, reopens, q) && closes[q].fiscalYear == y && Undone(entries, closes[q], p1, p2, p3)
    requires forall p: nat :: IsCurrent(closes, reopens', p) <==> p != q && IsCurrent(closes, reopens, p)
    ensures OpeningsNet(years', p3.entries, closes, reopens')
  {
    assert CloseLinksSound(entries, closes[q]);
    UndoneBalances(entries, closes[q], p1, p2, p3);
    forall p: nat, a: nat | IsCurrent(closes, reopens', p)
      ensures OpeningsTotal(p3.entries, closes[p].fiscalYear + 1, a) == LinkNet(p3.entries, closes[p].opening, a)
    {
      assert IsCurrent(closes, reopens, p);
      var k: nat := closes[p].fiscalYear + 1;
      assert OpeningsTotal(p3.entries, k, a) == OpeningsTotal(entries, k, a);
      assert OpeningsTotal(entries, k, a) == LinkNet(entries, closes[p].opening, a);
      assert CloseLinksSound(entries, closes[p]);
      assert LinkNet(p3.entries, closes[p].opening, a) == LinkNet(entries, closes[p].opening, a);
    }
    forall k: nat, a: nat | k < |years'| && (k == 0 || years'[k - 1].status != Closed)
      ensures OpeningsTotal(p3.entries, k, a) == 0
    {
      var next: nat := y + 1;
      if k == 0 {
        assert OpeningsTotal(entries, 0, a) == 0;
      } else {
        assert k == next;
        assert OpeningsTotal(entries, next, a) == LinkNet(entries, closes[q].opening, a);
      }
    }
  }

  /** The reversed successor is left with copies only, all at zero. */
  lemma OnlyOpeningsAfterUndo(entries: seq<Entry>, c: CloseRequest, p1: Posting, p2: Posting, p3: Posting)
    requires CloseLinksSound(entries, c) && Undone(entries, c, p1, p2, p3)
    requires forall i :: 0 <= i < |entries| && entries[i].fiscalYear == c.fiscalYear + 1 ==> OpeningKind(entries, entries[i])
    ensures forall i :: 0 <= i < |p3.entries| && p3.entries[i].fiscalYear == c.fiscalYear + 1 ==> OpeningKind(p3.entries, p3.entries[i])
  {
    UndoneLinks(entries, c, p1, p2, p3);
    forall i | 0 <= i < |p3.entries| && p3.entries[i].fiscalYear == c.fiscalYear + 1 ensures OpeningKind(p3.entries, p3.entries[i]) {
      if i < |entries| {
        assert OpeningKind(entries, entries[i]);
      }
    }
  }

  lemma ReversedAfterReopen(t: State, q: nat, business: nat, years': seq<FiscalYear>, reopens': seq<ReopenRequest>,
                            p1: Posting, p2: Posting, p3: Posting)
    requires Inv(t) && q < |t.closes| && t.closes[q].status == Completed && ReopenReady(t, q, business)
    requires ReopenedYears(t.years, t.closes[q].fiscalYear, years')
    requires Undone(t.entries, t.closes[q], p1, p2, p3) && ReversalsUnique(p3.entries)
    requires OpeningsNet(years', p3.entries, t.closes, reopens')
    ensures ReversedIsEmpty(years', t.accounts, p3.entries)
  {
    hide YearsShaped, AccountsShaped, JournalSound, Sequenced, ReversalsUnique, ClosesSound, CurrentSound, ReopensSound, LinksSound, CurrentUnreversed,
      AllLinked, PlansMatch, NoneMissing, HasChildYear, ValidAutomatic, NoForeignEntry, YearBalance;
    var y := t.closes[q].fiscalYear;
    var next: nat := y + 1;
    ReadyShape(t, q, business);
    ReadyLinks(t, q, business);
    OnlyOpeningsInSuccessor(t, y, next);
    OnlyOpeningsAfterUndo(t.entries, t.closes[q], p1, p2, p3);
    forall a: nat | a < |t.accounts| && t.accounts[a].fiscalYear == next ensures YearBalance(p3.entries, next, a) == 0 {
      OnlyOpenings(p3.entries, next, a);
      assert OpeningsTotal(p3.entries, next, a) == 0;
    }
    assert AllAtZero(t.accounts, p3.entries, next);
  }

  /** The reversals of close `q` leave the entries of every other current close alone. */
  lemma UnreversedAfterReopen(t: State, q: nat, reopens': seq<ReopenRequest>, p1: Posting, p2: Posting, p3: Posting)
    requires CurrentUnreversed(t.entries, t.closes, t.reopens) && LinksSound(t.entries, t.closes, t.reopens)
    requires CurrentSound(t.years, t.closes, t.reopens)
    requires IsCurrent(t.closes, t.reopens, q) && Undone(t.entries, t.closes[q], p1, p2, p3)
    requires forall p: nat :: IsCurrent(t.closes, reopens', p) <==> p != q && IsCurrent(t.closes, t.reopens, p)
    ensures CurrentUnreversed(p3.entries, t.closes, reopens')
  {
    assert CloseLinksSound(t.entries, t.closes[q]);
    forall p: nat | IsCurrent(t.closes, reopens', p) ensures Unreversed(p3.entries, t.closes[p]) {
      assert IsCurrent(t.closes, t.reopens, p) && t.closes[p].fiscalYear != t.closes[q].fiscalYear;
      assert CloseLinksSound(t.entries, t.closes[p]);
      assert Unreversed(t.entries, t.closes[p]);
      OthersStayUnreversed(t.entries, t.closes[q], t.closes[p], p1, p2, p3);
    }
  }

  lemma UnaffectedByUndo(entries: seq<Entry>, c: CloseRequest, p1: Posting, p2: Posting, p3: Posting, y: Option<nat>)
    requires Undone(entries, c, p1, p2, p3) && Reversible(entries, y)
    requires y.Some? ==> y != c.opening && y != c.closing && y != c.regularization
    ensures Reversible(p3.entries, y)
  {
    StillReversible(entries, p1, c.opening, y);
    StillReversible(p1.entries, p2, c.closing, y);
    StillReversible(p2.entries, p3, c.regularization, y);
  }

  lemma OthersStayUnreversed(entries: seq<Entry>, c: CloseRequest, other: CloseRequest, p1: Posting, p2: Posting, p3: Posting)
    requires CloseLinksSound(entries, c) && CloseLinksSound(entries, other) && c.fiscalYear != other.fiscalYear
    requires Unreversed(entries, other) && Undone(entries, c, p1, p2, p3)
    ensures Unreversed(p3.entries, other)
  {
    UnaffectedByUndo(entries, c, p1, p2, p3, other.regularization);
    UnaffectedByUndo(entries, c, p1, p2, p3, other.closing);
    UnaffectedByUndo(entries, c, p1, p2, p3, other.opening);
  }

  // ---------- the whole reopening ----------

  /** The state in which the approval works: stale requests have just been expired. */
  ghost function Refreshed(s: State, now: int): State {
    s.(reopens := ExpireStale(s.reopens, now, None))
  }

  lemma ReopenRequestTables(t: State, y: nat, years': seq<FiscalYear>, r: nat, q: nat, reopens': seq<ReopenRequest>, business: nat)
    requires Inv(t) && q < |t.closes| && t.closes[q].status == Completed && t.closes[q].fiscalYear == y
    requires ReopenReady(t, q, business) && ReopenedYears(t.years, y, years')
    requires ReopensCompleted(t.reopens, r, q, reopens')
    ensures ClosesSound(years', t.closes) && CurrentSound(years', t.closes, reopens') && ReopensSound(t.closes, reopens')
    ensures forall p: nat :: IsCurrent(t.closes, reopens', p) <==> p != q && IsCurrent(t.closes, t.reopens, p)
  {
    ReadyShape(t, q, business);
    ClosesAfterReopen(t.years, years', y, t.closes);
    CurrentAfterReopen(t.years, years', y, t.closes, t.reopens, r, q, reopens');
    ReopensAfter(t.closes, t.reopens, r, q, reopens');
  }

  lemma CommittedReopenKeeps(t: State, r: nat, q: nat, business: nat, t': State, p1: Posting, p2: Posting, p3: Posting)
    requires Inv(t) && q < |t.closes| && t.closes[q].status == Completed && ReopenReady(t, q, business)
    requires Undone(t.entries, t.closes[q], p1, p2, p3) && JournalKept(t.years, t.accounts, p3.entries)
    requires ReopenedYears(t.years, t.closes[q].fiscalYear, t'.years)
    requires ReopensCompleted(t.reopens, r, q, t'.reopens)
    requires t'.reopens[r].openingReversal == p1.id && t'.reopens[r].closingReversal == p2.id && t'.reopens[r].regularizationReversal == p3.id
    requires t'.accounts == t.accounts && t'.closes == t.closes && t'.entries == p3.entries
    ensures Inv(t')
  {
    var y := t.closes[q].fiscalYear;
    ReadyShape(t, q, business);
    ReopenRequestTables(t, y, t'.years, r, q, t'.reopens, business);
    LinksAfterReopen(t.entries, t.closes, t.reopens, r, q, t'.reopens, p1, p2, p3);
    UnreversedAfterReopen(t, q, t'.reopens, p1, p2, p3);
    OpeningsAfterReopen(t.years, t'.years, y, t.entries, t.closes, t.reopens, q, t'.reopens, p1, p2, p3);
    ReversedAfterReopen(t, q, business, t'.years, t'.reopens, p1, p2, p3);
    JournalStaysSound(t.years, t'.years, t.accounts, t.accounts, p3.entries);
    AccountsKeepShape(t.years, t'.years, t.accounts);
    Assemble(t');
  }

  lemma AccountsKeepShape(years: seq<FiscalYear>, years': seq<FiscalYear>, accounts: seq<Account>)
    requires AccountsShaped(years, accounts) && |years'| == |years|
    ensures AccountsShaped(years', accounts)
  {
    forall i | 0 <= i < |accounts| ensures AccountSound(years', accounts, accounts[i]) {
      assert AccountSound(years, accounts, accounts[i]);
    }
  }

  /** A reopening whose preflight is ready never throws. */
  lemma ReadyReopenPosts(t: State, q: nat, business: nat) returns (p1: Posting, p2: Posting, p3: Posting)
    requires Inv(t) && q < |t.closes| && t.closes[q].status == Completed && ReopenReady(t, q, business)
    ensures Undone(t.entries, t.closes[q], p1, p2, p3) && JournalKept(t.years, t.accounts, p3.entries)
  {
    ReadyLinks(t, q, business);
    p1, p2, p3 := ReversalsPosted(t.years, t.accounts, t.entries, t.closes[q]);
  }

  /** What an approved reopening did to the refreshed state. */
  ghost predicate ReopenCommitted(t: State, t': State, r: nat, q: nat, business: nat) {
    && q < |t.closes| && t.closes[q].status == Completed && ReopenReady(t, q, business)
    && r < |t.reopens| && t.reopens[r].close == q
    && PostReversals(t.entries, t.closes[q]).Closure?
    && var posted := PostReversals(t.entries, t.closes[q]);
    && t'.years == YearsAfterReopen(t.years, t.closes[q].fiscalYear, t.closes[q].successor.value)
    && t'.accounts == t.accounts && t'.closes == t.closes && t'.entries == posted.entries
    && ReopensCompleted(t.reopens, r, q, t'.reopens)
    && t'.reopens[r].openingReversal == posted.opening && t'.reopens[r].closingReversal == posted.closing
    && t'.reopens[r].regularizationReversal == posted.regularization
  }

  lemma ApproveReopenShape(s: State, r: nat, now: int, ctx: Context, business: nat)
    ensures var t := Refreshed(s, now);
            var (t', o) := ApproveReopen(s, r, now, ctx, business);
            && (o.Done? ==> r < |t.reopens| && ReopenCommitted(t, t', r, t.reopens[r].close, business))
            && (o.Thrown? ==> r < |t.reopens| && t.reopens[r].close < |t.closes| && t.closes[t.reopens[r].close].status == Completed
                              && ReopenReady(t, t.reopens[r].close, business)
                              && PostReversals(t.entries, t.closes[t.reopens[r].close]).NoClosure?)
            && (!o.Done? ==> t' == s || t' == t)
  {
  }

  lemma CommittedKeeps(t: State, t': State, r: nat, q: nat, business: nat)
    requires Inv(t) && ReopenCommitted(t, t', r, q, business)
    ensures Inv(t')
  {
    var p1, p2, p3 := ReadyReopenPosts(t, q, business);
    ReadyShape(t, q, business);
    YearsReopened(t.years, t.closes[q].fiscalYear);
    CommittedReopenKeeps(t, r, q, business, t', p1, p2, p3);
  }

  lemma ApproveReopenKeeps(s: State, r: nat, now: int, ctx: Context, business: nat)
    requires Inv(s)
    ensures Inv(ApproveReopen(s, r, now, ctx, business).0)
    ensures !ApproveReopen(s, r, now, ctx, business).1.Thrown?
  {
    ExpiryKeeps(s, now, None);
    var t := Refreshed(s, now);
    var (t', o) := ApproveReopen(s, r, now, ctx, business);
    ApproveReopenShape(s, r, now, ctx, business);
    if o.Done? {
      CommittedKeeps(t, t', r, t.reopens[r].close, business);
    } else if o.Thrown? {
      var p1, p2, p3 := ReadyReopenPosts(t, t.reopens[r].close, business);
    }
  }
}
