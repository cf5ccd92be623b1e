/**
 The waiver operations as they work, on tables that each operation changes step by step, proved to have
 exactly the effect and the ruling that `Waiver` specifies; and the limit on how often an actor may try.
 */
module WaiverDesk {
  import opened Ledger
  import opened FiscalCycle
  import Spec = Waiver
  import opened Waiver
  import opened WaiverInvariant
  import opened WaiverSteps
  import opened WaiverPostings

  class Desk {
    var ledger: State
    var reviews: seq<Review>
    var evidences: seq<Evidence>
    var reversals: seq<ReversalRequest>
    var replacements: seq<ReplacementRequest>

    function Rows(): Files
      reads this
    {
      Files(ledger, reviews, evidences, reversals, replacements)
    }

    constructor ()
      ensures Rows() == NO_FILES && FilesInv(Rows())
    {
      ledger, reviews, evidences, reversals, replacements := EMPTY, [], [], [], [];
      new;
      NoFilesHold();
    }

    method PostEntry(y: nat, year: int, date: int, origin: Origin, reverses: Option<nat>, debit: int, credit: int, lines: seq<Line>) returns (posted: bool)
      modifies this`ledger
      ensures var e := NumberedEntry(old(ledger).entries, y, year, date, origin, reverses, debit, credit, lines);
              && posted == TableAccepts(e)
              && ledger == if posted then old(ledger).(entries := old(ledger).entries + [e]) else old(ledger)
    {
      hide TableAccepts;
      var last := LastNumber(ledger.entries, y);
      var e := Entry(y, year, last + 1, date, origin, reverses, debit, credit, lines);
      posted := TableAccepts(e);
      if posted {
        ledger := ledger.(entries := ledger.entries + [e]);
      }
    }

    method RequestReversal(review: nat, duplicate: bool, date: int, actor: nat) returns (v: Ruling)
      requires FilesInv(Rows())
      modifies this
      ensures (Rows(), v) == Spec.RequestReversal(old(Rows()), review, duplicate, date, actor)
      ensures FilesInv(Rows())
    {
      hide FilesInv, ActiveReversal, IsParty, DateAllowed;
      RequestReversalKeeps(Rows(), review, duplicate, date, actor);
      if review >= |reviews| { return Denied(ReviewNotFound); }
      var h := HeadOf(evidences, review);
      if reviews[review].closedBy.None? || h.None? || evidences[h.value].entry >= |ledger.entries| { return Denied(NotReversible); }
      if IsParty(reviews[review], actor) { return Denied(IndependenceRequired); }
      var x := evidences[h.value].entry;
      if !DateAllowed(ledger, ledger.entries[x].fiscalYear, ledger.entries[x].date, date) { return Denied(YearNotOpen); }
      if ActiveReversal(reversals, h.value, x) { return Denied(ActiveExists); }
      reversals := reversals + [ReversalRequest(review, h.value, x, Awaiting, 1, duplicate, date, actor, None)];
      v := Granted;
    }

    method ApproveReversal(q: nat, actor: nat) returns (v: Ruling)
      requires FilesInv(Rows())
      modifies this
      ensures (Rows(), v) == Spec.ApproveReversal(old(Rows()), q, actor)
      ensures FilesInv(Rows())
    {
      hide FilesInv, IsParty, TableAccepts, ReversedBy;
      ApproveReversalKeeps(Rows(), q, actor);
      if q >= |reversals| { return Denied(RequestNotFound); }
      var request := reversals[q];
      if request.status != Awaiting || request.version != 1 { return Denied(RequestNotPending); }
      if request.review >= |reviews| || request.target >= |ledger.entries| { return Denied(RequestNotFound); }
      if request.requestedBy == actor || IsParty(reviews[request.review], actor) { return Denied(OwnApproval); }
      var target := ledger.entries[request.target];
      if target.fiscalYear >= |ledger.years| || ledger.years[target.fiscalYear].status != Open { return Denied(YearNotOpen); }
      if ReversedBy(ledger.entries, request.target) { return Aborts(CheckViolation); }
      var posted := PostEntry(target.fiscalYear, target.year, request.date, WaiverReversal(q), Some(request.target),
                              target.totalCredit, target.totalDebit, Mirror(target.lines));
      if !posted { return Aborts(CheckViolation); }
      reversals := reversals[q := request.(status := Fulfilled, version := 2, approvedBy := Some(actor))];
      v := Granted;
    }

    method FinishReversal(q: nat, reject: bool, actor: nat) returns (v: Ruling)
      requires FilesInv(Rows())
      modifies this
      ensures (Rows(), v) == Spec.FinishReversal(old(Rows()), q, reject, actor)
      ensures FilesInv(Rows())
    {
      hide FilesInv;
      FinishReversalKeeps(Rows(), q, reject, actor);
      if q >= |reversals| { return Denied(RequestNotFound); }
      var request := reversals[q];
      if request.status != Awaiting || request.version != 1 { return Denied(RequestNotPending); }
      if reject && request.requestedBy == actor { return Denied(OwnRejection); }
      if !reject && request.requestedBy != actor { return Denied(NotCancellable); }
      reversals := reversals[q := request.(status := if reject then Declined else Withdrawn, version := 2)];
      v := Granted;
    }

    method RequestReplacement(review: nat, date: int, lines: seq<Line>, actor: nat) returns (v: Ruling)
      requires FilesInv(Rows())
      modifies this
      ensures (Rows(), v) == Spec.RequestReplacement(old(Rows()), review, date, lines, actor)
      ensures FilesInv(Rows())
    {
      hide FilesInv, ActiveReplacement, ReversalReplaced, IsParty, DateAllowed, LinesBalance, NonNegative, ActivePostable;
      RequestReplacementKeeps(Rows(), review, date, lines, actor);
      if |lines| < 2 || |lines| > 200 || !NonNegative(lines) { return Denied(InputInvalid); }
      if !LinesBalance(lines) { return Denied(Objection.Unbalanced); }
      if review >= |reviews| { return Denied(ReviewNotFound); }
      var h := HeadOf(evidences, review);
      if reviews[review].closedBy.None? || h.None? { return Denied(NotReplaceable); }
      var q := CompletedReversal(reversals, h.value);
      if q.None? { return Denied(NotReplaceable); }
      var x := FindEntry(ledger.entries, WaiverReversal(q.value));
      if x.None? || reversals[q.value].duplicate || ActiveReplacement(replacements, h.value) { return Denied(NotReplaceable); }
      if IsParty(reviews[review], actor) { return Denied(IndependenceRequired); }
      var y := ledger.entries[x.value].fiscalYear;
      if !DateAllowed(ledger, y, reversals[q.value].date, date) { return Denied(YearNotOpen); }
      if !ActivePostable(ledger.accounts, lines, y) { return Denied(NotPostable); }
      if ReversalReplaced(replacements, q.value) { return Denied(ActiveExists); }
      replacements := replacements + [ReplacementRequest(review, h.value, q.value, y, Awaiting, 1, date, lines, actor, None)];
      v := Granted;
    }

    method ApproveReplacement(q: nat, sameProposal: bool, actor: nat) returns (v: Ruling)
      requires FilesInv(Rows())
      modifies this
      ensures (Rows(), v) == Spec.ApproveReplacement(old(Rows()), q, sameProposal, actor)
      ensures FilesInv(Rows())
    {
      hide FilesInv, IsParty, TableAccepts, Superseded, ActivePostable;
      ApproveReplacementKeeps(Rows(), q, sameProposal, actor);
      if q >= |replacements| || replacements[q].review >= |reviews| || replacements[q].source >= |evidences| { return Denied(RequestNotFound); }
      var request := replacements[q];
      if request.status != Awaiting || request.version != 1 || Superseded(evidences, request.source) { return Denied(RequestNotPending); }
      if !sameProposal { return Denied(ProposalChanged); }
      if request.requestedBy == actor || IsParty(reviews[request.review], actor) { return Denied(OwnApproval); }
      if request.fiscalYear >= |ledger.years| || ledger.years[request.fiscalYear].status != Open { return Denied(YearNotOpen); }
      if !ActivePostable(ledger.accounts, request.lines, request.fiscalYear) { return Denied(NotPostable); }
      var id := |ledger.entries|;
      var posted := PostEntry(request.fiscalYear, ledger.years[request.fiscalYear].year, request.date, WaiverReplacement(q), None,
                              DebitTotal(request.lines), CreditTotal(request.lines), request.lines);
      if !posted { return Aborts(CheckViolation); }
      evidences := evidences + [Evidence(request.review, id, evidences[request.source].sequence + 1, Some(request.source), Some(q))];
      replacements := replacements[q := request.(status := Fulfilled, version := 2, approvedBy := Some(actor))];
      v := Granted;
    }

    method FinishReplacement(q: nat, reject: bool, actor: nat) returns (v: Ruling)
      requires FilesInv(Rows())
      modifies this
      ensures (Rows(), v) == Spec.FinishReplacement(old(Rows()), q, reject, actor)
      ensures FilesInv(Rows())
    {
      hide FilesInv;
      FinishReplacementKeeps(Rows(), q, reject, actor);
      if q >= |replacements| { return Denied(RequestNotFound); }
      var request := replacements[q];
      if request.status != Awaiting || request.version != 1 { return Denied(RequestNotPending); }
      if reject && request.requestedBy == actor { return Denied(OwnRejection); }
      if !reject && request.requestedBy != actor { return Denied(NotCancellable); }
      replacements := replacements[q := request.(status := if reject then Declined else Withdrawn, version := 2)];
      v := Granted;
    }
  }

  // ---------- how often an actor may try ----------

  /** Fifteen minutes, in milliseconds. */
  const WINDOW := 15 * 60 * 1000

  datatype Bucket = Bucket(start: int, count: nat)

  function Consume(b: Option<Bucket>, now: int): (r: (Bucket, bool)) {
    if b.None? || b.value.start <= now - WINDOW then (Bucket(now, 1), false)
    else
      var count := if b.value.count + 1 <= 12 then b.value.count + 1 else 12;
      (b.value.(count := count), count > 10)
  }

  /** How many of the attempts, made at these times, are let through. */
  function LetThrough(b: Option<Bucket>, times: seq<int>): nat
    decreases |times|
  {
    if times == [] then 0
    else
      var (next, limited) := Consume(b, times[0]);
      (if limited then 0 else 1) + LetThrough(Some(next), times[1..])
  }

  /** Of the attempts inside one window, exactly the first ten are let through. */
  lemma {:induction false} TenPerWindow(b: Bucket, times: seq<int>)
    requires forall i :: 0 <= i < |times| ==> times[i] < b.start + WINDOW
    ensures LetThrough(Some(b), times) == if b.count >= 10 then 0 else if |times| <= 10 - b.count then |times| else 10 - b.count
    decreases |times|
  {
    if times != [] {
      var next := Consume(Some(b), times[0]).0;
      TenPerWindow(next, times[1..]);
    }
  }

  /** Counting from the attempt that opened the window. */
  lemma TenFromTheFirst(b: Option<Bucket>, times: seq<int>)
    requires times != [] && forall i :: 0 <= i < |times| ==> times[i] < times[0] + 900000
    requires b.Some? ==> b.value.start <= times[0] - 900000
    ensures LetThrough(b, times) == if |times| <= 10 then |times| else 10
  {
    TenPerWindow(Bucket(times[0], 1), times[1..]);
  }
}
