/**
 Accounting evidence of waived renewals: the regularizing entry of a review, its controlled reversal,
 and its replacement, each step requested by one person and approved by another.
 */
module Waiver {
  import opened Ledger
  import opened FiscalCycle

  datatype WaiverStatus = Awaiting | Fulfilled | Declined | Withdrawn

  /** A review waits for accounting until somebody closes it. */
  datatype Review = Review(openedBy: nat, assignee: nat, closedBy: Option<nat>)

  datatype Evidence = Evidence(review: nat, entry: nat, sequence: int, supersedes: Option<nat>, replacement: Option<nat>)

  datatype ReversalRequest = ReversalRequest(
    review: nat, evidence: nat, target: nat, status: WaiverStatus, version: int, duplicate: bool, date: int,
    requestedBy: nat, approvedBy: Option<nat>)

  datatype ReplacementRequest = ReplacementRequest(
    review: nat, source: nat, reversal: nat, fiscalYear: nat, status: WaiverStatus, version: int, date: int, lines: seq<Line>,
    requestedBy: nat, approvedBy: Option<nat>)

  datatype Files = Files(
    ledger: State, reviews: seq<Review>, evidences: seq<Evidence>, reversals: seq<ReversalRequest>, replacements: seq<ReplacementRequest>)

  const NO_FILES := Files(EMPTY, [], [], [], [])

  datatype Objection =
    | InputInvalid | Unbalanced | NotPostable | ReviewNotActionable | EntryAlreadyThere | ReviewNotFound | NotCompletable | EvidenceInvalid
    | NotReversible | NotReplaceable | IndependenceRequired | YearNotOpen | ActiveExists
    | RequestNotFound | RequestNotPending | ProposalChanged | OwnApproval | OwnRejection | NotCancellable | Foreign

  datatype Ruling = Granted | Denied(objection: Objection) | Aborts(fault: Fault)

  // ---------- the current evidence of a review ----------

  /** The evidence of the review with the highest sequence. */
  function HeadOf(evidences: seq<Evidence>, review: nat): (h: Option<nat>)
    ensures h.Some? ==> h.value < |evidences| && evidences[h.value].review == review
    ensures h.None? ==> forall k :: 0 <= k < |evidences| ==> evidences[k].review != review
  {
    if evidences == [] then None
    else
      var n := |evidences| - 1;
      var h := HeadOf(evidences[..n], review);
      if evidences[n].review == review && (h.None? || evidences[h.value].sequence < evidences[n].sequence) then Some(n) else h
  }

  predicate DateAllowed(s: State, y: nat, earliest: int, date: int) {
    y < |s.years| && s.years[y].status == Open && earliest <= date && FirstDay(s.years[y].year) <= date <= LastDay(s.years[y].year)
  }

  // ---------- the first evidence ----------

  function OpenReview(f: Files, openedBy: nat, assignee: nat): (Files, Ruling) {
    (f.(reviews := f.reviews + [Review(openedBy, assignee, None)]), Granted)
  }

  /** A manual entry that names the review it regularizes. */
  function PostWaiverRegularization(f: Files, review: nat, date: int, lines: seq<Line>): (Files, Ruling) {
    if |lines| < 2 || !NonNegative(lines) then (f, Denied(InputInvalid))
    else if !HasSide(lines, true) || !HasSide(lines, false) || (exists i :: 0 <= i < |lines| && InvalidSide(lines[i]))
            || DebitTotal(lines) != CreditTotal(lines) then (f, Denied(Objection.Unbalanced))
    else
      var y := OpenYearAt(f.ledger.years, date);
      if y.None? then (f, Denied(NotPostable))
      else if review >= |f.reviews| || f.reviews[review].closedBy.Some? then (f, Denied(ReviewNotActionable))
      else if !ActivePostable(f.ledger.accounts, lines, y.value) then (f, Denied(NotPostable))
      else if FindEntry(f.ledger.entries, WaiverRegularization(review)).Some? then (f, Denied(EntryAlreadyThere))
      else
        var e := NumberedEntry(f.ledger.entries, y.value, YearOf(date), date, WaiverRegularization(review), None, DebitTotal(lines), CreditTotal(lines), lines);
        if !TableAccepts(e) then (f, Aborts(CheckViolation))
        else (f.(ledger := f.ledger.(entries := f.ledger.entries + [e])), Granted)
  }

  function CompleteReview(f: Files, review: nat, actor: nat): (Files, Ruling) {
    if review >= |f.reviews| then (f, Denied(ReviewNotFound))
    else if f.reviews[review].closedBy.Some? || f.reviews[review].assignee != actor then (f, Denied(NotCompletable))
    else
      var x := FindEntry(f.ledger.entries, WaiverRegularization(review));
      if x.None? || ReversedBy(f.ledger.entries, x.value) || f.ledger.entries[x.value].totalDebit <= 0
         || f.ledger.entries[x.value].totalDebit != f.ledger.entries[x.value].totalCredit then (f, Denied(EvidenceInvalid))
      else
        (f.(evidences := f.evidences + [Evidence(review, x.value, 1, None, None)],
            reviews := f.reviews[review := f.reviews[review].(closedBy := Some(actor))]), Granted)
  }

  // ---------- reversing ----------

  /** Unique indexes: no evidence and no entry has two reversals that are pending or completed. */
  predicate ActiveReversal(reversals: seq<ReversalRequest>, evidence: nat, target: nat) {
    exists q :: 0 <= q < |reversals| && IsActive(reversals[q].status) && (reversals[q].evidence == evidence || reversals[q].target == target)
  }

  predicate IsActive(status: WaiverStatus) {
    status == Awaiting || status == Fulfilled
  }

  predicate IsParty(review: Review, actor: nat) {
    actor == review.openedBy || review.closedBy == Some(actor)
  }

  function RequestReversal(f: Files, review: nat, duplicate: bool, date: int, actor: nat): (Files, Ruling) {
    if review >= |f.reviews| then (f, Denied(ReviewNotFound))
    else
      var h := HeadOf(f.evidences, review);
      if f.reviews[review].closedBy.None? || h.None? || f.evidences[h.value].entry >= |f.ledger.entries| then (f, Denied(NotReversible))
      else if IsParty(f.reviews[review], actor) then (f, Denied(IndependenceRequired))
      else
        var x := f.evidences[h.value].entry;
        if !DateAllowed(f.ledger, f.ledger.entries[x].fiscalYear, f.ledger.entries[x].date, date) then (f, Denied(YearNotOpen))
        else if ActiveReversal(f.reversals, h.value, x) then (f, Denied(ActiveExists))
        else (f.(reversals := f.reversals + [ReversalRequest(review, h.value, x, Awaiting, 1, duplicate, date, actor, None)]), Granted)
  }

  function ApproveReversal(f: Files, q: nat, actor: nat): (Files, Ruling) {
    if q >= |f.reversals| then (f, Denied(RequestNotFound))
    else
      var request := f.reversals[q];
      if request.status != Awaiting || request.version != 1 then (f, Denied(RequestNotPending))
      else if request.review >= |f.reviews| || request.target >= |f.ledger.entries| then (f, Denied(RequestNotFound))
      else if request.requestedBy == actor || IsParty(f.reviews[request.review], actor) then (f, Denied(OwnApproval))
      else
        var target := f.ledger.entries[request.target];
        if target.fiscalYear >= |f.ledger.years| || f.ledger.years[target.fiscalYear].status != Open then (f, Denied(YearNotOpen))
        else
          var e := NumberedEntry(f.ledger.entries, target.fiscalYear, target.year, request.date, WaiverReversal(q), Some(request.target),
                               target.totalCredit, target.totalDebit, Mirror(target.lines));
          if !TableAccepts(e) || ReversedBy(f.ledger.entries, request.target) then (f, Aborts(CheckViolation))
          else
            (f.(ledger := f.ledger.(entries := f.ledger.entries + [e]),
                reversals := f.reversals[q := request.(status := Fulfilled, version := 2, approvedBy := Some(actor))]), Granted)
  }

  /** Rejected by somebody else, or withdrawn by whoever asked. */
  function FinishReversal(f: Files, q: nat, reject: bool, actor: nat): (Files, Ruling) {
    if q >= |f.reversals| then (f, Denied(RequestNotFound))
    else
      var request := f.reversals[q];
      if request.status != Awaiting || request.version != 1 then (f, Denied(RequestNotPending))
      else if reject && request.requestedBy == actor then (f, Denied(OwnRejection))
      else if !reject && request.requestedBy != actor then (f, Denied(NotCancellable))
      else (f.(reversals := f.reversals[q := request.(status := if reject then Declined else Withdrawn, version := 2)]), Granted)
  }

  // ---------- replacing ----------

  predicate LinesBalance(lines: seq<Line>) {
    !(exists i :: 0 <= i < |lines| && InvalidSide(lines[i])) && DebitTotal(lines) > 0 && DebitTotal(lines) == CreditTotal(lines)
  }

  /** The latest completed reversal of the evidence. */
  function CompletedReversal(reversals: seq<ReversalRequest>, evidence: nat): (r: Option<nat>)
    ensures r.Some? ==> r.value < |reversals| && reversals[r.value].evidence == evidence && reversals[r.value].status == Fulfilled
    ensures r.None? ==> forall q :: 0 <= q < |reversals| && reversals[q].evidence == evidence ==> reversals[q].status != Fulfilled
  {
    if reversals == [] then None
    else
      var n := |reversals| - 1;
      if reversals[n].evidence == evidence && reversals[n].status == Fulfilled then Some(n) else CompletedReversal(reversals[..n], evidence)
  }

  predicate ActiveReplacement(replacements: seq<ReplacementRequest>, source: nat) {
    exists q :: 0 <= q < |replacements| && replacements[q].source == source && IsActive(replacements[q].status)
  }

  predicate ReversalReplaced(replacements: seq<ReplacementRequest>, reversal: nat) {
    exists q :: 0 <= q < |replacements| && replacements[q].reversal == reversal && IsActive(replacements[q].status)
  }

  function RequestReplacement(f: Files, review: nat, date: int, lines: seq<Line>, actor: nat): (Files, Ruling) {
    if |lines| < 2 || |lines| > 200 || !NonNegative(lines) then (f, Denied(InputInvalid))
    else if !LinesBalance(lines) then (f, Denied(Objection.Unbalanced))
    else if review >= |f.reviews| then (f, Denied(ReviewNotFound))
    else
      var h := HeadOf(f.evidences, review);
      if f.reviews[review].closedBy.None? || h.None? then (f, Denied(NotReplaceable))
      else
        var q := CompletedReversal(f.reversals, h.value);
        if q.None? || FindEntry(f.ledger.entries, WaiverReversal(q.value)).None? || f.reversals[q.value].duplicate
           || ActiveReplacement(f.replacements, h.value) then (f, Denied(NotReplaceable))
        else if IsParty(f.reviews[review], actor) then (f, Denied(IndependenceRequired))
        else
          var y := f.ledger.entries[FindEntry(f.ledger.entries, WaiverReversal(q.value)).value].fiscalYear;
          if !DateAllowed(f.ledger, y, f.reversals[q.value].date, date) then (f, Denied(YearNotOpen))
          else if !ActivePostable(f.ledger.accounts, lines, y) then (f, Denied(NotPostable))
          else if ReversalReplaced(f.replacements, q.value) then (f, Denied(ActiveExists))
          else (f.(replacements := f.replacements + [ReplacementRequest(review, h.value, q.value, y, Awaiting, 1, date, lines, actor, None)]), Granted)
  }

  predicate Superseded(evidences: seq<Evidence>, k: nat) {
    exists j :: 0 <= j < |evidences| && evidences[j].supersedes == Some(k)
  }

  /** `sameProposal` says that the digest of the proposal is the one the approver saw. */
  function ApproveReplacement(f: Files, q: nat, sameProposal: bool, actor: nat): (Files, Ruling) {
    if q >= |f.replacements| || f.replacements[q].review >= |f.reviews| || f.replacements[q].source >= |f.evidences| then (f, Denied(RequestNotFound))
    else
      var request := f.replacements[q];
      if request.status != Awaiting || request.version != 1 || Superseded(f.evidences, request.source) then (f, Denied(RequestNotPending))
      else if !sameProposal then (f, Denied(ProposalChanged))
      else if request.requestedBy == actor || IsParty(f.reviews[request.review], actor) then (f, Denied(OwnApproval))
      else if request.fiscalYear >= |f.ledger.years| || f.ledger.years[request.fiscalYear].status != Open then (f, Denied(YearNotOpen))
      else if !ActivePostable(f.ledger.accounts, request.lines, request.fiscalYear) then (f, Denied(NotPostable))
      else
        var e := NumberedEntry(f.ledger.entries, request.fiscalYear, f.ledger.years[request.fiscalYear].year, request.date, WaiverReplacement(q), None,
                             DebitTotal(request.lines), CreditTotal(request.lines), request.lines);
        if !TableAccepts(e) then (f, Aborts(CheckViolation))
        else
          (f.(ledger := f.ledger.(entries := f.ledger.entries + [e]),
              evidences := f.evidences + [Evidence(request.review, |f.ledger.entries|, f.evidences[request.source].sequence + 1, Some(request.source), Some(q))],
              replacements := f.replacements[q := request.(status := Fulfilled, version := 2, approvedBy := Some(actor))]), Granted)
  }

  function FinishReplacement(f: Files, q: nat, reject: bool, actor: nat): (Files, Ruling) {
    if q >= |f.replacements| then (f, Denied(RequestNotFound))
    else
      var request := f.replacements[q];
      if request.status != Awaiting || request.version != 1 then (f, Denied(RequestNotPending))
      else if reject && request.requestedBy == actor then (f, Denied(OwnRejection))
      else if !reject && request.requestedBy != actor then (f, Denied(NotCancellable))
      else (f.(replacements := f.replacements[q := request.(status := if reject then Declined else Withdrawn, version := 2)]), Granted)
  }

  // ---------- moves and runs ----------

  predicate IsWaiver(origin: Origin) {
    origin.WaiverRegularization? || origin.WaiverReversal? || origin.WaiverReplacement?
  }

  /** A command of the rest of the system: it posts nothing under these origins and reverses no such entry. */
  predicate Elsewhere(s: State, c: Command) {
    c.CmdPost? ==> !IsWaiver(c.origin) && (c.reverses.Some? && c.reverses.value < |s.entries| ==> !IsWaiver(s.entries[c.reverses.value].origin))
  }

  datatype Move =
    | MoveOpen(openedBy: nat, assignee: nat)
    | MovePost(review: nat, date: int, lines: seq<Line>)
    | MoveComplete(review: nat, actor: nat)
    | MoveRequestReversal(review: nat, duplicate: bool, date: int, actor: nat)
    | MoveApproveReversal(request: nat, actor: nat)
    | MoveFinishReversal(request: nat, reject: bool, actor: nat)
    | MoveRequestReplacement(review: nat, date: int, lines: seq<Line>, actor: nat)
    | MoveApproveReplacement(request: nat, sameProposal: bool, actor: nat)
    | MoveFinishReplacement(request: nat, reject: bool, actor: nat)
    | MoveLedger(command: Command)

  function Play(plan: seq<PlanAccount>, f: Files, m: Move): (Files, Ruling) {
    match m
    case MoveOpen(openedBy, assignee) => OpenReview(f, openedBy, assignee)
    case MovePost(review, date, lines) => PostWaiverRegularization(f, review, date, lines)
    case MoveComplete(review, actor) => CompleteReview(f, review, actor)
    case MoveRequestReversal(review, duplicate, date, actor) => RequestReversal(f, review, duplicate, date, actor)
    case MoveApproveReversal(q, actor) => ApproveReversal(f, q, actor)
    case MoveFinishReversal(q, reject, actor) => FinishReversal(f, q, reject, actor)
    case MoveRequestReplacement(review, date, lines, actor) => RequestReplacement(f, review, date, lines, actor)
    case MoveApproveReplacement(q, same, actor) => ApproveReplacement(f, q, same, actor)
    case MoveFinishReplacement(q, reject, actor) => FinishReplacement(f, q, reject, actor)
    case MoveLedger(c) =>
      if Elsewhere(f.ledger, c) then (f.(ledger := Step(plan, f.ledger, c).0), Granted) else (f, Denied(Foreign))
  }

  function Plays(plan: seq<PlanAccount>, f: Files, moves: seq<Move>): Files
    decreases |moves|
  {
    if moves == [] then f else Plays(plan, Play(plan, f, moves[0]).0, moves[1..])
  }
}
