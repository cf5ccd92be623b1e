/**
 Retries: a command that succeeded once is answered from its stored response for ever after, and
 changes nothing; a key that meets another request is refused, and changes nothing either.
 */
module CycleReplays {
  import opened Ledger
  import opened Settlement
  import opened FiscalCycle
  import opened CycleInvariant
  import opened CycleSteps
  import opened CycleCloseKeeps
  import opened CycleRuns

  /** The idempotency context of the commands that carry one. */
  function ContextOf(c: Command): Option<Context> {
    match c
    case CmdRequestClose(_, ctx, _) => Some(ctx)
    case CmdCancelClose(_, _, ctx) => Some(ctx)
    case CmdApproveClose(_, _, ctx, _) => Some(ctx)
    case CmdRequestReopen(_, _, _, ctx, _) => Some(ctx)
    case CmdApproveReopen(_, _, ctx, _) => Some(ctx)
    case CmdCancelReopen(_, _, ctx) => Some(ctx)
    case CmdRejectReopen(_, _, ctx) => Some(ctx)
    case _ => None
  }

  /** The status with which the command stores its response. */
  function SuccessOf(c: Command): int {
    if c.CmdRequestClose? || c.CmdRequestReopen? then 201 else 200
  }

  function ShapeOf(c: Command): Shape {
    if c.CmdRequestClose? || c.CmdCancelClose? then CloseShape
    else if c.CmdApproveClose? then YearsShape
    else ReopenShape
  }

  ghost predicate Succeeded(o: Outcome) {
    o.Created? || o.Done?
  }

  /** A success stores its response under the key, where there was none. */
  lemma SuccessIsStored(plan: seq<PlanAccount>, s: State, c: Command)
    requires ContextOf(c).Some? && Succeeded(Step(plan, s, c).1)
    ensures var (s', o) := Step(plan, s, c);
            var ctx := ContextOf(c).value;
            && ctx.key !in s.replies
            && s'.replies == s.replies[ctx.key := Reply(ctx.hash, SuccessOf(c), o.response)]
            && Parses(o.response, ShapeOf(c))
  {
    hide CloseReady, ReopenReady, ApproveClose, ApproveReopen, ExpireStale, NextYearTaken;
    match c
    case CmdApproveClose(q, now, ctx, outside) => ApproveCloseStores(s, q, now, ctx, outside);
    case CmdApproveReopen(r, now, ctx, business) => ApproveReopenStores(s, r, now, ctx, business);
    case _ =>
  }

  lemma ApproveCloseStores(s: State, q: nat, now: int, ctx: Context, outside: OutsideJournal)
    ensures var (s', o) := ApproveClose(s, q, now, ctx, outside);
            && !o.Created?
            && (o.Done? ==> ctx.key !in s.replies && s'.replies == s.replies[ctx.key := Reply(ctx.hash, 200, o.response)] && Parses(o.response, YearsShape))
  {
    hide CloseReady, PostClosure, AccountsAfterClose, YearsAfterClose;
    ApproveCloseShape(s, q, now, ctx, outside);
  }

  lemma ApproveReopenStores(s: State, r: nat, now: int, ctx: Context, business: nat)
    ensures var (s', o) := ApproveReopen(s, r, now, ctx, business);
            && !o.Created?
            && (o.Done? ==> ctx.key !in s.replies && s'.replies == s.replies[ctx.key := Reply(ctx.hash, 200, o.response)] && Parses(o.response, ReopenShape))
  {
    hide PostReversals, ExpireStale;
  }

  /** A command whose key is stored only looks its response up. */
  lemma StoredKeyOnlyReplays(plan: seq<PlanAccount>, s: State, c: Command)
    requires ContextOf(c).Some? && ContextOf(c).value.key in s.replies
    ensures var (s', o) := Step(plan, s, c);
            var ctx := ContextOf(c).value;
            var stored := s.replies[ctx.key];
            && s' == s
            && o == if stored.hash == ctx.hash && stored.status == SuccessOf(c) && Parses(stored.body, ShapeOf(c))
                    then Replayed(stored.body) else Refused(IdempotencyKeyReused)
  {
    hide CloseReady, ReopenReady, PostClosure, PostReversals, AccountsAfterClose, YearsAfterReopen, ExpireStale;
  }

  /** The same kind of command with the same key and hash, at any later point of any run, changes nothing
      and gets the first response.  With another hash it is refused and changes nothing. */
  lemma RetryIsTransparent(plan: seq<PlanAccount>, before: seq<Command>, c: Command, between: seq<Command>, retry: Command)
    requires ValidPlan(plan)
    requires ContextOf(c).Some? && Succeeded(Step(plan, Run(plan, EMPTY, before), c).1)
    requires ContextOf(retry).Some? && ContextOf(retry).value.key == ContextOf(c).value.key
    requires ShapeOf(retry) == ShapeOf(c) && SuccessOf(retry) == SuccessOf(c)
    ensures var s := Run(plan, EMPTY, before + [c] + between);
            var (s', o) := Step(plan, s, retry);
            && s' == s
            && (ContextOf(retry).value.hash == ContextOf(c).value.hash ==> o == Replayed(Step(plan, Run(plan, EMPTY, before), c).1.response))
            && (ContextOf(retry).value.hash != ContextOf(c).value.hash ==> o == Refused(IdempotencyKeyReused))
  {
    hide Inv, Step, ValidPlan;
    var s0 := Run(plan, EMPTY, before);
    var s1 := Step(plan, s0, c).0;
    EmptyHolds();
    RunKeeps(plan, EMPTY, before);
    StepKeeps(plan, s0, c);
    RunGrows(plan, s1, between);
    OneMore(plan, before, c, between);
    SuccessIsStored(plan, s0, c);
    StoredKeyOnlyReplays(plan, Run(plan, EMPTY, before + [c] + between), retry);
  }

  lemma OneMore(plan: seq<PlanAccount>, before: seq<Command>, c: Command, between: seq<Command>)
    ensures Run(plan, EMPTY, before + [c] + between) == Run(plan, Step(plan, Run(plan, EMPTY, before), c).0, between)
  {
    hide Step;
    RunAppend(plan, EMPTY, before + [c], between);
    RunAppend(plan, EMPTY, before, [c]);
    assert [c][1..] == [];
  }

  /** Taking a retry out of a run does not change where the run ends. */
  lemma RetriesCanBeDropped(plan: seq<PlanAccount>, before: seq<Command>, c: Command, between: seq<Command>, retry: Command, rest: seq<Command>)
    requires ValidPlan(plan)
    requires ContextOf(c).Some? && Succeeded(Step(plan, Run(plan, EMPTY, before), c).1)
    requires ContextOf(retry).Some? && ContextOf(retry).value.key == ContextOf(c).value.key
    ensures Run(plan, EMPTY, before + [c] + between + [retry] + rest) == Run(plan, EMPTY, before + [c] + between + rest)
  {
    hide Inv, Step, ValidPlan;
    var front := before + [c] + between;
    var s0 := Run(plan, EMPTY, before);
    var s1 := Step(plan, s0, c).0;
    EmptyHolds();
    RunKeeps(plan, EMPTY, before);
    StepKeeps(plan, s0, c);
    RunGrows(plan, s1, between);
    OneMore(plan, before, c, between);
    SuccessIsStored(plan, s0, c);
    StoredKeyOnlyReplays(plan, Run(plan, EMPTY, front), retry);
    OneMore(plan, front, retry, rest);
    RunAppend(plan, EMPTY, front, rest);
  }
}
