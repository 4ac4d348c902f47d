/**
 * Client agent runs (src/jobs/client-agent-run.js, the branch without a source channel), the
 * expiry sweep (src/jobs/client-agent-run-recovery.js) and cancellation
 * (src/services/client-agent-run.service.js): the conditional updates of one run row.
 */
module AgentRun {
  import opened Options
  import opened AiGovernance
  import opened WhiteSpace

  const MAX_DURATION_MS := 120_000
  const MAX_RESPONSE_LENGTH := 20_000
  const QUEUE_MAX_AGE_MS := 10 * 60 * 1000

  datatype Status = Queued | Running | Succeeded | Failed | Unknown | Cancelled

  datatype RunError =
    | PreflightRefused | PreflightUnavailable | AiDenied(code: Code)
    | DeadlineExceeded | ResponseInvalid | ProviderOutcomeUnknown | QueueExpired

  datatype RunRow = RunRow(
    status: Status, claimToken: Option<nat>, deadlineAt: Option<int>, context: Option<string>,
    response: Option<string>, error: Option<RunError>, createdAt: int, finishedAt: Option<int>)

  predicate Terminal(status: Status) {
    !status.Queued? && !status.Running?
  }

  predicate ValidResponse(text: string) {
    !Blank(text) && |text| <= MAX_RESPONSE_LENGTH
  }

  // ---------------------------------------------------------------- atomic updates

  function Claim(row: RunRow, token: nat, startedAt: int): RunRow {
    if row.status.Queued? then
      row.(status := Running, claimToken := Some(token), deadlineAt := Some(startedAt + MAX_DURATION_MS), error := None)
    else row
  }

  predicate IsMine(row: RunRow, token: Option<nat>) {
    row.status.Running? && row.claimToken == token && row.deadlineAt.Some?
  }

  function Expire(row: RunRow, token: Option<nat>, at: int): RunRow {
    if IsMine(row, token) && row.deadlineAt.value <= at then
      row.(status := Unknown, error := Some(DeadlineExceeded), finishedAt := Some(at))
    else row
  }

  predicate MayPrepare(row: RunRow, token: nat, at: int) {
    IsMine(row, Some(token)) && row.context.None? && row.deadlineAt.value > at
  }

  function Prepare(row: RunRow, token: nat, at: int, context: string): RunRow {
    if MayPrepare(row, token, at) then row.(context := Some(context)) else row
  }

  /** How a claimant wants to finish. */
  datatype Finish = Finish(status: Status, error: Option<RunError>, response: Option<string>)

  /** `settle`: after the deadline it expires the run instead. */
  function Settle(row: RunRow, token: nat, deadline: int, at: int, f: Finish): RunRow {
    if at >= deadline then Expire(row, Some(token), at)
    else if IsMine(row, Some(token)) && row.deadlineAt.value > at then
      row.(status := f.status, error := f.error,
           response := if f.response.Some? then f.response else row.response, finishedAt := Some(at))
    else row
  }

  /** The two updates of the sweep. */
  function SweepRunning(row: RunRow, at: int): RunRow {
    if row.status.Running? && row.deadlineAt.Some? && row.deadlineAt.value <= at then
      row.(status := Unknown, error := Some(DeadlineExceeded), finishedAt := Some(at))
    else row
  }

  function SweepQueued(row: RunRow, at: int): RunRow {
    if row.status.Queued? && row.createdAt <= at - QUEUE_MAX_AGE_MS then
      row.(status := Failed, error := Some(QueueExpired), finishedAt := Some(at))
    else row
  }

  function Cancel(row: RunRow, at: int): RunRow {
    if Terminal(row.status) then row else row.(status := Cancelled, finishedAt := Some(at), claimToken := None)
  }

  /** How a finished provider call settles the run. */
  function FinishOf(result: CallResult): Finish {
    match result.reply
    case Text(text) =>
      if ValidResponse(text) then Finish(Succeeded, None, Some(text)) else Finish(Unknown, Some(ResponseInvalid), None)
    case Error(code) =>
      if code.AI_DISABLED? || code.AI_BUDGET_EXCEEDED? then Finish(Failed, Some(AiDenied(code)), None)
      else Finish(Unknown, Some(ProviderOutcomeUnknown), None)
  }

  /** The governed call that ran: AI on, no abort, and a connection under budget or the platform's provider. */
  predicate GoesUpstream(w: World) {
    && SwitchedOn(w) && !w.abortedEarly
    && if HasConnection(w) then ConnectionWorks(w) && w.spent < ConnectionOf(w).budget && !w.abortedLate else w.platformConfigured
  }

  /**
   * How a run's call ends it, in terms of what the call met: FAILED exactly when AI was off or
   * the budget was spent, SUCCEEDED exactly when it went upstream and came back with 1 to 20000
   * characters that are not all white space, and UNKNOWN otherwise.
   */
  lemma OutcomesAreExact(w: World)
    ensures var f := FinishOf(Call(w));
            var text := if w.upstream.Answer? then w.upstream.text else "";
            && (f == Finish(Failed, Some(AiDenied(AI_DISABLED)), None) <==> !SwitchedOn(w))
            && (f == Finish(Failed, Some(AiDenied(AI_BUDGET_EXCEEDED)), None) <==> OverBudget(w))
            && (f.status.Failed? <==> !SwitchedOn(w) || OverBudget(w))
            && (f.status.Succeeded? <==> GoesUpstream(w) && 0 < |text| <= 20_000 && exists i :: 0 <= i < |text| && !IsSpace(text[i]))
            && (f.status.Succeeded? ==> f == Finish(Succeeded, None, Some(text)))
            && (f == Finish(Unknown, Some(ResponseInvalid), None) <==>
                  GoesUpstream(w) && w.upstream.Answer? && (|text| > 20_000 || forall i :: 0 <= i < |text| ==> IsSpace(text[i])))
            && (!f.status.Failed? && !f.status.Succeeded? && f.error != Some(ResponseInvalid) ==>
                  f == Finish(Unknown, Some(ProviderOutcomeUnknown), None))
            && (Call(w).attempted <==> GoesUpstream(w))
  {
    AttemptedExactlyWhen(w);
    RefusalsAreExact(w);
    if GoesUpstream(w) {
      AttemptsReturnTheUpstream(w);
    }
  }

  // ---------------------------------------------------------------- one worker, undisturbed

  /** The context read before dispatch: refused for a known reason, unavailable, or the snapshot. */
  datatype Preflight = Refused | Unavailable | Ready(context: string)

  class RunStore {
    var row: RunRow
    /** Contexts sent upstream, in order. */
    ghost var dispatched: seq<string>

    constructor (initial: RunRow)
      ensures row == initial && dispatched == []
    {
      row := initial;
      dispatched := [];
    }

    method ClaimRun(token: nat, startedAt: int) returns (claimed: bool)
      modifies this`row
      ensures claimed == old(row).status.Queued?
      ensures row == Claim(old(row), token, startedAt)
      ensures row == if claimed then old(row).(status := Running, claimToken := Some(token), deadlineAt := Some(startedAt + 120_000), error := None)
                     else old(row)
    {
      claimed := row.status == Queued;
      if claimed {
        row := row.(status := Running, claimToken := Some(token), deadlineAt := Some(startedAt + MAX_DURATION_MS), error := None);
      }
    }

    method ExpireRun(token: Option<nat>, at: int)
      modifies this`row
      ensures row == Expire(old(row), token, at)
      ensures row == if old(row).status.Running? && old(row).claimToken == token && old(row).deadlineAt.Some? && old(row).deadlineAt.value <= at
                     then old(row).(status := Unknown, error := Some(DeadlineExceeded), finishedAt := Some(at)) else old(row)
    {
      if row.status == Running && row.claimToken == token && row.deadlineAt.Some? && row.deadlineAt.value <= at {
        row := row.(status := Unknown, error := Some(DeadlineExceeded), finishedAt := Some(at));
      }
    }

    method PrepareRun(token: nat, at: int, context: string) returns (prepared: bool)
      modifies this`row
      ensures prepared == MayPrepare(old(row), token, at)
      ensures row == Prepare(old(row), token, at, context)
      ensures prepared <==>
                && old(row).status.Running? && old(row).claimToken == Some(token) && old(row).context.None?
                && old(row).deadlineAt.Some? && at < old(row).deadlineAt.value
      ensures row == if prepared then old(row).(context := Some(context)) else old(row)
    {
      prepared := row.status == Running && row.claimToken == Some(token) && row.deadlineAt.Some?
                  && row.context.None? && row.deadlineAt.value > at;
      if prepared {
        row := row.(context := Some(context));
      }
    }

    method SettleRun(token: nat, deadline: int, at: int, f: Finish)
      modifies this`row
      ensures row == Settle(old(row), token, deadline, at, f)
      ensures var was := old(row);
              var mine := was.status.Running? && was.claimToken == Some(token) && was.deadlineAt.Some?;
              row == if mine && at < deadline && at < was.deadlineAt.value then
                       was.(status := f.status, error := f.error, finishedAt := Some(at), response := if f.response.Some? then f.response else was.response)
                     else if mine && at >= deadline && at >= was.deadlineAt.value then
                       was.(status := Unknown, error := Some(DeadlineExceeded), finishedAt := Some(at))
                     else was
    {
      if at >= deadline {
        ExpireRun(Some(token), at);
      } else if row.status == Running && row.claimToken == Some(token) && row.deadlineAt.Some? && row.deadlineAt.value > at {
        row := row.(status := f.status, error := f.error, finishedAt := Some(at));
        if f.response.Some? {
          row := row.(response := f.response);
        }
      }
    }

    /** `expireClientAgentRuns` on this run. */
    method Sweep(at: int)
      modifies this`row
      ensures old(row).status.Running? ==> row == SweepRunning(old(row), at)
      ensures old(row).status.Queued? ==> row == SweepQueued(old(row), at)
      ensures Terminal(old(row).status) ==> row == old(row)
      ensures !(row.status.Running? && row.deadlineAt.Some? && row.deadlineAt.value <= at)
      ensures old(row).status.Running? ==>
                if old(row).deadlineAt.Some? && old(row).deadlineAt.value <= at
                then row == old(row).(status := Unknown, error := Some(DeadlineExceeded), finishedAt := Some(at)) else row == old(row)
      ensures old(row).status.Queued? ==>
                if at - old(row).createdAt >= 600_000
                then row == old(row).(status := Failed, error := Some(QueueExpired), finishedAt := Some(at)) else row == old(row)
    {
      if row.status == Running && row.deadlineAt.Some? && row.deadlineAt.value <= at {
        row := row.(status := Unknown, error := Some(DeadlineExceeded), finishedAt := Some(at));
      }
      if row.status == Queued && row.createdAt <= at - QUEUE_MAX_AGE_MS {
        row := row.(status := Failed, error := Some(QueueExpired), finishedAt := Some(at));
      }
    }

    /**
     * `processClientAgentRun` with nobody else writing the row. `now` gives the clock readings
     * in order; `timerFires` is the deadline timer winning the race against the provider.
     */
    method ProcessRun(token: nat, preflight: Preflight, world: World, timerFires: bool, startedAt: int, preparedAt: int, settledAt: int)
      returns (status: Status)
      requires startedAt <= preparedAt <= settledAt
      modifies this
      ensures status == row.status
      ensures !old(row).status.Queued? ==> dispatched == old(dispatched)
      ensures Terminal(old(row).status) ==> row == old(row)
      ensures old(row).status.Running? ==> row == Expire(old(row), old(row).claimToken, startedAt)
      ensures old(row).status.Queued? && old(row).context.None? ==>
                var deadline := startedAt + MAX_DURATION_MS;
                var late := settledAt >= deadline;
                var ran := preflight.Ready? && preparedAt < deadline;
                var result := Call(world);
                && Terminal(row.status)
                && dispatched == old(dispatched) + (if ran && result.attempted then [preflight.context] else [])
                && row.context == (if ran then Some(preflight.context) else None)
                && (row.status.Succeeded? <==> ran && !timerFires && !late && FinishOf(result).status.Succeeded?)
                && (row.status.Succeeded? ==> row.response.Some? && result.reply == Text(row.response.value) && ValidResponse(row.response.value))
                && (row.status.Failed? <==> !late && (!preflight.Ready? || (ran && !timerFires && FinishOf(result).status.Failed?)))
      ensures old(row).status.Queued? && old(row).context.None? ==>
                && row.createdAt == old(row).createdAt && row.claimToken == Some(token) && row.deadlineAt == Some(startedAt + 120_000)
                && row.finishedAt == Some(if preflight.Ready? && preparedAt >= startedAt + 120_000 then preparedAt else settledAt)
                && (settledAt >= startedAt + 120_000 ==> row.status.Unknown? && row.error == Some(DeadlineExceeded))
      ensures old(row).status.Queued? && old(row).context.None? && settledAt < startedAt + 120_000 ==>
                && (preflight.Refused? ==> row.status.Failed? && row.error == Some(PreflightRefused))
                && (preflight.Unavailable? ==> row.status.Failed? && row.error == Some(PreflightUnavailable))
                && (preflight.Ready? && timerFires ==> row.status.Unknown? && row.error == Some(DeadlineExceeded))
                && (preflight.Ready? && !timerFires && !SwitchedOn(world) ==>
                      row.status.Failed? && row.error == Some(AiDenied(AI_DISABLED)) && dispatched == old(dispatched))
                && (preflight.Ready? && !timerFires && OverBudget(world) ==>
                      row.status.Failed? && row.error == Some(AiDenied(AI_BUDGET_EXCEEDED)) && dispatched == old(dispatched))
                && (preflight.Ready? && GoesUpstream(world) ==> dispatched == old(dispatched) + [preflight.context])
    {
      if row.status == Running {
        if row.deadlineAt.Some? && row.deadlineAt.value <= startedAt {
          ExpireRun(row.claimToken, startedAt);
        }
        return row.status;
      }
      if row.status != Queued {
        return row.status;
      }
      var claimed := ClaimRun(token, startedAt);
      if !claimed {
        return row.status;
      }
      var deadline := startedAt + MAX_DURATION_MS;
      match preflight {
      case Refused =>
        SettleRun(token, deadline, settledAt, Finish(Failed, Some(PreflightRefused), None));
      case Unavailable =>
        SettleRun(token, deadline, settledAt, Finish(Failed, Some(PreflightUnavailable), None));
      case Ready(context) =>
        if preparedAt >= deadline {
          ExpireRun(Some(token), preparedAt);
          return row.status;
        }
        var prepared := PrepareRun(token, preparedAt, context);
        if !prepared {
          return row.status;
        }
        OutcomesAreExact(world);
        var result := Call(world);
        if result.attempted {
          dispatched := dispatched + [context];
        }
        if timerFires {
          SettleRun(token, deadline, settledAt, Finish(Unknown, Some(DeadlineExceeded), None));
        } else {
          SettleRun(token, deadline, settledAt, FinishOf(result));
        }
      }
      status := row.status;
    }
  }
}
