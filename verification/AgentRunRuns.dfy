/**
 * One client agent run under every interleaving of workers, redeliveries, sweeps,
 * cancellations and crashes, with arbitrary clocks.
 */
module AgentRunRuns {
  import opened Options
  import opened AiGovernance
  import opened AgentRun

  /** A worker between two awaits. */
  datatype Proc =
    | Expiring(seen: Option<nat>)
    | Claiming(token: nat, startedAt: int)
    | Preflighting(token: nat, deadline: int)
    | Rechecking(token: nat, deadline: int, context: string)
    | Preparing(token: nat, deadline: int, context: string)
    | Dispatching(token: nat, deadline: int, context: string)
    | Calling(token: nat, deadline: int, context: string, attempted: bool)
    | Settling(token: nat, deadline: int, finish: Finish)

  /** `claims` and `dispatched` record every successful claim and every context sent upstream. */
  datatype State = State(row: RunRow, procs: map<nat, Proc>, nextToken: nat, claims: seq<nat>, dispatched: seq<string>)

  datatype Action =
    | Start(pid: nat, now: int)
    | Next(pid: nat, now: int)
    | PreflightDone(pid: nat, result: Preflight)
    | PrepareFails(pid: nat)
    | Attempt(pid: nat)
    | Return(pid: nat, world: World)
    | TimerFires(pid: nat)
    | Crash(pid: nat)
    | Sweep1(at: int)
    | Sweep2(at: int)
    | CancelRun(at: int)

  function Init(createdAt: int): State {
    State(RunRow(Queued, None, None, None, None, None, createdAt, None), map[], 0, [], [])
  }

  function To(s: State, pid: nat, p: Proc): State {
    s.(procs := s.procs[pid := p])
  }

  function Done(s: State, pid: nat): State {
    s.(procs := s.procs - {pid})
  }

  /** The steps that touch the row on behalf of a worker. */
  function NextStep(s: State, pid: nat, p: Proc, now: int): State {
    match p
    case Expiring(seen) => Done(s, pid).(row := Expire(s.row, seen, now))
    case Claiming(token, startedAt) =>
      if s.row.status.Queued? then
        To(s, pid, Preflighting(token, startedAt + MAX_DURATION_MS)).(row := Claim(s.row, token, startedAt), claims := s.claims + [token])
      else Done(s, pid)
    case Rechecking(token, deadline, context) =>
      if !s.row.status.Running? || s.row.claimToken != Some(token) then Done(s, pid)
      else if now >= deadline then To(s, pid, Expiring(Some(token)))
      else To(s, pid, Preparing(token, deadline, context))
    case Preparing(token, deadline, context) =>
      if MayPrepare(s.row, token, now)
      then To(s, pid, Dispatching(token, deadline, context)).(row := Prepare(s.row, token, now, context))
      else Done(s, pid)
    case Dispatching(token, deadline, context) =>
      if now >= deadline then To(s, pid, Expiring(Some(token))) else To(s, pid, Calling(token, deadline, context, false))
    case Settling(token, deadline, finish) => Done(s, pid).(row := Settle(s.row, token, deadline, now, finish))
    case _ => s
  }

  function Step(s: State, a: Action): State {
    match a
    case Start(pid, now) =>
      if pid in s.procs then s
      else if s.row.status.Running? then
        if s.row.deadlineAt.Some? && s.row.deadlineAt.value <= now then To(s, pid, Expiring(s.row.claimToken)) else s
      else if s.row.status.Queued? then To(s, pid, Claiming(s.nextToken, now)).(nextToken := s.nextToken + 1)
      else s
    case Next(pid, now) => if pid in s.procs then NextStep(s, pid, s.procs[pid], now) else s
    case PreflightDone(pid, result) =>
      if pid in s.procs && s.procs[pid].Preflighting? then
        var p := s.procs[pid];
        (match result
         case Refused => To(s, pid, Settling(p.token, p.deadline, Finish(Failed, Some(PreflightRefused), None)))
         case Unavailable => To(s, pid, Settling(p.token, p.deadline, Finish(Failed, Some(PreflightUnavailable), None)))
         case Ready(context) => To(s, pid, Rechecking(p.token, p.deadline, context)))
      else s
    case PrepareFails(pid) =>
      if pid in s.procs && s.procs[pid].Preparing?
      then To(s, pid, Settling(s.procs[pid].token, s.procs[pid].deadline, Finish(Failed, Some(PreflightUnavailable), None))) else s
    case Attempt(pid) =>
      if pid in s.procs && s.procs[pid].Calling? && !s.procs[pid].attempted
      then To(s, pid, s.procs[pid].(attempted := true)).(dispatched := s.dispatched + [s.procs[pid].context]) else s
    case Return(pid, world) =>
      if pid in s.procs && s.procs[pid].Calling? && s.procs[pid].attempted == Call(world).attempted
      then To(s, pid, Settling(s.procs[pid].token, s.procs[pid].deadline, FinishOf(Call(world)))) else s
    case TimerFires(pid) =>
      if pid in s.procs && s.procs[pid].Calling?
      then To(s, pid, Settling(s.procs[pid].token, s.procs[pid].deadline, Finish(Unknown, Some(DeadlineExceeded), None))) else s
    case Crash(pid) => Done(s, pid)
    case Sweep1(at) => s.(row := SweepRunning(s.row, at))
    case Sweep2(at) => s.(row := SweepQueued(s.row, at))
    case CancelRun(at) => s.(row := Cancel(s.row, at))
  }

  function Run(s: State, actions: seq<Action>): State
    decreases |actions|
  {
    if actions == [] then s else Run(Step(s, actions[0]), actions[1..])
  }

  // ---------------------------------------------------------------- the invariant

  /** The worker that won the claim, at any point after it. */
  predicate Claimant(p: Proc) {
    !p.Expiring? && !p.Claiming?
  }

  predicate ProcOk(s: State, p: Proc) {
    && (p.Claiming? ==> p.token < s.nextToken && p.token !in s.claims)
    && (Claimant(p) ==> s.claims == [p.token])
    && match p
       case Preflighting(_, _) => s.dispatched == []
       case Rechecking(_, _, _) => s.dispatched == []
       case Preparing(_, _, _) => s.dispatched == []
       case Dispatching(_, _, context) => s.dispatched == [] && s.row.context == Some(context)
       case Calling(_, _, context, attempted) =>
         s.row.context == Some(context) && s.dispatched == if attempted then [context] else []
       case Settling(_, _, finish) =>
         && (finish.status.Failed? || finish.status.Succeeded? || finish.status.Unknown?)
         && (finish.status.Failed? ==> s.dispatched == [])
         && (finish.status.Succeeded? <==> finish.response.Some?)
         && (finish.status.Succeeded? ==> |s.dispatched| == 1 && ValidResponse(finish.response.value))
       case _ => true
  }

  /** What the row says, against what happened. */
  predicate RowOk(s: State) {
    && |s.claims| <= 1 && |s.dispatched| <= 1
    && (s.row.status.Queued? ==> s.claims == [])
    && (s.row.status.Running? ==> s.row.deadlineAt.Some? && s.claims != [] && s.row.claimToken == Some(s.claims[0]))
    && (s.claims == [] ==> s.row.context.None? && s.dispatched == [])
    && (s.dispatched != [] ==> s.row.context == Some(s.dispatched[0]))
    && (s.row.status.Failed? ==> s.dispatched == [])
    && (s.row.status.Succeeded? <==> s.row.response.Some?)
    && (s.row.status.Succeeded? ==>
          && |s.dispatched| == 1 && ValidResponse(s.row.response.value)
          && s.row.deadlineAt.Some? && s.row.finishedAt.Some? && s.row.finishedAt.value < s.row.deadlineAt.value)
  }

  ghost predicate Inv(s: State) {
    && RowOk(s)
    && (forall pid :: pid in s.procs ==> ProcOk(s, s.procs[pid]))
    && (forall p, q :: p in s.procs && q in s.procs && p != q ==> !(Claimant(s.procs[p]) && Claimant(s.procs[q])))
    && (forall p, q :: p in s.procs && q in s.procs && p != q && s.procs[p].Claiming? && s.procs[q].Claiming? ==>
          s.procs[p].token != s.procs[q].token)
    && (s.row.status.Failed? || s.row.status.Succeeded? ==> forall pid :: pid in s.procs ==> !Claimant(s.procs[pid]))
  }

  predicate Finished(row: RunRow) {
    row.status.Failed? || row.status.Succeeded?
  }

  /**
   * One worker's step (or a step of nobody, for an unused pid). Other workers notice nothing,
   * or they are not claimants and only need their tokens unclaimed.
   */
  lemma KeepsInv(s: State, s': State, pid: nat)
    requires Inv(s) && s'.procs - {pid} == s.procs - {pid} && s'.nextToken >= s.nextToken
    requires RowOk(s')
    requires pid in s'.procs ==> ProcOk(s', s'.procs[pid])
    requires (s'.claims == s.claims && s'.dispatched == s.dispatched && s'.row.context == s.row.context)
             || (pid in s.procs && Claimant(s.procs[pid]) && s'.claims == s.claims)
             || (pid in s.procs && s.procs[pid].Claiming? && s.claims == [] && s'.claims == [s.procs[pid].token])
    requires pid in s'.procs && s'.procs[pid].Claiming? ==> s'.procs[pid].token >= s.nextToken
    requires pid in s'.procs && Claimant(s'.procs[pid]) ==> pid in s.procs && (Claimant(s.procs[pid]) || s.claims == [])
    requires !Finished(s'.row) || Finished(s.row) || s.claims == [] || (pid in s.procs && Claimant(s.procs[pid]) && pid !in s'.procs)
    requires Finished(s'.row) && pid in s'.procs && Claimant(s'.procs[pid]) ==> Finished(s.row) && pid in s.procs && Claimant(s.procs[pid])
    ensures Inv(s')
  {
    forall q | q in s'.procs && q != pid
      ensures q in s.procs && s'.procs[q] == s.procs[q] && ProcOk(s, s.procs[q]) && ProcOk(s', s'.procs[q])
    {
      assert q in s'.procs - {pid};
    }
    if pid in s'.procs {
      assert ProcOk(s', s'.procs[pid]);
    }
    forall p, q | p in s'.procs && q in s'.procs && p != q ensures !(Claimant(s'.procs[p]) && Claimant(s'.procs[q])) {
      assert p != pid ==> ProcOk(s, s'.procs[p]);
      assert q != pid ==> ProcOk(s, s'.procs[q]);
    }
    if Finished(s'.row) {
      forall q | q in s'.procs ensures !Claimant(s'.procs[q]) {
        if q != pid { assert ProcOk(s, s'.procs[q]); }
      }
    }
  }

  lemma ExpireKeepsInv(s: State, pid: nat, now: int)
    requires Inv(s) && pid in s.procs && s.procs[pid].Expiring?
    ensures Inv(NextStep(s, pid, s.procs[pid], now))
  {
    assert ProcOk(s, s.procs[pid]);
    KeepsInv(s, NextStep(s, pid, s.procs[pid], now), pid);
  }

  lemma ClaimKeepsInv(s: State, pid: nat, now: int)
    requires Inv(s) && pid in s.procs && s.procs[pid].Claiming?
    ensures Inv(NextStep(s, pid, s.procs[pid], now))
  {
    assert ProcOk(s, s.procs[pid]);
    KeepsInv(s, NextStep(s, pid, s.procs[pid], now), pid);
  }

  lemma RecheckKeepsInv(s: State, pid: nat, now: int)
    requires Inv(s) && pid in s.procs && (s.procs[pid].Rechecking? || s.procs[pid].Dispatching?)
    ensures Inv(NextStep(s, pid, s.procs[pid], now))
  {
    assert ProcOk(s, s.procs[pid]);
    KeepsInv(s, NextStep(s, pid, s.procs[pid], now), pid);
  }

  lemma PrepareKeepsInv(s: State, pid: nat, now: int)
    requires Inv(s) && pid in s.procs && s.procs[pid].Preparing?
    ensures Inv(NextStep(s, pid, s.procs[pid], now))
  {
    assert ProcOk(s, s.procs[pid]);
    KeepsInv(s, NextStep(s, pid, s.procs[pid], now), pid);
  }

  lemma SettleKeepsInv(s: State, pid: nat, now: int)
    requires Inv(s) && pid in s.procs && s.procs[pid].Settling?
    ensures Inv(NextStep(s, pid, s.procs[pid], now))
  {
    assert ProcOk(s, s.procs[pid]);
    KeepsInv(s, NextStep(s, pid, s.procs[pid], now), pid);
  }

  lemma NextKeepsInv(s: State, pid: nat, now: int)
    requires Inv(s) && pid in s.procs
    ensures Inv(NextStep(s, pid, s.procs[pid], now))
  {
    match s.procs[pid]
    case Expiring(_) => ExpireKeepsInv(s, pid, now);
    case Claiming(_, _) => ClaimKeepsInv(s, pid, now);
    case Rechecking(_, _, _) => RecheckKeepsInv(s, pid, now);
    case Dispatching(_, _, _) => RecheckKeepsInv(s, pid, now);
    case Preparing(_, _, _) => PrepareKeepsInv(s, pid, now);
    case Settling(_, _, _) => SettleKeepsInv(s, pid, now);
    case _ =>
  }

  /** A call that comes back as denied was never attempted; one with an answer was. */
  lemma FinishTellsTheTruth(world: World)
    ensures FinishOf(Call(world)).status.Failed? ==> !Call(world).attempted
    ensures FinishOf(Call(world)).status.Succeeded? ==>
              Call(world).attempted && FinishOf(Call(world)).response.Some? && ValidResponse(FinishOf(Call(world)).response.value)
    ensures FinishOf(Call(world)).response.Some? ==> FinishOf(Call(world)).status.Succeeded?
  {
  }

  lemma WorkerKeepsInv(s: State, a: Action)
    requires Inv(s) && (a.PreflightDone? || a.PrepareFails? || a.Attempt? || a.TimerFires? || a.Crash?)
    ensures Inv(Step(s, a))
  {
    if a.pid !in s.procs {
      assert Step(s, a).procs == s.procs;
    } else if Step(s, a) != s {
      assert ProcOk(s, s.procs[a.pid]);
      KeepsInv(s, Step(s, a), a.pid);
    }
  }

  lemma ReturnKeepsInv(s: State, a: Action)
    requires Inv(s) && a.Return?
    ensures Inv(Step(s, a))
  {
    if Step(s, a) != s {
      assert ProcOk(s, s.procs[a.pid]);
      FinishTellsTheTruth(a.world);
      KeepsInv(s, Step(s, a), a.pid);
    }
  }

  lemma StartKeepsInv(s: State, a: Action)
    requires Inv(s) && a.Start?
    ensures Inv(Step(s, a))
  {
    var s' := Step(s, a);
    if s' != s {
      KeepsInv(s, s', a.pid);
    }
  }

  lemma SweepKeepsInv(s: State, a: Action)
    requires Inv(s) && (a.Sweep1? || a.Sweep2? || a.CancelRun?)
    ensures Inv(Step(s, a))
  {
    var s' := Step(s, a);
    assert RowOk(s');
    forall q | q in s'.procs ensures ProcOk(s', s'.procs[q]) {
      assert ProcOk(s, s.procs[q]);
    }
  }

  lemma StepKeepsInv(s: State, a: Action)
    requires Inv(s)
    ensures Inv(Step(s, a))
  {
    if a.Next? {
      if a.pid in s.procs { NextKeepsInv(s, a.pid, a.now); }
    } else if a.Start? {
      StartKeepsInv(s, a);
    } else if a.Return? {
      ReturnKeepsInv(s, a);
    } else if a.Sweep1? || a.Sweep2? || a.CancelRun? {
      SweepKeepsInv(s, a);
    } else {
      WorkerKeepsInv(s, a);
    }
  }

  lemma {:induction false} RunKeepsInv(s: State, actions: seq<Action>)
    requires Inv(s)
    ensures Inv(Run(s, actions))
    decreases |actions|
  {
    if actions != [] {
      StepKeepsInv(s, actions[0]);
      RunKeepsInv(Step(s, actions[0]), actions[1..]);
    }
  }

  // ---------------------------------------------------------------- the promises

  /**
   * In every run: at most one claim and one upstream dispatch; the dispatched context is the
   * stored snapshot. FAILED means nothing was dispatched; SUCCEEDED means exactly one dispatch,
   * with a valid answer settled before the deadline; any other finished dispatched run is
   * UNKNOWN (or was cancelled).
   */
  lemma OutcomesTellTheTruth(createdAt: int, actions: seq<Action>)
    ensures var s := Run(Init(createdAt), actions);
            && |s.claims| <= 1 && |s.dispatched| <= 1
            && (s.dispatched != [] ==> s.row.context == Some(s.dispatched[0]))
            && (s.row.status.Failed? ==> s.dispatched == [])
            && (s.row.status.Succeeded? ==>
                  && |s.dispatched| == 1 && s.row.response.Some? && ValidResponse(s.row.response.value)
                  && s.row.finishedAt.Some? && s.row.deadlineAt.Some? && s.row.finishedAt.value < s.row.deadlineAt.value)
            && (s.dispatched != [] && Terminal(s.row.status) && !s.row.status.Succeeded? ==>
                  s.row.status.Unknown? || s.row.status.Cancelled?)
  {
    RunKeepsInv(Init(createdAt), actions);
  }

  lemma StepIsFinal(s: State, a: Action)
    requires Inv(s)
    ensures Terminal(s.row.status) ==> Step(s, a).row == s.row
    ensures s.row.status.Running? ==> !Step(s, a).row.status.Queued?
    ensures s.dispatched <= Step(s, a).dispatched && s.claims <= Step(s, a).claims
    ensures s.row.context.Some? ==> Step(s, a).row.context == s.row.context
  {
    if a.Next? && a.pid in s.procs {
      assert ProcOk(s, s.procs[a.pid]);
    }
  }

  /** A terminal row never changes again, a running run is never queued again, and what was dispatched or stored stays. */
  lemma {:induction false} TerminalIsFinal(createdAt: int, before: seq<Action>, after: seq<Action>)
    ensures var s := Run(Init(createdAt), before); var t := Run(Init(createdAt), before + after);
            && (Terminal(s.row.status) ==> t.row == s.row)
            && (s.row.status.Running? ==> !t.row.status.Queued?)
            && s.dispatched <= t.dispatched && s.claims <= t.claims
            && (s.row.context.Some? ==> t.row.context == s.row.context)
  {
    RunKeepsInv(Init(createdAt), before);
    RunAppend(Init(createdAt), before, after);
    FinalFrom(Run(Init(createdAt), before), after);
  }

  lemma {:induction false} RunAppend(s: State, before: seq<Action>, after: seq<Action>)
    ensures Run(s, before + after) == Run(Run(s, before), after)
    decreases |before|
  {
    if before == [] {
      assert before + after == after;
    } else {
      assert (before + after)[1..] == before[1..] + after;
      RunAppend(Step(s, before[0]), before[1..], after);
    }
  }

  lemma {:induction false} FinalFrom(s: State, after: seq<Action>)
    requires Inv(s)
    ensures var t := Run(s, after);
            && (Terminal(s.row.status) ==> t.row == s.row)
            && (!s.row.status.Queued? ==> !t.row.status.Queued?)
            && s.dispatched <= t.dispatched && s.claims <= t.claims
            && (s.row.context.Some? ==> t.row.context == s.row.context)
    decreases |after|
  {
    if after != [] {
      StepIsFinal(s, after[0]);
      StepKeepsInv(s, after[0]);
      FinalFrom(Step(s, after[0]), after[1..]);
    }
  }

  // ---------------------------------------------------------------- sweeps, cancellation, deadlines

  /**
   * In every reachable state: the sweep's first update ends a running run exactly when its
   * deadline has come, its second a queued run exactly when it is ten minutes old, and neither
   * touches any other; a cancellation ends exactly the runs not yet ended.
   */
  lemma SweepsAreExact(createdAt: int, actions: seq<Action>, at: int)
    ensures var s := Run(Init(createdAt), actions);
            var swept, expired, cancelled := Step(s, Sweep1(at)).row, Step(s, Sweep2(at)).row, Step(s, CancelRun(at)).row;
            && s.row.createdAt == createdAt
            && (s.row.status.Running? ==> s.row.deadlineAt.Some?)
            && swept == (if s.row.status.Running? && s.row.deadlineAt.value <= at
                         then s.row.(status := Unknown, error := Some(DeadlineExceeded), finishedAt := Some(at)) else s.row)
            && expired == (if s.row.status.Queued? && at >= createdAt + 600_000
                           then s.row.(status := Failed, error := Some(QueueExpired), finishedAt := Some(at)) else s.row)
            && cancelled == (if s.row.status.Queued? || s.row.status.Running?
                             then s.row.(status := Cancelled, claimToken := None, finishedAt := Some(at)) else s.row)
  {
    RunKeepsInv(Init(createdAt), actions);
    CreationStays(Init(createdAt), actions);
  }

  lemma {:induction false} CreationStays(s: State, actions: seq<Action>)
    ensures Run(s, actions).row.createdAt == s.row.createdAt
    decreases |actions|
  {
    if actions != [] {
      StepKeepsCreation(s, actions[0]);
      CreationStays(Step(s, actions[0]), actions[1..]);
    }
  }

  lemma StepKeepsCreation(s: State, a: Action)
    ensures Step(s, a).row.createdAt == s.row.createdAt
  {
  }

  /** So a run found overdue by a sweep is ended by it for good, whoever is still at work on it. */
  lemma {:induction false} OverdueRunsEnd(createdAt: int, before: seq<Action>, at: int, after: seq<Action>)
    requires var row := Run(Init(createdAt), before).row; row.status.Running? && row.deadlineAt.Some? && row.deadlineAt.value <= at
    ensures var end := Run(Init(createdAt), before + [Sweep1(at)] + after).row;
            end.status.Unknown? && end.error == Some(DeadlineExceeded) && end.finishedAt == Some(at)
  {
    SweepsAreExact(createdAt, before, at);
    RunAppend(Init(createdAt), before, [Sweep1(at)]);
    var s := Run(Init(createdAt), before);
    assert [Sweep1(at)][1..] == [];
    assert Run(s, [Sweep1(at)]) == Run(Step(s, Sweep1(at)), []);
    TerminalIsFinal(createdAt, before + [Sweep1(at)], after);
  }

  /** The clock readings at which workers started. */
  function Starts(actions: seq<Action>): set<int> {
    set a | a in actions && a.Start? :: a.now
  }

  /** The row's deadline, and that of each worker, is two minutes after a start. */
  predicate DeadlinesFrom(s: State, starts: set<int>) {
    && (s.row.deadlineAt.Some? ==> s.row.deadlineAt.value - 120_000 in starts)
    && forall pid :: pid in s.procs && s.procs[pid].Claiming? ==> s.procs[pid].startedAt in starts
  }

  lemma StepKeepsDeadlines(s: State, a: Action, starts: set<int>)
    requires DeadlinesFrom(s, starts) && (a.Start? ==> a.now in starts)
    ensures DeadlinesFrom(Step(s, a), starts)
  {
    if a.Next? && a.pid in s.procs {
      NextKeepsDeadlines(s, a.pid, a.now, starts);
    }
  }

  lemma NextKeepsDeadlines(s: State, pid: nat, now: int, starts: set<int>)
    requires DeadlinesFrom(s, starts) && pid in s.procs
    ensures DeadlinesFrom(NextStep(s, pid, s.procs[pid], now), starts)
  {
  }

  lemma {:induction false} RunKeepsDeadlines(s: State, actions: seq<Action>, starts: set<int>)
    requires DeadlinesFrom(s, starts) && Starts(actions) <= starts
    ensures DeadlinesFrom(Run(s, actions), starts)
    decreases |actions|
  {
    if actions != [] {
      assert actions[0].Start? ==> actions[0].now in Starts(actions);
      forall t | t in Starts(actions[1..]) ensures t in Starts(actions) {
        var a :| a in actions[1..] && a.Start? && a.now == t;
        assert a in actions;
      }
      StepKeepsDeadlines(s, actions[0], starts);
      RunKeepsDeadlines(Step(s, actions[0]), actions[1..], starts);
    }
  }

  /** In every run: a running run was started two minutes before its deadline, so no sweep ends it sooner. */
  lemma DeadlinesAreTwoMinutesFromAStart(createdAt: int, actions: seq<Action>)
    requires Run(Init(createdAt), actions).row.deadlineAt.Some?
    ensures exists i :: 0 <= i < |actions| && actions[i].Start? &&
                        actions[i].now + 120_000 == Run(Init(createdAt), actions).row.deadlineAt.value
  {
    RunKeepsDeadlines(Init(createdAt), actions, Starts(actions));
    var a :| a in actions && a.Start? && a.now == Run(Init(createdAt), actions).row.deadlineAt.value - 120_000;
    var i :| 0 <= i < |actions| && actions[i] == a;
  }

  // ---------------------------------------------------------------- one worker alone

  /** The states a worker that nobody disturbs goes through, up to its settlement. */
  function Alone(createdAt: int, pid: nat, at: int, context: string, k: nat): State
    requires k <= 7
  {
    var deadline := at + 120_000;
    var claimed := RunRow(Running, Some(0), Some(deadline), None, None, None, createdAt, None);
    var prepared := claimed.(context := Some(context));
    var s0 := Init(createdAt);
    match k
    case 0 => s0
    case 1 => s0.(procs := map[pid := Claiming(0, at)], nextToken := 1)
    case 2 => State(claimed, map[pid := Preflighting(0, deadline)], 1, [0], [])
    case 3 => State(claimed, map[pid := Rechecking(0, deadline, context)], 1, [0], [])
    case 4 => State(claimed, map[pid := Preparing(0, deadline, context)], 1, [0], [])
    case 5 => State(prepared, map[pid := Dispatching(0, deadline, context)], 1, [0], [])
    case 6 => State(prepared, map[pid := Calling(0, deadline, context, false)], 1, [0], [])
    case 7 => State(prepared, map[pid := Calling(0, deadline, context, true)], 1, [0], [context])
  }

  function AloneAction(pid: nat, at: int, context: string, k: nat): Action
    requires k < 7
  {
    match k
    case 0 => Start(pid, at)
    case 2 => PreflightDone(pid, Ready(context))
    case 6 => Attempt(pid)
    case _ => Next(pid, at)
  }

  lemma AloneStep(createdAt: int, pid: nat, at: int, context: string, k: nat)
    requires k < 7
    ensures Step(Alone(createdAt, pid, at, context, k), AloneAction(pid, at, context, k)) == Alone(createdAt, pid, at, context, k + 1)
  {
  }

  lemma {:induction false} RunStep(s: State, before: seq<Action>, a: Action)
    ensures Run(s, before + [a]) == Step(Run(s, before), a)
  {
    RunAppend(s, before, [a]);
    assert [a][1..] == [];
    assert Run(Run(s, before), [a]) == Run(Step(Run(s, before), a), []);
  }

  function AloneActions(pid: nat, at: int, context: string, n: nat): seq<Action>
    requires n <= 7
  {
    seq(n, k requires 0 <= k < n => AloneAction(pid, at, context, k))
  }

  lemma {:induction false} AloneRuns(createdAt: int, pid: nat, at: int, context: string, n: nat)
    requires n <= 7
    ensures Run(Init(createdAt), AloneActions(pid, at, context, n)) == Alone(createdAt, pid, at, context, n)
    decreases n
  {
    if n > 0 {
      AloneRuns(createdAt, pid, at, context, n - 1);
      AloneStep(createdAt, pid, at, context, n - 1);
      RunStep(Init(createdAt), AloneActions(pid, at, context, n - 1), AloneAction(pid, at, context, n - 1));
      assert AloneActions(pid, at, context, n) == AloneActions(pid, at, context, n - 1) + [AloneAction(pid, at, context, n - 1)];
    }
  }

  /**
   * Nothing is refused without cause: a worker left alone claims the run, dispatches its one
   * context, and stores the answer it gets before the deadline.
   */
  lemma AloneSucceeds(createdAt: int, pid: nat, at: int, context: string, world: World, settledAt: int)
    requires GoesUpstream(world) && world.upstream.Answer? && ValidResponse(world.upstream.text) && settledAt < at + 120_000
    ensures var s := Run(Init(createdAt), AloneActions(pid, at, context, 7) + [Return(pid, world)] + [Next(pid, settledAt)]);
            && s.row == RunRow(Succeeded, Some(0), Some(at + 120_000), Some(context), Some(world.upstream.text), None, createdAt, Some(settledAt))
            && s.dispatched == [context] && s.procs == map[]
  {
    AloneRuns(createdAt, pid, at, context, 7);
    OutcomesAreExact(world);
    AttemptsReturnTheUpstream(world);
    var actions := AloneActions(pid, at, context, 7);
    RunStep(Init(createdAt), actions, Return(pid, world));
    RunStep(Init(createdAt), actions + [Return(pid, world)], Next(pid, settledAt));
    var called := Alone(createdAt, pid, at, context, 7);
    assert FinishOf(Call(world)) == Finish(Succeeded, None, Some(world.upstream.text));
    assert Step(called, Return(pid, world)) == To(called, pid, Settling(0, at + 120_000, FinishOf(Call(world))));
  }

  // ---------------------------------------------------------------- how a worker's run ends

  /** The running row is this worker's own, with the deadline the worker knows. */
  predicate Owns(s: State, pid: nat) {
    && pid in s.procs && Claimant(s.procs[pid])
    && s.row.status.Running? && s.row.claimToken == Some(s.procs[pid].token) && s.row.deadlineAt == Some(s.procs[pid].deadline)
  }

  /** Whoever claimed a run that is still running owns it. */
  ghost predicate ClaimantsOwn(s: State) {
    forall pid :: pid in s.procs && Claimant(s.procs[pid]) && s.row.status.Running? ==> Owns(s, pid)
  }

  lemma StepKeepsOwners(s: State, a: Action)
    requires Inv(s) && ClaimantsOwn(s)
    ensures ClaimantsOwn(Step(s, a))
  {
    if a.Next? && a.pid in s.procs {
      NextKeepsOwners(s, a.pid, a.now);
    }
  }

  lemma NextKeepsOwners(s: State, pid: nat, now: int)
    requires Inv(s) && ClaimantsOwn(s) && pid in s.procs
    ensures ClaimantsOwn(NextStep(s, pid, s.procs[pid], now))
  {
    var s' := NextStep(s, pid, s.procs[pid], now);
    assert ProcOk(s, s.procs[pid]);
    forall q | q in s'.procs && Claimant(s'.procs[q]) && s'.row.status.Running? ensures Owns(s', q) {
      if q != pid {
        assert ProcOk(s, s.procs[q]);
      }
    }
  }

  lemma {:induction false} RunKeepsOwners(s: State, actions: seq<Action>)
    requires Inv(s) && ClaimantsOwn(s)
    ensures ClaimantsOwn(Run(s, actions))
    decreases |actions|
  {
    if actions != [] {
      StepKeepsOwners(s, actions[0]);
      StepKeepsInv(s, actions[0]);
      RunKeepsOwners(Step(s, actions[0]), actions[1..]);
    }
  }

  /** In every run, the worker that won the claim of a running run holds its token and deadline. */
  lemma WinnersOwnTheRun(createdAt: int, actions: seq<Action>, pid: nat)
    requires var s := Run(Init(createdAt), actions); pid in s.procs && Claimant(s.procs[pid]) && s.row.status.Running?
    ensures Owns(Run(Init(createdAt), actions), pid)
  {
    RunKeepsOwners(Init(createdAt), actions);
  }

  function Ended(row: RunRow, status: Status, error: RunError, at: int): RunRow {
    row.(status := status, error := Some(error), finishedAt := Some(at))
  }

  /** What ends a worker before its call comes back, and the outcome it then settles in time. */
  lemma SettlementsAreExact(s: State, pid: nat, at: int)
    requires Owns(s, pid) && at < s.procs[pid].deadline
    ensures s.procs[pid].Preflighting? ==>
              && Settled(s, pid, PreflightDone(pid, Refused), at) == Ended(s.row, Failed, PreflightRefused, at)
              && Settled(s, pid, PreflightDone(pid, Unavailable), at) == Ended(s.row, Failed, PreflightUnavailable, at)
    ensures s.procs[pid].Preparing? ==> Settled(s, pid, PrepareFails(pid), at) == Ended(s.row, Failed, PreflightUnavailable, at)
    ensures s.procs[pid].Calling? ==> Settled(s, pid, TimerFires(pid), at) == Ended(s.row, Unknown, DeadlineExceeded, at)
  {
  }

  /** The row after an event of the worker and its settlement. */
  function Settled(s: State, pid: nat, event: Action, at: int): RunRow {
    Step(Step(s, event), Next(pid, at)).row
  }

  /** A worker that finds its deadline past, before it dispatches or when it settles, ends its run as UNKNOWN. */
  lemma LateWorkersExpire(s: State, pid: nat, now: int, at: int)
    requires Owns(s, pid) && s.procs[pid].deadline <= now <= at
    ensures s.procs[pid].Rechecking? || s.procs[pid].Dispatching? ==>
              var t := Step(Step(s, Next(pid, now)), Next(pid, at));
              t.row == Ended(s.row, Unknown, DeadlineExceeded, at) && t.dispatched == s.dispatched && pid !in t.procs
    ensures s.procs[pid].Settling? ==> Step(s, Next(pid, at)).row == Ended(s.row, Unknown, DeadlineExceeded, at)
  {
  }

  /** So does a redelivery that finds the run overdue; one that finds it in time, or ended, leaves it. */
  lemma RedeliveriesExpire(s: State, pid: nat, now: int, at: int)
    requires pid !in s.procs && !s.row.status.Queued? && (s.row.status.Running? ==> s.row.deadlineAt.Some?) && now <= at
    ensures if s.row.status.Running? && s.row.deadlineAt.value <= now
            then Step(Step(s, Start(pid, now)), Next(pid, at)).row == Ended(s.row, Unknown, DeadlineExceeded, at)
            else Step(s, Start(pid, now)) == s
  {
  }

  /** A worker whose run was ended in the meantime stops before it dispatches, and writes nothing. */
  lemma StoppedWorkersEnd(s: State, pid: nat, now: int)
    requires pid in s.procs && (s.procs[pid].Rechecking? || s.procs[pid].Preparing?) && !s.row.status.Running?
    ensures Step(s, Next(pid, now)) == Done(s, pid)
  {
  }
}
