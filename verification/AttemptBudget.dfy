/**
 * The attempt budget of src/auth/mfa.js under concurrency: any number of requests reserve,
 * evaluate, fail, lock or crash in any order. Runs contain no successful verification
 * (which clears the counter). A request reads its clock when it reserves; it may run its
 * `lockAccount` much later.
 */
module AttemptBudget {
  import opened Options
  import opened SecondFactor

  /** A reserved attempt: its number, its clock, and the era (number of lockouts so far) it was reserved in. */
  datatype Attempt = Attempt(number: nat, now: int, era: nat)

  /** One code evaluated. */
  datatype Evaluation = Evaluation(number: nat, era: nat, at: int)

  datatype State = State(row: UserRow, clock: int, pending: map<nat, Attempt>, era: nat, log: seq<Evaluation>)

  datatype Action =
    | Tick(to: int)
    | ReserveCode(pid: nat)
    | LockNow(pid: nat)
    | End(pid: nat)

  function Init(row: UserRow, clock: int): State {
    State(row, clock, map[], 0, [])
  }

  /** `End` is a request that fails below the budget, or crashes. */
  function Step(s: State, a: Action): State {
    match a
    case Tick(to) => if to > s.clock then s.(clock := to) else s
    case ReserveCode(pid) =>
      var (row, reserved) := Reserve(s.row, s.clock);
      if pid in s.pending || reserved.None? then s
      else
        var number := reserved.value;
        s.(row := row,
           pending := s.pending[pid := Attempt(number, s.clock, s.era)],
           log := if number <= MAX_FAILED_ATTEMPTS then s.log + [Evaluation(number, s.era, s.clock)] else s.log)
    case LockNow(pid) =>
      if pid in s.pending && s.pending[pid].number >= MAX_FAILED_ATTEMPTS then
        var now := s.pending[pid].now;
        s.(row := Lock(s.row, now), pending := s.pending - {pid},
           era := if Locked(s.row, now) then s.era else s.era + 1)
      else s
    case End(pid) => s.(pending := s.pending - {pid})
  }

  function Run(s: State, actions: seq<Action>): State
    decreases |actions|
  {
    if actions == [] then s else Run(Step(s, actions[0]), actions[1..])
  }

  /** Every request that locks does so less than `patience` milliseconds after it reserved. */
  predicate Prompt(s: State, actions: seq<Action>, patience: int)
    decreases |actions|
  {
    actions == [] ||
    ((actions[0].LockNow? && actions[0].pid in s.pending ==> s.clock - s.pending[actions[0].pid].now < patience)
     && Prompt(Step(s, actions[0]), actions[1..], patience))
  }

  // ---------------------------------------------------------------- between two lockouts

  predicate Follows(e: Evaluation, f: Evaluation, distance: nat) {
    && e.era <= f.era && e.at <= f.at
    && (e.era == f.era ==> f.number == e.number + distance)
  }

  ghost predicate Ordered(log: seq<Evaluation>) {
    && (forall i :: 0 <= i < |log| ==> 1 <= log[i].number <= MAX_FAILED_ATTEMPTS)
    && (forall i, j :: 0 <= i < j < |log| ==> Follows(log[i], log[j], j - i))
  }

  function Spent(row: UserRow): nat {
    if row.failedAttempts <= MAX_FAILED_ATTEMPTS then row.failedAttempts else MAX_FAILED_ATTEMPTS
  }

  /** The last evaluation is no later than now, and if it is of this era the counter tells its number. */
  predicate Current(s: State) {
    s.log != [] ==>
      var last := s.log[|s.log| - 1];
      && last.era <= s.era && last.at <= s.clock
      && (last.era == s.era ==> last.number == Spent(s.row))
  }

  ghost predicate Numbered(s: State) {
    Ordered(s.log) && Current(s)
  }

  lemma AppendOrdered(log: seq<Evaluation>, e: Evaluation)
    requires Ordered(log) && 1 <= e.number <= MAX_FAILED_ATTEMPTS
    requires log != [] ==> Follows(log[|log| - 1], e, 1)
    ensures Ordered(log + [e])
  {
    var log' := log + [e];
    forall i, j | 0 <= i < j < |log'| ensures Follows(log'[i], log'[j], j - i) {
      if j == |log| && i < |log| - 1 {
        assert Follows(log[i], log[|log| - 1], |log| - 1 - i);
      } else if j < |log| {
        assert Follows(log[i], log[j], j - i);
      }
    }
  }

  /** What a reservation that is not refused does to everything but the set of pending requests. */
  lemma ReserveEffect(s: State, pid: nat)
    requires pid !in s.pending && !Locked(s.row, s.clock)
    ensures var s' := Step(s, ReserveCode(pid)); var number := s.row.failedAttempts + 1;
            && s'.row == s.row.(failedAttempts := number) && s'.clock == s.clock && s'.era == s.era
            && s'.pending == s.pending[pid := Attempt(number, s.clock, s.era)]
            && s'.log == if number <= MAX_FAILED_ATTEMPTS then s.log + [Evaluation(number, s.era, s.clock)] else s.log
  {
  }

  lemma ReserveKeepsNumbered(s: State, number: nat, row: UserRow)
    requires Numbered(s)
    requires number == s.row.failedAttempts + 1 && row.failedAttempts == number
    ensures number <= MAX_FAILED_ATTEMPTS ==>
              Numbered(State(row, s.clock, s.pending, s.era, s.log + [Evaluation(number, s.era, s.clock)]))
    ensures number > MAX_FAILED_ATTEMPTS ==> Numbered(State(row, s.clock, s.pending, s.era, s.log))
  {
    if number <= MAX_FAILED_ATTEMPTS {
      AppendOrdered(s.log, Evaluation(number, s.era, s.clock));
    }
  }

  lemma StepKeepsNumbered(s: State, a: Action)
    requires Numbered(s)
    ensures Numbered(Step(s, a))
  {
    if a.ReserveCode? && a.pid !in s.pending && !Locked(s.row, s.clock) {
      ReserveEffect(s, a.pid);
      ReserveKeepsNumbered(s, s.row.failedAttempts + 1, Step(s, a).row);
    } else {
      assert Step(s, a).log == s.log;
    }
  }

  lemma {:induction false} RunKeepsNumbered(s: State, actions: seq<Action>)
    requires Numbered(s)
    ensures Numbered(Run(s, actions))
    decreases |actions|
  {
    if actions != [] {
      StepKeepsNumbered(s, actions[0]);
      RunKeepsNumbered(Step(s, actions[0]), actions[1..]);
    }
  }

  /** At most five codes are evaluated between two lockouts: of any six, a lockout fell in between. */
  lemma FiveBetweenLockouts(row: UserRow, clock: int, actions: seq<Action>, i: nat)
    requires i + 5 < |Run(Init(row, clock), actions).log|
    ensures var log := Run(Init(row, clock), actions).log;
            log[i].era < log[i + 5].era
  {
    RunKeepsNumbered(Init(row, clock), actions);
    var log := Run(Init(row, clock), actions).log;
    assert Follows(log[i], log[i + 5], 5);
  }

  // ---------------------------------------------------------------- in any span of time

  /** Any six evaluations span at least fifteen minutes. */
  ghost predicate SpanBound(log: seq<Evaluation>) {
    forall i :: 0 <= i && i + 5 < |log| ==> log[i + 5].at - log[i].at >= 900_000
  }

  ghost predicate Spaced(s: State) {
    && Numbered(s)
    && (forall i, j :: 0 <= i < j < |s.log| && s.log[i].era < s.log[j].era ==> s.log[i].at + LOCKOUT_MS <= s.log[j].at)
    && (forall i :: 0 <= i < |s.log| && s.log[i].era < s.era ==>
          s.row.lockedUntil.Some? && s.log[i].at + LOCKOUT_MS <= s.row.lockedUntil.value)
    && (forall pid :: pid in s.pending ==> PendingOk(s, s.pending[pid]))
  }

  ghost predicate PendingOk(s: State, p: Attempt) {
    && p.now <= s.clock && p.era <= s.era
    && (p.era < s.era ==> s.row.lockedUntil.Some? && p.now < s.row.lockedUntil.value)
    && (p.era == s.era ==> p.number <= s.row.failedAttempts)
    && (p.era == s.era && p.number >= MAX_FAILED_ATTEMPTS ==> forall i :: 0 <= i < |s.log| ==> s.log[i].at <= p.now)
  }

  lemma ReserveKeepsSpaced(s: State, pid: nat)
    requires Spaced(s)
    ensures Spaced(Step(s, ReserveCode(pid)))
  {
    var s' := Step(s, ReserveCode(pid));
    StepKeepsNumbered(s, ReserveCode(pid));
    LogIsOfThePast(s);
    if pid !in s.pending && !Locked(s.row, s.clock) {
      ReserveEffect(s, pid);
      ReserveKeepsPending(s, pid);
      ReserveKeepsApart(s, pid);
    }
  }

  /** The new evaluation is no earlier than an expired lock, which spaces it from those of earlier eras. */
  lemma ReserveKeepsApart(s: State, pid: nat)
    requires Spaced(s) && pid !in s.pending && !Locked(s.row, s.clock)
    ensures var log := Step(s, ReserveCode(pid)).log;
            forall i, j :: 0 <= i < j < |log| && log[i].era < log[j].era ==> log[i].at + LOCKOUT_MS <= log[j].at
  {
    ReserveEffect(s, pid);
    LogIsOfThePast(s);
  }

  lemma ReserveKeepsPending(s: State, pid: nat)
    requires Spaced(s) && pid !in s.pending && !Locked(s.row, s.clock)
    ensures var s' := Step(s, ReserveCode(pid)); forall q :: q in s'.pending ==> PendingOk(s', s'.pending[q])
  {
    var s' := Step(s, ReserveCode(pid));
    ReserveEffect(s, pid);
    LogIsOfThePast(s);
    forall q | q in s'.pending ensures PendingOk(s', s'.pending[q]) {
      if q != pid { assert PendingOk(s, s.pending[q]); }
    }
  }

  lemma LogIsOfThePast(s: State)
    requires Numbered(s)
    ensures forall i :: 0 <= i < |s.log| ==> s.log[i].at <= s.clock && s.log[i].era <= s.era
  {
    forall i | 0 <= i < |s.log| ensures s.log[i].at <= s.clock && s.log[i].era <= s.era {
      if i < |s.log| - 1 {
        assert Follows(s.log[i], s.log[|s.log| - 1], |s.log| - 1 - i);
      }
    }
  }

  lemma LockKeepsSpaced(s: State, pid: nat)
    requires Spaced(s)
    requires pid in s.pending ==> s.clock - s.pending[pid].now < LOCKOUT_MS
    ensures Spaced(Step(s, LockNow(pid)))
  {
    var s' := Step(s, LockNow(pid));
    StepKeepsNumbered(s, LockNow(pid));
    LogIsOfThePast(s);
    if pid in s.pending {
      assert PendingOk(s, s.pending[pid]);
    }
    forall q | q in s'.pending ensures PendingOk(s', s'.pending[q]) {
      assert PendingOk(s, s.pending[q]);
    }
  }

  lemma OtherKeepsSpaced(s: State, a: Action)
    requires Spaced(s) && !a.ReserveCode? && !a.LockNow?
    ensures Spaced(Step(s, a))
  {
    var s' := Step(s, a);
    StepKeepsNumbered(s, a);
    forall q | q in s'.pending ensures PendingOk(s', s'.pending[q]) {
      assert PendingOk(s, s.pending[q]);
    }
  }

  lemma {:induction false} RunKeepsSpaced(s: State, actions: seq<Action>)
    requires Spaced(s) && Prompt(s, actions, LOCKOUT_MS)
    ensures Spaced(Run(s, actions))
    decreases |actions|
  {
    if actions != [] {
      var a := actions[0];
      if a.ReserveCode? {
        ReserveKeepsSpaced(s, a.pid);
      } else if a.LockNow? {
        LockKeepsSpaced(s, a.pid);
      } else {
        OtherKeepsSpaced(s, a);
      }
      RunKeepsSpaced(Step(s, a), actions[1..]);
    }
  }

  lemma {:induction false} PromptIsMonotone(s: State, actions: seq<Action>, patience: int, more: int)
    requires Prompt(s, actions, patience) && patience <= more
    ensures Prompt(s, actions, more)
    decreases |actions|
  {
    if actions != [] {
      PromptIsMonotone(Step(s, actions[0]), actions[1..], patience, more);
    }
  }

  lemma PromptRunsAreSpaced(row: UserRow, clock: int, actions: seq<Action>)
    requires Prompt(Init(row, clock), actions, 900_000)
    ensures SpanBound(Run(Init(row, clock), actions).log)
  {
    RunKeepsSpaced(Init(row, clock), actions);
    var log := Run(Init(row, clock), actions).log;
    forall i | 0 <= i && i + 5 < |log| ensures log[i + 5].at - log[i].at >= 900_000
    {
      FiveBetweenLockouts(row, clock, actions, i);
    }
  }

  /** In every stretch of a prompt run, T long, at most 5 * (1 + T / 15 min) codes are evaluated. */
  lemma EvaluationRate(row: UserRow, clock: int, actions: seq<Action>, i: nat, j: nat)
    requires Prompt(Init(row, clock), actions, 900_000)
    requires i <= j < |Run(Init(row, clock), actions).log|
    ensures var log := Run(Init(row, clock), actions).log;
            j - i + 1 <= 5 * (1 + (log[j].at - log[i].at) / 900_000)
  {
    PromptRunsAreSpaced(row, clock, actions);
    RunKeepsNumbered(Init(row, clock), actions);
    var log := Run(Init(row, clock), actions).log;
    var q := (j - i) / MAX_FAILED_ATTEMPTS;
    FiveAtATime(log, i, q);
    if i + 5 * q < j {
      assert Follows(log[i + 5 * q], log[j], j - i - 5 * q);
    }
    assert log[j].at - log[i].at >= q * LOCKOUT_MS;
  }

  lemma {:induction false} FiveAtATime(log: seq<Evaluation>, i: nat, q: nat)
    requires SpanBound(log) && i + MAX_FAILED_ATTEMPTS * q < |log|
    ensures log[i + MAX_FAILED_ATTEMPTS * q].at >= log[i].at + q * LOCKOUT_MS
    decreases q
  {
    if q > 0 {
      FiveAtATime(log, i, q - 1);
      assert i + MAX_FAILED_ATTEMPTS * (q - 1) + MAX_FAILED_ATTEMPTS == i + MAX_FAILED_ATTEMPTS * q;
    }
  }

  // ---------------------------------------------------------------- exactly when the span bound holds

  ghost predicate SpanBoundInEveryRun(patience: int) {
    forall row, clock, actions :: Prompt(Init(row, clock), actions, patience) ==>
      SpanBound(Run(Init(row, clock), actions).log)
  }

  function Unlocked(failedAttempts: nat): UserRow {
    UserRow(failedAttempts, None, None, [], 0)
  }

  /**
   * Two lockers that each take a full lockout period: the first sets a lock that has already
   * expired, four codes are evaluated, the second locks again from its older clock, and that
   * lock ends less than a lockout period after those four.
   */
  const SLOW_RUN := [
    ReserveCode(5), Tick(LOCKOUT_MS), ReserveCode(6), LockNow(5), Tick(LOCKOUT_MS + 1),
    ReserveCode(1), ReserveCode(2), ReserveCode(3), ReserveCode(4), LockNow(6), Tick(2 * LOCKOUT_MS),
    ReserveCode(7), ReserveCode(8)]

  /** The state of that run after i actions. */
  function SlowState(i: nat): State
    requires i <= |SLOW_RUN|
  {
    var L := LOCKOUT_MS;
    var none := Unlocked(4);
    var first := Evaluation(5, 0, 0);
    var p5 := Attempt(5, 0, 0);
    var p6 := Attempt(6, L, 0);
    var four := [first, Evaluation(1, 1, L + 1), Evaluation(2, 1, L + 1), Evaluation(3, 1, L + 1), Evaluation(4, 1, L + 1)];
    var later := map[1 := Attempt(1, L + 1, 1), 2 := Attempt(2, L + 1, 1), 3 := Attempt(3, L + 1, 1), 4 := Attempt(4, L + 1, 1)];
    var expired := none.(failedAttempts := 0, lockedUntil := Some(L));
    var relocked := none.(failedAttempts := 0, lockedUntil := Some(2 * L));
    if i == 0 then Init(none, 0)
    else if i == 1 then State(none.(failedAttempts := 5), 0, map[5 := p5], 0, [first])
    else if i == 2 then State(none.(failedAttempts := 5), L, map[5 := p5], 0, [first])
    else if i == 3 then State(none.(failedAttempts := 6), L, map[5 := p5, 6 := p6], 0, [first])
    else if i == 4 then State(expired, L, map[6 := p6], 1, [first])
    else if i == 5 then State(expired, L + 1, map[6 := p6], 1, [first])
    else if i == 6 then State(expired.(failedAttempts := 1), L + 1, map[6 := p6, 1 := later[1]], 1, four[..2])
    else if i == 7 then State(expired.(failedAttempts := 2), L + 1, map[6 := p6, 1 := later[1], 2 := later[2]], 1, four[..3])
    else if i == 8 then State(expired.(failedAttempts := 3), L + 1, map[6 := p6, 1 := later[1], 2 := later[2], 3 := later[3]], 1, four[..4])
    else if i == 9 then State(expired.(failedAttempts := 4), L + 1, later[6 := p6], 1, four)
    else if i == 10 then State(relocked, L + 1, later, 2, four)
    else if i == 11 then State(relocked, 2 * L, later, 2, four)
    else if i == 12 then State(relocked.(failedAttempts := 1), 2 * L, later[7 := Attempt(1, 2 * L, 2)], 2, four + [Evaluation(1, 2, 2 * L)])
    else State(relocked.(failedAttempts := 2), 2 * L, later[7 := Attempt(1, 2 * L, 2)][8 := Attempt(2, 2 * L, 2)], 2,
               four + [Evaluation(1, 2, 2 * L), Evaluation(2, 2, 2 * L)])
  }

  lemma SlowStart(i: nat)
    requires 0 <= i < 5
    ensures Step(SlowState(i), SLOW_RUN[i]) == SlowState(i + 1)
    ensures SLOW_RUN[i].LockNow? ==> SlowState(i).clock - SlowState(i).pending[SLOW_RUN[i].pid].now <= LOCKOUT_MS
  {
  }

  lemma SlowMiddle(i: nat)
    requires 5 <= i < 9
    ensures Step(SlowState(i), SLOW_RUN[i]) == SlowState(i + 1)
    ensures SLOW_RUN[i].LockNow? ==> SlowState(i).clock - SlowState(i).pending[SLOW_RUN[i].pid].now <= LOCKOUT_MS
  {
  }

  lemma SlowEnd(i: nat)
    requires 9 <= i < |SLOW_RUN|
    ensures Step(SlowState(i), SLOW_RUN[i]) == SlowState(i + 1)
    ensures SLOW_RUN[i].LockNow? ==> SlowState(i).clock - SlowState(i).pending[SLOW_RUN[i].pid].now <= LOCKOUT_MS
  {
  }

  lemma {:induction false} SlowRunFrom(i: nat, patience: int)
    requires i <= |SLOW_RUN| && patience > LOCKOUT_MS
    ensures Run(SlowState(i), SLOW_RUN[i..]) == SlowState(|SLOW_RUN|)
    ensures Prompt(SlowState(i), SLOW_RUN[i..], patience)
    decreases |SLOW_RUN| - i
  {
    if i < |SLOW_RUN| {
      if i < 5 { SlowStart(i); } else if i < 9 { SlowMiddle(i); } else { SlowEnd(i); }
      SlowRunFrom(i + 1, patience);
      assert SLOW_RUN[i..][1..] == SLOW_RUN[i + 1..];
    }
  }

  lemma SlowRunBreaksTheBound(patience: int)
    requires patience > LOCKOUT_MS
    ensures Prompt(Init(Unlocked(4), 0), SLOW_RUN, patience)
    ensures !SpanBound(Run(Init(Unlocked(4), 0), SLOW_RUN).log)
  {
    SlowRunFrom(0, patience);
    assert SLOW_RUN[0..] == SLOW_RUN;
    var log := SlowState(|SLOW_RUN|).log;
    assert log[1 + MAX_FAILED_ATTEMPTS].at - log[1].at == LOCKOUT_MS - 1;
  }

  /**
   * "At most five codes in any span shorter than the lockout" holds of every run exactly when
   * no request may take longer than the lockout between reserving and locking.
   */
  lemma SpanBoundExactlyWhenPrompt(patience: int)
    ensures SpanBoundInEveryRun(patience) <==> patience <= 900_000
  {
    if patience <= LOCKOUT_MS {
      forall row, clock, actions | Prompt(Init(row, clock), actions, patience)
        ensures SpanBound(Run(Init(row, clock), actions).log)
      {
        PromptIsMonotone(Init(row, clock), actions, patience, LOCKOUT_MS);
        PromptRunsAreSpaced(row, clock, actions);
      }
    } else {
      SlowRunBreaksTheBound(patience);
    }
  }
}
