/**
 * Exactly which responses endanger the once-per-cycle promise of thread escalation. A
 * response resets the marker to null, so a check that read a null marker matches again.
 */
module EscalationResponses {
  import opened Options
  import opened Escalation

  // ---------------------------------------------------------------- the dangerous responses

  function WantedKind(c: Check): Kind {
    if WantedLevel(c.snap, c.now, c.admins) == SLA_WARNING then Warning else Escalated
  }

  /** An alert of this kind and cycle would repeat one in the log, or follow its escalation. */
  ghost predicate OutOfTurn(log: seq<Alert>, kind: Kind, cycle: int) {
    exists i :: 0 <= i < |log| && log[i].cycle == cycle && (log[i].kind == kind || log[i].kind == Escalated)
  }

  /** The check may still claim, read a null marker, and would send an alert out of turn. */
  ghost predicate Endangers(log: seq<Alert>, c: Check) {
    && !c.claimMissed && c.snap.escalatedAt.None? && WantedLevel(c.snap, c.now, c.admins) > 0
    && OutOfTurn(log, WantedKind(c), c.snap.activityAt)
  }

  /** A response in this state is dangerous. */
  ghost predicate Dangerous(s: State) {
    exists pid :: pid in s.checks && Endangers(s.log, s.checks[pid])
  }

  predicate Resets(s: State, a: Action) {
    a.Respond? && a.at > s.row.activityAt
  }

  /** No response lands in a dangerous state. */
  ghost predicate Careful(s: State, actions: seq<Action>)
    decreases |actions|
  {
    actions == [] || ((Resets(s, actions[0]) ==> !Dangerous(s)) && Careful(Step(s, actions[0]), actions[1..]))
  }

  /** Every check of the thread reads the clock at a moment of its own. */
  predicate FreshClocks(actions: seq<Action>, readings: set<int>)
    decreases |actions|
  {
    actions == [] ||
    ((actions[0].Read? ==> actions[0].now !in readings) && FreshClocks(actions[1..], After(readings, actions[0])))
  }

  function After(readings: set<int>, a: Action): set<int> {
    if a.Read? then readings + {a.now} else readings
  }

  function Readings(row: ThreadRow): set<int> {
    if row.escalatedAt.Some? then {row.escalatedAt.value} else {}
  }

  // ---------------------------------------------------------------- what careful runs keep

  /** While the marker is the one the check read, its snapshot still decides rightly. */
  ghost predicate DecidesRightly(s: State, c: Check) {
    if c.snap.escalatedAt.None? then !Endangers(s.log, c)
    else
      && s.row.level == c.snap.level
      && forall i :: 0 <= i < |s.log| ==>
           Remembers(c.snap, s.log[i]) && (s.log[i].kind != Breach ==> s.log[i].cycle <= c.snap.activityAt)
  }

  ghost predicate CheckOk(s: State, readings: set<int>, c: Check) {
    && Sane(c.snap) && c.snap.activityAt <= s.row.activityAt && c.now in readings
    && (c.snap.escalatedAt.Some? ==> c.snap.escalatedAt.value in readings)
    && s.row.escalatedAt != Some(c.now)
    && (!c.claimMissed && c.snap.escalatedAt == s.row.escalatedAt ==> DecidesRightly(s, c))
  }

  predicate LogEntryOk(row: ThreadRow, e: Alert) {
    Remembers(row, e) && (if e.kind == Breach then row.breached else e.cycle <= row.activityAt)
  }

  /** The claims two checks could make are told apart by their clocks. */
  predicate Apart(c: Check, d: Check) {
    c.now != d.now && c.snap.escalatedAt != Some(d.now)
  }

  ghost predicate Tracked(s: State, readings: set<int>) {
    && Sane(s.row) && OncePerCycle(s.log)
    && (s.row.escalatedAt.Some? ==> s.row.escalatedAt.value in readings)
    && (forall i :: 0 <= i < |s.log| ==> LogEntryOk(s.row, s.log[i]))
    && (forall pid :: pid in s.checks ==> CheckOk(s, readings, s.checks[pid]))
    && (forall p, q :: p in s.checks && q in s.checks && p != q ==> Apart(s.checks[p], s.checks[q]))
  }

  lemma AppendIsOnce(log: seq<Alert>, e: Alert)
    requires OncePerCycle(log) && e.kind != Breach && !OutOfTurn(log, e.kind, e.cycle)
    ensures OncePerCycle(log + [e])
  {
    var log' := log + [e];
    assert forall i :: 0 <= i < |log| ==> log'[i] == log[i];
  }

  lemma AppendIsNotOnce(log: seq<Alert>, e: Alert, more: seq<Alert>)
    requires e.kind != Breach && OutOfTurn(log, e.kind, e.cycle)
    ensures !OncePerCycle(log + [e] + more)
  {
    var log' := log + [e] + more;
    var i :| 0 <= i < |log| && log[i].cycle == e.cycle && (log[i].kind == e.kind || log[i].kind == Escalated);
    assert log'[i] == log[i] && log'[|log|] == e;
  }

  /** A claim that matches sends an alert whose turn it is. */
  lemma ClaimIsInTurn(s: State, readings: set<int>, pid: nat)
    requires Tracked(s, readings) && pid in s.checks && !s.checks[pid].claimMissed
    requires var c := s.checks[pid]; ClaimPart(s.row, c.snap, c.now, c.admins).alerts != []
    ensures var c := s.checks[pid]; var e := ClaimPart(s.row, c.snap, c.now, c.admins).alerts[0];
            && e.kind == WantedKind(c) && e.cycle == c.snap.activityAt && !OutOfTurn(s.log, e.kind, e.cycle)
            && c.now >= e.cycle + 4 * HOUR_MS
  {
    var c := s.checks[pid];
    assert CheckOk(s, readings, c);
    if c.snap.escalatedAt.Some? {
      assert forall i :: 0 <= i < |s.log| ==> Remembers(c.snap, s.log[i]);
    }
  }

  lemma ClaimStaysTracked(s: State, readings: set<int>, pid: nat)
    requires Tracked(s, readings) && pid in s.checks && !s.checks[pid].claimMissed
    ensures var c := s.checks[pid]; var done := ClaimPart(s.row, c.snap, c.now, c.admins);
            Tracked(s.(row := done.row, checks := s.checks - {pid}, log := s.log + done.alerts), readings)
  {
    var c := s.checks[pid];
    var done := ClaimPart(s.row, c.snap, c.now, c.admins);
    var s' := s.(row := done.row, checks := s.checks - {pid}, log := s.log + done.alerts);
    assert CheckOk(s, readings, c);
    if done.alerts == [] {
      assert s'.log == s.log;
      forall q | q in s'.checks ensures CheckOk(s', readings, s'.checks[q]) {
        assert CheckOk(s, readings, s.checks[q]);
      }
    } else {
      ClaimIsInTurn(s, readings, pid);
      AppendIsOnce(s.log, done.alerts[0]);
      ClaimedRowRemembers(s, readings, pid);
      forall q | q in s'.checks ensures CheckOk(s', readings, s'.checks[q]) {
        assert CheckOk(s, readings, s.checks[q]) && Apart(s.checks[q], c);
      }
    }
  }

  lemma ClaimedRowRemembers(s: State, readings: set<int>, pid: nat)
    requires Tracked(s, readings) && pid in s.checks && !s.checks[pid].claimMissed
    requires var c := s.checks[pid]; ClaimPart(s.row, c.snap, c.now, c.admins).alerts != []
    ensures var c := s.checks[pid]; var done := ClaimPart(s.row, c.snap, c.now, c.admins);
            && Sane(done.row)
            && forall i :: 0 <= i < |s.log + done.alerts| ==> LogEntryOk(done.row, (s.log + done.alerts)[i])
  {
    var c := s.checks[pid];
    var done := ClaimPart(s.row, c.snap, c.now, c.admins);
    assert CheckOk(s, readings, c);
    forall i | 0 <= i < |s.log + done.alerts| ensures LogEntryOk(done.row, (s.log + done.alerts)[i]) {
      if i < |s.log| {
        assert LogEntryOk(s.row, s.log[i]);
        assert c.snap.escalatedAt.Some? ==> Remembers(c.snap, s.log[i]);
      }
    }
  }

  lemma BreachStaysTracked(s: State, readings: set<int>, c: Check)
    requires Tracked(s, readings)
    ensures var done := BreachPart(s.row, c.snap, c.now, c.admins, s.defaults);
            Tracked(s.(row := done.row, log := s.log + done.alerts), readings)
  {
    var done := BreachPart(s.row, c.snap, c.now, c.admins, s.defaults);
    var s' := s.(row := done.row, log := s.log + done.alerts);
    assert forall i :: 0 <= i < |s.log| ==> s'.log[i] == s.log[i] && LogEntryOk(s.row, s.log[i]);
    assert forall i :: |s.log| <= i < |s'.log| ==> s'.log[i].kind == Breach && !s.row.breached;
    forall q | q in s'.checks ensures CheckOk(s', readings, s'.checks[q]) {
      assert CheckOk(s, readings, s.checks[q]);
      BreachIsNoTurn(s.log, done.alerts, s.checks[q]);
    }
  }

  lemma BreachIsNoTurn(log: seq<Alert>, more: seq<Alert>, c: Check)
    requires forall k :: 0 <= k < |more| ==> more[k].kind == Breach
    ensures Endangers(log + more, c) ==> Endangers(log, c)
  {
    assert forall i :: |log| <= i < |log + more| ==> (log + more)[i] == more[i - |log|];
    assert forall i :: 0 <= i < |log| ==> (log + more)[i] == log[i];
    assert WantedKind(c) != Breach;
  }

  lemma CommitStaysTracked(s: State, readings: set<int>, pid: nat)
    requires Tracked(s, readings) && pid in s.checks
    ensures Tracked(Step(s, Commit(pid)), readings)
  {
    var c := s.checks[pid];
    if c.claimMissed {
      var rest := s.(checks := s.checks - {pid});
      forall q | q in rest.checks ensures CheckOk(rest, readings, rest.checks[q]) {
        assert CheckOk(s, readings, s.checks[q]);
      }
      BreachStaysTracked(rest, readings, c);
    } else {
      var claim := ClaimPart(s.row, c.snap, c.now, c.admins);
      ClaimStaysTracked(s, readings, pid);
      BreachStaysTracked(s.(row := claim.row, checks := s.checks - {pid}, log := s.log + claim.alerts), readings, c);
      var breach := BreachPart(claim.row, c.snap, c.now, c.admins, s.defaults);
      assert s.log + (claim.alerts + breach.alerts) == s.log + claim.alerts + breach.alerts;
    }
  }

  lemma ReadStaysTracked(s: State, readings: set<int>, a: Action)
    requires Tracked(s, readings) && a.Read? && a.now !in readings
    ensures Tracked(Step(s, a), After(readings, a))
  {
    var s', more := Step(s, a), After(readings, a);
    forall q | q in s'.checks ensures CheckOk(s', more, s'.checks[q]) {
      if q in s.checks {
        assert CheckOk(s, readings, s.checks[q]);
      } else {
        assert forall i :: 0 <= i < |s.log| ==> LogEntryOk(s.row, s.log[i]);
      }
    }
    forall p, q | p in s'.checks && q in s'.checks && p != q ensures Apart(s'.checks[p], s'.checks[q]) {
      assert p in s.checks ==> CheckOk(s, readings, s.checks[p]);
      assert q in s.checks ==> CheckOk(s, readings, s.checks[q]);
    }
  }

  /** Writers of the row that are not checks: the checks and the log stay. */
  lemma OtherWriterStaysTracked(s: State, s': State, readings: set<int>)
    requires Tracked(s, readings) && s'.log == s.log && s'.checks == s.checks && Sane(s'.row)
    requires s'.row.activityAt >= s.row.activityAt && s'.row.breached == s.row.breached
    requires s'.row.escalatedAt.None? || (s'.row.escalatedAt == s.row.escalatedAt && s'.row.level == s.row.level)
    requires s'.row.activityAt == s.row.activityAt ==> s'.row.escalatedAt == s.row.escalatedAt && s'.row.level == s.row.level
    requires s'.row.escalatedAt != s.row.escalatedAt ==> !Dangerous(s)
    ensures Tracked(s', readings)
  {
    forall q | q in s'.checks ensures CheckOk(s', readings, s'.checks[q]) {
      assert CheckOk(s, readings, s.checks[q]);
      assert s'.row.escalatedAt != s.row.escalatedAt ==> !Endangers(s.log, s.checks[q]);
    }
    forall i | 0 <= i < |s'.log| ensures LogEntryOk(s'.row, s'.log[i]) {
      assert LogEntryOk(s.row, s.log[i]);
    }
  }

  lemma BookkeepingStaysTracked(s: State, readings: set<int>, a: Action)
    requires Tracked(s, readings) && (a.ClaimMiss? || a.Abort?)
    ensures Tracked(Step(s, a), readings)
  {
    var s' := Step(s, a);
    forall q | q in s'.checks ensures CheckOk(s', readings, s'.checks[q]) {
      assert CheckOk(s, readings, s.checks[q]);
    }
    forall p, q | p in s'.checks && q in s'.checks && p != q ensures Apart(s'.checks[p], s'.checks[q]) {
      assert Apart(s.checks[p], s.checks[q]);
    }
  }

  lemma StepStaysTracked(s: State, readings: set<int>, a: Action)
    requires Tracked(s, readings) && (a.Read? ==> a.now !in readings) && (Resets(s, a) ==> !Dangerous(s))
    ensures Tracked(Step(s, a), After(readings, a))
  {
    if a.Read? {
      ReadStaysTracked(s, readings, a);
    } else if a.Commit? {
      if a.pid in s.checks { CommitStaysTracked(s, readings, a.pid); }
    } else if a.ClaimMiss? || a.Abort? {
      BookkeepingStaysTracked(s, readings, a);
    } else {
      OtherWriterStaysTracked(s, Step(s, a), readings);
    }
  }

  lemma {:induction false} CarefulRunSendsOnce(s: State, readings: set<int>, actions: seq<Action>)
    requires Tracked(s, readings) && FreshClocks(actions, readings) && Careful(s, actions)
    ensures OncePerCycle(Run(s, actions).log)
    decreases |actions|
  {
    if actions != [] {
      StepStaysTracked(s, readings, actions[0]);
      CarefulRunSendsOnce(Step(s, actions[0]), After(readings, actions[0]), actions[1..]);
    }
  }

  // ---------------------------------------------------------------- exactly the careless runs repeat

  predicate NoResponse(actions: seq<Action>) {
    forall i :: 0 <= i < |actions| ==> !actions[i].Respond?
  }

  /** From this state some run, without any further response, sends an alert out of turn. */
  ghost predicate CanRepeat(s: State, readings: set<int>) {
    exists rest :: NoResponse(rest) && FreshClocks(rest, readings) && !OncePerCycle(Run(s, rest).log)
  }

  /** So it is at some point of this run. */
  ghost predicate EverCanRepeat(s: State, readings: set<int>, actions: seq<Action>)
    decreases |actions|
  {
    CanRepeat(s, readings) || (actions != [] && EverCanRepeat(Step(s, actions[0]), After(readings, actions[0]), actions[1..]))
  }

  lemma {:induction false} NoResponseIsCareful(s: State, actions: seq<Action>)
    requires NoResponse(actions)
    ensures Careful(s, actions)
    decreases |actions|
  {
    if actions != [] { NoResponseIsCareful(Step(s, actions[0]), actions[1..]); }
  }

  lemma TrackedCannotRepeat(s: State, readings: set<int>)
    requires Tracked(s, readings)
    ensures !CanRepeat(s, readings)
  {
    forall rest | NoResponse(rest) && FreshClocks(rest, readings) ensures OncePerCycle(Run(s, rest).log) {
      NoResponseIsCareful(s, rest);
      CarefulRunSendsOnce(s, readings, rest);
    }
  }

  /** After a dangerous response, committing the endangering check is enough. */
  lemma DangerousResponseRepeats(s: State, readings: set<int>, a: Action)
    requires Resets(s, a) && Dangerous(s)
    ensures CanRepeat(Step(s, a), readings)
  {
    var pid :| pid in s.checks && Endangers(s.log, s.checks[pid]);
    var c, t := s.checks[pid], Step(s, a);
    var claim := ClaimPart(t.row, c.snap, c.now, c.admins);
    var breach := BreachPart(claim.row, c.snap, c.now, c.admins, t.defaults);
    assert |claim.alerts| == 1 && claim.alerts[0].kind == WantedKind(c) && claim.alerts[0].cycle == c.snap.activityAt;
    AppendIsNotOnce(s.log, claim.alerts[0], breach.alerts);
    var rest := [Commit(pid)];
    RunSplit(t, Commit(pid), []);
    assert rest == [Commit(pid)] + [];
    assert Run(t, rest).log == t.log + (claim.alerts + breach.alerts);
    assert t.log + (claim.alerts + breach.alerts) == s.log + [claim.alerts[0]] + breach.alerts;
    assert FreshClocks(rest, readings);
  }

  lemma {:induction false} RepeatsExactlyWhenCareless(s: State, readings: set<int>, actions: seq<Action>)
    requires Tracked(s, readings) && FreshClocks(actions, readings)
    ensures EverCanRepeat(s, readings, actions) <==> !Careful(s, actions)
    decreases |actions|
  {
    TrackedCannotRepeat(s, readings);
    if actions != [] {
      var a := actions[0];
      if Resets(s, a) && Dangerous(s) {
        DangerousResponseRepeats(s, After(readings, a), a);
      } else {
        StepStaysTracked(s, readings, a);
        RepeatsExactlyWhenCareless(Step(s, a), After(readings, a), actions[1..]);
      }
    }
  }

  /**
   * The exact condition. When every check reads the clock at a moment of its own, a run comes
   * to a point from which an alert can go out of turn if and only if one of its responses
   * lands while a check in flight, its claim not yet missed, holds a null-marker snapshot and
   * the log already has the alert it would send (or its cycle's escalation).
   */
  lemma OutOfTurnExactlyWhenCareless(row: ThreadRow, defaults: map<string, int>, actions: seq<Action>)
    requires Sane(row) && FreshClocks(actions, Readings(row))
    ensures EverCanRepeat(Init(row, defaults), Readings(row), actions) <==> !Careful(Init(row, defaults), actions)
    ensures Careful(Init(row, defaults), actions) ==> OncePerCycle(Run(Init(row, defaults), actions).log)
  {
    assert Tracked(Init(row, defaults), Readings(row));
    RepeatsExactlyWhenCareless(Init(row, defaults), Readings(row), actions);
    if Careful(Init(row, defaults), actions) {
      CarefulRunSendsOnce(Init(row, defaults), Readings(row), actions);
    }
  }

  /** Keeping responses away from all checks in flight is one way to be careful. */
  lemma {:induction false} QuietIsCareful(s: State, actions: seq<Action>)
    requires Quiet(s, actions)
    ensures Careful(s, actions)
    decreases |actions|
  {
    if actions != [] { QuietIsCareful(Step(s, actions[0]), actions[1..]); }
  }

  /**
   * The clocks matter. Two checks that read the same millisecond set the same marker, so after
   * a response that endangers nothing the one's claim lets a third check match again, and it
   * repeats an escalation.
   */
  lemma EqualClocksRepeatAnEscalation()
    ensures var row := ThreadRow(false, Some(7), "LOW", 0, 0, None, true);
            Sane(row) && Careful(Init(row, map[]), EQUAL_CLOCKS) && !OncePerCycle(Run(Init(row, map[]), EQUAL_CLOCKS).log)
  {
    EqualClocksFrom(0);
    var log := EqualClocksState(|EQUAL_CLOCKS|).log;
    assert log[1].kind == log[3].kind && log[1].cycle == log[3].cycle;
    assert EQUAL_CLOCKS[0..] == EQUAL_CLOCKS;
  }

  const EQUAL_CLOCKS := [
    Read(1, 5 * HOUR_MS, []), Activity(HOUR_MS), Read(2, 5 * HOUR_MS, []), Commit(2),
    Read(3, 9 * HOUR_MS, [1]), Read(4, 9 * HOUR_MS + 1, [1]), Commit(3), Respond(10 * HOUR_MS), Commit(1), Commit(4)]

  /** The state before the i-th step. */
  function EqualClocksState(i: nat): State {
    var row0 := ThreadRow(false, Some(7), "LOW", 0, 0, None, true);
    var row1 := row0.(activityAt := HOUR_MS);
    var row2 := row1.(level := 1, escalatedAt := Some(5 * HOUR_MS));
    var row3 := row1.(level := 2, escalatedAt := Some(9 * HOUR_MS));
    var row4 := row0.(activityAt := 10 * HOUR_MS);
    var row5 := row4.(level := 1, escalatedAt := Some(5 * HOUR_MS));
    var c1, c2 := Check(row0, 5 * HOUR_MS, [], false), Check(row1, 5 * HOUR_MS, [], false);
    var c3, c4 := Check(row2, 9 * HOUR_MS, [1], false), Check(row2, 9 * HOUR_MS + 1, [1], false);
    var warned, escalated := Alert(Warning, HOUR_MS, [7]), Alert(Escalated, HOUR_MS, [1]);
    if i == 0 then State(row0, map[], [], map[])
    else if i == 1 then State(row0, map[1 := c1], [], map[])
    else if i == 2 then State(row1, map[1 := c1], [], map[])
    else if i == 3 then State(row1, map[1 := c1, 2 := c2], [], map[])
    else if i == 4 then State(row2, map[1 := c1], [warned], map[])
    else if i == 5 then State(row2, map[1 := c1, 3 := c3], [warned], map[])
    else if i == 6 then State(row2, map[1 := c1, 3 := c3, 4 := c4], [warned], map[])
    else if i == 7 then State(row3, map[1 := c1, 4 := c4], [warned, escalated], map[])
    else if i == 8 then State(row4, map[1 := c1, 4 := c4], [warned, escalated], map[])
    else if i == 9 then State(row5, map[4 := c4], [warned, escalated, Alert(Warning, 0, [7])], map[])
    else State(row5.(level := 2, escalatedAt := Some(9 * HOUR_MS + 1)), map[], [warned, escalated, Alert(Warning, 0, [7]), escalated], map[])
  }

  lemma EqualClocksStart(i: nat)
    requires 0 <= i < 4
    ensures Step(EqualClocksState(i), EQUAL_CLOCKS[i]) == EqualClocksState(i + 1)
    ensures Resets(EqualClocksState(i), EQUAL_CLOCKS[i]) ==> !Dangerous(EqualClocksState(i))
  {
  }

  lemma EqualClocksMiddle(i: nat)
    requires 4 <= i < 7
    ensures Step(EqualClocksState(i), EQUAL_CLOCKS[i]) == EqualClocksState(i + 1)
    ensures Resets(EqualClocksState(i), EQUAL_CLOCKS[i]) ==> !Dangerous(EqualClocksState(i))
  {
  }

  lemma EqualClocksEnd(i: nat)
    requires 7 <= i < |EQUAL_CLOCKS|
    ensures Step(EqualClocksState(i), EQUAL_CLOCKS[i]) == EqualClocksState(i + 1)
    ensures Resets(EqualClocksState(i), EQUAL_CLOCKS[i]) ==> !Dangerous(EqualClocksState(i))
  {
  }

  lemma {:induction false} EqualClocksFrom(i: nat)
    requires i <= |EQUAL_CLOCKS|
    ensures Run(EqualClocksState(i), EQUAL_CLOCKS[i..]) == EqualClocksState(|EQUAL_CLOCKS|)
    ensures Careful(EqualClocksState(i), EQUAL_CLOCKS[i..])
    decreases |EQUAL_CLOCKS| - i
  {
    if i < |EQUAL_CLOCKS| {
      if i < 4 { EqualClocksStart(i); } else if i < 7 { EqualClocksMiddle(i); } else { EqualClocksEnd(i); }
      EqualClocksFrom(i + 1);
      assert EQUAL_CLOCKS[i..][1..] == EQUAL_CLOCKS[i + 1..];
    }
  }
}
