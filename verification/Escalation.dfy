/**
 * Thread SLA escalation (src/jobs/escalation.js).
 *
 * The level a thread reached is an optimistic marker (`level`, `escalatedAt`) that
 * checks claim by compare-and-set on `escalatedAt`. Checks work from snapshots that may
 * be arbitrarily old, with arbitrary clocks. A *cycle* is named by the activity time the
 * check saw. The theorems below are about every interleaving of checks, activity,
 * responses, failed fan-outs and crashes on one thread.
 */
module Escalation {
  import opened Options

  const HOUR_MS := 3_600_000
  const SLA_WARNING := 1
  const ESCALATION := 2

  datatype ThreadRow = ThreadRow(
    resolved: bool, assignedTo: Option<nat>, priority: string, activityAt: int,
    level: int, escalatedAt: Option<int>, breached: bool)

  datatype Kind = Warning | Escalated | Breach

  /** One fan-out: every recipient gets one notification of this kind for this cycle. */
  datatype Alert = Alert(kind: Kind, cycle: int, recipients: seq<nat>)

  datatype Notification = Notification(user: nat, kind: Kind)

  // ---------------------------------------------------------------- pure decisions

  /** The level already notified in the activity cycle the row is in. */
  function CurrentLevel(t: ThreadRow): int {
    if t.level == 0 || t.escalatedAt.None? then 0
    else if t.activityAt > t.escalatedAt.value then 0
    else t.level
  }

  function SlaHours(defaults: map<string, int>, priority: string): int {
    if priority in defaults && defaults[priority] != 0 then defaults[priority] else 24
  }

  predicate WantsWarning(t: ThreadRow, now: int) {
    4 * HOUR_MS <= now - t.activityAt < 8 * HOUR_MS && t.assignedTo.Some? && CurrentLevel(t) < SLA_WARNING
  }

  predicate WantsEscalation(t: ThreadRow, now: int) {
    now - t.activityAt >= 8 * HOUR_MS && CurrentLevel(t) < ESCALATION
  }

  predicate WantsBreach(t: ThreadRow, now: int, defaults: map<string, int>) {
    now - t.activityAt >= SlaHours(defaults, t.priority) * HOUR_MS && !t.breached
  }

  predicate WantsAnything(t: ThreadRow, now: int, defaults: map<string, int>) {
    !t.resolved && (WantsWarning(t, now) || WantsEscalation(t, now) || WantsBreach(t, now, defaults))
  }

  // ---------------------------------------------------------------- atomic updates

  /** Whether the conditional update of `claimEscalationLevel` finds the row. */
  predicate ClaimMatches(row: ThreadRow, snap: ThreadRow, level: int) {
    && CurrentLevel(snap) < level
    && row.escalatedAt == snap.escalatedAt
    && (CurrentLevel(snap) > 0 ==> row.level < level)
  }

  function ClaimLevel(row: ThreadRow, snap: ThreadRow, level: int, now: int): ThreadRow {
    if ClaimMatches(row, snap, level) then row.(level := level, escalatedAt := Some(now)) else row
  }

  datatype Outcome = Outcome(row: ThreadRow, alerts: seq<Alert>)

  /** The level a check wants to claim, or 0. A warning and an escalation are never both due. */
  function WantedLevel(snap: ThreadRow, now: int, admins: seq<nat>): int {
    if WantsWarning(snap, now) then SLA_WARNING
    else if WantsEscalation(snap, now) && admins != [] then ESCALATION
    else 0
  }

  function ClaimPart(row: ThreadRow, snap: ThreadRow, now: int, admins: seq<nat>): Outcome {
    var level := WantedLevel(snap, now, admins);
    if level == 0 || !ClaimMatches(row, snap, level) then Outcome(row, [])
    else if level == SLA_WARNING then
      Outcome(ClaimLevel(row, snap, level, now), [Alert(Warning, snap.activityAt, [snap.assignedTo.value])])
    else
      Outcome(ClaimLevel(row, snap, level, now), [Alert(Escalated, snap.activityAt, admins)])
  }

  function BreachPart(row: ThreadRow, snap: ThreadRow, now: int, admins: seq<nat>, defaults: map<string, int>): Outcome {
    if WantsBreach(snap, now, defaults) && admins != [] && !row.breached then
      Outcome(row.(breached := true), [Alert(Breach, snap.activityAt, admins)])
    else Outcome(row, [])
  }

  /** The committed effect of one check: the claim, then the breach marker. */
  function CheckEffect(row: ThreadRow, snap: ThreadRow, now: int, admins: seq<nat>, defaults: map<string, int>): Outcome {
    var claim := ClaimPart(row, snap, now, admins);
    var breach := BreachPart(claim.row, snap, now, admins, defaults);
    Outcome(breach.row, claim.alerts + breach.alerts)
  }

  function ToEach(recipients: seq<nat>, kind: Kind): (notes: seq<Notification>)
    ensures |notes| == |recipients|
    ensures forall i :: 0 <= i < |notes| ==> notes[i] == Notification(recipients[i], kind)
  {
    seq(|recipients|, i requires 0 <= i < |recipients| => Notification(recipients[i], kind))
  }

  /** The notification rows of a sequence of fan-outs, in order. */
  function Notifications(alerts: seq<Alert>): seq<Notification> {
    if alerts == [] then [] else ToEach(alerts[0].recipients, alerts[0].kind) + Notifications(alerts[1..])
  }

  lemma {:induction false} NotificationsOfTwo(a: seq<Alert>, b: seq<Alert>)
    requires |a| <= 1 && |b| <= 1
    ensures Notifications(a + b) == Notifications(a) + Notifications(b)
  {
    if a == [] {
      assert a + b == b;
    } else {
      assert (a + b)[1..] == b && a[1..] == [];
    }
  }

  // ---------------------------------------------------------------- the job's own code

  /** The thread row and the two functions of the job that write it. */
  class ThreadStore {
    var row: ThreadRow

    constructor (initial: ThreadRow)
      ensures row == initial
    {
      row := initial;
    }

    method ClaimEscalationLevel(thread: ThreadRow, level: int, now: int) returns (claimed: bool)
      modifies this
      ensures claimed == ClaimMatches(old(row), thread, level)
      ensures row == ClaimLevel(old(row), thread, level, now)
      ensures var notified := if thread.level == 0 || thread.escalatedAt.None? || thread.activityAt > thread.escalatedAt.value then 0 else thread.level;
              claimed <==> notified < level && old(row).escalatedAt == thread.escalatedAt && (notified > 0 ==> old(row).level < level)
      ensures row == if claimed then old(row).(level := level, escalatedAt := Some(now)) else old(row)
    {
      var alreadyClaimed := CurrentLevel(thread);
      if alreadyClaimed >= level {
        return false;
      }
      var found := row.escalatedAt == thread.escalatedAt;
      if alreadyClaimed > 0 {
        found := found && row.level < level;
      }
      if found {
        row := row.(level := level, escalatedAt := Some(now));
      }
      return found;
    }

    /** `checkThreadEscalation` with the thread already read: one transaction of claims and notifications. */
    method CheckThread(thread: ThreadRow, now: int, admins: seq<nat>, defaults: map<string, int>)
      returns (pending: seq<Notification>)
      modifies this
      ensures !WantsAnything(thread, now, defaults) ==> row == old(row) && pending == []
      ensures WantsAnything(thread, now, defaults) ==>
                row == CheckEffect(old(row), thread, now, admins, defaults).row &&
                pending == Notifications(CheckEffect(old(row), thread, now, admins, defaults).alerts)
    {
      pending := [];
      if thread.resolved {
        return;
      }
      var wantsWarning := WantsWarning(thread, now);
      var wantsEscalation := WantsEscalation(thread, now);
      var wantsBreach := WantsBreach(thread, now, defaults);
      if !wantsWarning && !wantsEscalation && !wantsBreach {
        return;
      }
      ghost var claim := ClaimPart(row, thread, now, admins);
      ghost var breach := BreachPart(claim.row, thread, now, admins, defaults);
      if wantsWarning {
        var claimed := ClaimEscalationLevel(thread, SLA_WARNING, now);
        if claimed {
          pending := pending + [Notification(thread.assignedTo.value, Warning)];
        }
      }
      if wantsEscalation && |admins| > 0 {
        var claimed := ClaimEscalationLevel(thread, ESCALATION, now);
        if claimed {
          pending := PushAll(pending, admins, Escalated);
        }
      }
      assert row == claim.row && pending == Notifications(claim.alerts);
      if wantsBreach && |admins| > 0 && !row.breached {
        row := row.(breached := true);
        pending := PushAll(pending, admins, Breach);
      }
      NotificationsOfTwo(claim.alerts, breach.alerts);
    }

    static method PushAll(pending: seq<Notification>, admins: seq<nat>, kind: Kind) returns (more: seq<Notification>)
      ensures more == pending + ToEach(admins, kind)
    {
      more := pending;
      for i := 0 to |admins|
        invariant more == pending + ToEach(admins[..i], kind)
      {
        more := more + [Notification(admins[i], kind)];
        assert ToEach(admins[..i + 1], kind) == ToEach(admins[..i], kind) + [Notification(admins[i], kind)];
      }
      assert admins[..|admins|] == admins;
    }
  }

  // ---------------------------------------------------------------- all interleavings

  /** A check in flight: what it read, its clock, the admins it saw, and whether its claim already missed. */
  datatype Check = Check(snap: ThreadRow, now: int, admins: seq<nat>, claimMissed: bool)

  datatype State = State(row: ThreadRow, checks: map<nat, Check>, log: seq<Alert>, defaults: map<string, int>)

  datatype Action =
    | Read(pid: nat, now: int, admins: seq<nat>)
    | ClaimMiss(pid: nat)
    | Commit(pid: nat)
    | Abort(pid: nat)
    | Activity(at: int)
    | Respond(at: int)
    | Retriage(resolved: bool, assignedTo: Option<nat>, priority: string)

  function Init(row: ThreadRow, defaults: map<string, int>): State {
    State(row, map[], [], defaults)
  }

  function Apply(s: State, c: Check): Outcome {
    if c.claimMissed then BreachPart(s.row, c.snap, c.now, c.admins, s.defaults)
    else CheckEffect(s.row, c.snap, c.now, c.admins, s.defaults)
  }

  /**
   * One atomic step. A claim that matches locks the row until its transaction ends, so the
   * transaction is one step (`Commit`); a claim that matches nothing locks nothing, and the
   * breach statement may come later (`ClaimMiss`, then `Commit`).
   */
  function Step(s: State, a: Action): State {
    match a
    case Read(pid, now, admins) =>
      if pid !in s.checks && WantsAnything(s.row, now, s.defaults)
      then s.(checks := s.checks[pid := Check(s.row, now, admins, false)]) else s
    case ClaimMiss(pid) =>
      if pid in s.checks && !s.checks[pid].claimMissed &&
         ClaimPart(s.row, s.checks[pid].snap, s.checks[pid].now, s.checks[pid].admins).alerts == []
      then s.(checks := s.checks[pid := s.checks[pid].(claimMissed := true)]) else s
    case Commit(pid) =>
      if pid in s.checks then
        var done := Apply(s, s.checks[pid]);
        s.(row := done.row, checks := s.checks - {pid}, log := s.log + done.alerts)
      else s
    case Abort(pid) => s.(checks := s.checks - {pid})
    case Activity(at) => if at > s.row.activityAt then s.(row := s.row.(activityAt := at)) else s
    case Respond(at) =>
      if at > s.row.activityAt then s.(row := s.row.(activityAt := at, level := 0, escalatedAt := None)) else s
    case Retriage(resolved, assignedTo, priority) =>
      s.(row := s.row.(resolved := resolved, assignedTo := assignedTo, priority := priority))
  }

  function Run(s: State, actions: seq<Action>): State
    decreases |actions|
  {
    if actions == [] then s else Run(Step(s, actions[0]), actions[1..])
  }

  /** A marker the job could have written: level and time go together, and a warning is under 8 hours old. */
  predicate Sane(row: ThreadRow) {
    && 0 <= row.level <= 2
    && (row.level >= 1 <==> row.escalatedAt.Some?)
    && (row.level == 1 ==> row.escalatedAt.value < row.activityAt + 8 * HOUR_MS)
  }

  predicate NoClaimSince(row: ThreadRow, snap: ThreadRow) {
    row.escalatedAt == snap.escalatedAt
  }

  /** `row` remembers alert `e` if e belongs to its cycle. */
  predicate Remembers(row: ThreadRow, e: Alert) {
    e.kind != Breach && e.cycle == row.activityAt ==>
      && row.escalatedAt.Some? && row.escalatedAt.value >= e.cycle + 4 * HOUR_MS
      && (e.kind == Escalated ==> row.level == 2)
  }

  ghost predicate SnapshotOk(s: State, c: Check) {
    && Sane(c.snap)
    && c.snap.activityAt <= s.row.activityAt
    && (NoClaimSince(s.row, c.snap) || (s.row.escalatedAt.Some? &&
          (c.snap.escalatedAt.None? || c.snap.escalatedAt.value < s.row.escalatedAt.value)))
    && (NoClaimSince(s.row, c.snap) ==>
          && s.row.level == c.snap.level
          && forall i :: 0 <= i < |s.log| ==>
               Remembers(c.snap, s.log[i]) && (s.log[i].kind != Breach ==> s.log[i].cycle <= c.snap.activityAt))
  }

  /** Each kind is sent at most once per cycle; a warning of a cycle comes before its escalation; a breach is sent once ever. */
  ghost predicate OncePerCycle(log: seq<Alert>) {
    && (forall i, j :: 0 <= i < j < |log| && log[i].kind == log[j].kind ==>
          log[i].kind != Breach && log[i].cycle != log[j].cycle)
    && (forall i, j :: 0 <= j < i < |log| && log[i].kind == Warning && log[j].kind == Escalated ==>
          log[i].cycle != log[j].cycle)
  }

  ghost predicate Inv(s: State) {
    && Sane(s.row)
    && OncePerCycle(s.log)
    && (forall i :: 0 <= i < |s.log| ==>
          && Remembers(s.row, s.log[i])
          && (s.log[i].kind != Breach ==> s.log[i].cycle <= s.row.activityAt)
          && (s.log[i].kind == Breach ==> s.row.breached))
    && (forall pid :: pid in s.checks ==> SnapshotOk(s, s.checks[pid]))
  }

  /** The 4 and 8 hour thresholds make every claim raise the marker, so the compare-and-set has no ABA. */
  lemma ClaimRaisesMarker(row: ThreadRow, snap: ThreadRow, now: int, admins: seq<nat>)
    requires Sane(snap) && ClaimPart(row, snap, now, admins).alerts != []
    ensures snap.escalatedAt.Some? ==> snap.escalatedAt.value < now
    ensures ClaimPart(row, snap, now, admins).row.escalatedAt == Some(now)
    ensures now >= snap.activityAt + 4 * HOUR_MS
  {
  }

  lemma CommitClaim(s: State, pid: nat)
    requires Inv(s) && pid in s.checks && !s.checks[pid].claimMissed
    ensures var c := s.checks[pid]; var done := ClaimPart(s.row, c.snap, c.now, c.admins);
            Inv(s.(row := done.row, checks := s.checks - {pid}, log := s.log + done.alerts))
  {
    var c := s.checks[pid];
    var done := ClaimPart(s.row, c.snap, c.now, c.admins);
    var s' := s.(row := done.row, checks := s.checks - {pid}, log := s.log + done.alerts);
    if done.alerts == [] {
      assert s'.log == s.log;
      forall q | q in s'.checks ensures SnapshotOk(s', s'.checks[q]) {
        assert SnapshotOk(s, s.checks[q]);
      }
    } else {
      ClaimRaisesMarker(s.row, c.snap, c.now, c.admins);
      assert SnapshotOk(s, c);
      assert forall i :: 0 <= i < |s.log| ==> Remembers(c.snap, s.log[i]);
      ClaimIsOnce(s.log, done.alerts[0], c.snap);
      forall i | 0 <= i < |s'.log| ensures Remembers(s'.row, s'.log[i]) {
        if i < |s.log| {
          assert Remembers(s.row, s.log[i]) && Remembers(c.snap, s.log[i]);
        }
      }
      forall q | q in s'.checks ensures SnapshotOk(s', s'.checks[q]) {
        assert SnapshotOk(s, s.checks[q]);
      }
    }
  }

  /** A snapshot that remembers the log and still owes an alert to its cycle adds one whose turn it is. */
  lemma ClaimIsOnce(log: seq<Alert>, e: Alert, snap: ThreadRow)
    requires OncePerCycle(log) && e.kind != Breach && e.cycle == snap.activityAt
    requires forall i :: 0 <= i < |log| ==> Remembers(snap, log[i])
    requires CurrentLevel(snap) < (if e.kind == Warning then SLA_WARNING else ESCALATION) && Sane(snap)
    ensures OncePerCycle(log + [e])
  {
    var log' := log + [e];
    assert forall i :: 0 <= i < |log| ==> log'[i] == log[i] && Remembers(snap, log[i]);
  }

  lemma CommitBreach(s: State, c: Check)
    requires Inv(s)
    ensures var done := BreachPart(s.row, c.snap, c.now, c.admins, s.defaults);
            Inv(s.(row := done.row, log := s.log + done.alerts))
  {
    var done := BreachPart(s.row, c.snap, c.now, c.admins, s.defaults);
    var s' := s.(row := done.row, log := s.log + done.alerts);
    assert forall i :: 0 <= i < |s.log| ==> s'.log[i] == s.log[i];
    assert forall i :: |s.log| <= i < |s'.log| ==> s'.log[i].kind == Breach && !s.row.breached;
    forall q | q in s'.checks ensures SnapshotOk(s', s'.checks[q]) {
      assert SnapshotOk(s, s.checks[q]);
    }
  }

  /** Steps of the checks that leave the row and the log alone. */
  lemma CheckBookkeeping(s: State, a: Action)
    requires Inv(s) && (a.Read? || a.ClaimMiss? || a.Abort?)
    ensures Inv(Step(s, a))
  {
    var s' := Step(s, a);
    assert s'.row == s.row && s'.log == s.log;
    forall q | q in s'.checks ensures SnapshotOk(s', s'.checks[q]) {
      if q in s.checks {
        assert SnapshotOk(s, s.checks[q]);
      }
    }
  }

  lemma CommitKeepsInv(s: State, pid: nat)
    requires Inv(s) && pid in s.checks
    ensures Inv(Step(s, Commit(pid)))
  {
    var c := s.checks[pid];
    if c.claimMissed {
      var rest := s.(checks := s.checks - {pid});
      forall q | q in rest.checks ensures SnapshotOk(rest, rest.checks[q]) {
        assert SnapshotOk(s, s.checks[q]);
      }
      CommitBreach(rest, c);
    } else {
      var claim := ClaimPart(s.row, c.snap, c.now, c.admins);
      CommitClaim(s, pid);
      var mid := s.(row := claim.row, checks := s.checks - {pid}, log := s.log + claim.alerts);
      CommitBreach(mid, c);
      var breach := BreachPart(claim.row, c.snap, c.now, c.admins, s.defaults);
      assert s.log + (claim.alerts + breach.alerts) == s.log + claim.alerts + breach.alerts;
    }
  }

  /** Writers of the other columns: a message, a response with no check in flight, a triage change. */
  lemma OtherWritersKeepInv(s: State, a: Action)
    requires Inv(s) && (a.Activity? || a.Retriage? || (a.Respond? && s.checks == map[]))
    ensures Inv(Step(s, a))
  {
    var s' := Step(s, a);
    forall q | q in s'.checks ensures SnapshotOk(s', s'.checks[q]) {
      assert SnapshotOk(s, s.checks[q]);
    }
    forall i | 0 <= i < |s'.log| ensures Remembers(s'.row, s'.log[i]) {
      assert Remembers(s.row, s.log[i]);
    }
  }

  lemma StepKeepsInv(s: State, a: Action)
    requires Inv(s)
    requires a.Respond? ==> s.checks == map[]
    ensures Inv(Step(s, a))
  {
    if a.Commit? {
      if a.pid in s.checks { CommitKeepsInv(s, a.pid); }
    } else if a.Read? || a.ClaimMiss? || a.Abort? {
      CheckBookkeeping(s, a);
    } else {
      OtherWritersKeepInv(s, a);
    }
  }

  /** No check holds a snapshot while a response resets the marker. */
  predicate Quiet(s: State, actions: seq<Action>)
    decreases |actions|
  {
    actions == [] ||
    ((actions[0].Respond? ==> s.checks == map[]) && Quiet(Step(s, actions[0]), actions[1..]))
  }

  lemma {:induction false} RunKeepsInv(s: State, actions: seq<Action>)
    requires Inv(s) && Quiet(s, actions)
    ensures Inv(Run(s, actions))
    decreases |actions|
  {
    if actions != [] {
      StepKeepsInv(s, actions[0]);
      RunKeepsInv(Step(s, actions[0]), actions[1..]);
    }
  }

  /** At most one alert of each kind per cycle, in every interleaving whose responses find no check in flight. */
  lemma AtMostOncePerCycle(row: ThreadRow, defaults: map<string, int>, actions: seq<Action>)
    requires Sane(row) && Quiet(Init(row, defaults), actions)
    ensures OncePerCycle(Run(Init(row, defaults), actions).log)
  {
    RunKeepsInv(Init(row, defaults), actions);
  }

  /** A response that resets the marker to null under a check in flight lets that check repeat a warning. */
  lemma ResponseUnderACheckRepeatsAWarning()
    ensures var row := ThreadRow(false, Some(7), "LOW", 0, 0, None, true);
            var run := [Read(1, 4 * HOUR_MS, []), Read(2, 4 * HOUR_MS, []), Commit(1), Respond(5 * HOUR_MS), Commit(2)];
            Sane(row) && Run(Init(row, map[]), run).log == [Alert(Warning, 0, [7]), Alert(Warning, 0, [7])]
  {
    var row := ThreadRow(false, Some(7), "LOW", 0, 0, None, true);
    var run := [Read(1, 4 * HOUR_MS, []), Read(2, 4 * HOUR_MS, []), Commit(1), Respond(5 * HOUR_MS), Commit(2)];
    var s0 := Init(row, map[]);
    var s1 := Step(s0, run[0]);
    var s2 := Step(s1, run[1]);
    var s3 := Step(s2, run[2]);
    var s4 := Step(s3, run[3]);
    var s5 := Step(s4, run[4]);
    assert s3.log == [Alert(Warning, 0, [7])];
    assert s4.row.escalatedAt == None && 2 in s4.checks && s4.checks[2].snap == row;
    assert s5.log == [Alert(Warning, 0, [7]), Alert(Warning, 0, [7])];
    RunSplit(s4, run[4], []);
    RunSplit(s3, run[3], [run[4]]);
    RunSplit(s2, run[2], [run[3], run[4]]);
    RunSplit(s1, run[1], [run[2], run[3], run[4]]);
    RunSplit(s0, run[0], [run[1], run[2], run[3], run[4]]);
  }

  lemma {:induction false} RunSplit(s: State, first: Action, rest: seq<Action>)
    ensures Run(s, [first] + rest) == Run(Step(s, first), rest)
  {
    assert ([first] + rest)[1..] == rest;
  }

  lemma UndisturbedRun(row: ThreadRow, pid: nat, now: int, admins: seq<nat>, defaults: map<string, int>)
    requires Sane(row) && !row.resolved
    ensures var s := Run(Init(row, defaults), [Read(pid, now, admins), Commit(pid)]);
            var done := CheckEffect(row, row, now, admins, defaults);
            s.row == done.row && s.log == done.alerts
  {
    var s0 := Init(row, defaults);
    var run := [Read(pid, now, admins), Commit(pid)];
    var s1 := Step(s0, run[0]);
    var s2 := Step(s1, run[1]);
    RunSplit(s1, run[1], []);
    RunSplit(s0, run[0], [run[1]]);
    assert run == [run[0]] + [run[1]] && [run[1]] == [run[1]] + [];
    assert Run(s0, run) == Run(s2, []);
  }

  /** The level of the row's own activity cycle: activity after the marker starts a new one. */
  lemma LevelOfTheCycle(row: ThreadRow)
    requires Sane(row)
    ensures CurrentLevel(row) == if row.level >= 1 && row.activityAt <= row.escalatedAt.value then row.level else 0
  {
  }

  /**
   * Nothing is lost either: an undisturbed check sends exactly what its cycle still owes, a
   * warning from 4 to 8 hours, an escalation from 8, a breach from the priority's own hours,
   * which are 24 unless set. `notified` is the level its cycle has reached.
   */
  lemma UndisturbedCheckDelivers(row: ThreadRow, pid: nat, now: int, admins: seq<nat>, defaults: map<string, int>)
    requires Sane(row) && !row.resolved
    ensures var s := Run(Init(row, defaults), [Read(pid, now, admins), Commit(pid)]);
            var age, hour := now - row.activityAt, 3_600_000;
            var notified := if row.level >= 1 && row.activityAt <= row.escalatedAt.value then row.level else 0;
            var slaHours := if row.priority in defaults && defaults[row.priority] != 0 then defaults[row.priority] else 24;
            var assignee := if row.assignedTo.Some? then [row.assignedTo.value] else [];
            && (Alert(Warning, row.activityAt, assignee) in s.log
                <==> 4 * hour <= age < 8 * hour && row.assignedTo.Some? && notified == 0)
            && (Alert(Escalated, row.activityAt, admins) in s.log
                <==> age >= 8 * hour && admins != [] && notified < 2)
            && (Alert(Breach, row.activityAt, admins) in s.log
                <==> age >= slaHours * hour && admins != [] && !row.breached)
            && (forall i, j :: 0 <= i < j < |s.log| ==> s.log[i].kind != s.log[j].kind)
            && (forall i :: 0 <= i < |s.log| ==>
                  s.log[i] == Alert(s.log[i].kind, row.activityAt, if s.log[i].kind == Warning then assignee else admins))
            && s.row.breached == (row.breached || exists i :: 0 <= i < |s.log| && s.log[i].kind == Breach)
            && (s.log != [] && s.log[0].kind != Breach ==>
                  s.row.escalatedAt == Some(now) && s.row.level == (if s.log[0].kind == Warning then 1 else 2))
            && (s.log == [] || s.log[0].kind == Breach ==> s.row == row.(breached := s.row.breached))
  {
    LevelOfTheCycle(row);
    UndisturbedRun(row, pid, now, admins, defaults);
    var claim := ClaimPart(row, row, now, admins);
    var breach := BreachPart(claim.row, row, now, admins, defaults);
    assert CheckEffect(row, row, now, admins, defaults).alerts == claim.alerts + breach.alerts;
  }

  /** A resolved thread is left alone. */
  lemma ResolvedThreadsAreNotChecked(s: State, pid: nat, now: int, admins: seq<nat>)
    requires s.row.resolved
    ensures Step(s, Read(pid, now, admins)) == s
  {
  }

  /** Messages and responses move the activity time forward only; a response clears the marker, triage leaves it. */
  lemma OtherWriters(s: State, at: int, resolved: bool, assignedTo: Option<nat>, priority: string)
    ensures var later := at > s.row.activityAt;
            && Step(s, Activity(at)).row == (if later then s.row.(activityAt := at) else s.row)
            && Step(s, Respond(at)).row == (if later then s.row.(activityAt := at, level := 0, escalatedAt := None) else s.row)
            && Step(s, Retriage(resolved, assignedTo, priority)).row == s.row.(resolved := resolved, assignedTo := assignedTo, priority := priority)
  {
  }

  /** A check that fails sends nothing; one whose claim missed still sends a breach that is due and not marked. */
  lemma ChecksThatMissOrFail(s: State, pid: nat)
    requires pid in s.checks
    ensures Step(s, Abort(pid)) == s.(checks := s.checks - {pid})
    ensures s.checks[pid].claimMissed ==>
              var c := s.checks[pid]; var s' := Step(s, Commit(pid));
              var due := WantsBreach(c.snap, c.now, s.defaults) && c.admins != [] && !s.row.breached;
              && s'.log == s.log + (if due then [Alert(Breach, c.snap.activityAt, c.admins)] else [])
              && s'.row == (if due then s.row.(breached := true) else s.row) && s'.checks == s.checks - {pid}
    ensures !s.checks[pid].claimMissed && s.row.escalatedAt != s.checks[pid].snap.escalatedAt ==>
              Step(s, ClaimMiss(pid)) == s.(checks := s.checks[pid := s.checks[pid].(claimMissed := true)])
  {
  }
}
