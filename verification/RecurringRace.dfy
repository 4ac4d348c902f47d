/**
 * Competing recurring-invoice workers on one source (src/jobs/recurring-invoices.js): each
 * reads the due row with its own clock, then claims it by compare-and-set on the next date.
 * The calendar is abstract in the interleaving argument and instantiated at the end.
 */
module RecurringRace {
  import opened Options
  import opened RecurringDates

  /** Dates with a time value, the source's k-th boundary, and the index of the next boundary after a moment. */
  datatype Calendar<!D(!new)> = Calendar(time: D -> int, boundary: int -> D, index: D -> int)

  ghost predicate Lawful<D(!new)>(c: Calendar<D>) {
    && (forall j, k :: j < k ==> c.time(c.boundary(j)) < c.time(c.boundary(k)))
    && (forall now: D :: c.index(now) >= 1)
    && (forall now: D, k :: k >= 1 ==> (c.time(c.boundary(k)) > c.time(now) <==> k >= c.index(now)))
  }

  function Next<D(!new)>(c: Calendar<D>, now: D): D {
    c.boundary(c.index(now))
  }

  datatype Row<D> = Row(isRecurring: bool, issued: bool, nextDate: Option<D>)

  /** One committed copy: the date it was due on, the next date it set, and the worker's clock. */
  datatype Copy<D> = Copy(due: D, next: D, now: D)

  datatype Worker<D> = Worker(seen: D, now: D)

  datatype State<D> = State(row: Row<D>, workers: map<nat, Worker<D>>, copies: seq<Copy<D>>)

  datatype Action<D> =
    | Read(pid: nat, now: D)
    | Commit(pid: nat)
    | Abort(pid: nat)
    | SetStatus(isRecurring: bool, issued: bool)

  /** `Abort` is a serialization conflict, a failed insert or a crash: the transaction rolls back. */
  function Step<D(==,!new)>(c: Calendar<D>, s: State<D>, a: Action<D>): State<D> {
    match a
    case Read(pid, now) =>
      if pid !in s.workers && s.row.isRecurring && s.row.issued && s.row.nextDate.Some? && c.time(s.row.nextDate.value) <= c.time(now)
      then s.(workers := s.workers[pid := Worker(s.row.nextDate.value, now)]) else s
    case Commit(pid) =>
      if pid !in s.workers then s
      else
        var w := s.workers[pid];
        if s.row.isRecurring && s.row.issued && s.row.nextDate == Some(w.seen) then
          State(s.row.(nextDate := Some(Next(c, w.now))), s.workers - {pid}, s.copies + [Copy(w.seen, Next(c, w.now), w.now)])
        else s.(workers := s.workers - {pid})
    case Abort(pid) => s.(workers := s.workers - {pid})
    case SetStatus(isRecurring, issued) => s.(row := s.row.(isRecurring := isRecurring, issued := issued))
  }

  function Run<D(==,!new)>(c: Calendar<D>, s: State<D>, actions: seq<Action<D>>): State<D>
    decreases |actions|
  {
    if actions == [] then s else Run(c, Step(c, s, actions[0]), actions[1..])
  }

  /** Copies follow each other: each was due on the date the one before set, no later than its worker's clock. */
  ghost predicate Chained<D(!new)>(c: Calendar<D>, copies: seq<Copy<D>>) {
    && (forall i :: 0 <= i < |copies| ==> c.time(copies[i].due) <= c.time(copies[i].now) < c.time(copies[i].next))
    && (forall i :: 0 < i < |copies| ==> copies[i].due == copies[i - 1].next)
  }

  /** `date` is a boundary at or after the k-th. */
  ghost predicate BoundaryFrom<D(!new)>(c: Calendar<D>, k: int, date: D) {
    exists m :: m >= k && date == c.boundary(m)
  }

  ghost predicate OnSchedule<D(!new)>(c: Calendar<D>, j: int, s: State<D>) {
    && Chained(c, s.copies)
    && (s.copies != [] ==> s.row.nextDate == Some(s.copies[|s.copies| - 1].next))
    && s.row.nextDate.Some? && BoundaryFrom(c, j + |s.copies|, s.row.nextDate.value)
    && (forall i :: 0 <= i < |s.copies| ==> BoundaryFrom(c, j + i, s.copies[i].due))
    && (forall pid :: pid in s.workers ==> c.time(s.workers[pid].seen) <= c.time(s.workers[pid].now))
  }

  /** The next date after a claim is a later boundary than the one it was due on, and after the worker's clock. */
  lemma ClaimAdvances<D(!new)>(c: Calendar<D>, k: int, due: D, now: D)
    requires Lawful(c) && k >= 1 && BoundaryFrom(c, k, due) && c.time(due) <= c.time(now)
    ensures BoundaryFrom(c, k + 1, Next(c, now)) && c.time(now) < c.time(Next(c, now))
  {
    var m :| m >= k && due == c.boundary(m);
    assert c.time(c.boundary(m)) > c.time(now) <==> m >= c.index(now);
    var first := c.index(now);
    assert c.time(c.boundary(first)) > c.time(now) <==> first >= c.index(now);
    assert first >= k + 1 && Next(c, now) == c.boundary(first);
  }

  lemma ChainGrows<D(!new)>(c: Calendar<D>, copies: seq<Copy<D>>, copy: Copy<D>)
    requires Chained(c, copies) && c.time(copy.due) <= c.time(copy.now) < c.time(copy.next)
    requires copies != [] ==> copy.due == copies[|copies| - 1].next
    ensures Chained(c, copies + [copy])
  {
  }

  lemma CommitKeepsSchedule<D(!new)>(c: Calendar<D>, j: int, s: State<D>, pid: nat)
    requires Lawful(c) && OnSchedule(c, j, s) && j >= 1 && pid in s.workers
    requires s.row.isRecurring && s.row.issued && s.row.nextDate == Some(s.workers[pid].seen)
    ensures OnSchedule(c, j, Step(c, s, Commit(pid)))
  {
    var w := s.workers[pid];
    var s' := Step(c, s, Commit(pid));
    var copy := Copy(w.seen, Next(c, w.now), w.now);
    var n := |s.copies|;
    ClaimAdvances(c, j + n, w.seen, w.now);
    ChainGrows(c, s.copies, copy);
    assert s'.copies == s.copies + [copy] && |s'.copies| == n + 1;
    assert j + n + 1 == j + |s'.copies|;
    forall i | 0 <= i < |s'.copies| ensures BoundaryFrom(c, j + i, s'.copies[i].due) {
      if i < n { assert s'.copies[i] == s.copies[i]; }
    }
  }

  lemma StepKeepsSchedule<D(!new)>(c: Calendar<D>, j: int, s: State<D>, a: Action<D>)
    requires Lawful(c) && OnSchedule(c, j, s) && j >= 1
    ensures OnSchedule(c, j, Step(c, s, a))
  {
    if a.Commit? && a.pid in s.workers && s.row.isRecurring && s.row.issued && s.row.nextDate == Some(s.workers[a.pid].seen) {
      CommitKeepsSchedule(c, j, s, a.pid);
    } else {
      assert Step(c, s, a).copies == s.copies && Step(c, s, a).row.nextDate == s.row.nextDate;
    }
  }

  lemma {:induction false} RunKeepsSchedule<D(!new)>(c: Calendar<D>, j: int, s: State<D>, actions: seq<Action<D>>)
    requires Lawful(c) && OnSchedule(c, j, s) && j >= 1
    ensures OnSchedule(c, j, Run(c, s, actions))
    decreases |actions|
  {
    if actions != [] {
      StepKeepsSchedule(c, j, s, actions[0]);
      RunKeepsSchedule(c, j, Step(c, s, actions[0]), actions[1..]);
    }
  }

  /** Due dates strictly increase: no date is billed twice. */
  lemma {:induction false} ChainIncreases<D(!new)>(c: Calendar<D>, copies: seq<Copy<D>>, i: int, k: int)
    requires Chained(c, copies) && 0 <= i < k < |copies|
    ensures c.time(copies[i].due) < c.time(copies[k].due)
    decreases k - i
  {
    if i + 1 < k { ChainIncreases(c, copies, i, k - 1); }
  }

  /** The last copy of a schedule was due on a boundary that had come by its worker's clock. */
  lemma LastCopyWasDue<D(!new)>(c: Calendar<D>, j: int, s: State<D>)
    requires Lawful(c) && OnSchedule(c, j, s) && s.copies != []
    ensures c.time(c.boundary(j + |s.copies| - 1)) <= c.time(s.copies[|s.copies| - 1].now)
  {
    var n := |s.copies|;
    assert BoundaryFrom(c, j + (n - 1), s.copies[n - 1].due);
    assert c.time(s.copies[n - 1].due) <= c.time(s.copies[n - 1].now);
    EarlierBoundary(c, j + n - 1, s.copies[n - 1].due, s.copies[n - 1].now);
  }

  lemma CopiesWithinBoundaries<D(!new)>(c: Calendar<D>, j: int, row: Row<D>, actions: seq<Action<D>>, latest: D)
    requires Lawful(c) && j >= 1 && row.nextDate == Some(c.boundary(j))
    requires var copies := Run(c, State(row, map[], []), actions).copies;
             forall i :: 0 <= i < |copies| ==> c.time(copies[i].now) <= c.time(latest)
    ensures var copies := Run(c, State(row, map[], []), actions).copies;
            Chained(c, copies) && (copies != [] ==> c.time(c.boundary(j + |copies| - 1)) <= c.time(latest))
  {
    assert BoundaryFrom(c, j, c.boundary(j));
    RunKeepsSchedule(c, j, State(row, map[], []), actions);
    var s := Run(c, State(row, map[], []), actions);
    if s.copies != [] {
      LastCopyWasDue(c, j, s);
    }
  }

  lemma EarlierBoundary<D(!new)>(c: Calendar<D>, k: int, due: D, now: D)
    requires Lawful(c) && BoundaryFrom(c, k, due) && c.time(due) <= c.time(now)
    ensures c.time(c.boundary(k)) <= c.time(now)
  {
    var m :| m >= k && due == c.boundary(m);
    assert m == k || c.time(c.boundary(k)) < c.time(c.boundary(m));
  }

  /** The other columns change at any time, and leave the next date and the copies. */
  lemma StatusEditsKeepTheDate<D(!new)>(c: Calendar<D>, s: State<D>, isRecurring: bool, issued: bool)
    ensures Step(c, s, SetStatus(isRecurring, issued)) == s.(row := Row(isRecurring, issued, s.row.nextDate))
  {
  }

  /** A worker alone copies the source exactly when it recurs, is issued and is due, and moves it on. */
  lemma WorkerAloneCopies<D(!new)>(c: Calendar<D>, s: State<D>, pid: nat, now: D)
    requires pid !in s.workers
    ensures Run(c, s, [Read(pid, now), Commit(pid)])
            == if s.row.isRecurring && s.row.issued && s.row.nextDate.Some? && c.time(s.row.nextDate.value) <= c.time(now)
               then s.(row := s.row.(nextDate := Some(Next(c, now))), copies := s.copies + [Copy(s.row.nextDate.value, Next(c, now), now)])
               else s
  {
    var a, b := Read(pid, now), Commit(pid);
    var s1 := Step(c, s, a);
    var s2 := Step(c, s1, b);
    assert [a, b][1..] == [b] && [b][1..] == [];
    assert Run(c, s, [a, b]) == Run(c, s1, [b]);
    assert Run(c, s1, [b]) == Run(c, s2, []);
    assert s.workers - {pid} == s.workers;
    assert pid in s1.workers ==> s1.workers - {pid} == s.workers;
  }

  // ---------------------------------------------------------------- the job's calendar

  type ValidDate = d: UtcDate | Valid(d) witness UtcDate(1970, 0, 1, 0)

  function CalendarOf(anchor: ValidDate, interval: Interval): Calendar<ValidDate> {
    Calendar<ValidDate>.Calendar(
      (d: ValidDate) => TimeValue(d),
      k => (BoundaryIsValid(anchor, interval, k); Boundary(anchor, interval, k)),
      (now: ValidDate) => FirstIndex(anchor, interval, now))
  }

  lemma CalendarIsLawful(anchor: ValidDate, interval: Interval)
    ensures Lawful(CalendarOf(anchor, interval))
  {
    var c := CalendarOf(anchor, interval);
    forall j, k | j < k ensures c.time(c.boundary(j)) < c.time(c.boundary(k)) {
      BoundariesIncrease(anchor, interval, j, k);
    }
    forall now: ValidDate ensures c.index(now) >= 1 {
      FirstIsAfterAndPreviousIsNot(anchor, interval, now);
    }
    forall now: ValidDate, k | k >= 1 ensures c.time(c.boundary(k)) > c.time(now) <==> k >= c.index(now) {
      BoundaryIsValid(anchor, interval, k);
      FirstRecurringIsLeast(anchor, interval, now, k);
    }
  }

  lemma CalendarIsTheJobs(anchor: ValidDate, interval: Interval, k: int, d: ValidDate)
    ensures var c := CalendarOf(anchor, interval);
            && c.boundary(k) == Boundary(anchor, interval, k) && c.time(d) == TimeValue(d)
            && Next(c, d) == FirstRecurring(anchor, interval, d)
  {
  }

  /**
   * Whatever the workers' clocks and however they race: copies chain strictly forward, and a
   * source first due on its j-th boundary has had n copies by time T only if boundary
   * j + n - 1 had come by T. So there are never more copies than elapsed boundaries.
   */
  lemma NeverMoreCopiesThanBoundaries(
    anchor: ValidDate, interval: Interval, j: int, row: Row<ValidDate>, actions: seq<Action<ValidDate>>, latest: ValidDate)
    requires var c := CalendarOf(anchor, interval);
             && j >= 1 && row.nextDate == Some(c.boundary(j))
             && var copies := Run(c, State(row, map[], []), actions).copies;
                forall i :: 0 <= i < |copies| ==> c.time(copies[i].now) <= c.time(latest)
    ensures var c := CalendarOf(anchor, interval);
            var copies := Run(c, State(row, map[], []), actions).copies;
            Chained(c, copies) && (copies != [] ==> c.time(c.boundary(j + |copies| - 1)) <= c.time(latest))
  {
    CalendarIsLawful(anchor, interval);
    CopiesWithinBoundaries(CalendarOf(anchor, interval), j, row, actions, latest);
  }
}
