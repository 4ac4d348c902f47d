/**
 * The monthly budget of an organization's AI connection (src/ai/governance.js): a call checks
 * the recorded spend, goes upstream, then records its cost. Money is in ten-thousandths of a
 * cent. The runs stay within one month.
 */
module AiBudget {
  import opened Options

  /** A usage record: when, and its cost (None for a failed or unpriced call). */
  datatype Usage = Usage(at: int, cost: Option<int>)

  function CostOf(u: Usage): int {
    if u.cost.Some? then u.cost.value else 0
  }

  /** `computeMonthToDateUsage`: the summed cost of the records since the start of the month. */
  function Spent(records: seq<Usage>, since: int): int {
    if records == [] then 0
    else Spent(records[..|records| - 1], since) +
         (if records[|records| - 1].at >= since then CostOf(records[|records| - 1]) else 0)
  }

  lemma SpentAfter(records: seq<Usage>, u: Usage, since: int)
    ensures Spent(records + [u], since) == Spent(records, since) + (if u.at >= since then CostOf(u) else 0)
  {
    assert (records + [u])[..|records|] == records;
  }

  /** Nothing recorded is nothing spent. */
  lemma NothingSpent(since: int)
    ensures Spent([], since) == 0
  {
  }

  class UsageLedger {
    var records: seq<Usage>

    constructor ()
      ensures records == []
    {
      records := [];
    }

    method RecordUsage(u: Usage)
      modifies this
      ensures records == old(records) + [u]
      ensures forall since :: Spent(records, since) ==
                              old(Spent(records, since)) + (if u.at >= since && u.cost.Some? then u.cost.value else 0)
    {
      forall since ensures Spent(records + [u], since) == Spent(records, since) + (if u.at >= since then CostOf(u) else 0) {
        SpentAfter(records, u, since);
      }
      records := records + [u];
    }

    method MonthToDate(since: int) returns (spent: int)
      ensures spent == Spent(records, since)
    {
      spent := 0;
      for i := 0 to |records|
        invariant spent == Spent(records[..i], since)
      {
        assert records[..i + 1][..i] == records[..i];
        if records[i].at >= since && records[i].cost.Some? {
          spent := spent + records[i].cost.value;
        }
      }
      assert records[..|records|] == records;
    }

    /** `assertWithinBudget`: None is the thrown AiBudgetExceededError. */
    method AssertWithinBudget(budget: int, since: int) returns (spent: Option<int>)
      ensures spent == if Spent(records, since) < budget then Some(Spent(records, since)) else None
    {
      var s := MonthToDate(since);
      return if s < budget then Some(s) else None;
    }
  }

  // ---------------------------------------------------------------- concurrent calls

  /** `inFlight` are the calls past their budget check that have not recorded yet. */
  datatype State = State(records: seq<Usage>, inFlight: set<nat>)

  datatype Action =
    | Check(pid: nat)
    | Record(pid: nat, at: int, cost: Option<int>)
    | Crash(pid: nat)

  /** The month, its budget, the most calls at once and the most one call may cost. */
  datatype Limits = Limits(since: int, budget: int, calls: nat, perCall: nat)

  function Step(l: Limits, s: State, a: Action): State {
    match a
    case Check(pid) =>
      if pid !in s.inFlight && |s.inFlight| < l.calls && Spent(s.records, l.since) < l.budget
      then s.(inFlight := s.inFlight + {pid}) else s
    case Record(pid, at, cost) =>
      if pid in s.inFlight && CostOf(Usage(at, cost)) <= l.perCall
      then State(s.records + [Usage(at, cost)], s.inFlight - {pid}) else s
    case Crash(pid) => s.(inFlight := s.inFlight - {pid})
  }

  function Run(l: Limits, s: State, actions: seq<Action>): State
    decreases |actions|
  {
    if actions == [] then s else Run(l, Step(l, s, actions[0]), actions[1..])
  }

  /** A call goes upstream exactly while recorded spend is under the budget; its cost is recorded when it returns. */
  lemma ChecksAndRecords(l: Limits, s: State, pid: nat, at: int, cost: Option<int>)
    requires pid !in s.inFlight && |s.inFlight| < l.calls
    ensures pid in Step(l, s, Check(pid)).inFlight <==> Spent(s.records, l.since) < l.budget
    ensures Step(l, s, Check(pid)).records == s.records
    ensures Spent(s.records, l.since) < l.budget && (cost.Some? ==> cost.value <= l.perCall) ==>
              Step(l, Step(l, s, Check(pid)), Record(pid, at, cost)) == State(s.records + [Usage(at, cost)], s.inFlight)
  {
    assert s.inFlight + {pid} - {pid} == s.inFlight;
  }

  /** Every call in flight still fits: recorded spend plus its worst case stays under the bound. */
  predicate Fits(l: Limits, first: int, s: State) {
    || (s.inFlight == {} && Spent(s.records, l.since) <= first)
    || (|s.inFlight| <= l.calls && Spent(s.records, l.since) + |s.inFlight| * l.perCall < l.budget + l.calls * l.perCall)
  }

  lemma StepKeepsFits(l: Limits, first: int, s: State, a: Action)
    requires Fits(l, first, s)
    ensures Fits(l, first, Step(l, s, a))
  {
    var s' := Step(l, s, a);
    var k, k' := |s.inFlight|, |s'.inFlight|;
    match a
    case Check(pid) =>
      ProductGrows(k', l.calls, l.perCall);
    case Record(pid, at, cost) =>
      SpentAfter(s.records, Usage(at, cost), l.since);
      if s' != s {
        assert k == k' + 1;
        ProductGrows(k' + 1, k, l.perCall);
        assert (k' + 1) * l.perCall == k' * l.perCall + l.perCall;
      }
    case Crash(pid) =>
      assert k' <= k;
      ProductGrows(k', k, l.perCall);
  }

  lemma ProductGrows(j: nat, k: nat, c: nat)
    ensures j <= k ==> j * c <= k * c
  {
  }

  lemma {:induction false} RunKeepsFits(l: Limits, first: int, s: State, actions: seq<Action>)
    requires Fits(l, first, s)
    ensures Fits(l, first, Run(l, s, actions))
    decreases |actions|
  {
    if actions != [] {
      StepKeepsFits(l, first, s, actions[0]);
      RunKeepsFits(l, first, Step(l, s, actions[0]), actions[1..]);
    }
  }

  /**
   * With at most n calls at once, each costing at most C, every interleaving leaves the month's
   * spend where it started or below budget + n * C.
   */
  lemma OverspendIsBounded(l: Limits, records: seq<Usage>, actions: seq<Action>)
    ensures var spent := Spent(Run(l, State(records, {}), actions).records, l.since);
            spent <= Spent(records, l.since) || spent < l.budget + l.calls * l.perCall
  {
    RunKeepsFits(l, Spent(records, l.since), State(records, {}), actions);
    var s := Run(l, State(records, {}), actions);
    assert |s.inFlight| * l.perCall >= 0;
  }

  function Pids(n: nat): (s: set<nat>)
    ensures forall p :: p in s <==> 0 <= p < n
    ensures |s| == n
  {
    if n == 0 then {} else Pids(n - 1) + {n - 1}
  }

  function Checks(n: nat): seq<Action> {
    if n == 0 then [] else Checks(n - 1) + [Check(n - 1)]
  }

  function Records(n: nat, l: Limits): seq<Action> {
    if n == 0 then [] else [Record(n - 1, l.since, Some(l.perCall))] + Records(n - 1, l)
  }

  lemma {:induction false} RunAppend(l: Limits, s: State, before: seq<Action>, after: seq<Action>)
    ensures Run(l, s, before + after) == Run(l, Run(l, s, before), after)
    decreases |before|
  {
    if before == [] {
      assert before + after == after;
    } else {
      assert (before + after)[1..] == before[1..] + after;
      RunAppend(l, Step(l, s, before[0]), before[1..], after);
    }
  }

  lemma {:induction false} AllChecksPass(l: Limits, records: seq<Usage>, n: nat)
    requires n <= l.calls && Spent(records, l.since) < l.budget
    ensures Run(l, State(records, {}), Checks(n)) == State(records, Pids(n))
  {
    if n > 0 {
      AllChecksPass(l, records, n - 1);
      RunAppend(l, State(records, {}), Checks(n - 1), [Check(n - 1)]);
      var s := State(records, Pids(n - 1));
      assert [Check(n - 1)][1..] == [];
      assert Run(l, s, [Check(n - 1)]) == Run(l, Step(l, s, Check(n - 1)), []);
    }
  }

  /** n costs of c, added one by one. */
  function Times(n: nat, c: nat): nat {
    if n == 0 then 0 else Times(n - 1, c) + c
  }

  lemma {:induction false} TimesIsProduct(n: nat, c: nat)
    ensures Times(n, c) == n * c
  {
    if n > 0 {
      TimesIsProduct(n - 1, c);
      assert (n - 1) * c + c == n * c;
    }
  }

  /** The records with n more of the most expensive calls. */
  function Landed(l: Limits, records: seq<Usage>, n: nat): seq<Usage>
    decreases n
  {
    if n == 0 then records else Landed(l, records + [Usage(l.since, Some(l.perCall))], n - 1)
  }

  lemma {:induction false} LandedSpent(l: Limits, records: seq<Usage>, n: nat)
    ensures Spent(Landed(l, records, n), l.since) == Spent(records, l.since) + Times(n, l.perCall)
    decreases n
  {
    if n > 0 {
      SpentAfter(records, Usage(l.since, Some(l.perCall)), l.since);
      LandedSpent(l, records + [Usage(l.since, Some(l.perCall))], n - 1);
    }
  }

  lemma {:induction false} AllRecordsLand(l: Limits, records: seq<Usage>, n: nat)
    ensures Run(l, State(records, Pids(n)), Records(n, l)).records == Landed(l, records, n)
    decreases n
  {
    if n > 0 {
      RecordLands(l, records, n);
      AllRecordsLand(l, records + [Usage(l.since, Some(l.perCall))], n - 1);
    }
  }

  lemma RecordLands(l: Limits, records: seq<Usage>, n: nat)
    requires n > 0
    ensures Run(l, State(records, Pids(n)), Records(n, l))
            == Run(l, State(records + [Usage(l.since, Some(l.perCall))], Pids(n - 1)), Records(n - 1, l))
  {
    var a := Record(n - 1, l.since, Some(l.perCall));
    assert Pids(n) - {n - 1} == Pids(n - 1);
    assert Step(l, State(records, Pids(n)), a) == State(records + [Usage(l.since, Some(l.perCall))], Pids(n - 1));
    assert ([a] + Records(n - 1, l))[1..] == Records(n - 1, l);
  }

  /** The bound is the best possible: from one unit under budget, n simultaneous calls spend exactly n * C more. */
  lemma OverspendIsReached(l: Limits, records: seq<Usage>)
    requires Spent(records, l.since) == l.budget - 1
    ensures Spent(Run(l, State(records, {}), Checks(l.calls) + Records(l.calls, l)).records, l.since)
            == l.budget + l.calls * l.perCall - 1
  {
    AllChecksPass(l, records, l.calls);
    RunAppend(l, State(records, {}), Checks(l.calls), Records(l.calls, l));
    AllRecordsLand(l, records, l.calls);
    LandedSpent(l, records, l.calls);
    TimesIsProduct(l.calls, l.perCall);
  }
}
