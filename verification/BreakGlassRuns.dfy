/**
 * Concurrent issue, revoke and redeem of break-glass grants in one organization. Issuing
 * holds a lock per target, redeeming a lock per organization; the two kinds of transaction
 * interleave freely. Requests read their clock before they wait for a lock.
 */
module BreakGlassRuns {
  import opened Options
  import opened BreakGlass
  import opened FreshIds

  datatype Proc =
    | IssueWaiting(target: UserId, promote: bool, now: int)
    | IssueLocked(target: UserId, promote: bool, now: int)
    | IssueFound(target: UserId, promote: bool, now: int, superseded: set<GrantId>)
    | RedeemWaiting(id: GrantId, now: int, promoted: bool)
    | RedeemLocked(id: GrantId, now: int, promoted: bool)
    | RedeemChecked(id: GrantId, now: int, promoted: bool)

  /** `Promotion` carries the administrators active when it committed; `AdminLeft` is an active one deactivated or demoted. */
  datatype Event =
    | Promotion(user: UserId, admins: set<UserId>)
    | AdminLeft(user: UserId)

  datatype State = State(
    grants: map<GrantId, GrantRow>, users: map<UserId, User>, clock: int,
    targetLocks: map<UserId, nat>, orgLock: Option<nat>, procs: map<nat, Proc>, log: seq<Event>)

  datatype Action =
    | Tick(to: int)
    | StartIssue(pid: nat, target: UserId, promote: bool)
    | StartRedeem(pid: nat, id: GrantId)
    | Next(pid: nat, newId: GrantId)
    | Abort(pid: nat)
    | RevokeGrant(id: GrantId, now: int)
    | Deactivate(user: UserId)
    | Demote(user: UserId, role: Role)

  function Init(users: map<UserId, User>, clock: int): State {
    State(map[], users, clock, map[], None, map[], [])
  }

  function To(s: State, pid: nat, p: Proc): State {
    s.(procs := s.procs[pid := p])
  }

  /** The transaction of `pid` ends: its locks are released. */
  function End(s: State, pid: nat): State {
    s.(procs := s.procs - {pid},
       targetLocks := map t | t in s.targetLocks && s.targetLocks[t] != pid :: s.targetLocks[t],
       orgLock := if s.orgLock == Some(pid) then None else s.orgLock)
  }

  /** What the pre-transaction checks of an issue see. */
  predicate MayIssue(s: State, target: UserId, promote: bool) {
    && target in s.users && !s.users[target].role.Client? && !s.users[target].role.Bot?
    && (s.users[target].role.Admin? || (promote && ActiveAdmins(s.users) == {}))
  }

  /** What the pre-transaction checks of a redemption see. */
  predicate MayRedeem(s: State, id: GrantId) {
    && id in s.grants && Redeemable(s.grants[id], s.clock) && s.grants[id].target in s.users
    && var u := s.users[s.grants[id].target];
       !u.role.Client? && !u.role.Bot? && (u.role.Admin? || (s.grants[id].promote && ActiveAdmins(s.users) == {}))
  }

  function IssueStep(s: State, pid: nat, p: Proc, newId: GrantId): State
    requires p.IssueWaiting? || p.IssueLocked? || p.IssueFound?
  {
    match p
    case IssueWaiting(target, promote, now) =>
      if target in s.targetLocks then s
      else To(s, pid, IssueLocked(target, promote, now)).(targetLocks := s.targetLocks[target := pid])
    case IssueLocked(target, promote, now) =>
      To(s, pid, IssueFound(target, promote, now, Superseded(s.grants, target, now)))
    case IssueFound(target, promote, now, superseded) =>
      if newId in s.grants then s
      else End(s, pid).(grants := RevokeAll(s.grants, superseded, now)[newId := NewGrant(target, promote, now)])
  }

  function RedeemStep(s: State, pid: nat, p: Proc): State
    requires p.RedeemWaiting? || p.RedeemLocked? || p.RedeemChecked?
  {
    match p
    case RedeemWaiting(id, now, promoted) =>
      if s.orgLock.Some? then s else To(s, pid, RedeemLocked(id, now, promoted)).(orgLock := Some(pid))
    case RedeemLocked(id, now, promoted) =>
      if promoted && ActiveAdmins(s.users) != {} then End(s, pid) else To(s, pid, RedeemChecked(id, now, promoted))
    case RedeemChecked(id, now, promoted) =>
      if id in s.grants && Redeemable(s.grants[id], now) && s.grants[id].target in s.users then
        var target := s.grants[id].target;
        End(s, pid).(
          grants := s.grants[id := RedeemRow(s.grants[id], now)],
          users := s.users[target := Restored(s.users[target], promoted)],
          log := if promoted then s.log + [Promotion(target, ActiveAdmins(s.users))] else s.log)
      else End(s, pid)
  }

  function Step(s: State, a: Action): State {
    match a
    case Tick(to) => if to > s.clock then s.(clock := to) else s
    case StartIssue(pid, target, promote) =>
      if pid in s.procs || !MayIssue(s, target, promote) then s else To(s, pid, IssueWaiting(target, promote, s.clock))
    case StartRedeem(pid, id) =>
      if pid in s.procs || !MayRedeem(s, id) then s
      else To(s, pid, RedeemWaiting(id, s.clock, !s.users[s.grants[id].target].role.Admin?))
    case Next(pid, newId) =>
      if pid !in s.procs then s
      else if s.procs[pid].IssueWaiting? || s.procs[pid].IssueLocked? || s.procs[pid].IssueFound?
      then IssueStep(s, pid, s.procs[pid], newId) else RedeemStep(s, pid, s.procs[pid])
    case Abort(pid) => End(s, pid)
    case RevokeGrant(id, now) =>
      if id in s.grants && Open(s.grants[id])
      then s.(grants := s.grants[id := RevokeRow(s.grants[id], now)]) else s
    case Deactivate(user) =>
      if user in s.users then Leave(s, user, s.users[user].(isActive := false)) else s
    case Demote(user, role) =>
      if user in s.users && !role.Admin? then Leave(s, user, s.users[user].(role := role)) else s
  }

  /** The account stops being an active administrator, if it was one. */
  function Leave(s: State, user: UserId, after: User): State {
    s.(users := s.users[user := after], log := if user in ActiveAdmins(s.users) then s.log + [AdminLeft(user)] else s.log)
  }

  function Run(s: State, actions: seq<Action>): State
    decreases |actions|
  {
    if actions == [] then s else Run(Step(s, actions[0]), actions[1..])
  }

  // ---------------------------------------------------------------- one redeemable grant per target

  /** At every time from now on, a target has at most one redeemable grant. */
  ghost predicate OneRedeemable(s: State) {
    forall g, h, t :: g in s.grants && h in s.grants && g != h && s.grants[g].target == s.grants[h].target && t >= s.clock ==>
      !(Redeemable(s.grants[g], t) && Redeemable(s.grants[h], t))
  }

  /** Of two open grants of a target, one had expired when the other was issued. */
  predicate Ordered(g: GrantRow, h: GrantRow) {
    g.target == h.target && Open(g) && Open(h) ==> g.expiresAt <= h.createdAt || h.expiresAt <= g.createdAt
  }

  predicate Holds(s: State, pid: nat, target: UserId) {
    target in s.targetLocks && s.targetLocks[target] == pid
  }

  ghost predicate IssueOk(s: State, pid: nat, p: Proc) {
    && (p.IssueWaiting? || p.IssueLocked? || p.IssueFound? ==> p.now <= s.clock)
    && (p.IssueLocked? || p.IssueFound? ==> Holds(s, pid, p.target))
    && (p.IssueFound? ==> forall g :: g in s.grants && s.grants[g].target == p.target && Redeemable(s.grants[g], p.now) ==> g in p.superseded)
  }

  ghost predicate Issues(s: State) {
    && (forall g :: g in s.grants ==> s.grants[g].createdAt <= s.clock)
    && (forall g, h :: g in s.grants && h in s.grants && g != h ==> Ordered(s.grants[g], s.grants[h]))
    && (forall pid :: pid in s.procs ==> IssueOk(s, pid, s.procs[pid]))
  }

  /** A step that opens no grant: grants only close, locks of other processes stay. */
  lemma ClosingKeepsIssues(s: State, s': State, pid: nat)
    requires Issues(s) && s'.clock >= s.clock
    requires s'.grants.Keys == s.grants.Keys
    requires forall g :: g in s.grants ==>
               && s'.grants[g].target == s.grants[g].target && s'.grants[g].createdAt == s.grants[g].createdAt
               && s'.grants[g].expiresAt == s.grants[g].expiresAt && (Open(s'.grants[g]) ==> Open(s.grants[g]))
    requires forall q :: q in s'.procs && q != pid ==> q in s.procs && s'.procs[q] == s.procs[q]
    requires forall q, t :: q in s.procs && q != pid && Holds(s, q, t) ==> Holds(s', q, t)
    requires pid in s'.procs ==> IssueOk(s', pid, s'.procs[pid])
    ensures Issues(s')
  {
    forall g, h | g in s'.grants && h in s'.grants && g != h ensures Ordered(s'.grants[g], s'.grants[h]) {
      assert Ordered(s.grants[g], s.grants[h]);
    }
    forall q | q in s'.procs ensures IssueOk(s', q, s'.procs[q]) {
      if q != pid {
        assert IssueOk(s, q, s.procs[q]);
      }
    }
  }

  /** The commit of an issue: everything it could clash with is revoked or had already expired. */
  lemma CommitKeepsIssues(s: State, pid: nat, newId: GrantId)
    requires Issues(s) && pid in s.procs && s.procs[pid].IssueFound? && newId !in s.grants
    ensures Issues(IssueStep(s, pid, s.procs[pid], newId))
  {
    var p := s.procs[pid];
    var s' := IssueStep(s, pid, p, newId);
    assert IssueOk(s, pid, p);
    forall g, h | g in s'.grants && h in s'.grants && g != h ensures Ordered(s'.grants[g], s'.grants[h]) {
      if g != newId && h != newId {
        assert Ordered(s.grants[g], s.grants[h]);
      } else {
        var other := if g == newId then h else g;
        assert s'.grants[other] == if other in p.superseded then RevokeRow(s.grants[other], p.now) else s.grants[other];
      }
    }
    forall q | q in s'.procs ensures IssueOk(s', q, s'.procs[q]) {
      assert IssueOk(s, q, s.procs[q]);
      if s.procs[q].IssueFound? {
        assert Holds(s, q, s.procs[q].target) && s.procs[q].target != p.target;
      }
    }
  }

  lemma IssueStepKeepsIssues(s: State, pid: nat, newId: GrantId)
    requires Issues(s) && pid in s.procs && (s.procs[pid].IssueWaiting? || s.procs[pid].IssueLocked? || s.procs[pid].IssueFound?)
    ensures Issues(IssueStep(s, pid, s.procs[pid], newId))
  {
    assert IssueOk(s, pid, s.procs[pid]);
    if s.procs[pid].IssueFound? {
      if newId !in s.grants { CommitKeepsIssues(s, pid, newId); }
    } else {
      ClosingKeepsIssues(s, IssueStep(s, pid, s.procs[pid], newId), pid);
    }
  }

  lemma RedeemStepKeepsIssues(s: State, pid: nat)
    requires Issues(s) && pid in s.procs && (s.procs[pid].RedeemWaiting? || s.procs[pid].RedeemLocked? || s.procs[pid].RedeemChecked?)
    ensures Issues(RedeemStep(s, pid, s.procs[pid]))
  {
    ClosingKeepsIssues(s, RedeemStep(s, pid, s.procs[pid]), pid);
  }

  lemma OtherKeepsIssues(s: State, a: Action)
    requires Issues(s) && !a.Next?
    ensures Issues(Step(s, a))
  {
    var s' := Step(s, a);
    if s' == s {
    } else if a.StartIssue? || a.StartRedeem? || a.Abort? {
      ClosingKeepsIssues(s, s', a.pid);
    } else {
      ClosingKeepsIssues(s, s', Unused(s.procs.Keys));
    }
  }

  lemma StepKeepsIssues(s: State, a: Action)
    requires Issues(s)
    ensures Issues(Step(s, a))
  {
    if !a.Next? {
      OtherKeepsIssues(s, a);
    } else if a.pid in s.procs {
      var p := s.procs[a.pid];
      if p.IssueWaiting? || p.IssueLocked? || p.IssueFound? {
        IssueStepKeepsIssues(s, a.pid, a.newId);
      } else {
        RedeemStepKeepsIssues(s, a.pid);
      }
    }
  }

  lemma {:induction false} RunKeepsIssues(s: State, actions: seq<Action>)
    requires Issues(s)
    ensures Issues(Run(s, actions))
    decreases |actions|
  {
    if actions != [] {
      StepKeepsIssues(s, actions[0]);
      RunKeepsIssues(Step(s, actions[0]), actions[1..]);
    }
  }

  /** In every run, at any time from then on, a target has at most one redeemable grant. */
  lemma AtMostOneRedeemableGrant(users: map<UserId, User>, clock: int, actions: seq<Action>)
    ensures OneRedeemable(Run(Init(users, clock), actions))
  {
    RunKeepsIssues(Init(users, clock), actions);
    var s := Run(Init(users, clock), actions);
    forall g, h, t | g in s.grants && h in s.grants && g != h && s.grants[g].target == s.grants[h].target && t >= s.clock
      ensures !(Redeemable(s.grants[g], t) && Redeemable(s.grants[h], t))
    {
      assert Ordered(s.grants[g], s.grants[h]);
    }
  }

  // ---------------------------------------------------------------- promotions

  /** A promotion commits only with no administrator active, so an administrator left between any two. */
  ghost predicate PromotionsApart(log: seq<Event>) {
    && (forall i :: 0 <= i < |log| && log[i].Promotion? ==> log[i].admins == {})
    && (forall i, j :: 0 <= i < j < |log| && log[i].Promotion? && log[j].Promotion? ==>
          exists m :: i < m < j && log[m].AdminLeft?)
  }

  /** No administrator left since a promotion: then one is still active. */
  ghost predicate AdminStays(s: State) {
    forall i :: 0 <= i < |s.log| && s.log[i].Promotion? && (forall m :: i < m < |s.log| ==> !s.log[m].AdminLeft?) ==>
      ActiveAdmins(s.users) != {}
  }

  predicate RedeemOk(s: State, pid: nat, p: Proc) {
    && (p.RedeemLocked? || p.RedeemChecked? ==> s.orgLock == Some(pid))
    && (p.RedeemChecked? && p.promoted ==> ActiveAdmins(s.users) == {})
  }

  ghost predicate Promotions(s: State) {
    && PromotionsApart(s.log) && AdminStays(s)
    && (forall pid :: pid in s.procs ==> RedeemOk(s, pid, s.procs[pid]))
  }

  lemma RedeemStepKeepsPromotions(s: State, pid: nat)
    requires Promotions(s) && pid in s.procs && (s.procs[pid].RedeemWaiting? || s.procs[pid].RedeemLocked? || s.procs[pid].RedeemChecked?)
    ensures Promotions(RedeemStep(s, pid, s.procs[pid]))
  {
    var p := s.procs[pid];
    var s' := RedeemStep(s, pid, p);
    assert RedeemOk(s, pid, p);
    if s'.users != s.users {
      var target := s.grants[p.id].target;
      assert p.promoted ==> target in ActiveAdmins(s'.users);
      assert ActiveAdmins(s.users) <= ActiveAdmins(s'.users);
      CommitKeepsPromotions(s, s', target);
    }
    forall q | q in s'.procs ensures RedeemOk(s', q, s'.procs[q]) {
      if q != pid { assert RedeemOk(s, q, s.procs[q]); }
    }
  }

  /** The commit of a redemption: a promotion is logged with the administrators it saw. */
  lemma CommitKeepsPromotions(s: State, s': State, user: UserId)
    requires PromotionsApart(s.log) && AdminStays(s)
    requires s'.log == s.log || (s'.log == s.log + [Promotion(user, {})] && ActiveAdmins(s.users) == {} && ActiveAdmins(s'.users) != {})
    requires ActiveAdmins(s.users) <= ActiveAdmins(s'.users)
    ensures PromotionsApart(s'.log) && AdminStays(s')
  {
    if s'.log != s.log {
      var n := |s.log|;
      assert forall i :: 0 <= i < n ==> s'.log[i] == s.log[i];
      forall i, j | 0 <= i < j < |s'.log| && s'.log[i].Promotion? && s'.log[j].Promotion?
        ensures exists m :: i < m < j && s'.log[m].AdminLeft?
      {
        if j < n {
          var m :| i < m < j && s.log[m].AdminLeft?;
          assert s'.log[m].AdminLeft?;
        } else {
          assert !(forall m :: i < m < n ==> !s.log[m].AdminLeft?);
          var m :| i < m < n && s.log[m].AdminLeft?;
          assert s'.log[m].AdminLeft?;
        }
      }
    } else {
      assert forall i :: 0 <= i < |s'.log| && s'.log[i].Promotion? && (forall m :: i < m < |s'.log| ==> !s'.log[m].AdminLeft?) ==>
        ActiveAdmins(s.users) != {};
    }
  }

  lemma DepartureKeepsPromotions(s: State, user: UserId, after: User)
    requires Promotions(s) && user in s.users && !(after.role.Admin? && after.isActive)
    ensures Promotions(Leave(s, user, after))
  {
    var s' := Leave(s, user, after);
    assert ActiveAdmins(s'.users) == ActiveAdmins(s.users) - {user};
    if user in ActiveAdmins(s.users) {
      DepartureIsApart(s.log, user);
    } else {
      assert s'.log == s.log && ActiveAdmins(s'.users) == ActiveAdmins(s.users);
    }
    forall q | q in s'.procs ensures RedeemOk(s', q, s'.procs[q]) {
      assert RedeemOk(s, q, s.procs[q]);
    }
  }

  lemma DepartureIsApart(log: seq<Event>, user: UserId)
    requires PromotionsApart(log)
    ensures var log' := log + [AdminLeft(user)];
            PromotionsApart(log') && log'[|log|].AdminLeft?
  {
    var log' := log + [AdminLeft(user)];
    assert forall i :: 0 <= i < |log| ==> log'[i] == log[i];
    forall i, j | 0 <= i < j < |log'| && log'[i].Promotion? && log'[j].Promotion?
      ensures exists m :: i < m < j && log'[m].AdminLeft?
    {
      var m :| i < m < j && log[m].AdminLeft?;
      assert log'[m].AdminLeft?;
    }
  }

  lemma OtherKeepsPromotions(s: State, a: Action)
    requires Promotions(s) && !a.Deactivate? && !a.Demote?
    requires a.Next? && a.pid in s.procs ==> var p := s.procs[a.pid]; p.IssueWaiting? || p.IssueLocked? || p.IssueFound?
    ensures Promotions(Step(s, a))
  {
    var s' := Step(s, a);
    assert s'.users == s.users && s'.log == s.log;
    forall q | q in s'.procs ensures RedeemOk(s', q, s'.procs[q]) {
      if q in s.procs { assert RedeemOk(s, q, s.procs[q]); }
    }
  }

  lemma {:induction false} RunKeepsPromotions(s: State, actions: seq<Action>)
    requires Promotions(s)
    ensures Promotions(Run(s, actions))
    decreases |actions|
  {
    if actions != [] {
      var a := actions[0];
      if a.Deactivate? {
        if a.user in s.users { DepartureKeepsPromotions(s, a.user, s.users[a.user].(isActive := false)); }
      } else if a.Demote? {
        if a.user in s.users && !a.role.Admin? { DepartureKeepsPromotions(s, a.user, s.users[a.user].(role := a.role)); }
      } else if a.Next? && a.pid in s.procs && (s.procs[a.pid].RedeemWaiting? || s.procs[a.pid].RedeemLocked? || s.procs[a.pid].RedeemChecked?) {
        RedeemStepKeepsPromotions(s, a.pid);
      } else {
        OtherKeepsPromotions(s, a);
      }
      RunKeepsPromotions(Step(s, a), actions[1..]);
    }
  }

  /** In every run, promotions commit only without an active administrator, so two racing redemptions never both promote. */
  lemma RacingRedemptionsNeverBothPromote(users: map<UserId, User>, clock: int, actions: seq<Action>)
    ensures PromotionsApart(Run(Init(users, clock), actions).log)
  {
    RunKeepsPromotions(Init(users, clock), actions);
  }

  // ---------------------------------------------------------------- closing once

  ghost predicate ClosedOneWay(s: State) {
    forall g :: g in s.grants ==> !(s.grants[g].redeemedAt.Some? && s.grants[g].revokedAt.Some?)
  }

  /** Grants are never deleted, a closed one never changes, and what an open one says stays. */
  predicate Kept(g: GrantRow, h: GrantRow) {
    && (!Open(g) ==> h == g)
    && h.target == g.target && h.promote == g.promote && h.createdAt == g.createdAt && h.expiresAt == g.expiresAt
  }

  lemma {:induction false} GrantsCloseOnce(s: State, actions: seq<Action>)
    requires ClosedOneWay(s)
    ensures var t := Run(s, actions);
            && ClosedOneWay(t)
            && forall g :: g in s.grants ==> g in t.grants && Kept(s.grants[g], t.grants[g])
    decreases |actions|
  {
    if actions != [] {
      var s' := Step(s, actions[0]);
      StepClosesOnce(s, actions[0]);
      GrantsCloseOnce(s', actions[1..]);
    }
  }

  lemma StepClosesOnce(s: State, a: Action)
    requires ClosedOneWay(s)
    ensures ClosedOneWay(Step(s, a))
    ensures forall g :: g in s.grants ==> g in Step(s, a).grants && Kept(s.grants[g], Step(s, a).grants[g])
  {
    if a.Next? && a.pid in s.procs {
      var p := s.procs[a.pid];
      if p.IssueWaiting? || p.IssueLocked? || p.IssueFound? {
        IssueClosesOnce(s, a.pid, a.newId);
      } else {
        RedeemClosesOnce(s, a.pid);
      }
    }
  }

  lemma IssueClosesOnce(s: State, pid: nat, newId: GrantId)
    requires ClosedOneWay(s) && pid in s.procs && (s.procs[pid].IssueWaiting? || s.procs[pid].IssueLocked? || s.procs[pid].IssueFound?)
    ensures var t := IssueStep(s, pid, s.procs[pid], newId);
            ClosedOneWay(t) && forall g :: g in s.grants ==> g in t.grants && Kept(s.grants[g], t.grants[g])
  {
  }

  lemma RedeemClosesOnce(s: State, pid: nat)
    requires ClosedOneWay(s) && pid in s.procs && (s.procs[pid].RedeemWaiting? || s.procs[pid].RedeemLocked? || s.procs[pid].RedeemChecked?)
    ensures var t := RedeemStep(s, pid, s.procs[pid]);
            ClosedOneWay(t) && forall g :: g in s.grants ==> g in t.grants && Kept(s.grants[g], t.grants[g])
  {
  }

  // ---------------------------------------------------------------- one request alone

  predicate NoAdminActive(s: State) {
    forall u :: u in s.users ==> !(s.users[u].role.Admin? && s.users[u].isActive)
  }

  /** Whose account may be restored: an administrator's, or a staff member's to promote where no administrator is active. */
  predicate Eligible(s: State, target: UserId, promote: bool) {
    target in s.users && (s.users[target].role.Admin? || (s.users[target].role.Staff? && promote && NoAdminActive(s)))
  }

  /** A grant is issued and redeemed for eligible accounts only; it is redeemed open and before its end. */
  lemma RequestsStartExactlyWhen(s: State, pid: nat, target: UserId, promote: bool, id: GrantId)
    requires pid !in s.procs
    ensures Step(s, StartIssue(pid, target, promote))
            == if Eligible(s, target, promote) then To(s, pid, IssueWaiting(target, promote, s.clock)) else s
    ensures Step(s, StartRedeem(pid, id))
            == if id in s.grants && s.grants[id].redeemedAt.None? && s.grants[id].revokedAt.None? && s.clock < s.grants[id].expiresAt
                  && Eligible(s, s.grants[id].target, s.grants[id].promote)
               then To(s, pid, RedeemWaiting(id, s.clock, s.users[s.grants[id].target].role.Staff?)) else s
  {
    assert forall u :: u in ActiveAdmins(s.users) <==> u in s.users && s.users[u].role.Admin? && s.users[u].isActive;
    assert ActiveAdmins(s.users) == {} <==> NoAdminActive(s);
  }

  lemma {:induction false} RunCons(s: State, a: Action, rest: seq<Action>)
    ensures Run(s, [a] + rest) == Run(Step(s, a), rest)
  {
    assert ([a] + rest)[1..] == rest;
  }

  lemma RunFour(s: State, a: Action, b: Action)
    ensures Run(s, [a, b, b, b]) == Step(Step(Step(Step(s, a), b), b), b)
  {
    assert [a, b, b, b] == [a] + [b, b, b] && [b, b, b] == [b] + [b, b] && [b, b] == [b] + [b] && [b] == [b] + [];
    RunCons(s, a, [b, b, b]);
    RunCons(Step(s, a), b, [b, b]);
    RunCons(Step(Step(s, a), b), b, [b]);
    RunCons(Step(Step(Step(s, a), b), b), b, []);
  }

  /** The target's redeemable grants revoked. */
  function Replaced(grants: map<GrantId, GrantRow>, target: UserId, now: int): map<GrantId, GrantRow> {
    map g | g in grants ::
      if grants[g].target == target && grants[g].redeemedAt.None? && grants[g].revokedAt.None? && grants[g].expiresAt > now
      then grants[g].(revokedAt := Some(now)) else grants[g]
  }

  predicate HoldsNothing(s: State, pid: nat) {
    pid !in s.procs && s.orgLock != Some(pid) && forall t :: t in s.targetLocks ==> s.targetLocks[t] != pid
  }

  lemma EndOfIssue(s: State, pid: nat, target: UserId, p: Proc)
    requires HoldsNothing(s, pid) && target !in s.targetLocks
    ensures End(To(s, pid, p).(targetLocks := s.targetLocks[target := pid]), pid) == s
  {
    var t := To(s, pid, p).(targetLocks := s.targetLocks[target := pid]);
    assert End(t, pid).targetLocks == s.targetLocks && End(t, pid).procs == s.procs;
  }

  /** An issue that nobody disturbs leaves the target's new grant, good for 30 minutes, as its only redeemable one. */
  lemma AloneIssues(s: State, pid: nat, target: UserId, promote: bool, newId: GrantId)
    requires HoldsNothing(s, pid) && target !in s.targetLocks && newId !in s.grants && Eligible(s, target, promote)
    ensures Run(s, [StartIssue(pid, target, promote), Next(pid, newId), Next(pid, newId), Next(pid, newId)])
            == s.(grants := Replaced(s.grants, target, s.clock)[newId := GrantRow(target, promote, s.clock, s.clock + 1_800_000, None, None)])
  {
    var a, b := StartIssue(pid, target, promote), Next(pid, newId);
    RunFour(s, a, b);
    RequestsStartExactlyWhen(s, pid, target, promote, newId);
    var locks := s.targetLocks[target := pid];
    var superseded := Superseded(s.grants, target, s.clock);
    var s2 := To(s, pid, IssueLocked(target, promote, s.clock)).(targetLocks := locks);
    var s3 := To(s, pid, IssueFound(target, promote, s.clock, superseded)).(targetLocks := locks);
    assert Step(Step(s, a), b) == s2 by { Overwritten(s.procs, pid, IssueWaiting(target, promote, s.clock), IssueLocked(target, promote, s.clock)); }
    assert Step(s2, b) == s3 by { Overwritten(s.procs, pid, IssueLocked(target, promote, s.clock), IssueFound(target, promote, s.clock, superseded)); }
    EndOfIssue(s, pid, target, IssueFound(target, promote, s.clock, superseded));
    assert RevokeAll(s.grants, superseded, s.clock) == Replaced(s.grants, target, s.clock);
  }

  lemma Overwritten(procs: map<nat, Proc>, pid: nat, p: Proc, q: Proc)
    ensures procs[pid := p][pid := q] == procs[pid := q]
    ensures pid !in procs ==> procs[pid := p] - {pid} == procs
  {
  }

  lemma EndOfRedeem(s: State, pid: nat, p: Proc)
    requires HoldsNothing(s, pid) && s.orgLock.None?
    ensures End(To(s, pid, p).(orgLock := Some(pid)), pid) == s
  {
    var t := To(s, pid, p).(orgLock := Some(pid));
    assert End(t, pid).targetLocks == s.targetLocks && End(t, pid).procs == s.procs;
  }

  /** Its last step, with the locks held and the check made. */
  lemma RedeemCommits(s: State, pid: nat, id: GrantId, promoted: bool)
    requires HoldsNothing(s, pid) && s.orgLock.None?
    requires id in s.grants && Redeemable(s.grants[id], s.clock) && s.grants[id].target in s.users
    ensures var target := s.grants[id].target; var u := s.users[target];
            Step(To(s, pid, RedeemChecked(id, s.clock, promoted)).(orgLock := Some(pid)), Next(pid, id))
            == s.(grants := s.grants[id := s.grants[id].(redeemedAt := Some(s.clock))],
                  users := s.users[target := User(if promoted then Admin else u.role, true, false, u.sessionVersion + 1)],
                  log := if promoted then s.log + [Promotion(target, ActiveAdmins(s.users))] else s.log)
  {
    EndOfRedeem(s, pid, RedeemChecked(id, s.clock, promoted));
  }

  /** A redemption that nobody disturbs closes the grant and restores the account as an administrator. */
  lemma AloneRedeems(s: State, pid: nat, id: GrantId)
    requires HoldsNothing(s, pid) && s.orgLock.None?
    requires id in s.grants && s.grants[id].redeemedAt.None? && s.grants[id].revokedAt.None? && s.clock < s.grants[id].expiresAt
    requires Eligible(s, s.grants[id].target, s.grants[id].promote)
    ensures var target := s.grants[id].target; var u := s.users[target];
            Run(s, [StartRedeem(pid, id), Next(pid, id), Next(pid, id), Next(pid, id)])
            == s.(grants := s.grants[id := s.grants[id].(redeemedAt := Some(s.clock))],
                  users := s.users[target := User(Admin, true, false, u.sessionVersion + 1)],
                  log := if u.role.Staff? then s.log + [Promotion(target, {})] else s.log)
  {
    var a, b, now := StartRedeem(pid, id), Next(pid, id), s.clock;
    var promoted := s.users[s.grants[id].target].role.Staff?;
    RunFour(s, a, b);
    RequestsStartExactlyWhen(s, pid, s.grants[id].target, s.grants[id].promote, id);
    assert promoted ==> ActiveAdmins(s.users) == {} by {
      assert forall u :: u in ActiveAdmins(s.users) <==> u in s.users && s.users[u].role.Admin? && s.users[u].isActive;
    }
    var s2 := To(s, pid, RedeemLocked(id, now, promoted)).(orgLock := Some(pid));
    var s3 := To(s, pid, RedeemChecked(id, now, promoted)).(orgLock := Some(pid));
    assert Step(Step(s, a), b) == s2 by { Overwritten(s.procs, pid, RedeemWaiting(id, now, promoted), RedeemLocked(id, now, promoted)); }
    assert Step(s2, b) == s3 by { Overwritten(s.procs, pid, RedeemLocked(id, now, promoted), RedeemChecked(id, now, promoted)); }
    RedeemCommits(s, pid, id, promoted);
  }

  /** A revocation closes an open grant for good, at any time, and does nothing to a closed one. */
  lemma {:induction false} RevocationCloses(s: State, id: GrantId, now: int, later: seq<Action>)
    requires ClosedOneWay(s) && id in s.grants && Open(s.grants[id])
    ensures var t := Run(s, [RevokeGrant(id, now)] + later);
            id in t.grants && t.grants[id] == s.grants[id].(revokedAt := Some(now)) && forall at :: !Redeemable(t.grants[id], at)
  {
    RunCons(s, RevokeGrant(id, now), later);
    StepClosesOnce(s, RevokeGrant(id, now));
    GrantsCloseOnce(Step(s, RevokeGrant(id, now)), later);
  }

  // ---------------------------------------------------------------- one restoration per grant

  function RedeemedFor(grants: map<GrantId, GrantRow>, user: UserId): set<GrantId> {
    set g | g in grants && grants[g].target == user && grants[g].redeemedAt.Some?
  }

  /** An account was signed out as often as a grant for it was redeemed. */
  ghost predicate RestoredPerGrant(users: map<UserId, User>, s: State) {
    && s.users.Keys == users.Keys
    && forall u :: u in users ==> s.users[u].sessionVersion == users[u].sessionVersion + |RedeemedFor(s.grants, u)|
  }

  lemma SameRedeemed(users: map<UserId, User>, s: State, s': State)
    requires RestoredPerGrant(users, s) && s'.users.Keys == s.users.Keys
    requires forall u :: u in s.users ==> s'.users[u].sessionVersion == s.users[u].sessionVersion
    requires forall u :: RedeemedFor(s'.grants, u) == RedeemedFor(s.grants, u)
    ensures RestoredPerGrant(users, s')
  {
  }

  lemma RedeemRestoresOnce(users: map<UserId, User>, s: State, pid: nat)
    requires RestoredPerGrant(users, s) && pid in s.procs && s.procs[pid].RedeemChecked?
    ensures RestoredPerGrant(users, RedeemStep(s, pid, s.procs[pid]))
  {
    var p := s.procs[pid];
    var s' := RedeemStep(s, pid, p);
    if s'.users != s.users || s'.grants != s.grants {
      var target := s.grants[p.id].target;
      assert RedeemedFor(s'.grants, target) == RedeemedFor(s.grants, target) + {p.id};
      forall u | u != target ensures RedeemedFor(s'.grants, u) == RedeemedFor(s.grants, u) {}
    }
  }

  lemma IssueRestoresNobody(users: map<UserId, User>, s: State, pid: nat, newId: GrantId)
    requires RestoredPerGrant(users, s) && pid in s.procs
    requires var p := s.procs[pid]; p.IssueWaiting? || p.IssueLocked? || p.IssueFound?
    ensures RestoredPerGrant(users, IssueStep(s, pid, s.procs[pid], newId))
  {
    var s' := IssueStep(s, pid, s.procs[pid], newId);
    forall u ensures RedeemedFor(s'.grants, u) == RedeemedFor(s.grants, u) {}
    SameRedeemed(users, s, s');
  }

  lemma OtherRestoresNobody(users: map<UserId, User>, s: State, a: Action)
    requires RestoredPerGrant(users, s) && !a.Next?
    ensures RestoredPerGrant(users, Step(s, a))
  {
    var s' := Step(s, a);
    forall u ensures RedeemedFor(s'.grants, u) == RedeemedFor(s.grants, u) {}
    SameRedeemed(users, s, s');
  }

  lemma StepRestoresPerGrant(users: map<UserId, User>, s: State, a: Action)
    requires RestoredPerGrant(users, s)
    ensures RestoredPerGrant(users, Step(s, a))
  {
    if !a.Next? {
      OtherRestoresNobody(users, s, a);
    } else if a.pid in s.procs {
      var p := s.procs[a.pid];
      if p.IssueWaiting? || p.IssueLocked? || p.IssueFound? {
        IssueRestoresNobody(users, s, a.pid, a.newId);
      } else if p.RedeemChecked? {
        RedeemRestoresOnce(users, s, a.pid);
      } else {
        assert RedeemStep(s, a.pid, p).grants == s.grants && RedeemStep(s, a.pid, p).users == s.users;
      }
    }
  }

  lemma {:induction false} RunRestoresPerGrant(users: map<UserId, User>, s: State, actions: seq<Action>)
    requires RestoredPerGrant(users, s)
    ensures RestoredPerGrant(users, Run(s, actions))
    decreases |actions|
  {
    if actions != [] {
      StepRestoresPerGrant(users, s, actions[0]);
      RunRestoresPerGrant(users, Step(s, actions[0]), actions[1..]);
    }
  }

  /**
   * In every run, however redemptions race: each redeemed grant restored its account exactly
   * once, and nothing else did (a restoration raises the session version by one).
   */
  lemma EachGrantRestoresOnce(users: map<UserId, User>, clock: int, actions: seq<Action>, user: UserId)
    requires user in users
    ensures var s := Run(Init(users, clock), actions);
            && user in s.users
            && s.users[user].sessionVersion ==
               users[user].sessionVersion + |set g | g in s.grants && s.grants[g].target == user && s.grants[g].redeemedAt.Some?|
  {
    forall u ensures RedeemedFor(Init(users, clock).grants, u) == {} {}
    RunRestoresPerGrant(users, Init(users, clock), actions);
    var s := Run(Init(users, clock), actions);
    assert RedeemedFor(s.grants, user) == set g | g in s.grants && s.grants[g].target == user && s.grants[g].redeemedAt.Some?;
  }

  /** Time passes and accounts change meanwhile; a departure is one exactly of an active administrator. */
  lemma WorldMovesOn(s: State, to: int, user: UserId, role: Role)
    requires user in s.users && !role.Admin?
    ensures Step(s, Tick(to)) == s.(clock := if to > s.clock then to else s.clock)
    ensures var u := s.users[user]; var left := if u.role.Admin? && u.isActive then [AdminLeft(user)] else [];
            && Step(s, Deactivate(user)) == s.(users := s.users[user := u.(isActive := false)], log := s.log + left)
            && Step(s, Demote(user, role)) == s.(users := s.users[user := u.(role := role)], log := s.log + left)
  {
    assert user in ActiveAdmins(s.users) <==> s.users[user].role.Admin? && s.users[user].isActive;
  }
}
