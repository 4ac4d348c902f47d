/**
 * Break-glass recovery grants (src/auth/break-glass.js) of one organization: the grant rows,
 * the staff accounts they can restore, and the conditional updates on both.
 */
module BreakGlass {
  import opened Options

  const TTL_MS := 30 * 60 * 1000

  type GrantId = nat
  type UserId = nat

  datatype GrantRow = GrantRow(
    target: UserId, promote: bool, createdAt: int, expiresAt: int, redeemedAt: Option<int>, revokedAt: Option<int>)

  datatype Role = Admin | Staff | Client | Bot
  datatype User = User(role: Role, isActive: bool, mfaEnabled: bool, sessionVersion: nat)

  predicate Open(g: GrantRow) {
    g.redeemedAt.None? && g.revokedAt.None?
  }

  /** A grant that a redemption with this clock would accept. */
  predicate Redeemable(g: GrantRow, now: int) {
    Open(g) && g.expiresAt > now
  }

  function ActiveAdmins(users: map<UserId, User>): set<UserId> {
    set u | u in users && users[u].role.Admin? && users[u].isActive
  }

  // ---------------------------------------------------------------- atomic updates

  function RevokeRow(g: GrantRow, now: int): GrantRow {
    if Open(g) then g.(revokedAt := Some(now)) else g
  }

  function RedeemRow(g: GrantRow, now: int): GrantRow {
    if Redeemable(g, now) then g.(redeemedAt := Some(now)) else g
  }

  /** The account after a redemption: active, no second factor, older sessions signed out. */
  function Restored(u: User, promoted: bool): User {
    User(if promoted then Admin else u.role, true, false, u.sessionVersion + 1)
  }

  function NewGrant(target: UserId, promote: bool, now: int): GrantRow {
    GrantRow(target, promote, now, now + TTL_MS, None, None)
  }

  /** The grants a new issue for this target replaces. */
  function Superseded(grants: map<GrantId, GrantRow>, target: UserId, now: int): set<GrantId> {
    set g | g in grants && grants[g].target == target && Redeemable(grants[g], now)
  }

  function RevokeAll(grants: map<GrantId, GrantRow>, ids: set<GrantId>, now: int): map<GrantId, GrantRow> {
    map g | g in grants :: if g in ids then RevokeRow(grants[g], now) else grants[g]
  }

  // ---------------------------------------------------------------- the operations

  datatype Refusal = TargetNotFound | TargetForbidden | TargetNotAdmin | AdminExists | Invalid | GrantNotFound | GrantClosed
  datatype Outcome = Issued(id: GrantId) | Redeemed(promoted: bool, reactivated: bool) | RevokedOk | Refused(why: Refusal)

  class Recovery {
    var grants: map<GrantId, GrantRow>
    var users: map<UserId, User>
    var nextId: GrantId

    predicate Valid()
      reads this
    {
      forall g :: g in grants ==> g < nextId
    }

    constructor (users: map<UserId, User>)
      ensures Valid() && grants == map[] && this.users == users
    {
      grants, nextId := map[], 0;
      this.users := users;
    }

    method RevokeGrantRow(id: GrantId, now: int) returns (revoked: bool)
      modifies this`grants
      ensures revoked == (id in old(grants) && Open(old(grants)[id]))
      ensures grants == if id in old(grants) then old(grants)[id := RevokeRow(old(grants)[id], now)] else old(grants)
      ensures revoked <==> id in old(grants) && old(grants)[id].redeemedAt.None? && old(grants)[id].revokedAt.None?
      ensures grants == if revoked then old(grants)[id := old(grants)[id].(revokedAt := Some(now))] else old(grants)
    {
      revoked := id in grants && grants[id].redeemedAt.None? && grants[id].revokedAt.None?;
      if revoked {
        grants := grants[id := grants[id].(revokedAt := Some(now))];
      }
    }

    method RevokeGrant(id: GrantId, now: int) returns (outcome: Outcome)
      requires Valid()
      modifies this`grants
      ensures Valid()
      ensures id !in old(grants) ==> outcome == Refused(GrantNotFound) && grants == old(grants)
      ensures id in old(grants) && !Open(old(grants)[id]) ==> outcome == Refused(GrantClosed) && grants == old(grants)
      ensures id in old(grants) && Open(old(grants)[id]) ==>
                outcome == RevokedOk && grants == old(grants)[id := old(grants)[id].(revokedAt := Some(now))]
    {
      if id !in grants {
        return Refused(GrantNotFound);
      }
      var revoked := RevokeGrantRow(id, now);
      return if revoked then RevokedOk else Refused(GrantClosed);
    }

    /** Why a grant may not be issued, checked before the transaction. */
    function IssueRefusal(target: UserId, promote: bool): Option<Refusal>
      reads this
    {
      if target !in users then Some(TargetNotFound)
      else if users[target].role.Client? || users[target].role.Bot? then Some(TargetForbidden)
      else if !users[target].role.Admin? && !promote then Some(TargetNotAdmin)
      else if !users[target].role.Admin? && ActiveAdmins(users) != {} then Some(AdminExists)
      else None
    }

    /** `issueBreakGlassGrant`, its transaction holding the target's lock: a new grant replaces the outstanding ones. */
    method IssueGrant(target: UserId, promote: bool, now: int) returns (outcome: Outcome)
      requires Valid()
      modifies this
      ensures Valid() && users == old(users)
      ensures outcome == match old(IssueRefusal(target, promote)) case Some(why) => Refused(why) case None => Issued(old(nextId))
      ensures outcome.Issued? <==>
                && target in users && !users[target].role.Client? && !users[target].role.Bot?
                && (users[target].role.Admin? || (promote && forall u :: u in users ==> !(users[u].role.Admin? && users[u].isActive)))
      ensures outcome == Refused(TargetNotFound) <==> target !in users
      ensures outcome == Refused(TargetForbidden) <==> target in users && (users[target].role.Client? || users[target].role.Bot?)
      ensures outcome == Refused(TargetNotAdmin) <==> target in users && users[target].role.Staff? && !promote
      ensures outcome == Refused(AdminExists) <==>
                target in users && users[target].role.Staff? && promote && exists u :: u in users && users[u].role.Admin? && users[u].isActive
      ensures outcome.Refused? ==> grants == old(grants) && nextId == old(nextId)
      ensures outcome.Issued? ==>
                && grants.Keys == old(grants).Keys + {outcome.id} && outcome.id !in old(grants)
                && grants[outcome.id] == GrantRow(target, promote, now, now + 1_800_000, None, None)
                && (forall g :: g in old(grants) ==>
                      if old(grants)[g].target == target && old(grants)[g].redeemedAt.None? && old(grants)[g].revokedAt.None?
                         && old(grants)[g].expiresAt > now
                      then grants[g] == old(grants)[g].(revokedAt := Some(now)) else grants[g] == old(grants)[g])
                && (forall g :: g in grants && grants[g].target == target && Redeemable(grants[g], now) ==> g == outcome.id)
    {
      assert ActiveAdmins(users) == {} <==> forall u :: u in users ==> !(users[u].role.Admin? && users[u].isActive) by {
        assert forall u :: u in ActiveAdmins(users) <==> u in users && users[u].role.Admin? && users[u].isActive;
      }
      var refusal := IssueRefusal(target, promote);
      if refusal.Some? {
        return Refused(refusal.value);
      }
      var superseded := Superseded(grants, target, now);
      ghost var before := grants;
      ghost var all := superseded;
      while superseded != {}
        invariant superseded <= all && grants.Keys == before.Keys
        invariant forall g :: g in before && g in all - superseded ==> grants[g] == before[g].(revokedAt := Some(now))
        invariant forall g :: g in before && g !in all - superseded ==> grants[g] == before[g]
        modifies this`grants
        decreases superseded
      {
        var previous :| previous in superseded;
        var _ := RevokeGrantRow(previous, now);
        superseded := superseded - {previous};
      }
      var id := nextId;
      grants := grants[id := GrantRow(target, promote, now, now + TTL_MS, None, None)];
      nextId := nextId + 1;
      return Issued(id);
    }

    /** Whether an undisturbed redemption succeeds. */
    predicate RedemptionStands(id: GrantId, now: int)
      reads this
    {
      && id in grants && Redeemable(grants[id], now) && grants[id].target in users
      && var u := users[grants[id].target];
         !u.role.Client? && !u.role.Bot? && (u.role.Admin? || (grants[id].promote && ActiveAdmins(users) == {}))
    }

    /** `redeemBreakGlassGrant` (the token already resolved to its grant), its transaction holding the organization's lock. */
    method RedeemGrant(id: GrantId, now: int) returns (outcome: Outcome)
      requires Valid()
      modifies this`grants, this`users
      ensures Valid()
      ensures outcome.Redeemed? <==>
                && id in old(grants) && old(grants)[id].target in old(users)
                && var grant, u := old(grants)[id], old(users)[old(grants)[id].target];
                   && grant.redeemedAt.None? && grant.revokedAt.None? && now < grant.expiresAt
                   && (u.role.Admin? || (u.role.Staff? && grant.promote
                                         && forall v :: v in old(users) ==> !(old(users)[v].role.Admin? && old(users)[v].isActive)))
      ensures !old(RedemptionStands(id, now)) ==> outcome == Refused(Invalid) && grants == old(grants) && users == old(users)
      ensures old(RedemptionStands(id, now)) ==>
                var target := old(grants)[id].target; var u := old(users)[target];
                && outcome == Redeemed(!u.role.Admin?, !u.isActive)
                && grants == old(grants)[id := old(grants)[id].(redeemedAt := Some(now))]
                && users == old(users)[target := User(Admin, true, false, u.sessionVersion + 1)]
    {
      assert ActiveAdmins(users) == {} <==> forall u :: u in users ==> !(users[u].role.Admin? && users[u].isActive) by {
        assert forall u :: u in ActiveAdmins(users) <==> u in users && users[u].role.Admin? && users[u].isActive;
      }
      if id !in grants || grants[id].redeemedAt.Some? || grants[id].revokedAt.Some? || grants[id].expiresAt <= now {
        return Refused(Invalid);
      }
      var grant := grants[id];
      if grant.target !in users || users[grant.target].role.Client? || users[grant.target].role.Bot? {
        return Refused(Invalid);
      }
      var target := users[grant.target];
      if !target.role.Admin? && !grant.promote {
        return Refused(Invalid);
      }
      var promoted := !target.role.Admin? && grant.promote;
      if promoted && ActiveAdmins(users) != {} {
        return Refused(Invalid);
      }
      grants := grants[id := RedeemRow(grant, now)];
      users := users[grant.target := Restored(target, promoted)];
      return Redeemed(promoted, !target.isActive);
    }
  }
}
