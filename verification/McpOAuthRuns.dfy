/**
 * Concurrent use of the MCP OAuth provider: in the two exchanges and in verification every
 * Redis command and SQL statement is one step; `revokeToken` finds its key in one step and
 * reads the grant and revokes in another, since only the key id passes between them.
 * Requests interleave and crash anywhere, and Redis may expire any record at any time.
 */
module McpOAuthRuns {
  import opened Options
  import opened McpScopes
  import opened McpOAuth

  /**
   * A request between two steps. `since` is the length of the log when it read its key row.
   * The constructors follow the awaits of the two exchanges, verification and revocation.
   */
  datatype Proc =
    | CodeRead(token: Token)
    | CodeTaken(token: Token, data: CodeData)
    | KeyCreated(token: Token, data: CodeData, keyId: KeyId)
    | GrantSaved(token: Token, grant: Grant)
    | RefreshRead(token: Token, data2: Grant)
    | KeyRead(token: Token, keyId: KeyId, key: KeyRow, since: nat)
    | GrantRead(token: Token, key: KeyRow, grant: Grant, since: nat)
    | RefreshTaken(token: Token, key: KeyRow, grant: Grant, since: nat)
    | UsedSaved(token: Token, key: KeyRow, grant: Grant, since: nat)
    | KeyRotated(token: Token, grant: Grant, since: nat)
    | Missing(token: Token, client: string)
    | Replay(keyId: KeyId)
    | Verifying(access: Token, keyId: KeyId, key: KeyRow, since: nat)
    | Revoking(keyId: KeyId)

  /** What committed or succeeded; `at` is the clock then. */
  datatype Event =
    | KeyIssued(keyId: KeyId, access: Token, at: int)
    | CodeSucceeded(code: Token, keyId: KeyId)
    | Rotation(keyId: KeyId, access: Token, since: nat, at: int)
    | RefreshSucceeded(token: Token, keyId: KeyId, since: nat)
    | Verified(access: Token, keyId: KeyId, since: nat, at: int)
    | KeyRevoked(keyId: KeyId)

  datatype Issue = Issue(grant: Grant, data: CodeData, at: int)

  /** `issued` remembers every grant ever created, when, and the consent behind it, `consented` every consent given; `nextToken` is above every token and key id in use. */
  datatype State = State(t: Tables, procs: map<nat, Proc>, clock: int, nextToken: nat, issued: map<KeyId, Issue>, consented: set<CodeData>, log: seq<Event>)

  datatype Action =
    | Tick(to: int)
    | IssueCode(clientId: string, userId: nat, requested: seq<string>, selected: seq<string>)
    | BeginCode(pid: nat, code: Token, client: string, allowed: bool)
    | BeginRefresh(pid: nat, token: Token, client: string, scopes: seq<string>)
    | BeginVerify(pid: nat, access: Token)
    | BeginRevoke(pid: nat, token: Token)
    | Next(pid: nat, allowed: bool)
    | Crash(pid: nat)
    | OwnerRevokes(keyId: KeyId)
    | Expire(code: Token, refresh: Token, used: Token, grant: KeyId)

  function Init(clock: int): State {
    State(Tables(map[], map[], map[], map[], map[]), map[], clock, 0, map[], {}, [])
  }

  function Done(s: State, pid: nat): State {
    s.(procs := s.procs - {pid})
  }

  function To(s: State, pid: nat, p: Proc): State {
    s.(procs := s.procs[pid := p])
  }

  /** The key row whose digest is this access token's. */
  ghost function KeyOf(t: Tables, access: Token): Option<KeyId> {
    if k :| k in t.keys && t.keys[k].key == access then Some(k) else None
  }

  function Revoke(s: State, pid: nat, keyId: KeyId): State {
    if keyId in s.t.keys then
      Done(s, pid).(t := s.t.(keys := s.t.keys[keyId := Revoked(s.t.keys[keyId], s.clock)]), log := s.log + [KeyRevoked(keyId)])
    else Done(s, pid)
  }

  // ---------------------------------------------------------------- the steps after the first

  function NextOfCode(s: State, pid: nat, p: Proc, allowed: bool): State
    requires p.CodeRead? || p.CodeTaken? || p.KeyCreated? || p.GrantSaved?
  {
    match p
    case CodeRead(code) =>
      if code in s.t.codes
      then To(s, pid, CodeTaken(code, s.t.codes[code])).(t := s.t.(codes := s.t.codes - {code}))
      else Done(s, pid)
    case CodeTaken(code, data) =>
      if allowed then
        var keyId := s.nextToken;
        To(s, pid, KeyCreated(code, data, keyId)).(
          t := s.t.(keys := s.t.keys[keyId := KeyFor(data, s.nextToken, s.clock)]),
          nextToken := s.nextToken + 1, log := s.log + [KeyIssued(keyId, s.nextToken, s.clock)])
      else Done(s, pid)
    case KeyCreated(code, data, keyId) =>
      var grant := GrantFor(data, keyId, s.clock);
      To(s, pid, GrantSaved(code, grant)).(
        t := s.t.(grants := s.t.grants[keyId := grant]), issued := s.issued[keyId := Issue(grant, data, s.clock)])
    case GrantSaved(code, grant) =>
      Done(s, pid).(t := s.t.(refresh := s.t.refresh[s.nextToken := grant]), nextToken := s.nextToken + 1,
                    log := s.log + [CodeSucceeded(code, grant.keyId)])
  }

  function NextOfRefresh(s: State, pid: nat, p: Proc, allowed: bool): State
    requires p.RefreshRead? || p.KeyRead? || p.GrantRead? || p.RefreshTaken? || p.UsedSaved? || p.KeyRotated?
  {
    match p
    case RefreshRead(token, data) =>
      if data.keyId in s.t.keys then To(s, pid, KeyRead(token, data.keyId, s.t.keys[data.keyId], |s.log|)) else Done(s, pid)
    case KeyRead(token, keyId, key, since) =>
      if keyId in s.t.grants && GrantStands(key, keyId, s.t.grants[keyId], s.clock) && allowed
      then To(s, pid, GrantRead(token, key, s.t.grants[keyId], since)) else Done(s, pid)
    case GrantRead(token, key, grant, since) =>
      if token in s.t.refresh
      then To(s, pid, RefreshTaken(token, key, grant, since)).(t := s.t.(refresh := s.t.refresh - {token}))
      else Done(s, pid)
    case RefreshTaken(token, key, grant, since) =>
      To(s, pid, UsedSaved(token, key, grant, since)).(t := s.t.(used := s.t.used[token := UsedRef(grant.keyId, grant.clientId)]))
    case UsedSaved(token, key, grant, since) =>
      if allowed && MayRotate(s.t, grant.keyId, key, grant) then
        To(s, pid, KeyRotated(token, grant, since)).(
          t := s.t.(keys := s.t.keys[grant.keyId := Rotated(s.t.keys[grant.keyId], grant, s.nextToken, s.clock)]),
          nextToken := s.nextToken + 1, log := s.log + [Rotation(grant.keyId, s.nextToken, since, s.clock)])
      else Done(s, pid)
    case KeyRotated(token, grant, since) =>
      Done(s, pid).(t := s.t.(refresh := s.t.refresh[s.nextToken := grant]), nextToken := s.nextToken + 1,
                    log := s.log + [RefreshSucceeded(token, grant.keyId, since)])
  }

  function NextOfOthers(s: State, pid: nat, p: Proc, allowed: bool): State
    requires p.Missing? || p.Replay? || p.Verifying? || p.Revoking?
  {
    match p
    case Missing(token, client) =>
      if token in s.t.used && s.t.used[token].clientId == client then To(s, pid, Replay(s.t.used[token].keyId)) else Done(s, pid)
    case Replay(keyId) => Revoke(s, pid, keyId)
    case Verifying(access, keyId, key, since) =>
      if keyId in s.t.grants && GrantStands(key, keyId, s.t.grants[keyId], s.clock) && key.expiresAt > s.clock && allowed
      then Done(s, pid).(log := s.log + [Verified(access, keyId, since, s.clock)]) else Done(s, pid)
    case Revoking(keyId) =>
      if keyId in s.t.grants && allowed && keyId in s.t.keys && s.t.keys[keyId].isActive then Revoke(s, pid, keyId) else Done(s, pid)
  }

  function NextStep(s: State, pid: nat, p: Proc, allowed: bool): State {
    if p.CodeRead? || p.CodeTaken? || p.KeyCreated? || p.GrantSaved? then NextOfCode(s, pid, p, allowed)
    else if p.Missing? || p.Replay? || p.Verifying? || p.Revoking? then NextOfOthers(s, pid, p, allowed)
    else NextOfRefresh(s, pid, p, allowed)
  }

  /** A first step: what the request reads before it becomes a process (None when it ends at once). */
  ghost function Begin(s: State, a: Action): Option<Proc> {
    match a
    case BeginCode(pid, code, client, allowed) =>
      if code in s.t.codes && s.t.codes[code].clientId == client && allowed then Some(CodeRead(code)) else None
    case BeginRefresh(pid, token, client, scopes) =>
      if token !in s.t.refresh then Some(Missing(token, client))
      else if s.t.refresh[token].clientId == client && ScopesMatch(scopes, s.t.refresh[token])
      then Some(RefreshRead(token, s.t.refresh[token])) else None
    case BeginVerify(pid, access) =>
      (match KeyOf(s.t, access)
       case Some(k) => Some(Verifying(access, k, s.t.keys[k], |s.log|))
       case None => None)
    case BeginRevoke(pid, token) =>
      if token in s.t.refresh then Some(Revoking(s.t.refresh[token].keyId))
      else if token in s.t.used then Some(Revoking(s.t.used[token].keyId))
      else (match KeyOf(s.t, token) case Some(k) => Some(Revoking(k)) case None => None)
    case _ => None
  }

  ghost function Step(s: State, a: Action): State {
    match a
    case Tick(to) => if to > s.clock then s.(clock := to) else s
    case IssueCode(clientId, userId, requested, selected) =>
      (match Authorize(requested)
       case Some(pending) =>
         (match Consent(pending, selected)
          case Some(scopes) =>
            var data := CodeData(clientId, userId, requested, scopes);
            s.(t := s.t.(codes := s.t.codes[s.nextToken := data]), nextToken := s.nextToken + 1, consented := s.consented + {data})
          case None => s)
       case None => s)
    case Next(pid, allowed) => if pid in s.procs then NextStep(s, pid, s.procs[pid], allowed) else s
    case Crash(pid) => Done(s, pid)
    case OwnerRevokes(keyId) =>
      if keyId in s.t.keys then
        s.(t := s.t.(keys := s.t.keys[keyId := Revoked(s.t.keys[keyId], s.clock)]), log := s.log + [KeyRevoked(keyId)])
      else s
    case Expire(code, refresh, used, grant) =>
      s.(t := s.t.(codes := s.t.codes - {code}, refresh := s.t.refresh - {refresh},
                   used := s.t.used - {used}, grants := s.t.grants - {grant}))
    case _ =>
      if a.pid in s.procs || Begin(s, a).None? then s else To(s, a.pid, Begin(s, a).value)
  }

  ghost function Run(s: State, actions: seq<Action>): State
    decreases |actions|
  {
    if actions == [] then s else Run(Step(s, actions[0]), actions[1..])
  }
}
