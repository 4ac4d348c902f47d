/**
 * The steps of one request with nobody in between do what the provider's methods promise: the
 * exchanges of the state machine succeed, and revoking a token takes effect.
 */
module McpOAuthUndisturbed {
  import opened Options
  import opened McpScopes
  import opened McpOAuth
  import opened McpOAuthRuns
  import opened McpOAuthRevocation

  /** The further steps of a request whose checks all pass. */
  function Nexts(pid: nat, n: nat): seq<Action> {
    seq(n, i => Next(pid, true))
  }

  /** n of those steps, one after the other. */
  ghost function After(s: State, pid: nat, n: nat): State {
    if n == 0 then s else Step(After(s, pid, n - 1), Next(pid, true))
  }

  lemma {:induction false} AfterFirst(s: State, pid: nat, n: nat)
    requires n > 0
    ensures After(s, pid, n) == After(Step(s, Next(pid, true)), pid, n - 1)
  {
    if n > 1 { AfterFirst(s, pid, n - 1); }
  }

  lemma {:induction false} RunIsAfter(s: State, pid: nat, n: nat)
    ensures Run(s, Nexts(pid, n)) == After(s, pid, n)
    decreases n
  {
    if n > 0 {
      assert Nexts(pid, n) == [Next(pid, true)] + Nexts(pid, n - 1);
      RunSplit(s, Next(pid, true), Nexts(pid, n - 1));
      RunIsAfter(Step(s, Next(pid, true)), pid, n - 1);
      AfterFirst(s, pid, n);
    }
  }

  lemma {:induction false} AfterSum(s: State, pid: nat, m: nat, n: nat)
    ensures After(s, pid, m + n) == After(After(s, pid, m), pid, n)
    decreases n
  {
    if n > 0 { AfterSum(s, pid, m, n - 1); }
  }

  lemma AfterTwo(s: State, pid: nat)
    ensures After(s, pid, 1) == Step(s, Next(pid, true))
    ensures After(s, pid, 2) == Step(Step(s, Next(pid, true)), Next(pid, true))
  {
    assert After(s, pid, 0) == s;
    assert After(s, pid, 2) == Step(After(s, pid, 1), Next(pid, true));
  }

  lemma RequestRuns(s: State, first: Action, pid: nat, n: nat)
    ensures Run(s, [first] + Nexts(pid, n)) == After(Step(s, first), pid, n)
  {
    RunSplit(s, first, Nexts(pid, n));
    RunIsAfter(Step(s, first), pid, n);
  }

  /** What the code exchange issues: a key for an hour, a grant for 30 days, and the refresh token. */
  function AfterCode(s: State, code: Token): Tables
    requires code in s.t.codes
  {
    var data, n := s.t.codes[code], s.nextToken;
    var grant := Grant(n, data.userId, data.clientId, data.scopes, s.clock + 2_592_000_000);
    Tables(s.t.codes - {code}, s.t.refresh[n + 1 := grant], s.t.used, s.t.grants[n := grant],
           s.t.keys[n := KeyRow(n, data.userId, data.scopes, true, None, s.clock + 3_600_000)])
  }

  lemma Moved(procs: map<nat, Proc>, pid: nat, p: Proc, q: Proc)
    ensures procs[pid := p][pid := q] == procs[pid := q]
    ensures pid !in procs ==> procs[pid := p] - {pid} == procs
  {
  }

  /** The states of a code exchange: the code taken, key and grant issued, the refresh token given. */
  function Taken(s: State, pid: nat, code: Token): State
    requires code in s.t.codes
  {
    To(s, pid, CodeTaken(code, s.t.codes[code])).(t := s.t.(codes := s.t.codes - {code}))
  }

  function Granted(s: State, pid: nat, code: Token): State
    requires code in s.t.codes
  {
    var data, n := s.t.codes[code], s.nextToken;
    To(s, pid, GrantSaved(code, AfterCode(s, code).grants[n])).(
      t := AfterCode(s, code).(refresh := s.t.refresh), nextToken := n + 1,
      issued := s.issued[n := Issue(AfterCode(s, code).grants[n], data, s.clock)], log := s.log + [KeyIssued(n, n, s.clock)])
  }

  lemma CodeIsTaken(s: State, pid: nat, code: Token, client: string)
    requires pid !in s.procs && code in s.t.codes && s.t.codes[code].clientId == client
    ensures Step(Step(s, BeginCode(pid, code, client, true)), Next(pid, true)) == Taken(s, pid, code)
  {
    Moved(s.procs, pid, CodeRead(code), CodeTaken(code, s.t.codes[code]));
  }

  lemma TakenCodeIssues(s: State, pid: nat, code: Token)
    requires pid !in s.procs && code in s.t.codes
    ensures Step(Step(Taken(s, pid, code), Next(pid, true)), Next(pid, true)) == Granted(s, pid, code)
  {
    var data, n := s.t.codes[code], s.nextToken;
    Moved(s.procs, pid, CodeTaken(code, data), KeyCreated(code, data, n));
    Moved(s.procs, pid, KeyCreated(code, data, n), GrantSaved(code, AfterCode(s, code).grants[n]));
  }

  lemma GrantedCodeSucceeds(s: State, pid: nat, code: Token)
    requires pid !in s.procs && code in s.t.codes
    ensures Step(Granted(s, pid, code), Next(pid, true))
            == Granted(s, pid, code).(t := AfterCode(s, code), procs := s.procs, nextToken := s.nextToken + 2,
                 log := s.log + [KeyIssued(s.nextToken, s.nextToken, s.clock)] + [CodeSucceeded(code, s.nextToken)])
  {
    Moved(s.procs, pid, GrantSaved(code, AfterCode(s, code).grants[s.nextToken]), CodeRead(code));
  }

  lemma CodeIsGrantedInThree(s: State, pid: nat, code: Token, client: string)
    requires pid !in s.procs && code in s.t.codes && s.t.codes[code].clientId == client
    ensures After(Step(s, BeginCode(pid, code, client, true)), pid, 3) == Granted(s, pid, code)
  {
    var s1 := Step(s, BeginCode(pid, code, client, true));
    AfterTwo(s1, pid);
    AfterTwo(Taken(s, pid, code), pid);
    AfterSum(s1, pid, 1, 2);
    CodeIsTaken(s, pid, code, client);
    TakenCodeIssues(s, pid, code);
  }

  /** The code exchange of the state machine is that of `ExchangeAuthorizationCode`. */
  lemma CodeExchangeSucceeds(s: State, pid: nat, code: Token, client: string)
    requires pid !in s.procs && code in s.t.codes && s.t.codes[code].clientId == client
    ensures var s' := Run(s, [BeginCode(pid, code, client, true)] + Nexts(pid, 4));
            && s'.t == AfterCode(s, code) && s'.procs == s.procs && s'.clock == s.clock
            && s'.log == s.log + [KeyIssued(s.nextToken, s.nextToken, s.clock)] + [CodeSucceeded(code, s.nextToken)]
  {
    RequestRuns(s, BeginCode(pid, code, client, true), pid, 4);
    AfterSum(Step(s, BeginCode(pid, code, client, true)), pid, 3, 1);
    AfterTwo(Granted(s, pid, code), pid);
    CodeIsGrantedInThree(s, pid, code, client);
    GrantedCodeSucceeds(s, pid, code);
  }

  /** What the refresh leaves: the token used, the key's next token for an hour within the grant, one live refresh token. */
  function AfterRefresh(s: State, token: Token): Tables
    requires token in s.t.refresh && s.t.refresh[token].keyId in s.t.keys && s.t.refresh[token].keyId in s.t.grants
  {
    var k, n := s.t.refresh[token].keyId, s.nextToken;
    var grant := s.t.grants[k];
    var end := if grant.expiresAt < s.clock + 3_600_000 then grant.expiresAt else s.clock + 3_600_000;
    Tables(s.t.codes, (s.t.refresh - {token})[n + 1 := grant], s.t.used[token := UsedRef(k, grant.clientId)], s.t.grants,
           s.t.keys[k := s.t.keys[k].(key := n, expiresAt := end)])
  }

  /** The states of a refresh: key and grant read, the token taken and recorded, the key rotated. */
  function Read(s: State, pid: nat, token: Token): State
    requires token in s.t.refresh && s.t.refresh[token].keyId in s.t.keys && s.t.refresh[token].keyId in s.t.grants
  {
    var k := s.t.refresh[token].keyId;
    To(s, pid, GrantRead(token, s.t.keys[k], s.t.grants[k], |s.log|))
  }

  function Recorded(s: State, pid: nat, token: Token): State
    requires token in s.t.refresh && s.t.refresh[token].keyId in s.t.keys && s.t.refresh[token].keyId in s.t.grants
  {
    var k := s.t.refresh[token].keyId;
    To(s, pid, UsedSaved(token, s.t.keys[k], s.t.grants[k], |s.log|)).(
      t := AfterRefresh(s, token).(refresh := s.t.refresh - {token}, keys := s.t.keys))
  }

  function RotatedTo(s: State, pid: nat, token: Token): State
    requires token in s.t.refresh && s.t.refresh[token].keyId in s.t.keys && s.t.refresh[token].keyId in s.t.grants
  {
    var k := s.t.refresh[token].keyId;
    To(s, pid, KeyRotated(token, s.t.grants[k], |s.log|)).(
      t := AfterRefresh(s, token).(refresh := s.t.refresh - {token}), nextToken := s.nextToken + 1,
      log := s.log + [Rotation(k, s.nextToken, |s.log|, s.clock)])
  }

  lemma RefreshReads(s: State, pid: nat, token: Token, client: string, scopes: seq<string>)
    requires pid !in s.procs && RefreshStands(s.t, client, token, scopes, s.clock)
    ensures After(Step(s, BeginRefresh(pid, token, client, scopes)), pid, 2) == Read(s, pid, token)
  {
    AfterTwo(Step(s, BeginRefresh(pid, token, client, scopes)), pid);
    var k := s.t.refresh[token].keyId;
    Moved(s.procs, pid, RefreshRead(token, s.t.refresh[token]), KeyRead(token, k, s.t.keys[k], |s.log|));
    Moved(s.procs, pid, KeyRead(token, k, s.t.keys[k], |s.log|), GrantRead(token, s.t.keys[k], s.t.grants[k], |s.log|));
  }

  lemma RefreshRecords(s: State, pid: nat, token: Token, client: string, scopes: seq<string>)
    requires pid !in s.procs && RefreshStands(s.t, client, token, scopes, s.clock)
    ensures After(Read(s, pid, token), pid, 2) == Recorded(s, pid, token)
  {
    var k := s.t.refresh[token].keyId;
    var key, grant := s.t.keys[k], s.t.grants[k];
    AfterTwo(Read(s, pid, token), pid);
    Moved(s.procs, pid, GrantRead(token, key, grant, |s.log|), RefreshTaken(token, key, grant, |s.log|));
    Moved(s.procs, pid, RefreshTaken(token, key, grant, |s.log|), UsedSaved(token, key, grant, |s.log|));
  }

  lemma RefreshRotates(s: State, pid: nat, token: Token, client: string, scopes: seq<string>)
    requires pid !in s.procs && RefreshStands(s.t, client, token, scopes, s.clock)
    ensures Step(Recorded(s, pid, token), Next(pid, true)) == RotatedTo(s, pid, token)
  {
    var k := s.t.refresh[token].keyId;
    var key, grant := s.t.keys[k], s.t.grants[k];
    Moved(s.procs, pid, UsedSaved(token, key, grant, |s.log|), KeyRotated(token, grant, |s.log|));
  }

  lemma RotatedRefreshSucceeds(s: State, pid: nat, token: Token, client: string, scopes: seq<string>)
    requires pid !in s.procs && RefreshStands(s.t, client, token, scopes, s.clock)
    ensures var k := s.t.refresh[token].keyId;
            Step(RotatedTo(s, pid, token), Next(pid, true))
            == s.(t := AfterRefresh(s, token), nextToken := s.nextToken + 2,
                  log := s.log + [Rotation(k, s.nextToken, |s.log|, s.clock)] + [RefreshSucceeded(token, k, |s.log|)])
  {
    var k := s.t.refresh[token].keyId;
    Moved(s.procs, pid, KeyRotated(token, s.t.grants[k], |s.log|), RefreshRead(token, s.t.refresh[token]));
  }

  lemma RefreshRecordsInFour(s: State, pid: nat, token: Token, client: string, scopes: seq<string>)
    requires pid !in s.procs && RefreshStands(s.t, client, token, scopes, s.clock)
    ensures After(Step(s, BeginRefresh(pid, token, client, scopes)), pid, 4) == Recorded(s, pid, token)
  {
    RefreshReads(s, pid, token, client, scopes);
    RefreshRecords(s, pid, token, client, scopes);
    AfterSum(Step(s, BeginRefresh(pid, token, client, scopes)), pid, 2, 2);
  }

  /** The refresh of the state machine is that of `ExchangeRefreshToken`. */
  lemma RefreshExchangeSucceeds(s: State, pid: nat, token: Token, client: string, scopes: seq<string>)
    requires pid !in s.procs && RefreshStands(s.t, client, token, scopes, s.clock)
    ensures var k := s.t.refresh[token].keyId;
            Run(s, [BeginRefresh(pid, token, client, scopes)] + Nexts(pid, 6))
            == s.(t := AfterRefresh(s, token), nextToken := s.nextToken + 2,
                  log := s.log + [Rotation(k, s.nextToken, |s.log|, s.clock)] + [RefreshSucceeded(token, k, |s.log|)])
  {
    RequestRuns(s, BeginRefresh(pid, token, client, scopes), pid, 6);
    AfterSum(Step(s, BeginRefresh(pid, token, client, scopes)), pid, 4, 2);
    AfterTwo(Recorded(s, pid, token), pid);
    RefreshRecordsInFour(s, pid, token, client, scopes);
    RefreshRotates(s, pid, token, client, scopes);
    RotatedRefreshSucceeds(s, pid, token, client, scopes);
  }

  /** A request that is not entitled to start changes nothing. */
  lemma RefusedAtOnce(s: State, pid: nat, token: Token, client: string, scopes: seq<string>, allowed: bool)
    ensures !(token in s.t.codes && s.t.codes[token].clientId == client && allowed) ==> Step(s, BeginCode(pid, token, client, allowed)) == s
    ensures token in s.t.refresh && (s.t.refresh[token].clientId != client || !ScopesMatch(scopes, s.t.refresh[token])) ==>
              Step(s, BeginRefresh(pid, token, client, scopes)) == s
    ensures (forall k :: k in s.t.keys ==> s.t.keys[k].key != token) ==> Step(s, BeginVerify(pid, token)) == s
  {
  }

  /** A denied check ends the request where it is: what it took or recorded before stays taken and recorded. */
  lemma DeniedEnds(s: State, pid: nat)
    requires pid in s.procs
    requires var p := s.procs[pid]; p.CodeTaken? || p.KeyRead? || p.UsedSaved? || p.Verifying? || p.Revoking?
    ensures Step(s, Next(pid, false)) == s.(procs := s.procs - {pid})
  {
  }

  /** A refresh token presented again by another client, or not recorded as used, revokes nothing. */
  lemma OnlyItsClientReplays(s: State, pid: nat, token: Token, client: string, scopes: seq<string>)
    requires pid !in s.procs && token !in s.t.refresh
    requires token in s.t.used ==> s.t.used[token].clientId != client
    ensures Run(s, [BeginRefresh(pid, token, client, scopes)] + Nexts(pid, 1)) == s
  {
    RequestRuns(s, BeginRefresh(pid, token, client, scopes), pid, 1);
    var s1 := Step(s, BeginRefresh(pid, token, client, scopes));
    Moved(s.procs, pid, Missing(token, client), Missing(token, client));
    AfterTwo(s1, pid);
  }

  /** Records expire out of Redis one by one; keys stay until they are revoked. */
  lemma ExpiredRecordsAreGone(s: State, code: Token, refresh: Token, used: Token, grant: KeyId)
    ensures var t := Step(s, Expire(code, refresh, used, grant)).t;
            && t.codes == s.t.codes - {code} && t.refresh == s.t.refresh - {refresh}
            && t.used == s.t.used - {used} && t.grants == s.t.grants - {grant} && t.keys == s.t.keys
  {
  }

  /** The key a token presented to `revokeToken` belongs to: a live or used refresh token's, or the access token's own. */
  ghost function KeyOfAny(t: Tables, token: Token): Option<KeyId> {
    if token in t.refresh then Some(t.refresh[token].keyId)
    else if token in t.used then Some(t.used[token].keyId)
    else KeyOf(t, token)
  }

  /** Revoking any of a connection's tokens revokes its key, and changes nothing else. */
  lemma RevokeTokenRevokes(s: State, pid: nat, token: Token)
    requires pid !in s.procs && KeyOfAny(s.t, token).Some?
    ensures var s' := Run(s, [BeginRevoke(pid, token)] + Nexts(pid, 1));
            var k := KeyOfAny(s.t, token).value;
            if k in s.t.grants && k in s.t.keys && s.t.keys[k].isActive
            then s' == s.(t := s.t.(keys := s.t.keys[k := s.t.keys[k].(isActive := false, revokedAt := Some(s.clock))]),
                          log := s.log + [KeyRevoked(k)])
            else s' == s
  {
    RequestRuns(s, BeginRevoke(pid, token), pid, 1);
    var s1 := Step(s, BeginRevoke(pid, token));
    Moved(s.procs, pid, Revoking(KeyOfAny(s.t, token).value), Revoking(KeyOfAny(s.t, token).value));
    assert s1 == To(s, pid, Revoking(KeyOfAny(s.t, token).value));
    AfterTwo(s1, pid);
  }

  /** Consent issues a code for the scopes selected, exactly when they are well formed and within a well-formed request. */
  lemma ConsentIssuesACode(s: State, clientId: string, userId: nat, requested: seq<string>, selected: seq<string>)
    ensures var s' := Step(s, IssueCode(clientId, userId, requested, selected));
            var asked := if requested == [] then ["workspace:read"] else requested;
            if READ in asked && Subset(asked, SUPPORTED) && READ in selected && Subset(selected, asked)
            then && s.nextToken in s'.t.codes && s'.t == s.t.(codes := s.t.codes[s.nextToken := s'.t.codes[s.nextToken]])
                 && var data := s'.t.codes[s.nextToken];
                    && data.clientId == clientId && data.userId == userId && data.requested == requested
                    && Subset(data.scopes, selected) && Subset(selected, data.scopes)
            else s' == s
  {
    var asked := if requested == [] then ["workspace:read"] else requested;
    assert ["workspace:read"] == DEFAULT_SCOPES;
    NormalizeKeepsTheSet(asked);
    NormalizeKeepsTheSet(selected);
    if Normalize(asked).Some? {
      var pending := Normalize(asked).value;
      ConsentExactlyWhen(pending, selected);
      assert Subset(selected, pending) <==> Subset(selected, asked);
    }
  }

  /** A request that crashes leaves what it did so far, and does nothing more. */
  lemma CrashesLeaveTheTables(s: State, pid: nat)
    ensures Step(s, Crash(pid)) == s.(procs := s.procs - {pid})
  {
  }
}
