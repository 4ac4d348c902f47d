/**
 * The MCP OAuth provider's stored state (src/auth/mcp-oauth-provider.js): bounded records in
 * Redis and access-token rows in SQL. Tokens are fresh numbers, so a token and its SHA-256
 * digest identify each other. Whether the owner's account still qualifies is an input.
 */
module McpOAuth {
  import opened Options
  import opened McpScopes

  const ACCESS_MS := 3600 * 1000
  const GRANT_MS := 30 * 86400 * 1000

  type Token = nat
  type KeyId = nat

  datatype CodeData = CodeData(clientId: string, userId: nat, requested: seq<string>, scopes: seq<string>)
  datatype Grant = Grant(keyId: KeyId, userId: nat, clientId: string, scopes: seq<string>, expiresAt: int)
  datatype UsedRef = UsedRef(keyId: KeyId, clientId: string)
  datatype KeyRow = KeyRow(key: Token, userId: nat, scopes: seq<string>, isActive: bool, revokedAt: Option<int>, expiresAt: int)

  datatype Tables = Tables(
    codes: map<Token, CodeData>, refresh: map<Token, Grant>, used: map<Token, UsedRef>,
    grants: map<KeyId, Grant>, keys: map<KeyId, KeyRow>)

  function Min(a: int, b: int): int { if a < b then a else b }

  // ---------------------------------------------------------------- checks

  /** `grantForKey` without the owner check. */
  predicate GrantStands(key: KeyRow, keyId: KeyId, grant: Grant, now: int) {
    && key.isActive && key.revokedAt.None?
    && key.userId == grant.userId && keyId == grant.keyId && grant.expiresAt > now
    && Normalize(grant.scopes).Some? && Normalize(key.scopes) == Normalize(grant.scopes)
  }

  /** The refresh request asks for no scopes, or for the grant's own. */
  predicate ScopesMatch(requested: seq<string>, grant: Grant) {
    requested == [] || Normalize(requested) == Normalize(grant.scopes)
  }

  /** The grant stands: an active key, the grant's own, not past its end, with the same set of supported scopes. */
  lemma GrantStandsExactlyWhen(key: KeyRow, keyId: KeyId, grant: Grant, now: int)
    ensures GrantStands(key, keyId, grant, now) <==>
              && key.isActive && key.revokedAt.None? && now < grant.expiresAt
              && grant.keyId == keyId && grant.userId == key.userId
              && READ in grant.scopes && Subset(grant.scopes, SUPPORTED)
              && Subset(key.scopes, grant.scopes) && Subset(grant.scopes, key.scopes)
  {
    NormalizeKeepsTheSet(grant.scopes);
    NormalizeKeepsTheSet(key.scopes);
    if Normalize(grant.scopes).Some? && Normalize(key.scopes).Some? {
      NormalizeIgnoresOrder(key.scopes, grant.scopes);
    }
  }

  /** A refresh may name its grant's scopes, in any order, or none. */
  lemma ScopesMatchExactlyWhen(requested: seq<string>, grant: Grant)
    requires Normalize(grant.scopes).Some?
    ensures ScopesMatch(requested, grant) <==> requested == [] || (Subset(requested, grant.scopes) && Subset(grant.scopes, requested))
  {
    NormalizeKeepsTheSet(grant.scopes);
    NormalizeKeepsTheSet(requested);
    if Normalize(requested).Some? {
      NormalizeIgnoresOrder(requested, grant.scopes);
    }
  }

  // ---------------------------------------------------------------- atomic updates

  function KeyFor(data: CodeData, access: Token, now: int): KeyRow {
    KeyRow(access, data.userId, data.scopes, true, None, now + ACCESS_MS)
  }

  function GrantFor(data: CodeData, keyId: KeyId, now: int): Grant {
    Grant(keyId, data.userId, data.clientId, data.scopes, now + GRANT_MS)
  }

  /** The condition of the rotation: the row is as read, active and unrevoked, with the grant's owner and scopes. */
  predicate MayRotate(t: Tables, keyId: KeyId, seen: KeyRow, grant: Grant) {
    && keyId in t.keys
    && t.keys[keyId].userId == grant.userId && Normalize(t.keys[keyId].scopes) == Normalize(grant.scopes)
    && t.keys[keyId].key == seen.key && t.keys[keyId].isActive && t.keys[keyId].revokedAt.None?
  }

  function Rotated(row: KeyRow, grant: Grant, access: Token, now: int): KeyRow {
    row.(key := access, expiresAt := Min(grant.expiresAt, now + ACCESS_MS))
  }

  function Revoked(row: KeyRow, now: int): KeyRow {
    row.(isActive := false, revokedAt := Some(now))
  }

  // ---------------------------------------------------------------- one request, undisturbed

  datatype Reply = Tokens(access: Token, refresh: Token, expiresAt: int, scopes: seq<string>) | InvalidGrant

  /** What an undisturbed refresh requires: the token is live, the client and scopes are right, and its key and grant stand. */
  predicate RefreshStands(t: Tables, client: string, token: Token, scopes: seq<string>, now: int) {
    && token in t.refresh && t.refresh[token].clientId == client && ScopesMatch(scopes, t.refresh[token])
    && t.refresh[token].keyId in t.keys && t.refresh[token].keyId in t.grants
    && GrantStands(t.keys[t.refresh[token].keyId], t.refresh[token].keyId, t.grants[t.refresh[token].keyId], now)
  }

  class Provider {
    var codes: map<Token, CodeData>
    var refresh: map<Token, Grant>
    var used: map<Token, UsedRef>
    var grants: map<KeyId, Grant>
    var keys: map<KeyId, KeyRow>

    function State(): Tables
      reads this
    {
      Tables(codes, refresh, used, grants, keys)
    }

    constructor (t: Tables)
      ensures State() == t
    {
      codes, refresh, used, grants, keys := t.codes, t.refresh, t.used, t.grants, t.keys;
    }

    method TakeCode(code: Token) returns (taken: Option<CodeData>)
      modifies this`codes
      ensures taken == (if code in old(codes) then Some(old(codes)[code]) else None)
      ensures codes == old(codes) - {code}
    {
      taken := if code in codes then Some(codes[code]) else None;
      codes := codes - {code};
    }

    method TakeRefresh(token: Token) returns (taken: Option<Grant>)
      modifies this`refresh
      ensures taken == (if token in old(refresh) then Some(old(refresh)[token]) else None)
      ensures refresh == old(refresh) - {token}
    {
      taken := if token in refresh then Some(refresh[token]) else None;
      refresh := refresh - {token};
    }

    method RotateKey(keyId: KeyId, seen: KeyRow, grant: Grant, access: Token, now: int) returns (changed: bool)
      modifies this`keys
      ensures changed == MayRotate(old(State()), keyId, seen, grant)
      ensures changed <==> keyId in old(keys) && var row := old(keys)[keyId];
                           && row.key == seen.key && row.isActive && row.revokedAt.None?
                           && row.userId == grant.userId && Normalize(row.scopes) == Normalize(grant.scopes)
      ensures keys == if changed then old(keys)[keyId := Rotated(old(keys)[keyId], grant, access, now)] else old(keys)
    {
      if keyId !in keys || keys[keyId].userId != grant.userId || Normalize(keys[keyId].scopes) != Normalize(grant.scopes) {
        return false;
      }
      changed := keys[keyId].key == seen.key && keys[keyId].isActive && keys[keyId].revokedAt.None?;
      if changed {
        keys := keys[keyId := keys[keyId].(key := access, expiresAt := Min(grant.expiresAt, now + ACCESS_MS))];
      }
    }

    /** The owner-wide revocation of a replayed token's key. */
    method RevokeKey(keyId: KeyId, now: int)
      modifies this`keys
      ensures keys == if keyId in old(keys) then old(keys)[keyId := Revoked(old(keys)[keyId], now)] else old(keys)
    {
      if keyId in keys {
        keys := keys[keyId := keys[keyId].(isActive := false, revokedAt := Some(now))];
      }
    }

    /**
     * `exchangeAuthorizationCode`: `allowed` is the PKCE, redirect and account checks, `keyAllowed`
     * the checks repeated inside the transaction (after the code is gone).
     */
    method ExchangeAuthorizationCode(client: string, code: Token, allowed: bool, keyAllowed: bool, keyId: KeyId, access: Token, refreshToken: Token, now: int)
      returns (reply: Reply)
      requires keyId !in keys && keyId !in grants && refreshToken !in refresh
      modifies this
      ensures reply.Tokens? <==> code in old(codes) && old(codes)[code].clientId == client && allowed && keyAllowed
      ensures reply.InvalidGrant? ==>
                var spent := code in old(codes) && old(codes)[code].clientId == client && allowed;
                State() == old(State()).(codes := if spent then old(codes) - {code} else old(codes))
      ensures reply.Tokens? ==>
                var data := old(codes)[code];
                && codes == old(codes) - {code} && used == old(used)
                && keys == old(keys)[keyId := KeyFor(data, access, now)]
                && grants == old(grants)[keyId := GrantFor(data, keyId, now)]
                && refresh == old(refresh)[refreshToken := grants[keyId]]
                && reply == Tokens(access, refreshToken, now + ACCESS_MS, data.scopes)
    {
      if code !in codes || codes[code].clientId != client || !allowed {
        return InvalidGrant;
      }
      var taken := TakeCode(code);
      if taken.None? {
        return InvalidGrant;
      }
      if !keyAllowed {
        return InvalidGrant;
      }
      var data := taken.value;
      keys := keys[keyId := KeyFor(data, access, now)];
      var grant := GrantFor(data, keyId, now);
      grants := grants[keyId := grant];
      refresh := refresh[refreshToken := grant];
      return Tokens(access, refreshToken, keys[keyId].expiresAt, grant.scopes);
    }

    /** `exchangeRefreshToken`; the account check is made before the token is taken and again in the transaction. */
    method ExchangeRefreshToken(client: string, token: Token, scopes: seq<string>, allowed: bool, stillAllowed: bool, access: Token, next: Token, now: int)
      returns (reply: Reply)
      requires next != token
      modifies this
      ensures reply.Tokens? <==> RefreshStands(old(State()), client, token, scopes, now) && allowed && stillAllowed
      ensures reply.Tokens? ==>
                var grant := old(grants)[old(refresh)[token].keyId];
                && token !in refresh && refresh == (old(refresh) - {token})[next := grant]
                && used == old(used)[token := UsedRef(grant.keyId, grant.clientId)]
                && keys == old(keys)[grant.keyId := Rotated(old(keys)[grant.keyId], grant, access, now)]
                && codes == old(codes) && grants == old(grants)
                && reply == Tokens(access, next, Min(grant.expiresAt, now + ACCESS_MS), grant.scopes)
                && now < reply.expiresAt <= grant.expiresAt && reply.expiresAt <= now + 3_600_000
      ensures reply.InvalidGrant? && token in old(refresh) ==>
                if RefreshStands(old(State()), client, token, scopes, now) && allowed
                then State() == old(State()).(refresh := old(refresh) - {token},
                       used := old(used)[token := UsedRef(old(refresh)[token].keyId, old(grants)[old(refresh)[token].keyId].clientId)])
                else State() == old(State())
      ensures token !in old(refresh) ==>
                && codes == old(codes) && refresh == old(refresh) && used == old(used) && grants == old(grants)
                && keys == if token in used && used[token].clientId == client && used[token].keyId in old(keys)
                           then old(keys)[used[token].keyId := Revoked(old(keys)[used[token].keyId], now)] else old(keys)
    {
      if token !in refresh {
        if token in used && used[token].clientId == client {
          RevokeKey(used[token].keyId, now);
        }
        return InvalidGrant;
      }
      var data := refresh[token];
      if data.clientId != client || !ScopesMatch(scopes, data) {
        return InvalidGrant;
      }
      if data.keyId !in keys || data.keyId !in grants || !GrantStands(keys[data.keyId], data.keyId, grants[data.keyId], now) || !allowed {
        return InvalidGrant;
      }
      var seen := keys[data.keyId];
      var grant := grants[data.keyId];
      var taken := TakeRefresh(token);
      if taken.None? {
        return InvalidGrant;
      }
      used := used[token := UsedRef(data.keyId, grant.clientId)];
      if !stillAllowed {
        return InvalidGrant;
      }
      var changed := RotateKey(data.keyId, seen, grant, access, now);
      if !changed {
        return InvalidGrant;
      }
      refresh := refresh[next := grant];
      return Tokens(access, next, keys[data.keyId].expiresAt, grant.scopes);
    }
  }
}
