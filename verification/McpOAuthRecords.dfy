/**
 * What the stored records say in every reachable state: grants and refresh records are
 * exactly as issued, keys carry their grant's scopes and never outlive it.
 */
module McpOAuthRecords {
  import opened Options
  import opened McpScopes
  import opened McpOAuth
  import opened McpOAuthRuns
  import opened FreshIds

  /** The grant is the one created for its key, unchanged. */
  predicate AsIssued(s: State, grant: Grant) {
    grant.keyId in s.issued && s.issued[grant.keyId].grant == grant
  }

  /** An issued grant's key carries its owner and scopes, and never outlives it. */
  predicate KeyOk(s: State, k: KeyId) {
    k in s.issued ==>
      && k in s.t.keys && s.issued[k].grant.keyId == k
      && s.t.keys[k].userId == s.issued[k].grant.userId && s.t.keys[k].scopes == s.issued[k].grant.scopes
      && s.t.keys[k].expiresAt <= s.issued[k].grant.expiresAt
      && s.issued[k].grant.scopes == s.issued[k].data.scopes && s.issued[k].data in s.consented
  }

  predicate ProcOk(s: State, p: Proc) {
    match p
    case CodeTaken(token, data) => data in s.consented
    case KeyCreated(token, data, keyId) =>
      && data in s.consented && keyId !in s.issued && keyId in s.t.keys
      && s.t.keys[keyId].userId == data.userId && s.t.keys[keyId].scopes == data.scopes
      && s.t.keys[keyId].expiresAt <= s.clock + GRANT_MS
    case GrantSaved(token, grant) => AsIssued(s, grant)
    case RefreshRead(token, data) =>
      token < s.nextToken && AsIssued(s, data) && (token in s.t.refresh ==> s.t.refresh[token] == data)
    case KeyRead(token, keyId, key, since) =>
      token < s.nextToken && keyId in s.issued && (token in s.t.refresh ==> s.t.refresh[token].keyId == keyId)
    case GrantRead(token, key, grant, since) =>
      token < s.nextToken && AsIssued(s, grant) && (token in s.t.refresh ==> s.t.refresh[token].keyId == grant.keyId)
    case RefreshTaken(token, key, grant, since) => AsIssued(s, grant)
    case UsedSaved(token, key, grant, since) => AsIssued(s, grant)
    case KeyRotated(token, grant, since) => AsIssued(s, grant)
    case _ => true
  }

  ghost predicate TablesOk(s: State) {
    && (forall c :: c in s.t.codes ==> s.t.codes[c] in s.consented)
    && (forall r :: r in s.t.refresh ==> r < s.nextToken && AsIssued(s, s.t.refresh[r]))
    && (forall k :: k in s.t.grants ==> k in s.issued && s.t.grants[k] == s.issued[k].grant)
    && (forall k :: k in s.issued ==> KeyOk(s, k))
    && (forall k :: k in s.t.keys ==> k < s.nextToken)
  }

  ghost predicate ProcsOk(s: State) {
    && (forall pid :: pid in s.procs ==> ProcOk(s, s.procs[pid]))
    && (forall p, q :: p in s.procs && q in s.procs && p != q && s.procs[p].KeyCreated? && s.procs[q].KeyCreated? ==>
          s.procs[p].keyId != s.procs[q].keyId)
  }

  ghost predicate Records(s: State) {
    TablesOk(s) && ProcsOk(s)
  }

  /** Nothing another process relies on was taken away: only new tokens, keys and grants appear. */
  ghost predicate Grows(s: State, s': State) {
    && s'.nextToken >= s.nextToken && s'.clock >= s.clock && s.consented <= s'.consented
    && (forall k :: k in s.issued ==> k in s'.issued && s'.issued[k] == s.issued[k])
    && (forall r :: r in s'.t.refresh && r < s.nextToken ==> r in s.t.refresh && s'.t.refresh[r] == s.t.refresh[r])
    && (forall k :: k in s.t.keys ==> k in s'.t.keys && s'.t.keys[k].userId == s.t.keys[k].userId && s'.t.keys[k].scopes == s.t.keys[k].scopes)
    && (forall k :: k in s.t.keys && k !in s.issued ==> s'.t.keys[k].expiresAt == s.t.keys[k].expiresAt)
  }

  lemma ProcStaysOk(s: State, s': State, p: Proc)
    requires ProcOk(s, p) && Grows(s, s')
    requires p.KeyCreated? ==> p.keyId !in s'.issued
    ensures ProcOk(s', p)
  {
  }

  lemma ProcsStayOk(s: State, s': State, pid: nat)
    requires ProcsOk(s) && Grows(s, s')
    requires s'.procs - {pid} == s.procs - {pid}
    requires forall k :: k in s'.issued && k !in s.issued ==> pid in s.procs && s.procs[pid].KeyCreated? && s.procs[pid].keyId == k
    requires pid in s'.procs ==> ProcOk(s', s'.procs[pid])
    requires pid in s'.procs && s'.procs[pid].KeyCreated? ==>
               forall q :: q in s.procs && q != pid && s.procs[q].KeyCreated? ==> s.procs[q].keyId != s'.procs[pid].keyId
    ensures ProcsOk(s')
  {
    forall q | q in s'.procs ensures ProcOk(s', s'.procs[q]) {
      if q != pid {
        assert q in s'.procs - {pid} && q in s.procs && s'.procs[q] == s.procs[q];
        ProcStaysOk(s, s', s.procs[q]);
      }
    }
    forall p, q | p in s'.procs && q in s'.procs && p != q && s'.procs[p].KeyCreated? && s'.procs[q].KeyCreated?
      ensures s'.procs[p].keyId != s'.procs[q].keyId
    {
      assert p != pid ==> p in s'.procs - {pid} && s'.procs[p] == s.procs[p];
      assert q != pid ==> q in s'.procs - {pid} && s'.procs[q] == s.procs[q];
    }
  }

  lemma KeepsRecords(s: State, s': State, pid: nat)
    requires Records(s) && TablesOk(s') && Grows(s, s')
    requires s'.procs - {pid} == s.procs - {pid}
    requires forall k :: k in s'.issued && k !in s.issued ==> pid in s.procs && s.procs[pid].KeyCreated? && s.procs[pid].keyId == k
    requires pid in s'.procs ==> ProcOk(s', s'.procs[pid])
    requires pid in s'.procs && s'.procs[pid].KeyCreated? ==> s'.procs[pid].keyId >= s.nextToken
    ensures Records(s')
  {
    forall q | q in s.procs && q != pid && s.procs[q].KeyCreated?
      ensures pid in s'.procs && s'.procs[pid].KeyCreated? ==> s.procs[q].keyId != s'.procs[pid].keyId
    {
      assert ProcOk(s, s.procs[q]);
    }
    ProcsStayOk(s, s', pid);
  }

  /** Records are at most taken away, keys at most revoked: what reading, taking, expiry and revocation do. */
  ghost predicate Fewer(s: State, s': State) {
    && s'.nextToken >= s.nextToken && s'.clock >= s.clock && s'.issued == s.issued && s.consented <= s'.consented
    && (forall c :: c in s'.t.codes ==> c in s.t.codes && s'.t.codes[c] == s.t.codes[c])
    && (forall r :: r in s'.t.refresh ==> r in s.t.refresh && s'.t.refresh[r] == s.t.refresh[r])
    && (forall k :: k in s'.t.grants ==> k in s.t.grants && s'.t.grants[k] == s.t.grants[k])
    && s'.t.keys.Keys == s.t.keys.Keys
    && (forall k :: k in s.t.keys ==> SameTerms(s.t.keys[k], s'.t.keys[k]))
  }

  predicate SameTerms(a: KeyRow, b: KeyRow) {
    b.userId == a.userId && b.scopes == a.scopes && b.expiresAt == a.expiresAt
  }

  lemma FewerKeepsTables(s: State, s': State)
    requires TablesOk(s) && Fewer(s, s')
    ensures TablesOk(s')
  {
    forall k | k in s'.issued ensures KeyOk(s', k) {
      assert KeyOk(s, k);
    }
    forall r | r in s'.t.refresh ensures r < s'.nextToken && AsIssued(s', s'.t.refresh[r]) {
      assert AsIssued(s, s.t.refresh[r]);
    }
  }

  lemma FewerKeepsRecords(s: State, s': State, pid: nat)
    requires Records(s) && Fewer(s, s') && s'.procs - {pid} == s.procs - {pid}
    requires pid in s'.procs ==> ProcOk(s', s'.procs[pid]) && !s'.procs[pid].KeyCreated?
    ensures Records(s')
  {
    FewerKeepsTables(s, s');
    KeepsRecords(s, s', pid);
  }

  /** A request that only reads moves on to what it read, or ends. */
  lemma MoveKeepsRecords(s: State, pid: nat, p: Proc)
    requires Records(s) && ProcOk(s, p) && !p.KeyCreated?
    ensures Records(To(s, pid, p))
  {
    var s' := To(s, pid, p);
    ProcIgnoresProcs(s, pid, p);
    assert Fewer(s, s');
    FewerKeepsRecords(s, s', pid);
  }

  lemma ProcIgnoresProcs(s: State, pid: nat, p: Proc)
    requires ProcOk(s, p)
    ensures ProcOk(To(s, pid, p), p)
  {
  }

  lemma EndKeepsRecords(s: State, pid: nat)
    requires Records(s)
    ensures Records(Done(s, pid))
  {
    FewerKeepsRecords(s, Done(s, pid), pid);
  }

  // ---------------------------------------------------------------- the steps that add a record

  lemma CodeTakenKeepsRecords(s: State, pid: nat, allowed: bool)
    requires Records(s) && pid in s.procs && s.procs[pid].CodeTaken?
    ensures Records(NextOfCode(s, pid, s.procs[pid], allowed))
  {
    var s' := NextOfCode(s, pid, s.procs[pid], allowed);
    assert ProcOk(s, s.procs[pid]);
    if allowed {
      NewKeyKeepsTables(s, s');
      KeepsRecords(s, s', pid);
    } else {
      FewerKeepsRecords(s, s', pid);
    }
  }

  lemma NewKeyKeepsTables(s: State, s': State)
    requires TablesOk(s) && s'.issued == s.issued && s'.consented == s.consented && s'.nextToken == s.nextToken + 1
    requires s'.t == s.t.(keys := s'.t.keys) && s'.t.keys.Keys == s.t.keys.Keys + {s.nextToken}
    requires forall k :: k in s.t.keys ==> s'.t.keys[k] == s.t.keys[k]
    ensures TablesOk(s')
  {
    forall k | k in s'.issued ensures KeyOk(s', k) {
      assert KeyOk(s, k);
    }
    forall r | r in s'.t.refresh ensures AsIssued(s', s'.t.refresh[r]) {
      assert AsIssued(s, s.t.refresh[r]);
    }
  }

  lemma KeyCreatedKeepsRecords(s: State, pid: nat, allowed: bool)
    requires Records(s) && pid in s.procs && s.procs[pid].KeyCreated?
    ensures Records(NextOfCode(s, pid, s.procs[pid], allowed))
  {
    assert ProcOk(s, s.procs[pid]);
    var s' := NextOfCode(s, pid, s.procs[pid], allowed);
    NewGrantKeepsTables(s, s', s.procs[pid].keyId, s.procs[pid].data);
    KeepsRecords(s, s', pid);
  }

  lemma NewGrantKeepsTables(s: State, s': State, keyId: KeyId, data: CodeData)
    requires TablesOk(s) && data in s.consented && keyId !in s.issued && keyId in s.t.keys
    requires s.t.keys[keyId].userId == data.userId && s.t.keys[keyId].scopes == data.scopes
    requires s.t.keys[keyId].expiresAt <= s.clock + GRANT_MS
    requires var grant := GrantFor(data, keyId, s.clock);
             s' == s.(procs := s'.procs, t := s.t.(grants := s.t.grants[keyId := grant]), issued := s.issued[keyId := Issue(grant, data, s.clock)])
    ensures TablesOk(s')
  {
    forall k | k in s'.issued ensures KeyOk(s', k) {
      assert k != keyId ==> KeyOk(s, k);
    }
    forall r | r in s'.t.refresh ensures AsIssued(s', s'.t.refresh[r]) {
      assert AsIssued(s, s.t.refresh[r]);
    }
  }

  /** A finished exchange: its grant gets one more refresh token. */
  lemma GivenRefreshKeepsRecords(s: State, s': State, pid: nat, grant: Grant)
    requires Records(s) && AsIssued(s, grant) && s'.procs == s.procs - {pid}
    requires s' == s.(procs := s'.procs, t := s.t.(refresh := s.t.refresh[s.nextToken := grant]), nextToken := s.nextToken + 1, log := s'.log)
    ensures Records(s')
  {
    forall k | k in s'.issued ensures KeyOk(s', k) {
      assert KeyOk(s, k);
    }
    forall r | r in s'.t.refresh ensures AsIssued(s', s'.t.refresh[r]) {
      assert r in s.t.refresh ==> AsIssued(s, s.t.refresh[r]);
    }
    KeepsRecords(s, s', pid);
  }

  lemma RotationKeepsRecords(s: State, pid: nat, allowed: bool)
    requires Records(s) && pid in s.procs && s.procs[pid].UsedSaved?
    ensures Records(NextOfRefresh(s, pid, s.procs[pid], allowed))
  {
    var p := s.procs[pid];
    var s' := NextOfRefresh(s, pid, p, allowed);
    assert ProcOk(s, p);
    if pid in s'.procs {
      RotatedKeyKeepsTables(s, s', p.grant);
      KeepsRecords(s, s', pid);
    } else {
      FewerKeepsRecords(s, s', pid);
    }
  }

  lemma RotatedKeyKeepsTables(s: State, s': State, grant: Grant)
    requires TablesOk(s) && AsIssued(s, grant) && grant.keyId in s.t.keys
    requires s'.issued == s.issued && s'.consented == s.consented && s'.nextToken == s.nextToken + 1
    requires s'.t == s.t.(keys := s.t.keys[grant.keyId := Rotated(s.t.keys[grant.keyId], grant, s.nextToken, s.clock)])
    ensures TablesOk(s')
  {
    forall k | k in s'.issued ensures KeyOk(s', k) {
      assert KeyOk(s, k);
    }
    forall r | r in s'.t.refresh ensures AsIssued(s', s'.t.refresh[r]) {
      assert AsIssued(s, s.t.refresh[r]);
    }
  }

  // ---------------------------------------------------------------- the other steps

  lemma CodeStepKeepsRecords(s: State, pid: nat, allowed: bool)
    requires Records(s) && pid in s.procs
    requires var p := s.procs[pid]; p.CodeRead? || p.CodeTaken? || p.KeyCreated? || p.GrantSaved?
    ensures Records(NextOfCode(s, pid, s.procs[pid], allowed))
  {
    var p := s.procs[pid];
    assert ProcOk(s, p);
    match p
    case CodeRead(_) => FewerKeepsRecords(s, NextOfCode(s, pid, p, allowed), pid);
    case CodeTaken(_, _) => CodeTakenKeepsRecords(s, pid, allowed);
    case KeyCreated(_, _, _) => KeyCreatedKeepsRecords(s, pid, allowed);
    case GrantSaved(_, grant) => GivenRefreshKeepsRecords(s, NextOfCode(s, pid, p, allowed), pid, grant);
  }

  lemma ReadKeepsRecords(s: State, pid: nat, allowed: bool)
    requires Records(s) && pid in s.procs && (s.procs[pid].RefreshRead? || s.procs[pid].KeyRead?)
    ensures Records(NextOfRefresh(s, pid, s.procs[pid], allowed))
  {
    var s' := NextOfRefresh(s, pid, s.procs[pid], allowed);
    assert ProcOk(s, s.procs[pid]);
    if pid in s'.procs {
      assert s' == To(s, pid, s'.procs[pid]);
      MoveKeepsRecords(s, pid, s'.procs[pid]);
    } else {
      EndKeepsRecords(s, pid);
    }
  }

  lemma TakeKeepsRecords(s: State, pid: nat, allowed: bool)
    requires Records(s) && pid in s.procs && s.procs[pid].GrantRead?
    ensures Records(NextOfRefresh(s, pid, s.procs[pid], allowed))
  {
    assert ProcOk(s, s.procs[pid]);
    FewerKeepsRecords(s, NextOfRefresh(s, pid, s.procs[pid], allowed), pid);
  }

  lemma UsedSaveKeepsRecords(s: State, pid: nat, allowed: bool)
    requires Records(s) && pid in s.procs && s.procs[pid].RefreshTaken?
    ensures Records(NextOfRefresh(s, pid, s.procs[pid], allowed))
  {
    assert ProcOk(s, s.procs[pid]);
    FewerKeepsRecords(s, NextOfRefresh(s, pid, s.procs[pid], allowed), pid);
  }

  lemma RefreshStepKeepsRecords(s: State, pid: nat, allowed: bool)
    requires Records(s) && pid in s.procs
    requires var p := s.procs[pid]; p.RefreshRead? || p.KeyRead? || p.GrantRead? || p.RefreshTaken? || p.UsedSaved? || p.KeyRotated?
    ensures Records(NextOfRefresh(s, pid, s.procs[pid], allowed))
  {
    var p := s.procs[pid];
    match p
    case UsedSaved(_, _, _, _) => RotationKeepsRecords(s, pid, allowed);
    case KeyRotated(_, grant, _) =>
      assert ProcOk(s, p);
      GivenRefreshKeepsRecords(s, NextOfRefresh(s, pid, p, allowed), pid, grant);
    case GrantRead(_, _, _, _) => TakeKeepsRecords(s, pid, allowed);
    case RefreshTaken(_, _, _, _) => UsedSaveKeepsRecords(s, pid, allowed);
    case _ => ReadKeepsRecords(s, pid, allowed);
  }

  lemma RevocationKeepsRecords(s: State, pid: nat, keyId: KeyId)
    requires Records(s)
    ensures Records(Revoke(s, pid, keyId))
  {
    FewerKeepsRecords(s, Revoke(s, pid, keyId), pid);
  }

  lemma OthersKeepRecords(s: State, pid: nat, allowed: bool)
    requires Records(s) && pid in s.procs
    requires var p := s.procs[pid]; p.Missing? || p.Replay? || p.Verifying? || p.Revoking?
    ensures Records(NextOfOthers(s, pid, s.procs[pid], allowed))
  {
    match s.procs[pid]
    case Missing(token, client) =>
      if token in s.t.used && s.t.used[token].clientId == client {
        MoveKeepsRecords(s, pid, Replay(s.t.used[token].keyId));
      } else {
        EndKeepsRecords(s, pid);
      }
    case Verifying(_, _, _, _) => FewerKeepsRecords(s, NextOfOthers(s, pid, s.procs[pid], allowed), pid);
    case Replay(keyId) => RevocationKeepsRecords(s, pid, keyId);
    case Revoking(keyId) =>
      EndKeepsRecords(s, pid);
      RevocationKeepsRecords(s, pid, keyId);
  }

  lemma NextKeepsRecords(s: State, pid: nat, allowed: bool)
    requires Records(s) && pid in s.procs
    ensures Records(NextStep(s, pid, s.procs[pid], allowed))
  {
    var p := s.procs[pid];
    if p.CodeRead? || p.CodeTaken? || p.KeyCreated? || p.GrantSaved? {
      CodeStepKeepsRecords(s, pid, allowed);
    } else if p.Missing? || p.Replay? || p.Verifying? || p.Revoking? {
      OthersKeepRecords(s, pid, allowed);
    } else {
      RefreshStepKeepsRecords(s, pid, allowed);
    }
  }

  lemma IssueCodeKeepsRecords(s: State, a: Action)
    requires Records(s) && a.IssueCode?
    ensures Records(Step(s, a))
  {
    var s' := Step(s, a);
    if s' != s {
      var pid := Unused(s.procs.Keys);
      NewCodeKeepsTables(s, s');
      KeepsRecords(s, s', pid);
    }
  }

  lemma NewCodeKeepsTables(s: State, s': State)
    requires TablesOk(s) && s'.issued == s.issued && s.consented <= s'.consented && s'.nextToken == s.nextToken + 1
    requires s'.t == s.t.(codes := s'.t.codes) && forall c :: c in s'.t.codes ==> s'.t.codes[c] in s'.consented
    ensures TablesOk(s')
  {
    forall k | k in s'.issued ensures KeyOk(s', k) {
      assert KeyOk(s, k);
    }
    forall r | r in s'.t.refresh ensures AsIssued(s', s'.t.refresh[r]) {
      assert AsIssued(s, s.t.refresh[r]);
    }
  }

  predicate IsBegin(a: Action) {
    a.BeginCode? || a.BeginRefresh? || a.BeginVerify? || a.BeginRevoke?
  }

  lemma BeginKeepsRecords(s: State, a: Action)
    requires Records(s) && IsBegin(a)
    ensures Records(Step(s, a))
  {
    if a.pid !in s.procs && Begin(s, a).Some? {
      FirstProcIsOk(s, a);
      MoveKeepsRecords(s, a.pid, Begin(s, a).value);
    }
  }

  lemma FirstProcIsOk(s: State, a: Action)
    requires TablesOk(s) && IsBegin(a) && Begin(s, a).Some?
    ensures ProcOk(s, Begin(s, a).value) && !Begin(s, a).value.KeyCreated?
  {
  }

  lemma StepKeepsRecords(s: State, a: Action)
    requires Records(s)
    ensures Records(Step(s, a))
  {
    if a.Next? {
      if a.pid in s.procs { NextKeepsRecords(s, a.pid, a.allowed); }
    } else if a.IssueCode? {
      IssueCodeKeepsRecords(s, a);
    } else if IsBegin(a) {
      BeginKeepsRecords(s, a);
    } else if a.Crash? {
      EndKeepsRecords(s, a.pid);
    } else {
      EnvironmentKeepsRecords(s, a);
    }
  }

  lemma EnvironmentKeepsRecords(s: State, a: Action)
    requires Records(s) && (a.Tick? || a.OwnerRevokes? || a.Expire?)
    ensures Records(Step(s, a))
  {
    EnvironmentOnlyTakesAway(s, a);
    FewerKeepsRecords(s, Step(s, a), Unused(s.procs.Keys));
  }

  lemma EnvironmentOnlyTakesAway(s: State, a: Action)
    requires a.Tick? || a.OwnerRevokes? || a.Expire?
    ensures Fewer(s, Step(s, a)) && Step(s, a).procs == s.procs
  {
  }

  lemma {:induction false} RunKeepsRecords(s: State, actions: seq<Action>)
    requires Records(s)
    ensures Records(Run(s, actions))
    decreases |actions|
  {
    if actions != [] {
      StepKeepsRecords(s, actions[0]);
      RunKeepsRecords(Step(s, actions[0]), actions[1..]);
    }
  }

  // ---------------------------------------------------------------- consents

  /** Reading is always granted, and nothing the client did not request; the scopes are stored normalized. */
  predicate ConsentOk(data: CodeData) {
    Normalize(data.scopes) == Some(data.scopes) && READ in data.scopes && Subset(data.scopes, if data.requested == [] then DEFAULT_SCOPES else data.requested)
  }

  lemma {:induction false} RunKeepsConsents(s: State, actions: seq<Action>)
    requires forall d :: d in s.consented ==> ConsentOk(d)
    ensures forall d :: d in Run(s, actions).consented ==> ConsentOk(d)
    decreases |actions|
  {
    if actions != [] {
      var a := actions[0];
      if a.IssueCode? && Authorize(a.requested).Some? && Consent(Authorize(a.requested).value, a.selected).Some? {
        ConsentNeverWidens(a.requested, a.selected);
        NormalizeIsIdempotent(a.selected);
      }
      NextKeepsConsents(s, a);
      RunKeepsConsents(Step(s, a), actions[1..]);
    }
  }

  lemma NextKeepsConsents(s: State, a: Action)
    ensures !a.IssueCode? ==> Step(s, a).consented == s.consented
  {
  }

  /**
   * In every run: the grant behind a live refresh token or a stored grant record is the one
   * created by the code exchange (rotation neither extends it nor changes its scopes), its
   * scopes are consented ones, and its access token expires no later than it does.
   */
  lemma GrantsNeverWiden(clock: int, actions: seq<Action>)
    ensures var s := Run(Init(clock), actions);
            && (forall r :: r in s.t.refresh ==> s.t.refresh[r].keyId in s.issued && s.t.refresh[r] == s.issued[s.t.refresh[r].keyId].grant)
            && (forall k :: k in s.t.grants ==> k in s.issued && s.t.grants[k] == s.issued[k].grant)
            && (forall k :: k in s.issued ==>
                  && k in s.t.keys && s.t.keys[k].expiresAt <= s.issued[k].grant.expiresAt
                  && s.t.keys[k].scopes == s.issued[k].grant.scopes == s.issued[k].data.scopes && ConsentOk(s.issued[k].data))
  {
    RunKeepsRecords(Init(clock), actions);
    RunKeepsConsents(Init(clock), actions);
    var s := Run(Init(clock), actions);
    forall k | k in s.issued ensures KeyOk(s, k) {}
    forall r | r in s.t.refresh ensures AsIssued(s, s.t.refresh[r]) {}
  }
}
