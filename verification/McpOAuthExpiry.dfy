/**
 * How long an access token verifies: less than an hour from the exchange or rotation that
 * issued it, and never past its connection's grant; and until then it does.
 */
module McpOAuthExpiry {
  import opened Options
  import opened McpScopes
  import opened McpOAuth
  import opened McpOAuthRuns
  import opened McpOAuthRecords
  import opened McpOAuthRevocation
  import opened FreshIds

  predicate Issues(e: Event, keyId: KeyId) {
    (e.KeyIssued? || e.Rotation?) && e.keyId == keyId
  }

  /** When the key was last given an access token. */
  function IssuedAt(log: seq<Event>, keyId: KeyId): Option<int> {
    if log == [] then None
    else if Issues(log[|log| - 1], keyId) then Some(log[|log| - 1].at)
    else IssuedAt(log[..|log| - 1], keyId)
  }

  lemma IssuedAfter(log: seq<Event>, e: Event, keyId: KeyId)
    ensures IssuedAt(log + [e], keyId) == if Issues(e, keyId) then Some(e.at) else IssuedAt(log, keyId)
  {
    assert (log + [e])[..|log|] == log;
  }

  /** An hour after its issue, or with the grant if that ends sooner. */
  function EndOf(s: State, keyId: KeyId, issuedAt: int): int {
    if keyId in s.issued then Min(s.issued[keyId].grant.expiresAt, issuedAt + ACCESS_MS) else issuedAt + ACCESS_MS
  }

  predicate KeyTimely(s: State, k: KeyId)
    requires k in s.t.keys
  {
    && IssuedAt(s.log, k).Some? && IssuedAt(s.log, k).value <= s.clock
    && s.t.keys[k].expiresAt == EndOf(s, k, IssuedAt(s.log, k).value)
    && (s.t.keys[k].isActive <==> s.t.keys[k].revokedAt.None?)
    && s.t.keys[k].key < s.nextToken
  }

  predicate GrantTimely(s: State, k: KeyId)
    requires k in s.issued
  {
    s.issued[k].at <= s.clock && s.issued[k].grant.expiresAt == s.issued[k].at + GRANT_MS
  }

  predicate SnapTimely(log: seq<Event>, p: Proc) {
    p.Verifying? ==>
      && p.since <= |log| && IssuedAt(log[..p.since], p.keyId).Some?
      && p.key.expiresAt <= IssuedAt(log[..p.since], p.keyId).value + ACCESS_MS
  }

  predicate EventTimely(issued: map<KeyId, Issue>, before: seq<Event>, e: Event) {
    e.Verified? ==>
      && e.since <= |before| && IssuedAt(before[..e.since], e.keyId).Some?
      && e.at < IssuedAt(before[..e.since], e.keyId).value + ACCESS_MS
      && e.keyId in issued && e.at < issued[e.keyId].grant.expiresAt
  }

  ghost predicate KeysTimely(s: State) {
    && (forall k :: k in s.t.keys ==> KeyTimely(s, k))
    && (forall j, k :: j in s.t.keys && k in s.t.keys && s.t.keys[j].key == s.t.keys[k].key ==> j == k)
    && (forall k :: k in s.issued ==> GrantTimely(s, k))
  }

  ghost predicate LogTimely(issued: map<KeyId, Issue>, log: seq<Event>) {
    forall j :: 0 <= j < |log| ==> EventTimely(issued, log[..j], log[j])
  }

  ghost predicate Timely(s: State) {
    && KeysTimely(s) && LogTimely(s.issued, s.log)
    && forall pid :: pid in s.procs ==> SnapTimely(s.log, s.procs[pid])
  }

  // ---------------------------------------------------------------- what a step may do

  ghost predicate IssuedGrows(s: State, s': State) {
    forall k :: k in s.issued ==> k in s'.issued && s'.issued[k] == s.issued[k]
  }

  lemma SnapStaysTimely(log: seq<Event>, more: seq<Event>, p: Proc)
    requires SnapTimely(log, p)
    ensures SnapTimely(log + more, p)
  {
    if p.Verifying? {
      assert (log + more)[..p.since] == log[..p.since];
    }
  }

  lemma LogStaysTimely(s: State, s': State, more: seq<Event>)
    requires LogTimely(s.issued, s.log) && IssuedGrows(s, s') && s'.log == s.log + more && |more| <= 1
    requires forall e :: e in more ==> EventTimely(s'.issued, s.log, e)
    ensures LogTimely(s'.issued, s'.log)
  {
    forall j | 0 <= j < |s'.log| ensures EventTimely(s'.issued, s'.log[..j], s'.log[j]) {
      if j < |s.log| {
        assert s'.log[..j] == s.log[..j] && EventTimely(s.issued, s.log[..j], s.log[j]);
      } else {
        assert s'.log[..j] == s.log && s'.log[j] == more[0] && more[0] in more;
      }
    }
  }

  /** The one proof obligation of a step: the keys, the event it logs, and the stepping process. */
  lemma KeepsTimely(s: State, s': State, pid: nat, more: seq<Event>)
    requires Timely(s) && s'.procs - {pid} == s.procs - {pid}
    requires IssuedGrows(s, s') && s'.log == s.log + more && |more| <= 1
    requires forall e :: e in more ==> EventTimely(s'.issued, s.log, e)
    requires KeysTimely(s')
    requires pid in s'.procs ==> SnapTimely(s.log, s'.procs[pid])
    ensures Timely(s')
  {
    LogStaysTimely(s, s', more);
    forall q | q in s'.procs ensures SnapTimely(s'.log, s'.procs[q]) {
      if q != pid {
        assert q in s'.procs - {pid} && s'.procs[q] == s.procs[q];
      }
      SnapStaysTimely(s.log, more, s'.procs[q]);
    }
  }

  predicate SameTimes(a: KeyRow, b: KeyRow) {
    b.key == a.key && b.expiresAt == a.expiresAt && (b.isActive <==> b.revokedAt.None?)
  }

  /** Keys are at most revoked and nothing is issued: reading, taking, succeeding, verifying, revoking. */
  lemma NothingIssued(s: State, s': State, more: seq<Event>)
    requires KeysTimely(s) && s'.issued == s.issued && s'.clock >= s.clock && s'.nextToken >= s.nextToken
    requires s'.t.keys.Keys == s.t.keys.Keys && forall k :: k in s.t.keys ==> SameTimes(s.t.keys[k], s'.t.keys[k])
    requires s'.log == s.log + more && |more| <= 1 && forall e :: e in more ==> !e.KeyIssued? && !e.Rotation?
    ensures KeysTimely(s')
  {
    forall k | k in s'.t.keys ensures KeyTimely(s', k) {
      assert KeyTimely(s, k);
      if more == [] {
        assert s'.log == s.log;
      } else {
        assert more == [more[0]] && more[0] in more;
        IssuedAfter(s.log, more[0], k);
      }
    }
    forall k | k in s'.issued ensures GrantTimely(s', k) {
      assert GrantTimely(s, k);
    }
  }

  // ---------------------------------------------------------------- the steps that issue

  lemma NewKeyKeepsTimely(s: State, pid: nat, allowed: bool)
    requires Records(s) && Timely(s) && pid in s.procs && s.procs[pid].CodeTaken?
    ensures Timely(NextOfCode(s, pid, s.procs[pid], allowed))
  {
    var s' := NextOfCode(s, pid, s.procs[pid], allowed);
    if allowed {
      var e := KeyIssued(s.nextToken, s.nextToken, s.clock);
      forall k | k in s'.t.keys ensures KeyTimely(s', k) {
        IssuedAfter(s.log, e, k);
        assert k != s.nextToken ==> KeyTimely(s, k);
        assert k == s.nextToken ==> k !in s.issued;
      }
      forall k | k in s'.issued ensures GrantTimely(s', k) {
        assert GrantTimely(s, k);
      }
      KeepsTimely(s, s', pid, [e]);
    } else {
      QuietKeepsTimely(s, s', pid);
    }
  }

  lemma QuietKeepsTimely(s: State, s': State, pid: nat)
    requires Timely(s) && s'.procs - {pid} == s.procs - {pid} && s'.log == s.log && s'.issued == s.issued
    requires s'.clock >= s.clock && s'.nextToken >= s.nextToken && s'.t.keys == s.t.keys
    requires pid in s'.procs ==> SnapTimely(s.log, s'.procs[pid])
    ensures Timely(s')
  {
    assert s'.log == s.log + [];
    forall k | k in s.t.keys ensures SameTimes(s.t.keys[k], s'.t.keys[k]) {
      assert KeyTimely(s, k);
    }
    NothingIssued(s, s', []);
    KeepsTimely(s, s', pid, []);
  }

  lemma NewGrantKeepsTimely(s: State, pid: nat, allowed: bool)
    requires Records(s) && Timely(s) && pid in s.procs && s.procs[pid].KeyCreated?
    ensures Timely(NextOfCode(s, pid, s.procs[pid], allowed))
  {
    var s' := NextOfCode(s, pid, s.procs[pid], allowed);
    assert ProcOk(s, s.procs[pid]) && s'.log == s.log + [];
    forall k | k in s'.t.keys ensures KeyTimely(s', k) {
      assert KeyTimely(s, k);
    }
    forall k | k in s'.issued ensures GrantTimely(s', k) {
      assert k != s.procs[pid].keyId ==> GrantTimely(s, k);
    }
    KeepsTimely(s, s', pid, []);
  }

  lemma RotationKeepsTimely(s: State, pid: nat, allowed: bool)
    requires Records(s) && Timely(s) && pid in s.procs && s.procs[pid].UsedSaved?
    ensures Timely(NextOfRefresh(s, pid, s.procs[pid], allowed))
  {
    var p := s.procs[pid];
    var s' := NextOfRefresh(s, pid, p, allowed);
    assert ProcOk(s, p);
    if pid in s'.procs {
      var e := Rotation(p.grant.keyId, s.nextToken, p.since, s.clock);
      forall k | k in s'.t.keys ensures KeyTimely(s', k) {
        IssuedAfter(s.log, e, k);
        assert KeyTimely(s, k);
      }
      forall k | k in s'.issued ensures GrantTimely(s', k) {
        assert GrantTimely(s, k);
      }
      DistinctAfterRotation(s, s', p.grant.keyId);
      KeepsTimely(s, s', pid, [e]);
    } else {
      QuietKeepsTimely(s, s', pid);
    }
  }

  lemma DistinctAfterRotation(s: State, s': State, rotated: KeyId)
    requires KeysTimely(s) && rotated in s.t.keys && s'.t.keys.Keys == s.t.keys.Keys && s'.t.keys[rotated].key == s.nextToken
    requires forall k :: k in s.t.keys && k != rotated ==> s'.t.keys[k] == s.t.keys[k]
    ensures forall j, k :: j in s'.t.keys && k in s'.t.keys && s'.t.keys[j].key == s'.t.keys[k].key ==> j == k
  {
    assert forall k :: k in s.t.keys ==> KeyTimely(s, k);
  }

  // ---------------------------------------------------------------- the other steps

  lemma SuccessKeepsTimely(s: State, s': State, pid: nat, e: Event)
    requires Timely(s) && s'.procs == s.procs - {pid} && s'.log == s.log + [e] && s'.issued == s.issued
    requires s'.clock == s.clock && s'.nextToken >= s.nextToken
    requires s'.t.keys.Keys == s.t.keys.Keys && forall k :: k in s.t.keys && s'.t.keys[k] != s.t.keys[k] ==> SameTimes(s.t.keys[k], s'.t.keys[k])
    requires !e.KeyIssued? && !e.Rotation? && EventTimely(s.issued, s.log, e)
    ensures Timely(s')
  {
    forall k | k in s.t.keys ensures SameTimes(s.t.keys[k], s'.t.keys[k]) {
      assert KeyTimely(s, k);
    }
    NothingIssued(s, s', [e]);
    KeepsTimely(s, s', pid, [e]);
  }

  lemma VerificationIsTimely(s: State, pid: nat, allowed: bool)
    requires Records(s) && Timely(s) && pid in s.procs && s.procs[pid].Verifying?
    ensures Timely(NextOfOthers(s, pid, s.procs[pid], allowed))
  {
    var p := s.procs[pid];
    var s' := NextOfOthers(s, pid, p, allowed);
    assert SnapTimely(s.log, p);
    if s'.log != s.log {
      SuccessKeepsTimely(s, s', pid, Verified(p.access, p.keyId, p.since, s.clock));
    } else {
      QuietKeepsTimely(s, s', pid);
    }
  }

  lemma OthersKeepTimely(s: State, pid: nat, allowed: bool)
    requires Records(s) && Timely(s) && pid in s.procs
    requires var p := s.procs[pid]; p.Missing? || p.Replay? || p.Verifying? || p.Revoking?
    ensures Timely(NextOfOthers(s, pid, s.procs[pid], allowed))
  {
    var p := s.procs[pid];
    var s' := NextOfOthers(s, pid, p, allowed);
    if p.Verifying? {
      VerificationIsTimely(s, pid, allowed);
    } else if s'.log != s.log {
      SuccessKeepsTimely(s, s', pid, KeyRevoked(p.keyId));
    } else {
      QuietKeepsTimely(s, s', pid);
    }
  }

  lemma CodeStepKeepsTimely(s: State, pid: nat, allowed: bool)
    requires Records(s) && Timely(s) && pid in s.procs
    requires var p := s.procs[pid]; p.CodeRead? || p.CodeTaken? || p.KeyCreated? || p.GrantSaved?
    ensures Timely(NextOfCode(s, pid, s.procs[pid], allowed))
  {
    match s.procs[pid]
    case CodeRead(_) => QuietKeepsTimely(s, NextOfCode(s, pid, s.procs[pid], allowed), pid);
    case CodeTaken(_, _) => NewKeyKeepsTimely(s, pid, allowed);
    case KeyCreated(_, _, _) => NewGrantKeepsTimely(s, pid, allowed);
    case GrantSaved(code, grant) =>
      SuccessKeepsTimely(s, NextOfCode(s, pid, s.procs[pid], allowed), pid, CodeSucceeded(code, grant.keyId));
  }

  lemma RefreshReadsKeepTimely(s: State, pid: nat, allowed: bool)
    requires Timely(s) && pid in s.procs
    requires var p := s.procs[pid]; p.RefreshRead? || p.KeyRead? || p.GrantRead? || p.RefreshTaken?
    ensures Timely(NextOfRefresh(s, pid, s.procs[pid], allowed))
  {
    QuietKeepsTimely(s, NextOfRefresh(s, pid, s.procs[pid], allowed), pid);
  }

  lemma RefreshSuccessKeepsTimely(s: State, pid: nat, allowed: bool)
    requires Timely(s) && pid in s.procs && s.procs[pid].KeyRotated?
    ensures Timely(NextOfRefresh(s, pid, s.procs[pid], allowed))
  {
    var p := s.procs[pid];
    SuccessKeepsTimely(s, NextOfRefresh(s, pid, p, allowed), pid, RefreshSucceeded(p.token, p.grant.keyId, p.since));
  }

  lemma RefreshStepKeepsTimely(s: State, pid: nat, allowed: bool)
    requires Records(s) && Timely(s) && pid in s.procs
    requires var p := s.procs[pid]; p.RefreshRead? || p.KeyRead? || p.GrantRead? || p.RefreshTaken? || p.UsedSaved? || p.KeyRotated?
    ensures Timely(NextOfRefresh(s, pid, s.procs[pid], allowed))
  {
    if s.procs[pid].UsedSaved? {
      RotationKeepsTimely(s, pid, allowed);
    } else if s.procs[pid].KeyRotated? {
      RefreshSuccessKeepsTimely(s, pid, allowed);
    } else {
      RefreshReadsKeepTimely(s, pid, allowed);
    }
  }

  lemma NextKeepsTimely(s: State, pid: nat, allowed: bool)
    requires Records(s) && Timely(s) && pid in s.procs
    ensures Timely(NextStep(s, pid, s.procs[pid], allowed))
  {
    var p := s.procs[pid];
    if p.CodeRead? || p.CodeTaken? || p.KeyCreated? || p.GrantSaved? {
      CodeStepKeepsTimely(s, pid, allowed);
    } else if p.Missing? || p.Replay? || p.Verifying? || p.Revoking? {
      OthersKeepTimely(s, pid, allowed);
    } else {
      RefreshStepKeepsTimely(s, pid, allowed);
    }
  }

  lemma OwnerRevocationKeepsTimely(s: State, a: Action)
    requires Timely(s) && a.OwnerRevokes?
    ensures Timely(Step(s, a))
  {
    if a.keyId in s.t.keys {
      var s' := Step(s, a);
      var nobody := Unused(s.procs.Keys);
      assert s.procs - {nobody} == s.procs;
      SuccessKeepsTimely(s, s', nobody, KeyRevoked(a.keyId));
    }
  }

  lemma EnvironmentKeepsTimely(s: State, a: Action)
    requires Timely(s) && !a.Next?
    ensures Timely(Step(s, a))
  {
    var s' := Step(s, a);
    if a.OwnerRevokes? {
      OwnerRevocationKeepsTimely(s, a);
    } else if IsBegin(a) {
      BeginKeepsTimely(s, a);
    } else {
      QuietKeepsTimely(s, s', if a.Crash? then a.pid else Unused(s.procs.Keys));
    }
  }

  lemma BeginKeepsTimely(s: State, a: Action)
    requires Timely(s) && IsBegin(a)
    ensures Timely(Step(s, a))
  {
    var s' := Step(s, a);
    if s' != s {
      var p := Begin(s, a).value;
      assert s.log[..|s.log|] == s.log;
      if p.Verifying? {
        assert KeyTimely(s, p.keyId);
      }
      QuietKeepsTimely(s, s', a.pid);
    }
  }

  lemma {:induction false} RunKeepsTimely(s: State, actions: seq<Action>)
    requires Records(s) && Timely(s)
    ensures Timely(Run(s, actions))
    decreases |actions|
  {
    if actions != [] {
      var a := actions[0];
      if a.Next? {
        if a.pid in s.procs { NextKeepsTimely(s, a.pid, a.allowed); }
      } else {
        EnvironmentKeepsTimely(s, a);
      }
      StepKeepsRecords(s, a);
      RunKeepsTimely(Step(s, a), actions[1..]);
    }
  }

  // ---------------------------------------------------------------- the promises

  /** The last issue for a key, found in the log. */
  lemma {:induction false} LastIssue(log: seq<Event>, keyId: KeyId) returns (i: nat)
    requires IssuedAt(log, keyId).Some?
    ensures i < |log| && Issues(log[i], keyId)
    ensures Newest(log, keyId) == Some(log[i].access) && IssuedAt(log, keyId) == Some(log[i].at)
    decreases |log|
  {
    if Issues(log[|log| - 1], keyId) {
      i := |log| - 1;
    } else {
      i := LastIssue(log[..|log| - 1], keyId);
    }
  }

  /**
   * In every run: an access token that verifies at a time t was issued by an exchange or a
   * rotation at some t0 with t < t0 + one hour, and t lies before the end of its grant, which
   * comes 30 days after the grant's creation.
   */
  lemma VerificationIsInTime(clock: int, actions: seq<Action>, j: nat)
    requires j < |Run(Init(clock), actions).log| && Run(Init(clock), actions).log[j].Verified?
    ensures var s := Run(Init(clock), actions); var e := s.log[j];
            && (exists i :: 0 <= i < e.since <= j && Issues(s.log[i], e.keyId) && s.log[i].access == e.access
                            && e.at < s.log[i].at + 3_600_000)
            && e.keyId in s.issued && e.at < s.issued[e.keyId].grant.expiresAt
            && s.issued[e.keyId].grant.expiresAt == s.issued[e.keyId].at + 2_592_000_000
  {
    RunKeepsTimely(Init(clock), actions);
    OnlyTheNewestTokenVerifies(clock, actions, j);
    var s := Run(Init(clock), actions);
    var e := s.log[j];
    assert EventTimely(s.issued, s.log[..j], e) && s.log[..j][..e.since] == s.log[..e.since];
    var i := LastIssue(s.log[..e.since], e.keyId);
    assert s.log[i] == s.log[..e.since][i] && GrantTimely(s, e.keyId);
  }

  /** The key of a connection that was neither revoked nor lost its grant record. */
  predicate Connected(s: State, k: KeyId) {
    k in s.t.keys && k in s.t.grants && s.t.keys[k].isActive
  }

  lemma KeyIsFound(s: State, k: KeyId)
    requires KeysTimely(s) && k in s.t.keys
    ensures KeyOf(s.t, s.t.keys[k].key) == Some(k)
  {
  }

  lemma ConnectedGrantStands(clock: int, actions: seq<Action>, k: KeyId)
    requires Connected(Run(Init(clock), actions), k)
    ensures var s := Run(Init(clock), actions);
            && k in s.issued && s.t.grants[k] == s.issued[k].grant
            && (GrantStands(s.t.keys[k], k, s.t.grants[k], s.clock) <==> s.clock < s.issued[k].grant.expiresAt)
  {
    var s := Run(Init(clock), actions);
    RunKeepsRecords(Init(clock), actions);
    RunKeepsConsents(Init(clock), actions);
    RunKeepsTimely(Init(clock), actions);
    assert KeyOk(s, k) && KeyTimely(s, k) && ConsentOk(s.issued[k].data);
  }

  lemma UndisturbedVerification(s: State, pid: nat, k: KeyId)
    requires pid !in s.procs && k in s.t.keys && KeyOf(s.t, s.t.keys[k].key) == Some(k)
    ensures Run(s, [BeginVerify(pid, s.t.keys[k].key), Next(pid, true)])
            == if k in s.t.grants && GrantStands(s.t.keys[k], k, s.t.grants[k], s.clock) && s.t.keys[k].expiresAt > s.clock
               then s.(log := s.log + [Verified(s.t.keys[k].key, k, |s.log|, s.clock)]) else s
  {
    var a1, a2 := BeginVerify(pid, s.t.keys[k].key), Next(pid, true);
    var s1 := Step(s, a1);
    var s2 := Step(s1, a2);
    RunSplit(s1, a2, []);
    RunSplit(s, a1, [a2]);
    assert [a1] + [a2] == [a1, a2] && [a2] + [] == [a2] && Run(s2, []) == s2;
    assert s1.procs - {pid} == s.procs;
  }

  /**
   * The other half: in every reachable state, verifying a connected key's newest token with
   * nobody in between succeeds exactly while less than an hour has passed since it was issued
   * and the grant has not ended.
   */
  lemma VerifiesExactlyInTime(clock: int, actions: seq<Action>, pid: nat, k: KeyId) returns (i: nat)
    requires var s := Run(Init(clock), actions); pid !in s.procs && Connected(s, k)
    ensures var s := Run(Init(clock), actions);
            && i < |s.log| && Issues(s.log[i], k) && s.log[i].access == s.t.keys[k].key && k in s.issued
            && Run(s, [BeginVerify(pid, s.t.keys[k].key), Next(pid, true)]).log
               == (if s.clock < s.log[i].at + 3_600_000 && s.clock < s.issued[k].grant.expiresAt
                   then s.log + [Verified(s.t.keys[k].key, k, |s.log|, s.clock)] else s.log)
  {
    var s := Run(Init(clock), actions);
    RunKeepsTimely(Init(clock), actions);
    RunKeepsHistory(Init(clock), actions);
    ConnectedGrantStands(clock, actions, k);
    KeyIsFound(s, k);
    UndisturbedVerification(s, pid, k);
    assert KeyTimely(s, k);
    i := LastIssue(s.log, k);
  }

  lemma {:induction false} RunThenTick(s: State, actions: seq<Action>, to: int)
    ensures Run(s, actions + [Tick(to)]) == Run(s, actions).(clock := if to > Run(s, actions).clock then to else Run(s, actions).clock)
    decreases |actions|
  {
    if actions == [] {
      assert actions + [Tick(to)] == [Tick(to)] + [];
      RunSplit(s, Tick(to), []);
    } else {
      assert (actions + [Tick(to)])[0] == actions[0] && (actions + [Tick(to)])[1..] == actions[1..] + [Tick(to)];
      RunThenTick(Step(s, actions[0]), actions[1..], to);
    }
  }

  /** So time ends it: once the clock has come to an hour after the issue, or to the grant's end, the token no longer verifies. */
  lemma TimeEndsATokensUse(clock: int, actions: seq<Action>, pid: nat, k: KeyId, to: int) returns (i: nat)
    requires var s := Run(Init(clock), actions); pid !in s.procs && Connected(s, k)
    ensures var s := Run(Init(clock), actions); var later := Run(Init(clock), actions + [Tick(to)]);
            && i < |s.log| && Issues(s.log[i], k) && s.log[i].access == s.t.keys[k].key && k in s.issued
            && later.clock >= to && later.log == s.log
            && (to >= s.log[i].at + 3_600_000 || to >= s.issued[k].grant.expiresAt ==>
                  Run(later, [BeginVerify(pid, s.t.keys[k].key), Next(pid, true)]).log == s.log)
  {
    RunThenTick(Init(clock), actions, to);
    i := VerifiesExactlyInTime(clock, actions + [Tick(to)], pid, k);
  }
}
