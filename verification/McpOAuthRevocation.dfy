/**
 * Replay detection and revocation under interleaving: once a key is revoked, nothing that
 * reads it later succeeds, and only the newest access token of a key ever verifies.
 */
module McpOAuthRevocation {
  import opened Options
  import opened McpOAuth
  import opened McpOAuthRuns

  ghost predicate NotRevoked(log: seq<Event>, keyId: KeyId) {
    forall i :: 0 <= i < |log| ==> log[i] != KeyRevoked(keyId)
  }

  /** The access token last issued for the key. */
  function Newest(log: seq<Event>, keyId: KeyId): Option<Token> {
    if log == [] then None
    else
      var last := log[|log| - 1];
      if (last.KeyIssued? || last.Rotation?) && last.keyId == keyId then Some(last.access)
      else Newest(log[..|log| - 1], keyId)
  }

  /** What an event tells about the log before it. */
  ghost predicate EventOk(before: seq<Event>, e: Event) {
    match e
    case Rotation(keyId, _, since, _) =>
      since <= |before| && NotRevoked(before, keyId) && Newest(before[..since], keyId) == Newest(before, keyId)
    case RefreshSucceeded(_, keyId, since) => since <= |before| && NotRevoked(before[..since], keyId)
    case Verified(access, keyId, since, _) =>
      since <= |before| && NotRevoked(before[..since], keyId) && Newest(before[..since], keyId) == Some(access)
    case _ => true
  }

  ghost predicate LogOk(log: seq<Event>) {
    forall j :: 0 <= j < |log| ==> EventOk(log[..j], log[j])
  }

  /** The key as read carries the token that was its newest then. */
  predicate ReadOk(log: seq<Event>, keyId: KeyId, key: KeyRow, since: nat) {
    since <= |log| && Newest(log[..since], keyId) == Some(key.key)
  }

  /** A process that read an active key did so before any revocation of it. */
  ghost predicate SnapOk(log: seq<Event>, p: Proc) {
    match p
    case KeyRead(_, keyId, key, since) => ReadOk(log, keyId, key, since) && (key.isActive ==> NotRevoked(log[..since], keyId))
    case GrantRead(_, key, grant, since) => ReadOk(log, grant.keyId, key, since) && NotRevoked(log[..since], grant.keyId)
    case RefreshTaken(_, key, grant, since) => ReadOk(log, grant.keyId, key, since) && NotRevoked(log[..since], grant.keyId)
    case UsedSaved(_, key, grant, since) => ReadOk(log, grant.keyId, key, since) && NotRevoked(log[..since], grant.keyId)
    case KeyRotated(_, grant, since) => since <= |log| && NotRevoked(log[..since], grant.keyId)
    case Verifying(access, keyId, key, since) =>
      since <= |log| && Newest(log[..since], keyId) == Some(access) && (key.isActive ==> NotRevoked(log[..since], keyId))
    case _ => true
  }

  ghost predicate KeysOk(t: Tables, log: seq<Event>, next: nat) {
    && (forall k :: k in t.keys ==> Newest(log, k) == Some(t.keys[k].key) && k < next)
    && (forall k :: k in t.keys && t.keys[k].isActive ==> NotRevoked(log, k))
    && (forall k :: k !in t.keys ==> NotRevoked(log, k))
  }

  ghost predicate History(s: State) {
    && LogOk(s.log) && KeysOk(s.t, s.log, s.nextToken)
    && (forall k :: k in s.t.grants ==> s.t.grants[k].keyId == k)
    && (forall pid :: pid in s.procs ==> SnapOk(s.log, s.procs[pid]))
    && (forall pid :: pid in s.procs && s.procs[pid].KeyCreated? ==> s.procs[pid].keyId < s.nextToken)
  }

  lemma SnapSurvives(log: seq<Event>, more: seq<Event>, p: Proc)
    requires SnapOk(log, p)
    ensures SnapOk(log + more, p)
  {
    if p.KeyRead? || p.GrantRead? || p.RefreshTaken? || p.UsedSaved? || p.KeyRotated? || p.Verifying? {
      assert (log + more)[..p.since] == log[..p.since];
    }
  }

  lemma LogExtends(log: seq<Event>, e: Event)
    requires LogOk(log) && EventOk(log, e)
    ensures LogOk(log + [e])
  {
    var log' := log + [e];
    forall j | 0 <= j < |log'| ensures EventOk(log'[..j], log'[j]) {
      if j < |log| {
        assert log'[..j] == log[..j];
      } else {
        assert log'[..j] == log;
      }
    }
  }

  lemma NewestAfter(log: seq<Event>, e: Event, keyId: KeyId)
    ensures Newest(log + [e], keyId) ==
            if (e.KeyIssued? || e.Rotation?) && e.keyId == keyId then Some(e.access) else Newest(log, keyId)
    ensures NotRevoked(log + [e], keyId) <==> NotRevoked(log, keyId) && e != KeyRevoked(keyId)
  {
    assert (log + [e])[..|log|] == log;
    assert (log + [e])[|log|] == e;
    assert forall i :: 0 <= i < |log| ==> (log + [e])[i] == log[i];
  }

  /** The one proof obligation of a step: the keys, the log, and the stepping process. */
  lemma KeepsHistory(s: State, s': State, pid: nat, more: seq<Event>)
    requires History(s) && s'.procs - {pid} == s.procs - {pid} && s'.log == s.log + more && |more| <= 1
    requires forall e :: e in more ==> EventOk(s.log, e)
    requires s'.nextToken >= s.nextToken
    requires KeysOk(s'.t, s'.log, s'.nextToken)
    requires forall k :: k in s'.t.grants ==> s'.t.grants[k].keyId == k
    requires pid in s'.procs ==> SnapOk(s'.log, s'.procs[pid])
    requires pid in s'.procs && s'.procs[pid].KeyCreated? ==> s'.procs[pid].keyId < s'.nextToken
    ensures History(s')
  {
    if more == [] {
      assert s'.log == s.log;
    } else {
      assert more == [more[0]] && more[0] in more;
      LogExtends(s.log, more[0]);
    }
    forall q | q in s'.procs
      ensures SnapOk(s'.log, s'.procs[q])
      ensures s'.procs[q].KeyCreated? ==> s'.procs[q].keyId < s'.nextToken
    {
      if q != pid {
        assert q in s'.procs - {pid} && s'.procs[q] == s.procs[q];
        SnapSurvives(s.log, more, s.procs[q]);
      }
    }
  }

  lemma KeysAfter(t: Tables, log: seq<Event>, next: nat, e: Event)
    requires KeysOk(t, log, next)
    ensures !e.KeyIssued? && !e.Rotation? && !e.KeyRevoked? ==> KeysOk(t, log + [e], next)
    ensures e.KeyRevoked? && e.keyId in t.keys ==> forall now ::
              KeysOk(t.(keys := t.keys[e.keyId := Revoked(t.keys[e.keyId], now)]), log + [e], next)
    ensures e.Rotation? && e.keyId in t.keys && t.keys[e.keyId].isActive ==> forall grant, now ::
              KeysOk(t.(keys := t.keys[e.keyId := Rotated(t.keys[e.keyId], grant, e.access, now)]), log + [e], next)
    ensures e.KeyIssued? && e.keyId == next ==> forall data, now ::
              KeysOk(t.(keys := t.keys[next := KeyFor(data, e.access, now)]), log + [e], next + 1)
  {
    forall k ensures Newest(log + [e], k) == (if (e.KeyIssued? || e.Rotation?) && e.keyId == k then Some(e.access) else Newest(log, k))
      ensures NotRevoked(log + [e], k) <==> NotRevoked(log, k) && e != KeyRevoked(k)
    {
      NewestAfter(log, e, k);
    }
  }

  // ---------------------------------------------------------------- the steps

  /** Appends the event `e` of a step that leaves the keys as `KeysAfter` says. */
  lemma AppendKeepsHistory(s: State, s': State, pid: nat, e: Event)
    requires History(s) && s'.procs - {pid} == s.procs - {pid} && s'.log == s.log + [e] && EventOk(s.log, e)
    requires s'.nextToken >= s.nextToken && KeysOk(s'.t, s'.log, s.nextToken) && s'.t.grants == s.t.grants
    requires pid in s'.procs ==> SnapOk(s.log, s'.procs[pid]) && !s'.procs[pid].KeyCreated?
    ensures History(s')
  {
    if pid in s'.procs { SnapSurvives(s.log, [e], s'.procs[pid]); }
    KeepsHistory(s, s', pid, [e]);
  }

  lemma CodeReadKeepsHistory(s: State, pid: nat, allowed: bool)
    requires History(s) && pid in s.procs
    requires var p := s.procs[pid]; p.CodeRead? || p.KeyCreated?
    ensures History(NextOfCode(s, pid, s.procs[pid], allowed))
  {
    var p := s.procs[pid];
    var s' := NextOfCode(s, pid, p, allowed);
    assert SnapOk(s.log, p);
    assert s.log == s.log + [] && s.log[..|s.log|] == s.log;
    KeepsHistory(s, s', pid, []);
  }

  lemma IssueKeepsHistory(s: State, pid: nat, allowed: bool)
    requires History(s) && pid in s.procs
    requires var p := s.procs[pid]; p.CodeTaken?
    ensures History(NextOfCode(s, pid, s.procs[pid], allowed))
  {
    var p := s.procs[pid];
    var s' := NextOfCode(s, pid, p, allowed);
    assert SnapOk(s.log, p);
    if allowed {
      var e := KeyIssued(s.nextToken, s.nextToken, s.clock);
      KeysAfter(s.t, s.log, s.nextToken, e);
      KeepsHistory(s, s', pid, [e]);
    } else {
      assert s.log == s.log + [];
      KeepsHistory(s, s', pid, []);
    }
  }

  lemma CodeSuccessKeepsHistory(s: State, pid: nat, allowed: bool)
    requires History(s) && pid in s.procs
    requires var p := s.procs[pid]; p.GrantSaved?
    ensures History(NextOfCode(s, pid, s.procs[pid], allowed))
  {
    var p := s.procs[pid];
    var s' := NextOfCode(s, pid, p, allowed);
    assert SnapOk(s.log, p);
    var e := CodeSucceeded(p.token, p.grant.keyId);
    KeysAfter(s.t, s.log, s.nextToken, e);
    AppendKeepsHistory(s, s', pid, e);
  }

  lemma RefreshReadsKeepHistory(s: State, pid: nat, allowed: bool)
    requires History(s) && pid in s.procs
    requires var p := s.procs[pid]; p.RefreshRead? || p.KeyRead? || p.GrantRead? || p.RefreshTaken?
    ensures History(NextOfRefresh(s, pid, s.procs[pid], allowed))
  {
    var p := s.procs[pid];
    var s' := NextOfRefresh(s, pid, p, allowed);
    assert SnapOk(s.log, p);
    assert s.log == s.log + [] && s.log[..|s.log|] == s.log;
    KeepsHistory(s, s', pid, []);
  }

  lemma RotationKeepsHistory(s: State, pid: nat, allowed: bool)
    requires History(s) && pid in s.procs
    requires var p := s.procs[pid]; p.UsedSaved?
    ensures History(NextOfRefresh(s, pid, s.procs[pid], allowed))
  {
    var p := s.procs[pid];
    var s' := NextOfRefresh(s, pid, p, allowed);
    assert SnapOk(s.log, p);
    if pid in s'.procs {
      var e := Rotation(p.grant.keyId, s.nextToken, p.since, s.clock);
      KeysAfter(s.t, s.log, s.nextToken, e);
      AppendKeepsHistory(s, s', pid, e);
    } else {
      assert s.log == s.log + [];
      KeepsHistory(s, s', pid, []);
    }
  }

  lemma RefreshSuccessKeepsHistory(s: State, pid: nat, allowed: bool)
    requires History(s) && pid in s.procs
    requires var p := s.procs[pid]; p.KeyRotated?
    ensures History(NextOfRefresh(s, pid, s.procs[pid], allowed))
  {
    var p := s.procs[pid];
    var s' := NextOfRefresh(s, pid, p, allowed);
    assert SnapOk(s.log, p);
    var e := RefreshSucceeded(p.token, p.grant.keyId, p.since);
    KeysAfter(s.t, s.log, s.nextToken, e);
    AppendKeepsHistory(s, s', pid, e);
  }

  lemma OthersKeepHistory(s: State, pid: nat, allowed: bool)
    requires History(s) && pid in s.procs
    requires var p := s.procs[pid]; p.Missing? || p.Replay? || p.Verifying? || p.Revoking?
    ensures History(NextOfOthers(s, pid, s.procs[pid], allowed))
  {
    var p := s.procs[pid];
    var s' := NextOfOthers(s, pid, p, allowed);
    assert SnapOk(s.log, p);
    if s'.log == s.log {
      assert s.log == s.log + [];
      KeepsHistory(s, s', pid, []);
    } else {
      var e := if p.Verifying? then Verified(p.access, p.keyId, p.since, s.clock) else KeyRevoked(p.keyId);
      assert s'.log == s.log + [e];
      KeysAfter(s.t, s.log, s.nextToken, e);
      AppendKeepsHistory(s, s', pid, e);
    }
  }

  lemma NextKeepsHistory(s: State, pid: nat, allowed: bool)
    requires History(s) && pid in s.procs
    ensures History(NextStep(s, pid, s.procs[pid], allowed))
  {
    match s.procs[pid]
    case CodeRead(_) => CodeReadKeepsHistory(s, pid, allowed);
    case KeyCreated(_, _, _) => CodeReadKeepsHistory(s, pid, allowed);
    case CodeTaken(_, _) => IssueKeepsHistory(s, pid, allowed);
    case GrantSaved(_, _) => CodeSuccessKeepsHistory(s, pid, allowed);
    case RefreshRead(_, _) => RefreshReadsKeepHistory(s, pid, allowed);
    case KeyRead(_, _, _, _) => RefreshReadsKeepHistory(s, pid, allowed);
    case GrantRead(_, _, _, _) => RefreshReadsKeepHistory(s, pid, allowed);
    case RefreshTaken(_, _, _, _) => RefreshReadsKeepHistory(s, pid, allowed);
    case UsedSaved(_, _, _, _) => RotationKeepsHistory(s, pid, allowed);
    case KeyRotated(_, _, _) => RefreshSuccessKeepsHistory(s, pid, allowed);
    case _ => OthersKeepHistory(s, pid, allowed);
  }

  lemma EnvironmentKeepsHistory(s: State, a: Action)
    requires History(s) && !a.Next?
    ensures History(Step(s, a))
  {
    var s' := Step(s, a);
    assert s.log == s.log + [] && s.log[..|s.log|] == s.log;
    if s' == s {
    } else if a.Tick? || a.Expire? || a.IssueCode? {
      forall q | q in s'.procs ensures SnapOk(s'.log, s'.procs[q]) {
        assert SnapOk(s.log, s.procs[q]);
      }
    } else if a.OwnerRevokes? {
      KeysAfter(s.t, s.log, s.nextToken, KeyRevoked(a.keyId));
      LogExtends(s.log, KeyRevoked(a.keyId));
      forall q | q in s'.procs ensures SnapOk(s'.log, s'.procs[q]) {
        SnapSurvives(s.log, [KeyRevoked(a.keyId)], s.procs[q]);
      }
    } else {
      KeepsHistory(s, s', a.pid, []);
    }
  }

  lemma {:induction false} RunKeepsHistory(s: State, actions: seq<Action>)
    requires History(s)
    ensures History(Run(s, actions))
    decreases |actions|
  {
    if actions != [] {
      var a := actions[0];
      if a.Next? {
        if a.pid in s.procs { NextKeepsHistory(s, a.pid, a.allowed); }
      } else {
        EnvironmentKeepsHistory(s, a);
      }
      RunKeepsHistory(Step(s, a), actions[1..]);
    }
  }

  /**
   * In every run, once a replay or a revocation of a key commits (position i of the log), no
   * rotation of the key commits, and no exchange or verification that reads the key later succeeds.
   */
  lemma RevocationIsFinal(clock: int, actions: seq<Action>, i: nat, j: nat, keyId: KeyId)
    requires i < j < |Run(Init(clock), actions).log|
    requires Run(Init(clock), actions).log[i] == KeyRevoked(keyId)
    ensures var e := Run(Init(clock), actions).log[j];
            && !(e.Rotation? && e.keyId == keyId)
            && !(e.RefreshSucceeded? && e.keyId == keyId && e.since > i)
            && !(e.Verified? && e.keyId == keyId && e.since > i)
  {
    RunKeepsHistory(Init(clock), actions);
    var log := Run(Init(clock), actions).log;
    assert EventOk(log[..j], log[j]);
    assert log[..j][i] == KeyRevoked(keyId);
    var e := log[j];
    if (e.RefreshSucceeded? || e.Verified?) && e.since > i {
      assert log[..j][..e.since][i] == KeyRevoked(keyId);
    }
  }

  /** In every run, an access token verifies only if it was the newest of its key when the key was read. */
  lemma OnlyTheNewestTokenVerifies(clock: int, actions: seq<Action>, j: nat)
    requires j < |Run(Init(clock), actions).log| && Run(Init(clock), actions).log[j].Verified?
    ensures var log := Run(Init(clock), actions).log;
            log[j].since <= j && Newest(log[..log[j].since], log[j].keyId) == Some(log[j].access)
  {
    RunKeepsHistory(Init(clock), actions);
    var log := Run(Init(clock), actions).log;
    assert EventOk(log[..j], log[j]);
    assert log[..j][..log[j].since] == log[..log[j].since];
  }

  /** In every run, a rotation replaces the token its refresh read: no other was issued for the key in between. */
  lemma RotationsReplaceWhatTheyRead(clock: int, actions: seq<Action>, j: nat)
    requires j < |Run(Init(clock), actions).log| && Run(Init(clock), actions).log[j].Rotation?
    ensures var log := Run(Init(clock), actions).log;
            log[j].since <= j && Newest(log[..log[j].since], log[j].keyId) == Newest(log[..j], log[j].keyId)
  {
    RunKeepsHistory(Init(clock), actions);
    var log := Run(Init(clock), actions).log;
    assert EventOk(log[..j], log[j]);
    assert log[..j][..log[j].since] == log[..log[j].since];
  }

  lemma {:induction false} RunSplit(s: State, first: Action, rest: seq<Action>)
    ensures Run(s, [first] + rest) == Run(Step(s, first), rest)
  {
    assert ([first] + rest)[1..] == rest;
  }

  /** Presenting a recorded used token again, undisturbed, revokes its key. */
  lemma ReplayRevokes(s: State, pid: nat, token: Token, client: string, scopes: seq<string>)
    requires pid !in s.procs && token !in s.t.refresh
    requires token in s.t.used && s.t.used[token].clientId == client && s.t.used[token].keyId in s.t.keys
    ensures var s' := Run(s, [BeginRefresh(pid, token, client, scopes), Next(pid, true), Next(pid, true)]);
            var k := s.t.used[token].keyId;
            && s'.log == s.log + [KeyRevoked(k)] && k in s'.t.keys
            && !s'.t.keys[k].isActive && s'.t.keys[k].revokedAt == Some(s.clock)
            && s'.t == s.t.(keys := s'.t.keys) && s'.t.keys - {k} == s.t.keys - {k}
  {
    var a1, a2 := BeginRefresh(pid, token, client, scopes), Next(pid, true);
    var s1 := Step(s, a1);
    var s2 := Step(s1, a2);
    var s3 := Step(s2, a2);
    RunSplit(s2, a2, []);
    RunSplit(s1, a2, [a2]);
    RunSplit(s, a1, [a2, a2]);
    assert [a1] + [a2, a2] == [a1, a2, a2] && [a2] + [a2] == [a2, a2] && [a2] + [] == [a2];
    assert s2.procs[pid] == Replay(s.t.used[token].keyId);
    assert Run(s3, []) == s3;
  }
}
