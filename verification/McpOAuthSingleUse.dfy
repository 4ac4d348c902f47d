/**
 * Single use under interleaving: an authorization code or refresh token succeeds at most
 * once, and a grant never has two live refresh tokens.
 */
module McpOAuthSingleUse {
  import opened Options
  import opened McpScopes
  import opened McpOAuth
  import opened McpOAuthRuns
  import opened McpOAuthRecords
  import opened FreshIds

  /** The key this process alone may still give a refresh token. */
  function KeyHeld(p: Proc): Option<KeyId> {
    match p
    case KeyCreated(_, _, keyId) => Some(keyId)
    case GrantSaved(_, grant) => Some(grant.keyId)
    case RefreshTaken(_, _, grant, _) => Some(grant.keyId)
    case UsedSaved(_, _, grant, _) => Some(grant.keyId)
    case KeyRotated(_, grant, _) => Some(grant.keyId)
    case _ => None
  }

  /** The refresh token this process took. */
  function RefreshHeld(p: Proc): Option<Token> {
    if p.RefreshTaken? || p.UsedSaved? || p.KeyRotated? then Some(p.token) else None
  }

  /** The authorization code this process took. */
  function CodeHeld(p: Proc): Option<Token> {
    if p.CodeTaken? || p.KeyCreated? || p.GrantSaved? then Some(p.token) else None
  }

  predicate Used(log: seq<Event>, token: Token) {
    exists i :: 0 <= i < |log| && log[i].RefreshSucceeded? && log[i].token == token
  }

  predicate CodeUsed(log: seq<Event>, code: Token) {
    exists i :: 0 <= i < |log| && log[i].CodeSucceeded? && log[i].code == code
  }

  /** Every code and every refresh token succeeds at most once. */
  ghost predicate SucceedOnce(log: seq<Event>) {
    && (forall i, j :: 0 <= i < j < |log| && log[i].RefreshSucceeded? && log[j].RefreshSucceeded? ==> log[i].token != log[j].token)
    && (forall i, j :: 0 <= i < j < |log| && log[i].CodeSucceeded? && log[j].CodeSucceeded? ==> log[i].code != log[j].code)
  }

  /** No two live refresh tokens belong to one grant. */
  ghost predicate OneLiveRefresh(t: Tables) {
    forall r, q :: r in t.refresh && q in t.refresh && r != q ==> t.refresh[r].keyId != t.refresh[q].keyId
  }

  ghost predicate HeldOk(s: State, p: Proc) {
    && (KeyHeld(p).Some? ==> forall r :: r in s.t.refresh ==> s.t.refresh[r].keyId != KeyHeld(p).value)
    && (RefreshHeld(p).Some? ==> var t := RefreshHeld(p).value; t < s.nextToken && t !in s.t.refresh && !Used(s.log, t))
    && (CodeHeld(p).Some? ==> var c := CodeHeld(p).value; c < s.nextToken && c !in s.t.codes && !CodeUsed(s.log, c))
    && (KeyHeld(p).Some? ==> KeyHeld(p).value < s.nextToken)
  }

  predicate Apart(p: Proc, q: Proc) {
    && (KeyHeld(p).Some? ==> KeyHeld(p) != KeyHeld(q))
    && (RefreshHeld(p).Some? ==> RefreshHeld(p) != RefreshHeld(q))
    && (CodeHeld(p).Some? ==> CodeHeld(p) != CodeHeld(q))
  }

  ghost predicate Linear(s: State) {
    && OneLiveRefresh(s.t) && SucceedOnce(s.log)
    && (forall r :: r in s.t.refresh ==> r < s.nextToken && !Used(s.log, r) && s.t.refresh[r].keyId < s.nextToken)
    && (forall c :: c in s.t.codes ==> c < s.nextToken && !CodeUsed(s.log, c))
    && (forall t: Token :: Used(s.log, t) ==> t < s.nextToken)
    && (forall c: Token :: CodeUsed(s.log, c) ==> c < s.nextToken)
    && (forall pid :: pid in s.procs ==> HeldOk(s, s.procs[pid]))
    && (forall p, q :: p in s.procs && q in s.procs && p != q ==> Apart(s.procs[p], s.procs[q]))
  }

  lemma UsedAfter(log: seq<Event>, e: Event)
    ensures forall t :: Used(log + [e], t) <==> Used(log, t) || (e.RefreshSucceeded? && e.token == t)
    ensures forall c :: CodeUsed(log + [e], c) <==> CodeUsed(log, c) || (e.CodeSucceeded? && e.code == c)
    ensures SucceedOnce(log) && (e.RefreshSucceeded? ==> !Used(log, e.token)) && (e.CodeSucceeded? ==> !CodeUsed(log, e.code))
            ==> SucceedOnce(log + [e])
  {
    var log' := log + [e];
    assert log'[|log|] == e && forall i :: 0 <= i < |log| ==> log'[i] == log[i];
  }

  /** A step after which the process holds no more than before, and nothing live or succeeded is added. */
  lemma QuietStepKeepsLinear(s: State, s': State, pid: nat)
    requires Linear(s) && s'.procs - {pid} == s.procs - {pid}
    requires s'.nextToken >= s.nextToken
    requires forall r :: r in s'.t.refresh ==> r in s.t.refresh && s'.t.refresh[r] == s.t.refresh[r]
    requires forall c :: c in s'.t.codes ==> c in s.t.codes
    requires forall t :: Used(s'.log, t) <==> Used(s.log, t)
    requires forall c :: CodeUsed(s'.log, c) <==> CodeUsed(s.log, c)
    requires SucceedOnce(s'.log)
    requires pid in s'.procs && pid !in s.procs ==>
               KeyHeld(s'.procs[pid]).None? && RefreshHeld(s'.procs[pid]).None? && CodeHeld(s'.procs[pid]).None?
    requires pid in s'.procs && pid in s.procs ==>
               && (KeyHeld(s'.procs[pid]).None? || KeyHeld(s'.procs[pid]) == KeyHeld(s.procs[pid]))
               && (RefreshHeld(s'.procs[pid]).None? || RefreshHeld(s'.procs[pid]) == RefreshHeld(s.procs[pid]))
               && (CodeHeld(s'.procs[pid]).None? || CodeHeld(s'.procs[pid]) == CodeHeld(s.procs[pid]))
    ensures Linear(s')
  {
    forall q | q in s'.procs ensures HeldOk(s', s'.procs[q]) {
      if q != pid {
        assert q in s'.procs - {pid} && s'.procs[q] == s.procs[q] && HeldOk(s, s.procs[q]);
      } else if q in s.procs {
        assert HeldOk(s, s.procs[q]);
      }
    }
    forall p, q | p in s'.procs && q in s'.procs && p != q ensures Apart(s'.procs[p], s'.procs[q]) {
      assert p != pid ==> p in s'.procs - {pid} && s'.procs[p] == s.procs[p];
      assert q != pid ==> q in s'.procs - {pid} && s'.procs[q] == s.procs[q];
      if p in s.procs && q in s.procs {
        assert Apart(s.procs[p], s.procs[q]);
      }
    }
  }

  /** A step by which the process takes a token or a new key: whatever it newly holds, nobody else has. */
  lemma TakingStepKeepsLinear(s: State, s': State, pid: nat)
    requires Linear(s) && pid in s.procs && pid in s'.procs && s'.procs - {pid} == s.procs - {pid}
    requires s'.nextToken >= s.nextToken
    requires forall r :: r in s'.t.refresh ==> r in s.t.refresh && s'.t.refresh[r] == s.t.refresh[r]
    requires forall c :: c in s'.t.codes ==> c in s.t.codes
    requires forall t :: Used(s'.log, t) <==> Used(s.log, t)
    requires forall c :: CodeUsed(s'.log, c) <==> CodeUsed(s.log, c)
    requires SucceedOnce(s'.log)
    requires HeldOk(s', s'.procs[pid])
    requires forall q :: q in s.procs && q != pid ==> Apart(s'.procs[pid], s.procs[q])
    ensures Linear(s')
  {
    forall q | q in s'.procs ensures HeldOk(s', s'.procs[q]) {
      if q != pid {
        assert q in s'.procs - {pid} && s'.procs[q] == s.procs[q] && HeldOk(s, s.procs[q]);
      }
    }
    forall p, q | p in s'.procs && q in s'.procs && p != q ensures Apart(s'.procs[p], s'.procs[q]) {
      assert p != pid ==> p in s'.procs - {pid} && s'.procs[p] == s.procs[p];
      assert q != pid ==> q in s'.procs - {pid} && s'.procs[q] == s.procs[q];
      if p != pid && q != pid {
        assert Apart(s.procs[p], s.procs[q]);
      } else if q == pid {
        assert Apart(s'.procs[pid], s.procs[p]);
      }
    }
  }

  /** The last step of an exchange: a refresh token for its grant, and the reply. */
  function Given(s: State, pid: nat, grant: Grant, e: Event): State {
    Done(s, pid).(t := s.t.(refresh := s.t.refresh[s.nextToken := grant]), nextToken := s.nextToken + 1, log := s.log + [e])
  }

  /** The process ends: the key it held gets its one live refresh token. */
  lemma GivingStepKeepsLinear(s: State, pid: nat, grant: Grant, e: Event)
    requires Linear(s) && pid in s.procs && KeyHeld(s.procs[pid]) == Some(grant.keyId)
    requires e.RefreshSucceeded? ==> RefreshHeld(s.procs[pid]) == Some(e.token)
    requires e.CodeSucceeded? ==> CodeHeld(s.procs[pid]) == Some(e.code)
    ensures Linear(Given(s, pid, grant, e))
  {
    var s' := Given(s, pid, grant, e);
    UsedAfter(s.log, e);
    assert HeldOk(s, s.procs[pid]);
    forall q | q in s'.procs ensures HeldOk(s', s'.procs[q]) {
      OthersStillHold(s, pid, q, grant, e);
    }
    forall p, q | p in s'.procs && q in s'.procs && p != q ensures Apart(s'.procs[p], s'.procs[q]) {
      assert Apart(s.procs[p], s.procs[q]);
    }
  }

  lemma OthersStillHold(s: State, pid: nat, q: nat, grant: Grant, e: Event)
    requires Linear(s) && pid in s.procs && q in s.procs && q != pid && KeyHeld(s.procs[pid]) == Some(grant.keyId)
    requires e.RefreshSucceeded? ==> RefreshHeld(s.procs[pid]) == Some(e.token)
    requires e.CodeSucceeded? ==> CodeHeld(s.procs[pid]) == Some(e.code)
    ensures HeldOk(Given(s, pid, grant, e), s.procs[q])
  {
    UsedAfter(s.log, e);
    assert HeldOk(s, s.procs[q]) && Apart(s.procs[q], s.procs[pid]) && Apart(s.procs[pid], s.procs[q]);
  }

  // ---------------------------------------------------------------- the steps

  lemma CodeStepKeepsLinear(s: State, pid: nat, allowed: bool)
    requires Linear(s) && pid in s.procs && (s.procs[pid].CodeRead? || s.procs[pid].CodeTaken?)
    ensures Linear(NextOfCode(s, pid, s.procs[pid], allowed))
  {
    var p := s.procs[pid];
    var s' := NextOfCode(s, pid, p, allowed);
    assert HeldOk(s, p);
    if pid !in s'.procs {
      QuietStepKeepsLinear(s, s', pid);
    } else {
      if p.CodeTaken? {
        UsedAfter(s.log, KeyIssued(s.nextToken, s.nextToken, s.clock));
      }
      forall q | q in s.procs && q != pid ensures Apart(s'.procs[pid], s.procs[q]) {
        assert HeldOk(s, s.procs[q]) && Apart(p, s.procs[q]);
      }
      TakingStepKeepsLinear(s, s', pid);
    }
  }

  lemma TakeKeepsLinear(s: State, pid: nat, allowed: bool)
    requires Records(s) && Linear(s) && pid in s.procs && s.procs[pid].GrantRead?
    ensures Linear(NextOfRefresh(s, pid, s.procs[pid], allowed))
  {
    var p := s.procs[pid];
    var s' := NextOfRefresh(s, pid, p, allowed);
    assert HeldOk(s, p) && ProcOk(s, p);
    if pid !in s'.procs {
      QuietStepKeepsLinear(s, s', pid);
    } else {
      forall q | q in s.procs && q != pid ensures Apart(s'.procs[pid], s.procs[q]) {
        assert HeldOk(s, s.procs[q]);
      }
      TakingStepKeepsLinear(s, s', pid);
    }
  }

  lemma LogGrowsByOne(s: State, s': State)
    requires s'.log == s.log || (|s'.log| == |s.log| + 1 && s'.log == s.log + [s'.log[|s.log|]])
    requires s'.log != s.log ==> !s'.log[|s.log|].RefreshSucceeded? && !s'.log[|s.log|].CodeSucceeded?
    ensures forall t :: Used(s'.log, t) <==> Used(s.log, t)
    ensures forall c :: CodeUsed(s'.log, c) <==> CodeUsed(s.log, c)
    ensures SucceedOnce(s.log) ==> SucceedOnce(s'.log)
  {
    if s'.log != s.log { UsedAfter(s.log, s'.log[|s.log|]); }
  }

  lemma GrantSaveKeepsLinear(s: State, pid: nat, allowed: bool)
    requires Linear(s) && pid in s.procs
    requires var p := s.procs[pid]; p.KeyCreated?
    ensures Linear(NextOfCode(s, pid, s.procs[pid], allowed))
  {
    var s' := NextOfCode(s, pid, s.procs[pid], allowed);
    assert HeldOk(s, s.procs[pid]);
    LogGrowsByOne(s, s');
    QuietStepKeepsLinear(s, s', pid);
  }

  lemma RefreshReadsKeepLinear(s: State, pid: nat, allowed: bool)
    requires Linear(s) && pid in s.procs
    requires var p := s.procs[pid]; p.RefreshRead? || p.KeyRead? || p.RefreshTaken?
    ensures Linear(NextOfRefresh(s, pid, s.procs[pid], allowed))
  {
    var s' := NextOfRefresh(s, pid, s.procs[pid], allowed);
    assert HeldOk(s, s.procs[pid]);
    LogGrowsByOne(s, s');
    QuietStepKeepsLinear(s, s', pid);
  }

  lemma RotationKeepsLinear(s: State, pid: nat, allowed: bool)
    requires Linear(s) && pid in s.procs
    requires var p := s.procs[pid]; p.UsedSaved?
    ensures Linear(NextOfRefresh(s, pid, s.procs[pid], allowed))
  {
    var s' := NextOfRefresh(s, pid, s.procs[pid], allowed);
    assert HeldOk(s, s.procs[pid]);
    LogGrowsByOne(s, s');
    QuietStepKeepsLinear(s, s', pid);
  }

  lemma OthersKeepLinear(s: State, pid: nat, allowed: bool)
    requires Linear(s) && pid in s.procs
    requires var p := s.procs[pid]; p.Missing? || p.Replay? || p.Verifying? || p.Revoking?
    ensures Linear(NextOfOthers(s, pid, s.procs[pid], allowed))
  {
    var s' := NextOfOthers(s, pid, s.procs[pid], allowed);
    assert HeldOk(s, s.procs[pid]);
    LogGrowsByOne(s, s');
    QuietStepKeepsLinear(s, s', pid);
  }

  lemma CodeExchangeKeepsLinear(s: State, pid: nat, allowed: bool)
    requires Linear(s) && pid in s.procs
    requires var p := s.procs[pid]; p.CodeRead? || p.CodeTaken? || p.KeyCreated? || p.GrantSaved?
    ensures Linear(NextOfCode(s, pid, s.procs[pid], allowed))
  {
    match s.procs[pid]
    case GrantSaved(code, grant) =>
      assert NextOfCode(s, pid, s.procs[pid], allowed) == Given(s, pid, grant, CodeSucceeded(code, grant.keyId));
      GivingStepKeepsLinear(s, pid, grant, CodeSucceeded(code, grant.keyId));
    case KeyCreated(_, _, _) => GrantSaveKeepsLinear(s, pid, allowed);
    case _ => CodeStepKeepsLinear(s, pid, allowed);
  }

  lemma RefreshExchangeKeepsLinear(s: State, pid: nat, allowed: bool)
    requires Records(s) && Linear(s) && pid in s.procs
    requires var p := s.procs[pid]; p.RefreshRead? || p.KeyRead? || p.GrantRead? || p.RefreshTaken? || p.UsedSaved? || p.KeyRotated?
    ensures Linear(NextOfRefresh(s, pid, s.procs[pid], allowed))
  {
    match s.procs[pid]
    case KeyRotated(token, grant, since) =>
      assert NextOfRefresh(s, pid, s.procs[pid], allowed) == Given(s, pid, grant, RefreshSucceeded(token, grant.keyId, since));
      GivingStepKeepsLinear(s, pid, grant, RefreshSucceeded(token, grant.keyId, since));
    case GrantRead(_, _, _, _) => TakeKeepsLinear(s, pid, allowed);
    case UsedSaved(_, _, _, _) => RotationKeepsLinear(s, pid, allowed);
    case _ => RefreshReadsKeepLinear(s, pid, allowed);
  }

  lemma NextKeepsLinear(s: State, pid: nat, allowed: bool)
    requires Records(s) && Linear(s) && pid in s.procs
    ensures Linear(NextStep(s, pid, s.procs[pid], allowed))
  {
    var p := s.procs[pid];
    if p.CodeRead? || p.CodeTaken? || p.KeyCreated? || p.GrantSaved? {
      CodeExchangeKeepsLinear(s, pid, allowed);
    } else if p.Missing? || p.Replay? || p.Verifying? || p.Revoking? {
      OthersKeepLinear(s, pid, allowed);
    } else {
      RefreshExchangeKeepsLinear(s, pid, allowed);
    }
  }

  lemma BeginKeepsLinear(s: State, a: Action)
    requires Linear(s) && IsBegin(a)
    ensures Linear(Step(s, a))
  {
    var s' := Step(s, a);
    if s' != s {
      QuietStepKeepsLinear(s, s', a.pid);
    }
  }

  lemma EnvironmentKeepsLinear(s: State, a: Action)
    requires Linear(s) && (a.Tick? || a.IssueCode? || a.Crash? || a.OwnerRevokes? || a.Expire?)
    ensures Linear(Step(s, a))
  {
    var s' := Step(s, a);
    if a.Crash? {
      QuietStepKeepsLinear(s, s', a.pid);
    } else if a.IssueCode? {
      forall q | q in s'.procs ensures HeldOk(s', s'.procs[q]) {
        assert HeldOk(s, s.procs[q]);
      }
    } else {
      TableStepKeepsLinear(s, a);
    }
  }

  lemma TableStepKeepsLinear(s: State, a: Action)
    requires Linear(s) && (a.Tick? || a.OwnerRevokes? || a.Expire?)
    ensures Linear(Step(s, a))
  {
    var s' := Step(s, a);
    LogGrowsByOne(s, s');
    QuietStepKeepsLinear(s, s', Unused(s.procs.Keys));
  }

  lemma {:induction false} RunKeepsLinear(s: State, actions: seq<Action>)
    requires Records(s) && Linear(s)
    ensures Linear(Run(s, actions))
    decreases |actions|
  {
    if actions != [] {
      var a := actions[0];
      if a.Next? {
        if a.pid in s.procs { NextKeepsLinear(s, a.pid, a.allowed); }
      } else if IsBegin(a) {
        BeginKeepsLinear(s, a);
      } else {
        EnvironmentKeepsLinear(s, a);
      }
      StepKeepsRecords(s, a);
      RunKeepsLinear(Step(s, a), actions[1..]);
    }
  }

  /** In every run, each code and each refresh token succeeds at most once, and each grant has at most one live refresh token. */
  lemma TokensAreSingleUse(clock: int, actions: seq<Action>)
    ensures SucceedOnce(Run(Init(clock), actions).log)
    ensures OneLiveRefresh(Run(Init(clock), actions).t)
  {
    assert Init(clock).log == [];
    RunKeepsLinear(Init(clock), actions);
  }
}
