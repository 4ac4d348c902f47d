/**
 * Single use of second-factor codes (src/auth/mfa.js) under concurrency. Every request
 * works from its own, possibly stale, read of the user row; other writers revoke sessions,
 * reissue recovery codes and spend attempts in between.
 */
module CodeReplay {
  import opened Options
  import opened SecondFactor

  /**
   * `issued` is the list of recovery codes last written; `used` the codes consumed from it,
   * `consumptions` and `otherBumps` count the writes that raise the session version, and
   * `steps` is the sequence of TOTP steps accepted, in commit order, since the row's secret was
   * last replaced or removed; `floor` is the last used step the row had then.
   */
  datatype State = State(
    row: UserRow, snaps: map<nat, UserRow>,
    issued: seq<Digest>, used: seq<Digest>, consumptions: nat, otherBumps: nat, steps: seq<int>, floor: Option<int>)

  datatype Action =
    | Read(pid: nat)
    | UseRecoveryCode(pid: nat, text: string)
    | UseTotp(step: int)
    | RevokeSessions
    | Reissue(codes: seq<Digest>)
    | Attempts(failed: nat, lockedUntil: Option<int>)
    | Enroll
    | Remove

  function Init(row: UserRow): State {
    State(row, map[], row.recoveryCodes, [], 0, 0, [], row.lastUsedStep)
  }

  function Step(s: State, a: Action): State {
    match a
    case Read(pid) => s.(snaps := s.snaps[pid := s.row])
    case UseRecoveryCode(pid, text) =>
      if pid in s.snaps && MatchedHash(s.snaps[pid].recoveryCodes, text).Some? then
        var hash := MatchedHash(s.snaps[pid].recoveryCodes, text).value;
        if MayConsume(s.row, s.snaps[pid], hash) then
          s.(row := Consume(s.row, s.snaps[pid], hash), used := s.used + [hash], consumptions := s.consumptions + 1)
        else s
      else s
    case UseTotp(step) =>
      if StepIsNew(s.row, step) then s.(row := ClaimStep(s.row, step), steps := s.steps + [step]) else s
    case RevokeSessions =>
      s.(row := s.row.(sessionVersion := s.row.sessionVersion + 1), otherBumps := s.otherBumps + 1)
    case Reissue(codes) =>
      s.(row := s.row.(recoveryCodes := codes, sessionVersion := s.row.sessionVersion + 1),
         issued := codes, used := [], otherBumps := s.otherBumps + 1)
    case Attempts(failed, lockedUntil) =>
      s.(row := s.row.(failedAttempts := failed, lockedUntil := lockedUntil))
    case Enroll => s.(row := s.row.(lastUsedStep := None, recoveryCodes := []), issued := [], used := [], steps := [], floor := None)
    case Remove =>
      s.(row := UserRow(0, None, None, [], s.row.sessionVersion + 1),
         issued := [], used := [], otherBumps := s.otherBumps + 1, steps := [], floor := None)
  }

  function Run(s: State, actions: seq<Action>): State
    decreases |actions|
  {
    if actions == [] then s else Run(Step(s, actions[0]), actions[1..])
  }

  /** The issued codes that were not used, in the order they were issued. */
  function Unused(issued: seq<Digest>, used: seq<Digest>): seq<Digest> {
    if issued == [] then []
    else (if issued[0] in used then [] else [issued[0]]) + Unused(issued[1..], used)
  }

  lemma {:induction false} UnusedMember(issued: seq<Digest>, used: seq<Digest>, h: Digest)
    ensures h in Unused(issued, used) <==> h in issued && h !in used
  {
    if issued != [] {
      UnusedMember(issued[1..], used, h);
      assert issued == [issued[0]] + issued[1..];
    }
  }

  lemma {:induction false} UnusedNone(issued: seq<Digest>)
    ensures Unused(issued, []) == issued
  {
    if issued != [] {
      UnusedNone(issued[1..]);
      assert issued == [issued[0]] + issued[1..];
    }
  }

  lemma {:induction false} WithoutIsUnused(issued: seq<Digest>, used: seq<Digest>, h: Digest)
    ensures Without(Unused(issued, used), h) == Unused(issued, used + [h])
  {
    if issued != [] {
      WithoutIsUnused(issued[1..], used, h);
      var rest := Unused(issued[1..], used);
      if issued[0] in used {
        assert [] + rest == rest;
      } else {
        assert ([issued[0]] + rest)[1..] == rest;
      }
    }
  }

  ghost predicate NoRepeats(used: seq<Digest>) {
    forall i, j :: 0 <= i < j < |used| ==> used[i] != used[j]
  }

  ghost predicate Increasing(steps: seq<int>) {
    forall i, j :: 0 <= i < j < |steps| ==> steps[i] < steps[j]
  }

  /** What holds of every reachable state, told from the initial row. */
  ghost predicate SingleUse(first: UserRow, s: State) {
    && s.row.recoveryCodes == Unused(s.issued, s.used)
    && NoRepeats(s.used)
    && (forall h :: h in s.used ==> h in s.issued)
    && s.row.sessionVersion == first.sessionVersion + s.consumptions + s.otherBumps
    && Increasing(s.steps)
    && (forall i :: 0 <= i < |s.steps| ==> s.floor.None? || s.floor.value < s.steps[i])
    && s.row.lastUsedStep == (if s.steps == [] then s.floor else Some(s.steps[|s.steps| - 1]))
  }

  /** Every write of a list with codes in it raises the session version, so a read of the current version is current. */
  ghost predicate ReadsAreCurrent(s: State) {
    forall pid :: pid in s.snaps ==>
      && s.snaps[pid].sessionVersion <= s.row.sessionVersion
      && (s.snaps[pid].sessionVersion == s.row.sessionVersion && s.row.recoveryCodes != [] ==> s.snaps[pid].recoveryCodes == s.row.recoveryCodes)
  }

  lemma UseKeepsSingleUse(first: UserRow, s: State, pid: nat, text: string)
    requires SingleUse(first, s) && ReadsAreCurrent(s)
    ensures SingleUse(first, Step(s, UseRecoveryCode(pid, text))) && ReadsAreCurrent(Step(s, UseRecoveryCode(pid, text)))
  {
    if pid in s.snaps && MatchedHash(s.snaps[pid].recoveryCodes, text).Some? {
      var hash := MatchedHash(s.snaps[pid].recoveryCodes, text).value;
      if MayConsume(s.row, s.snaps[pid], hash) {
        ConsumeKeepsSingleUse(first, s, pid, hash);
      }
    }
  }

  /** The write goes through only from a current read, so the list it computed is right. */
  lemma ConsumeKeepsSingleUse(first: UserRow, s: State, pid: nat, hash: Digest)
    requires SingleUse(first, s) && ReadsAreCurrent(s) && pid in s.snaps
    requires MayConsume(s.row, s.snaps[pid], hash) && hash in s.snaps[pid].recoveryCodes
    ensures var s' := s.(row := Consume(s.row, s.snaps[pid], hash), used := s.used + [hash], consumptions := s.consumptions + 1);
            SingleUse(first, s') && ReadsAreCurrent(s')
  {
    assert s.snaps[pid].recoveryCodes == s.row.recoveryCodes;
    WithoutIsUnused(s.issued, s.used, hash);
    UnusedMember(s.issued, s.used, hash);
  }

  lemma StepKeepsSingleUse(first: UserRow, s: State, a: Action)
    requires SingleUse(first, s) && ReadsAreCurrent(s)
    ensures SingleUse(first, Step(s, a)) && ReadsAreCurrent(Step(s, a))
  {
    match a
    case UseRecoveryCode(pid, text) => UseKeepsSingleUse(first, s, pid, text);
    case Reissue(codes) => UnusedNone(codes);
    case _ =>
  }

  lemma {:induction false} RunKeepsSingleUse(first: UserRow, s: State, actions: seq<Action>)
    requires SingleUse(first, s) && ReadsAreCurrent(s)
    ensures SingleUse(first, Run(s, actions)) && ReadsAreCurrent(Run(s, actions))
    decreases |actions|
  {
    if actions != [] {
      StepKeepsSingleUse(first, s, actions[0]);
      RunKeepsSingleUse(first, Step(s, actions[0]), actions[1..]);
    }
  }

  /**
   * In every interleaving the stored list is the issued list minus the used codes, no code is
   * used twice, each use raises the session version by exactly one, and accepted TOTP steps
   * strictly increase in commit order until the secret they belong to is replaced or removed.
   */
  lemma CodesAreSingleUse(row: UserRow, actions: seq<Action>)
    ensures SingleUse(row, Run(Init(row), actions))
  {
    UnusedNone(row.recoveryCodes);
    RunKeepsSingleUse(row, Init(row), actions);
  }

  /** Enrolling starts over without codes or a last step; removing the factor clears its columns and signs sessions out. */
  lemma EnrollmentsStartOver(s: State)
    ensures Step(s, Enroll).row == s.row.(lastUsedStep := None, recoveryCodes := [])
    ensures Step(s, Remove).row == UserRow(0, None, None, [], s.row.sessionVersion + 1)
  {
  }

  /** A step strictly newer than the last is accepted and recorded; no other is. */
  lemma NewerStepsAreAccepted(s: State, step: int)
    ensures Step(s, UseTotp(step)) ==
            if s.row.lastUsedStep.None? || s.row.lastUsedStep.value < step
            then s.(row := s.row.(lastUsedStep := Some(step)), steps := s.steps + [step]) else s
  {
  }

  /** A fresh read of a stored code is always enough to use it, and removes exactly that code. */
  lemma FreshReadConsumes(s: State, pid: nat, text: string)
    requires |Normalize(text)| == RECOVERY_LENGTH && Hash(text) in s.row.recoveryCodes
    ensures var s' := Run(s, [Read(pid), UseRecoveryCode(pid, text)]);
            && s'.used == s.used + [Hash(text)] && s'.consumptions == s.consumptions + 1
            && Hash(text) !in s'.row.recoveryCodes
            && forall h :: h != Hash(text) ==> (h in s'.row.recoveryCodes <==> h in s.row.recoveryCodes)
  {
    var s1 := Step(s, Read(pid));
    var s2 := Step(s1, UseRecoveryCode(pid, text));
    var run := [Read(pid), UseRecoveryCode(pid, text)];
    assert run[1..] == [run[1]] && run[1..][1..] == [];
    assert Run(s, run) == Run(s1, run[1..]);
    assert Run(s1, run[1..]) == Run(s2, []);
    forall h ensures h in s2.row.recoveryCodes <==> h != Hash(text) && h in s.row.recoveryCodes {
      WithoutMember(s.row.recoveryCodes, Hash(text), h);
    }
  }
}
