/**
 * Second-factor verification (src/auth/mfa.js): the columns of one user row and the
 * conditional updates that reserve attempts, lock the account, claim a TOTP step and
 * consume a recovery code. A SHA-256 digest is an injective constructor here, so equal
 * digests mean equal normalized codes.
 */
module SecondFactor {
  import opened Options

  const MAX_FAILED_ATTEMPTS := 5
  const LOCKOUT_MS := 15 * 60 * 1000

  const RECOVERY_LENGTH := 4 * 4

  datatype Digest = Digest(preimage: string)

  datatype UserRow = UserRow(
    failedAttempts: nat, lockedUntil: Option<int>, lastUsedStep: Option<int>,
    recoveryCodes: seq<Digest>, sessionVersion: nat)

  // ---------------------------------------------------------------- atomic updates

  predicate Locked(row: UserRow, now: int) {
    row.lockedUntil.Some? && row.lockedUntil.value > now
  }

  /** `reserveAttempt`: the row after it and the attempt number, or None while locked. */
  function Reserve(row: UserRow, now: int): (UserRow, Option<nat>) {
    if Locked(row, now) then (row, None)
    else (row.(failedAttempts := row.failedAttempts + 1), Some(row.failedAttempts + 1))
  }

  /** `lockAccount`. */
  function Lock(row: UserRow, now: int): UserRow {
    if Locked(row, now) then row
    else row.(failedAttempts := 0, lockedUntil := Some(now + LOCKOUT_MS))
  }

  predicate StepIsNew(row: UserRow, step: int) {
    row.lastUsedStep.None? || row.lastUsedStep.value < step
  }

  /** The conditional update of `claimTotpCode`. */
  function ClaimStep(row: UserRow, step: int): UserRow {
    if StepIsNew(row, step) then row.(lastUsedStep := Some(step)) else row
  }

  /** The stored hashes without `hash`, in order. */
  function Without(codes: seq<Digest>, hash: Digest): seq<Digest> {
    if codes == [] then []
    else if codes[0] == hash then Without(codes[1..], hash)
    else [codes[0]] + Without(codes[1..], hash)
  }

  lemma {:induction false} WithoutMember(codes: seq<Digest>, hash: Digest, h: Digest)
    ensures h in Without(codes, hash) <==> h in codes && h != hash
  {
    if codes != [] {
      WithoutMember(codes[1..], hash, h);
      assert codes == [codes[0]] + codes[1..];
    }
  }

  predicate MayConsume(row: UserRow, user: UserRow, hash: Digest) {
    row.sessionVersion == user.sessionVersion && hash in row.recoveryCodes
  }

  /** The conditional update that consumes `hash`; the new list comes from the caller's read of the row. */
  function Consume(row: UserRow, user: UserRow, hash: Digest): UserRow {
    if MayConsume(row, user, hash) then
      row.(recoveryCodes := Without(user.recoveryCodes, hash),
           sessionVersion := row.sessionVersion + 1, failedAttempts := 0)
    else row
  }

  // ---------------------------------------------------------------- recovery codes

  function Lower(c: char): char {
    if 'A' <= c <= 'Z' then c - 'A' + 'a' else c
  }

  /** A letter in lower case or a digit; any other character is dropped. */
  function Kept(c: char): string {
    var l := Lower(c);
    if 'a' <= l <= 'z' || '0' <= l <= '9' then [l] else ""
  }

  /** Lower case, letters and digits only: codes may be typed with any spacing or dashes. */
  function Normalize(code: string): string {
    if code == "" then "" else Kept(code[0]) + Normalize(code[1..])
  }

  function Hash(code: string): Digest {
    Digest(Normalize(code))
  }

  /** The stored hash a submitted code stands for, if any. */
  function MatchedHash(stored: seq<Digest>, code: string): Option<Digest> {
    if |Normalize(code)| == RECOVERY_LENGTH && Hash(code) in stored then Some(Hash(code)) else None
  }

  lemma {:induction false} NormalizeIsIdempotent(code: string)
    ensures Normalize(Normalize(code)) == Normalize(code)
  {
    if code != "" {
      NormalizeIsIdempotent(code[1..]);
      if Kept(code[0]) == "" {
        assert Normalize(code) == Normalize(code[1..]);
      } else {
        assert Kept(Kept(code[0])[0]) == Kept(code[0]);
        assert Normalize(code)[0] == Kept(code[0])[0] && Normalize(code)[1..] == Normalize(code[1..]);
      }
    }
  }

  lemma Regroup(a: string, b: string, c: string)
    ensures (a + b) + c == a + (b + c)
  {
  }

  lemma {:induction false} NormalizeAppend(a: string, b: string)
    ensures Normalize(a + b) == Normalize(a) + Normalize(b)
    decreases |a|
  {
    if a == "" {
      assert a + b == b;
    } else {
      assert (a + b)[1..] == a[1..] + b && (a + b)[0] == a[0];
      NormalizeAppend(a[1..], b);
      Regroup(Kept(a[0]), Normalize(a[1..]), Normalize(b));
    }
  }

  /** Character by character: letters are lower-cased, digits kept, everything else dropped. */
  lemma NormalizeOne(c: char)
    ensures 'a' <= c <= 'z' || '0' <= c <= '9' ==> Normalize([c]) == [c]
    ensures 'A' <= c <= 'Z' ==> Normalize([c]) == [c - 'A' + 'a']
    ensures !('a' <= c <= 'z' || '0' <= c <= '9' || 'A' <= c <= 'Z') ==> Normalize([c]) == ""
  {
    assert [c][1..] == "";
  }

  /** The characters of generated codes: digits and letters, without the ones read for another. */
  const RECOVERY_ALPHABET := "abcdefghjkmnpqrstuvwxyz23456789"

  predicate IsGroup(group: string) {
    |group| == 4 && forall i :: 0 <= i < 4 ==> group[i] in RECOVERY_ALPHABET
  }

  lemma AlphabetIsNormal(c: char)
    requires c in RECOVERY_ALPHABET
    ensures 'a' <= c <= 'z' || '0' <= c <= '9'
  {
    var i :| 0 <= i < |RECOVERY_ALPHABET| && RECOVERY_ALPHABET[i] == c;
    assert 'a' <= RECOVERY_ALPHABET[i] <= 'z' || '0' <= RECOVERY_ALPHABET[i] <= '9';
  }

  lemma {:induction false} NormalizeKeeps(s: string)
    requires forall i :: 0 <= i < |s| ==> 'a' <= s[i] <= 'z' || '0' <= s[i] <= '9'
    ensures Normalize(s) == s
    decreases |s|
  {
    if s != "" {
      NormalizeKeeps(s[1..]);
    }
  }

  lemma GroupIsNormal(group: string)
    requires IsGroup(group)
    ensures Normalize(group) == group
  {
    forall i | 0 <= i < |group| ensures 'a' <= group[i] <= 'z' || '0' <= group[i] <= '9' {
      AlphabetIsNormal(group[i]);
    }
    NormalizeKeeps(group);
  }

  /** How a code is handed out: four groups of four, joined with dashes. */
  function Joined(a: string, b: string, c: string, d: string): string {
    a + "-" + b + "-" + c + "-" + d
  }

  lemma JoinedIsNormalized(a: string, b: string, c: string, d: string)
    requires IsGroup(a) && IsGroup(b) && IsGroup(c) && IsGroup(d)
    ensures Normalize(Joined(a, b, c, d)) == a + b + c + d
  {
    GroupIsNormal(a);
    GroupIsNormal(b);
    GroupIsNormal(c);
    GroupIsNormal(d);
    DashIsDropped(a, b);
    DashIsDropped(a + "-" + b, c);
    DashIsDropped(a + "-" + b + "-" + c, d);
  }

  lemma DashIsDropped(a: string, b: string)
    ensures Normalize(a + "-" + b) == Normalize(a) + Normalize(b)
  {
    NormalizeOne('-');
    NormalizeAppend(a + "-", b);
    NormalizeAppend(a, "-");
    assert Normalize(a) + "" == Normalize(a);
  }

  /** A generated code is found exactly while its hash is stored, whatever case and separators it is typed with. */
  lemma GeneratedCodesAreFound(a: string, b: string, c: string, d: string, typed: string, stored: seq<Digest>)
    requires IsGroup(a) && IsGroup(b) && IsGroup(c) && IsGroup(d)
    requires Normalize(typed) == a + b + c + d
    ensures MatchedHash(stored, typed) == MatchedHash(stored, Joined(a, b, c, d))
    ensures Hash(Joined(a, b, c, d)) in stored ==> MatchedHash(stored, typed) == Some(Hash(Joined(a, b, c, d)))
    ensures Hash(Joined(a, b, c, d)) !in stored ==> MatchedHash(stored, typed) == None
  {
    JoinedIsNormalized(a, b, c, d);
  }

  /** Two texts hash alike exactly when they are the same letters and digits; other lengths are no codes. */
  lemma HashesAreOfNormalizedCodes(stored: seq<Digest>, a: string, b: string)
    ensures Hash(a) == Hash(b) <==> Normalize(a) == Normalize(b)
    ensures |Normalize(a)| != 16 ==> MatchedHash(stored, a) == None
    ensures MatchedHash(stored, a).Some? ==> MatchedHash(stored, a) == Some(Hash(a)) && Hash(a) in stored
  {
  }

  // ---------------------------------------------------------------- one request, uninterrupted

  datatype Factor = RecoveryCode | Totp
  datatype Reason = IsLocked | Invalid | Replayed
  datatype Verdict =
    | Accepted(factor: Factor, remaining: nat, sessionVersion: nat)
    | Refused(reason: Reason)

  /**
   * What the request submits: a recovery code, a TOTP code (the time step it verifies for,
   * or None), or neither.
   */
  datatype Submission = Recovery(text: string) | Code(step: Option<int>) | Nothing

  predicate CodeIsGood(row: UserRow, user: UserRow, input: Submission) {
    match input
    case Recovery(text) =>
      MatchedHash(user.recoveryCodes, text).Some? && MayConsume(row, user, Hash(text))
    case Code(step) => step.Some? && StepIsNew(row, step.value)
    case Nothing => false
  }

  class UserAccount {
    var row: UserRow

    constructor (initial: UserRow)
      ensures row == initial
    {
      row := initial;
    }

    method ReserveAttempt(now: int) returns (attempt: Option<nat>)
      modifies this
      ensures (row, attempt) == Reserve(old(row), now)
      ensures attempt.None? <==> old(row).lockedUntil.Some? && old(row).lockedUntil.value > now
      ensures attempt.Some? ==> attempt.value == old(row).failedAttempts + 1 && row == old(row).(failedAttempts := attempt.value)
      ensures attempt.None? ==> row == old(row)
    {
      if row.lockedUntil.None? || row.lockedUntil.value <= now {
        row := row.(failedAttempts := row.failedAttempts + 1);
        return Some(row.failedAttempts);
      }
      return None;
    }

    method LockAccount(now: int)
      modifies this
      ensures row == Lock(old(row), now)
      ensures row == if old(row).lockedUntil.Some? && old(row).lockedUntil.value > now then old(row)
                     else old(row).(failedAttempts := 0, lockedUntil := Some(now + 900_000))
    {
      if row.lockedUntil.None? || row.lockedUntil.value <= now {
        row := row.(failedAttempts := 0, lockedUntil := Some(now + LOCKOUT_MS));
      }
    }

    method ClaimTotpStep(step: int) returns (isNew: bool)
      modifies this
      ensures isNew == StepIsNew(old(row), step)
      ensures row == ClaimStep(old(row), step)
      ensures isNew <==> (old(row).lastUsedStep.Some? ==> old(row).lastUsedStep.value < step)
      ensures row == if isNew then old(row).(lastUsedStep := Some(step)) else old(row)
    {
      isNew := row.lastUsedStep.None? || row.lastUsedStep.value < step;
      if isNew {
        row := row.(lastUsedStep := Some(step));
      }
    }

    method ConsumeRecoveryCode(user: UserRow, hash: Digest) returns (consumed: bool)
      modifies this
      ensures consumed == MayConsume(old(row), user, hash)
      ensures row == Consume(old(row), user, hash)
      ensures consumed <==> old(row).sessionVersion == user.sessionVersion && hash in old(row).recoveryCodes
      ensures !consumed ==> row == old(row)
      ensures consumed ==>
                && row == old(row).(recoveryCodes := row.recoveryCodes, sessionVersion := user.sessionVersion + 1, failedAttempts := 0)
                && forall h :: h in row.recoveryCodes <==> h in user.recoveryCodes && h != hash
    {
      var remaining := Without(user.recoveryCodes, hash);
      forall h ensures h in remaining <==> h in user.recoveryCodes && h != hash {
        WithoutMember(user.recoveryCodes, hash, h);
      }
      consumed := row.sessionVersion == user.sessionVersion && hash in row.recoveryCodes;
      if consumed {
        row := row.(recoveryCodes := remaining, sessionVersion := row.sessionVersion + 1, failedAttempts := 0);
      }
    }

    /** `fail` of `reserveCodeAttempt`. */
    method Fail(attempt: nat, now: int, reason: Reason) returns (verdict: Verdict)
      modifies this
      ensures verdict == Refused(if attempt >= MAX_FAILED_ATTEMPTS then IsLocked else reason)
      ensures row == if attempt >= MAX_FAILED_ATTEMPTS then Lock(old(row), now) else old(row)
    {
      if attempt >= MAX_FAILED_ATTEMPTS {
        LockAccount(now);
        return Refused(IsLocked);
      }
      return Refused(reason);
    }

    /**
     * `verifySecondFactor` with the user read earlier (possibly stale). No code is looked at
     * while locked or past the budget; a good code clears the counter; the fifth bad one locks.
     */
    method VerifySecondFactor(user: UserRow, input: Submission, now: int) returns (verdict: Verdict)
      modifies this
      ensures Locked(old(row), now) ==> row == old(row) && verdict == Refused(IsLocked)
      ensures !Locked(old(row), now) && old(row).failedAttempts >= 5 ==>
                verdict == Refused(IsLocked) &&
                row == old(row).(failedAttempts := 0, lockedUntil := Some(now + 900_000))
      ensures !Locked(old(row), now) && old(row).failedAttempts < 5 ==>
                (verdict.Accepted? <==> CodeIsGood(old(row), user, input))
      ensures verdict.Accepted? ==> row.failedAttempts == 0 && row.lockedUntil == old(row).lockedUntil
      ensures verdict.Accepted? && input.Recovery? ==>
                && row.recoveryCodes == Without(user.recoveryCodes, Hash(input.text))
                && row.sessionVersion == old(row).sessionVersion + 1 && row.lastUsedStep == old(row).lastUsedStep
                && verdict == Accepted(RecoveryCode, |row.recoveryCodes|, row.sessionVersion)
      ensures verdict.Accepted? && input.Code? ==>
                && row.lastUsedStep == input.step && row.sessionVersion == old(row).sessionVersion
                && row.recoveryCodes == old(row).recoveryCodes
                && verdict == Accepted(Totp, |user.recoveryCodes|, user.sessionVersion)
      ensures !Locked(old(row), now) && old(row).failedAttempts < 5 && verdict.Refused? ==>
                if old(row).failedAttempts == 4
                then verdict.reason == IsLocked && row == old(row).(failedAttempts := 0, lockedUntil := Some(now + 900_000))
                else row == old(row).(failedAttempts := old(row).failedAttempts + 1) &&
                     verdict.reason == (if input.Code? && input.step.Some? then Replayed else Invalid)
    {
      var reserved := ReserveAttempt(now);
      if reserved.None? {
        return Refused(IsLocked);
      }
      var attempt := reserved.value;
      if attempt > MAX_FAILED_ATTEMPTS {
        LockAccount(now);
        return Refused(IsLocked);
      }
      match input
      case Recovery(submitted) =>
        var hash := FindRecoveryCodeHash(user.recoveryCodes, submitted);
        if hash.Some? {
          var remaining := Without(user.recoveryCodes, hash.value);
          var consumed := ConsumeRecoveryCode(user, hash.value);
          if consumed {
            return Accepted(RecoveryCode, |remaining|, user.sessionVersion + 1);
          }
        }
        verdict := Fail(attempt, now, Invalid);
      case Code(step) =>
        if step.None? {
          verdict := Fail(attempt, now, Invalid);
        } else {
          var isNew := ClaimTotpStep(step.value);
          if isNew {
            row := row.(failedAttempts := 0);
            return Accepted(Totp, |user.recoveryCodes|, user.sessionVersion);
          }
          verdict := Fail(attempt, now, Replayed);
        }
      case Nothing =>
        verdict := Fail(attempt, now, Invalid);
    }
  }

  /** `findRecoveryCodeHash`: every stored hash is compared; the first match is returned. */
  method FindRecoveryCodeHash(storedHashes: seq<Digest>, code: string) returns (found: Option<Digest>)
    ensures found == MatchedHash(storedHashes, code)
  {
    found := None;
    var normalized := Normalize(code);
    if |normalized| != RECOVERY_LENGTH {
      return;
    }
    var submitted := Hash(normalized);
    NormalizeIsIdempotent(code);
    for i := 0 to |storedHashes|
      invariant found == if submitted in storedHashes[..i] then Some(submitted) else None
    {
      if storedHashes[i] == submitted && found.None? {
        found := Some(storedHashes[i]);
      }
      assert storedHashes[..i + 1] == storedHashes[..i] + [storedHashes[i]];
    }
    assert storedHashes[..|storedHashes|] == storedHashes;
  }
}
