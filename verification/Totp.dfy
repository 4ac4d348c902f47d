/**
 * One-time passwords (src/auth/totp.js; RFC 4226, RFC 6238). The HMAC of a counter under a
 * key is a parameter; a digest of at least 20 bytes is what every supported hash gives.
 */
module Totp {
  import opened Options
  import opened Bits
  import opened Base32
  import opened WhiteSpace

  /** HMAC of the 8-byte big-endian counter. */
  type Mac = (Bytes, nat) -> Bytes

  datatype Secret = Raw(key: Bytes) | Text(base32: string)

  datatype Verdict = Matched(step: nat) | NoMatch | InvalidSecret

  // ---------------------------------------------------------------- HOTP

  /** A byte of the digest; reading outside it counts as zero, as `undefined` does under `|`. */
  function At(digest: Bytes, i: int): (b: nat)
    ensures b < 256
  {
    if 0 <= i < |digest| then digest[i] else 0
  }

  function Offset(digest: Bytes): (o: nat)
    ensures o < 16
  {
    At(digest, |digest| - 1) % 16
  }

  function Truncate(digest: Bytes): nat {
    var o := Offset(digest);
    (At(digest, o) % 128) * 0x100_0000 + At(digest, o + 1) * 0x1_0000 + At(digest, o + 2) * 0x100 + At(digest, o + 3)
  }

  /** The truncation reads four bytes inside the digest: their value without the top bit. */
  lemma TruncationIsTheLow31Bits(digest: Bytes)
    requires |digest| >= 20
    ensures var o := Offset(digest);
            && o + 4 <= |digest| && Truncate(digest) < 0x8000_0000
            && Truncate(digest) == Low(Value(8, digest[o..o + 4]), 31)
  {
    var o := Offset(digest);
    FourBytes(digest[o], digest[o + 1], digest[o + 2], digest[o + 3]);
    assert digest[o..o + 4] == [digest[o], digest[o + 1], digest[o + 2], digest[o + 3]];
  }

  lemma FourBytes(a: nat, b: nat, c: nat, d: nat)
    requires a < 256 && b < 256 && c < 256 && d < 256
    ensures Low(Value(8, [a, b, c, d]), 31) == (a % 128) * 0x100_0000 + b * 0x1_0000 + c * 0x100 + d
  {
    ValueOfFour(a, b, c, d);
    LowOfFour(a, b, c, d);
  }

  lemma ValueOfFour(a: nat, b: nat, c: nat, d: nat)
    ensures Value(8, [a, b, c, d]) == Up(Up(Up(a, 8) + b, 8) + c, 8) + d
  {
    assert [a] == [] + [a] && [a, b] == [a] + [b] && [a, b, c] == [a, b] + [c] && [a, b, c, d] == [a, b, c] + [d];
    ValueAppend(8, [], a);
    UpOfZero(8);
    ValueAppend(8, [a], b);
    ValueAppend(8, [a, b], c);
    ValueAppend(8, [a, b, c], d);
  }

  lemma LowOfFour(a: nat, b: nat, c: nat, d: nat)
    requires a < 256 && b < 256 && c < 256 && d < 256
    ensures Low(Up(Up(Up(a, 8) + b, 8) + c, 8) + d, 31) == (a % 128) * 0x100_0000 + b * 0x1_0000 + c * 0x100 + d
  {
    Doublings(1);
    LowOfJoin(Up(Up(a, 8) + b, 8) + c, d, 23, 8);
    LowOfJoin(Up(a, 8) + b, c, 15, 8);
    LowOfJoin(a, b, 7, 8);
    LowSeven(a);
    Doublings(a % 128);
    Doublings(a % 128 * 256 + b);
    Doublings(a % 128 * 0x1_0000 + b * 256 + c);
  }

  lemma LowSeven(v: nat)
    ensures Low(v, 7) == v % 128
  {
    Split(v, 7);
    LowIsBelow(v, 7);
    Doublings(1);
    Doublings(Down(v, 7));
  }

  function PowerOfTen(n: nat): (p: nat)
    ensures p >= 1
  {
    if n == 0 then 1 else 10 * PowerOfTen(n - 1)
  }

  predicate IsDigit(c: char) {
    '0' <= c <= '9'
  }

  predicate AllDigits(s: string) {
    forall i :: 0 <= i < |s| ==> IsDigit(s[i])
  }

  function Decimal(n: nat): string {
    (if n < 10 then [] else Decimal(n / 10)) + ['0' + (n % 10) as char]
  }

  function PadStart(s: string, length: nat): string
    decreases length - |s|
  {
    if |s| >= length then s else PadStart("0" + s, length)
  }

  /** The `digits`-digit code of a number. */
  function Code(n: nat, digits: nat): string {
    PadStart(Decimal(n % PowerOfTen(digits)), digits)
  }

  function Hotp(mac: Mac, key: Bytes, counter: nat, digits: nat): string {
    Code(Truncate(mac(key, counter)), digits)
  }

  /** The number a digit string reads as. */
  function Read(s: string): nat
    requires AllDigits(s)
  {
    if s == [] then 0 else 10 * Read(s[..|s| - 1]) + (s[|s| - 1] as nat - '0' as nat)
  }

  lemma ReadAppend(s: string, c: char)
    requires AllDigits(s) && IsDigit(c)
    ensures AllDigits(s + [c]) && Read(s + [c]) == 10 * Read(s) + (c as nat - '0' as nat)
  {
    assert (s + [c])[..|s|] == s;
  }

  lemma {:induction false} ReadDecimal(n: nat)
    ensures AllDigits(Decimal(n)) && Read(Decimal(n)) == n
  {
    var last := '0' + (n % 10) as char;
    if n < 10 {
      ReadAppend("", last);
    } else {
      ReadDecimal(n / 10);
      ReadAppend(Decimal(n / 10), last);
    }
  }

  lemma {:induction false} DecimalLength(n: nat, digits: nat)
    requires n < PowerOfTen(digits) && digits >= 1
    ensures 1 <= |Decimal(n)| <= digits
  {
    assert PowerOfTen(1) == 10;
    if n >= 10 {
      DecimalLength(n / 10, digits - 1);
    }
  }

  lemma {:induction false} PadKeepsTheNumber(s: string, length: nat)
    requires AllDigits(s)
    ensures var p := PadStart(s, length);
            && AllDigits(p) && Read(p) == Read(s) && |p| == if |s| >= length then |s| else length
    decreases length - |s|
  {
    if |s| < length {
      LeadingZero(s);
      PadKeepsTheNumber("0" + s, length);
    }
  }

  lemma {:induction false} LeadingZero(s: string)
    requires AllDigits(s)
    ensures AllDigits("0" + s) && Read("0" + s) == Read(s)
    decreases |s|
  {
    var z := "0" + s;
    if s == [] {
      assert z[..0] == [];
    } else {
      LeadingZero(s[..|s| - 1]);
      assert z[..|z| - 1] == "0" + s[..|s| - 1];
    }
  }

  /** A code is exactly `digits` decimal digits reading as the number modulo 10^digits. */
  lemma CodeIsTheNumber(n: nat, digits: nat)
    ensures AllDigits(Code(n, digits)) && Read(Code(n, digits)) == n % PowerOfTen(digits)
    ensures |Code(n, digits)| == digits <==> digits >= 1
  {
    var m := n % PowerOfTen(digits);
    ReadDecimal(m);
    PadKeepsTheNumber(Decimal(m), digits);
    if digits >= 1 {
      DecimalLength(m, digits);
    }
  }

  /** So two counters share a code exactly when their numbers agree modulo 10^digits. */
  lemma CodesAgreeExactlyWhenNumbersDo(m: nat, n: nat, digits: nat)
    ensures Code(m, digits) == Code(n, digits) <==> m % PowerOfTen(digits) == n % PowerOfTen(digits)
  {
    CodeIsTheNumber(m, digits);
    CodeIsTheNumber(n, digits);
  }

  /** RFC 4226, section 5.3: four bytes of the digest, at the offset its last four bits name, without the top bit. */
  function DynamicTruncation(digest: Bytes): nat
    requires |digest| >= 20
  {
    var o := digest[|digest| - 1] % 16;
    Low(Value(8, digest[o..o + 4]), 31)
  }

  /** The digits are those of the step: as many as asked for, reading as its truncated digest modulo 10^digits. */
  predicate IsCodeOf(mac: Mac, key: Bytes, step: nat, digits: nat, code: string) {
    && |mac(key, step)| >= 20 && AllDigits(code) && |code| == digits
    && Read(code) == DynamicTruncation(mac(key, step)) % PowerOfTen(digits)
  }

  lemma {:induction false} DigitsDetermine(a: string, b: string)
    requires AllDigits(a) && AllDigits(b) && |a| == |b| && Read(a) == Read(b)
    ensures a == b
    decreases |a|
  {
    if a != [] {
      DigitsDetermine(a[..|a| - 1], b[..|b| - 1]);
      assert a == a[..|a| - 1] + [a[|a| - 1]] && b == b[..|b| - 1] + [b[|b| - 1]];
    }
  }

  /** The code of a counter, stated on its digest alone: one string of digits fits, and it is the one computed. */
  lemma HotpIsTheCode(mac: Mac, key: Bytes, counter: nat, digits: nat, code: string)
    requires digits >= 1 && |mac(key, counter)| >= 20
    ensures code == Hotp(mac, key, counter, digits) <==> IsCodeOf(mac, key, counter, digits, code)
  {
    var expected := Hotp(mac, key, counter, digits);
    TruncationIsTheLow31Bits(mac(key, counter));
    CodeIsTheNumber(Truncate(mac(key, counter)), digits);
    assert IsCodeOf(mac, key, counter, digits, expected);
    if IsCodeOf(mac, key, counter, digits, code) {
      DigitsDetermine(code, expected);
    }
  }

  // ---------------------------------------------------------------- TOTP

  /** The step of a moment in milliseconds; Dafny's division floors for a positive divisor. */
  function Step(timeMs: int, period: nat): int
    requires period > 0
  {
    timeMs / (1000 * period)
  }

  function WithoutSpaces(s: string): string {
    if s == [] then [] else (if IsSpace(s[0]) then [] else [s[0]]) + WithoutSpaces(s[1..])
  }

  predicate Accepts(codes: nat -> string, submitted: string, step: int) {
    step >= 0 && codes(step) == submitted
  }

  /** `matched` is the first step of low..high, both included, whose code is the submitted one. */
  ghost predicate IsFirstMatch(codes: nat -> string, submitted: string, low: int, high: int, matched: Option<nat>) {
    match matched
    case None => forall s :: low <= s <= high ==> !Accepts(codes, submitted, s)
    case Some(m) =>
      && low <= m <= high && Accepts(codes, submitted, m)
      && forall s :: low <= s < m ==> !Accepts(codes, submitted, s)
  }

  predicate WellFormed(submitted: string, digits: nat) {
    |submitted| == digits && AllDigits(submitted)
  }

  function KeyOf(secret: Secret): Option<Bytes> {
    match secret
    case Raw(key) => Some(key)
    case Text(text) => Decoded(Clean(text))
  }

  /** The comparison loop: every step of the window is compared, none left out early. */
  method MatchStep(codes: nat -> string, submitted: string, current: int, window: nat) returns (matched: Option<nat>)
    ensures IsFirstMatch(codes, submitted, current - window, current + window, matched)
  {
    matched := None;
    var offset: int := 0 - window;
    while offset <= window
      invariant 0 - window <= offset <= window + 1
      invariant IsFirstMatch(codes, submitted, current - window, current + offset - 1, matched)
    {
      var step := current + offset;
      offset := offset + 1;
      if step < 0 {
        continue;
      }
      var expected := codes(step);
      if expected == submitted && matched.None? {
        matched := Some(step);
      }
    }
  }

  /** Every supported hash gives a digest of at least 20 bytes. */
  ghost predicate GivesDigests(mac: Mac, key: Bytes) {
    forall c :: |mac(key, c)| >= 20
  }

  /** A step of the window whose code the submitted digits are. */
  predicate Matches(mac: Mac, key: Bytes, current: int, window: nat, digits: nat, submitted: string, step: nat) {
    current - window <= step <= current + window && IsCodeOf(mac, key, step, digits, submitted)
  }

  /** `matched` is the first step of the window whose code was submitted; the current step's is never missed. */
  ghost predicate IsFirstCode(mac: Mac, key: Bytes, current: int, window: nat, digits: nat, submitted: string, matched: Option<nat>) {
    && (matched.Some? ==> Matches(mac, key, current, window, digits, submitted, matched.value))
    && (forall step: nat :: Matches(mac, key, current, window, digits, submitted, step) ==> matched.Some? && matched.value <= step)
    && (current >= 0 && IsCodeOf(mac, key, current, digits, submitted) ==> matched.Some? && matched.value <= current)
  }

  lemma FirstMatchInDigits(mac: Mac, key: Bytes, current: int, window: nat, digits: nat, submitted: string, matched: Option<nat>)
    requires digits >= 1 && GivesDigests(mac, key)
    requires IsFirstMatch((step: nat) => Hotp(mac, key, step, digits), submitted, current - window, current + window, matched)
    ensures IsFirstCode(mac, key, current, window, digits, submitted, matched)
  {
    if matched.Some? {
      HotpIsTheCode(mac, key, matched.value, digits, submitted);
    }
    forall step: nat | Matches(mac, key, current, window, digits, submitted, step)
      ensures matched.Some? && matched.value <= step
    {
      HotpIsTheCode(mac, key, step, digits, submitted);
      assert Accepts((step: nat) => Hotp(mac, key, step, digits), submitted, step);
    }
    assert current >= 0 && IsCodeOf(mac, key, current, digits, submitted) ==> Matches(mac, key, current, window, digits, submitted, current);
  }

  /**
   * What verification answers: the first step of the window whose code was submitted, so the
   * code of the current step never goes unmatched. Comparing needs codes of equal length, so
   * digits >= 1.
   */
  method VerifyTotp(mac: Mac, secret: Secret, code: string, timeMs: int, window: nat, digits: nat, period: nat)
      returns (verdict: Verdict)
    requires digits >= 1 && period >= 1
    ensures verdict.InvalidSecret? <==> |WithoutSpaces(code)| == digits && AllDigits(WithoutSpaces(code)) && KeyOf(secret).None?
    ensures !(|WithoutSpaces(code)| == digits && AllDigits(WithoutSpaces(code))) ==> verdict == NoMatch
    ensures WellFormed(WithoutSpaces(code), digits) && KeyOf(secret).Some? ==>
              var matched := if verdict.Matched? then Some(verdict.step) else None;
              var codes := (step: nat) => Hotp(mac, KeyOf(secret).value, step, digits);
              var current := Step(timeMs, period);
              IsFirstMatch(codes, WithoutSpaces(code), current - window, current + window, matched)
    ensures WellFormed(WithoutSpaces(code), digits) && KeyOf(secret).Some? && GivesDigests(mac, KeyOf(secret).value) ==>
              IsFirstCode(mac, KeyOf(secret).value, Step(timeMs, period), window, digits, WithoutSpaces(code),
                          if verdict.Matched? then Some(verdict.step) else None)
  {
    var submitted := WithoutSpaces(code);
    if |submitted| != digits || !AllDigits(submitted) {
      return NoMatch;
    }
    var decoded;
    match secret {
      case Raw(key) => decoded := Some(key);
      case Text(text) => decoded := Base32Decode(text);
    }
    if decoded.None? {
      return InvalidSecret;
    }
    var codes := (step: nat) => Hotp(mac, decoded.value, step, digits);
    var matched := MatchStep(codes, submitted, Step(timeMs, period), window);
    if GivesDigests(mac, decoded.value) {
      FirstMatchInDigits(mac, decoded.value, Step(timeMs, period), window, digits, submitted, matched);
    }
    return if matched.Some? then Matched(matched.value) else NoMatch;
  }

  /** A step is one period, counted from the epoch. */
  lemma StepsArePeriods(timeMs: int, period: nat, step: int)
    requires period >= 1
    ensures Step(timeMs, period) == step <==> step * (1000 * period) <= timeMs < step * (1000 * period) + 1000 * period
  {
    var w := 1000 * period;
    var s := Step(timeMs, period);
    assert s * w <= timeMs < s * w + w;
    Compared(s, step, w);
    Compared(step, s, w);
    Compared(s + 1, step, w);
    Compared(step + 1, s, w);
    Distribute(s, 1, w);
    Distribute(step, 1, w);
  }

  lemma {:induction false} WithoutSpacesAppend(a: string, b: string)
    ensures WithoutSpaces(a + b) == WithoutSpaces(a) + WithoutSpaces(b)
    decreases |a|
  {
    if a == [] {
      assert a + b == b;
    } else {
      assert (a + b)[1..] == a[1..] + b;
      WithoutSpacesAppend(a[1..], b);
    }
  }

  lemma {:induction false} WithoutSpacesOfDigits(s: string)
    requires AllDigits(s)
    ensures WithoutSpaces(s) == s
    decreases |s|
  {
    if s != [] { WithoutSpacesOfDigits(s[1..]); }
  }

  lemma {:induction false} WithoutSpacesOfBlanks(s: string)
    requires forall i :: 0 <= i < |s| ==> IsSpace(s[i])
    ensures WithoutSpaces(s) == []
    decreases |s|
  {
    if s != [] { WithoutSpacesOfBlanks(s[1..]); }
  }

  /** A code may be typed with white space anywhere; its digits are what is compared. */
  lemma SpacesAreIgnored(a: string, blanks: string, b: string)
    requires AllDigits(a) && AllDigits(b) && forall i :: 0 <= i < |blanks| ==> IsSpace(blanks[i])
    ensures WithoutSpaces(a + blanks + b) == a + b
  {
    WithoutSpacesAppend(a + blanks, b);
    WithoutSpacesAppend(a, blanks);
    WithoutSpacesOfDigits(a);
    WithoutSpacesOfDigits(b);
    WithoutSpacesOfBlanks(blanks);
    assert a + [] == a;
  }

  /** A secret stored as text and the bytes it encodes verify the same codes. */
  lemma TextAndBytesAreOneKey(key: Bytes)
    ensures KeyOf(Raw(key)) == Some(key) && KeyOf(Text(Encoded(key))) == Some(key)
  {
    RoundTrip(key);
  }

  /**
   * The window in time: a code of the step of `shown` is among the steps compared at `now`
   * when the two moments are at most `window` periods apart, and never once they are
   * `window + 1` periods apart.
   */
  lemma WindowInTime(shown: int, now: int, window: nat, period: nat)
    requires period >= 1
    ensures var w := 1000 * period;
            var near := Step(now, period) - window <= Step(shown, period) <= Step(now, period) + window;
            && (0 - window * w <= shown - now <= window * w ==> near)
            && (near ==> 0 - (window + 1) * w < shown - now < (window + 1) * w)
  {
    var w := 1000 * period;
    var a, b := Step(shown, period), Step(now, period);
    Compared(b - window, a, w);
    Compared(a, b + window, w);
    Distribute(b, window, w);
    Distribute(window, 1, w);
    Apart(shown, now, a * w, b * w, window * w, w, b - window <= a, a <= b + window);
  }

  lemma Compared(x: int, y: int, w: int)
    requires w >= 1
    ensures if x <= y then x * w <= y * w else y * w + w <= x * w
  {
    Distribute(x, y - x, w);
    Distribute(y, x - y, w);
    Sign(y - x, w);
    Sign(x - y, w);
  }

  lemma Sign(k: int, w: int)
    requires w >= 1
    ensures if k >= 0 then k * w >= 0 else k * w + w <= 0
  {
    Distribute(k, 1, w);
  }

  /** The comparison of the steps' starts, carried over to moments inside them. */
  lemma Apart(shown: int, now: int, a: int, b: int, width: int, w: int, low: bool, high: bool)
    requires a <= shown < a + w && b <= now < b + w
    requires if low then b - width <= a else a + w <= b - width
    requires if high then a <= b + width else b + width + w <= a
    ensures 0 - width <= shown - now <= width ==> low && high
    ensures low && high ==> 0 - width - w < shown - now < width + w
  {
  }

  lemma Distribute(x: int, y: int, w: int)
    ensures (x + y) * w == x * w + y * w && (x - y) * w == x * w - y * w
  {
  }
}
