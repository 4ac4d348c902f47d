/**
 * The base32 codec of the authenticator secrets (src/auth/totp.js; section 6 of RFC 4648, no
 * padding). Its accumulator is a 32-bit word that is never masked: old bits run off the top.
 */
module Base32 {
  import opened Options
  import opened Bits
  import opened WhiteSpace

  type Bytes = b: seq<nat> | AllBelow(b, 256) witness []

  /** JavaScript's `value << k`, read as unsigned: 32 bits are kept. `value >>> k` is Down. */
  function ShiftLeft(value: nat, k: nat): nat {
    Low(Up(value, k), 32)
  }

  /** The alphabet A-Z, 2-7. */
  function Letter(digit: nat): char
    requires digit < 32
  {
    if digit < 26 then 'A' + digit as char else '2' + (digit - 26) as char
  }

  predicate IsLetter(c: char) {
    'A' <= c <= 'Z' || '2' <= c <= '7'
  }

  function DigitOf(c: char): (d: Option<nat>)
    ensures d.Some? <==> IsLetter(c)
    ensures d.Some? ==> d.value < 32 && Letter(d.value) == c
  {
    if 'A' <= c <= 'Z' then Some(c as nat - 'A' as nat)
    else if '2' <= c <= '7' then Some(c as nat - '2' as nat + 26)
    else None
  }

  /** The alphabet of table 3 of RFC 4648, and nothing else. */
  lemma AlphabetIsRfc4648(digit: nat, c: char)
    requires digit < 32
    ensures Letter(digit) == "ABCDEFGHIJKLMNOPQRSTUVWXYZ234567"[digit]
    ensures IsLetter(c) <==> c in "ABCDEFGHIJKLMNOPQRSTUVWXYZ234567"
  {
    var alphabet := "ABCDEFGHIJKLMNOPQRSTUVWXYZ234567";
    assert forall i :: 0 <= i < 32 ==> IsLetter(alphabet[i]);
    if IsLetter(c) {
      assert alphabet[if 'A' <= c <= 'Z' then (c - 'A') as nat else (c - '2') as nat + 26] == c;
    }
  }

  lemma DigitOfLetter(digit: nat)
    requires digit < 32
    ensures DigitOf(Letter(digit)) == Some(digit)
  {
  }

  function Letters(digits: seq<nat>): (s: string)
    requires AllBelow(digits, 32)
    ensures |s| == |digits|
  {
    seq(|digits|, i requires 0 <= i < |digits| => Letter(digits[i]))
  }

  function DigitsOf(clean: string): (r: Option<seq<nat>>)
    ensures r.Some? <==> forall i :: 0 <= i < |clean| ==> IsLetter(clean[i])
    ensures r.Some? ==> |r.value| == |clean| && AllBelow(r.value, 32) && Letters(r.value) == clean
  {
    if forall i :: 0 <= i < |clean| ==> IsLetter(clean[i]) then
      Some(seq(|clean|, i requires 0 <= i < |clean| => DigitOf(clean[i]).value))
    else None
  }

  lemma DigitsPointwise(clean: string, digits: seq<nat>)
    requires |digits| == |clean| && forall i :: 0 <= i < |clean| ==> DigitOf(clean[i]) == Some(digits[i])
    ensures DigitsOf(clean) == Some(digits)
  {
    assert forall i :: 0 <= i < |clean| ==> IsLetter(clean[i]) by {
      assert forall i :: 0 <= i < |clean| ==> DigitOf(clean[i]).Some?;
    }
    assert DigitsOf(clean).value == digits;
  }

  // ---------------------------------------------------------------- what the codec means

  /** The least number of letters holding n bytes. */
  function LettersFor(n: nat): nat {
    (8 * n + 4) / 5
  }

  /** The bits of the bytes, and zero bits up to a whole letter, five to a letter. */
  function EncodedDigits(bytes: Bytes): (digits: seq<nat>)
    ensures |digits| == LettersFor(|bytes|) && AllBelow(digits, 32)
  {
    var m := LettersFor(|bytes|);
    var padded := Up(Value(8, bytes), 5 * m - 8 * |bytes|);
    DigitsAreBelow(5, padded, m);
    SmallPowers();
    Digits(5, padded, m)
  }

  function Encoded(bytes: Bytes): (s: string)
    ensures |s| == LettersFor(|bytes|)
  {
    Letters(EncodedDigits(bytes))
  }

  /** The bits of the letters, without the last ones that fill no byte, eight to a byte. */
  function DecodedBytes(digits: seq<nat>): Bytes {
    var n, spare := 5 * |digits| / 8, 5 * |digits| % 8;
    var whole := Down(Value(5, digits), spare);
    DigitsAreBelow(8, whole, n);
    SmallPowers();
    Digits(8, whole, n)
  }

  function Decoded(clean: string): Option<Bytes> {
    match DigitsOf(clean)
    case None => None
    case Some(digits) => Some(DecodedBytes(digits))
  }

  lemma SmallPowers()
    ensures Up(1, 5) == 32 && Up(1, 8) == 256
  {
  }

  lemma Doublings(v: nat)
    ensures Up(v, 5) == 32 * v && Up(v, 7) == 128 * v && Up(v, 8) == 256 * v
  {
    assert Up(v, 1) == Up(v, 0) + Up(v, 0);
    assert Up(v, 2) == 4 * v;
    assert Up(v, 3) == 8 * v;
    assert Up(v, 4) == 16 * v;
    assert Up(v, 5) == 32 * v;
    assert Up(v, 6) == 64 * v;
  }

  lemma LowFive(v: nat)
    ensures Low(v, 5) == v % 32
  {
    Split(v, 5);
    LowIsBelow(v, 5);
    Doublings(1);
    Doublings(Down(v, 5));
  }

  lemma LowEight(v: nat)
    ensures Low(v, 8) == v % 256
  {
    Split(v, 8);
    LowIsBelow(v, 8);
    Doublings(1);
    Doublings(Down(v, 8));
  }

  // ---------------------------------------------------------------- what decoding ignores

  /** Upper case, where it matters: every other character stays outside the alphabet. */
  function Upper(c: char): string {
    if 'a' <= c <= 'z' then [c - 'a' + 'A']
    else if c == '\U{131}' then "I"
    else if c == '\U{17F}' then "S"
    else if c == '\U{DF}' then "SS"
    else if c == '\U{FB00}' then "FF"
    else if c == '\U{FB01}' then "FI"
    else if c == '\U{FB02}' then "FL"
    else if c == '\U{FB03}' then "FFI"
    else if c == '\U{FB04}' then "FFL"
    else if c == '\U{FB05}' || c == '\U{FB06}' then "ST"
    else [c]
  }

  predicate IsFormatting(c: char) {
    IsSpace(c) || c == '=' || c == '-'
  }

  function Clean(input: string): string {
    if input == [] then [] else (if IsFormatting(input[0]) then [] else Upper(input[0])) + Clean(input[1..])
  }

  // ---------------------------------------------------------------- the 32-bit accumulator

  /** The number held by the digits put out and the `bits` bits still in the accumulator. */
  function Held(k: nat, digits: seq<nat>, value: nat, bits: nat): nat {
    Up(Value(k, digits), bits) + Low(value, bits)
  }

  /** Pushing k bits keeps the low bits, although what they push over the top is lost. */
  lemma PushKeepsTheLowBits(value: nat, bits: nat, k: nat, x: nat)
    requires bits + k <= 32 && x < Up(1, k)
    ensures Low(ShiftLeft(value, k) + x, bits + k) == Up(Low(value, bits), k) + x
  {
    var above := Low(value, 32 - k);
    assert ShiftLeft(value, k) == Up(above, k) by {
      UpOfZero(k);
      LowOfJoin(value, 0, 32 - k, k);
    }
    LowOfJoin(above, x, bits, k);
    LowOfLow(value, 32 - k, bits);
  }

  lemma {:induction false} UpOfZero(k: nat)
    ensures Up(0, k) == 0 && Up(1, k) > 0
  {
    if k > 0 {
      UpOfZero(k - 1);
    }
  }

  /** Moving a digit from the accumulator to the output keeps the number they stand for. */
  lemma MoveDigit(j: nat, digits: seq<nat>, value: nat, rest: nat)
    ensures Held(j, digits, value, rest + j) == Held(j, digits + [Low(Down(value, rest), j)], value, rest)
  {
    var d := Low(Down(value, rest), j);
    TopDigit(value, rest, j);
    ValueAppend(j, digits, d);
    UpOfSum(Value(j, digits), d, j, rest);
  }

  /** Taking a digit from the input into the accumulator appends it to that number. */
  lemma TakeDigit(j: nat, digits: seq<nat>, value: nat, bits: nat, k: nat, x: nat)
    requires bits + k <= 32 && x < Up(1, k)
    ensures Held(j, digits, ShiftLeft(value, k) + x, bits + k) == Up(Held(j, digits, value, bits), k) + x
  {
    PushKeepsTheLowBits(value, bits, k, x);
    UpOfSum(Value(j, digits), Low(value, bits), bits, k);
  }

  // ---------------------------------------------------------------- one step of each loop

  lemma LettersAppend(digits: seq<nat>, d: nat)
    requires AllBelow(digits, 32) && d < 32
    ensures AllBelow(digits + [d], 32) && Letters(digits + [d]) == Letters(digits) + [Letter(d)]
  {
  }

  /** The encoder's next byte. */
  lemma TakeByte(taken: Bytes, byte: nat, digits: seq<nat>, value: nat, bits: nat)
    requires byte < 256 && bits < 5 && Held(5, digits, value, bits) == Value(8, taken)
    ensures Held(5, digits, ShiftLeft(value, 8) + byte, bits + 8) == Value(8, taken + [byte])
  {
    SmallPowers();
    TakeDigit(5, digits, value, bits, 8, byte);
    ValueAppend(8, taken, byte);
  }

  /** The encoder's next letter. */
  lemma EmitLetter(digits: seq<nat>, value: nat, bits: nat)
    requires 5 <= bits && AllBelow(digits, 32)
    ensures var d := Down(value, bits - 5) % 32;
            && AllBelow(digits + [d], 32) && Letters(digits + [d]) == Letters(digits) + [Letter(d)]
            && Held(5, digits + [d], value, bits - 5) == Held(5, digits, value, bits)
  {
    LowFive(Down(value, bits - 5));
    MoveDigit(5, digits, value, bits - 5);
    LettersAppend(digits, Down(value, bits - 5) % 32);
  }

  /** The encoder's end: bits left over go into one more letter, above zero bits. */
  lemma Finish(buffer: Bytes, digits: seq<nat>, value: nat, bits: nat)
    requires bits < 5 && 5 * |digits| + bits == 8 * |buffer| && AllBelow(digits, 32)
    requires Held(5, digits, value, bits) == Value(8, buffer)
    ensures bits == 0 ==> Letters(digits) == Encoded(buffer)
    ensures bits > 0 ==> Letters(digits) + [Letter(ShiftLeft(value, 5 - bits) % 32)] == Encoded(buffer)
  {
    if bits == 0 {
      WholeLetters(buffer, digits, 0);
    } else {
      var d := ShiftLeft(value, 5 - bits) % 32;
      LastLetter(digits, value, bits);
      LettersAppend(digits, d);
      WholeLetters(buffer, digits + [d], 5 - bits);
    }
  }

  lemma LastLetter(digits: seq<nat>, value: nat, bits: nat)
    requires 0 < bits < 5
    ensures Value(5, digits + [ShiftLeft(value, 5 - bits) % 32]) == Up(Held(5, digits, value, bits), 5 - bits)
  {
    UpOfZero(5 - bits);
    PushKeepsTheLowBits(value, bits, 5 - bits, 0);
    LowFive(ShiftLeft(value, 5 - bits));
    ValueAppend(5, digits, ShiftLeft(value, 5 - bits) % 32);
    UpOfSum(Value(5, digits), Low(value, bits), bits, 5 - bits);
  }

  lemma WholeLetters(buffer: Bytes, digits: seq<nat>, pad: nat)
    requires pad < 5 && 5 * |digits| == 8 * |buffer| + pad && AllBelow(digits, 32)
    requires Value(5, digits) == Up(Value(8, buffer), pad)
    ensures Letters(digits) == Encoded(buffer)
  {
    SmallPowers();
    DigitsOfValue(5, digits);
    assert LettersFor(|buffer|) == |digits|;
  }

  /** The decoder's next letter. */
  lemma TakeLetter(digit: nat, output: Bytes, digits: seq<nat>, value: nat, bits: nat)
    requires digit < 32 && bits < 8 && Held(8, output, value, bits) == Value(5, digits)
    ensures Held(8, output, ShiftLeft(value, 5) + digit, bits + 5) == Value(5, digits + [digit])
  {
    SmallPowers();
    TakeDigit(8, output, value, bits, 5, digit);
    ValueAppend(5, digits, digit);
  }

  /** The decoder's next byte. */
  lemma EmitByte(output: Bytes, value: nat, bits: nat)
    requires 8 <= bits
    ensures var d := Down(value, bits - 8) % 256;
            AllBelow(output + [d], 256) && Held(8, output + [d], value, bits - 8) == Held(8, output, value, bits)
  {
    LowEight(Down(value, bits - 8));
    MoveDigit(8, output, value, bits - 8);
  }

  /** What is decoded once the letters run out; the bits left are dropped. */
  lemma WholeBytes(output: Bytes, digits: seq<nat>, value: nat, bits: nat)
    requires bits < 8 && 8 * |output| + bits == 5 * |digits|
    requires Held(8, output, value, bits) == Value(5, digits)
    ensures output == DecodedBytes(digits)
  {
    SmallPowers();
    assert 5 * |digits| / 8 == |output| && 5 * |digits| % 8 == bits;
    LowIsBelow(value, bits);
    Join(Value(8, output), Low(value, bits), bits);
    DigitsOfValue(8, output);
  }

  // ---------------------------------------------------------------- the codec

  method Base32Encode(buffer: Bytes) returns (output: string)
    ensures output == Encoded(buffer)
  {
    var bits, value: nat := 0, 0;
    output := "";
    ghost var digits: seq<nat>, taken: Bytes := [], [];
    for i := 0 to |buffer|
      invariant bits < 5 && 5 * |digits| + bits == 8 * i
      invariant AllBelow(digits, 32) && output == Letters(digits)
      invariant |taken| == i && taken <= buffer && Held(5, digits, value, bits) == Value(8, taken)
    {
      TakeByte(taken, buffer[i], digits, value, bits);
      taken := taken + [buffer[i]];
      value := ShiftLeft(value, 8) + buffer[i];
      bits := bits + 8;
      while bits >= 5
        invariant bits <= 12 && 5 * |digits| + bits == 8 * (i + 1)
        invariant AllBelow(digits, 32) && output == Letters(digits)
        invariant Held(5, digits, value, bits) == Value(8, taken)
      {
        var digit := Down(value, bits - 5) % 32;
        EmitLetter(digits, value, bits);
        output := output + [Letter(digit)];
        digits := digits + [digit];
        bits := bits - 5;
      }
    }
    assert taken == buffer;
    Finish(buffer, digits, value, bits);
    if bits > 0 {
      output := output + [Letter(ShiftLeft(value, 5 - bits) % 32)];
    }
  }

  method Base32Decode(input: string) returns (bytes: Option<Bytes>)
    ensures bytes == Decoded(Clean(input))
  {
    var clean := Clean(input);
    var bits, value: nat := 0, 0;
    var output: Bytes := [];
    ghost var digits: seq<nat> := [];
    for i := 0 to |clean|
      invariant bits < 8 && |digits| == i && 8 * |output| + bits == 5 * i
      invariant forall j :: 0 <= j < i ==> DigitOf(clean[j]) == Some(digits[j])
      invariant Held(8, output, value, bits) == Value(5, digits)
    {
      var index := DigitOf(clean[i]);
      if index.None? {
        return None;
      }
      TakeLetter(index.value, output, digits, value, bits);
      value := ShiftLeft(value, 5) + index.value;
      bits := bits + 5;
      digits := digits + [index.value];
      if bits >= 8 {
        EmitByte(output, value, bits);
        output := output + [Down(value, bits - 8) % 256];
        bits := bits - 8;
      }
    }
    DigitsPointwise(clean, digits);
    WholeBytes(output, digits, value, bits);
    return Some(output);
  }

  // ---------------------------------------------------------------- what the codec promises

  lemma DigitsOfLetters(digits: seq<nat>)
    requires AllBelow(digits, 32)
    ensures DigitsOf(Letters(digits)) == Some(digits)
  {
    forall i | 0 <= i < |digits| ensures DigitOf(Letters(digits)[i]) == Some(digits[i]) {
      DigitOfLetter(digits[i]);
    }
    DigitsPointwise(Letters(digits), digits);
  }

  lemma {:induction false} CleanOfLetters(s: string)
    requires forall i :: 0 <= i < |s| ==> IsLetter(s[i])
    ensures Clean(s) == s
    decreases |s|
  {
    if s != [] {
      CleanOfLetters(s[1..]);
    }
  }

  lemma PaddedDigits(v: nat, bits: nat, pad: nat, m: nat)
    requires Low(v, bits) == v && bits + pad == 5 * m
    ensures Value(5, Digits(5, Up(v, pad), m)) == Up(v, pad)
  {
    UpOfZero(pad);
    LowOfJoin(v, 0, bits, pad);
    ValueOfDigits(5, Up(v, pad), m, 5 * m);
  }

  lemma PadIsShort(n: nat)
    ensures 0 <= 5 * LettersFor(n) - 8 * n < 5
    ensures 5 * LettersFor(n) / 8 == n && 5 * LettersFor(n) % 8 == 5 * LettersFor(n) - 8 * n
  {
  }

  /** The letters of a byte sequence stand for its bits, then zero bits. */
  lemma EncodedValue(bytes: Bytes)
    ensures var pad := 5 * LettersFor(|bytes|) - 8 * |bytes|;
            0 <= pad < 5 && Value(5, EncodedDigits(bytes)) == Up(Value(8, bytes), pad)
  {
    PadIsShort(|bytes|);
    SmallPowers();
    ValueFits(8, bytes, 8 * |bytes|);
    PaddedDigits(Value(8, bytes), 8 * |bytes|, 5 * LettersFor(|bytes|) - 8 * |bytes|, LettersFor(|bytes|));
  }

  lemma DecodedFromPadded(bytes: Bytes, digits: seq<nat>, pad: nat)
    requires 5 * |digits| / 8 == |bytes| && 5 * |digits| % 8 == pad && Value(5, digits) == Up(Value(8, bytes), pad)
    ensures DecodedBytes(digits) == bytes
  {
    UpOfZero(pad);
    Join(Value(8, bytes), 0, pad);
    SmallPowers();
    DigitsOfValue(8, bytes);
  }

  lemma EncodingReadsBack(bytes: Bytes)
    ensures Clean(Encoded(bytes)) == Encoded(bytes) && DigitsOf(Encoded(bytes)) == Some(EncodedDigits(bytes))
  {
    DigitsOfLetters(EncodedDigits(bytes));
    CleanOfLetters(Encoded(bytes));
  }

  /** Every byte sequence comes back, the empty one and every length included. */
  lemma RoundTrip(bytes: Bytes)
    ensures Decoded(Clean(Encoded(bytes))) == Some(bytes)
  {
    var digits := EncodedDigits(bytes);
    EncodingReadsBack(bytes);
    EncodedValue(bytes);
    PadIsShort(|bytes|);
    DecodedFromPadded(bytes, digits, 5 * |digits| % 8);
  }

  /** A test vector of section 10 of RFC 4648. */
  lemma TestVector()
    ensures Encoded([0x66]) == "MY" && Decoded("MY") == Some([0x66])
  {
    assert Value(8, [0x66]) == 0x66 by {
      ValueAppend(8, [], 0x66);
      UpOfZero(8);
      assert [] + [0x66] == [0x66];
    }
    assert Up(0x66, 2) == 408;
    LowFive(408);
    assert Down(408, 5) == 12;
    LowFive(12);
    assert Digits(5, 408, 2) == [12, 24];
    RoundTrip([0x66]);
    CleanOfLetters("MY");
  }

  /** The bytes of a letter sequence stand for its bits without the spare ones. */
  lemma DecodedValue(digits: seq<nat>, n: nat, spare: nat)
    requires AllBelow(digits, 32) && 5 * |digits| == 8 * n + spare && spare < 8
    ensures Value(8, DecodedBytes(digits)) == Down(Value(5, digits), spare) && |DecodedBytes(digits)| == n
  {
    SmallPowers();
    var v := Value(5, digits);
    ValueFits(5, digits, 8 * n + spare);
    Split(v, spare);
    LowIsBelow(v, spare);
    LowOfJoin(Down(v, spare), Low(v, spare), 8 * n, spare);
    Join(Down(v, spare), Low(v, spare), spare);
    Join(Low(Down(v, spare), 8 * n), Low(v, spare), spare);
    assert 5 * |digits| / 8 == n && 5 * |digits| % 8 == spare;
    ValueOfDigits(8, Down(v, spare), n, 8 * n);
  }

  /**
   * A decodable text is the encoding of what it decodes to exactly when it has no letter more
   * than its bytes need and the bits that fill no byte are zero.
   */
  lemma EncodingIsBackExactlyWhenCanonical(text: string)
    requires DigitsOf(Clean(text)).Some?
    ensures var clean := Clean(text);
            var spare := 5 * |clean| % 8;
            Encoded(Decoded(clean).value) == clean <==> spare < 5 && Low(Value(5, DigitsOf(clean).value), spare) == 0
  {
    var clean := Clean(text);
    var digits := DigitsOf(clean).value;
    var n, spare := 5 * |clean| / 8, 5 * |clean| % 8;
    var bytes := DecodedBytes(digits);
    DecodedValue(digits, n, spare);
    assert LettersFor(n) == |clean| <==> spare < 5;
    if spare < 5 {
      EncodedValue(bytes);
      Split(Value(5, digits), spare);
      SameLetters(EncodedDigits(bytes), digits);
    }
  }

  lemma SameLetters(a: seq<nat>, b: seq<nat>)
    requires AllBelow(a, 32) && AllBelow(b, 32) && |a| == |b|
    ensures Letters(a) == Letters(b) <==> Value(5, a) == Value(5, b)
  {
    SmallPowers();
    DigitsOfValue(5, a);
    DigitsOfValue(5, b);
    DigitsOfLetters(a);
    DigitsOfLetters(b);
  }

  lemma {:induction false} CleanAppend(a: string, b: string)
    ensures Clean(a + b) == Clean(a) + Clean(b)
    decreases |a|
  {
    if a == [] {
      assert a + b == b;
    } else {
      assert (a + b)[1..] == a[1..] + b;
      CleanAppend(a[1..], b);
    }
  }

  lemma {:induction false} CleanOfFormatting(s: string)
    requires forall c :: c in s ==> IsFormatting(c)
    ensures Clean(s) == []
    decreases |s|
  {
    if s != [] {
      assert IsFormatting(s[0]);
      CleanOfFormatting(s[1..]);
    }
  }

  /** Spaces, dashes and padding anywhere in a secret do not change what it decodes to. */
  lemma FormattingIsIgnored(a: string, formatting: string, b: string)
    requires forall c :: c in formatting ==> IsFormatting(c)
    ensures Decoded(Clean(a + formatting + b)) == Decoded(Clean(a + b))
  {
    CleanAppend(a + formatting, b);
    CleanAppend(a, formatting);
    CleanAppend(a, b);
    CleanOfFormatting(formatting);
    assert Clean(a + formatting) == Clean(a);
  }

  lemma CleanOne(c: char)
    ensures Clean([c]) == if IsFormatting(c) then "" else Upper(c)
  {
    assert [c][1..] == "";
  }

  /** White space, padding and dashes are formatting, no letter is; only what upper-cases to letters counts as them. */
  lemma CleanByCharacter(c: char)
    ensures IsSpace(c) || c == '=' || c == '-' <==> Clean([c]) == ""
    ensures 'A' <= c <= 'Z' || '0' <= c <= '9' ==> Clean([c]) == [c]
    ensures 'a' <= c <= 'z' ==> Clean([c]) == [c - 'a' + 'A']
    ensures c == '\U{131}' ==> Clean([c]) == "I"
    ensures c == '\U{17F}' ==> Clean([c]) == "S"
    ensures c == '\U{DF}' ==> Clean([c]) == "SS"
    ensures '\U{FB00}' <= c <= '\U{FB06}' ==> Clean([c]) == ["FF", "FI", "FL", "FFI", "FFL", "ST", "ST"][(c - '\U{FB00}') as nat]
  {
    CleanOne(c);
  }

  function Lower(s: string): (l: string)
    ensures |l| == |s|
  {
    seq(|s|, i requires 0 <= i < |s| => if 'A' <= s[i] <= 'Z' then s[i] - 'A' + 'a' else s[i])
  }

  /** A secret decodes alike in lower case. */
  lemma {:induction false} CaseIsIgnored(s: string)
    ensures Clean(Lower(s)) == Clean(s)
    decreases |s|
  {
    if s != [] {
      CaseIsIgnored(s[1..]);
      assert Lower(s)[1..] == Lower(s[1..]);
    }
  }
}
