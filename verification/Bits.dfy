/** Natural numbers as bit strings, and as digits of k bits, most significant first. */
module Bits {
  /** v moved up by k bits, moved down by k bits, and its low k bits. */
  function Up(v: nat, k: nat): nat
  {
    if k == 0 then v else Up(v, k - 1) + Up(v, k - 1)
  }

  function Down(v: nat, k: nat): nat
  {
    if k == 0 then v else Down(v / 2, k - 1)
  }

  function Low(v: nat, k: nat): nat
  {
    if k == 0 then 0 else Low(v / 2, k - 1) + Low(v / 2, k - 1) + v % 2
  }

  function Value(k: nat, digits: seq<nat>): nat {
    ValueTo(k, digits, |digits|)
  }

  function ValueTo(k: nat, digits: seq<nat>, n: nat): nat
    requires n <= |digits|
  {
    if n == 0 then 0 else Up(ValueTo(k, digits, n - 1), k) + digits[n - 1]
  }

  lemma {:induction false} ValueToPrefix(k: nat, digits: seq<nat>, more: seq<nat>, n: nat)
    requires n <= |digits|
    ensures ValueTo(k, digits + more, n) == ValueTo(k, digits, n)
  {
    if n > 0 {
      ValueToPrefix(k, digits, more, n - 1);
    }
  }

  /** The last `len` digits of v. */
  function Digits(k: nat, v: nat, len: nat): (digits: seq<nat>)
    ensures |digits| == len
    decreases len
  {
    if len == 0 then [] else Digits(k, Down(v, k), len - 1) + [Low(v, k)]
  }

  predicate AllBelow(digits: seq<nat>, bound: nat) {
    forall i :: 0 <= i < |digits| ==> digits[i] < bound
  }

  // ---------------------------------------------------------------- splitting and joining

  lemma {:induction false} LowIsBelow(v: nat, k: nat)
    ensures Low(v, k) < Up(1, k)
  {
    if k > 0 {
      LowIsBelow(v / 2, k - 1);
    }
  }

  lemma {:induction false} LowOfSmall(v: nat, k: nat)
    requires v < Up(1, k)
    ensures Low(v, k) == v
  {
    if k > 0 {
      LowOfSmall(v / 2, k - 1);
    }
  }

  lemma {:induction false} UpIsProduct(v: nat, k: nat)
    ensures Up(v, k) == v * Up(1, k)
  {
    if k > 0 {
      UpIsProduct(v, k - 1);
      assert v * Up(1, k - 1) + v * Up(1, k - 1) == v * (Up(1, k - 1) + Up(1, k - 1));
    }
  }

  lemma {:induction false} Split(v: nat, k: nat)
    ensures v == Up(Down(v, k), k) + Low(v, k)
  {
    if k > 0 {
      Split(v / 2, k - 1);
    }
  }

  lemma {:induction false} Join(v: nat, w: nat, k: nat)
    requires w < Up(1, k)
    ensures Down(Up(v, k) + w, k) == v && Low(Up(v, k) + w, k) == w
  {
    if k > 0 {
      assert (Up(v, k) + w) / 2 == Up(v, k - 1) + w / 2;
      Join(v, w / 2, k - 1);
    }
  }

  lemma {:induction false} LowOfJoin(v: nat, w: nat, j: nat, k: nat)
    requires w < Up(1, k)
    ensures Low(Up(v, k) + w, j + k) == Up(Low(v, j), k) + w
  {
    if k > 0 {
      assert (Up(v, k) + w) / 2 == Up(v, k - 1) + w / 2;
      LowOfJoin(v, w / 2, j, k - 1);
    }
  }

  lemma {:induction false} LowOfLow(v: nat, j: nat, k: nat)
    requires k <= j
    ensures Low(Low(v, j), k) == Low(v, k)
  {
    if k > 0 {
      LowOfLow(v / 2, j - 1, k - 1);
    }
  }

  lemma {:induction false} UpOfSum(v: nat, w: nat, j: nat, k: nat)
    ensures Up(Up(v, j) + w, k) == Up(v, j + k) + Up(w, k)
  {
    if k > 0 {
      UpOfSum(v, w, j, k - 1);
    }
  }

  /** The low rest + k bits are the digit at `rest` and the bits below it. */
  lemma {:induction false} TopDigit(v: nat, rest: nat, k: nat)
    ensures Low(v, rest + k) == Up(Low(Down(v, rest), k), rest) + Low(v, rest)
  {
    if rest > 0 {
      TopDigit(v / 2, rest - 1, k);
    }
  }

  // ---------------------------------------------------------------- digits

  lemma ValueAppend(k: nat, digits: seq<nat>, d: nat)
    ensures Value(k, digits + [d]) == Up(Value(k, digits), k) + d
  {
    ValueToPrefix(k, digits, [d], |digits|);
  }

  lemma {:induction false} DigitsAreBelow(k: nat, v: nat, len: nat)
    ensures AllBelow(Digits(k, v, len), Up(1, k))
    decreases len
  {
    if len > 0 {
      DigitsAreBelow(k, Down(v, k), len - 1);
      LowIsBelow(v, k);
    }
  }

  lemma {:induction false} DigitsOfValue(k: nat, digits: seq<nat>)
    requires AllBelow(digits, Up(1, k))
    ensures Digits(k, Value(k, digits), |digits|) == digits
    decreases |digits|
  {
    if digits != [] {
      var front, last := digits[..|digits| - 1], digits[|digits| - 1];
      assert digits == front + [last];
      ValueAppend(k, front, last);
      Join(Value(k, front), last, k);
      DigitsOfValue(k, front);
    }
  }

  lemma {:induction false} ValueOfDigits(k: nat, v: nat, len: nat, bits: nat)
    requires bits == k * len
    ensures Value(k, Digits(k, v, len)) == Low(v, bits)
    decreases len
  {
    if len > 0 {
      assert bits == k * (len - 1) + k;
      ValueOfDigits(k, Down(v, k), len - 1, bits - k);
      ValueAppend(k, Digits(k, Down(v, k), len - 1), Low(v, k));
      Split(v, k);
      LowIsBelow(v, k);
      LowOfJoin(Down(v, k), Low(v, k), bits - k, k);
    }
  }

  lemma {:induction false} ValueFits(k: nat, digits: seq<nat>, bits: nat)
    requires AllBelow(digits, Up(1, k)) && bits == k * |digits|
    ensures Low(Value(k, digits), bits) == Value(k, digits)
    decreases |digits|
  {
    if digits != [] {
      var front := digits[..|digits| - 1];
      assert bits == k * |front| + k;
      ValueFits(k, front, bits - k);
      assert digits == front + [digits[|digits| - 1]];
      ValueAppend(k, front, digits[|digits| - 1]);
      LowOfJoin(Value(k, front), digits[|digits| - 1], bits - k, k);
    }
  }
}
