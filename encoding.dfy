/** The fixed-width binary encoder `to_bin` and its decoder `to_int`.
    A path graph on `size` vertices is a string of `size` characters over
    '0' and '1'; the encoder maps a number to such a string, the decoder
    reads it back as a base-2 number. */
module Encoding {
  import opened Wrappers

  /** Every character is a binary digit. */
  predicate IsBinary(s: string) {
    forall i :: 0 <= i < |s| ==> s[i] == '0' || s[i] == '1'
  }

  function Pow2(k: nat): (r: nat)
    ensures r >= 1
  {
    if k == 0 then 1 else 2 * Pow2(k - 1)
  }

  function DigitValue(c: char): nat {
    if c == '1' then 1 else 0
  }

  function Digit(b: nat): char
    requires b < 2
  {
    if b == 1 then '1' else '0'
  }

  /** The base-2 value of a bit string, most significant digit first,
      accumulated left to right as `int(s, 2)` does. */
  function Value(s: string): (v: nat)
    requires IsBinary(s)
    ensures v < Pow2(|s|)
  {
    if s == [] then 0 else 2 * Value(s[..|s| - 1]) + DigitValue(s[|s| - 1])
  }

  /** `format(n, 'b')`: the binary numeral of `n` without leading zeros,
      "0" for zero. */
  function Binary(n: nat): (r: string)
    ensures IsBinary(r) && |r| >= 1
    ensures r[0] == '1' || r == "0"
  {
    if n < 2 then [Digit(n)] else Binary(n / 2) + [Digit(n % 2)]
  }

  function Zeros(k: nat): (r: string)
    ensures |r| == k && IsBinary(r)
    ensures forall i :: 0 <= i < k ==> r[i] == '0'
  {
    seq(k, _ => '0')
  }

  /** `s.zfill(width)`: `s` padded on the left with '0' up to `width`
      characters; a string already that long comes back unchanged. */
  function ZFill(s: string, width: nat): (r: string)
    ensures |r| == if |s| >= width then |s| else width
    ensures r[|r| - |s|..] == s
    ensures forall i :: 0 <= i < |r| - |s| ==> r[i] == '0'
  {
    if |s| >= width then s else Zeros(width - |s|) + s
  }

  /** `to_bin(n, size)` (dominating.py:15-16). */
  function ToBin(n: nat, size: nat): (r: string)
    ensures IsBinary(r) && |r| >= 1
    ensures Value(r) == n
  {
    var b := Binary(n);
    BinaryValue(n);
    if |b| < size then
      ValueLeadingZeros(size - |b|, b);
      ZFill(b, size)
    else
      ZFill(b, size)
  }

  /** `to_int(g)` (dominating.py:20-21) on strings of binary digits:
      the empty string is not a numeral and raises `ValueError`. */
  function ToInt(g: string): (r: Result<nat, Exception>)
    requires IsBinary(g)
    ensures r.Success? ==> r.value < Pow2(|g|)
    ensures r.Failure? <==> g == []
    ensures r.Failure? ==> r.error == ValueError
  {
    if g == [] then Failure(ValueError) else Success(Value(g))
  }

  // ---------------------------------------------------------------------
  // Powers of two

  lemma {:induction false} Pow2Strict(a: nat, b: nat)
    requires a < b
    ensures Pow2(a) < Pow2(b)
  {
    if b == a + 1 {
    } else {
      Pow2Strict(a, b - 1);
    }
  }

  lemma Pow2Monotone(a: nat, b: nat)
    requires a <= b
    ensures Pow2(a) <= Pow2(b)
  {
    if a < b { Pow2Strict(a, b); }
  }

  // ---------------------------------------------------------------------
  // The value of a numeral

  /** Reading the most significant digit first: a leading '1' is worth
      2^(|s|-1), a leading '0' nothing. */
  lemma {:induction false} ValueFront(s: string)
    requires IsBinary(s) && |s| >= 1
    ensures Value(s) == (if s[0] == '1' then Pow2(|s| - 1) else 0) + Value(s[1..])
  {
    var n := |s|;
    if n == 1 {
      assert s[1..] == [];
    } else {
      var init := s[..n - 1];
      ValueFront(init);
      assert init[1..] == s[1..][..n - 2];
      assert s[1..][n - 2] == s[n - 1];
    }
  }

  /** Leading zeros, as `zfill` adds them, do not change the value. */
  lemma {:induction false} ValueLeadingZeros(k: nat, s: string)
    requires IsBinary(s)
    ensures Value(Zeros(k) + s) == Value(s)
  {
    if k > 0 {
      var z := Zeros(k) + s;
      ValueFront(z);
      assert z[1..] == Zeros(k - 1) + s;
      ValueLeadingZeros(k - 1, s);
    } else {
      assert Zeros(k) + s == s;
    }
  }

  /** A numeral whose first digit is '1' is at least 2^(|s|-1). */
  lemma ValueLeadingOne(s: string)
    requires IsBinary(s) && |s| >= 1 && s[0] == '1'
    ensures Pow2(|s| - 1) <= Value(s)
  {
    ValueFront(s);
  }

  /** Two numerals of the same length with the same value are the same
      string: the encoding of a path graph is unique. */
  lemma {:induction false} ValueInjective(a: string, b: string)
    requires IsBinary(a) && IsBinary(b) && |a| == |b|
    requires Value(a) == Value(b)
    ensures a == b
  {
    if |a| > 0 {
      var n := |a|;
      ValueInjective(a[..n - 1], b[..n - 1]);
      assert a == a[..n - 1] + [a[n - 1]];
      assert b == b[..n - 1] + [b[n - 1]];
    }
  }

  // ---------------------------------------------------------------------
  // format(n, 'b')

  /** `format(n, 'b')` reads back as `n`. */
  lemma {:induction false} BinaryValue(n: nat)
    ensures Value(Binary(n)) == n
  {
    if n >= 2 {
      BinaryValue(n / 2);
      var r := Binary(n);
      assert r[..|r| - 1] == Binary(n / 2);
    }
  }

  /** `format(n, 'b')` has at most `size` digits exactly when `n` fits in
      `size` bits (for a positive width: zero still needs one digit). */
  lemma BinaryFits(n: nat, size: nat)
    requires size >= 1
    ensures |Binary(n)| <= size <==> n < Pow2(size)
  {
    var b := Binary(n);
    BinaryValue(n);
    if |b| <= size {
      Pow2Monotone(|b|, size);
    } else if n < Pow2(size) {
      assert b[0] == '1';
      ValueLeadingOne(b);
      Pow2Monotone(size, |b| - 1);
      assert false;
    }
  }

  // ---------------------------------------------------------------------
  // to_bin and to_int

  /** `to_bin(n, size)` is a string of binary digits; it is exactly `size`
      long when `n` fits in `size` bits, and otherwise it is the unpadded
      numeral, longer than `size`: nothing is truncated. */
  lemma ToBinShape(n: nat, size: nat)
    ensures IsBinary(ToBin(n, size)) && |ToBin(n, size)| >= 1
    ensures size >= 1 && n < Pow2(size) ==> |ToBin(n, size)| == size
    ensures n >= Pow2(size) ==> ToBin(n, size) == Binary(n) && |ToBin(n, size)| > size
  {
    var b := Binary(n);
    var r := ToBin(n, size);
    if |b| < size {
      assert r == Zeros(size - |b|) + b;
    }
    if size >= 1 {
      BinaryFits(n, size);
    } else {
      assert |b| > size;
    }
  }

  /** The zero-width corner: `to_bin(0, 0)` is "0", one character long,
      although 0 fits in zero bits. */
  lemma ToBinZeroWidth()
    ensures ToBin(0, 0) == "0"
  {
  }

  /** Round trip: `to_int(to_bin(n, size)) == n` for every `n` and `size`;
      the padding zeros do not change the value. */
  lemma ToIntToBin(n: nat, size: nat)
    ensures IsBinary(ToBin(n, size))
    ensures ToInt(ToBin(n, size)) == Success(n)
  {
    var b := Binary(n);
    ToBinShape(n, size);
    BinaryValue(n);
    if |b| < size {
      ValueLeadingZeros(size - |b|, b);
    }
  }

  /** The other round trip: every non-empty numeral of `size` digits is the
      `to_bin` of its own value at width `size`. */
  lemma ToBinToInt(g: string)
    requires IsBinary(g) && |g| >= 1
    ensures ToInt(g) == Success(Value(g))
    ensures ToBin(Value(g), |g|) == g
  {
    var v := Value(g);
    ToBinShape(v, |g|);
    ToIntToBin(v, |g|);
    ValueInjective(ToBin(v, |g|), g);
  }

  // ---------------------------------------------------------------------
  // Numeric order and string order

  /** Python's `<` on strings: the first differing character decides, and
      a proper prefix comes first. */
  predicate LexLess(a: string, b: string)
    decreases |a|
  {
    |b| > 0 && (|a| == 0 || a[0] < b[0] || (a[0] == b[0] && LexLess(a[1..], b[1..])))
  }

  /** For numerals of equal length, comparing values and comparing the
      strings agree, so ascending numbers print as ascending strings. */
  lemma {:induction false} ValueOrderIsLexOrder(a: string, b: string)
    requires IsBinary(a) && IsBinary(b) && |a| == |b|
    ensures Value(a) < Value(b) <==> LexLess(a, b)
    decreases |a|
  {
    if |a| > 0 {
      ValueFront(a);
      ValueFront(b);
      if a[0] == b[0] {
        ValueOrderIsLexOrder(a[1..], b[1..]);
      }
    }
  }
}
