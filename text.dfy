/** Character classes, filtering and decimal numerals shared by the server and the client code. */
module Text {

  /** The elements of `s` that satisfy `p`, in their original order (a `preg_replace` that deletes a class). */
  function Filter(p: char -> bool, s: string): (r: string)
    ensures |r| <= |s|
    ensures forall i :: 0 <= i < |r| ==> p(r[i])
    ensures forall x :: multiset(r)[x] == if p(x) then multiset(s)[x] else 0
    ensures (forall i :: 0 <= i < |s| ==> p(s[i])) ==> r == s
  {
    if s == [] then []
    else
      assert s == [s[0]] + s[1..];
      (if p(s[0]) then [s[0]] else []) + Filter(p, s[1..])
  }

  /** Filtering distributes over concatenation, so the survivors keep their relative order. */
  lemma {:induction false} FilterAppend(p: char -> bool, a: string, b: string)
    ensures Filter(p, a + b) == Filter(p, a) + Filter(p, b)
  {
    if a == [] {
      assert a + b == b;
    } else {
      assert (a + b)[1..] == a[1..] + b;
      FilterAppend(p, a[1..], b);
    }
  }

  /** Filtering twice with the same predicate changes nothing more. */
  lemma {:induction false} FilterIdempotent(p: char -> bool, s: string)
    ensures Filter(p, Filter(p, s)) == Filter(p, s)
  {
    var r := Filter(p, s);
    assert forall i :: 0 <= i < |r| ==> p(r[i]);
  }

  predicate IsDigit(c: char) { '0' <= c <= '9' }

  predicate AllDigits(s: string) { forall i :: 0 <= i < |s| ==> IsDigit(s[i]) }

  function DigitChar(d: nat): (c: char)
    requires d < 10
    ensures IsDigit(c)
  {
    ('0' as int + d) as char
  }

  /** The value of a decimal digit; any other character reads as 0. */
  function DigitValue(c: char): (d: nat)
    ensures d < 10
  {
    if IsDigit(c) then c as int - '0' as int else 0
  }

  function Pow10(n: nat): (r: nat)
    ensures r >= 1
  {
    if n == 0 then 1 else 10 * Pow10(n - 1)
  }

  /** The numeral PHP's `(string)$n` and JavaScript's `String(n)` print for a non-negative integer. */
  function Decimal(n: nat): (s: string)
    ensures 1 <= |s| && AllDigits(s)
  {
    if n < 10 then [DigitChar(n)] else Decimal(n / 10) + [DigitChar(n % 10)]
  }

  /** The number a string of digits denotes, most significant digit first. */
  function Value(s: string): nat
  {
    if s == [] then 0 else 10 * Value(s[..|s| - 1]) + DigitValue(s[|s| - 1])
  }

  function Zeros(k: nat): (s: string)
    ensures |s| == k && forall i :: 0 <= i < k ==> s[i] == '0'
  {
    if k == 0 then [] else Zeros(k - 1) + ['0']
  }

  /** `padStart(w, '0')` in JavaScript, `str_pad($s, $w, '0', STR_PAD_LEFT)` in PHP. */
  function PadZeros(s: string, w: nat): (r: string)
    ensures |r| >= w && |r| >= |s|
    ensures |s| >= w ==> r == s
    ensures r[|r| - |s|..] == s && forall i :: 0 <= i < |r| - |s| ==> r[i] == '0'
  {
    if |s| >= w then s else Zeros(w - |s|) + s
  }

  /** The `w` lowest decimal digits of `n`, most significant first, zero-filled. */
  function FixedDigits(n: nat, w: nat): (s: string)
    ensures |s| == w && AllDigits(s)
  {
    if w == 0 then [] else FixedDigits(n / 10, w - 1) + [DigitChar(n % 10)]
  }

  /** Reading back a printed numeral gives the number. */
  lemma {:induction false} ValueOfDecimal(n: nat)
    ensures Value(Decimal(n)) == n
  {
    if n >= 10 {
      var s := Decimal(n);
      assert s[..|s| - 1] == Decimal(n / 10);
      ValueOfDecimal(n / 10);
    }
  }

  lemma {:induction false} ValueOfZeros(k: nat)
    ensures Value(Zeros(k)) == 0
  {
    if k > 0 {
      assert Zeros(k)[..k - 1] == Zeros(k - 1);
      ValueOfZeros(k - 1);
    }
  }

  /** Leading zeros do not change the value of a numeral. */
  lemma {:induction false} ValueIgnoresLeadingZeros(k: nat, s: string)
    ensures Value(Zeros(k) + s) == Value(s)
    decreases |s|
  {
    if s == [] {
      assert Zeros(k) + s == Zeros(k);
      ValueOfZeros(k);
    } else {
      var t := Zeros(k) + s;
      assert t[..|t| - 1] == Zeros(k) + s[..|s| - 1];
      assert t[|t| - 1] == s[|s| - 1];
      ValueIgnoresLeadingZeros(k, s[..|s| - 1]);
    }
  }

  /** Zero-padding a numeral keeps its value. */
  lemma ValueOfPadded(n: nat, w: nat)
    ensures Value(PadZeros(Decimal(n), w)) == n
  {
    ValueOfDecimal(n);
    if |Decimal(n)| < w {
      ValueIgnoresLeadingZeros(w - |Decimal(n)|, Decimal(n));
    }
  }

  /** The fixed-width digits of a number below 10^w denote that number. */
  lemma {:induction false} ValueOfFixedDigits(n: nat, w: nat)
    requires n < Pow10(w)
    ensures Value(FixedDigits(n, w)) == n
  {
    if w > 0 {
      var s := FixedDigits(n, w);
      assert s[..w - 1] == FixedDigits(n / 10, w - 1);
      ValueOfFixedDigits(n / 10, w - 1);
    }
  }

  lemma {:induction false} FixedDigitsOfZero(w: nat)
    ensures FixedDigits(0, w) == Zeros(w)
  {
    if w > 0 {
      FixedDigitsOfZero(w - 1);
    }
  }

  /** A number below 10^w needs at most w digits. */
  lemma {:induction false} DecimalLength(n: nat, w: nat)
    requires 1 <= w && n < Pow10(w)
    ensures |Decimal(n)| <= w
  {
    if n >= 10 {
      assert w >= 2;
      DecimalLength(n / 10, w - 1);
    }
  }

  /** Padding a numeral that ends in `c` is padding the rest to one place fewer, then `c`. */
  lemma PadZerosSnoc(d: string, c: char, w: nat)
    requires |d| + 1 <= w
    ensures PadZeros(d + [c], w) == PadZeros(d, w - 1) + [c]
  {
    if |d| + 1 < w {
      var z := Zeros(w - 1 - |d|);
      assert z + (d + [c]) == (z + d) + [c];
    }
  }

  /** Zero-padding a numeral to w places gives its w fixed digits. */
  lemma {:induction false} PaddedDecimalIsFixed(n: nat, w: nat)
    requires 1 <= w && n < Pow10(w)
    ensures PadZeros(Decimal(n), w) == FixedDigits(n, w)
  {
    if n < 10 {
      FixedDigitsOfZero(w - 1);
      assert n / 10 == 0 && n % 10 == n;
    } else {
      assert w >= 2;
      DecimalLength(n / 10, w - 1);
      PaddedDecimalIsFixed(n / 10, w - 1);
      PadZerosSnoc(Decimal(n / 10), DigitChar(n % 10), w);
    }
  }

  /** 10^w + n (with n < 10^w) prints as a 1 followed by the w fixed digits of n. */
  lemma {:induction false} DecimalAbovePower(n: nat, w: nat)
    requires 1 <= w && n < Pow10(w)
    ensures Decimal(Pow10(w) + n) == ['1'] + FixedDigits(n, w)
  {
    var p := Pow10(w - 1);
    var m := Pow10(w) + n;
    assert m == 10 * (p + n / 10) + n % 10;
    assert m / 10 == p + n / 10 && m % 10 == n % 10;
    if w == 1 {
      assert n / 10 == 0;
    } else {
      DecimalAbovePower(n / 10, w - 1);
    }
  }

  /** ASCII-only lower-casing, as PHP 8's `strtolower`. */
  function LowerChar(c: char): char
  {
    if 'A' <= c <= 'Z' then (c as int + 32) as char else c
  }

  function AsciiLower(s: string): (r: string)
    ensures |r| == |s| && forall i :: 0 <= i < |s| ==> r[i] == LowerChar(s[i])
  {
    seq(|s|, i requires 0 <= i < |s| => LowerChar(s[i]))
  }
}
