/** The helpers of js/utils.js: randomInt, shuffle, formatTime, clamp and isPrime. */
module Utils {

  /** Every draw of `Math.random()` is a real number in [0, 1). */
  predicate IsDraw(r: real) { 0.0 <= r < 1.0 }

  predicate Draws(rs: seq<real>) { forall i :: 0 <= i < |rs| ==> IsDraw(rs[i]) }

  /** `Math.round`: rounds to the nearest integer, halves towards +infinity. */
  function Round(x: real): (n: int)
    ensures x - 0.5 < n as real <= x + 0.5
  {
    (x + 0.5).Floor
  }

  /** `r * n` for a draw and a whole number, built by repeated addition so that it stays linear. */
  function Scaled(r: real, n: nat): (p: real)
    requires IsDraw(r)
    ensures 0.0 <= p && (n == 0 ==> p == 0.0) && (n > 0 ==> p < n as real)
  {
    if n == 0 then 0.0 else Scaled(r, n - 1) + r
  }

  lemma {:induction false} ScaledIsProduct(r: real, n: nat)
    requires IsDraw(r)
    ensures Scaled(r, n) == r * n as real
  {
    if n > 0 {
      ScaledIsProduct(r, n - 1);
    }
  }

  /** `randomInt(min, max)` for the draw `r`: `Math.floor(r * (max - min + 1)) + min`. */
  function RandomInt(lo: int, hi: int, r: real): (v: int)
    requires lo <= hi && IsDraw(r)
    ensures lo <= v <= hi
  {
    Scaled(r, hi - lo + 1).Floor + lo
  }

  /** Every value of the range is produced by some draw. */
  lemma RandomIntHits(lo: int, hi: int, v: int)
    requires lo <= v <= hi
    ensures IsDraw((v - lo) as real / (hi - lo + 1) as real)
    ensures RandomInt(lo, hi, (v - lo) as real / (hi - lo + 1) as real) == v
  {
    var span := (hi - lo + 1) as real;
    var r := (v - lo) as real / span;
    assert r * span == (v - lo) as real;
    ScaledIsProduct(r, hi - lo + 1);
    assert ((v - lo) as real).Floor == v - lo;
  }

  // ---------------------------------------------------------------- shuffle

  /** `[array[i], array[j]] = [array[j], array[i]]`. */
  function Swap<T>(s: seq<T>, i: nat, j: nat): (r: seq<T>)
    requires i < |s| && j < |s|
    ensures |r| == |s|
  {
    seq(|s|, k requires 0 <= k < |s| => if k == j then s[i] else if k == i then s[j] else s[k])
  }

  /** The swap is the two writes of the destructuring assignment, in order. */
  lemma SwapWrites<T>(s: seq<T>, i: nat, j: nat)
    requires i < |s| && j < |s|
    ensures Swap(s, i, j) == s[i := s[j]][j := s[i]]
  {
  }

  lemma SwapPermutes<T>(s: seq<T>, i: nat, j: nat)
    requires i < |s| && j < |s|
    ensures multiset(Swap(s, i, j)) == multiset(s)
  {
    SwapWrites(s, i, j);
  }

  /** The first n passes of the Fisher-Yates loop; pass k swaps position |s|-1-k with the pick of draw k. */
  function Passes<T>(s: seq<T>, n: nat, draws: seq<real>): (r: seq<T>)
    requires n < |s| && Draws(draws) && n <= |draws|
    ensures |r| == |s|
  {
    if n == 0 then s
    else Swap(Passes(s, n - 1, draws), |s| - n, RandomInt(0, |s| - n, draws[n - 1]))
  }

  lemma {:induction false} PassesPermute<T>(s: seq<T>, n: nat, draws: seq<real>)
    requires n < |s| && Draws(draws) && n <= |draws|
    ensures multiset(Passes(s, n, draws)) == multiset(s)
  {
    if n > 0 {
      var prev := Passes(s, n - 1, draws);
      var j := RandomInt(0, |s| - n, draws[n - 1]);
      var next := Swap(prev, |s| - n, j);
      assert Passes(s, n, draws) == next;
      PassesPermute(s, n - 1, draws);
      SwapPermutes(prev, |s| - n, j);
      assert multiset(next) == multiset(prev);
    }
  }

  /** One more pass: the two writes of its swap. */
  lemma PassWrites<T>(s: seq<T>, n: nat, draws: seq<real>, before: seq<T>, after: seq<T>)
    requires n + 1 < |s| && Draws(draws) && n < |draws|
    requires before == Passes(s, n, draws)
    requires var i, j := |s| - 1 - n, RandomInt(0, |s| - 1 - n, draws[n]);
      after == before[i := before[j]][j := before[i]]
    ensures after == Passes(s, n + 1, draws)
  {
    SwapWrites(before, |s| - 1 - n, RandomInt(0, |s| - 1 - n, draws[n]));
  }

  /** `shuffle(array)`: every pass of the loop over a copy; it needs one draw per position but the first. */
  function FisherYates<T>(s: seq<T>, draws: seq<real>): (r: seq<T>)
    requires Draws(draws) && |s| <= |draws| + 1
    ensures |r| == |s| && multiset(r) == multiset(s)
  {
    if s == [] then s
    else
      PassesPermute(s, |s| - 1, draws);
      Passes(s, |s| - 1, draws)
  }

  /** The loop of `shuffle`: it swaps entries of a fresh copy, so the caller's sequence is never touched. */
  method Shuffle<T>(xs: seq<T>, draws: seq<real>) returns (r: seq<T>)
    requires Draws(draws) && |xs| <= |draws| + 1
    ensures r == FisherYates(xs, draws)
  {
    if |xs| == 0 {
      return xs;
    }
    var arr := new T[|xs|](k requires 0 <= k < |xs| => xs[k]);
    var i := |xs| - 1;
    while i > 0
      invariant 0 <= i < |xs| == arr.Length
      invariant arr[..] == Passes(xs, |xs| - 1 - i, draws)
    {
      var n := |xs| - 1 - i;
      var j := RandomInt(0, i, draws[n]);
      ghost var before := arr[..];
      arr[i], arr[j] := arr[j], arr[i];
      assert arr[..] == before[i := before[j]][j := before[i]];
      PassWrites(xs, n, draws, before, arr[..]);
      i := i - 1;
    }
    r := arr[..];
  }

  // ------------------------------------------------------------ formatTime

  /** The minutes and seconds fields of `formatTime`: negative inputs count as zero. */
  function ClockFields(seconds: real): (f: (nat, nat))
    ensures f.1 < 60
    ensures 60 * f.0 + f.1 == if seconds < 0.0 then 0 else seconds.Floor
  {
    var safe := if seconds.Floor < 0 then 0 else seconds.Floor;
    (safe / 60, safe % 60)
  }

  function DigitChar(d: nat): (c: char)
    requires d < 10
    ensures '0' <= c <= '9' && (c as int) - ('0' as int) == d
  {
    (('0' as int) + d) as char
  }

  /** `String(n)` for a non-negative integer. */
  function DecimalString(n: nat): (s: seq<char>)
    ensures |s| >= 1
    ensures n < 100 ==> |s| <= 2
    decreases n
  {
    if n < 10 then [DigitChar(n)] else DecimalString(n / 10) + [DigitChar(n % 10)]
  }

  /** The number a string of decimal digits denotes. */
  function DigitsValue(s: seq<char>): int
  {
    if s == [] then 0
    else
      var c := s[|s| - 1];
      DigitsValue(s[..|s| - 1]) * 10 + (if '0' <= c <= '9' then (c as int) - ('0' as int) else 0)
  }

  /** `padStart(2, '0')`. */
  function PadTwo(s: seq<char>): (r: seq<char>)
    ensures |s| == 1 ==> |r| == 2 && r[0] == '0' && r[1..] == s
    ensures |s| >= 2 ==> r == s
  {
    if |s| >= 2 then s else ['0'] + s
  }

  /** `formatTime(seconds)`: "mm:ss". */
  function FormatTime(seconds: real): (r: seq<char>)
    ensures |r| >= 5 && r[|r| - 3] == ':'
  {
    var f := ClockFields(seconds);
    PadTwo(DecimalString(f.0)) + [':'] + PadTwo(DecimalString(f.1))
  }

  lemma {:induction false} DecimalStringValue(n: nat)
    ensures DigitsValue(DecimalString(n)) == n
    decreases n
  {
    var s := DecimalString(n);
    if n >= 10 {
      DecimalStringValue(n / 10);
      assert s[..|s| - 1] == DecimalString(n / 10);
    }
  }

  lemma PadTwoValue(s: seq<char>)
    requires |s| >= 1
    ensures DigitsValue(PadTwo(s)) == DigitsValue(s)
  {
    if |s| < 2 {
      assert PadTwo(s)[..1] == ['0'];
      assert PadTwo(s)[..1][..0] == [];
    }
  }

  /** Reading "mm:ss" back gives the minutes and seconds, and the seconds field is two digits. */
  lemma FormatTimeReadsBack(seconds: real)
    ensures var r := FormatTime(seconds); var f := ClockFields(seconds);
      |r[|r| - 2..]| == 2
      && DigitsValue(r[..|r| - 3]) == f.0
      && DigitsValue(r[|r| - 2..]) == f.1
  {
    var f := ClockFields(seconds);
    var m := PadTwo(DecimalString(f.0));
    var s := PadTwo(DecimalString(f.1));
    var r := FormatTime(seconds);
    assert r == m + [':'] + s;
    assert |DecimalString(f.1)| <= 2 by {
      if f.1 >= 10 { assert DecimalString(f.1 / 10) == [DigitChar(f.1 / 10)]; }
    }
    assert |s| == 2;
    assert r[..|r| - 3] == m;
    assert r[|r| - 2..] == s;
    DecimalStringValue(f.0);
    DecimalStringValue(f.1);
    PadTwoValue(DecimalString(f.0));
    PadTwoValue(DecimalString(f.1));
  }

  // ------------------------------------------------------------------ clamp

  /** `clamp(value, min, max)` = min(max(value, min), max). */
  function Clamp(v: real, lo: real, hi: real): (r: real)
    ensures lo <= hi ==> lo <= r <= hi
    ensures lo <= v <= hi ==> r == v
    ensures lo <= hi && v < lo ==> r == lo
    ensures v > hi ==> r == hi
  {
    var up := if v > lo then v else lo;
    if up < hi then up else hi
  }

  // ---------------------------------------------------------------- isPrime

  /** The mathematical notion: at least 2 and no divisor strictly between 1 and n. */
  predicate Prime(n: int)
  {
    n >= 2 && forall d :: 2 <= d < n ==> n % d != 0
  }

  /** Products of positive numbers grow with either factor. */
  lemma MulAtLeast(a: int, b: int, c: int)
    requires 0 <= a <= b && c >= 0
    ensures a * c <= b * c
  {
  }

  /** A multiple of q leaves no remainder. */
  lemma ModOfMultiple(q: int, d: int)
    requires q > 0
    ensures (q * d) % q == 0
  {
    var n := q * d;
    var k := n / q;
    var m := n % q;
    assert n == q * k + m && 0 <= m < q;
    assert q * (d - k) == m;
    if d - k >= 1 {
      MulAtLeast(1, d - k, q);
      assert false;
    } else if d - k <= -1 {
      MulAtLeast(1, k - d, q);
      assert false;
    }
  }

  /** A divisor d at or above i, with n < i*i, would pair with a cofactor strictly between 1 and i. */
  lemma LargeDivisorPairs(n: int, i: int, d: int)
    requires 2 <= i <= d < n && n < i * i && n % d == 0
    ensures exists q :: 2 <= q < i && n % q == 0
  {
    var q := n / d;
    assert n == d * q;
    if q <= 1 {
      MulAtLeast(q, 1, d);
      assert false;
    }
    if q >= i {
      MulAtLeast(i, q, d);
      MulAtLeast(i, d, i);
      assert false;
    }
    ModOfMultiple(q, d);
  }

  /** So when no divisor lies below i, none lies anywhere between 1 and n. */
  lemma NoDivisorAboveRoot(n: int, i: int)
    requires 2 <= i && n < i * i
    requires forall d :: 2 <= d < i ==> n % d != 0
    ensures forall d :: 2 <= d < n ==> n % d != 0
  {
    forall d | i <= d < n
      ensures n % d != 0
    {
      if n % d == 0 {
        LargeDivisorPairs(n, i, d);
      }
    }
  }

  /** `isPrime(n)`: trial division by every i with i*i <= n. */
  method IsPrime(n: int) returns (b: bool)
    ensures b <==> Prime(n)
    ensures b <==> n >= 2 && forall d :: 2 <= d && d * d <= n ==> n % d != 0
  {
    if n < 2 {
      return false;
    }
    var i := 2;
    while i * i <= n
      invariant 2 <= i
      invariant forall d :: 2 <= d < i ==> n % d != 0
    {
      if n % i == 0 {
        MulAtLeast(2, i, i);
        return false;
      }
      i := i + 1;
    }
    NoDivisorAboveRoot(n, i);
    forall d | i <= d
      ensures n < d * d
    {
      MulAtLeast(i, d, i);
      MulAtLeast(i, d, d);
    }
    return true;
  }
}
