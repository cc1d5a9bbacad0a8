/** Java's 32-bit `int`, its wrap-around arithmetic, and the decimal rendering that
    `PrintWriter.print(int)` and string concatenation use. */
module Java {

  const TWO_31: int := 0x8000_0000
  const TWO_32: int := 0x1_0000_0000

  /** The values of a Java `int`. */
  type int32 = x: int | -0x8000_0000 <= x < 0x8000_0000

  predicate InInt32(x: int) {
    -TWO_31 <= x < TWO_31
  }

  /** Two's-complement wrap-around of an unbounded result into a Java `int`. */
  function Wrap32(x: int): (r: int32)
    ensures (r - x) % TWO_32 == 0
    ensures InInt32(x) ==> r == x
  {
    var m := (x + TWO_31) % TWO_32;
    assert 0 <= m < TWO_32;
    (m - TWO_31) as int32
  }

  /** Java `a + b`, `a - b` and `a * b` on two `int` operands. */
  function AddInt(a: int32, b: int32): (r: int32)
    ensures (r - (a + b)) % TWO_32 == 0
  {
    Wrap32(a + b)
  }

  function SubInt(a: int32, b: int32): (r: int32)
    ensures (r - (a - b)) % TWO_32 == 0
  {
    Wrap32(a - b)
  }

  function MulInt(a: int32, b: int32): (r: int32)
    ensures (r - a * b) % TWO_32 == 0
  {
    Wrap32(a * b)
  }

  /** The one `int` congruent to `x`: wrapping is blind to multiples of 2^32. */
  lemma WrapUnique(x: int, r: int32)
    requires (r - x) % TWO_32 == 0
    ensures r == Wrap32(x)
  {
    var w := Wrap32(x);
    var q1 := (r - x) / TWO_32;
    var q2 := (w - x) / TWO_32;
    assert r - x == TWO_32 * q1;
    assert w - x == TWO_32 * q2;
    assert r - w == TWO_32 * (q1 - q2);
  }

  /** Congruence modulo 2^32 is transitive. */
  lemma CongruentTrans(a: int, b: int, c: int)
    requires (a - b) % TWO_32 == 0 && (b - c) % TWO_32 == 0
    ensures (a - c) % TWO_32 == 0
  {
    var q1 := (a - b) / TWO_32;
    var q2 := (b - c) / TWO_32;
    assert a - b == TWO_32 * q1;
    assert b - c == TWO_32 * q2;
    assert a - c == TWO_32 * (q1 + q2);
  }

  /** Negating and then adding `k` is subtracting from `k`, in 32 bits as in math. */
  lemma NegateThenAdd(k: int32, x: int32)
    ensures AddInt(SubInt(0, x), k) == SubInt(k, x)
  {
    var neg := SubInt(0, x);
    var sum := AddInt(neg, k);
    assert (sum - (neg + k)) % TWO_32 == 0;
    assert (neg + k - (k - x)) % TWO_32 == 0;
    CongruentTrans(sum, neg + k, k - x);
    WrapUnique(k - x, sum);
  }

  /** Adding the wrapped negation of `k` is subtracting `k`. */
  lemma AddNegation(x: int32, k: int32)
    ensures AddInt(x, Wrap32(-(k as int))) == SubInt(x, k)
  {
    var m := Wrap32(-(k as int));
    var diff := AddInt(x, m);
    assert (diff - (x + m)) % TWO_32 == 0;
    assert (x + m - (x - k)) % TWO_32 == 0;
    CongruentTrans(diff, x + m, x - k);
    WrapUnique(x - k, diff);
  }

  /** The largest `int` plus one wraps to the smallest. */
  lemma AddWrapsAtMax()
    ensures AddInt(0x7fff_ffff, 1) == -0x8000_0000
  {
  }

  function DigitChar(d: nat): (c: char)
    requires d < 10
    ensures '0' <= c <= '9'
  {
    (d + '0' as int) as char
  }

  /** Decimal digits of a natural number, without leading zeros ("0" for zero). */
  function NatToString(n: nat): (s: string)
    ensures |s| >= 1
    ensures forall i :: 0 <= i < |s| ==> '0' <= s[i] <= '9'
    ensures n >= 10 ==> s[0] != '0'
    decreases n
  {
    if n < 10 then [DigitChar(n)] else NatToString(n / 10) + [DigitChar(n % 10)]
  }

  /** `Integer.toString`: a minus sign for negative values, then the digits. */
  function IntToString(i: int): (s: string)
    ensures |s| >= 1
    ensures i >= 0 <==> s[0] != '-'
  {
    if i < 0 then "-" + NatToString(-i) else NatToString(i)
  }

  /** Reading the digits back gives the number: the rendering is injective. */
  function DigitsValue(s: string): int
  {
    if s == [] then 0 else DigitsValue(s[..|s| - 1]) * 10 + (s[|s| - 1] as int - '0' as int)
  }

  lemma {:induction false} NatToStringRoundTrip(n: nat)
    ensures DigitsValue(NatToString(n)) == n
    decreases n
  {
    if n >= 10 {
      var s := NatToString(n / 10) + [DigitChar(n % 10)];
      assert s[..|s| - 1] == NatToString(n / 10);
      NatToStringRoundTrip(n / 10);
    }
  }

  lemma NatToStringInjective(m: nat, n: nat)
    requires NatToString(m) == NatToString(n)
    ensures m == n
  {
    NatToStringRoundTrip(m);
    NatToStringRoundTrip(n);
  }
}
