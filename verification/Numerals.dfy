/**
 Positional numerals in an arbitrary base, and the digit texts the node prints and reads.
 Digit sequences are big-endian: the first digit is the most significant one.
 */
module Numerals {
  import opened Options

  // ---------- powers ----------

  function Pow(b: nat, e: nat): (p: nat)
    ensures b > 0 ==> p > 0
  {
    if e == 0 then 1 else b * Pow(b, e - 1)
  }

  lemma {:induction false} PowAdd(b: nat, m: nat, n: nat)
    ensures Pow(b, m + n) == Pow(b, m) * Pow(b, n)
  {
    if m > 0 {
      PowAdd(b, m - 1, n);
      MulAssoc(b, Pow(b, m - 1), Pow(b, n));
    }
  }

  lemma {:induction false} PowPow(b: nat, k: nat, m: nat)
    ensures Pow(Pow(b, k), m) == Pow(b, k * m)
  {
    if m > 0 {
      PowPow(b, k, m - 1);
      assert k * m == k + k * (m - 1);
      PowAdd(b, k, k * (m - 1));
    }
  }

  lemma {:induction false} PowMonotone(b: nat, m: nat, n: nat)
    requires b > 0 && m <= n
    ensures Pow(b, m) <= Pow(b, n)
  {
    PowAdd(b, m, n - m);
    MulGe(Pow(b, m), Pow(b, n - m));
  }

  lemma MulAssoc(x: int, y: int, z: int)
    ensures x * (y * z) == (x * y) * z
  {
  }

  lemma MulGe(x: nat, y: nat)
    requires y >= 1
    ensures x * y >= x
  {
  }

  /** Quotient and remainder are the only way to write n as q * d + r with r < d. */
  lemma DivModUnique(n: int, d: nat, q: int, r: int)
    requires 0 <= r < d && n == q * d + r
    ensures n / d == q && n % d == r
  {
    var k := n / d - q;
    assert k * d == r - n % d by { assert k * d == (n / d) * d - q * d; }
    if k >= 1 {
      MulMonotone(1, k, d);
    } else if k <= -1 {
      MulMonotone(k, -1, d);
    }
  }

  /** Reduction modulo m may be done before a multiply-and-add step. */
  lemma ModMulAdd(a: nat, m: nat, k: nat, d: nat)
    requires m > 0
    ensures (a % m * k + d) % m == (a * k + d) % m
  {
    var q, r := a / m, a % m;
    var x := r * k + d;
    assert a == q * m + r;
    assert a * k + d == (q * k) * m + x by {
      assert a * k == (q * m) * k + r * k;
      assert (q * m) * k == (q * k) * m;
    }
    assert x == (x / m) * m + x % m;
    assert a * k + d == (q * k + x / m) * m + x % m;
    DivModUnique(a * k + d, m, q * k + x / m, x % m);
  }

  /** Quotient of two naturals, with the facts that the proofs need. */
  function Quot(n: nat, d: nat): (q: nat)
    requires d > 0
    ensures n == q * d + n % d && 0 <= n % d < d
    ensures d >= 2 && n > 0 ==> q < n
  {
    assert n / d >= 0 && (d >= 2 && n > 0 ==> n / d < n) by { QuotBounds(n, d); }
    n / d
  }

  lemma QuotBounds(n: nat, d: nat)
    requires d > 0
    ensures n / d >= 0
    ensures d >= 2 && n > 0 ==> n / d < n
  {
    var q, r := n / d, n % d;
    assert n == q * d + r;
    if q < 0 { MulMonotone(q, -1, d); }
    if d >= 2 && q >= n > 0 {
      MulMonotone(2, d, q);
    }
  }

  // ---------- digit sequences ----------

  predicate Digits(b: nat, ds: seq<nat>)
  {
    forall i :: 0 <= i < |ds| ==> ds[i] < b
  }

  /** The number that a digit sequence denotes. */
  function Val(b: nat, ds: seq<nat>): nat
  {
    if ds == [] then 0 else Val(b, ds[..|ds| - 1]) * b + ds[|ds| - 1]
  }

  lemma {:induction false} ValConcat(b: nat, x: seq<nat>, y: seq<nat>)
    ensures Val(b, x + y) == Val(b, x) * Pow(b, |y|) + Val(b, y)
  {
    if y == [] {
      assert x + y == x;
    } else {
      var y' := y[..|y| - 1];
      assert (x + y)[..|x + y| - 1] == x + y';
      ValConcat(b, x, y');
      ShiftAdd(Val(b, x), Pow(b, |y'|), Val(b, y'), b, y[|y| - 1]);
    }
  }

  lemma ShiftAdd(v: nat, p: nat, w: nat, b: nat, d: nat)
    ensures (v * p + w) * b + d == v * (b * p) + (w * b + d)
  {
    assert (v * p) * b == v * (b * p);
  }

  lemma {:induction false} ValBound(b: nat, ds: seq<nat>)
    requires Digits(b, ds)
    ensures Val(b, ds) < Pow(b, |ds|)
  {
    if ds != [] {
      var hi := ds[..|ds| - 1];
      ValBound(b, hi);
      var p := Pow(b, |hi|);
      assert Val(b, hi) <= p - 1;
      MulMonotone(Val(b, hi), p - 1, b);
      assert (p - 1) * b == p * b - b;
      assert Pow(b, |ds|) == b * p;
    }
  }

  lemma MulMonotone(x: int, y: int, k: nat)
    requires x <= y
    ensures x * k <= y * k
  {
  }

  /** A digit sequence that starts with d is worth at least d times the weight of its first place. */
  lemma ValHead(b: nat, ds: seq<nat>)
    requires |ds| > 0
    ensures Val(b, ds) == ds[0] * Pow(b, |ds| - 1) + Val(b, ds[1..])
  {
    ValConcat(b, ds[..1], ds[1..]);
    assert ds[..1] + ds[1..] == ds;
    assert ds[..1][..0] == [];
    assert Val(b, ds[..1]) == 0 * b + ds[0];
  }

  /** The digits of n with exactly `len` places; higher places are cut off. */
  function Fixed(b: nat, n: nat, len: nat): (ds: seq<nat>)
    requires b > 0
    ensures |ds| == len && Digits(b, ds)
  {
    if len == 0 then [] else Fixed(b, Quot(n, b), len - 1) + [n % b]
  }

  lemma {:induction false} ValFixed(b: nat, n: nat, len: nat)
    requires b > 0 && n < Pow(b, len)
    ensures Val(b, Fixed(b, n, len)) == n
  {
    if len > 0 {
      DivBelow(n, b, Pow(b, len - 1));
      ValFixed(b, Quot(n, b), len - 1);
      var ds := Fixed(b, n, len);
      assert ds[..|ds| - 1] == Fixed(b, Quot(n, b), len - 1);
      assert Val(b, ds) == Quot(n, b) * b + n % b;
    }
  }

  lemma WrapStep(n: nat, b: nat, p: nat, q: nat, r: nat)
    requires b > 0 && p > 0 && n == q * b + r && r < b
    ensures n % (b * p) == (q % p) * b + r
  {
    var k, m := q / p, q % p;
    MulAssoc(k, p, b);
    assert n == k * (b * p) + (m * b + r);
    MulMonotone(m + 1, p, b);
    DivModUnique(n, b * p, k, m * b + r);
  }

  lemma FixedLast(b: nat, n: nat, len: nat)
    requires b > 0 && len > 0
    ensures Val(b, Fixed(b, n, len)) == Val(b, Fixed(b, Quot(n, b), len - 1)) * b + n % b
  {
    var ds := Fixed(b, n, len);
    assert ds[..|ds| - 1] == Fixed(b, Quot(n, b), len - 1);
  }

  /** A fixed width keeps the value up to what wraps around. */
  lemma {:induction false} FixedWraps(b: nat, n: nat, len: nat)
    requires b > 0
    ensures Val(b, Fixed(b, n, len)) == n % Pow(b, len)
  {
    if len > 0 {
      FixedWraps(b, Quot(n, b), len - 1);
      FixedLast(b, n, len);
      WrapStep(n, b, Pow(b, len - 1), Quot(n, b), n % b);
    }
  }

  lemma DivBelow(n: nat, b: nat, p: nat)
    requires b > 0 && n < b * p
    ensures Quot(n, b) < p
  {
    if Quot(n, b) >= p {
      MulMonotone(p, Quot(n, b), b);
    }
  }

  /** Fixed-width digits are unique: reading and re-printing gives the digits back. */
  lemma {:induction false} FixedVal(b: nat, ds: seq<nat>)
    requires b > 0 && Digits(b, ds)
    ensures Fixed(b, Val(b, ds), |ds|) == ds
  {
    if ds != [] {
      var hi, lo := ds[..|ds| - 1], ds[|ds| - 1];
      DivModUnique(Val(b, ds), b, Val(b, hi), lo);
      FixedVal(b, hi);
      assert ds == hi + [lo];
    }
  }

  /** Two digit sequences of one length and one value are equal. */
  lemma ValInjective(b: nat, x: seq<nat>, y: seq<nat>)
    requires b > 0 && Digits(b, x) && Digits(b, y)
    requires |x| == |y| && Val(b, x) == Val(b, y)
    ensures x == y
  {
    FixedVal(b, x);
    FixedVal(b, y);
  }

  /** The canonical numeral: no leading zero, except that zero itself is one zero digit. */
  function Canon(b: nat, n: nat): (ds: seq<nat>)
    requires b >= 2
    ensures |ds| >= 1 && Digits(b, ds)
  {
    if n < b then [n] else Canon(b, Quot(n, b)) + [n % b]
  }

  lemma {:induction false} CanonVal(b: nat, n: nat)
    requires b >= 2
    ensures Val(b, Canon(b, n)) == n
  {
    if n >= b {
      CanonVal(b, Quot(n, b));
      var ds := Canon(b, n);
      assert ds[..|ds| - 1] == Canon(b, Quot(n, b));
    }
  }

  lemma {:induction false} CanonHead(b: nat, n: nat)
    requires b >= 2
    ensures n > 0 ==> Canon(b, n)[0] != 0
    ensures n == 0 ==> Canon(b, n) == [0]
  {
    if n >= b {
      var m := Quot(n, b);
      CanonHead(b, m);
      assert Canon(b, n)[0] == Canon(b, m)[0];
    }
  }

  /** Without a leading zero, the value determines the digits: printing is canonical. */
  lemma CanonFixed(b: nat, n: nat)
    requires b >= 2
    ensures n < Pow(b, |Canon(b, n)|)
    ensures Canon(b, n) == Fixed(b, n, |Canon(b, n)|)
  {
    CanonVal(b, n);
    ValBound(b, Canon(b, n));
    FixedVal(b, Canon(b, n));
  }

  /** The canonical numeral is as short as the value allows. */
  lemma {:induction false} CanonLength(b: nat, n: nat, k: nat)
    requires b >= 2 && k >= 1 && n < Pow(b, k)
    ensures |Canon(b, n)| <= k
  {
    if n >= b {
      if k > 1 {
        DivBelow(n, b, Pow(b, k - 1));
        CanonLength(b, Quot(n, b), k - 1);
      }
    }
  }

  // ---------- digit texts ----------

  const NOT_A_DIGIT: nat := 255

  /** The value of a hexadecimal or decimal digit character, of either case. */
  function CharValue(c: char): nat
  {
    if '0' <= c <= '9' then c as int - '0' as int
    else if 'a' <= c <= 'f' then c as int - 'a' as int + 10
    else if 'A' <= c <= 'F' then c as int - 'A' as int + 10
    else NOT_A_DIGIT
  }

  function DigitChar(d: nat, upper: bool): (c: char)
    requires d < 16
    ensures CharValue(c) == d
    ensures '0' <= c <= '9' || 'A' <= c <= 'F' || 'a' <= c <= 'f'
    ensures d < 10 ==> '0' <= c <= '9'
    ensures c == '0' <==> d == 0
    ensures if upper then !('a' <= c <= 'f') else !('A' <= c <= 'F')
  {
    if d < 10 then '0' + d as char
    else if upper then 'A' + (d - 10) as char
    else 'a' + (d - 10) as char
  }

  function ToText(ds: seq<nat>, upper: bool): (t: string)
    requires Digits(16, ds)
    ensures |t| == |ds|
    ensures forall i :: 0 <= i < |t| ==> t[i] == DigitChar(ds[i], upper)
  {
    seq(|ds|, i requires 0 <= i < |ds| => DigitChar(ds[i], upper))
  }

  function CharValues(t: string): (ds: seq<nat>)
    ensures |ds| == |t|
    ensures forall i :: 0 <= i < |t| ==> ds[i] == CharValue(t[i])
  {
    seq(|t|, i requires 0 <= i < |t| => CharValue(t[i]))
  }

  /**
   One formatted read of an unsigned number that must use up the whole text: an error as soon as a
   character is not a digit of the base.
   */
  function ReadNumber(b: nat, t: string): Option<nat>
  {
    if Digits(b, CharValues(t)) then Some(Val(b, CharValues(t))) else None
  }

  lemma ReadBack(b: nat, ds: seq<nat>, upper: bool)
    requires b <= 16 && Digits(b, ds)
    ensures Digits(16, ds)
    ensures CharValues(ToText(ds, upper)) == ds
    ensures ReadNumber(b, ToText(ds, upper)) == Some(Val(b, ds))
  {
    assert CharValues(ToText(ds, upper)) == ds;
  }

  /** Fixed-width printing in base b and reading back gives the number, if it fits the width. */
  lemma FixedReadBack(b: nat, n: nat, len: nat, upper: bool)
    requires 0 < b <= 16 && n < Pow(b, len)
    ensures Digits(16, Fixed(b, n, len))
    ensures ReadNumber(b, ToText(Fixed(b, n, len), upper)) == Some(n)
  {
    ReadBack(b, Fixed(b, n, len), upper);
    ValFixed(b, n, len);
  }
}
