/** A.a6, the worker's signed integers of any size, over the digit routines. */
module BigInteger {
  import opened Digits
  import opened Shifts
  import opened Division

  /** An integer: its sign, its digits, and how many of them are in use. Never changed once made. */
  datatype BigInt = BigInt(neg: bool, digits: array<Digit>, used: nat) {

    /** No leading zero digit, and zero is not negative. */
    ghost predicate Valid()
      reads digits
    {
      && used <= digits.Length
      && (used > 0 ==> digits[used - 1] != 0)
      && (used == 0 ==> !neg)
    }

    ghost function Magnitude(): (m: nat)
      requires used <= digits.Length
      reads digits
    {
      ValBound(digits[..used]);
      Val(digits[..used])
    }

    ghost function Value(): int
      requires used <= digits.Length
      reads digits
    {
      Signed(neg, Magnitude())
    }
  }

  function Signed(neg: bool, magnitude: int): int {
    if neg then -magnitude else magnitude
  }

  /** Truncating division, as the quotient and remainder of the source round toward zero. */
  function TruncDiv(x: int, y: int): int
    requires y != 0
  {
    var quotient := Abs(x) / Abs(y);
    if (x < 0) != (y < 0) then -quotient else quotient
  }

  function TruncMod(x: int, y: int): int
    requires y != 0
  {
    if x < 0 then -(Abs(x) % Abs(y)) else Abs(x) % Abs(y)
  }

  function Abs(x: int): nat {
    if x < 0 then -x else x
  }

  /** Division by y and its remainder belong together, and the remainder is the smaller one. */
  lemma TruncDivMod(x: int, y: int)
    requires y != 0
    ensures x == TruncDiv(x, y) * y + TruncMod(x, y)
    ensures Abs(TruncMod(x, y)) < Abs(y)
    ensures TruncMod(x, y) == 0 || (TruncMod(x, y) < 0 <==> x < 0)
  {
    var a, b := Abs(x), Abs(y);
    assert a == (a / b) * b + a % b;
  }

  /** A number has digits in use exactly when it is not zero. */
  lemma UsedWhenNonzero(x: BigInt)
    requires x.Valid()
    ensures x.used == 0 <==> x.Magnitude() == 0
  {
    if x.used > 0 {
      ValTop(x.digits[..x.used]);
      MulLess(0, x.digits[x.used - 1], Pow(x.used - 1));
    }
  }

  /** The number with the digits d[..n], which may have leading zeros. */
  method Make(neg: bool, n: nat, d: array<Digit>) returns (r: BigInt)
    requires n <= d.Length
    ensures r.Valid() && r.digits == d && r.used <= n
    ensures r.Magnitude() == Val(d[..n])
    ensures r.neg == (neg && r.used > 0)
  {
    var u := Used(n, d);
    r := BigInt(if u == 0 then false else neg, d, u);
  }

  method Zero() returns (r: BigInt)
    ensures r.Valid() && r.Value() == 0 && !r.neg
  {
    var d := new Digit[0];
    r := BigInt(false, d, 0);
  }

  /** A.eJ for a value of one digit. */
  method FromDigit(a: Digit) returns (r: BigInt)
    ensures r.Valid() && r.Value() == a && !r.neg && r.used <= 1
  {
    var s := new Digit[1](_ => a);
    assert s[..1] == [] + [a];
    ValSnoc([], a);
    r := Make(false, 1, s);
  }

  /** aB */
  method Negated(x: BigInt) returns (r: BigInt)
    requires x.Valid()
    ensures r.Valid() && r.Value() == -x.Value() && r.used == x.used
  {
    if x.used == 0 {
      r := x;
      assert x.digits[..0] == [];
    } else {
      UsedWhenNonzero(x);
      r := Make(!x.neg, x.used, x.digits);
      UsedWhenNonzero(r);
      LeadingDigit(x, r);
    }
  }

  lemma LeadingDigit(x: BigInt, r: BigInt)
    requires x.Valid() && r.Valid() && x.Magnitude() == r.Magnitude()
    ensures x.used == r.used
  {
    var s, t := x.digits[..x.used], r.digits[..r.used];
    if x.used > r.used { LongerIsLarger(s, t); }
    if x.used < r.used { LongerIsLarger(t, s); }
  }

  /** ag: the sign of the comparison of two integers. */
  method CompareTo(x: BigInt, y: BigInt) returns (r: int)
    requires x.Valid() && y.Valid()
    ensures (r > 0 <==> x.Value() > y.Value()) && (r < 0 <==> x.Value() < y.Value())
  {
    UsedWhenNonzero(x);
    UsedWhenNonzero(y);
    if x.neg == y.neg {
      r := Compare(x.digits, x.used, y.digits, y.used);
      r := if x.neg then 0 - r else r;
    } else {
      r := if x.neg then -1 else 1;
    }
  }

  /** dr: the sum of the magnitudes, with the sign b. */
  method AddMagnitudes(x: BigInt, a: BigInt, b: bool) returns (r: BigInt)
    requires x.Valid() && a.Valid()
    ensures r.Valid() && r.Value() == Signed(b, x.Magnitude() + a.Magnitude())
    decreases x.used < a.used
  {
    var o, n := x.used, a.used;
    UsedWhenNonzero(x);
    UsedWhenNonzero(a);
    if o < n {
      r := AddMagnitudes(a, x, b);
      return;
    }
    if o == 0 {
      r := Zero();
      return;
    }
    if n == 0 {
      r := x;
      if x.neg != b { r := Negated(x); }
      return;
    }
    var d := new Digit[o + 1](_ => 0);
    AbsAdd(x.digits, o, a.digits, n, d);
    r := Make(b, o + 1, d);
    UsedWhenNonzero(r);
  }

  /** cs: the difference of the magnitudes, the larger minus the smaller, with the sign b. */
  method SubMagnitudes(x: BigInt, a: BigInt, b: bool) returns (r: BigInt)
    requires x.Valid() && a.Valid() && x.Magnitude() >= a.Magnitude()
    ensures r.Valid() && r.Value() == Signed(b, x.Magnitude() - a.Magnitude())
  {
    var o, s := x.used, a.used;
    UsedWhenNonzero(x);
    UsedWhenNonzero(a);
    if o == 0 {
      r := Zero();
      return;
    }
    if s == 0 {
      r := x;
      if x.neg != b { r := Negated(x); }
      return;
    }
    if s > o { LongerIsLarger(a.digits[..s], x.digits[..o]); }
    var d := new Digit[o](_ => 0);
    AbsSub(x.digits, o, a.digits, s, d);
    r := Make(b, o, d);
    UsedWhenNonzero(r);
  }

  /** dh */
  method Add(x: BigInt, y: BigInt) returns (r: BigInt)
    requires x.Valid() && y.Valid()
    ensures r.Valid() && r.Value() == x.Value() + y.Value()
  {
    UsedWhenNonzero(x);
    UsedWhenNonzero(y);
    if x.used == 0 { return y; }
    if y.used == 0 { return x; }
    if x.neg == y.neg {
      r := AddMagnitudes(x, y, x.neg);
    } else {
      var order := Compare(x.digits, x.used, y.digits, y.used);
      if order >= 0 {
        r := SubMagnitudes(x, y, x.neg);
      } else {
        r := SubMagnitudes(y, x, !x.neg);
      }
    }
  }

  /** dl */
  method Subtract(x: BigInt, y: BigInt) returns (r: BigInt)
    requires x.Valid() && y.Valid()
    ensures r.Valid() && r.Value() == x.Value() - y.Value()
  {
    UsedWhenNonzero(x);
    UsedWhenNonzero(y);
    if x.used == 0 {
      r := Negated(y);
      return;
    }
    if y.used == 0 { return x; }
    if x.neg != y.neg {
      r := AddMagnitudes(x, y, x.neg);
    } else {
      var order := Compare(x.digits, x.used, y.digits, y.used);
      if order >= 0 {
        r := SubMagnitudes(x, y, x.neg);
      } else {
        r := SubMagnitudes(y, x, !x.neg);
      }
    }
  }

  /** The loop of bI: p := a[..l] * b[..k]. */
  method MultiplyDigits(a: array<Digit>, l: nat, b: array<Digit>, k: nat, p: array<Digit>)
    requires l <= a.Length && k <= b.Length && p.Length == l + k
    requires p != a && p != b
    requires forall i :: 0 <= i < p.Length ==> p[i] == 0
    modifies p
    ensures Val(p[..]) == Val(a[..l]) * Val(b[..k])
  {
    ValZeros(p[..l]);
    var o := 0;
    while o < k
      invariant 0 <= o <= k
      invariant Val(p[..o + l]) == Val(a[..l]) * Val(b[..o])
      invariant forall i :: o + l <= i < p.Length ==> p[i] == 0
    {
      MultiplyRow(a, l, b[o], b[..o], p, o);
      assert b[..o + 1] == b[..o] + [b[o]];
      o := o + 1;
    }
    assert p[..] == p[..k + l];
  }

  /** One turn of that loop: the row of the digit d. */
  method MultiplyRow(a: array<Digit>, l: nat, d: Digit, ghost b: seq<Digit>, p: array<Digit>, o: nat)
    requires l <= a.Length && o + l < p.Length && |b| == o && p != a
    requires Val(p[..o + l]) == Val(a[..l]) * Val(b)
    requires p[o + l] == 0
    modifies p
    ensures Val(p[..o + 1 + l]) == Val(a[..l]) * Val(b + [d])
    ensures forall i :: o + l < i < p.Length ==> p[i] == old(p[i])
  {
    var top := o + l + 1;
    ghost var low, high := p[..o], Val(p[o..top]);
    assert a[0..0 + l] == a[..l];
    assert p[..top] == p[..o + l] + [0];
    ValSnoc(p[..o + l], 0);
    SplitAt(p[..], o, top);
    RowFits(p[o..top], a[..l], d);
    MulAdd(d, a, 0, p, o, l, top);
    assert p[..o] == low;
    SplitAt(p[..], o, top);
    ValSnoc(b, d);
    RowAdded(Val(low), high, d, Val(a[..l]), Pow(o), Val(b));
  }

  lemma SplitAt(p: seq<Digit>, o: nat, top: nat)
    requires o <= top <= |p|
    ensures Val(p[..top]) == Val(p[..o]) + Val(p[o..top]) * Pow(o)
  {
    ValSplit(p[..top], o);
    assert p[..top][..o] == p[..o] && p[..top][o..] == p[o..top];
  }

  /** A row of the product, added to as many digits, fits in one digit more. */
  lemma RowFits(w: seq<Digit>, a: seq<Digit>, d: Digit)
    requires |w| == |a| + 1 && w[|a|] == 0
    ensures d * Val(a) + Val(w) < Pow(|a| + 1)
  {
    ValBound(w[..|a|]);
    ValBound(a);
    MulLess(d, 0xFFFF, if Val(a) == 0 then 1 else Val(a));
  }

  lemma RowAdded(low: int, high: int, d: int, v: int, w: int, b: int)
    requires low + high * w == v * b
    ensures low + (high + d * v) * w == v * (b + d * w)
  {
    Distribute(high, d * v, w);
    Distribute(b, d * w, v);
    MulAssoc(v, d, w);
  }

  /** bI */
  method Multiply(x: BigInt, y: BigInt) returns (r: BigInt)
    requires x.Valid() && y.Valid()
    ensures r.Valid() && r.Value() == x.Value() * y.Value()
  {
    UsedWhenNonzero(x);
    UsedWhenNonzero(y);
    var l, k := x.used, y.used;
    if l == 0 || k == 0 {
      r := Zero();
      return;
    }
    var p := new Digit[l + k](_ => 0);
    MultiplyDigits(x.digits, l, y.digits, k, p);
    assert p[..l + k] == p[..];
    r := Make(x.neg != y.neg, l + k, p);
    UsedWhenNonzero(r);
    MulLess(0, x.Magnitude(), y.Magnitude());
    SignsMultiply(x.neg, x.Magnitude(), y.neg, y.Magnitude());
  }

  lemma SignsMultiply(s: bool, x: int, t: bool, y: int)
    ensures Signed(s, x) * Signed(t, y) == Signed(s != t, x * y)
  {}

  /** The digits of b0: x[..s] shifted left by c bits, in an array of their own. */
  method ShiftedDigits(x: array<Digit>, s: nat, c: nat) returns (d: array<Digit>)
    requires 0 < s <= x.Length
    ensures Val(d[..]) == Pow2(c) * Val(x[..s])
  {
    Pow2Parts(c);
    if c % 16 == 0 {
      // ib
      d := new Digit[s + c / 16](_ => 0);
      var u := ShiftDigits(x, s, c / 16, d);
      assert d[..] == d[..u];
    } else {
      d := new Digit[s + c / 16 + 1](_ => 0);
      ShiftBits(x, s, c, d);
      assert d[..][c / 16..] == d[c / 16..c / 16 + s + 1];
      ShiftedUp(d[..], c / 16, Pow2(c % 16), Val(x[..s]));
    }
  }

  /** b0: x shifted left by c bits. */
  method ShiftedLeft(x: BigInt, c: nat) returns (r: BigInt)
    requires x.Valid()
    ensures r.Valid() && r.Value() == Pow2(c) * x.Value()
  {
    UsedWhenNonzero(x);
    if x.used == 0 { return x; }
    var d := ShiftedDigits(x.digits, x.used, c);
    assert d[..d.Length] == d[..];
    r := Make(x.neg, d.Length, d);
    UsedWhenNonzero(r);
    ScaledSign(x.neg, r.neg, Pow2(c), x.Magnitude());
  }

  lemma ScaledSign(s: bool, t: bool, p: int, m: int)
    requires p > 0 && m > 0 && (p * m > 0 ==> s == t)
    ensures Signed(t, p * m) == p * Signed(s, m)
  {
    MulLess(0, m, p);
  }

  /** The test of ic and of bl: whether shifting right by c bits drops a bit that is set. */
  method DropsBits(o: array<Digit>, s: nat, c: nat) returns (drops: bool)
    requires c / 16 < s <= o.Length
    ensures drops <==> Val(o[..s]) % Pow2(c) != 0
  {
    var r := c / 16;
    WordHalves(c % 16);
    DroppedBits(o[..s], c);
    assert o[..s][..r] == o[..r];
    ValBound(o[..r]);
    PowAdd(r, 0);
    if o[r] % Pow2(c % 16) != 0 {
      MulLess(0, o[r] % Pow2(c % 16), Pow(r));
      return true;
    }
    for k := 0 to r
      invariant forall i :: 0 <= i < k ==> o[i] == 0
    {
      if o[k] != 0 {
        NonzeroDigit(o[..r], k);
        return true;
      }
    }
    ValZeros(o[..r]);
    return false;
  }

  /** The digits of bl and of ic: x[..s] without its lowest c bits. */
  method DigitsAbove(x: array<Digit>, s: nat, c: nat) returns (n: array<Digit>)
    requires c / 16 < s <= x.Length
    ensures n.Length == s - c / 16 && Val(n[..]) == Val(x[..s]) / Pow2(c)
  {
    var q := c / 16;
    if c % 16 == 0 {
      n := CloneDigits(x, q, s, s - q);
      DroppedDigits(x[..s], c);
      assert x[..s][q..] == x[q..s] == n[..s - q] == n[..];
    } else {
      n := new Digit[s - q](_ => 0);
      ShiftRight(x, s, c, n);
      assert n[..s - q] == n[..];
    }
  }

  /** bl: x shifted right by c bits, rounded down for every sign. */
  method ShiftedRight(x: BigInt, c: nat) returns (r: BigInt)
    requires x.Valid()
    ensures r.Valid() && Pow2(c) > 0 && r.Value() == x.Value() / Pow2(c)
    ensures !x.neg ==> !r.neg && r.Magnitude() == x.Magnitude() / Pow2(c)
  {
    var s := x.used;
    UsedWhenNonzero(x);
    Pow2Positive(c);
    if s <= c / 16 {
      TooShort(x.digits[..s], c);
      if s == 0 { return x; }
      if x.neg {
        FloorNegative(x.Magnitude(), Pow2(c));
        r := FromDigit(1);
        r := Negated(r);
      } else {
        r := Zero();
      }
      return;
    }
    var n := DigitsAbove(x.digits, s, c);
    r := Make(x.neg, n.Length, n);
    assert n[..n.Length] == n[..];
    UsedWhenNonzero(r);
    if x.neg {
      FloorNegative(x.Magnitude(), Pow2(c));
      var drops := DropsBits(x.digits, s, c);
      if drops {
        var one := FromDigit(1);
        r := Subtract(r, one);
      }
    }
  }

  lemma Pow2Positive(c: nat)
    ensures Pow2(c) > 0
  {
  }

  lemma FloorNegative(m: int, p: int)
    requires m > 0 && p > 0
    ensures -m / p == -(m / p) - (if m % p == 0 then 0 else 1)
    ensures m / p == 0 ==> m % p == m
  {
    var q, rest := m / p, m % p;
    assert m == p * q + rest;
    if rest == 0 {
      Distribute(-q, 0, p);
      FloorUnique(-m, p, -q, 0);
    } else {
      Distribute(-q, -1, p);
      FloorUnique(-m, p, -q - 1, p - rest);
    }
  }

  lemma TooShort(s: seq<Digit>, c: nat)
    requires |s| <= c / 16
    ensures Val(s) / Pow2(c) == 0
  {
    ValBound(s);
    PowMono(|s|, c / 16);
    Pow2Parts(c);
    AtLeastOnce(Pow2(c % 16), Pow(c / 16));
    FloorUnique(Val(s), Pow2(c), 0, Val(s));
  }

  lemma AtLeastOnce(n: int, p: int)
    requires n > 0 && p > 0
    ensures p <= n * p
  {
    MulLess(0, n, p);
    Distribute(n, -1, p);
    if n > 1 { MulLess(1, n, p); }
  }

  /**
   The last division, as the source's globals keep it: the two arrays it was asked about, and the
   array in which it left remainder and quotient.
  */
  class DivisionMemo {
    var dividend: array?<Digit>
    var dividendUsed: nat
    var divisor: array?<Digit>
    var divisorUsed: nat
    var result: array?<Digit>
    var resultUsed: nat
    var remainderUsed: nat
    var shift: nat

    /** What is remembered is what dividing again would give. */
    ghost predicate Valid()
      reads this, dividend, divisor, result
    {
      dividend != null ==>
        && divisor != null && result != null
        && dividendUsed <= dividend.Length && divisorUsed <= divisor.Length
        && remainderUsed == divisorUsed <= resultUsed <= result.Length && shift < 16
        && Answers(Val(dividend[..dividendUsed]), Val(divisor[..divisorUsed]),
                   Val(result[remainderUsed..resultUsed]), Val(result[..remainderUsed]), shift)
    }

    constructor ()
      ensures Valid()
    {
      dividend, divisor, result := null, null, null;
      dividendUsed, divisorUsed, resultUsed, remainderUsed, shift := 0, 0, 0, 0, 0;
    }

    /** A.fb: afterwards the memo holds the division of x by y, computed now or remembered. */
    method Run(x: BigInt, y: BigInt)
      requires Valid() && x.Valid() && y.Valid() && 0 < y.used <= x.used
      modifies this
      ensures Valid()
      ensures dividend == x.digits && dividendUsed == x.used
      ensures divisor == y.digits && divisorUsed == y.used
    {
      if x.used == dividendUsed && y.used == divisorUsed && x.digits == dividend && y.digits == divisor {
        return;
      }
      var n, h, q := Divide(x.digits, x.used, y.digits, y.used);
      dividend, dividendUsed, divisor, divisorUsed := x.digits, x.used, y.digits, y.used;
      result, resultUsed, remainderUsed, shift := n, h, y.used, q;
    }

    /** The magnitude of the quotient. */
    method QuotientMagnitude(x: BigInt, y: BigInt) returns (r: BigInt)
      requires Valid() && x.Valid() && y.Valid() && 0 < y.used <= x.used
      modifies this
      ensures Valid()
      ensures r.Valid() && !r.neg && y.Magnitude() > 0 && r.Magnitude() == x.Magnitude() / y.Magnitude()
    {
      Run(x, y);
      var s := resultUsed - remainderUsed;
      var d := CloneDigits(result, remainderUsed, resultUsed, s);
      r := Make(false, s, d);
    }

    /** ia: the quotient of x by y, rounded toward zero. */
    method Quotient(x: BigInt, y: BigInt) returns (r: BigInt)
      requires Valid() && x.Valid() && y.Valid() && y.used > 0
      modifies this
      ensures Valid()
      ensures r.Valid() && y.Value() != 0 && r.Value() == TruncDiv(x.Value(), y.Value())
    {
      UsedWhenNonzero(x);
      UsedWhenNonzero(y);
      SignedDivision(x.neg, x.Magnitude(), y.neg, y.Magnitude());
      if x.used < y.used {
        LongerIsLarger(y.digits[..y.used], x.digits[..x.used]);
        r := Zero();
        return;
      }
      r := QuotientMagnitude(x, y);
      UsedWhenNonzero(r);
      if x.neg != y.neg && r.used > 0 { r := Negated(r); }
    }

    /** The magnitude of the remainder, shifted back. */
    method RemainderMagnitude(x: BigInt, y: BigInt) returns (r: BigInt)
      requires Valid() && x.Valid() && y.Valid() && 0 < y.used <= x.used
      modifies this
      ensures Valid()
      ensures r.Valid() && !r.neg && y.Magnitude() > 0 && r.Magnitude() == x.Magnitude() % y.Magnitude()
    {
      Run(x, y);
      var s := CloneDigits(result, 0, remainderUsed, remainderUsed);
      assert s[..remainderUsed] == result[0..remainderUsed] == result[..remainderUsed];
      r := Make(false, remainderUsed, s);
      ShiftedBack(r.Magnitude(), Pow2(shift), x.Magnitude() % y.Magnitude());
      if shift > 0 { r := ShiftedRight(r, shift); }
    }

    /** iT: the remainder of x by y, with the sign of x. */
    method Remainder(x: BigInt, y: BigInt) returns (r: BigInt)
      requires Valid() && x.Valid() && y.Valid() && y.used > 0
      modifies this
      ensures Valid()
      ensures r.Valid() && y.Value() != 0 && r.Value() == TruncMod(x.Value(), y.Value())
    {
      UsedWhenNonzero(x);
      UsedWhenNonzero(y);
      SignedDivision(x.neg, x.Magnitude(), y.neg, y.Magnitude());
      if x.used < y.used {
        LongerIsLarger(y.digits[..y.used], x.digits[..x.used]);
        return x;
      }
      r := RemainderMagnitude(x, y);
      UsedWhenNonzero(r);
      if x.neg && r.used > 0 { r := Negated(r); }
    }
  }

  lemma ShiftedBack(x: int, t: int, rest: int)
    requires t > 0 && x == t * rest
    ensures x / t == rest
  {
    FloorUnique(x, t, rest, 0);
  }

  lemma SignedDivision(s: bool, x: nat, t: bool, y: nat)
    requires y > 0
    ensures Signed(t, y) != 0
    ensures TruncDiv(Signed(s, x), Signed(t, y)) == Signed(s != t, x / y)
    ensures TruncMod(Signed(s, x), Signed(t, y)) == Signed(s, x % y)
    ensures x < y ==> x / y == 0 && x % y == x
  {
    if x < y { FloorUnique(x, y, 0, x); }
    if x == 0 { FloorUnique(0, y, 0, 0); }
  }
}
