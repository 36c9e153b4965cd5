/** Shifting digit arrays left and right by any number of bits. */
module Shifts {
  import opened Digits

  /** 2 to the power n. */
  function Pow2(n: nat): (p: nat)
    ensures p > 0
  {
    if n == 0 then 1 else 2 * Pow2(n - 1)
  }

  lemma {:induction false} Pow2Add(m: nat, n: nat)
    ensures Pow2(m + n) == Pow2(m) * Pow2(n)
  {
    if n == 0 {
    } else {
      Pow2Add(m, n - 1);
      MulAssoc(Pow2(m), 2, Pow2(n - 1));
      MulAssoc(2, Pow2(m), Pow2(n - 1));
    }
  }

  /** The two halves of a 16-bit word. */
  lemma WordHalves(o: nat)
    requires o <= 16
    ensures Pow2(o) * Pow2(16 - o) == BASE
  {
    Pow2Add(o, 16 - o);
    assert Pow2(4) == 16;
    assert Pow2(8) == 16 * Pow2(4);
    assert Pow2(12) == 16 * Pow2(8);
    assert Pow2(16) == 16 * Pow2(12);
  }

  /** Sixteen bits make a digit. */
  lemma {:induction false} Pow2Digits(n: nat)
    ensures Pow2(16 * n) == Pow(n)
  {
    if n == 0 {
    } else {
      Pow2Digits(n - 1);
      WordHalves(16);
      Pow2Add(16, 16 * (n - 1));
    }
  }

  lemma Pow2Parts(c: nat)
    ensures Pow2(c) == Pow2(c % 16) * Pow(c / 16)
  {
    Pow2Digits(c / 16);
    Pow2Add(c % 16, 16 * (c / 16));
  }

  /** A word split by a mask of the low bits. */
  lemma SplitWord(d: Digit, t: nat, n: nat)
    requires t > 0 && n > 0 && t * n == BASE
    ensures d == (d / n) * n + d % n
    ensures 0 <= d / n < t && 0 <= (d % n) * t <= BASE - t
    ensures t * d == (d % n) * t + BASE * (d / n)
  {}

  /** Digit i of the digits s shifted left by the bits of t, where t * n is 65536. */
  function ShiftedDigit(s: seq<Digit>, t: nat, n: nat, i: nat): int
    requires i <= |s| && n > 0
  {
    (if i < |s| then (s[i] % n) * t else 0) + (if i > 0 then s[i - 1] / n else 0)
  }

  lemma ShiftedValue(s: seq<Digit>, t: nat, n: nat, d: seq<Digit>)
    requires t > 0 && n > 0 && t * n == BASE
    requires |d| == |s| + 1
    requires forall i :: 0 <= i <= |s| ==> d[i] == ShiftedDigit(s, t, n, i)
    ensures Val(d) == t * Val(s)
  {
    var columns := seq(|s|, i requires 0 <= i < |s| => t * s[i]) + [0];
    var carry := seq(|s| + 2, i requires 0 <= i < |s| + 2 => if 1 <= i <= |s| then s[i - 1] / n else 0);
    forall i | 0 <= i < |columns| ensures columns[i] + carry[i] == d[i] + BASE * carry[i + 1] {
      if i < |s| { SplitWord(s[i], t, n); }
    }
    CarryPreserves(columns, d, carry);
    ValSnoc(columns[..|s|], 0);
    assert columns == columns[..|s|] + [0];
    ValLinear(columns[..|s|], t, s, 0, s);
  }

  /** A.qD: d[c / 16..] := a[..b] shifted left by c % 16 bits, moved up by c / 16 digits. */
  method ShiftBits(a: array<Digit>, b: nat, c: nat, d: array<Digit>)
    requires b <= a.Length && b + c / 16 + 1 <= d.Length && a != d
    modifies d
    ensures Val(d[c / 16..c / 16 + b + 1]) == Pow2(c % 16) * Val(a[..b])
    ensures forall i :: 0 <= i < d.Length && !(c / 16 <= i <= c / 16 + b) ==> d[i] == old(d[i])
  {
    var p, o := c / 16, c % 16;
    var t, n := Pow2(o), Pow2(16 - o);
    WordHalves(o);
    var s, r := b, 0;
    while s > 0
      invariant 0 <= s <= b
      invariant r == if s < b then (a[s] % n) * t else 0
      invariant 0 <= r <= BASE - t
      invariant forall i :: s < i <= b ==> d[p + i] == ShiftedDigit(a[..b], t, n, i)
      invariant forall i :: 0 <= i < d.Length && !(p + s < i <= p + b) ==> d[i] == old(d[i])
    {
      s := s - 1;
      var q := a[s];
      SplitWord(q, t, n);
      d[s + p + 1] := q / n + r;
      r := (q % n) * t;
    }
    d[p] := r;
    ShiftedValue(a[..b], t, n, d[p..p + b + 1]);
  }

  /** A.oT: d[c..c + b] := a[..b] with zeros below; the number of digits in use. */
  method ShiftDigits(a: array<Digit>, b: nat, c: nat, d: array<Digit>) returns (used: nat)
    requires b <= a.Length && b + c <= d.Length
    modifies d
    ensures used == if b == 0 then 0 else b + c
    ensures Val(d[..used]) == Pow(c) * old(Val(a[..b]))
    ensures forall i :: used <= i < d.Length ==> d[i] == old(d[i])
  {
    if b == 0 { return 0; }
    if c == 0 && d == a { return b; }
    ghost var A := a[..b];
    var s := b;
    while s > 0
      invariant 0 <= s <= b
      invariant forall i :: s <= i < b ==> d[c + i] == A[i]
      invariant forall i :: 0 <= i < d.Length && !(c + s <= i < c + b) ==> d[i] == old(d[i])
    {
      s := s - 1;
      d[s + c] := a[s];
    }
    s := c;
    while s > 0
      invariant 0 <= s <= c
      invariant forall i :: s <= i < c ==> d[i] == 0
      invariant forall i :: 0 <= i < b ==> d[c + i] == A[i]
      invariant forall i :: b + c <= i < d.Length ==> d[i] == old(d[i])
    {
      s := s - 1;
      d[s] := 0;
    }
    assert d[..c + b][c..] == A;
    ValSplit(d[..c + b], c);
    ValZeros(d[..c + b][..c]);
    return b + c;
  }

  /** A.qy: d := a[..b] shifted left by c bits; the number of digits in use. */
  method ShiftLeft(a: array<Digit>, b: nat, c: nat, d: array<Digit>) returns (used: nat)
    requires b <= a.Length && b + c / 16 + 1 <= d.Length && a != d
    modifies d
    ensures used <= b + c / 16 + 1
    ensures Val(d[..used]) == Pow2(c) * Val(a[..b])
    ensures b > 0 ==> used >= b + c / 16
    ensures used == b + c / 16 + 1 ==> d[used - 1] != 0
  {
    var p := c / 16;
    Pow2Parts(c);
    if c % 16 == 0 {
      used := ShiftDigits(a, b, p, d);
      return;
    }
    var s := b + p + 1;
    ShiftBits(a, b, c, d);
    ghost var high := d[p..s];
    var r := p;
    while r > 0
      invariant 0 <= r <= p
      invariant forall i :: r <= i < p ==> d[i] == 0
      invariant d[p..s] == high
    {
      r := r - 1;
      d[r] := 0;
    }
    var q := s - 1;
    used := if d[q] == 0 then q else s;
    ShiftedUp(d[..s], p, Pow2(c % 16), Val(a[..b]));
    if d[q] == 0 {
      assert d[..s] == d[..q] + [0];
      ValSnoc(d[..q], 0);
    }
  }

  lemma ShiftedUp(d: seq<Digit>, p: nat, t: nat, v: int)
    requires p <= |d| && forall i :: 0 <= i < p ==> d[i] == 0
    requires Val(d[p..]) == t * v
    ensures Val(d) == (t * Pow(p)) * v
  {
    ValSplit(d, p);
    ValZeros(d[..p]);
    MulAssoc(t, v, Pow(p));
    MulAssoc(t, Pow(p), v);
  }

  lemma RightStep(v: int, d: int, p: int, n: int, carry: int, a: int, low: int)
    requires n * d == BASE * carry + a - low
    ensures n * (v + d * p) == n * v + carry * (BASE * p) + a * p - low * p
  {}

  lemma RightDigit(carry: int, t: nat, n: nat, a: Digit)
    requires t > 0 && n > 0 && t * n == BASE
    ensures n * (carry * t + a / n) == BASE * carry + a - a % n
  {
    SplitWord(a, t, n);
    MulAssoc(carry, t, n);
    Distribute(carry * t, a / n, n);
  }

  lemma {:induction false} ShiftedRightValue(a: seq<Digit>, d: seq<Digit>, t: nat, n: nat)
    requires t > 0 && n > 0 && t * n == BASE
    requires |d| <= |a| && a != []
    requires forall i :: 0 <= i < |d| ==> HandedDown(a, d[i], i, t, n)
    ensures n * Val(d) + a[0] % n == Val(a[..|d|]) + (if |d| < |a| then a[|d|] % n else 0) * Pow(|d|)
  {
    if d == [] {
    } else {
      var i := |d| - 1;
      var carry := NextBits(a, i, n);
      ShiftedRightValue(a, d[..i], t, n);
      assert a[..|d|][..i] == a[..i];
      RightDigit(carry, t, n, a[i]);
      RightStep(Val(d[..i]), d[i], Pow(i), n, carry, a[i], a[i] % n);
    }
  }

  /** The bits that digit i + 1 hands down to digit i. */
  function NextBits(a: seq<Digit>, i: nat, n: nat): nat
    requires i < |a| && n > 0
  {
    if i + 1 < |a| then a[i + 1] % n else 0
  }

  /** Digit i of the number shifted right within its words: its own upper bits, and the bits handed down to it. */
  ghost predicate HandedDown(a: seq<Digit>, d: Digit, i: nat, t: nat, n: nat)
    requires i < |a| && n > 0
  {
    d == NextBits(a, i, n) * t + a[i] / n
  }

  /** A.uZ: d[..b - c / 16] := a[..b] shifted right by c bits. */
  method ShiftRight(a: array<Digit>, b: nat, c: nat, d: array<Digit>)
    requires c / 16 < b <= a.Length && b - c / 16 <= d.Length && a != d
    modifies d
    ensures Val(d[..b - c / 16]) == Val(a[..b]) / Pow2(c)
  {
    var q, p := c / 16, c % 16;
    var t, n := Pow2(16 - p), Pow2(p);
    WordHalves(p);
    ghost var high := a[q..b];
    SplitWord(a[q], t, n);
    var m := a[q] / n;
    var l := b - q - 1;
    var s := 0;
    while s < l
      invariant 0 <= s <= l && a[q..b] == high
      invariant m == high[s] / n && 0 <= m < t
      invariant forall i :: 0 <= i < s ==> HandedDown(high, d[i], i, t, n)
    {
      d[s], m := NextRight(a[s + q + 1], high[s], m, t, n);
      assert high[s + 1] == a[s + q + 1];
      s := s + 1;
    }
    d[l] := m;
    assert HandedDown(high, d[l], l, t, n);
    assert a[..b][q..] == high;
    FloorOfHigh(a[..b], d[..b - q], q, c, t, n);
  }

  /** One turn of the loop of A.uZ: the bits m of the digit before, with those that r hands down. */
  method NextRight(r: Digit, ghost before: Digit, m: nat, t: nat, n: nat) returns (digit: Digit, rest: nat)
    requires t > 0 && n > 0 && t * n == BASE && m == before / n < t
    ensures digit == (r % n) * t + before / n && rest == r / n < t
  {
    SplitWord(r, t, n);
    SplitWord(before, t, n);
    digit, rest := (r % n) * t + m, r / n;
  }

  lemma FloorOfHigh(a: seq<Digit>, d: seq<Digit>, q: nat, c: nat, t: nat, n: nat)
    requires q == c / 16 < |a| && |d| == |a| - q
    requires n == Pow2(c % 16) && t > 0 && t * n == BASE
    requires forall i :: 0 <= i < |d| ==> HandedDown(a[q..], d[i], i, t, n)
    ensures Val(d) == Val(a) / Pow2(c)
  {
    var high := a[q..];
    HighValue(high, d, t, n);
    ValSplit(a, q);
    ValBound(a[..q]);
    Pow2Parts(c);
    FloorRest(Val(a), Val(d), n, Pow(q), high[0] % n, Val(a[..q]));
  }

  lemma HighValue(high: seq<Digit>, d: seq<Digit>, t: nat, n: nat)
    requires t > 0 && n > 0 && t * n == BASE && |d| == |high| > 0
    requires forall i :: 0 <= i < |d| ==> HandedDown(high, d[i], i, t, n)
    ensures n * Val(d) + high[0] % n == Val(high)
  {
    ShiftedRightValue(high, d, t, n);
    assert high[..|d|] == high;
  }

  /** The bits that a shift to the right drops: some of digit c / 16, and all digits below it. */
  lemma DroppedBits(a: seq<Digit>, c: nat)
    requires c / 16 < |a|
    ensures var q := c / 16;
      Pow2(c) > 0 && Pow2(c % 16) > 0 && Val(a) % Pow2(c) == (a[q] % Pow2(c % 16)) * Pow(q) + Val(a[..q])
  {
    var q, n := c / 16, Pow2(c % 16);
    var v := WithoutBits(a[q..], n, c % 16);
    ValSplit(a, q);
    ValBound(a[..q]);
    Pow2Parts(c);
    FloorRest(Val(a), v, n, Pow(q), a[q] % n, Val(a[..q]));
  }

  /** A shift by whole digits drops these digits. */
  lemma DroppedDigits(a: seq<Digit>, c: nat)
    requires c / 16 <= |a| && c % 16 == 0
    ensures Pow2(c) > 0 && Val(a[c / 16..]) == Val(a) / Pow2(c)
  {
    var q := c / 16;
    ValSplit(a, q);
    ValBound(a[..q]);
    Pow2Digits(q);
    FloorUnique(Val(a), Pow(q), Val(a[q..]), Val(a[..q]));
  }

  /** A number without the bits below the mask n. */
  lemma WithoutBits(high: seq<Digit>, n: nat, bits: nat) returns (v: int)
    requires high != [] && bits < 16 && n == Pow2(bits)
    ensures n > 0 && Val(high) == n * v + high[0] % n
  {
    var top, above := high[0], Val(high[1..]);
    assert high[..1] == [] + [top];
    ValSplit(high, 1);
    ValSnoc([], top);
    TopOfHigh(top, above, n, bits);
    v := top / n + above * (BASE / n);
  }

  /** A digit and what lies above it, divided by a part of a digit. */
  lemma TopOfHigh(digit: nat, above: int, n: nat, bits: nat)
    requires bits < 16 && n == Pow2(bits)
    ensures n > 0 && digit + above * BASE == n * (digit / n + above * (BASE / n)) + digit % n
  {
    WordHalves(bits);
    var t := Pow2(16 - bits);
    FloorUnique(BASE, n, t, 0);
    assert digit == n * (digit / n) + digit % n;
    MulAssoc(above, t, n);
    Distribute(digit / n, above * t, n);
  }

  /** Dropping the bits below both the mask n and the digits below the weight p. */
  lemma FloorRest(x: int, v: int, n: int, p: int, rest: int, low: int)
    requires n > 0 && p > 0 && n * p > 0
    requires 0 <= rest < n && 0 <= low < p
    requires x == (n * v + rest) * p + low
    ensures v == x / (n * p) && x % (n * p) == rest * p + low
  {
    MulAssoc(v, n, p);
    Distribute(n * v, rest, p);
    MulLess(rest, n - 1, p);
    Distribute(n, -1, p);
    FloorUnique(x, n * p, v, rest * p + low);
  }

  lemma FloorUnique(x: int, y: int, quotient: int, rest: int)
    requires y > 0 && x == quotient * y + rest && 0 <= rest < y
    ensures quotient == x / y && rest == x % y
  {
    var z := x / y - quotient;
    Distribute(x / y, -quotient, y);
    MulLess(z, 1, y);
    MulLess(-1, z, y);
  }
}
