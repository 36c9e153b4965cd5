/**
 Little-endian digit arrays in base 65536, as the worker's integer class stores them,
 and the in-place routines that work on them.

 A Uint16Array keeps its elements between 0 and 65535, every intermediate value below stays
 under 2^33, and a JavaScript number holds such values exactly, so the routines are stated
 over mathematical integers. A mask with 65535 is written as a remainder, a shift as a
 product or a quotient, and an `or` of two words without a common bit as a sum.
*/
module Digits {

  const BASE := 0x1_0000

  type Digit = d: int | 0 <= d < 0x1_0000

  /** 65536 to the power n. */
  function Pow(n: nat): (p: nat)
    ensures p > 0
  {
    if n == 0 then 1 else BASE * Pow(n - 1)
  }

  /** The value of the columns s, least significant first; for digits, the number they represent. */
  function Val(s: seq<int>): int
  {
    if s == [] then 0 else Val(s[..|s| - 1]) + s[|s| - 1] * Pow(|s| - 1)
  }

  // ----- Products -----

  lemma Distribute(x: int, y: int, z: int)
    ensures (x + y) * z == x * z + y * z
  {}

  lemma MulAssoc(x: int, y: int, z: int)
    ensures (x * y) * z == x * (y * z)
  {}

  lemma MulLess(x: int, y: int, z: int)
    requires z > 0
    ensures x < y <==> x * z < y * z
    ensures x <= y <==> x * z <= y * z
  {}

  lemma {:induction false} PowAdd(m: nat, n: nat)
    ensures Pow(m + n) == Pow(m) * Pow(n)
  {
    if n == 0 {
    } else {
      PowAdd(m, n - 1);
      MulAssoc(Pow(m), BASE, Pow(n - 1));
      MulAssoc(BASE, Pow(m), Pow(n - 1));
    }
  }

  lemma {:induction false} PowMono(m: nat, n: nat)
    requires m <= n
    ensures Pow(m) <= Pow(n)
  {
    if m == n {
    } else {
      PowMono(m, n - 1);
    }
  }

  // ----- Values -----

  lemma ValSnoc(s: seq<int>, d: int)
    ensures Val(s + [d]) == Val(s) + d * Pow(|s|)
  {
    assert (s + [d])[..|s|] == s;
  }

  lemma {:induction false} ValBound(s: seq<Digit>)
    ensures 0 <= Val(s) < Pow(|s|)
  {
    if s == [] {
    } else {
      ValBound(s[..|s| - 1]);
      MulLess(s[|s| - 1], 0xFFFF, Pow(|s| - 1));
      MulLess(0, s[|s| - 1], Pow(|s| - 1));
    }
  }

  /** The high part of a number counts with the weight of the digits below it. */
  lemma {:induction false} ValConcat(s: seq<int>, t: seq<int>)
    ensures Val(s + t) == Val(s) + Val(t) * Pow(|s|)
  {
    if t == [] {
      assert s + t == s;
    } else {
      var t', d := t[..|t| - 1], t[|t| - 1];
      assert s + t == (s + t') + [d];
      ValSnoc(s + t', d);
      ValConcat(s, t');
      PowAdd(|t'|, |s|);
      MulAssoc(d, Pow(|t'|), Pow(|s|));
      Distribute(Val(t'), d * Pow(|t'|), Pow(|s|));
    }
  }

  lemma ValSplit(s: seq<int>, k: nat)
    requires k <= |s|
    ensures Val(s) == Val(s[..k]) + Val(s[k..]) * Pow(k)
  {
    assert s == s[..k] + s[k..];
    ValConcat(s[..k], s[k..]);
  }

  /** A number equal to low + high * 65536^k is stored as those two parts. */
  lemma ValParts(s: seq<Digit>, k: nat, low: int, high: int)
    requires k <= |s|
    requires 0 <= low < Pow(k)
    requires Val(s) == low + high * Pow(k)
    ensures Val(s[..k]) == low && Val(s[k..]) == high
  {
    ValSplit(s, k);
    ValBound(s[..k]);
    Distribute(Val(s[k..]) - high, high, Pow(k));
    MulLess(Val(s[k..]) - high, 1, Pow(k));
    MulLess(-1, Val(s[k..]) - high, Pow(k));
  }

  lemma {:induction false} ValZeros(s: seq<int>)
    requires forall i :: 0 <= i < |s| ==> s[i] == 0
    ensures Val(s) == 0
  {
    if s == [] {
    } else {
      ValZeros(s[..|s| - 1]);
    }
  }

  /** Only zeros make a number zero. */
  lemma {:induction false} NonzeroDigit(s: seq<Digit>, k: nat)
    requires k < |s| && s[k] != 0
    ensures Val(s) > 0
  {
    var n := |s| - 1;
    ValBound(s[..n]);
    if k == n {
    } else {
      NonzeroDigit(s[..n], k);
    }
    PositiveSum(Val(s[..n]), s[n], Pow(n));
  }

  lemma PositiveSum(low: int, digit: int, p: int)
    requires low >= 0 && digit >= 0 && p > 0 && (low > 0 || digit > 0)
    ensures low + digit * p > 0
  {
    if digit > 0 { MulLess(0, digit, p); }
  }

  lemma LinearStep(x: int, u: int, du: int, y: int, v: int, dv: int, p: int)
    ensures x * u + y * v + (x * du + y * dv) * p == x * (u + du * p) + y * (v + dv * p)
  {}

  /** Column-wise combinations combine the values. */
  lemma {:induction false} ValLinear(t: seq<int>, x: int, u: seq<int>, y: int, v: seq<int>)
    requires |t| == |u| == |v|
    requires forall i :: 0 <= i < |t| ==> t[i] == x * u[i] + y * v[i]
    ensures Val(t) == x * Val(u) + y * Val(v)
  {
    if t == [] {
    } else {
      var n := |t| - 1;
      ValLinear(t[..n], x, u[..n], y, v[..n]);
      LinearStep(x, Val(u[..n]), u[n], y, Val(v[..n]), v[n], Pow(n));
    }
  }

  /** With no leading zero, the top digit alone bounds the number from below. */
  lemma ValTop(s: seq<Digit>)
    requires s != []
    ensures s[|s| - 1] * Pow(|s| - 1) <= Val(s) < (s[|s| - 1] + 1) * Pow(|s| - 1)
  {
    ValBound(s[..|s| - 1]);
    Distribute(s[|s| - 1], 1, Pow(|s| - 1));
  }

  lemma LongerIsLarger(s: seq<Digit>, t: seq<Digit>)
    requires |s| > |t| && s[|s| - 1] != 0
    ensures Val(s) > Val(t)
  {
    ValTop(s);
    ValBound(t);
    MulLess(1, s[|s| - 1], Pow(|s| - 1));
    PowMono(|t|, |s| - 1);
  }

  /** The highest differing digit decides a comparison. */
  lemma {:induction false} TopDecides(s: seq<Digit>, t: seq<Digit>, i: nat)
    requires |s| == |t| && i < |s| && s[i + 1..] == t[i + 1..]
    requires s[i] < t[i]
    ensures Val(s) < Val(t)
  {
    var n := |s| - 1;
    if i == n {
      ValTop(s);
      ValTop(t);
      MulLess(s[n] as int + 1, t[n], Pow(n));
    } else {
      assert s[n] == s[i + 1..][n - i - 1] == t[n];
      assert s[..n][i + 1..] == s[i + 1..][..n - i - 1] == t[..n][i + 1..];
      TopDecides(s[..n], t[..n], i);
    }
  }

  // ----- Carrying -----

  /** The columns of x * u + v, where u may be the shorter number. */
  lemma ColumnsOf(x: int, u: seq<int>, v: seq<int>) returns (t: seq<int>)
    requires |u| <= |v|
    ensures |t| == |v| && Val(t) == x * Val(u) + Val(v)
    ensures forall i :: 0 <= i < |u| ==> t[i] == x * u[i] + v[i]
    ensures forall i :: |u| <= i < |v| ==> t[i] == v[i]
  {
    t := seq(|v|, i requires 0 <= i < |v| => if i < |u| then x * u[i] + v[i] else v[i]);
    var low := t[..|u|];
    ValLinear(low, x, u, 1, v[..|u|]);
    assert t == low + v[|u|..];
    ValConcat(low, v[|u|..]);
    ValSplit(v, |u|);
  }

  /**
   The outcome of a carry loop over the columns t: each column plus the carry into it splits into
   the digit it keeps and the carry out of it.
  */
  ghost predicate Carries(t: seq<int>, kept: seq<Digit>, carry: seq<int>) {
    && |kept| == |t| && |carry| == |t| + 1
    && carry[0] == 0
    && forall i :: 0 <= i < |t| ==> t[i] + carry[i] == kept[i] + BASE * carry[i + 1]
  }

  lemma {:induction false} Reduce(t: seq<int>) returns (kept: seq<Digit>, carry: seq<int>)
    ensures Carries(t, kept, carry)
  {
    if t == [] {
      kept, carry := [], [0];
    } else {
      var n := |t| - 1;
      var k, c := Reduce(t[..n]);
      kept, carry := k + [(t[n] + c[n]) % BASE], c + [(t[n] + c[n]) / BASE];
    }
  }

  /** Carrying keeps the value, up to the carry out of the top column. */
  lemma {:induction false} CarryPreserves(t: seq<int>, kept: seq<Digit>, carry: seq<int>)
    requires Carries(t, kept, carry)
    ensures Val(kept) + carry[|t|] * Pow(|t|) == Val(t)
    ensures 0 <= Val(kept) < Pow(|t|)
  {
    ValBound(kept);
    if t == [] {
    } else {
      var n := |t| - 1;
      CarryPreserves(t[..n], kept[..n], carry[..n + 1]);
      var p, q := Pow(n), carry[n + 1];
      Distribute(t[n], carry[n], p);
      Distribute(kept[n], BASE * q, p);
      MulAssoc(q, BASE, p);
    }
  }

  // ----- Routines -----

  /** A.aJ: the number of digits left when leading zeros are dropped. */
  method Used(a: nat, b: array<Digit>) returns (n: nat)
    requires a <= b.Length
    ensures n <= a && (n > 0 ==> b[n - 1] != 0)
    ensures Val(b[..n]) == Val(b[..a])
  {
    n := a;
    while n > 0 && b[n - 1] == 0
      invariant n <= a
      invariant Val(b[..n]) == Val(b[..a])
    {
      assert b[..n] == b[..n - 1] + [b[n - 1]];
      ValSnoc(b[..n - 1], b[n - 1]);
      n := n - 1;
    }
  }

  /** A.oS: a fresh array of d digits holding a[b..c] and then zeros. */
  method CloneDigits(a: array<Digit>, b: nat, c: nat, d: nat) returns (r: array<Digit>)
    requires b <= c <= a.Length && c - b <= d
    ensures fresh(r) && r.Length == d
    ensures r[..c - b] == a[b..c] && forall i :: c - b <= i < d ==> r[i] == 0
  {
    r := new Digit[d](_ => 0);
    var s := 0;
    while s < c - b
      invariant 0 <= s <= c - b
      invariant forall i :: 0 <= i < s ==> r[i] == a[b + i]
      invariant forall i :: s <= i < d ==> r[i] == 0
    {
      r[s] := a[b + s];
      s := s + 1;
    }
  }

  /** A.lZ: the sign of the comparison of two numbers given by their used digits. */
  method Compare(a: array<Digit>, b: nat, c: array<Digit>, d: nat) returns (r: int)
    requires b <= a.Length && d <= c.Length
    requires b == d || ((b > 0 ==> a[b - 1] != 0) && (d > 0 ==> c[d - 1] != 0))
    ensures r > 0 <==> Val(a[..b]) > Val(c[..d])
    ensures r < 0 <==> Val(a[..b]) < Val(c[..d])
  {
    r := b - d;
    if r == 0 {
      var s: nat := b;
      while s > 0
        invariant s <= b
        invariant r == 0
        invariant a[s..b] == c[s..b]
      {
        r := a[s - 1] as int - c[s - 1] as int;
        if r != 0 {
          if r < 0 { TopDecides(a[..b], c[..b], s - 1); } else { TopDecides(c[..b], a[..b], s - 1); }
          return;
        }
        s := s - 1;
      }
      assert a[..b] == a[0..b] == c[0..b] == c[..b];
    } else if r > 0 {
      LongerIsLarger(a[..b], c[..d]);
    } else {
      LongerIsLarger(c[..d], a[..b]);
    }
  }

  /** The second loop of A.uV and of A.i4: the carry or borrow s passes through a[d..b]. */
  method CarryThrough(a: array<Digit>, d: nat, b: nat, e: array<Digit>, s0: int,
                      ghost t: seq<int>, ghost kept: seq<Digit>, ghost carry: seq<int>)
    returns (s: int)
    requires d <= b <= a.Length && b <= e.Length
    requires Carries(t, kept, carry) && |t| == b && s0 == carry[d] && -1 <= s0 <= 1
    requires forall i :: d <= i < b ==> t[i] == a[i]
    modifies e
    ensures s == carry[b] && (s0 >= 0 ==> 0 <= s <= 1) && (s0 <= 0 ==> -1 <= s <= 0)
    ensures forall i :: d <= i < b ==> e[i] == kept[i]
    ensures forall i :: 0 <= i < d || b <= i < e.Length ==> e[i] == old(e[i])
  {
    s := s0;
    for r := d to b
      invariant s == carry[r] && (s0 >= 0 ==> 0 <= s <= 1) && (s0 <= 0 ==> -1 <= s <= 0)
      invariant forall i :: d <= i < r ==> e[i] == kept[i]
      invariant forall i :: 0 <= i < d || r <= i < e.Length ==> e[i] == old(e[i])
    {
      s := s + a[r];
      e[r], s := s % BASE, s / BASE;
    }
  }

  /** A.uV: e[..b + 1] := a[..b] + c[..d]. */
  method AbsAdd(a: array<Digit>, b: nat, c: array<Digit>, d: nat, e: array<Digit>)
    requires d <= b <= a.Length && d <= c.Length && b < e.Length
    requires e != a && e != c
    modifies e
    ensures Val(e[..b + 1]) == Val(a[..b]) + Val(c[..d])
    ensures forall i :: b < i < e.Length ==> e[i] == old(e[i])
  {
    ghost var t := ColumnsOf(1, c[..d], a[..b]);
    ghost var kept, carry := Reduce(t);
    var s, r := 0, 0;
    while r < d
      invariant 0 <= r <= d && 0 <= s <= 1 && s == carry[r]
      invariant forall i :: 0 <= i < r ==> e[i] == kept[i]
      invariant forall i :: r <= i < e.Length ==> e[i] == old(e[i])
    {
      s := s + (a[r] as int + c[r] as int);
      e[r], s, r := s % BASE, s / BASE, r + 1;
    }
    s := CarryThrough(a, d, b, e, s, t, kept, carry);
    e[b] := s;
    assert e[..b + 1] == kept + [s];
    AddTop(t, kept, carry);
  }

  lemma AddTop(t: seq<int>, kept: seq<Digit>, carry: seq<int>)
    requires Carries(t, kept, carry)
    ensures Val(kept + [carry[|t|]]) == Val(t)
  {
    CarryPreserves(t, kept, carry);
    ValSnoc(kept, carry[|t|]);
  }

  /** What the borrow loop leaves: the difference, wrapped around once when it is negative. */
  function Wrapped(x: int, b: nat): int {
    if x < 0 then x + Pow(b) else x
  }

  lemma SubTop(t: seq<int>, kept: seq<Digit>, carry: seq<int>)
    requires Carries(t, kept, carry) && -1 <= carry[|t|] <= 0
    ensures Val(kept) == Wrapped(Val(t), |t|)
  {
    CarryPreserves(t, kept, carry);
    WrapOnce(Val(kept), carry[|t|], Pow(|t|), Val(t));
  }

  lemma WrapOnce(v: int, c: int, p: int, x: int)
    requires v + c * p == x && 0 <= v < p && -1 <= c <= 0
    ensures v == if x < 0 then x + p else x
  {}

  /** A.i4: e[..b] := a[..b] - c[..d], where e may be a itself. */
  method AbsSub(a: array<Digit>, b: nat, c: array<Digit>, d: nat, e: array<Digit>)
    requires d <= b <= a.Length && d <= c.Length && b <= e.Length
    requires e != c
    modifies e
    ensures Val(e[..b]) == Wrapped(old(Val(a[..b])) - Val(c[..d]), b)
    ensures forall i :: b <= i < e.Length ==> e[i] == old(e[i])
  {
    ghost var t := ColumnsOf(-1, c[..d], a[..b]);
    ghost var kept, carry := Reduce(t);
    var s, r := 0, 0;
    while r < d
      invariant 0 <= r <= d && -1 <= s <= 0 && s == carry[r]
      invariant forall i :: 0 <= i < r ==> e[i] == kept[i]
      invariant forall i :: r <= i < e.Length ==> e[i] == old(e[i])
    {
      s := s + (a[r] as int - c[r] as int);
      e[r], s, r := s % BASE, s / BASE, r + 1;
    }
    s := CarryThrough(a, d, b, e, s, t, kept, carry);
    assert e[..b] == kept;
    SubTop(t, kept, carry);
  }

  /** A sum that fits carries nothing out of its top column. */
  lemma FitsNoCarry(t: seq<int>, kept: seq<Digit>, carry: seq<int>)
    requires Carries(t, kept, carry)
    requires Val(t) < Pow(|t|) && carry[|t|] >= 0
    ensures carry[|t|] == 0
  {
    CarryPreserves(t, kept, carry);
    MulLess(carry[|t|], 1, Pow(|t|));
  }

  /** Once a column of digits receives no carry, it and the digits above it stay as they are. */
  lemma {:induction false} CarryStops(t: seq<int>, kept: seq<Digit>, carry: seq<int>, m: nat, n: nat)
    requires Carries(t, kept, carry)
    requires m <= n <= |t| && carry[m] == 0
    requires forall i :: m <= i < n ==> 0 <= t[i] < BASE
    ensures carry[n] == 0
    ensures forall i :: m <= i < n ==> kept[i] == t[i]
  {
    if m == n {
    } else {
      CarryStops(t, kept, carry, m, n - 1);
    }
  }

  /** A multiply-and-add loop that stops at column i, the first one past f without a carry. */
  lemma MulAddTop(t: seq<int>, kept: seq<Digit>, carry: seq<int>, d: seq<Digit>, i: nat)
    requires Carries(t, kept, carry)
    requires i <= |t| == |d| && carry[i] == 0
    requires forall j :: 0 <= j < i ==> d[j] == kept[j]
    requires forall j :: i <= j < |t| ==> d[j] == t[j]
    ensures Val(d) == Val(t)
  {
    CarryStops(t, kept, carry, i, |t|);
    assert d == kept;
    CarryPreserves(t, kept, carry);
  }

  /** The product of two digits fits in two digits. */
  lemma ProductFits(x: Digit, y: Digit)
    ensures 0 <= x * y <= 0xFFFF * 0xFFFF
  {
    MulLess(x, 0xFFFF, if y == 0 then 1 else y);
  }

  /**
   A.qE: adds a * b[c..c + f] to the digits of d from position e on. Carrying stops below
   position top whenever the sum fits in d[e..top].
  */
  method MulAdd(a: Digit, b: array<Digit>, c: nat, d: array<Digit>, e: nat, f: nat, ghost top: nat)
    requires c + f <= b.Length && e + f <= top <= d.Length
    requires b != d
    requires a * Val(b[c..c + f]) + Val(d[e..top]) < Pow(top - e)
    modifies d
    ensures Val(d[e..top]) == old(Val(d[e..top])) + a * Val(b[c..c + f])
    ensures forall i :: 0 <= i < e || top <= i < d.Length ==> d[i] == old(d[i])
  {
    if a == 0 { return; }
    ghost var t := ColumnsOf(a, b[c..c + f], d[e..top]);
    ghost var kept, carry := Reduce(t);
    var s := MulColumns(a, b, c, d, e, f, t, kept, carry);
    var i := PropagateCarry(d, e, f, s, t, kept, carry);
    MulAddTop(t, kept, carry, d[e..top], i);
  }

  /** The first loop of A.qE. */
  method MulColumns(a: Digit, b: array<Digit>, c: nat, d: array<Digit>, e: nat, f: nat,
                    ghost t: seq<int>, ghost kept: seq<Digit>, ghost carry: seq<int>)
    returns (s: int)
    requires c + f <= b.Length && f <= |t| && e + |t| <= d.Length && b != d
    requires Carries(t, kept, carry)
    requires forall i :: 0 <= i < f ==> t[i] == a * b[c + i] + d[e + i]
    modifies d
    ensures 0 <= s < BASE && s == carry[f]
    ensures forall j :: 0 <= j < f ==> d[e + j] == kept[j]
    ensures forall j :: 0 <= j < d.Length && !(e <= j < e + f) ==> d[j] == old(d[j])
  {
    s := 0;
    for i := 0 to f
      invariant 0 <= s < BASE && s == carry[i]
      invariant forall j :: 0 <= j < i ==> d[e + j] == kept[j]
      invariant forall j :: 0 <= j < d.Length && !(e <= j < e + i) ==> d[j] == old(d[j])
    {
      ProductFits(a, b[c + i]);
      var q := a * b[c + i] + d[e + i] + s;
      d[e + i], s := q % BASE, q / BASE;
    }
  }

  /** The second loop of A.qE: carries s from column i of d[e..] on, until nothing is left to carry. */
  method PropagateCarry(d: array<Digit>, e: nat, i0: nat, s0: int,
                        ghost t: seq<int>, ghost kept: seq<Digit>, ghost carry: seq<int>)
    returns (i: nat)
    requires Carries(t, kept, carry) && Val(t) < Pow(|t|)
    requires i0 <= |t| && e + |t| <= d.Length && 0 <= s0 < BASE && s0 == carry[i0]
    requires forall j :: i0 <= j < |t| ==> t[j] == d[e + j]
    modifies d
    ensures i0 <= i <= |t| && carry[i] == 0
    ensures forall j :: i0 <= j < i ==> d[e + j] == kept[j]
    ensures forall j :: 0 <= j < d.Length && !(e + i0 <= j < e + i) ==> d[j] == old(d[j])
  {
    var s := s0;
    i := i0;
    if i == |t| { FitsNoCarry(t, kept, carry); }
    while s != 0
      invariant i0 <= i <= |t| && 0 <= s < BASE && s == carry[i]
      invariant forall j :: i0 <= j < i ==> d[e + j] == kept[j]
      invariant forall j :: 0 <= j < d.Length && !(e + i0 <= j < e + i) ==> d[j] == old(d[j])
      invariant i == |t| ==> s == 0
      decreases |t| - i
    {
      var o := d[e + i] + s;
      d[e + i], s, i := o % BASE, o / BASE, i + 1;
      if i == |t| { FitsNoCarry(t, kept, carry); }
    }
  }
}
