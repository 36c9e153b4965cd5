/**
 A.fb, the in-place long division of the worker's integer class: the running remainder is
 divided inside its own array, which ends up holding the remainder in its low digits and the
 quotient in its high digits.
*/
module Division {
  import opened Digits
  import opened Shifts

  // ----- The one-digit estimate -----

  /** A.uW: the estimate of one quotient digit from the two top digits r, x and the divisor's top digit a. */
  function Estimate(a: Digit, r: Digit, x: Digit): (s: Digit)
    requires a > 0
  {
    if r == a then 0xFFFF
    else
      var s: int := (r * BASE + x) / a;
      if s > 0xFFFF then 0xFFFF else s
  }

  /** The estimate is never smaller than the quotient digit it stands for. */
  lemma EstimateNotTooSmall(w: seq<Digit>, p: seq<Digit>)
    requires |p| > 0 && |w| == |p| + 1 && p[|p| - 1] > 0
    requires Val(w) < Val(p) * BASE
    ensures Val(w) < (Estimate(p[|p| - 1], w[|p|], w[|p| - 1]) + 1) * Val(p)
  {
    var o := |p|;
    TwoTopDigits(w);
    ValTop(p);
    var a: int, top: int := p[o - 1], w[o] * BASE + w[o - 1];
    RoundedUp(Val(w), Val(p), Pow(o - 1), a, top, top / a);
  }

  lemma RoundedUp(w: int, p: int, weight: int, a: int, top: int, s: int)
    requires weight > 0 && a > 0 && s == top / a && top >= 0
    requires a * weight <= p && w < (top + 1) * weight
    ensures w < (s + 1) * p
  {
    Distribute(s, 1, a);
    MulLess(top + 1, (s + 1) * a, weight);
    MulAssoc(s + 1, a, weight);
    MulLess(a * weight, p, s + 1);
  }

  lemma TwoTopDigits(w: seq<Digit>)
    requires |w| >= 2
    ensures Val(w) < (w[|w| - 1] * BASE + w[|w| - 2] + 1) * Pow(|w| - 2)
  {
    var n := |w| - 2;
    var y: int, x: int := w[n + 1], w[n];
    assert w == w[..n] + [w[n]] + [w[n + 1]];
    ValSnoc(w[..n], x);
    ValSnoc(w[..n] + [w[n]], y);
    ValBound(w[..n]);
    MulAssoc(y, BASE, Pow(n));
    Distribute(y * BASE, x + 1, Pow(n));
    Distribute(x, 1, Pow(n));
  }

  // ----- One quotient digit -----

  /**
   The window of o + 1 digits from position k of n: the value below it, its own value, and the
   value above it.
  */
  ghost predicate Window(n: seq<Digit>, k: nat, o: nat, low: int, w: int, high: int)
  {
    && k + o < |n|
    && Val(n[..k]) == low
    && Val(n[k..k + o + 1]) == w
    && Val(n[k + o + 1..]) == high
  }

  lemma Slices(n: seq<Digit>, k: nat, o: nat)
    requires k + o < |n|
    ensures n[k..][..o + 1] == n[k..k + o + 1] && n[k..][o + 1..] == n[k + o + 1..]
    ensures n[k..k + o + 1][..o] == n[k..k + o] && n[k..k + o + 1][o] == n[k + o]
  {}

  /** The digits from k on are the window and what lies above it. */
  lemma WindowUp(n: seq<Digit>, k: nat, o: nat, low: int, w: int, high: int)
    requires Window(n, k, o, low, w, high)
    ensures w <= Val(n[k..]) == w + high * Pow(o + 1)
    ensures 0 <= low < Pow(k) && 0 <= w < Pow(o + 1) && 0 <= high
  {
    ValSplit(n[k..], o + 1);
    Slices(n, k, o);
    ValBound(n[..k]);
    ValBound(n[k..k + o + 1]);
    ValBound(n[k + o + 1..]);
    MulLess(0, high, Pow(o + 1));
  }

  lemma MinusUp(v: int, low: int, up: int, g: int, p: int)
    requires v == low + up * p && 0 <= low && p > 0 && 0 <= g <= up
    ensures 0 <= v - p * g == low + (up - g) * p
  {
    Distribute(up - g, g, p);
    MulLess(0, up - g, p);
  }

  /** Subtracting g, moved up by k digits, leaves the digits below k alone. */
  lemma MinusAbove(n: seq<Digit>, n': seq<Digit>, k: nat, g: int)
    requires k <= |n| == |n'| && 0 <= g <= Val(n[k..])
    requires Val(n') == Wrapped(Val(n) - Pow(k) * g, |n|)
    ensures Val(n'[..k]) == Val(n[..k]) && Val(n'[k..]) == Val(n[k..]) - g
  {
    ValSplit(n, k);
    ValBound(n[..k]);
    var low, up := Val(n[..k]), Val(n[k..]) - g;
    MinusUp(Val(n), low, Val(n[k..]), g, Pow(k));
    assert Val(n') == low + up * Pow(k);
    ValParts(n', k, low, up);
  }

  /** Subtracting g, moved up to the window, only changes the window. */
  lemma WindowMinus(n: seq<Digit>, n': seq<Digit>, k: nat, o: nat, low: int, w: int, high: int, g: int)
    requires Window(n, k, o, low, w, high) && |n'| == |n|
    requires 0 <= g <= w
    requires Val(n') == Wrapped(Val(n) - Pow(k) * g, |n|)
    ensures Window(n', k, o, low, w - g, high)
  {
    WindowUp(n, k, o, low, w, high);
    MinusAbove(n, n', k, g);
    ValParts(n'[k..], o + 1, w - g, high);
    Slices(n', k, o);
  }

  /**
   The state between two corrections of the trial digit e: the window holds what adding e times
   the negated divisor to its first value w0 gives, that is e on top and w0 - e * p below.
  */
  ghost predicate Trying(n: seq<Digit>, k: nat, o: nat, low: int, high: int, w0: int, p: int, e: nat, rest: int)
  {
    && 0 < p < Pow(o) && 0 <= w0
    && rest + Times(e, p) == w0 && rest < p
    && Window(n, k, o, low, rest + Times(e, Pow(o)), high)
  }

  /** The sum of e copies of x. */
  function Times(e: nat, x: int): int {
    if e == 0 then 0 else x + Times(e - 1, x)
  }

  lemma {:induction false} TimesIsProduct(e: nat, x: int)
    ensures Times(e, x) == e * x
  {
    if e == 0 {
    } else {
      TimesIsProduct(e - 1, x);
      Distribute(e - 1, 1, x);
    }
  }

  lemma {:induction false} TimesMono(e: nat, x: int, y: int)
    requires x <= y
    ensures Times(e, x) <= Times(e, y)
  {
    if e == 0 {
    } else {
      TimesMono(e - 1, x, y);
    }
  }

  /** The top digit of the window is below e exactly when the trial product e * p was too large. */
  lemma TopBelow(w: seq<Digit>, o: nat, e: nat, rest: int)
    requires |w| == o + 1 && Val(w) == rest + Times(e, Pow(o)) && rest < Pow(o)
    ensures w[o] < e <==> rest < 0
    ensures rest >= 0 ==> w[o] == e && Val(w[..o]) == rest
  {
    ValTop(w);
    TimesIsProduct(e, Pow(o));
    var top: int, weight := w[o], Pow(o);
    Distribute(top, 1, weight);
    Distribute(e, 1, weight);
    MulLess(top + 1, e, weight);
    MulLess(e, top, weight);
    MulLess(e + 1, top, weight);
    MulLess(e - 1, top, weight);
  }

  lemma CorrectOnce(n: seq<Digit>, n': seq<Digit>, k: nat, o: nat, low: int, high: int, w0: int, p: int, e: nat,
                    rest: int, g: int)
    requires Trying(n, k, o, low, high, w0, p, e, rest) && |n'| == |n|
    requires n[k + o] < e
    requires g == Pow(o) - p && Val(n') == Wrapped(Val(n) - Pow(k) * g, |n|)
    ensures e > 0 && Trying(n', k, o, low, high, w0, p, e - 1, rest + p)
  {
    TooLarge(n, k, o, low, high, w0, p, e, rest);
    WindowMinus(n, n', k, o, low, rest + Times(e, Pow(o)), high, g);
  }

  lemma TooLarge(n: seq<Digit>, k: nat, o: nat, low: int, high: int, w0: int, p: int, e: nat, rest: int)
    requires Trying(n, k, o, low, high, w0, p, e, rest)
    requires n[k + o] < e
    ensures rest < 0 < e
    ensures w0 == rest + p + Times(e - 1, p)
    ensures rest + Times(e, Pow(o)) - (Pow(o) - p) == rest + p + Times(e - 1, Pow(o)) >= 0
  {
    Slices(n, k, o);
    TopBelow(n[k..k + o + 1], o, e, rest);
    TimesMono(e - 1, p, Pow(o));
  }

  lemma StartTrying(w: seq<Digit>, p: seq<Digit>, e: int) returns (rest: int)
    requires |p| > 0 && |w| == |p| + 1 && p[|p| - 1] > 0
    requires Val(w) < Val(p) * BASE
    requires e == Estimate(p[|p| - 1], w[|p|], w[|p| - 1])
    ensures rest + Times(e, Val(p)) == Val(w) && rest < Val(p)
    ensures e * (Pow(|p|) - Val(p)) + Val(w) == rest + Times(e, Pow(|p|)) < Pow(|p| + 1)
    ensures 0 < Val(p) < Pow(|p|) && 0 <= Val(w)
  {
    ValTop(p);
    ValBound(p);
    MulLess(0, p[|p| - 1], Pow(|p| - 1));
    EstimateNotTooSmall(w, p);
    ValBound(w);
    rest := TrialFits(Val(w), Val(p), Pow(|p|), e);
    TimesIsProduct(e, Val(p));
    TimesIsProduct(e, Pow(|p|));
  }

  lemma TrialFits(w: int, p: int, weight: int, e: int) returns (rest: int)
    requires 0 < p < weight && 0 <= e < BASE && w < (e + 1) * p
    ensures rest + e * p == w && rest < p
    ensures e * (weight - p) + w == rest + e * weight < BASE * weight
  {
    rest := w - e * p;
    Distribute(e, 1, p);
    Distribute(e, 1, weight);
    Distribute(weight, -p, e);
    MulLess(e + 1, BASE, weight);
  }

  /** The window holds the remainder of w0 by p with the quotient digit on top. */
  ghost predicate Divided(n: seq<Digit>, k: nat, o: nat, low: int, high: int, w0: int, p: int) {
    && k + o < |n|
    && Val(n[..k]) == low && Val(n[k + o + 1..]) == high
    && Val(n[k..k + o]) + n[k + o] * p == w0 && 0 <= Val(n[k..k + o]) < p
  }

  lemma Found(n: seq<Digit>, k: nat, o: nat, low: int, high: int, w0: int, p: int, e: nat, rest: int)
    requires Trying(n, k, o, low, high, w0, p, e, rest) && n[k + o] >= e
    ensures Divided(n, k, o, low, high, w0, p)
  {
    Slices(n, k, o);
    TopBelow(n[k..k + o + 1], o, e, rest);
    TimesIsProduct(e, p);
  }

  /**
   One turn of the division loop. On entry the window of o + 1 digits from k on holds a value below
   65536 times the divisor; on exit its top digit is the quotient digit and the rest is the remainder.
  */
  method QuotientDigit(p: array<Digit>, o: nat, g: array<Digit>, n: array<Digit>, h: nat, k: nat, j: array<Digit>)
    requires 0 < o <= p.Length && o <= g.Length && p[o - 1] > 0
    requires k + o < h <= n.Length && o + k <= j.Length
    requires n != p && n != g && n != j && j != p && j != g
    requires Val(g[..o]) == Pow(o) - Val(p[..o]) > 0
    requires Val(n[k..k + o + 1]) < Val(p[..o]) * BASE
    modifies n, j
    ensures Divided(n[..h], k, o, old(Val(n[..k])), old(Val(n[k + o + 1..h])), old(Val(n[k..k + o + 1])), Val(p[..o]))
  {
    ghost var low, high, w0 := Val(n[..k]), Val(n[k + o + 1..h]), Val(n[k..k + o + 1]);
    var f := k + o;
    var e: nat := Estimate(p[o - 1], n[f], n[f - 1]);
    ghost var rest := AddTrial(e, p, g, n, h, k, o);
    if n[f] < e {
      var i := ShiftDigits(g, o, k, j);
      e, rest := Correct(n, h, j, i, k, o, low, high, w0, Val(p[..o]), e, rest, Val(g[..o]));
    }
    Found(n[..h], k, o, low, high, w0, Val(p[..o]), e, rest);
  }

  /** Adds e times the negated divisor g into the window. */
  method AddTrial(e: Digit, ghost p: array<Digit>, g: array<Digit>, n: array<Digit>, h: nat, k: nat, o: nat)
    returns (ghost rest: int)
    requires 0 < o <= p.Length && o <= g.Length && p[o - 1] > 0
    requires k + o < h <= n.Length && n != p && n != g
    requires Val(g[..o]) == Pow(o) - Val(p[..o]) > 0
    requires Val(n[k..k + o + 1]) < Val(p[..o]) * BASE
    requires e == Estimate(p[o - 1], n[k + o], n[k + o - 1])
    modifies n
    ensures Trying(n[..h], k, o, old(Val(n[..k])), old(Val(n[k + o + 1..h])), old(Val(n[k..k + o + 1])), Val(p[..o]),
                   e, rest)
  {
    ghost var f := k + o + 1;
    ghost var below, above := n[..k], n[f..h];
    rest := StartTrying(n[k..f], p[..o], e);
    assert g[0..0 + o] == g[..o];
    MulAdd(e, g, 0, n, k, o, f);
    assert n[..h][..k] == below && n[..h][f..] == above && n[..h][k..f] == n[k..f];
  }

  /**
   The correction loop: takes one divisor less than e0 of them, by subtracting the negated divisor
   moved up in j, until the trial digit is right.
  */
  method Correct(n: array<Digit>, h: nat, j: array<Digit>, i: nat, k: nat, o: nat, ghost low: int, ghost high: int,
                 ghost w0: int, ghost p: int, e0: nat, ghost rest0: int, ghost g: int)
    returns (e: nat, ghost rest: int)
    requires i <= h <= n.Length && i <= j.Length && n != j
    requires Trying(n[..h], k, o, low, high, w0, p, e0, rest0) && n[k + o] < e0
    requires g == Pow(o) - p && Val(j[..i]) == Pow(k) * g
    modifies n
    ensures Trying(n[..h], k, o, low, high, w0, p, e, rest) && n[k + o] >= e
  {
    e, rest := e0, rest0;
    while n[k + o] < e
      invariant Trying(n[..h], k, o, low, high, w0, p, e, rest)
      decreases e
    {
      ghost var before := n[..h];
      AbsSub(n, h, j, i, n);
      CorrectOnce(before, n[..h], k, o, low, high, w0, p, e, rest, g);
      e, rest := e - 1, rest + p;
    }
  }

  // ----- The whole division -----

  /** gfV: the number of bits of x. */
  function BitLength(x: nat): (n: nat)
    ensures x > 0 ==> n > 0 && Pow2(n - 1) <= x
    ensures x < Pow2(n)
  {
    if x == 0 then 0 else 1 + BitLength(x / 2)
  }

  /** A divisor's top digit, once normalized, is at least half the base. */
  lemma NormalShift(top: Digit)
    requires top > 0
    ensures var n := BitLength(top);
      && n <= 16
      && 0x8000 <= Pow2(16 - n) * top < BASE
  {
    var n := BitLength(top);
    WordHalves(16);
    if n > 16 {
      Pow2Add(16, n - 17);
      MulLess(1, Pow2(n - 17), BASE);
      assert false;
    }
    WordHalves(n);
    HalfWord(Pow2(16 - n), Pow2(n - 1), top);
  }

  lemma HalfWord(t: int, half: int, top: int)
    requires t > 0 && (2 * half) * t == BASE && half <= top < 2 * half
    ensures 0x8000 <= t * top < BASE
  {
    MulLess(half, top, t);
    MulLess(top, 2 * half, t);
    MulAssoc(2, half, t);
  }

  /** The digits p of the divisor s, shifted by just the bits its top digit leaves free. */
  lemma NormalizedDivisor(p: seq<Digit>, r: nat, q: int, s: seq<Digit>)
    requires 0 < r == |s| <= |p| <= r + 1 && s[r - 1] > 0
    requires |p| == r + 1 ==> p[r] != 0
    requires q == 16 - BitLength(s[r - 1]) && 0 <= q
    requires Val(p) == Pow2(q) * Val(s)
    ensures |p| == r && p[r - 1] >= 0x8000
  {
    var top: int, t, n := s[r - 1], Pow2(q), Pow2(16 - q);
    WordHalves(q);
    NormalShift(s[r - 1]);
    ValTop(s);
    ValTop(p);
    ScaledRange(Val(s), top, Pow(r - 1), t, n);
    if |p| == r + 1 {
      MulLess(1, p[r], Pow(r));
      assert false;
    }
    MulLess(0x8000, p[r - 1] as int + 1, Pow(r - 1));
  }

  lemma ScaledRange(v: int, top: int, w: int, t: int, n: int)
    requires w > 0 && t > 0 && t * n == BASE
    requires top * w <= v < (top + 1) * w
    requires 0x8000 <= t * top && top < n
    ensures 0x8000 * w <= t * v < BASE * w
  {}

  /** The divisor s and the dividend x, both shifted left until the divisor's top bit is set. */
  method Normalize(x: array<Digit>, c: nat, s: array<Digit>, r: nat)
    returns (p: array<Digit>, n: array<Digit>, m: nat, q: nat)
    requires 0 < r <= s.Length && r <= c <= x.Length && s[r - 1] != 0
    ensures (p == s || fresh(p)) && fresh(n) && n != p
    ensures r <= p.Length && r <= m < n.Length && q < 16
    ensures p[r - 1] >= 0x8000
    ensures Val(p[..r]) == Pow2(q) * Val(s[..r]) && Val(n[..m]) == Pow2(q) * Val(x[..c])
  {
    NormalShift(s[r - 1]);
    q := 16 - BitLength(s[r - 1]);
    var o;
    if q > 0 {
      p := new Digit[r + 5](_ => 0);
      o := ShiftLeft(s, r, q, p);
      n := new Digit[c + 5](_ => 0);
      m := ShiftLeft(x, c, q, n);
    } else {
      p, o := s, r;
      n := CloneDigits(x, 0, c, c + 2);
      m := c;
      assert n[..c] == x[0..c] == x[..c];
    }
    NormalizedDivisor(p[..o], r, q, s[..r]);
  }

  /** The negated divisor: 65536 to the power o, minus the divisor. */
  method Negate(p: array<Digit>, o: nat) returns (g: array<Digit>)
    requires 0 < o <= p.Length && p[o - 1] > 0
    ensures fresh(g) && g.Length == o + 2
    ensures Val(g[..o]) == Pow(o) - Val(p[..o]) > 0
  {
    g := new Digit[o + 2](_ => 0);
    g[o] := 1;
    ValZeros(g[..o]);
    assert g[..o + 1] == g[..o] + [1];
    ValSnoc(g[..o], 1);
    ValBound(p[..o]);
    ValTop(p[..o]);
    MulLess(0, p[o - 1], Pow(o - 1));
    AbsSub(g, o + 1, p, o, g);
    ValParts(g[..o + 1], o, Pow(o) - Val(p[..o]), 0);
    assert g[..o + 1][..o] == g[..o];
  }

  /**
   Between two turns of the division loop: the digits from k + o on are the quotient so far, those
   below are what remains of the dividend a.
  */
  ghost predicate Progress(n: seq<Digit>, k: nat, o: nat, a: int, p: int) {
    && k + o <= |n|
    && Val(n[k + o..]) * (p * Pow(k)) + Val(n[..k + o]) == a
    && Val(n[..k + o]) < p * Pow(k)
  }

  /** Dividing the window by the divisor is one step of the long division. */
  lemma ProgressStep(n: seq<Digit>, n': seq<Digit>, k: nat, o: nat, a: int, p: int)
    requires k + 1 + o <= |n| == |n'| && p > 0
    requires Progress(n, k + 1, o, a, p)
    requires Divided(n', k, o, Val(n[..k]), Val(n[k + 1 + o..]), Val(n[k..k + o + 1]), p)
    ensures Progress(n', k, o, a, p)
  {
    assert n[..k + 1 + o][..k] == n[..k] && n[..k + 1 + o][k..] == n[k..k + o + 1];
    ValSplit(n[..k + 1 + o], k);
    assert n'[..k + o][..k] == n'[..k] && n'[..k + o][k..] == n'[k..k + o];
    ValSplit(n'[..k + o], k);
    assert n'[k + o..] == [n'[k + o]] + n'[k + o + 1..];
    ValCons(n'[k + o], n'[k + o + 1..]);
    ValBound(n[..k]);
    LongDivisionStep(Val(n[k + 1 + o..]), p, Pow(k), Val(n[..k]), Val(n'[k..k + o]), n'[k + o]);
  }

  lemma ValCons(d: Digit, s: seq<Digit>)
    ensures Val([d] + s) == d + BASE * Val(s)
  {
    ValConcat([d], s);
    ValSnoc([], d);
    assert [] + [d] == [d];
  }

  lemma LongDivisionStep(quotient: int, p: int, weight: int, low: int, rest: int, d: int)
    requires weight > 0 && p > 0 && 0 <= low < weight && rest < p
    ensures quotient * (p * (BASE * weight)) + (low + (rest + d * p) * weight)
         == (d + BASE * quotient) * (p * weight) + (low + rest * weight)
    ensures low + rest * weight < p * weight
  {
    MulAssoc(p, BASE, weight);
    MulAssoc(BASE, p, weight);
    MulAssoc(quotient, BASE, p * weight);
    Distribute(rest, d * p, weight);
    MulAssoc(d, p, weight);
    Distribute(d, BASE * quotient, p * weight);
    MulLess(rest, p - 1, weight);
    Distribute(p, -1, weight);
  }

  /** The remainder before a turn of the loop fits in the window. */
  lemma WindowFits(n: seq<Digit>, k: nat, o: nat, a: int, p: int)
    requires k + 1 + o <= |n| && p > 0 && Progress(n, k + 1, o, a, p)
    ensures Val(n[k..k + o + 1]) < p * BASE
  {
    assert n[..k + 1 + o][..k] == n[..k] && n[..k + 1 + o][k..] == n[k..k + o + 1];
    ValSplit(n[..k + 1 + o], k);
    ValBound(n[..k]);
    MulAssoc(p, BASE, Pow(k));
    MulLess(Val(n[k..k + o + 1]), p * BASE, Pow(k));
  }

  /** The first quotient digit, 0 or 1, obtained by comparing with the divisor moved to the top. */
  method FirstDigit(p: array<Digit>, o: nat, n: array<Digit>, m: nat, j: array<Digit>)
    requires 0 < o <= p.Length && o <= m < n.Length && j.Length == m
    requires n != p && n != j && j != p
    requires p[o - 1] >= 0x8000
    modifies n, j
    ensures Progress(n[..m + 1], m - o, o, old(Val(n[..m])), Val(p[..o]))
  {
    var k := m - o;
    ghost var a := n[..m];
    var i := ShiftDigits(p, o, k, j);
    TakeOnce(n, m, j, i);
    FirstProgress(a, p[..o], k, n[..m + 1], Val(j[..i]));
  }

  /** Puts 1 on top of the number n[..m] and takes j[..i] away from it if it is large enough, and 0 otherwise. */
  method TakeOnce(n: array<Digit>, m: nat, j: array<Digit>, i: nat)
    requires m < n.Length && i <= m && i <= j.Length && n != j
    requires i == m || (i > 0 ==> j[i - 1] != 0)
    requires i == m || (m > 0 ==> n[m - 1] != 0)
    modifies n
    ensures var a, moved := old(n[..m]), Val(j[..i]);
      if Val(a) >= moved then Val(n[..m + 1]) == Wrapped(Val(a + [1]) - moved, m + 1) else n[..m + 1] == a + [0]
  {
    ghost var a := n[..m];
    var order := Compare(n, m, j, i);
    if order >= 0 {
      n[m] := 1;
      assert n[..m + 1] == a + [1];
      AbsSub(n, m + 1, j, i, n);
    } else {
      n[m] := 0;
      assert n[..m + 1] == a + [0];
    }
  }

  lemma FirstProgress(a: seq<Digit>, p: seq<Digit>, k: nat, n: seq<Digit>, moved: int)
    requires p != [] && p[|p| - 1] >= 0x8000 && |a| == k + |p| && |n| == |a| + 1
    requires moved == Pow(k) * Val(p)
    requires if Val(a) >= moved then Val(n) == Wrapped(Val(a + [1]) - moved, |n|) else n == a + [0]
    ensures Progress(n, k, |p|, Val(a), Val(p))
  {
    HalfFull(p, k);
    FirstParts(a, n, moved);
    OneOrNone(Val(n[|a|..]), Val(p), Pow(k), Val(n[..|a|]), Val(a), moved);
  }

  lemma OneOrNone(d: int, p: int, weight: int, rest: int, a: int, moved: int)
    requires 0 <= d <= 1 && rest < moved == weight * p
    requires rest == if d == 1 then a - moved else a
    ensures d * (p * weight) + rest == a && rest < p * weight
  {}

  lemma FirstParts(a: seq<Digit>, n: seq<Digit>, moved: int)
    requires |n| == |a| + 1 && 0 < moved && Pow(|a|) <= 2 * moved
    requires if Val(a) >= moved then Val(n) == Wrapped(Val(a + [1]) - moved, |n|) else n == a + [0]
    ensures 0 <= Val(n[|a|..]) <= 1 && Val(n[..|a|]) < moved
    ensures Val(n[..|a|]) == if Val(n[|a|..]) == 1 then Val(a) - moved else Val(a)
  {
    ValBound(a);
    if Val(a) >= moved {
      ValSnoc(a, 1);
      assert Val(n) == Val(a) - moved + 1 * Pow(|a|);
      ValParts(n, |a|, Val(a) - moved, 1);
    } else {
      assert n[..|a|] == a && n[|a|..] == [0];
      ValZeros([0]);
    }
  }

  lemma HalfFull(p: seq<Digit>, k: nat)
    requires p != [] && p[|p| - 1] >= 0x8000
    ensures Pow(k + |p|) <= 2 * (Pow(k) * Val(p))
    ensures 0 < Val(p) && 0 < Pow(k) * Val(p)
  {
    ValTop(p);
    MulLess(0x8000, p[|p| - 1], Pow(|p| - 1));
    MulLess(Pow(|p|), 2 * Val(p), Pow(k));
    MulAssoc(2, Val(p), Pow(k));
    PowAdd(|p|, k);
    MulLess(0, Val(p), Pow(k));
  }

  /** Quotient and remainder of x by y, the remainder scaled by 2 to the power q. */
  ghost predicate Answers(x: int, y: int, quotient: int, scaled: int, q: nat) {
    y > 0 && quotient == x / y && scaled == Pow2(q) * (x % y)
  }

  /**
   A.fb: divides the number x[..c] by the number s[..r]. The digits n[..r] are the remainder,
   shifted left by q bits, and the digits n[r..h] are the quotient.
  */
  method Divide(x: array<Digit>, c: nat, s: array<Digit>, r: nat) returns (n: array<Digit>, h: nat, q: nat)
    requires 0 < r <= s.Length && r <= c <= x.Length && s[r - 1] != 0
    ensures fresh(n) && r <= h <= n.Length && q < 16
    ensures Answers(Val(x[..c]), Val(s[..r]), Val(n[r..h]), Val(n[..r]), q)
  {
    var p, m;
    p, n, m, q := Normalize(x, c, s, r);
    ghost var a := Val(n[..m]);
    var j := new Digit[m](_ => 0);
    h := m + 1;
    FirstDigit(p, r, n, m, j);
    LongDivision(p, r, n, h, j, a);
    assert n[..h][..r] == n[..r] && n[..h][r..] == n[r..h];
    Unscale(n[..h], r, Pow2(q), Val(x[..c]), s[..r], a, Val(p[..r]));
  }

  /** The loop of A.fb: one quotient digit after the other, from the highest to the lowest. */
  method LongDivision(p: array<Digit>, o: nat, n: array<Digit>, h: nat, j: array<Digit>, ghost a: int)
    requires 0 < o <= p.Length && o < h <= n.Length && h == j.Length + 1
    requires n != p && n != j && j != p && p[o - 1] >= 0x8000
    requires Progress(n[..h], h - 1 - o, o, a, Val(p[..o]))
    modifies n, j
    ensures Progress(n[..h], 0, o, a, Val(p[..o]))
  {
    ghost var v := Val(p[..o]);
    var g := Negate(p, o);
    HalfFull(p[..o], 0);
    var k := h - 1 - o;
    while k > 0
      invariant 0 <= k <= h - 1 - o && Val(p[..o]) == v
      invariant Val(g[..o]) == Pow(o) - v > 0 && p[o - 1] >= 0x8000
      invariant Progress(n[..h], k, o, a, v)
    {
      k := k - 1;
      ghost var before := n[..h];
      WindowFits(before, k, o, a, v);
      Views(before, n[..], h, k, o);
      QuotientDigit(p, o, g, n, h, k, j);
      ProgressStep(before, n[..h], k, o, a, v);
    }
  }

  lemma Views(b: seq<Digit>, n: seq<Digit>, h: nat, k: nat, o: nat)
    requires k + o < h <= |n| && b == n[..h]
    ensures b[..k] == n[..k] && b[k..k + o + 1] == n[k..k + o + 1] && b[k + 1 + o..] == n[k + o + 1..h]
  {}

  /** Scaling dividend and divisor alike keeps the quotient and scales the remainder. */
  lemma Unscale(n: seq<Digit>, r: nat, t: int, x: int, s: seq<Digit>, a: int, p: int)
    requires t > 0 && s != [] && s[|s| - 1] != 0
    requires a == t * x && p == t * Val(s)
    requires Progress(n, 0, r, a, p)
    ensures Val(s) > 0 && Val(n[r..]) == x / Val(s) && Val(n[..r]) == t * (x % Val(s))
  {
    ProgressEnd(n, r, a, p);
    ValTop(s);
    MulLess(0, s[|s| - 1], Pow(|s| - 1));
    UnscaleValues(t, x, Val(s), Val(n[r..]), Val(n[..r]), a, p);
  }

  lemma ProgressEnd(n: seq<Digit>, r: nat, a: int, p: int)
    requires Progress(n, 0, r, a, p)
    ensures Val(n[r..]) * p + Val(n[..r]) == a && 0 <= Val(n[..r]) < p
  {
    ValBound(n[..r]);
    assert n[..0 + r] == n[..r] && n[0 + r..] == n[r..];
  }

  lemma UnscaleValues(t: int, x: int, y: int, quotient: int, rest: int, a: int, p: int)
    requires t > 0 && y > 0 && a == t * x && p == t * y
    requires quotient * p + rest == a && 0 <= rest < p
    ensures quotient == x / y && rest == t * (x % y)
  {
    MulAssoc(quotient, t, y);
    MulAssoc(t, quotient, y);
    Distribute(x, -(quotient * y), t);
    var z := x - quotient * y;
    assert rest == t * z;
    MulLess(z, y, t);
    MulLess(-1, z, t);
    FloorUnique(x, y, quotient, z);
  }
}
