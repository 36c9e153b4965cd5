/** Printing and parsing integers in base ten, four digits at a time. */
module Decimal {
  import opened Digits
  import opened BigInteger

  // ----- Decimal notation -----

  function DigitChar(d: nat): (c: char)
    requires d < 10
    ensures '0' <= c <= '9'
  {
    '0' + d as char
  }

  predicate AllDecimal(s: string) {
    forall i :: 0 <= i < |s| ==> '0' <= s[i] <= '9'
  }

  /** The decimal numeral of n, without leading zeros. */
  function Numeral(n: nat): (s: string)
    ensures s != [] && AllDecimal(s)
  {
    if n < 10 then [DigitChar(n)] else Numeral(n / 10) + [DigitChar(n % 10)]
  }

  /** The decimal notation of an integer. */
  function Notation(v: int): (s: string) {
    if v < 0 then "-" + Numeral(-v) else Numeral(v)
  }

  /** The number that a string of decimal digits stands for. */
  function Reading(s: string): nat
    requires AllDecimal(s)
  {
    if s == [] then 0 else 10 * Reading(s[..|s| - 1]) + (s[|s| - 1] as int - '0' as int)
  }

  lemma {:induction false} ReadingNumeral(n: nat)
    ensures Reading(Numeral(n)) == n
  {
    if n >= 10 {
      ReadingNumeral(n / 10);
      assert Numeral(n)[..|Numeral(n)| - 1] == Numeral(n / 10);
    } else {
      assert Reading([]) == 0;
      assert [DigitChar(n)][..0] == [];
    }
  }

  /** A numeral of more than one digit does not begin with a zero. */
  lemma {:induction false} NoLeadingZero(n: nat)
    ensures |Numeral(n)| > 1 <==> n >= 10
    ensures n > 0 ==> Numeral(n)[0] != '0'
  {
    if n < 10 {
    } else {
      NoLeadingZero(n / 10);
    }
  }

  /** What the parser's pattern makes of a signed numeral: whether it is negative, and its digits. */
  function Unsigned(s: string): (r: (bool, string)) {
    if s != [] && s[0] == '-' then (true, s[1..])
    else if s != [] && s[0] == '+' then (false, s[1..])
    else (false, s)
  }

  /** Reading undoes printing. */
  lemma NotationRoundTrip(v: int)
    ensures var (neg, digits) := Unsigned(Notation(v));
      && digits != [] && AllDecimal(digits)
      && Signed(neg, Reading(digits)) == v
  {
    ReadingNumeral(Abs(v));
    if v < 0 {
      assert Notation(v)[1..] == Numeral(-v);
    } else {
      assert AllDecimal(Numeral(v)) && '0' <= Numeral(v)[0];
    }
  }

  /** Different integers have different notations. */
  lemma NotationInjective(v: int, w: int)
    requires Notation(v) == Notation(w)
    ensures v == w
  {
    NotationRoundTrip(v);
    NotationRoundTrip(w);
  }

  lemma NumeralSnoc(n: nat, d: nat)
    requires n > 0 && d < 10
    ensures Numeral(10 * n + d) == Numeral(n) + [DigitChar(d)]
  {}

  /** The four digits of a number below ten thousand, leading zeros included. */
  function FourDigits(d: nat): string
    requires d < 10000
  {
    [DigitChar(d / 1000), DigitChar((d / 100) % 10), DigitChar((d / 10) % 10), DigitChar(d % 10)]
  }

  /** The last four digits of a numeral, and the zeros that fill up a group of four. */
  lemma LastFour(r: nat, d: nat)
    requires r > 0 && d < 10000
    ensures Numeral(r * 10000 + d) == Numeral(r) + (Fill(|Numeral(d)|) + Numeral(d))
  {
    SmallNumeral(d);
    Places(d);
    FourMore(r, d / 1000, (d / 100) % 10, (d / 10) % 10, d % 10);
    assert r * 10000 + d == 10 * (10 * (10 * (10 * r + d / 1000) + (d / 100) % 10) + (d / 10) % 10) + d % 10;
  }

  lemma FourMore(r: nat, d3: nat, d2: nat, d1: nat, d0: nat)
    requires r > 0 && d3 < 10 && d2 < 10 && d1 < 10 && d0 < 10
    ensures Numeral(10 * (10 * (10 * (10 * r + d3) + d2) + d1) + d0)
         == Numeral(r) + [DigitChar(d3), DigitChar(d2), DigitChar(d1), DigitChar(d0)]
  {
    NumeralSnoc(r, d3);
    NumeralSnoc(10 * r + d3, d2);
    NumeralSnoc(10 * (10 * r + d3) + d2, d1);
    NumeralSnoc(10 * (10 * (10 * r + d3) + d2) + d1, d0);
  }

  lemma Places(d: nat)
    requires d < 10000
    ensures d == 1000 * (d / 1000) + 100 * ((d / 100) % 10) + 10 * ((d / 10) % 10) + d % 10
    ensures d / 1000 < 10
  {
    assert (d / 10) / 10 == d / 100 && (d / 100) / 10 == d / 1000;
  }

  lemma SmallNumeral(d: nat)
    requires d < 10000
    ensures 1 <= |Numeral(d)| <= 4
    ensures Fill(|Numeral(d)|) + Numeral(d) == FourDigits(d)
  {
    assert (d / 10) / 10 == d / 100 && (d / 100) / 10 == d / 1000;
    if d < 10 {
      assert Numeral(d) == [DigitChar(d)];
    } else if d < 100 {
      UpToTwo(d);
    } else if d < 1000 {
      UpToTwo(d / 10);
      OneMore(d);
    } else {
      UpToTwo(d / 100);
      OneMore(d / 10);
      OneMore(d);
    }
  }

  lemma UpToTwo(n: nat)
    requires 10 <= n < 100
    ensures Numeral(n) == [DigitChar(n / 10), DigitChar(n % 10)]
  {
    assert Numeral(n / 10) == [DigitChar(n / 10)];
  }

  lemma OneMore(n: nat)
    requires n >= 10
    ensures Numeral(n) == Numeral(n / 10) + [DigitChar(n % 10)]
  {}

  /** The zeros the printer puts before a group of the given length. */
  function Fill(length: nat): string {
    if length == 1 then "000" else if length == 2 then "00" else if length == 3 then "0" else ""
  }

  /** The strings of s, last one first, joined (A.ew and c5). */
  function JoinReversed(s: seq<string>): string {
    if s == [] then "" else s[|s| - 1] + JoinReversed(s[..|s| - 1])
  }

  lemma JoinPush(s: seq<string>, t: string)
    ensures JoinReversed(s + [t]) == t + JoinReversed(s)
  {
    assert (s + [t])[..|s|] == s;
  }

  // ----- Printing -----

  /** Facts about a number of more than one digit and its division by ten thousand. */
  lemma ByTenThousand(r: BigInt)
    requires r.Valid() && r.used > 1
    ensures r.Magnitude() >= BASE
    ensures r.Magnitude() / 10000 > 0
  {
    ValTop(r.digits[..r.used]);
    PowMono(1, r.used - 1);
    assert Pow(1) == BASE;
    MulLess(1, r.digits[r.used - 1], Pow(r.used - 1));
  }

  lemma OneDigit(r: BigInt)
    requires r.Valid() && r.used == 1
    ensures r.Magnitude() == r.digits[0]
  {
    assert r.digits[..1] == [] + [r.digits[0]];
    ValSnoc([], r.digits[0]);
  }

  /** A.a6.j: the decimal notation of x. */
  method ToString(x: BigInt, memo: DivisionMemo) returns (text: string)
    requires x.Valid() && memo.Valid()
    modifies memo
    ensures memo.Valid()
    ensures text == Notation(x.Value())
    decreases x.Magnitude(), 1
  {
    UsedWhenNonzero(x);
    if x.used == 0 { return "0"; }
    if x.used == 1 {
      OneDigit(x);
      return if x.neg then Notation(-(x.digits[0] as int)) else Notation(x.digits[0]);
    }
    var s: seq<string> := [];
    var r := x;
    if x.neg { r := Negated(x); }
    while r.used > 1
      invariant r.Valid() && !r.neg && 0 < r.Magnitude() <= x.Magnitude() && memo.Valid()
      invariant Numeral(x.Magnitude()) == Numeral(r.Magnitude()) + JoinReversed(s)
      decreases r.Magnitude()
    {
      ghost var whole := r.Magnitude();
      var p, q := TakeGroup(r, memo);
      PushGroup(whole, p, s);
      s := s + [p];
      if |p| == 1 { s := s + ["000"]; }
      if |p| == 2 { s := s + ["00"]; }
      if |p| == 3 { s := s + ["0"]; }
      r := q;
    }
    UsedWhenNonzero(r);
    OneDigit(r);
    JoinPush(s, Numeral(r.digits[0]));
    s := s + [Numeral(r.digits[0])];
    if x.neg {
      JoinPush(s, "-");
      s := s + ["-"];
    }
    text := JoinReversed(s);
  }

  /** The text of the lowest group of four digits of r, and the number above it. */
  method TakeGroup(r: BigInt, memo: DivisionMemo) returns (p: string, q: BigInt)
    requires r.Valid() && !r.neg && r.used > 1 && memo.Valid()
    modifies memo
    ensures memo.Valid()
    ensures p == Numeral(r.Magnitude() % 10000)
    ensures q.Valid() && !q.neg && q.Magnitude() == r.Magnitude() / 10000
    ensures 0 < q.Magnitude() < r.Magnitude()
    decreases r.Magnitude(), 0
  {
    ByTenThousand(r);
    var ten4 := FromDigit(10000);
    UsedWhenNonzero(ten4);
    SignedDivision(false, r.Magnitude(), false, 10000);
    var rest := memo.Remainder(r, ten4);
    p := ToString(rest, memo);
    q := memo.Quotient(r, ten4);
  }

  lemma PushGroup(whole: nat, p: string, s: seq<string>)
    requires whole >= 10000 && p == Numeral(whole % 10000)
    ensures 1 <= |p| <= 4
    ensures Numeral(whole) + JoinReversed(s)
         == Numeral(whole / 10000) + JoinReversed(if |p| == 4 then s + [p] else s + [p] + [Fill(|p|)])
  {
    SmallNumeral(whole % 10000);
    LastFour(whole / 10000, whole % 10000);
    GroupJoins(s, p);
    Regroup(Numeral(whole / 10000), Fill(|p|), p, JoinReversed(s));
  }

  /** A group and the zeros that fill it up, joined to what was pushed before. */
  lemma GroupJoins(s: seq<string>, p: string)
    requires 1 <= |p| <= 4
    ensures JoinReversed(if |p| == 4 then s + [p] else s + [p] + [Fill(|p|)]) == Fill(|p|) + (p + JoinReversed(s))
  {
    JoinPush(s, p);
    JoinPush(s + [p], Fill(|p|));
    if |p| == 4 { assert Fill(|p|) == ""; }
  }

  lemma Regroup(a: string, b: string, c: string, d: string)
    ensures a + (b + c) + d == a + (b + (c + d))
  {}

  // ----- Parsing -----

  /** 10 to the power n. */
  function Pow10(n: nat): (p: nat)
    ensures p > 0
  {
    if n == 0 then 1 else 10 * Pow10(n - 1)
  }

  /** v with n zeros after it. */
  function Raised(v: int, n: nat): int {
    if n == 0 then v else 10 * Raised(v, n - 1)
  }

  /** The digits a[..r] are read: v so far, and the o digits of s after it. */
  ghost predicate Parsed(a: string, r: nat, v: int, s: int, o: nat)
    requires AllDecimal(a) && r <= |a|
  {
    0 <= s < Pow10(o) && Reading(a[..r]) == Raised(v, o) + s
  }

  lemma ParsedDigit(a: string, r: nat, v: int, s: int, o: nat)
    requires AllDecimal(a) && r < |a| && Parsed(a, r, v, s, o)
    ensures '0' <= a[r] <= '9' && Parsed(a, r + 1, v, s * 10 + (a[r] as int - '0' as int), o + 1)
  {
    assert a[..r + 1][..r] == a[..r];
  }

  lemma ParsedGroup(a: string, r: nat, v: int, s: int)
    requires AllDecimal(a) && r <= |a| && Parsed(a, r, v, s, 4)
    ensures 0 <= s < 10000 && Parsed(a, r, v * 10000 + s, 0, 0)
  {
    assert Pow10(2) == 100 && Pow10(4) == 10000;
    assert Raised(v, 1) == 10 * v;
    assert Raised(v, 2) == 100 * v;
    assert Raised(v, 3) == 1000 * v;
  }

  lemma ParsedNothing(a: string, o: nat)
    requires AllDecimal(a)
    ensures Parsed(a, 0, 0, 0, o)
  {
    assert a[..0] == [];
    RaisedZero(o);
  }

  lemma {:induction false} RaisedZero(n: nat)
    ensures Raised(0, n) == 0
  {
    if n == 0 {
    } else {
      RaisedZero(n - 1);
    }
  }

  lemma ParsedAll(a: string, v: int, s: int)
    requires AllDecimal(a) && Parsed(a, |a|, v, s, 0)
    ensures v == Reading(a) && v >= 0
  {
    assert a[..|a|] == a;
  }

  /** One turn of the loop of A.uX. */
  method TakeDigit(a: string, r: nat, q: BigInt, s: int, o: nat) returns (q': BigInt, s': int, o': nat)
    requires AllDecimal(a) && r < |a| && o < 4 && q.Valid() && Parsed(a, r, q.Value(), s, o)
    ensures o' == (if o == 3 then 0 else o + 1) && q'.Valid() && Parsed(a, r + 1, q'.Value(), s', o')
  {
    ParsedDigit(a, r, q.Value(), s, o);
    q', s', o' := q, s * 10 + a[r] as int - '0' as int, o + 1;
    if o' == 4 {
      ParsedGroup(a, r + 1, q.Value(), s');
      q' := PushDigits(q, s');
      s', o' := 0, 0;
    }
  }

  /** A.uX: the integer with the decimal digits a, negated on request. */
  method ParseDecimal(a: string, negative: bool) returns (q: BigInt)
    requires AllDecimal(a)
    ensures q.Valid() && q.Value() == Signed(negative, Reading(a))
  {
    q := Zero();
    var p := |a|;
    var o := 4 - p % 4;
    if o == 4 { o := 0; }
    var s, r := 0, 0;
    ghost var groups := (p + o) / 4;   // the groups still to be completed
    ParsedNothing(a, o);
    while r < p
      invariant 0 <= r <= p && 0 <= o < 4 && o + (p - r) == 4 * groups
      invariant q.Valid() && Parsed(a, r, q.Value(), s, o)
    {
      q, s, o := TakeDigit(a, r, q, s, o);
      r := r + 1;
      if o == 0 { groups := groups - 1; }
    }
    ParsedAll(a, q.Value(), s);
    if negative { q := Negated(q); }
  }

  /** q with the four digits of s put after it. */
  method PushDigits(q: BigInt, s: nat) returns (r: BigInt)
    requires q.Valid() && s < 10000
    ensures r.Valid() && r.Value() == q.Value() * 10000 + s
  {
    var ten4 := FromDigit(10000);
    var group := FromDigit(s);
    r := Multiply(q, ten4);
    r := Add(r, group);
  }
}
