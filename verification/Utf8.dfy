/** A.hP and A.nF, the encoder from UTF-16 code units to UTF-8, and a strict decoder to judge it by. */
module Utf8 {

  type Unit = u: int | 0 <= u < 0x1_0000
  type Octet = b: int | 0 <= b < 0x100

  /** Unicode scalar values: the code points that are not surrogates. */
  type Scalar = c: int | 0 <= c < 0xD800 || 0xE000 <= c < 0x11_0000

  const REPLACEMENT: Scalar := 0xFFFD

  predicate High(u: Unit) { 0xD800 <= u < 0xDC00 }
  predicate Low(u: Unit) { 0xDC00 <= u < 0xE000 }

  function Pair(high: Unit, low: Unit): Scalar
    requires High(high) && Low(low)
  {
    0x1_0000 + (high - 0xD800) * 0x400 + (low - 0xDC00)
  }

  /** What a UTF-16 string says, with every unpaired surrogate replaced. */
  function CodePoints(s: seq<Unit>): seq<Scalar> {
    if s == [] then []
    else if High(s[0]) && |s| > 1 && Low(s[1]) then [Pair(s[0], s[1])] + CodePoints(s[2..])
    else if High(s[0]) || Low(s[0]) then [REPLACEMENT] + CodePoints(s[1..])
    else [s[0]] + CodePoints(s[1..])
  }

  // ----- What UTF-16 means -----

  /** The units of one scalar value (RFC 2781, section 2.1): above 0xFFFF a pair of surrogates. */
  function Units(c: Scalar): (u: seq<Unit>)
    ensures u != []
  {
    if c < 0x1_0000 then [c] else [0xD800 + (c - 0x1_0000) / 0x400, 0xDC00 + (c - 0x1_0000) % 0x400]
  }

  function UnitsOf(cs: seq<Scalar>): seq<Unit> {
    if cs == [] then [] else Units(cs[0]) + UnitsOf(cs[1..])
  }

  lemma PairOfUnits(c: Scalar)
    requires c >= 0x1_0000
    ensures var u := Units(c); High(u[0]) && Low(u[1]) && Pair(u[0], u[1]) == c
  {}

  lemma UnitsOfPair(high: Unit, low: Unit)
    requires High(high) && Low(low)
    ensures Units(Pair(high, low)) == [high, low]
  {}

  lemma CodePointsStep(u: seq<Unit>, rest: seq<Unit>, c: Scalar)
    requires u == Units(c)
    ensures CodePoints(u + rest) == [c] + CodePoints(rest)
  {
    if c < 0x1_0000 {
      assert (u + rest)[1..] == rest;
    } else {
      PairOfUnits(c);
      assert (u + rest)[2..] == rest;
    }
  }

  /** Well-formed strings are read as they are meant. */
  lemma {:induction false} CodePointsOfUnits(cs: seq<Scalar>)
    ensures CodePoints(UnitsOf(cs)) == cs
  {
    if cs == [] {
    } else {
      CodePointsOfUnits(cs[1..]);
      CodePointsStep(Units(cs[0]), UnitsOf(cs[1..]), cs[0]);
    }
  }

  /** The unit is a surrogate that has no partner next to it. */
  predicate Unpaired(s: seq<Unit>, i: nat)
    requires i < |s|
  {
    || (High(s[i]) && !(i + 1 < |s| && Low(s[i + 1])))
    || (Low(s[i]) && !(i > 0 && High(s[i - 1])))
  }

  /** The string with the replacement character in the place of every unpaired surrogate. */
  function Repaired(s: seq<Unit>): (r: seq<Unit>)
    ensures |r| == |s|
  {
    seq(|s|, i requires 0 <= i < |s| => if Unpaired(s, i) then REPLACEMENT else s[i])
  }

  lemma RepairedRest(s: seq<Unit>, k: nat)
    requires k <= |s| && (0 < k < |s| && Low(s[k]) ==> !High(s[k - 1]))
    ensures Repaired(s)[k..] == Repaired(s[k..])
  {
    forall i | k <= i < |s| ensures Unpaired(s, i) == Unpaired(s[k..], i - k) {}
  }

  /** Any string is read as the string with every unpaired surrogate, and nothing else, replaced. */
  lemma {:induction false} CodePointsMeaning(s: seq<Unit>)
    ensures UnitsOf(CodePoints(s)) == Repaired(s)
    decreases |s|
  {
    if s == [] {
    } else if High(s[0]) && |s| > 1 && Low(s[1]) {
      CodePointsMeaning(s[2..]);
      UnitsOfPair(s[0], s[1]);
      RepairedRest(s, 2);
      assert !Unpaired(s, 0) && !Unpaired(s, 1);
      assert CodePoints(s)[1..] == CodePoints(s[2..]);
      assert Repaired(s) == [s[0], s[1]] + Repaired(s)[2..];
    } else {
      CodePointsMeaning(s[1..]);
      RepairedRest(s, 1);
      assert CodePoints(s)[1..] == CodePoints(s[1..]);
      assert Unpaired(s, 0) <==> High(s[0]) || Low(s[0]);
      assert Repaired(s) == [if Unpaired(s, 0) then REPLACEMENT else s[0]] + Repaired(s)[1..];
    }
  }

  // ----- RFC 3629 -----

  /** The octets of one scalar value (RFC 3629, section 3). */
  function Octets(c: Scalar): (b: seq<Octet>)
    ensures 1 <= |b| <= 4
  {
    if c <= 0x7F then [c]
    else if c <= 0x7FF then [0xC0 + c / 0x40, 0x80 + c % 0x40]
    else if c <= 0xFFFF then [0xE0 + c / 0x1000, 0x80 + (c / 0x40) % 0x40, 0x80 + c % 0x40]
    else [0xF0 + c / 0x4_0000, 0x80 + (c / 0x1000) % 0x40, 0x80 + (c / 0x40) % 0x40, 0x80 + c % 0x40]
  }

  function Encoded(s: seq<Scalar>): seq<Octet> {
    if s == [] then [] else Octets(s[0]) + Encoded(s[1..])
  }

  predicate Tail(b: Octet) { 0x80 <= b <= 0xBF }

  datatype Result<T> = Ok(value: T) | Malformed

  /** The length of the sequence that starts with b, by the grammar of RFC 3629, section 4; 0 for none. */
  function SequenceLength(b: seq<Octet>): (n: nat)
    ensures n <= |b| && n <= 4
  {
    if |b| >= 1 && b[0] <= 0x7F then 1
    else if |b| >= 2 && 0xC2 <= b[0] <= 0xDF && Tail(b[1]) then 2
    else if |b| >= 3 && Tail(b[1]) && Tail(b[2])
      && ((b[0] == 0xE0 && 0xA0 <= b[1]) || 0xE1 <= b[0] <= 0xEC
          || (b[0] == 0xED && b[1] <= 0x9F) || 0xEE <= b[0] <= 0xEF)
    then 3
    else if |b| >= 4 && Tail(b[1]) && Tail(b[2]) && Tail(b[3])
      && ((b[0] == 0xF0 && 0x90 <= b[1]) || 0xF1 <= b[0] <= 0xF3 || (b[0] == 0xF4 && b[1] <= 0x8F))
    then 4
    else 0
  }

  /** The scalar value of the sequence that starts with b. */
  function FirstScalar(b: seq<Octet>): (c: Scalar)
    requires SequenceLength(b) > 0
  {
    var x: int := b[0];
    match SequenceLength(b)
    case 1 => x
    case 2 => Two(x, b[1])
    case 3 => Three(x, b[1], b[2])
    case _ => Four(x, b[1], b[2], b[3])
  }

  function Two(x: int, y: int): int { (x - 0xC0) * 0x40 + (y - 0x80) }
  function Three(x: int, y: int, z: int): int { (x - 0xE0) * 0x1000 + (y - 0x80) * 0x40 + (z - 0x80) }
  function Four(x: int, y: int, z: int, w: int): int {
    (x - 0xF0) * 0x4_0000 + (y - 0x80) * 0x1000 + (z - 0x80) * 0x40 + (w - 0x80)
  }

  function Decoded(b: seq<Octet>): Result<seq<Scalar>> {
    if b == [] then Ok([])
    else
      var n := SequenceLength(b);
      if n == 0 then Malformed
      else
        match Decoded(b[n..])
        case Ok(rest) => Ok([FirstScalar(b)] + rest)
        case Malformed => Malformed
  }

  lemma SixBitGroups(c: nat)
    ensures c == (c / 0x40) * 0x40 + c % 0x40
    ensures c / 0x40 == (c / 0x1000) * 0x40 + (c / 0x40) % 0x40
    ensures c / 0x1000 == (c / 0x4_0000) * 0x40 + (c / 0x1000) % 0x40
  {
    assert (c / 0x40) / 0x40 == c / 0x1000 && (c / 0x1000) / 0x40 == c / 0x4_0000;
  }

  lemma OctetsDecode(c: Scalar, rest: seq<Octet>)
    ensures SequenceLength(Octets(c) + rest) == |Octets(c)|
    ensures FirstScalar(Octets(c) + rest) == c
  {
    SixBitGroups(c);
    var b := Octets(c) + rest;
    assert forall i :: 0 <= i < |Octets(c)| ==> b[i] == Octets(c)[i];
    if c <= 0x7F {
    } else if c <= 0x7FF {
      assert SequenceLength(b) == 2;
    } else if c <= 0xFFFF {
      assert SequenceLength(b) == 3;
    } else {
      assert SequenceLength(b) == 4;
    }
  }

  /** Decoding undoes encoding. */
  lemma {:induction false} DecodeEncoded(s: seq<Scalar>)
    ensures Decoded(Encoded(s)) == Ok(s)
  {
    if s == [] {
    } else {
      var b, rest := Octets(s[0]), Encoded(s[1..]);
      OctetsDecode(s[0], rest);
      assert (b + rest)[|b|..] == rest;
      DecodeEncoded(s[1..]);
      assert s == [s[0]] + s[1..];
    }
  }

  // ----- The encoder -----

  class Encoder {
    const buffer: array<Octet>
    var position: nat

    ghost predicate Valid()
      reads this
    {
      position <= buffer.Length
    }

    /** What has been written. */
    ghost function Written(): seq<Octet>
      requires Valid()
      reads this, buffer
    {
      buffer[..position]
    }

    constructor (buffer: array<Octet>)
      ensures this.buffer == buffer && position == 0 && Valid()
    {
      this.buffer, position := buffer, 0;
    }

    /** e9: writes the replacement character. */
    method WriteReplacement()
      requires Valid() && position + 3 <= buffer.Length
      modifies this, buffer
      ensures Valid() && Written() == old(Written()) + Octets(REPLACEMENT)
    {
      buffer[position] := 239;
      buffer[position + 1] := 191;
      buffer[position + 2] := 189;
      position := position + 3;
    }

    /** jm: writes a high surrogate with the unit after it, or replaces the high surrogate. */
    method WriteSurrogate(a: Unit, b: Unit) returns (paired: bool)
      requires Valid() && position + 4 <= buffer.Length && High(a)
      modifies this, buffer
      ensures Valid() && paired == Low(b)
      ensures Written() == old(Written()) + Octets(if Low(b) then Pair(a, b) else REPLACEMENT)
    {
      if b / 0x400 == 0x37 {
        var s := 0x1_0000 + (a % 0x400) * 0x400 + b % 0x400;
        assert s == Pair(a, b);
        buffer[position] := 240 + s / 0x4_0000;
        buffer[position + 1] := 128 + (s / 0x1000) % 0x40;
        buffer[position + 2] := 128 + (s / 0x40) % 0x40;
        buffer[position + 3] := 128 + s % 0x40;
        position := position + 4;
        return true;
      }
      WriteReplacement();
      return false;
    }

    /** Any other unit: one, two or three octets. */
    method WriteUnit(p: Unit)
      requires Valid() && position + 3 <= buffer.Length && !High(p)
      modifies this, buffer
      ensures Valid() && Written() == old(Written()) + Octets(if Low(p) then REPLACEMENT else p)
    {
      if p <= 127 {
        buffer[position] := p;
        position := position + 1;
      } else if p / 0x400 == 0x37 {
        WriteReplacement();
      } else if p <= 2047 {
        buffer[position] := 192 + p / 0x40;
        buffer[position + 1] := 128 + p % 0x40;
        position := position + 2;
      } else {
        buffer[position] := 224 + p / 0x1000;
        buffer[position + 1] := 128 + (p / 0x40) % 0x40;
        buffer[position + 2] := 128 + p % 0x40;
        position := position + 3;
      }
    }

    /** One turn of the loop of ij, with enough room left. */
    method WriteNext(a: seq<Unit>, q: nat) returns (next: nat)
      requires Valid() && q < |a| && (High(a[q]) ==> q + 1 < |a|)
      requires position + (if High(a[q]) then 4 else 3) <= buffer.Length
      modifies this, buffer
      ensures Valid() && q < next <= |a| && position <= old(position) + 3 * (next - q)
      ensures old(Written()) + Encoded(CodePoints(a[q..])) == Written() + Encoded(CodePoints(a[next..]))
      ensures next == q + 2 ==> Low(a[q + 1])
      ensures next <= q + 2
    {
      ghost var before := Written();
      ghost var head := HeadOf(a, q);
      NextUnit(a, q);
      next := q + 1;
      if a[q] / 0x400 == 0x36 {
        var paired := WriteSurrogate(a[q], a[q + 1]);
        if paired { next := q + 2; }
      } else {
        WriteUnit(a[q]);
      }
      assert Written() == before + head;
      Regroup(before, head, Encoded(CodePoints(a[next..])));
    }

    /** ij: encodes the units of a, except for a high surrogate at the end; the number of units encoded. */
    method Fill(a: seq<Unit>) returns (q: nat)
      requires Valid() && position == 0 && buffer.Length == 3 * |a|
      modifies this, buffer
      ensures Valid() && q <= |a| && position <= 3 * q
      ensures Encoded(CodePoints(a)) == Written() + Encoded(CodePoints(a[q..]))
      ensures q == if a != [] && High(a[|a| - 1]) then |a| - 1 else |a|
    {
      var c := |a|;
      if c != 0 && a[c - 1] / 0x400 == 0x36 { c := c - 1; }
      q := 0;
      assert a[0..] == a;
      while q < c
        invariant 0 <= q <= c && Valid() && position <= 3 * q
        invariant Encoded(CodePoints(a)) == Written() + Encoded(CodePoints(a[q..]))
      {
        if position + Needed(a[q]) > buffer.Length { break; }
        q := WriteNext(a, q);
      }
    }
  }

  /** The room that a unit needs before it is encoded. */
  function Needed(p: Unit): nat {
    if p <= 127 then 1 else if High(p) then 4 else if Low(p) then 3 else if p <= 2047 then 2 else 3
  }

  lemma Regroup(x: seq<Octet>, y: seq<Octet>, z: seq<Octet>)
    ensures x + (y + z) == (x + y) + z
  {}

  /** The octets of the first code point of a[q..]. */
  function HeadOf(a: seq<Unit>, q: nat): seq<Octet>
    requires q < |a|
  {
    if High(a[q]) && q + 1 < |a| && Low(a[q + 1]) then Octets(Pair(a[q], a[q + 1]))
    else Octets(if High(a[q]) || Low(a[q]) then REPLACEMENT else a[q])
  }

  /** The octets of the next code point of a[q..], and what is left of it. */
  lemma NextUnit(a: seq<Unit>, q: nat)
    requires q < |a|
    ensures Encoded(CodePoints(a[q..])) ==
      HeadOf(a, q) + Encoded(CodePoints(a[if High(a[q]) && q + 1 < |a| && Low(a[q + 1]) then q + 2 else q + 1..]))
  {}

  /** a5: the UTF-8 octets of a UTF-16 string. */
  method Encode(a: seq<Unit>) returns (octets: seq<Octet>)
    ensures octets == Encoded(CodePoints(a))
    ensures Decoded(octets) == Ok(CodePoints(a)) && UnitsOf(CodePoints(a)) == Repaired(a)
    ensures forall cs :: a == UnitsOf(cs) ==> Decoded(octets) == Ok(cs)
  {
    DecodeEncoded(CodePoints(a));
    CodePointsMeaning(a);
    forall cs | a == UnitsOf(cs) ensures CodePoints(a) == cs { CodePointsOfUnits(cs); }
    if a == [] { return []; }
    var s := new Octet[3 * |a|](_ => 0);
    var r := new Encoder(s);
    var n := r.Fill(a);
    if n != |a| {
      NextUnit(a, n);
      r.WriteReplacement();
    }
    assert a[|a|..] == [];
    octets := s[..r.position];
  }
}
