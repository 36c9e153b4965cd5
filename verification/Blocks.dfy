/**
 The block writer A.mh and the blocks it replaces: a file is kept as a length and 4096-byte blocks,
 and a list of writes is turned into whole replaced blocks.
*/
module Blocks {

  const BLOCK := 4096

  newtype Byte = b: int | 0 <= b < 256
  type Bytes = seq<Byte>
  type Block = b: Bytes | |b| == BLOCK witness Zeros(BLOCK)

  function Zeros(n: nat): (s: Bytes)
    ensures |s| == n
    ensures forall i :: 0 <= i < n ==> s[i] == 0
  {
    seq(n, i => 0)
  }

  datatype Write = Write(offset: nat, data: Bytes)

  /** The start of the block that holds byte i. */
  function Start(i: nat): (p: nat)
    ensures p <= i < p + BLOCK && p % BLOCK == 0
  {
    i - i % BLOCK
  }

  lemma StartUnique(p: nat, i: nat)
    requires p % BLOCK == 0 && p <= i < p + BLOCK
    ensures Start(i) == p
  {}

  /** Byte i of s, and zero past its end. */
  function ByteAt(s: Bytes, i: nat): Byte {
    if i < |s| then s[i] else 0
  }

  // ----- Writing into a byte sequence -----

  /** s with w.data at w.offset; a gap before the data is filled with zeros. */
  function Overlay(s: Bytes, w: Write): (t: Bytes)
    ensures |t| == Max(|s|, w.offset + |w.data|)
  {
    seq(Max(|s|, w.offset + |w.data|), i requires i >= 0 =>
      if w.offset <= i < w.offset + |w.data| then w.data[i - w.offset] else ByteAt(s, i))
  }

  function Max(x: nat, y: nat): nat {
    if x < y then y else x
  }

  function Min(x: nat, y: nat): nat {
    if x < y then x else y
  }

  function Overlaid(s: Bytes, ws: seq<Write>): Bytes {
    if ws == [] then s else Overlay(Overlaid(s, ws[..|ws| - 1]), ws[|ws| - 1])
  }

  // ----- Blocks -----

  /** The blocks that a write reaches. */
  function Reached(w: Write): set<nat> {
    set i | w.offset <= i < w.offset + |w.data| :: Start(i)
  }

  function Touched(ws: seq<Write>): set<nat> {
    if ws == [] then {} else Touched(ws[..|ws| - 1]) + Reached(ws[|ws| - 1])
  }

  /** The block of s that starts at p, with zeros past the end of s. */
  function BlockOf(s: Bytes, p: nat): (b: Block)
    ensures forall k :: 0 <= k < BLOCK ==> b[k] == ByteAt(s, p + k)
  {
    var b: Bytes := seq(BLOCK, k requires k >= 0 => ByteAt(s, p + k));
    b
  }

  /** What the writer holds after the writes ws over the original content: the replaced blocks. */
  function Replaced(original: Bytes, ws: seq<Write>): (m: map<nat, Block>)
    ensures m.Keys == Touched(ws)
  {
    map p | p in Touched(ws) :: BlockOf(Overlaid(original, ws), p)
  }

  lemma OverlayByte(s: Bytes, w: Write, i: nat)
    ensures ByteAt(Overlay(s, w), i)
         == if w.offset <= i < w.offset + |w.data| then w.data[i - w.offset] else ByteAt(s, i)
  {}

  lemma Snoc(s: Bytes, ws: seq<Write>, w: Write)
    ensures Overlaid(s, ws + [w]) == Overlay(Overlaid(s, ws), w)
    ensures Touched(ws + [w]) == Touched(ws) + Reached(w)
  {
    assert (ws + [w])[..|ws|] == ws;
  }

  /** A block that no write reaches keeps the bytes of the original. */
  lemma {:induction false} Untouched(s: Bytes, ws: seq<Write>, i: nat)
    requires Start(i) !in Touched(ws)
    ensures ByteAt(Overlaid(s, ws), i) == ByteAt(s, i)
  {
    if ws == [] {
    } else {
      var w := ws[|ws| - 1];
      Untouched(s, ws[..|ws| - 1], i);
      OverlayByte(Overlaid(s, ws[..|ws| - 1]), w, i);
      assert w.offset <= i < w.offset + |w.data| ==> Start(i) in Reached(w);
    }
  }

  /** The block at p as it stands after the writes ws, whether or not it was replaced before. */
  lemma CurrentBlock(s: Bytes, ws: seq<Write>, p: nat)
    requires p % BLOCK == 0 && p !in Touched(ws)
    ensures BlockOf(s, p) == BlockOf(Overlaid(s, ws), p)
  {
    forall k | 0 <= k < BLOCK ensures BlockOf(s, p)[k] == BlockOf(Overlaid(s, ws), p)[k] {
      StartUnique(p, p + k);
      Untouched(s, ws, p + k);
    }
  }

  lemma PieceBlock(s: Bytes, a: nat, b: Bytes, r: nat, m: nat, p: nat)
    requires r + m <= |b| && p <= a + r && a + r + m <= p + BLOCK
    ensures var block, o := BlockOf(Overlay(s, Write(a, b[..r])), p), a + r - p;
      BlockOf(Overlay(s, Write(a, b[..r + m])), p) == block[..o] + b[r..r + m] + block[o + m..]
  {}

  lemma PieceElsewhere(s: Bytes, a: nat, b: Bytes, r: nat, m: nat, p: nat, q: nat)
    requires r + m <= |b| && p <= a + r && a + r + m <= p + BLOCK
    requires q + BLOCK <= p || p + BLOCK <= q
    ensures BlockOf(Overlay(s, Write(a, b[..r + m])), q) == BlockOf(Overlay(s, Write(a, b[..r])), q)
  {}

  /** The block at p as the writer finds it: replaced before, or made from the original. */
  function Found(original: Bytes, replaced: map<nat, Block>, p: nat): Block {
    if p in replaced then replaced[p] else BlockOf(original, p)
  }

  /** A block that one more piece does not reach. */
  lemma PieceKeeps(original: Bytes, ws: seq<Write>, a: nat, b: Bytes, r: nat, m: nat, p: nat, q: nat)
    requires r + m <= |b| && p <= a + r && a + r + m <= p + BLOCK
    requires p % BLOCK == 0 && q != p && q in Touched(ws + [Write(a, b[..r])])
    ensures BlockOf(Overlaid(original, ws + [Write(a, b[..r + m])]), q)
         == BlockOf(Overlaid(original, ws + [Write(a, b[..r])]), q)
  {
    Snoc(original, ws, Write(a, b[..r]));
    Snoc(original, ws, Write(a, b[..r + m]));
    OtherBlock(ws + [Write(a, b[..r])], q, p);
    PieceElsewhere(Overlaid(original, ws), a, b, r, m, p, q);
  }

  /** The block that one more piece falls into. */
  lemma PieceAt(original: Bytes, ws: seq<Write>, a: nat, b: Bytes, r: nat, m: nat, p: nat)
    requires r + m <= |b| && m > 0
    requires p % BLOCK == 0 && p <= a + r && a + r + m <= p + BLOCK
    ensures var block, o := Found(original, Replaced(original, ws + [Write(a, b[..r])]), p), a + r - p;
      BlockOf(Overlaid(original, ws + [Write(a, b[..r + m])]), p) == block[..o] + b[r..r + m] + block[o + m..]
  {
    Snoc(original, ws, Write(a, b[..r]));
    Snoc(original, ws, Write(a, b[..r + m]));
    if p !in Touched(ws + [Write(a, b[..r])]) { CurrentBlock(original, ws + [Write(a, b[..r])], p); }
    PieceBlock(Overlaid(original, ws), a, b, r, m, p);
  }

  /** Writing one block's worth more of b changes just that block. */
  lemma NextPiece(original: Bytes, ws: seq<Write>, a: nat, b: Bytes, r: nat, m: nat, p: nat)
    requires r + m <= |b| && m > 0
    requires p % BLOCK == 0 && p <= a + r && a + r + m <= p + BLOCK
    ensures var now := Replaced(original, ws + [Write(a, b[..r])]);
      var block, o := Found(original, now, p), a + r - p;
      Replaced(original, ws + [Write(a, b[..r + m])]) == now[p := block[..o] + b[r..r + m] + block[o + m..]]
  {
    PieceAt(original, ws, a, b, r, m, p);
    forall q | q in Touched(ws + [Write(a, b[..r])]) && q != p
      ensures BlockOf(Overlaid(original, ws + [Write(a, b[..r + m])]), q)
           == BlockOf(Overlaid(original, ws + [Write(a, b[..r])]), q)
    {
      PieceKeeps(original, ws, a, b, r, m, p, q);
    }
    TouchedMore(original, ws, a, b, r, m, p);
  }

  lemma TouchedMore(original: Bytes, ws: seq<Write>, a: nat, b: Bytes, r: nat, m: nat, p: nat)
    requires r + m <= |b| && m > 0
    requires p % BLOCK == 0 && p <= a + r && a + r + m <= p + BLOCK
    ensures Touched(ws + [Write(a, b[..r + m])]) == Touched(ws + [Write(a, b[..r])]) + {p}
  {
    Snoc(original, ws, Write(a, b[..r]));
    Snoc(original, ws, Write(a, b[..r + m]));
    ReachedMore(a, b, r, m, p);
  }

  lemma ReachedMore(a: nat, b: Bytes, r: nat, m: nat, p: nat)
    requires r + m <= |b| && m > 0
    requires p % BLOCK == 0 && p <= a + r && a + r + m <= p + BLOCK
    ensures Reached(Write(a, b[..r + m])) == Reached(Write(a, b[..r])) + {p}
  {
    forall i | a + r <= i < a + r + m ensures Start(i) == p { StartUnique(p, i); }
    assert Start(a + r) in Reached(Write(a, b[..r + m]));
  }

  lemma {:induction false} OtherBlock(ws: seq<Write>, q: nat, p: nat)
    requires q in Touched(ws) && p % BLOCK == 0 && q != p
    ensures q % BLOCK == 0 && (q + BLOCK <= p || p + BLOCK <= q)
  {
    if q in Reached(ws[|ws| - 1]) {
    } else {
      OtherBlock(ws[..|ws| - 1], q, p);
    }
  }

  /** A.mh: collects the blocks that writes replace, starting from the original content. */
  class BlockWriter {
    const original: Bytes
    var replaced: map<nat, Block>
    var newLength: nat

    constructor (original: Bytes)
      ensures this.original == original && Holds([])
    {
      this.original := original;
      replaced, newLength := map[], |original|;
    }

    /** The writer holds the blocks that ws replaces, and the length after ws. */
    ghost predicate Holds(ws: seq<Write>)
      reads this
    {
      replaced == Replaced(original, ws) && newLength == |Overlaid(original, ws)|
    }

    /** mi: the block at p before it is written to. */
    function Unwritten(p: nat): (b: Block)
      ensures b == BlockOf(original, p)
    {
      var q := |original|;
      if q > p then
        var n := Min(BLOCK, q - p);
        original[p..p + n] + Zeros(BLOCK - n)
      else
        Zeros(BLOCK)
    }

    /** ji: puts c into the block at a, at position b inside the block. */
    method WriteInto(a: nat, b: nat, c: Bytes)
      requires b + |c| <= BLOCK
      modifies this
      ensures newLength == old(newLength)
      ensures var block := Found(original, old(replaced), a);
        replaced == old(replaced)[a := block[..b] + c + block[b + |c|..]]
    {
      var block: Block := if a in replaced then replaced[a] else Unwritten(a);
      replaced := replaced[a := block[..b] + c + block[b + |c|..]];
    }

    /** One turn of the loop of jA: writes the part of b from r on that falls into one block. */
    method PutPiece(a: nat, b: Bytes, r: nat, ghost ws: seq<Write>) returns (m: nat)
      requires r < |b| && replaced == Replaced(original, ws + [Write(a, b[..r])])
      modifies this
      ensures newLength == old(newLength) && 0 < m <= |b| - r
      ensures replaced == Replaced(original, ws + [Write(a, b[..r + m])])
    {
      var q := a + r;
      var p := q / BLOCK;
      var o := q % BLOCK;
      var n := |b| - r;
      m := if o != 0 then Min(BLOCK - o, n) else Min(BLOCK, n);
      NextPiece(original, ws, a, b, r, m, p * BLOCK);
      WriteInto(p * BLOCK, o, b[r..r + m]);
    }

    /** jA: writes b at offset a, block by block. */
    method Put(a: nat, b: Bytes, ghost ws: seq<Write>)
      requires Holds(ws)
      modifies this
      ensures Holds(ws + [Write(a, b)])
    {
      NothingYet(original, ws, a, b);
      PutPieces(a, b, ws);
      assert b[..|b|] == b;
      Snoc(original, ws, Write(a, b));
      newLength := if newLength < a + |b| then a + |b| else newLength;
    }

    /** The loop of jA. */
    method PutPieces(a: nat, b: Bytes, ghost ws: seq<Write>)
      requires replaced == Replaced(original, ws + [Write(a, b[..0])])
      modifies this
      ensures newLength == old(newLength) && replaced == Replaced(original, ws + [Write(a, b[..|b|])])
    {
      var r := 0;
      while r < |b|
        invariant 0 <= r <= |b| && newLength == old(newLength)
        invariant replaced == Replaced(original, ws + [Write(a, b[..r])])
      {
        var m := PutPiece(a, b, r, ws);
        r := r + m;
      }
    }
  }

  /** A write without data replaces no block, and a gap before it holds only zeros. */
  lemma NothingYet(original: Bytes, ws: seq<Write>, a: nat, b: Bytes)
    ensures Replaced(original, ws + [Write(a, b[..0])]) == Replaced(original, ws)
  {
    var w := Write(a, b[..0]);
    Snoc(original, ws, w);
    forall p | p in Touched(ws)
      ensures BlockOf(Overlaid(original, ws + [w]), p) == BlockOf(Overlaid(original, ws), p)
    {
      EmptyWrite(Overlaid(original, ws), w, p);
    }
    assert Reached(w) == {};
  }

  lemma EmptyWrite(s: Bytes, w: Write, p: nat)
    requires w.data == []
    ensures BlockOf(Overlay(s, w), p) == BlockOf(s, p)
  {
    forall k | 0 <= k < BLOCK ensures BlockOf(Overlay(s, w), p)[k] == BlockOf(s, p)[k] {
      OverlayByte(s, w, p + k);
    }
  }
}
