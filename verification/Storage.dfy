/** The persisted form of a file, A.fE: its row holds the length, its blocks are kept by offset. */
module Storage {
  import opened Options
  import opened Blocks

  datatype File = File(length: nat, blocks: map<nat, Block>)

  /** Blocks start at multiples of 4096. */
  predicate Aligned(f: File) {
    forall p :: p in f.blocks ==> p % BLOCK == 0
  }

  /** None of the blocks starts past the end of the file. */
  predicate Sound(f: File) {
    Aligned(f) && forall p :: p in f.blocks ==> p <= f.length
  }

  /** The byte stored at i, which may be past the end of the file. */
  function StoredByte(f: File, i: nat): Byte {
    if Start(i) in f.blocks then f.blocks[Start(i)][i - Start(i)] else 0
  }

  /** The content of a file. */
  function Read(f: File): (s: Bytes)
    ensures |s| == f.length
  {
    seq(f.length, i requires i >= 0 => StoredByte(f, i))
  }

  /** What reading a file gives: nothing when one of its blocks starts past its end. */
  function ReadBack(f: File): Option<Bytes> {
    if Sound(f) then Some(Read(f)) else None
  }

  /**
   bC: reads a file by copying its blocks, in any order, into an array of the file's length. The view of a
   block that starts past the end would have a negative length, and the exception ends the reading.
  */
  method ReadBlocks(f: File) returns (content: Option<Bytes>)
    requires Aligned(f)
    ensures content == ReadBack(f)
  {
    var l := Zeros(f.length);
    var left := f.blocks.Keys;
    while left != {}
      invariant left <= f.blocks.Keys && |l| == f.length
      invariant forall p :: p in f.blocks && p !in left ==> p <= f.length
      invariant forall i :: 0 <= i < f.length ==> l[i] == if Start(i) in left then 0 else StoredByte(f, i)
      decreases left
    {
      var p :| p in left;
      if p > f.length { return None; }
      var n := Min(BLOCK, f.length - p);
      l := l[..p] + f.blocks[p][..n] + l[p + n..];
      left := left - {p};
      forall i | 0 <= i < f.length ensures l[i] == if Start(i) in left then 0 else StoredByte(f, i) {
        if p <= i < p + BLOCK { StartUnique(p, i); } else { assert Start(i) != p; }
      }
    }
    assert l == Read(f);
    return Some(l);
  }

  /** cS: the row of a new file. */
  const EMPTY: File := File(0, map[])

  /** b7: the file with the blocks of the writer put over its own, and the writer's length. */
  function Patched(f: File, original: Bytes, ws: seq<Write>): File {
    File(|Overlaid(original, ws)|, f.blocks + Replaced(original, ws))
  }

  /** bi: the file cut or extended to n bytes; cutting deletes the blocks behind the one that holds byte n. */
  function Resized(f: File, n: nat): File {
    File(n, if f.length > n then map p | p in f.blocks && p < (n / BLOCK) * BLOCK + 1 :: f.blocks[p] else f.blocks)
  }

  /** A byte sequence cut, or extended with zeros, to n bytes. */
  function ResizedBytes(s: Bytes, n: nat): (t: Bytes)
    ensures |t| == n
  {
    seq(n, i requires i >= 0 => ByteAt(s, i))
  }

  /** No byte left over past the end of f shows up before upto, outside the blocks that are replaced. */
  ghost predicate NoStale(f: File, upto: nat, replaced: set<nat>) {
    forall i :: f.length <= i < upto && Start(i) !in replaced ==> StoredByte(f, i) == 0
  }

  lemma {:induction false} TouchedBounds(s: Bytes, ws: seq<Write>, p: nat)
    requires p in Touched(ws)
    ensures p % BLOCK == 0 && p < |Overlaid(s, ws)|
  {
    if p in Reached(ws[|ws| - 1]) {
    } else {
      TouchedBounds(s, ws[..|ws| - 1], p);
    }
  }

  lemma {:induction false} OverlaidGrows(s: Bytes, ws: seq<Write>)
    ensures |s| <= |Overlaid(s, ws)|
  {
    if ws == [] {
    } else {
      OverlaidGrows(s, ws[..|ws| - 1]);
    }
  }

  lemma PatchedAligned(f: File, original: Bytes, ws: seq<Write>)
    requires Aligned(f)
    ensures Aligned(Patched(f, original, ws))
  {
    forall p | p in Touched(ws) ensures p % BLOCK == 0 { TouchedBounds(original, ws, p); }
  }

  lemma PatchedSound(f: File, original: Bytes, ws: seq<Write>)
    requires Sound(f) && f.length == |original|
    ensures Sound(Patched(f, original, ws))
  {
    OverlaidGrows(original, ws);
    forall p | p in Touched(ws) ensures p % BLOCK == 0 && p <= |Overlaid(original, ws)| {
      TouchedBounds(original, ws, p);
    }
  }

  lemma PatchedByte(f: File, original: Bytes, ws: seq<Write>, i: nat)
    ensures StoredByte(Patched(f, original, ws), i)
         == if Start(i) in Touched(ws) then ByteAt(Overlaid(original, ws), i) else StoredByte(f, i)
  {}

  /**
   Replacing whole blocks equals writing into the bytes exactly when no byte left over past the
   end of the file is exposed.
  */
  lemma PatchExact(f: File, ws: seq<Write>)
    requires Sound(f)
    ensures Read(Patched(f, Read(f), ws)) == Overlaid(Read(f), ws)
       <==> NoStale(f, |Overlaid(Read(f), ws)|, Touched(ws))
  {
    var original := Read(f);
    var content := Overlaid(original, ws);
    OverlaidGrows(original, ws);
    forall i | 0 <= i < |content|
      ensures Read(Patched(f, original, ws))[i] == content[i]
         <==> (f.length <= i && Start(i) !in Touched(ws) ==> StoredByte(f, i) == 0)
    {
      PatchedByte(f, original, ws, i);
      if Start(i) !in Touched(ws) { Untouched(original, ws, i); }
    }
  }

  /** Every write starts at or before the end of what has been written so far. */
  ghost predicate Connected(s: Bytes, ws: seq<Write>) {
    forall k :: 0 <= k < |ws| ==> ws[k].offset <= |Overlaid(s, ws[..k])|
  }

  lemma {:induction false} GrowthIsTouched(s: Bytes, ws: seq<Write>)
    requires Connected(s, ws) && |Overlaid(s, ws)| > |s|
    ensures Start(|s|) in Touched(ws)
  {
    var n := |ws| - 1;
    var w := ws[n];
    if |Overlaid(s, ws[..n])| > |s| {
      forall k | 0 <= k < n ensures ws[..n][k].offset <= |Overlaid(s, ws[..n][..k])| {
        assert ws[..n][..k] == ws[..k];
      }
      GrowthIsTouched(s, ws[..n]);
    } else {
      OverlaidGrows(s, ws[..n]);
      assert w.offset <= |s| < w.offset + |w.data|;
      assert Start(|s|) in Reached(w);
    }
  }

  /** Writes that start at or before the end of the file never expose a byte left over. */
  lemma ConnectedIsSafe(f: File, ws: seq<Write>)
    requires Sound(f) && Connected(Read(f), ws)
    ensures NoStale(f, |Overlaid(Read(f), ws)|, Touched(ws))
  {
    forall i: nat | f.length <= i < |Overlaid(Read(f), ws)| && Start(i) !in Touched(ws)
      ensures StoredByte(f, i) == 0
    {
      GrowthIsTouched(Read(f), ws);
      if Start(i) in f.blocks { StartUnique(Start(i), f.length); }
    }
  }

  /** Block-wise writing is byte-wise writing, for writes that start at or before the end of the file. */
  lemma SplittingIsSplicing(f: File, ws: seq<Write>)
    requires Sound(f) && Connected(Read(f), ws)
    ensures Read(Patched(f, Read(f), ws)) == Overlaid(Read(f), ws)
    ensures Sound(Patched(f, Read(f), ws))
  {
    ConnectedIsSafe(f, ws);
    PatchExact(f, ws);
    PatchedSound(f, Read(f), ws);
  }

  lemma ResizedSound(f: File, n: nat)
    requires Sound(f)
    ensures Sound(Resized(f, n))
  {}

  /** Truncating or extending a stored file does what it does to its bytes exactly when no byte left over is exposed. */
  lemma ResizeExact(f: File, n: nat)
    requires Sound(f)
    ensures Read(Resized(f, n)) == ResizedBytes(Read(f), n) <==> NoStale(f, n, {})
    ensures n <= f.length ==> Read(Resized(f, n)) == ResizedBytes(Read(f), n)
  {
    forall i | 0 <= i < n
      ensures Read(Resized(f, n))[i] == ResizedBytes(Read(f), n)[i] <==> (f.length <= i ==> StoredByte(f, i) == 0)
    {
      ResizedByte(f, n, i);
    }
  }

  lemma ResizedByte(f: File, n: nat, i: nat)
    requires i < n
    ensures StoredByte(Resized(f, n), i) == StoredByte(f, i)
  {
    assert i / BLOCK <= n / BLOCK;
    assert Start(i) == (i / BLOCK) * BLOCK;
  }

  /** Cutting a file short and extending it again brings old bytes back: the stored form is not the bytes. */
  lemma StaleBytesReturn() returns (f: File, n: nat)
    ensures Sound(f) && f.length < n
    ensures exists content: Bytes, shorter: nat ::
      f == Resized(Patched(EMPTY, [], [Write(0, content)]), shorter) && shorter < |content|
    ensures Read(Resized(f, n)) != ResizedBytes(Read(f), n)
  {
    var content: Bytes := [1, 1];
    var w := Write(0, content);
    var full := Patched(EMPTY, [], [w]);
    f, n := Resized(full, 1), 2;
    Snoc([], [], w);
    assert [] + [w] == [w];
    assert Start(1) == 0 && Start(0) in Reached(w);
    PatchedByte(EMPTY, [], [w], 1);
    PatchedSound(EMPTY, [], [w]);
    ResizedSound(full, 1);
    assert StoredByte(full, 1) == 1 && 0 in full.blocks;
    assert StoredByte(f, 1) == 1;
    assert !NoStale(f, 2, {});
    ResizeExact(f, 2);
    assert f == Resized(Patched(EMPTY, [], [Write(0, content)]), 1) && 1 < |content|;
  }

  /** Two patches in a row, the second one starting from what the first one leaves, are one patch. */
  lemma PatchesMerge(f: File, original: Bytes, ws: seq<Write>, w: Write)
    ensures Patched(Patched(f, original, ws), Overlaid(original, ws), [w]) == Patched(f, original, ws + [w])
  {
    var content := Overlaid(original, ws);
    Snoc(original, ws, w);
    Snoc(content, [], w);
    assert [] + [w] == [w];
    var first, second, both := Replaced(original, ws), Replaced(content, [w]), Replaced(original, ws + [w]);
    forall p | p in both ensures both[p] == if p in second then second[p] else first[p] {
      if p !in second {
        TouchedBounds(original, ws, p);
        CurrentBlock(content, [w], p);
      }
    }
    MapsMerge(f.blocks, first, second, both);
  }

  lemma MapsMerge(m: map<nat, Block>, first: map<nat, Block>, second: map<nat, Block>, both: map<nat, Block>)
    requires both.Keys == first.Keys + second.Keys
    requires forall p :: p in both ==> both[p] == if p in second then second[p] else first[p]
    ensures m + first + second == m + both
  {}
}
