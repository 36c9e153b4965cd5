/**
 A waiting patch does not hold a copy of what it starts from, but the file's array in memory, into which later
 writes within the file go at once, before the patch is carried out. What all pending operations lead to is
 the same all the same; what some of them lead to is not.
*/
module SharedOriginals {
  import opened Options
  import opened Blocks
  import opened Storage
  import opened PendingQueue

  /** An operation after a write into the array, which it may share. */
  function Seen(op: Op, name: string, w: Write, shares: bool): Op {
    if shares && op.Patch? && op.name == name then Patch(name, Overlay(op.original, w), op.writes) else op
  }

  function AllSeen(q: seq<Op>, name: string, w: Write, shares: seq<bool>): (r: seq<Op>)
    requires |shares| == |q|
    ensures |r| == |q|
  {
    seq(|q|, i requires 0 <= i < |q| => Seen(q[i], name, w, shares[i]))
  }

  /** The write lies within the arrays shared, and every other kind of operation on the file gives it a new array. */
  ghost predicate MayShare(q: seq<Op>, name: string, w: Write, shares: seq<bool>) {
    && |shares| == |q|
    && forall i :: 0 <= i < |q| && shares[i] && q[i].Patch? && q[i].name == name ==>
         w.offset + |w.data| <= |q[i].original| && OnlyPatchesFrom(q, name, i)
  }

  ghost predicate OnlyPatchesFrom(q: seq<Op>, name: string, i: nat) {
    forall j :: i <= j < |q| && q[j].name == name ==> q[j].Patch?
  }

  predicate Within(w: Write, i: nat) {
    w.offset <= i < w.offset + |w.data|
  }

  /** Files that differ at most in the bytes that the write reaches. */
  ghost predicate AgreeBut(f: File, g: File, w: Write) {
    && f.length == g.length && f.blocks.Keys == g.blocks.Keys && Aligned(f)
    && forall p, k :: p in f.blocks && 0 <= k < BLOCK && !Within(w, p + k) ==> f.blocks[p][k] == g.blocks[p][k]
  }

  ghost predicate StoresAgreeBut(d: Disk, e: Disk, name: string, w: Write) {
    SameExcept(d, e, name) && (name in d <==> name in e) && (name in d ==> AgreeBut(d[name], e[name], w))
  }

  lemma {:induction false} OverlaidAgree(s: Bytes, t: Bytes, ws: seq<Write>, w: Write)
    requires |s| == |t| && forall i: nat :: !Within(w, i) ==> ByteAt(s, i) == ByteAt(t, i)
    ensures |Overlaid(s, ws)| == |Overlaid(t, ws)|
    ensures forall i: nat :: !Within(w, i) ==> ByteAt(Overlaid(s, ws), i) == ByteAt(Overlaid(t, ws), i)
  {
    if ws == [] {
    } else {
      var rest, last := ws[..|ws| - 1], ws[|ws| - 1];
      OverlaidAgree(s, t, rest, w);
      forall i: nat | !Within(w, i) ensures ByteAt(Overlaid(s, ws), i) == ByteAt(Overlaid(t, ws), i) {
        OverlayByte(Overlaid(s, rest), last, i);
        OverlayByte(Overlaid(t, rest), last, i);
      }
    }
  }

  /** What the array holds after the write agrees with what it held, but for the bytes written. */
  lemma ArrayAgrees(s: Bytes, w: Write, shares: bool)
    requires shares ==> w.offset + |w.data| <= |s|
    ensures var t := if shares then Overlay(s, w) else s;
      |s| == |t| && forall i: nat :: !Within(w, i) ==> ByteAt(s, i) == ByteAt(t, i)
  {
    forall i: nat ensures !Within(w, i) && shares ==> ByteAt(s, i) == ByteAt(Overlay(s, w), i) { OverlayByte(s, w, i); }
  }

  lemma PatchedAgree(f: File, g: File, s: Bytes, ws: seq<Write>, w: Write, shares: bool)
    requires AgreeBut(f, g, w) && (shares ==> w.offset + |w.data| <= |s|)
    ensures AgreeBut(Patched(f, s, ws), Patched(g, if shares then Overlay(s, w) else s, ws), w)
  {
    var t := if shares then Overlay(s, w) else s;
    ArrayAgrees(s, w, shares);
    OverlaidAgree(s, t, ws, w);
    PatchedAligned(f, s, ws);
  }

  /** A patch that ends with the write sets every byte in which the files may differ. */
  lemma PatchedSame(f: File, g: File, s: Bytes, ws: seq<Write>, w: Write, shares: bool)
    requires AgreeBut(f, g, w) && (shares ==> w.offset + |w.data| <= |s|)
    ensures Patched(f, s, ws + [w]) == Patched(g, if shares then Overlay(s, w) else s, ws + [w])
  {
    var t := if shares then Overlay(s, w) else s;
    ArrayAgrees(s, w, shares);
    OverlaidAgree(s, t, ws, w);
    Snoc(s, ws, w);
    Snoc(t, ws, w);
    var x, y := Overlaid(s, ws + [w]), Overlaid(t, ws + [w]);
    forall i: nat ensures ByteAt(x, i) == ByteAt(y, i) {
      OverlayByte(Overlaid(s, ws), w, i);
      OverlayByte(Overlaid(t, ws), w, i);
    }
    assert x == y;
    forall p | p in f.blocks && p !in Touched(ws + [w]) ensures f.blocks[p] == g.blocks[p] {
      forall k | 0 <= k < BLOCK ensures f.blocks[p][k] == g.blocks[p][k] {
        if Within(w, p + k) {
          assert Start(p + k) in Reached(w);
          StartUnique(p, p + k);
        }
      }
    }
    SameBlocks(f.blocks, g.blocks, Replaced(s, ws + [w]), Replaced(t, ws + [w]));
  }

  lemma SameBlocks(m: map<nat, Block>, n: map<nat, Block>, over: map<nat, Block>, over': map<nat, Block>)
    requires m.Keys == n.Keys && over == over'
    requires forall p :: p in m && p !in over ==> m[p] == n[p]
    ensures m + over == n + over'
  {}

  ghost predicate AlignedAt(d: Disk, name: string) {
    name in d ==> Aligned(d[name])
  }

  lemma {:induction false} AlignedAfter(q: seq<Op>, d: Disk, name: string)
    requires AlignedAt(d, name)
    ensures AlignedAt(Run(q, d), name)
  {
    if q == [] {
    } else {
      var rest, last := q[..|q| - 1], q[|q| - 1];
      AlignedAfter(rest, d, name);
      if last.name != name {
        WithoutOther(last, Run(rest, d), name);
      } else if last.Patch? && name in Run(rest, d) {
        PatchedAligned(Run(rest, d)[name], last.original, last.writes);
      }
    }
  }

  /** Before the end of its array's life nothing is shared. */
  lemma NothingShared(q: seq<Op>, name: string, w: Write, shares: seq<bool>)
    requires MayShare(q, name, w, shares) && q != [] && q[|q| - 1].name == name && !q[|q| - 1].Patch?
    ensures AllSeen(q, name, w, shares) == q
  {
    forall i | 0 <= i < |q| ensures Seen(q[i], name, w, shares[i]) == q[i] {}
  }

  lemma PerformAgrees(op: Op, d: Disk, e: Disk, name: string, w: Write, shares: bool)
    requires StoresAgreeBut(d, e, name, w) && (op.name == name ==> op.Patch?)
    requires shares && op.Patch? && op.name == name ==> w.offset + |w.data| <= |op.original|
    ensures StoresAgreeBut(Perform(op, d), Perform(Seen(op, name, w, shares), e), name, w)
  {
    if op.name == name {
      OwnFile(op, d);
      OwnFile(Seen(op, name, w, shares), e);
      if name in d { PatchedAgree(d[name], e[name], op.original, op.writes, w, shares); }
    } else {
      OthersAgree(op, d, e, name);
      WithoutOther(op, d, name);
      WithoutOther(op, e, name);
    }
  }

  /** All along the queue the store is the same but for bytes that the write reaches. */
  lemma {:induction false} RunAgrees(q: seq<Op>, name: string, w: Write, shares: seq<bool>, d: Disk)
    requires MayShare(q, name, w, shares) && AlignedAt(d, name)
    ensures StoresAgreeBut(Run(q, d), Run(AllSeen(q, name, w, shares), d), name, w)
  {
    AlignedAfter(q, d, name);
    if q == [] {
      assert AllSeen(q, name, w, shares) == [];
    } else if q[|q| - 1].name == name && !q[|q| - 1].Patch? {
      NothingShared(q, name, w, shares);
    } else {
      var n := |q| - 1;
      assert MayShare(q[..n], name, w, shares[..n]);
      RunAgrees(q[..n], name, w, shares[..n], d);
      assert AllSeen(q, name, w, shares)[..n] == AllSeen(q[..n], name, w, shares[..n]);
      PerformAgrees(q[n], Run(q[..n], d), Run(AllSeen(q[..n], name, w, shares[..n]), d), name, w, shares[n]);
    }
  }

  /** A patch that ends with the write makes the stores the same. */
  lemma PatchAgreed(d: Disk, e: Disk, name: string, original: Bytes, ws: seq<Write>, w: Write, shares: bool)
    requires StoresAgreeBut(d, e, name, w) && (shares ==> w.offset + |w.data| <= |original|)
    ensures Perform(Patch(name, original, ws + [w]), d)
         == Perform(Patch(name, if shares then Overlay(original, w) else original, ws + [w]), e)
  {
    var a := Patch(name, original, ws + [w]);
    var b := Patch(name, if shares then Overlay(original, w) else original, ws + [w]);
    if name in d { PatchedSame(d[name], e[name], original, ws, w, shares); }
    OwnFile(a, d);
    OwnFile(b, e);
    SameByFile(Perform(a, d), Perform(b, e), name);
  }

  /** The same for a write that joins a waiting patch. */
  lemma {:induction false} MergedAgrees(q: seq<Op>, name: string, w: Write, shares: seq<bool>, d: Disk)
    requires MayShare(q, name, w, shares) && AlignedAt(d, name)
    ensures var seen := AllSeen(q, name, w, shares);
      && (CanMerge(seen, name) <==> CanMerge(q, name))
      && (CanMerge(q, name) ==> Run(MergeWrite(seen, name, w), d) == Run(MergeWrite(q, name, w), d))
  {
    if q == [] {
      assert AllSeen(q, name, w, shares) == [];
    } else {
      var n := |q| - 1;
      var rest, last, seen := q[..n], q[n], AllSeen(q, name, w, shares);
      assert MayShare(rest, name, w, shares[..n]);
      var before := AllSeen(rest, name, w, shares[..n]);
      assert seen[..n] == before && seen[n] == Seen(last, name, w, shares[n]);
      MergedAgrees(rest, name, w, shares[..n], d);
      if last.Patch? && last.name == name {
        RunAgrees(rest, name, w, shares[..n], d);
        PatchAgreed(Run(rest, d), Run(before, d), name, last.original, last.writes, w, shares[n]);
        RunSnoc(rest, Patch(name, last.original, last.writes + [w]), d);
        RunSnoc(before, Patch(name, seen[n].original, last.writes + [w]), d);
      } else if CanMerge(q, name) {
        RunSnoc(MergeWrite(rest, name, w), last, d);
        RunSnoc(MergeWrite(before, name, w), last, d);
      }
    }
  }

  /**
   Whichever of the waiting patches, and whether or not the new one, share the array that a write goes into: once all
   of them are done, the store is the one that patches with copies lead to.
  */
  lemma SharingDoesNotMatterInTheEnd(q: seq<Op>, name: string, original: Bytes, w: Write, shares: seq<bool>, own: bool,
                                     d: Disk)
    requires MayShare(q, name, w, shares) && AlignedAt(d, name) && (own ==> w.offset + |w.data| <= |original|)
    ensures var seen, held := AllSeen(q, name, w, shares), if own then Overlay(original, w) else original;
      Run(InsertPatch(seen, name, held, w), d) == Run(InsertPatch(q, name, original, w), d)
  {
    var seen, held := AllSeen(q, name, w, shares), if own then Overlay(original, w) else original;
    MergedAgrees(q, name, w, shares, d);
    if !CanMerge(q, name) {
      RunAgrees(q, name, w, shares, d);
      assert [] + [w] == [w];
      PatchAgreed(Run(q, d), Run(seen, d), name, original, [], w, own);
      RunSnoc(q, Patch(name, original, [w]), d);
      RunSnoc(seen, Patch(name, held, [w]), d);
    }
  }

  /**
   In between it does matter. Over three zeros, 1 1 is written at 0 and then, while the first patch waits, 2 2 at 1.
   That patch, with the array as it then is, leaves 1 1 2 on the store, which the file never was.
  */
  lemma SharedBytesComeEarly(n: string)
    ensures var first, second := Write(0, [1, 1]), Write(1, [2, 2]);
      var d: Disk := map[n := File(3, map[])];
      var waiting := Seen(Patch(n, Overlay([0, 0, 0], first), [first]), n, second, true);
      && Read(d[n]) == [0, 0, 0] && Overlay([0, 0, 0], first) == [1, 1, 0] && Overlay([1, 1, 0], second) == [1, 2, 2]
      && ReadBack(Perform(waiting, d)[n]) == Some([1, 1, 2])
  {
    var first, second := Write(0, [1, 1]), Write(1, [2, 2]);
    var f, left: Bytes := File(3, map[]), [1, 1, 2];
    assert Overlay([0, 0, 0], first) == [1, 1, 0] && Overlay([1, 1, 0], second) == [1, 2, 2];
    assert Overlay([1, 2, 2], first) == [1, 1, 2] && [] + [first] == [first];
    Snoc([1, 2, 2], [], first);
    assert Start(0) in Reached(first);
    forall i: nat | i < 3 ensures StoredByte(Patched(f, [1, 2, 2], [first]), i) == left[i] {
      PatchedByte(f, [1, 2, 2], [first], i);
      StartUnique(0, i);
    }
    PatchedSound(f, [1, 2, 2], [first]);
    assert Read(Patched(f, [1, 2, 2], [first])) == left;
  }
}
