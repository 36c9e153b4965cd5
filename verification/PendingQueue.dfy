/**
 The pending operations of A.cY and how a new one enters the queue. Inserting rewrites the queue
 instead of just appending: writes to the same file are merged, a repeated delete is dropped,
 writes before a delete are removed, and a delete cancels a create.
*/
module PendingQueue {
  import opened Options
  import opened Blocks
  import opened Storage

  /** A.cC, A.dr, A.cK and the one use of A.dt that reaches the files, made by A.ij.cn. */
  datatype Op =
    | Create(name: string)
    | Delete(name: string)
    | Patch(name: string, original: Bytes, writes: seq<Write>)
    | Resize(name: string, length: nat)

  type Disk = map<string, File>

  /**
   The effect of one operation on the stored files. Creating a file that is there fails on the
   unique name, and every other operation on an absent file fails when its id is looked up; a
   failed operation changes nothing.
  */
  function Perform(op: Op, d: Disk): Disk {
    match op
    case Create(n) => if n in d then d else d[n := EMPTY]
    case Delete(n) => d - {n}
    case Patch(n, original, ws) => if n in d then d[n := Patched(d[n], original, ws)] else d
    case Resize(n, length) => if n in d then d[n := Resized(d[n], length)] else d
  }

  /** The effect of the operations in order. */
  function Run(q: seq<Op>, d: Disk): Disk {
    if q == [] then d else Perform(q[|q| - 1], Run(q[..|q| - 1], d))
  }

  lemma RunSnoc(q: seq<Op>, op: Op, d: Disk)
    ensures Run(q + [op], d) == Perform(op, Run(q, d))
  {
    assert (q + [op])[..|q|] == q;
  }

  lemma {:induction false} RunCons(q: seq<Op>, d: Disk)
    requires q != []
    ensures Run(q, d) == Run(q[1..], Perform(q[0], d))
  {
    if |q| > 1 {
      RunCons(q[..|q| - 1], d);
      assert q[..|q| - 1][1..] == q[1..][..|q| - 2];
    } else {
      assert q[1..] == [] && q[..0] == [];
    }
  }

  // ----- Entering the queue -----

  /**
   A.cK.ew, scanning from the end: a patch of the same file takes the new write, patches and
   creations of other files are passed over, and anything else stops the scan.
  */
  function MergeWrite(q: seq<Op>, name: string, w: Write): (merged: seq<Op>)
    ensures |merged| == |q|
  {
    if q == [] then q
    else
      var rest, last := q[..|q| - 1], q[|q| - 1];
      match last
      case Patch(n, original, ws) =>
        if n == name then rest + [Patch(n, original, ws + [w])] else MergeWrite(rest, name, w) + [last]
      case Create(n) => if n == name then q else MergeWrite(rest, name, w) + [last]
      case _ => q
  }

  /** Whether the scan of A.cK.ew finds a patch to merge with. */
  predicate CanMerge(q: seq<Op>, name: string) {
    q != [] &&
    match q[|q| - 1]
    case Patch(n, _, _) => n == name || CanMerge(q[..|q| - 1], name)
    case Create(n) => n != name && CanMerge(q[..|q| - 1], name)
    case _ => false
  }

  function InsertPatch(q: seq<Op>, name: string, original: Bytes, w: Write): seq<Op> {
    if CanMerge(q, name) then MergeWrite(q, name, w) else q + [Patch(name, original, [w])]
  }

  /**
   A.dr.ew, scanning from the end: patches of the file are removed, until a deletion of the file,
   a creation of it (which is removed as well), or an operation of another kind stops the scan.
  */
  function Purge(q: seq<Op>, name: string): seq<Op> {
    if q == [] then q
    else
      var rest, last := q[..|q| - 1], q[|q| - 1];
      match last
      case Delete(n) => if n == name then q else Purge(rest, name) + [last]
      case Patch(n, _, _) => if n == name then Purge(rest, name) else Purge(rest, name) + [last]
      case Create(n) => if n == name then rest else Purge(rest, name) + [last]
      case _ => q
  }

  /** Whether that scan finds that nothing is left to delete, so that the deletion is dropped. */
  predicate Settled(q: seq<Op>, name: string) {
    q != [] &&
    match q[|q| - 1]
    case Delete(n) => n == name || Settled(q[..|q| - 1], name)
    case Create(n) => n == name || Settled(q[..|q| - 1], name)
    case Patch(_, _, _) => Settled(q[..|q| - 1], name)
    case _ => false
  }

  function InsertDelete(q: seq<Op>, name: string): seq<Op> {
    if Settled(q, name) then Purge(q, name) else Purge(q, name) + [Delete(name)]
  }

  // ----- Where the scans stop -----

  /** The patch of the file at i has behind it only patches and creations of other files. */
  ghost predicate MergesAt(q: seq<Op>, name: string, i: int) {
    && 0 <= i < |q| && q[i].Patch? && q[i].name == name
    && forall j :: i < j < |q| ==> q[j].name != name && (q[j].Patch? || q[j].Create?)
  }

  /** A write is merged into that patch, and if there is none it is not merged. */
  lemma {:induction false} MergesExactly(q: seq<Op>, name: string, w: Write)
    ensures CanMerge(q, name) ==> exists i :: MergesAt(q, name, i)
    ensures forall i :: MergesAt(q, name, i) ==>
              CanMerge(q, name) && MergeWrite(q, name, w) == q[i := Patch(name, q[i].original, q[i].writes + [w])]
  {
    if q == [] {
    } else {
      var rest, last := q[..|q| - 1], q[|q| - 1];
      MergesExactly(rest, name, w);
      if last.Patch? && last.name == name {
        assert MergesAt(q, name, |q| - 1);
      } else if CanMerge(q, name) {
        var i :| MergesAt(rest, name, i);
        assert MergesAt(q, name, i);
      }
      forall i | MergesAt(q, name, i)
        ensures CanMerge(q, name) && MergeWrite(q, name, w) == q[i := Patch(name, q[i].original, q[i].writes + [w])]
      {
        if i < |q| - 1 { assert MergesAt(rest, name, i); }
      }
    }
  }

  /** The operations on other files. */
  function Others(q: seq<Op>, name: string): seq<Op> {
    if q == [] then []
    else Others(q[..|q| - 1], name) + if q[|q| - 1].name == name then [] else [q[|q| - 1]]
  }

  /** What ends the scan of a deletion: a truncation of any file, a creation or a deletion of this one. */
  predicate Ends(op: Op, name: string) {
    op.Resize? || (op.name == name && !op.Patch?)
  }

  /**
   Behind the last operation that ends the scan everything about the file is dropped, and a creation that ends it
   as well; the deletion is dropped if that was a creation or a deletion.
  */
  lemma {:induction false} PurgesExactly(head: seq<Op>, tail: seq<Op>, name: string)
    requires head == [] || Ends(head[|head| - 1], name)
    requires forall j :: 0 <= j < |tail| ==> !Ends(tail[j], name)
    ensures Settled(head + tail, name) <==> head != [] && !head[|head| - 1].Resize?
    ensures Purge(head + tail, name)
         == (if head != [] && head[|head| - 1].Create? then head[..|head| - 1] else head) + Others(tail, name)
  {
    if tail == [] {
      assert head + tail == head;
    } else {
      var rest, last := tail[..|tail| - 1], tail[|tail| - 1];
      assert (head + tail)[..|head + tail| - 1] == head + rest && (head + tail)[|head + tail| - 1] == last;
      PurgesExactly(head, rest, name);
    }
  }

  // ----- What the rewriting means -----

  /** Every creation finds its file absent. */
  ghost predicate CreatesFresh(q: seq<Op>, d: Disk) {
    q != [] ==>
      CreatesFresh(q[..|q| - 1], d) && (q[|q| - 1].Create? ==> q[|q| - 1].name !in Run(q[..|q| - 1], d))
  }

  lemma FreshSnoc(q: seq<Op>, op: Op, d: Disk)
    ensures CreatesFresh(q + [op], d) <==> CreatesFresh(q, d) && (op.Create? ==> op.name !in Run(q, d))
  {
    assert (q + [op])[..|q|] == q;
  }

  lemma {:induction false} FreshCons(q: seq<Op>, d: Disk)
    requires q != []
    ensures CreatesFresh(q, d)
       <==> CreatesFresh(q[1..], Perform(q[0], d)) && (q[0].Create? ==> q[0].name !in d)
  {
    if |q| == 1 {
      assert q[..0] == [];
    } else {
      var rest := q[..|q| - 1];
      FreshCons(rest, d);
      RunCons(rest, d);
      assert rest[1..] == q[1..][..|q| - 2];
    }
  }

  /** Disks that differ at most in one file. */
  ghost predicate SameExcept(d: Disk, e: Disk, name: string) {
    d - {name} == e - {name}
  }

  /** The file is the same on both stores, or on neither. */
  ghost predicate SameFile(d: Disk, e: Disk, n: string) {
    (n in d <==> n in e) && (n in d ==> d[n] == e[n])
  }

  lemma SameByFile(d: Disk, e: Disk, n: string)
    requires SameExcept(d, e, n)
    ensures d == e <==> SameFile(d, e, n)
    ensures forall k :: k != n ==> SameFile(d, e, k)
  {
    forall k | k != n ensures SameFile(d, e, k) {
      assert k in d <==> k in d - {n};
      assert k in e <==> k in e - {n};
      if k in d { assert d[k] == (d - {n})[k] == (e - {n})[k] == e[k]; }
    }
    if SameFile(d, e, n) {
      assert forall k :: SameFile(d, e, k);
      forall k ensures k in d <==> k in e { assert SameFile(d, e, k); }
      assert d.Keys == e.Keys;
      forall k | k in d ensures d[k] == e[k] { assert SameFile(d, e, k); }
    }
  }

  lemma OthersAgree(op: Op, d: Disk, e: Disk, name: string)
    requires op.name != name && SameExcept(d, e, name)
    ensures SameExcept(Perform(op, d), Perform(op, e), name)
    ensures op.name in d <==> op.name in e
    ensures InOrder(op, d) <==> InOrder(op, e)
  {
    WithoutOther(op, d, name);
    WithoutOther(op, e, name);
  }

  lemma WithoutOther(op: Op, d: Disk, name: string)
    requires op.name != name
    ensures Perform(op, d) - {name} == Perform(op, d - {name})
    ensures op.name in d <==> op.name in d - {name}
    ensures InOrder(op, d) <==> InOrder(op, d - {name})
    ensures name in Perform(op, d) <==> name in d
    ensures name in d ==> Perform(op, d)[name] == d[name]
  {}

  /**
   Whether the scan of A.dr.ew stops at a creation of the file that finds the file stored, and so has
   no effect of its own that the deletion could cancel.
  */
  ghost predicate CancelsStored(q: seq<Op>, name: string, d: Disk) {
    q != [] &&
    var rest, last := q[..|q| - 1], q[|q| - 1];
    match last
    case Create(n) => if n == name then name in Run(rest, d) else CancelsStored(rest, name, d)
    case Delete(n) => n != name && CancelsStored(rest, name, d)
    case Patch(_, _, _) => CancelsStored(rest, name, d)
    case _ => false
  }

  lemma OwnFile(op: Op, d: Disk)
    ensures SameExcept(Perform(op, d), d, op.name)
  {}

  lemma KeptByPurge(purged: seq<Op>, last: Op, rest: seq<Op>, name: string, d: Disk)
    requires last.name != name && SameExcept(Run(purged, d), Run(rest, d), name)
    ensures SameExcept(Run(purged + [last], d), Perform(last, Run(rest, d)), name)
    ensures name in Run(purged + [last], d) <==> name in Run(purged, d)
    ensures CreatesFresh(purged, d) && (last.Create? ==> last.name !in Run(rest, d))
            ==> CreatesFresh(purged + [last], d)
  {
    RunSnoc(purged, last, d);
    FreshSnoc(purged, last, d);
    OthersAgree(last, Run(purged, d), Run(rest, d), name);
    WithoutOther(last, Run(purged, d), name);
  }

  /**
   Purging keeps every other file; and when the deletion is dropped the file is gone, unless the scan
   cancelled the creation of a file that was stored.
  */
  lemma {:induction false} PurgeMeaning(q: seq<Op>, name: string, d: Disk)
    ensures SameExcept(Run(Purge(q, name), d), Run(q, d), name)
    ensures Settled(q, name) ==> (name in Run(Purge(q, name), d) <==> CancelsStored(q, name, d))
    ensures CancelsStored(q, name, d) ==> Settled(q, name)
  {
    if q == [] {
    } else {
      var rest, last := q[..|q| - 1], q[|q| - 1];
      PurgeMeaning(rest, name, d);
      if last.name != name && !last.Resize? {
        KeptByPurge(Purge(rest, name), last, rest, name, d);
      } else {
        OwnFile(last, Run(rest, d));
      }
    }
  }

  /** A queue that creates only absent files stays one, and no creation of a stored file is cancelled. */
  lemma {:induction false} PurgeKeepsFresh(q: seq<Op>, name: string, d: Disk)
    requires CreatesFresh(q, d)
    ensures CreatesFresh(Purge(q, name), d) && !CancelsStored(q, name, d)
  {
    if q == [] {
    } else {
      var rest, last := q[..|q| - 1], q[|q| - 1];
      PurgeKeepsFresh(rest, name, d);
      if last.name != name && !last.Resize? {
        PurgeMeaning(rest, name, d);
        KeptByPurge(Purge(rest, name), last, rest, name, d);
      }
    }
  }

  /**
   On every queue and every store, inserting a deletion means the same as appending it exactly when
   it does not cancel the creation of a file that is then stored; otherwise the file stays.
  */
  lemma InsertDeleteExact(q: seq<Op>, name: string, d: Disk)
    ensures Run(InsertDelete(q, name), d) == Run(q + [Delete(name)], d) <==> !CancelsStored(q, name, d)
    ensures SameExcept(Run(InsertDelete(q, name), d), Run(q + [Delete(name)], d), name)
    ensures CancelsStored(q, name, d) ==> name in Run(InsertDelete(q, name), d)
  {
    PurgeMeaning(q, name, d);
    RunSnoc(q, Delete(name), d);
    RunSnoc(Purge(q, name), Delete(name), d);
    var purged := Run(Purge(q, name), d);
    if name !in purged { assert purged == purged - {name}; }
  }

  /** Inserting a deletion means the same as appending it, on every queue that creates only absent files. */
  lemma InsertDeleteMeaning(q: seq<Op>, name: string, d: Disk)
    requires CreatesFresh(q, d)
    ensures Run(InsertDelete(q, name), d) == Run(q + [Delete(name)], d)
    ensures CreatesFresh(InsertDelete(q, name), d)
  {
    PurgeKeepsFresh(q, name, d);
    InsertDeleteExact(q, name, d);
    FreshSnoc(Purge(q, name), Delete(name), d);
  }

  /**
   The smallest queue on which the rewriting is not the same as appending: the deletion cancels a
   creation that has no effect, and the file stays.
  */
  lemma CreatedTwice(n: string)
    ensures var q, d := [Create(n)], map[n := EMPTY];
      && !CreatesFresh(q, d) && CancelsStored(q, n, d)
      && n in Run(InsertDelete(q, n), d)
      && n !in Run(q + [Delete(n)], d)
  {}

  /** The patch that the scan of A.cK.ew reaches. */
  function MergeTarget(q: seq<Op>, name: string): (p: Op)
    requires CanMerge(q, name)
    ensures p.Patch? && p.name == name
  {
    if q[|q| - 1].name == name then q[|q| - 1] else MergeTarget(q[..|q| - 1], name)
  }

  lemma Commute(a: Op, b: Op, d: Disk)
    requires a.name != b.name
    ensures Perform(a, Perform(b, d)) == Perform(b, Perform(a, d))
  {}

  /** A write merged into the patch before it, if it starts from what that patch leads to. */
  lemma MergeAtPatch(last: Op, w: Write, d: Disk)
    requires last.Patch?
    ensures Perform(Patch(last.name, last.original, last.writes + [w]), d)
         == Perform(Patch(last.name, Overlaid(last.original, last.writes), [w]), Perform(last, d))
  {
    if last.name in d { PatchesMerge(d[last.name], last.original, last.writes, w); }
  }

  /**
   A write can be merged back past operations on other files into the patch that the scan reaches, on
   every queue and every store, if it starts from what that patch leads to.
  */
  lemma {:induction false} MergeMeaning(q: seq<Op>, name: string, original: Bytes, w: Write, d: Disk)
    requires CanMerge(q, name)
    requires var p := MergeTarget(q, name); Overlaid(p.original, p.writes) == original
    ensures Run(MergeWrite(q, name, w), d) == Run(q + [Patch(name, original, [w])], d)
  {
    var rest, last := q[..|q| - 1], q[|q| - 1];
    var patch := Patch(name, original, [w]);
    RunSnoc(q, patch, d);
    if last.Patch? && last.name == name {
      RunSnoc(rest, Patch(name, last.original, last.writes + [w]), d);
      MergeAtPatch(last, w, Run(rest, d));
    } else {
      MergeMeaning(rest, name, original, w, d);
      RunSnoc(rest, patch, d);
      RunSnoc(MergeWrite(rest, name, w), last, d);
      Commute(last, patch, Run(rest, d));
    }
  }

  /** Merging a write touches no other file. */
  lemma {:induction false} MergeElsewhere(q: seq<Op>, n: string, w: Write, d: Disk)
    requires CanMerge(q, n)
    ensures SameExcept(Run(MergeWrite(q, n, w), d), Run(q, d), n)
  {
    var rest, last := q[..|q| - 1], q[|q| - 1];
    if last.name == n {
      var merged := Patch(n, last.original, last.writes + [w]);
      RunSnoc(rest, merged, d);
      OwnFile(merged, Run(rest, d));
      OwnFile(last, Run(rest, d));
    } else {
      MergeElsewhere(rest, n, w, d);
      RunSnoc(MergeWrite(rest, n, w), last, d);
      OthersAgree(last, Run(MergeWrite(rest, n, w), d), Run(rest, d), n);
    }
  }

  lemma SameNames(op: Op, d: Disk, e: Disk)
    requires d.Keys == e.Keys
    ensures Perform(op, d).Keys == Perform(op, e).Keys
    ensures op.Patch? ==> Perform(op, d).Keys == d.Keys
  {}

  lemma {:induction false} MergeKeepsKeys(q: seq<Op>, name: string, w: Write, d: Disk)
    requires CanMerge(q, name)
    ensures Run(MergeWrite(q, name, w), d).Keys == Run(q, d).Keys
  {
    var rest, last := q[..|q| - 1], q[|q| - 1];
    if last.Patch? && last.name == name {
      var merged := Patch(name, last.original, last.writes + [w]);
      RunSnoc(rest, merged, d);
      SameNames(merged, Run(rest, d), Run(rest, d));
      SameNames(last, Run(rest, d), Run(rest, d));
    } else {
      MergeKeepsKeys(rest, name, w, d);
      RunSnoc(MergeWrite(rest, name, w), last, d);
      SameNames(last, Run(MergeWrite(rest, name, w), d), Run(rest, d));
    }
  }

  /** Merging a write neither creates nor deletes a file, whatever the write starts from. */
  lemma {:induction false} MergeKeepsFiles(q: seq<Op>, name: string, w: Write, d: Disk)
    requires CanMerge(q, name)
    ensures Run(MergeWrite(q, name, w), d).Keys == Run(q, d).Keys
    ensures CreatesFresh(q, d) ==> CreatesFresh(MergeWrite(q, name, w), d)
  {
    var rest, last := q[..|q| - 1], q[|q| - 1];
    MergeKeepsKeys(q, name, w, d);
    if last.Patch? && last.name == name {
      FreshSnoc(rest, Patch(name, last.original, last.writes + [w]), d);
    } else {
      MergeKeepsFiles(rest, name, w, d);
      FreshSnoc(MergeWrite(rest, name, w), last, d);
    }
  }

  /** Inserting a write means the same as appending it, on every queue and every store. */
  lemma InsertPatchMeaning(q: seq<Op>, name: string, original: Bytes, w: Write, d: Disk)
    requires CanMerge(q, name) ==> var p := MergeTarget(q, name); Overlaid(p.original, p.writes) == original
    ensures Run(InsertPatch(q, name, original, w), d) == Run(q + [Patch(name, original, [w])], d)
  {
    if CanMerge(q, name) { MergeMeaning(q, name, original, w, d); }
  }

  lemma InsertPatchKeepsFiles(q: seq<Op>, name: string, original: Bytes, w: Write, d: Disk)
    ensures Run(InsertPatch(q, name, original, w), d).Keys == Run(q, d).Keys
    ensures CreatesFresh(q, d) ==> CreatesFresh(InsertPatch(q, name, original, w), d)
  {
    if CanMerge(q, name) {
      MergeKeepsFiles(q, name, w, d);
    } else {
      RunSnoc(q, Patch(name, original, [w]), d);
      FreshSnoc(q, Patch(name, original, [w]), d);
    }
  }

  // ----- Which write a later one is merged into -----

  /** What the patch that the scan reaches leads to, if it reaches one. */
  function Saved(q: seq<Op>, name: string): Option<Bytes> {
    if CanMerge(q, name) then
      var p := MergeTarget(q, name);
      Some(Overlaid(p.original, p.writes))
    else None
  }

  /** No patch of the file can be reached, or one that leads to nothing. */
  predicate NothingSaved(q: seq<Op>, name: string) {
    Saved(q, name).None? || Saved(q, name).value == []
  }

  /** Before every creation in the queue no patch of that file can be reached that leads to anything. */
  ghost predicate Cleared(q: seq<Op>) {
    q != [] ==>
      Cleared(q[..|q| - 1]) && (q[|q| - 1].Create? ==> NothingSaved(q[..|q| - 1], q[|q| - 1].name))
  }

  lemma SavedSnoc(q: seq<Op>, op: Op, name: string)
    ensures Saved(q + [op], name) ==
      match op
      case Patch(n, original, ws) => if n == name then Some(Overlaid(original, ws)) else Saved(q, name)
      case Create(n) => if n == name then None else Saved(q, name)
      case _ => None
    ensures Cleared(q + [op]) <==> Cleared(q) && (op.Create? ==> NothingSaved(q, op.name))
  {
    assert (q + [op])[..|q|] == q;
  }

  /** Taking the first operation out of the queue only makes patches unreachable. */
  lemma {:induction false} SavedCons(q: seq<Op>, name: string)
    requires q != []
    ensures Saved(q[1..], name).Some? ==> Saved(q, name) == Saved(q[1..], name)
    ensures Cleared(q) ==> Cleared(q[1..])
  {
    if |q| == 1 {
    } else {
      var rest, last := q[..|q| - 1], q[|q| - 1];
      SavedCons(rest, name);
      SavedCons(rest, last.name);
      assert q[1..] == rest[1..] + [last] && q == rest + [last];
      SavedSnoc(rest, last, name);
      SavedSnoc(rest[1..], last, name);
    }
  }

  /** Merging a write changes what is saved of its own file only, as the write does. */
  lemma {:induction false} SavedByMerge(q: seq<Op>, name: string, w: Write, other: string)
    requires CanMerge(q, name)
    ensures var merged := MergeWrite(q, name, w);
      && Saved(merged, other) == (if other == name then Some(Overlay(Saved(q, name).value, w)) else Saved(q, other))
      && (Cleared(q) ==> Cleared(merged))
  {
    var rest, last := q[..|q| - 1], q[|q| - 1];
    if last.Patch? && last.name == name {
      SavedSnoc(rest, Patch(name, last.original, last.writes + [w]), other);
      SavedSnoc(rest, last, other);
      Snoc(last.original, last.writes, w);
    } else {
      SavedByMerge(rest, name, w, other);
      SavedByMerge(rest, name, w, last.name);
      SavedSnoc(MergeWrite(rest, name, w), last, other);
    }
    assert rest + [last] == q;
    SavedSnoc(rest, last, other);
  }

  /** Purging a file leaves nothing saved of it when the deletion is dropped, and changes nothing saved of others. */
  lemma {:induction false} SavedByPurge(q: seq<Op>, name: string, other: string)
    requires Cleared(q)
    ensures var purged := Purge(q, name);
      && Cleared(purged)
      && (Settled(q, name) ==> NothingSaved(purged, name))
      && (other != name ==> Saved(purged, other) == Saved(q, other))
  {
    if q == [] {
    } else {
      var rest, last := q[..|q| - 1], q[|q| - 1];
      assert rest + [last] == q;
      SavedSnoc(rest, last, other);
      SavedByPurge(rest, name, other);
      if last.name != name && !last.Resize? {
        SavedByPurge(rest, name, last.name);
        SavedSnoc(Purge(rest, name), last, other);
        SavedSnoc(Purge(rest, name), last, name);
      }
    }
  }

  // ----- Queues in order -----

  ghost predicate AllSound(d: Disk) {
    forall n :: n in d ==> Sound(d[n])
  }

  /**
   An operation is in order: a file is created only when it is absent, and a patch starts from what
   the file holds and exposes no byte left over past its end.
  */
  ghost predicate InOrder(op: Op, d: Disk) {
    match op
    case Create(n) => n !in d
    case Patch(n, original, ws) =>
      n in d ==> Read(d[n]) == original && NoStale(d[n], |Overlaid(original, ws)|, Touched(ws))
    case _ => true
  }

  ghost predicate WellFormed(q: seq<Op>, d: Disk) {
    q != [] ==> WellFormed(q[..|q| - 1], d) && InOrder(q[|q| - 1], Run(q[..|q| - 1], d))
  }

  /** Whether an operation is in order does not depend on an operation on another file. */
  lemma NotConcerned(a: Op, b: Op, d: Disk)
    requires a.name != b.name
    ensures InOrder(a, d) <==> InOrder(a, Perform(b, d))
  {
    OwnFile(b, d);
    OthersAgree(a, d, Perform(b, d), b.name);
  }

  lemma WellFormedSnoc(q: seq<Op>, op: Op, d: Disk)
    ensures WellFormed(q + [op], d) <==> WellFormed(q, d) && InOrder(op, Run(q, d))
  {
    assert (q + [op])[..|q|] == q;
  }

  lemma {:induction false} WellFormedCons(q: seq<Op>, d: Disk)
    requires q != [] && WellFormed(q, d)
    ensures InOrder(q[0], d) && WellFormed(q[1..], Perform(q[0], d))
  {
    if |q| == 1 {
      assert q[..0] == [];
    } else {
      var rest := q[..|q| - 1];
      WellFormedCons(rest, d);
      RunCons(rest, d);
      assert rest[1..] == q[1..][..|q| - 2];
    }
  }

  lemma {:induction false} WellFormedIsFresh(q: seq<Op>, d: Disk)
    requires WellFormed(q, d)
    ensures CreatesFresh(q, d)
  {
    if q == [] {
    } else {
      WellFormedIsFresh(q[..|q| - 1], d);
    }
  }

  lemma SoundAfter(op: Op, d: Disk)
    requires AllSound(d) && InOrder(op, d)
    ensures AllSound(Perform(op, d))
  {
    match op
    case Patch(n, original, ws) => if n in d { PatchedSound(d[n], original, ws); }
    case Resize(n, length) => if n in d { ResizedSound(d[n], length); }
    case _ =>
  }

  lemma {:induction false} SoundAfterAll(q: seq<Op>, d: Disk)
    requires AllSound(d) && WellFormed(q, d)
    ensures AllSound(Run(q, d))
  {
    if q == [] {
    } else {
      SoundAfterAll(q[..|q| - 1], d);
      SoundAfter(q[|q| - 1], Run(q[..|q| - 1], d));
    }
  }

  /** Inserting a deletion keeps a queue in order. */
  lemma {:induction false} PurgeKeepsOrder(q: seq<Op>, name: string, d: Disk)
    requires WellFormed(q, d)
    ensures WellFormed(Purge(q, name), d)
  {
    if q == [] {
    } else {
      var rest, last := q[..|q| - 1], q[|q| - 1];
      PurgeKeepsOrder(rest, name, d);
      if last.name != name && !last.Resize? {
        WellFormedIsFresh(rest, d);
        PurgeMeaning(rest, name, d);
        OthersAgree(last, Run(Purge(rest, name), d), Run(rest, d), name);
        WellFormedSnoc(Purge(rest, name), last, d);
      }
    }
  }

  lemma InsertDeleteKeepsOrder(q: seq<Op>, name: string, d: Disk)
    requires WellFormed(q, d)
    ensures WellFormed(InsertDelete(q, name), d)
  {
    PurgeKeepsOrder(q, name, d);
    WellFormedSnoc(Purge(q, name), Delete(name), d);
  }

  lemma OrderAtPatch(last: Op, original: Bytes, w: Write, d: Disk)
    requires last.Patch? && last.name in d && AllSound(d) && InOrder(last, d)
    requires original == Overlaid(last.original, last.writes)
    requires InOrder(Patch(last.name, original, [w]), Perform(last, d))
    ensures InOrder(Patch(last.name, last.original, last.writes + [w]), d)
  {
    var f, ws := d[last.name], last.writes;
    PatchedSound(f, last.original, ws);
    PatchesMerge(f, last.original, ws, w);
    PatchExact(Patched(f, last.original, ws), [w]);
    PatchExact(f, ws + [w]);
    Snoc(last.original, ws, w);
    Snoc(original, [], w);
    assert [] + [w] == [w];
  }

  /** Merging a write that is in order where it is made keeps a queue in order. */
  lemma {:induction false} MergeKeepsOrder(q: seq<Op>, name: string, w: Write, d: Disk)
    requires WellFormed(q, d) && AllSound(d) && CanMerge(q, name)
    requires InOrder(Patch(name, Saved(q, name).value, [w]), Run(q, d))
    ensures WellFormed(MergeWrite(q, name, w), d)
  {
    var rest, last := q[..|q| - 1], q[|q| - 1];
    var original := Saved(q, name).value;
    var patch := Patch(name, original, [w]);
    SoundAfterAll(rest, d);
    if last.Patch? && last.name == name {
      WellFormedSnoc(rest, Patch(name, last.original, last.writes + [w]), d);
      if name in Run(rest, d) { OrderAtPatch(last, original, w, Run(rest, d)); }
    } else {
      NotConcerned(last, patch, Run(rest, d));
      NotConcerned(patch, last, Run(rest, d));
      MergeKeepsOrder(rest, name, w, d);
      MergeMeaning(rest, name, original, w, d);
      RunSnoc(rest, patch, d);
      WellFormedSnoc(MergeWrite(rest, name, w), last, d);
    }
  }

  lemma InsertPatchKeepsOrder(q: seq<Op>, name: string, original: Bytes, w: Write, d: Disk)
    requires WellFormed(q, d) && AllSound(d)
    requires CanMerge(q, name) ==> Saved(q, name) == Some(original)
    requires InOrder(Patch(name, original, [w]), Run(q, d))
    ensures WellFormed(InsertPatch(q, name, original, w), d)
  {
    if CanMerge(q, name) {
      MergeKeepsOrder(q, name, w, d);
    } else {
      WellFormedSnoc(q, Patch(name, original, [w]), d);
    }
  }
}
