/** A.cY and its file handles A.ij: the write-behind file system over the linked list of pending operations. */
module FileSystem {
  import opened Options
  import opened Blocks
  import opened Storage
  import opened PendingQueue
  import opened FileStates
  import opened IdStore
  import opened LinkedRing

  type OpList = Ring<Op>

  /** Where the scan of A.cK.ew over q[..k] finds a patch to merge with, or -1. */
  function PatchPosition(q: seq<Op>, k: nat, name: string): (i: int)
    requires k <= |q|
    ensures -1 <= i < k && (i >= 0 ==> q[i].Patch? && q[i].name == name)
  {
    if k == 0 then -1
    else
      match q[k - 1]
      case Patch(n, _, _) => if n == name then k - 1 else PatchPosition(q, k - 1, name)
      case Create(n) => if n == name then -1 else PatchPosition(q, k - 1, name)
      case _ => -1
  }

  /** The patch with one more write. */
  function MergedPatch(op: Op, w: Write): Op
    requires op.Patch?
  {
    Patch(op.name, op.original, op.writes + [w])
  }

  lemma {:induction false} PatchPositionMeaning(q: seq<Op>, k: nat, name: string, w: Write)
    requires k <= |q|
    ensures var i := PatchPosition(q, k, name);
      && CanMerge(q[..k], name) == (i >= 0)
      && (i >= 0 ==> MergeWrite(q[..k], name, w) == q[..k][i := MergedPatch(q[i], w)])
  {
    if k == 0 {
    } else {
      assert q[..k][..k - 1] == q[..k - 1];
      PatchPositionMeaning(q, k - 1, name, w);
    }
  }

  /** One entry of the scan of A.cK.ew: takes the write into the patch r, stops at r, or passes r over. */
  method MergeStep(list: OpList, r: Node<Op>, name: string, w: Write, ghost k: nat) returns (stop: bool, merged: bool)
    requires list.Valid() && k < |list.nodes| && list.nodes[k] == r
    modifies r`value
    ensures list.Valid() && list.nodes == old(list.nodes)
    ensures var op := old(r.value);
      && merged == (op.Patch? && op.name == name)
      && stop == (merged || op.Resize? || op.Delete? || (op.Create? && op.name == name))
      && list.Values() == if merged then old(list.Values())[k := MergedPatch(op, w)] else old(list.Values())
  {
    match r.value
    case Patch(n, original, ws) =>
      if n == name {
        list.SetValue(r, Patch(n, original, ws + [w]), k);
        return true, true;
      }
      return false, false;
    case Create(n) => return n == name, false;
    case _ => return true, false;
  }

  /** A.cK.ew: merges the write into an earlier patch of the file, or finds that it has to enter as its own. */
  method MergeInto(list: OpList, name: string, w: Write) returns (merged: bool)
    requires list.Valid()
    modifies list.nodes
    ensures list.Valid() && list.nodes == old(list.nodes)
    ensures merged == CanMerge(old(list.Values()), name)
    ensures list.Values() == if merged then MergeWrite(old(list.Values()), name, w) else old(list.Values())
  {
    merged := false;
    ghost var q := list.Values();
    ghost var k: nat, at := |q|, PatchPosition(q, |q|, name);
    PatchPositionMeaning(q, k, name, w);
    assert q[..k] == q;
    ghost var result := if at >= 0 then q[at := MergedPatch(q[at], w)] else q;
    if list.length == 0 { return; }
    var r: Node?<Op> := list.Last();
    var stop := false;
    while r != null && !stop
      invariant list.Valid() && list.nodes == old(list.nodes) && k <= |q|
      invariant !stop ==> !merged && list.Values() == q && at == PatchPosition(q, k, name)
      invariant !stop ==> r == if k == 0 then null else list.nodes[k - 1]
      invariant stop ==> merged == (at >= 0) && list.Values() == result
      decreases k
    {
      stop, merged := MergeStep(list, r, name, w, k - 1);
      r := list.Before(r, k - 1);
      k := k - 1;
    }
  }

  /** What the scan of A.dr.ew leaves of q[..k]. */
  function LeftOf(q: seq<Op>, k: nat, name: string): seq<Op>
    requires k <= |q|
  {
    if k == 0 then []
    else if q[k - 1].Resize? || (q[k - 1].Delete? && q[k - 1].name == name) then q[..k]
    else if q[k - 1].name != name then LeftOf(q, k - 1, name) + [q[k - 1]]
    else if q[k - 1].Patch? then LeftOf(q, k - 1, name)
    else q[..k - 1]
  }

  /** Whether that scan finds nothing left to delete. */
  predicate SettledIn(q: seq<Op>, k: nat, name: string)
    requires k <= |q|
  {
    k > 0 && !q[k - 1].Resize? && ((q[k - 1].name == name && !q[k - 1].Patch?) || SettledIn(q, k - 1, name))
  }

  lemma {:induction false} LeftOfMeaning(q: seq<Op>, k: nat, name: string)
    requires k <= |q|
    ensures Purge(q[..k], name) == LeftOf(q, k, name) && Settled(q[..k], name) == SettledIn(q, k, name)
  {
    if k == 0 {
    } else {
      assert q[..k][..k - 1] == q[..k - 1];
      LeftOfMeaning(q, k - 1, name);
    }
  }

  /** One entry of the scan of A.dr.ew: takes it out, keeps it, or stops. */
  method PurgeStep(list: OpList, s: Node<Op>, name: string, ghost k: nat)
    returns (stop: bool, settled: bool, p: Node?<Op>)
    requires list.Valid() && 0 < k <= |list.nodes| && list.nodes[k - 1] == s
    modifies list, list.footprint
    ensures list.Valid() && list.footprint == old(list.footprint)
    ensures k - 1 <= |list.nodes| && p == if k == 1 then null else list.nodes[k - 2]
    ensures Turn(old(list.Values()), list.Values(), k, name, stop, settled)
  {
    p := list.Before(s, k - 1);
    match s.value
    case Delete(n) => return n == name, n == name, p;
    case Patch(n, _, _) =>
      if n == name { list.TakeOut(s, k - 1); }
      return false, false, p;
    case Create(n) =>
      if n == name { list.TakeOut(s, k - 1); }
      return n == name, n == name, p;
    case _ => return true, false, p;
  }

  /** What the scan does at the entry before position k. */
  ghost predicate Turn(v: seq<Op>, v': seq<Op>, k: nat, name: string, stop: bool, settled: bool) {
    0 < k <= |v| &&
    var op := v[k - 1];
    && stop == (op.Resize? || (op.name == name && !op.Patch?))
    && settled == (stop && !op.Resize?)
    && v' == if op.name == name && (op.Patch? || op.Create?) then v[..k - 1] + v[k..] else v
  }

  /**
   A.dr.ew before the insertion: removes the patches of the file from the end of the list on, and
   tells whether the scan found that there is nothing to delete.
  */
  method PurgeFrom(list: OpList, name: string) returns (settled: bool)
    requires list.Valid()
    modifies list, list.footprint
    ensures list.Valid() && list.footprint == old(list.footprint)
    ensures list.Values() == Purge(old(list.Values()), name) && settled == Settled(old(list.Values()), name)
  {
    settled := false;
    ghost var q := list.Values();
    ghost var k: nat, kept, left, gone := ScanStart(q, name);
    if list.length == 0 { return; }
    var s: Node?<Op> := list.Last();
    var stop := false;
    while s != null && !stop
      invariant list.Valid() && list.footprint == old(list.footprint)
      invariant k <= |q| && (!stop ==> k <= |list.nodes| && s == if k == 0 then null else list.nodes[k - 1])
      invariant Scanned(q, k, kept, name, list.Values(), stop, settled, left, gone)
      decreases k
    {
      stop, settled, s, kept := PurgeTurn(list, s, name, q, k, kept, left, gone);
      k := k - 1;
    }
  }

  /** One turn of the scan, with what it means for the rest of the scan. */
  method PurgeTurn(list: OpList, s: Node<Op>, name: string, ghost q: seq<Op>, ghost k: nat, ghost kept: seq<Op>,
                   ghost left: seq<Op>, ghost gone: bool)
    returns (stop: bool, settled: bool, p: Node?<Op>, ghost kept': seq<Op>)
    requires list.Valid() && 0 < k <= |q| && k <= |list.nodes| && s == list.nodes[k - 1]
    requires Scanned(q, k, kept, name, list.Values(), false, false, left, gone)
    modifies list, list.footprint
    ensures list.Valid() && list.footprint == old(list.footprint)
    ensures k - 1 <= |list.nodes| && p == if k == 1 then null else list.nodes[k - 2]
    ensures Scanned(q, k - 1, kept', name, list.Values(), stop, settled, left, gone)
    ensures k == 1 && !stop ==> list.Values() == left && !gone
  {
    ghost var v := list.Values();
    stop, settled, p := PurgeStep(list, s, name, k);
    kept' := ScanStep(q, k, kept, name, v, list.Values(), stop, settled, left, gone);
  }

  /**
   The values v of the list while q[..k] is still to be scanned and kept has been passed over; at the
   end they are left, and gone tells whether nothing is left to delete.
  */
  ghost predicate Scanned(q: seq<Op>, k: nat, kept: seq<Op>, name: string, v: seq<Op>, stop: bool, settled: bool,
                          left: seq<Op>, gone: bool)
    requires k <= |q|
  {
    if stop then settled == gone && v == left
    else !settled && v == q[..k] + kept && SettledIn(q, k, name) == gone && LeftOf(q, k, name) + kept == left
  }

  lemma ScanStart(q: seq<Op>, name: string) returns (k: nat, kept: seq<Op>, left: seq<Op>, gone: bool)
    ensures k == |q| && kept == [] && left == Purge(q, name) && gone == Settled(q, name)
    ensures Scanned(q, k, kept, name, q, false, false, left, gone)
    ensures q == [] ==> left == [] && !gone
  {
    k, kept := |q|, [];
    LeftOfMeaning(q, k, name);
    assert q[..k] == q;
    left, gone := LeftOf(q, k, name), SettledIn(q, k, name);
  }

  lemma ScanStep(q: seq<Op>, k: nat, kept: seq<Op>, name: string, v: seq<Op>, v': seq<Op>, stop: bool, settled: bool,
                 left: seq<Op>, gone: bool)
    returns (kept': seq<Op>)
    requires 0 < k <= |q| && Scanned(q, k, kept, name, v, false, false, left, gone)
    requires Turn(v, v', k, name, stop, settled)
    ensures Scanned(q, k - 1, kept', name, v', stop, settled, left, gone)
    ensures k == 1 && !stop ==> v' == left && !gone
  {
    var last := q[k - 1];
    kept' := if last.name == name && last.Patch? then kept else [last] + kept;
    Around(q, k, kept);
    Regroup(LeftOf(q, k - 1, name), last, kept);
  }

  /** The values around position k - 1, when that entry stays and when it is taken out. */
  lemma Around(q: seq<Op>, k: nat, kept: seq<Op>)
    requires 0 < k <= |q|
    ensures var v := q[..k] + kept;
      && v[k - 1] == q[k - 1]
      && v[..k - 1] + v[k..] == q[..k - 1] + kept
      && v == q[..k - 1] + ([q[k - 1]] + kept)
  {}

  lemma Regroup(x: seq<Op>, a: Op, y: seq<Op>)
    ensures (x + [a]) + y == x + ([a] + y)
  {}

  /** The content of the stored files that are not left to be read. */
  ghost function Loaded(d: Disk, left: set<string>): Files {
    map n | n in d && n !in left :: Read(d[n])
  }

  lemma LoadedOne(d: Disk, left: set<string>, n: string, start: Files)
    requires n in d && n in left
    ensures start + Loaded(d, left - {n}) == (start + Loaded(d, left))[n := Read(d[n])]
  {}

  lemma LoadedAll(d: Disk, start: Files)
    ensures start + Loaded(d, d.Keys) == start
    ensures Loaded(d, {}) == Opened(d).mem
  {}

  /** The loop of bQ: reads the stored files one after the other into memory, until one cannot be read. */
  method ReadAll(db: Db, start: Files) returns (ok: bool, mem: Files)
    requires Consistent(db)
    ensures ok <==> AllSound(Stored(db))
    ensures ok ==> mem == start + Opened(Stored(db)).mem
  {
    ok, mem := true, start;
    ghost var d := Stored(db);
    var left := db.byName.Keys;
    assert left == d.Keys;
    LoadedAll(d, start);
    while left != {}
      invariant left <= db.byName.Keys
      invariant forall n :: n in d && n !in left ==> Sound(d[n])
      invariant mem == start + Loaded(d, left)
      decreases left
    {
      var n :| n in left;
      assert d[n] == FileOf(db, db.byName[n]);
      var content := ReadBlocks(FileOf(db, db.byName[n]));
      if content.None? { return false, mem; }
      LoadedOne(d, left, n, start);
      mem := mem[n := content.value];
      left := left - {n};
    }
  }

  /** A.cY, with the memory files of A.h2 and the handles A.ij and A.ii, which name the file they belong to. */
  class FileSystem {
    var mem: Files
    var memoryOnly: set<string>
    const list: OpList
    var inFlight: Option<Op>
    const store: IdCache

    ghost predicate Valid()
      reads this, list, list.nodes, store
    {
      list.Valid() && store.Valid()
    }

    /** The state that the fields represent. */
    ghost function View(): State
      requires Valid()
      reads this, list, list.nodes, store
    {
      State(mem, memoryOnly, inFlight, list.Values(), Stored(store.db))
    }

    /** A.cY as h5 makes it, over a store of which nothing has been read yet. */
    constructor (db: Db)
      requires Consistent(db)
      ensures Valid() && View() == State(map[], {}, None, [], Stored(db))
      ensures fresh(list) && fresh(store) && list.footprint == {} && store.db == db
    {
      list := new Ring<Op>();
      store := new IdCache(db);
      memoryOnly, inFlight, mem := {}, None, map[];
      new;
      assert list.Values() == [];
    }

    /** bQ: remembers the id of every stored file and reads them all; one that cannot be read ends it. */
    method LoadAll() returns (ok: bool)
      requires Valid()
      modifies this`mem, store
      ensures Valid() && store.db == old(store.db) && store.ids == store.db.byName
      ensures ok <==> AllSound(Stored(store.db))
      ensures ok ==> View() == old(View()).(mem := old(mem) + Opened(Stored(store.db)).mem)
    {
      store.RememberAll();
      ok, mem := ReadAll(store.db, mem);
    }

    /** h5: opens the file system over the stored files, exactly when each of them can be read. */
    static method OpenOver(db: Db) returns (fs: FileSystem, ok: bool)
      requires Consistent(db)
      ensures fresh(fs) && fresh(fs.list) && fresh(fs.store) && fs.list.footprint == {} && fs.Valid()
      ensures ok <==> AllSound(Stored(db))
      ensures ok ==> fs.View() == Opened(Stored(db)) && fs.store.ids == db.byName
    {
      fs := new FileSystem(db);
      ghost var empty := fs.View();
      assert empty.mem + Opened(Stored(db)).mem == Opened(Stored(db)).mem;
      ok := fs.LoadAll();
      assert ok ==> fs.View() == empty.(mem := Opened(Stored(db)).mem);
    }

    /** fJ: starts the first pending operation when none is running. */
    method StartNext()
      requires Valid()
      modifies this`inFlight, list, list.footprint
      ensures Valid() && fresh(list.footprint - old(list.footprint))
      ensures View() == Kick(old(View()))
    {
      if inFlight.Some? || list.length == 0 { return; }
      var first := list.first;
      inFlight := Some(first.value);
      list.TakeOut(first, 0);
    }

    /** bX for an operation that enters the queue at its end. */
    method EnqueueLast(op: Op)
      requires Valid()
      modifies this`inFlight, list, list.footprint
      ensures Valid() && fresh(list.footprint - old(list.footprint))
      ensures View() == Enqueue(old(View()), old(View()).queue + [op], true)
    {
      var node := new Node(op);
      list.Append(node);
      assert list.Values() == old(list.Values()) + [op];
      StartNext();
    }

    /** A.cY.aZ with A.h2.aZ: opens a file, creating it when it is absent and that is asked for. */
    method OpenFile(name: string, create: bool, deleteOnClose: bool) returns (found: bool)
      requires Valid()
      modifies this, list, list.footprint
      ensures Valid() && fresh(list.footprint - old(list.footprint))
      ensures View() == Next(old(View()), Open(name, create, deleteOnClose))
      ensures found <==> name in old(mem) || create
    {
      if name in mem { return true; }
      if !create { return false; }
      mem := mem[name := []];
      if deleteOnClose {
        memoryOnly := memoryOnly + {name};
      } else {
        EnqueueLast(Create(name));
      }
      return true;
    }

    /** A.cY.da */
    method DeleteFile(name: string)
      requires Valid()
      modifies this, list, list.footprint
      ensures Valid() && fresh(list.footprint - old(list.footprint))
      ensures View() == Next(old(View()), Remove(name))
    {
      mem := mem - {name};
      if name in memoryOnly {
        memoryOnly := memoryOnly - {name};
        return;
      }
      EnqueueDelete(name);
    }

    /** bX for a deletion: unless there is nothing left to delete, it enters the queue. */
    method EnqueueDelete(name: string)
      requires Valid()
      modifies this`inFlight, list, list.footprint
      ensures Valid() && fresh(list.footprint - old(list.footprint))
      ensures View() == Enqueue(old(View()), InsertDelete(old(View()).queue, name), !Settled(old(View()).queue, name))
    {
      ghost var before := View();
      var settled := PurgeFrom(list, name);
      if settled { return; }
      assert View() == before.(queue := Purge(before.queue, name));
      EnqueueLast(Delete(name));
    }

    /** A.ij.bH with A.ii.bH: writes data at an offset of a file. */
    method WriteFile(name: string, offset: nat, data: Bytes)
      requires Valid()
      modifies this, list, list.footprint
      ensures Valid() && fresh(list.footprint - old(list.footprint))
      ensures View() == Next(old(View()), WriteAt(name, offset, data))
    {
      var original := Content(mem, name);
      if name in mem || offset + |data| > 0 { mem := mem[name := Overlay(original, Write(offset, data))]; }
      if name in memoryOnly { return; }
      var merged := MergeInto(list, name, Write(offset, data));
      if !merged { EnqueueLast(Patch(name, original, [Write(offset, data)])); }
    }

    /**
     A.ij.eQ with A.ii.eI: fills the buffer with the bytes from an offset on and zeros behind the end of the file,
     and reports (whole) whether the end was not passed.
    */
    method ReadFile(name: string, offset: nat, buffer: array<Byte>) returns (whole: bool)
      modifies buffer
      ensures forall i :: 0 <= i < buffer.Length ==> buffer[i] == ByteAt(Content(mem, name), offset + i)
      ensures whole <==> buffer.Length == 0 || offset + buffer.Length <= |Content(mem, name)|
    {
      var content := Content(mem, name);
      var n := if |content| <= offset then 0 else Min(buffer.Length, |content| - offset);
      forall i | 0 <= i < n { buffer[i] := content[offset + i]; }
      forall i | n <= i < buffer.Length { buffer[i] := 0; }
      whole := n == buffer.Length;
    }

    /** A.ij.cn with A.ii.cn: sets the length of a file. */
    method TruncateFile(name: string, length: nat)
      requires Valid()
      modifies this, list, list.footprint
      ensures Valid() && fresh(list.footprint - old(list.footprint))
      ensures View() == Next(old(View()), Truncate(name, length))
    {
      mem := mem[name := ResizedBytes(Content(mem, name), length)];
      if name in memoryOnly { return; }
      EnqueueLast(Resize(name, length));
    }

    /** k2: the running transaction is done, and the next operation starts. */
    method Completed()
      requires Valid()
      modifies this, list, list.footprint, store
      ensures Valid() && fresh(list.footprint - old(list.footprint))
      ensures View() == Next(old(View()), Complete)
    {
      if inFlight.None? { return; }
      ghost var before := View();
      store.Execute(inFlight.value);
      inFlight := None;
      assert View() == before.(inFlight := None, disk := Perform(before.inFlight.value, before.disk));
      StartNext();
    }

    /** k2 after a transaction that failed: the store stays as it was, and the next operation starts. */
    method Failed()
      requires Valid()
      modifies this, list, list.footprint, store
      ensures Valid() && fresh(list.footprint - old(list.footprint))
      ensures View() == Next(old(View()), Fail)
    {
      if inFlight.None? { return; }
      store.ExecuteInVain(inFlight.value);
      inFlight := None;
      StartNext();
    }
  }
}
