/**
 The states and steps of A.cY, the write-behind file system: files in memory, operations pending
 for the store, and the stored files. IndexedDB transactions are atomic, and any of them may fail.
*/
module FileStates {
  import opened Options
  import opened Blocks
  import opened Storage
  import opened PendingQueue

  type Files = map<string, Bytes>

  datatype State = State(
    mem: Files,
    memoryOnly: set<string>,   // files opened as delete-on-close, which are never stored
    inFlight: Option<Op>,      // the operation whose transaction is running
    queue: seq<Op>,
    disk: Disk)

  datatype Step =
    | Open(name: string, create: bool, deleteOnClose: bool)
    | Remove(name: string)
    | WriteAt(name: string, offset: nat, data: Bytes)
    | Truncate(name: string, length: nat)
    | Complete   // the running transaction is done
    | Fail       // the running transaction failed and left the store as it was

  /** fJ: when no operation is running, the first pending one starts. */
  function Kick(s: State): State {
    if s.inFlight.None? && s.queue != [] then s.(inFlight := Some(s.queue[0]), queue := s.queue[1..]) else s
  }

  /** bX: the rewritten queue takes over; only an operation that really entered the queue starts it. */
  function Enqueue(s: State, queue: seq<Op>, entered: bool): State {
    if entered then Kick(s.(queue := queue)) else s.(queue := queue)
  }

  /** What a file holds in memory; an unknown file counts as empty. */
  function Content(mem: Files, name: string): Bytes {
    if name in mem then mem[name] else []
  }

  /** A.ii.bH: a write of nothing at the start of an unknown file does not make it known. */
  function Written(mem: Files, name: string, w: Write): Files {
    if name !in mem && w.offset + |w.data| == 0 then mem else mem[name := Overlay(Content(mem, name), w)]
  }

  function Next(s: State, step: Step): State {
    match step
    case Open(n, create, deleteOnClose) =>
      if n in s.mem || !create then s
      else
        var s' := s.(mem := s.mem[n := []]);
        if deleteOnClose then s'.(memoryOnly := s.memoryOnly + {n})
        else Enqueue(s', s.queue + [Create(n)], true)
    case Remove(n) =>
      var s' := s.(mem := s.mem - {n});
      if n in s.memoryOnly then s'.(memoryOnly := s.memoryOnly - {n})
      else Enqueue(s', InsertDelete(s.queue, n), !Settled(s.queue, n))
    case WriteAt(n, offset, data) =>
      var w, original := Write(offset, data), Content(s.mem, n);
      var s' := s.(mem := Written(s.mem, n, w));
      if n in s.memoryOnly then s'
      else Enqueue(s', InsertPatch(s.queue, n, original, w), !CanMerge(s.queue, n))
    case Truncate(n, length) =>
      var s' := s.(mem := s.mem[n := ResizedBytes(Content(s.mem, n), length)]);
      if n in s.memoryOnly then s' else Enqueue(s', s.queue + [Resize(n, length)], true)
    case Complete =>
      if s.inFlight.None? then s else Kick(s.(inFlight := None, disk := Perform(s.inFlight.value, s.disk)))
    case Fail =>
      if s.inFlight.None? then s else Kick(s.(inFlight := None))
  }

  /** The stored files once the running operation is done. */
  function Base(s: State): Disk {
    if s.inFlight.Some? then Perform(s.inFlight.value, s.disk) else s.disk
  }

  /** The stored files once every pending operation is done. */
  function Pending(s: State): Disk {
    Run(s.queue, Base(s))
  }

  /** The operation that a step makes on the store, if any. */
  function Made(s: State, step: Step): seq<Op> {
    match step
    case Open(n, create, deleteOnClose) => if n in s.mem || !create || deleteOnClose then [] else [Create(n)]
    case Remove(n) => if n in s.memoryOnly then [] else [Delete(n)]
    case WriteAt(n, offset, data) =>
      if n in s.memoryOnly then [] else [Patch(n, Content(s.mem, n), [Write(offset, data)])]
    case Truncate(n, length) => if n in s.memoryOnly then [] else [Resize(n, length)]
    case _ => []
  }

  // ----- What the queue stands for -----

  /** What every step keeps: calls safe or not, transactions completing or failing. */
  ghost predicate Kept(s: State) {
    && (s.inFlight.None? ==> s.queue == [])
    && s.memoryOnly <= s.mem.Keys
    && Cleared(s.queue)
    && SavedAreHeld(s.queue, s.mem, s.memoryOnly)
  }

  /**
   A patch that a write can still be merged into leads to the file as it is in memory; an unknown file, or one that
   is not stored, was written nothing before.
  */
  ghost predicate SavedAreHeld(q: seq<Op>, mem: Files, memoryOnly: set<string>) {
    forall n :: Saved(q, n).Some? ==> Saved(q, n).value == if n in memoryOnly then [] else Content(mem, n)
  }

  /** Starting the next operation does not change what is pending. */
  lemma KickKept(s: State)
    ensures Pending(Kick(s)) == Pending(s)
    ensures s.memoryOnly <= s.mem.Keys && Cleared(s.queue) && SavedAreHeld(s.queue, s.mem, s.memoryOnly)
            ==> Kept(Kick(s))
  {
    if s.inFlight.None? && s.queue != [] {
      RunCons(s.queue, s.disk);
      forall n ensures Saved(s.queue[1..], n).Some? ==> Saved(s.queue, n) == Saved(s.queue[1..], n) {
        SavedCons(s.queue, n);
      }
      SavedCons(s.queue, "");
    }
  }

  /** The same for a rewritten queue that takes over. */
  lemma EnqueueKept(s: State, queue: seq<Op>, entered: bool)
    requires s.inFlight.None? ==> entered
    requires s.memoryOnly <= s.mem.Keys && Cleared(queue) && SavedAreHeld(queue, s.mem, s.memoryOnly)
    ensures Kept(Enqueue(s, queue, entered)) && Pending(Enqueue(s, queue, entered)) == Run(queue, Base(s))
  {
    KickKept(s.(queue := queue));
  }

  lemma OpenKept(s: State, n: string)
    requires Kept(s) && n !in s.mem
    ensures var t := Next(s, Open(n, true, false)); Kept(t) && Pending(t) == Perform(Create(n), Pending(s))
  {
    var q := s.queue + [Create(n)];
    RunSnoc(s.queue, Create(n), Base(s));
    forall k ensures Cleared(q) && (Saved(q, k).Some? ==> Saved(s.queue, k) == Saved(q, k) && k != n) {
      SavedSnoc(s.queue, Create(n), k);
    }
    EnqueueKept(s.(mem := s.mem[n := []]), q, true);
  }

  lemma RemoveHeld(q: seq<Op>, mem: Files, memoryOnly: set<string>, n: string)
    requires Cleared(q) && SavedAreHeld(q, mem, memoryOnly) && memoryOnly <= mem.Keys && n !in memoryOnly
    ensures Cleared(InsertDelete(q, n)) && SavedAreHeld(InsertDelete(q, n), mem - {n}, memoryOnly)
    ensures memoryOnly <= (mem - {n}).Keys
  {
    SavedByPurge(q, n, n);
    SavedSnoc(Purge(q, n), Delete(n), n);
    forall k | k != n ensures Saved(InsertDelete(q, n), k).Some? ==> Saved(q, k) == Saved(InsertDelete(q, n), k) {
      SavedByPurge(q, n, k);
      SavedSnoc(Purge(q, n), Delete(n), k);
    }
  }

  lemma RemoveKept(s: State, n: string)
    requires Kept(s) && n !in s.memoryOnly
    ensures var t := Next(s, Remove(n)); Kept(t) && Pending(t) == Run(InsertDelete(s.queue, n), Base(s))
  {
    RemoveHeld(s.queue, s.mem, s.memoryOnly, n);
    var q, entered := InsertDelete(s.queue, n), !Settled(s.queue, n);
    assert Next(s, Remove(n)) == Enqueue(s.(mem := s.mem - {n}), q, entered);
    EnqueueKept(s.(mem := s.mem - {n}), q, entered);
  }

  lemma WriteKept(s: State, n: string, w: Write)
    requires Kept(s) && n !in s.memoryOnly
    ensures var t := Next(s, WriteAt(n, w.offset, w.data));
      Kept(t) && Pending(t) == Perform(Patch(n, Content(s.mem, n), [w]), Pending(s))
  {
    var original := Content(s.mem, n);
    var q := InsertPatch(s.queue, n, original, w);
    InsertPatchMeaning(s.queue, n, original, w, Base(s));
    RunSnoc(s.queue, Patch(n, original, [w]), Base(s));
    forall k
      ensures Cleared(q)
      ensures Saved(q, k) == if k == n then Some(Overlay(original, w)) else Saved(s.queue, k)
    {
      if CanMerge(s.queue, n) {
        SavedByMerge(s.queue, n, w, k);
      } else {
        SavedSnoc(s.queue, Patch(n, original, [w]), k);
        assert [] + [w] == [w];
        Snoc(original, [], w);
      }
    }
    EnqueueKept(s.(mem := Written(s.mem, n, w)), q, !CanMerge(s.queue, n));
  }

  lemma TruncateKept(s: State, n: string, length: nat)
    requires Kept(s) && n !in s.memoryOnly
    ensures var t := Next(s, Truncate(n, length)); Kept(t) && Pending(t) == Perform(Resize(n, length), Pending(s))
  {
    var q := s.queue + [Resize(n, length)];
    RunSnoc(s.queue, Resize(n, length), Base(s));
    forall k ensures Cleared(q) && Saved(q, k).None? { SavedSnoc(s.queue, Resize(n, length), k); }
    EnqueueKept(s.(mem := s.mem[n := ResizedBytes(Content(s.mem, n), length)]), q, true);
  }

  /**
   Exactly the steps after which the operations pending are the ones before, with the one just made appended: all
   but a deletion that cancels the creation of a stored file, and a failure that makes a difference to its file.
  */
  ghost predicate Faithful(s: State, step: Step) {
    match step
    case Remove(n) => n in s.memoryOnly || !CancelsStored(s.queue, n, Base(s))
    case Fail => s.inFlight.None? || SameFile(Run(s.queue, s.disk), Pending(s), s.inFlight.value.name)
    case _ => true
  }

  lemma FailureMeaning(s: State)
    requires s.inFlight.Some?
    ensures Pending(Next(s, Fail)) == Run(s.queue, s.disk)
    ensures SameExcept(Run(s.queue, s.disk), Pending(s), s.inFlight.value.name)
    ensures Deletes(s.queue, s.inFlight.value.name) ==> Run(s.queue, s.disk) == Pending(s)
  {
    KickKept(s.(inFlight := None));
    OwnFile(s.inFlight.value, s.disk);
    DifferenceStays(s.queue, s.disk, Base(s), s.inFlight.value.name);
  }

  predicate Deletes(q: seq<Op>, n: string) {
    exists i :: 0 <= i < |q| && q[i] == Delete(n)
  }

  /** Stores that differ in one file at most differ in no other afterwards, and in none once that file is deleted. */
  lemma {:induction false} DifferenceStays(q: seq<Op>, d: Disk, e: Disk, n: string)
    requires SameExcept(d, e, n)
    ensures SameExcept(Run(q, d), Run(q, e), n)
    ensures Deletes(q, n) ==> Run(q, d) == Run(q, e)
  {
    if q == [] {
    } else {
      var rest, last := q[..|q| - 1], q[|q| - 1];
      DifferenceStays(rest, d, e, n);
      if last.name != n {
        OthersAgree(last, Run(rest, d), Run(rest, e), n);
      } else {
        OwnFile(last, Run(rest, d));
        OwnFile(last, Run(rest, e));
      }
      if Deletes(q, n) && last != Delete(n) {
        var i :| 0 <= i < |q| && q[i] == Delete(n);
        assert rest[i] == Delete(n);
      }
      if last == Delete(n) { assert Run(q, d) == Run(rest, d) - {n} == Run(rest, e) - {n}; }
    }
  }

  lemma RemoveAppends(s: State, n: string)
    requires Kept(s) && n !in s.memoryOnly
    ensures Pending(Next(s, Remove(n))) == Run([Delete(n)], Pending(s)) <==> Faithful(s, Remove(n))
  {
    RemoveKept(s, n);
    InsertDeleteExact(s.queue, n, Base(s));
    RunSnoc(s.queue, Delete(n), Base(s));
    RunSnoc([], Delete(n), Pending(s));
  }

  lemma FailAppends(s: State)
    requires Kept(s)
    ensures Kept(Next(s, Fail)) && (Pending(Next(s, Fail)) == Pending(s) <==> Faithful(s, Fail))
  {
    if s.inFlight.Some? {
      KickKept(s.(inFlight := None));
      FailureMeaning(s);
      SameByFile(Run(s.queue, s.disk), Pending(s), s.inFlight.value.name);
    }
  }

  /** What a step does to the pending operations, from any state that a run can reach. */
  lemma StepAppends(s: State, step: Step)
    requires Kept(s)
    ensures Kept(Next(s, step))
    ensures Pending(Next(s, step)) == Run(Made(s, step), Pending(s)) <==> Faithful(s, step)
  {
    match step
    case Open(n, create, deleteOnClose) =>
      if n !in s.mem && create && !deleteOnClose {
        OpenKept(s, n);
        RunSnoc([], Create(n), Pending(s));
      }
    case Remove(n) =>
      if n !in s.memoryOnly {
        RemoveKept(s, n);
        RemoveAppends(s, n);
      }
    case WriteAt(n, offset, data) =>
      if n !in s.memoryOnly {
        WriteKept(s, n, Write(offset, data));
        RunSnoc([], Patch(n, Content(s.mem, n), [Write(offset, data)]), Pending(s));
      }
    case Truncate(n, length) =>
      if n !in s.memoryOnly {
        TruncateKept(s, n, length);
        RunSnoc([], Resize(n, length), Pending(s));
      }
    case Complete =>
      if s.inFlight.Some? { KickKept(s.(inFlight := None, disk := Perform(s.inFlight.value, s.disk))); }
    case Fail => FailAppends(s);
  }

  // ----- Agreement of the store with memory -----

  /** Reading the stored files gives the files in memory, except for those that are never stored. */
  ghost predicate Agrees(d: Disk, mem: Files, memoryOnly: set<string>) {
    && d.Keys == mem.Keys - memoryOnly
    && forall n :: n in d ==> ReadBack(d[n]) == Some(mem[n])
  }

  /** The same for one file. */
  ghost predicate FileAgrees(d: Disk, mem: Files, memoryOnly: set<string>, n: string) {
    && (n in d <==> n in mem && n !in memoryOnly)
    && (n in d ==> n in mem && ReadBack(d[n]) == Some(mem[n]))
  }

  lemma AgreesByFile(d: Disk, mem: Files, memoryOnly: set<string>)
    ensures Agrees(d, mem, memoryOnly) <==> forall n :: FileAgrees(d, mem, memoryOnly, n)
  {
    if forall n :: FileAgrees(d, mem, memoryOnly, n) {
      forall n ensures n in d.Keys <==> n in mem.Keys - memoryOnly { assert FileAgrees(d, mem, memoryOnly, n); }
      assert d.Keys == mem.Keys - memoryOnly;
      forall n | n in d ensures ReadBack(d[n]) == Some(mem[n]) { assert FileAgrees(d, mem, memoryOnly, n); }
    }
  }

  /** Doing the pending operations in order makes the store agree with memory. */
  ghost predicate Mirrors(s: State) {
    Kept(s) && Agrees(Pending(s), s.mem, s.memoryOnly)
  }

  /** Exactly the steps that keep the store in agreement with memory. */
  ghost predicate Safe(s: State, step: Step) {
    match step
    case Remove(n) => Faithful(s, step)
    case WriteAt(n, offset, data) =>
      var w := Write(offset, data);
      n in s.memoryOnly || (n !in s.mem && w.offset + |w.data| == 0) ||
      (n in Pending(s) && NoStale(Pending(s)[n], |Overlay(Content(s.mem, n), w)|, Reached(w)))
    case Truncate(n, length) =>
      n in s.memoryOnly || (n in Pending(s) && NoStale(Pending(s)[n], length, {}))
    case Fail => s.inFlight.None? || FileAgrees(Run(s.queue, s.disk), s.mem, s.memoryOnly, s.inFlight.value.name)
    case _ => true
  }

  lemma DeleteAgrees(d: Disk, mem: Files, memoryOnly: set<string>, n: string)
    requires Agrees(d, mem, memoryOnly)
    ensures Agrees(Perform(Delete(n), d), mem - {n}, memoryOnly)
  {}

  /** When one file alone may differ, agreement is that of this file. */
  lemma AgreesElsewhere(d: Disk, e: Disk, mem: Files, mem': Files, memoryOnly: set<string>, n: string)
    requires Agrees(d, mem, memoryOnly) && SameExcept(d, e, n) && mem - {n} == mem' - {n}
    ensures Agrees(e, mem', memoryOnly) <==> FileAgrees(e, mem', memoryOnly, n)
  {
    SameByFile(d, e, n);
    forall k | k != n ensures FileAgrees(e, mem', memoryOnly, k) {
      assert SameFile(d, e, k);
      assert k in mem <==> k in mem - {n};
      assert k in mem' <==> k in mem' - {n};
      if k in mem { assert mem[k] == (mem - {n})[k] == (mem' - {n})[k] == mem'[k]; }
    }
    AgreesByFile(e, mem', memoryOnly);
  }

  lemma PatchAgrees(d: Disk, mem: Files, memoryOnly: set<string>, n: string, w: Write)
    requires Agrees(d, mem, memoryOnly) && n !in memoryOnly
    ensures Agrees(Perform(Patch(n, Content(mem, n), [w]), d), Written(mem, n, w), memoryOnly)
       <==> (n !in mem && w.offset + |w.data| == 0)
            || (n in d && NoStale(d[n], |Overlay(Content(mem, n), w)|, Reached(w)))
  {
    var op, mem' := Patch(n, Content(mem, n), [w]), Written(mem, n, w);
    OwnFile(op, d);
    assert mem - {n} == mem' - {n};
    AgreesElsewhere(d, Perform(op, d), mem, mem', memoryOnly, n);
    Snoc(Content(mem, n), [], w);
    assert [] + [w] == [w];
    if n in d {
      PatchExact(d[n], [w]);
      PatchedSound(d[n], Content(mem, n), [w]);
    }
  }

  lemma ResizeAgrees(d: Disk, mem: Files, memoryOnly: set<string>, n: string, length: nat)
    requires Agrees(d, mem, memoryOnly) && n !in memoryOnly
    ensures Agrees(Perform(Resize(n, length), d), mem[n := ResizedBytes(Content(mem, n), length)], memoryOnly)
       <==> n in d && NoStale(d[n], length, {})
  {
    var d', mem' := Perform(Resize(n, length), d), mem[n := ResizedBytes(Content(mem, n), length)];
    OwnFile(Resize(n, length), d);
    assert mem - {n} == mem' - {n};
    AgreesElsewhere(d, d', mem, mem', memoryOnly, n);
    if n in d {
      ResizeExact(d[n], length);
      ResizedSound(d[n], length);
    }
  }

  lemma RemoveExact(s: State, n: string)
    requires Mirrors(s) && n !in s.memoryOnly
    ensures Mirrors(Next(s, Remove(n))) <==> Safe(s, Remove(n))
  {
    StepAppends(s, Remove(n));
    RemoveKept(s, n);
    InsertDeleteExact(s.queue, n, Base(s));
    RunSnoc([], Delete(n), Pending(s));
    DeleteAgrees(Pending(s), s.mem, s.memoryOnly, n);
  }

  lemma FailExact(s: State)
    requires Mirrors(s)
    ensures Mirrors(Next(s, Fail)) <==> Safe(s, Fail)
  {
    StepAppends(s, Fail);
    if s.inFlight.Some? {
      FailureMeaning(s);
      AgreesElsewhere(Pending(s), Run(s.queue, s.disk), s.mem, s.mem, s.memoryOnly, s.inFlight.value.name);
    }
  }

  lemma WriteExact(s: State, n: string, w: Write)
    requires Mirrors(s) && n !in s.memoryOnly
    ensures var step := WriteAt(n, w.offset, w.data); Mirrors(Next(s, step)) <==> Safe(s, step)
  {
    WriteKept(s, n, w);
    PatchAgrees(Pending(s), s.mem, s.memoryOnly, n, w);
  }

  lemma TruncateExact(s: State, n: string, length: nat)
    requires Mirrors(s) && n !in s.memoryOnly
    ensures var step := Truncate(n, length); Mirrors(Next(s, step)) <==> Safe(s, step)
  {
    TruncateKept(s, n, length);
    ResizeAgrees(Pending(s), s.mem, s.memoryOnly, n, length);
  }

  lemma CreateAgrees(d: Disk, mem: Files, memoryOnly: set<string>, n: string)
    requires Agrees(d, mem, memoryOnly) && n !in mem && n !in memoryOnly
    ensures Agrees(Perform(Create(n), d), mem[n := []], memoryOnly)
  {
    OwnFile(Create(n), d);
    assert mem - {n} == mem[n := []] - {n};
    AgreesElsewhere(d, Perform(Create(n), d), mem, mem[n := []], memoryOnly, n);
    assert Read(EMPTY) == [];
  }

  lemma OpenMirrors(s: State, n: string)
    requires Mirrors(s) && n !in s.mem
    ensures Mirrors(Next(s, Open(n, true, false)))
  {
    OpenKept(s, n);
    CreateAgrees(Pending(s), s.mem, s.memoryOnly, n);
  }

  /** A step, a failing one included, keeps the store in agreement with memory exactly when it is safe. */
  lemma StepExact(s: State, step: Step)
    requires Mirrors(s)
    ensures Mirrors(Next(s, step)) <==> Safe(s, step)
  {
    match step
    case Open(n, create, deleteOnClose) =>
      if n !in s.mem && create && !deleteOnClose { OpenMirrors(s, n); } else { StepAppends(s, step); }
    case Remove(n) => if n !in s.memoryOnly { RemoveExact(s, n); } else { StepAppends(s, step); }
    case WriteAt(n, offset, data) =>
      if n !in s.memoryOnly { WriteExact(s, n, Write(offset, data)); } else { StepAppends(s, step); }
    case Truncate(n, length) =>
      if n !in s.memoryOnly { TruncateExact(s, n, length); } else { StepAppends(s, step); }
    case Complete => StepAppends(s, step);
    case Fail => FailExact(s);
  }

  // ----- Whole runs -----

  function After(s: State, steps: seq<Step>): State {
    if steps == [] then s else Next(After(s, steps[..|steps| - 1]), steps[|steps| - 1])
  }

  lemma AfterTwo(s: State, first: Step, second: Step)
    ensures After(s, [first, second]) == Next(Next(s, first), second)
  {
    assert [first][..0] == [] && After(s, [first]) == Next(s, first);
    assert [first, second][..1] == [first];
  }

  /** bQ: the file system as it is opened over stored files. */
  function Opened(d: Disk): State {
    State(map n | n in d :: Read(d[n]), {}, None, [], d)
  }

  /** Every step of a run meets a condition where it is taken. */
  ghost predicate Each(s: State, steps: seq<Step>, ok: (State, Step) -> bool) {
    steps != [] ==>
      var rest := steps[..|steps| - 1];
      Each(s, rest, ok) && ok(After(s, rest), steps[|steps| - 1])
  }

  /** A property holds at the start of a run and after every step. */
  ghost predicate Always(s: State, steps: seq<Step>, holds: State -> bool) {
    holds(After(s, steps)) && (steps != [] ==> Always(s, steps[..|steps| - 1], holds))
  }

  lemma {:induction false} AlwaysExactly(s: State, steps: seq<Step>, holds: State -> bool, ok: (State, Step) -> bool)
    requires holds(s)
    requires forall t, step :: holds(t) ==> (holds(Next(t, step)) <==> ok(t, step))
    ensures Always(s, steps, holds) <==> Each(s, steps, ok)
  {
    if steps == [] {
    } else {
      AlwaysExactly(s, steps[..|steps| - 1], holds, ok);
      assert Always(s, steps[..|steps| - 1], holds) ==> holds(After(s, steps[..|steps| - 1]));
    }
  }

  /**
   Over a whole run, with calls and with transactions that complete or fail, the pending operations lead to the
   files in memory at every point exactly when every step was safe where it was taken.
  */
  lemma RunExact(s: State, steps: seq<Step>)
    requires Mirrors(s)
    ensures Always(s, steps, Mirrors) <==> Each(s, steps, Safe)
  {
    forall t, step | Mirrors(t) ensures Mirrors(Next(t, step)) <==> Safe(t, step) { StepExact(t, step); }
    AlwaysExactly(s, steps, Mirrors, Safe);
  }

  lemma OpenedMirrors(d: Disk)
    requires AllSound(d)
    ensures Mirrors(Opened(d))
  {}

  /** All operations of a run, one after the other as they were made. */
  function AllMade(s: State, steps: seq<Step>): seq<Op> {
    if steps == [] then []
    else
      var rest, last := steps[..|steps| - 1], steps[|steps| - 1];
      AllMade(s, rest) + Made(After(s, rest), last)
  }

  lemma {:induction false} RunConcat(q: seq<Op>, r: seq<Op>, d: Disk)
    ensures Run(q + r, d) == Run(r, Run(q, d))
  {
    if r == [] {
      assert q + r == q;
    } else {
      assert (q + r)[..|q + r| - 1] == q + r[..|r| - 1];
      RunConcat(q, r[..|r| - 1], d);
    }
  }

  /** At every point of a run, what is pending leads to what it was and all operations made since lead to. */
  ghost predicate AppendsAlong(s: State, steps: seq<Step>) {
    && Pending(After(s, steps)) == Run(AllMade(s, steps), Pending(s))
    && (steps != [] ==> AppendsAlong(s, steps[..|steps| - 1]))
  }

  /**
   Over every run, safe or not, from every state that a run can reach: the pending operations lead to what all
   operations since then lead to, appended as they were made, exactly when no deletion cancels the creation
   of a stored file and no failure makes a difference to its file.
  */
  lemma {:induction false} RewritingIsAppending(s: State, steps: seq<Step>)
    requires Kept(s)
    ensures Kept(After(s, steps))
    ensures AppendsAlong(s, steps) <==> Each(s, steps, Faithful)
  {
    if steps == [] {
    } else {
      var rest, last := steps[..|steps| - 1], steps[|steps| - 1];
      RewritingIsAppending(s, rest);
      StepAppends(After(s, rest), last);
      RunConcat(AllMade(s, rest), Made(After(s, rest), last), Pending(s));
    }
  }

  // ----- Draining -----

  /** The transactions still to come, completed one after the other. */
  function Drained(s: State): State
    decreases |s.queue|, s.inFlight
  {
    if s.inFlight.None? then s
    else if s.queue == [] then Next(s, Complete)
    else Drained(Next(s, Complete))
  }

  /** Draining leaves nothing pending, and then opening the store again gives the files in memory. */
  lemma {:induction false} DrainedAgrees(s: State)
    requires Mirrors(s)
    ensures var t := Drained(s);
      && t.inFlight.None? && t.queue == []
      && t.mem == s.mem && t.memoryOnly == s.memoryOnly
      && Opened(t.disk).mem == s.mem - s.memoryOnly
      && AllSound(t.disk)
    decreases |s.queue|
  {
    StepExact(s, Complete);
    if s.inFlight.None? {
    } else if s.queue == [] {
    } else {
      DrainedAgrees(Next(s, Complete));
    }
  }

  /**
   A write through a handle whose file was deleted is safe only if it writes nothing: otherwise it brings the
   file back in memory and leaves the store without it.
  */
  lemma WriteAfterRemove(n: string, data: Bytes)
    ensures var s := Opened(map[]);
      var step := WriteAt(n, 0, data);
      && Mirrors(s) && n !in Pending(Next(s, step))
      && (n in Next(s, step).mem <==> data != []) && (Safe(s, step) <==> data == [])
  {}
}
