/**
 What runs of A.cY keep beyond FileStates: which creations find their name free, what a failed
 transaction may spoil, and whether the store can be opened again.
*/
module FileRuns {
  import opened Options
  import opened Blocks
  import opened Storage
  import opened PendingQueue
  import opened FileStates

  // ----- Creations -----

  /** A creation that is pending or running finds its name free. */
  ghost predicate Fresh(s: State) {
    && (s.inFlight.Some? && s.inFlight.value.Create? ==> s.inFlight.value.name !in s.disk)
    && CreatesFresh(s.queue, Base(s))
  }

  /** The first operation in the queue that creates or deletes the file; behind the end if there is none. */
  function FirstOf(q: seq<Op>, n: string): (i: nat)
    ensures i <= |q|
    ensures i < |q| ==> (q[i].Create? || q[i].Delete?) && q[i].name == n
  {
    if q == [] then 0
    else
      var i, last := FirstOf(q[..|q| - 1], n), q[|q| - 1];
      if i < |q| - 1 then i else if (last.Create? || last.Delete?) && last.name == n then |q| - 1 else |q|
  }

  /** A running deletion of a stored file. */
  predicate Deleting(s: State) {
    s.inFlight.Some? && s.inFlight.value.Delete? && s.inFlight.value.name in s.disk
  }

  /** Exactly the steps that leave every creation a free name. */
  ghost predicate FindsFree(s: State, step: Step) {
    match step
    case Open(n, create, deleteOnClose) => Made(s, step) == [] || n !in Pending(s)
    case Fail => Deleting(s) ==> var i := FirstOf(s.queue, s.inFlight.value.name); i < |s.queue| ==> s.queue[i].Delete?
    case _ => true
  }

  /** On a store with fewer files, the same operations leave fewer files and find more names free. */
  lemma {:induction false} FewerFiles(q: seq<Op>, d: Disk, e: Disk)
    requires d.Keys <= e.Keys
    ensures Run(q, d).Keys <= Run(q, e).Keys
    ensures CreatesFresh(q, e) ==> CreatesFresh(q, d)
  {
    if q == [] {
    } else {
      FewerFiles(q[..|q| - 1], d, e);
    }
  }

  /**
   When the deletion of a stored file fails, the first creation or deletion of that file in the queue
   decides: a deletion makes up for it, a creation finds its name taken, and without either the file stays.
  */
  lemma {:induction false} DeletionFailed(q: seq<Op>, d: Disk, n: string)
    requires n in d && CreatesFresh(q, d - {n})
    ensures var i := FirstOf(q, n);
      && SameExcept(Run(q, d), Run(q, d - {n}), n)
      && (i == |q| ==> n in Run(q, d) && n !in Run(q, d - {n}) && CreatesFresh(q, d))
      && (i < |q| && q[i].Delete? ==> Run(q, d) == Run(q, d - {n}) && CreatesFresh(q, d))
      && (i < |q| && q[i].Create? ==> !CreatesFresh(q, d))
  {
    if q == [] {
    } else {
      var rest, last := q[..|q| - 1], q[|q| - 1];
      DeletionFailed(rest, d, n);
      if last.name != n {
        OthersAgree(last, Run(rest, d), Run(rest, d - {n}), n);
        WithoutOther(last, Run(rest, d), n);
        WithoutOther(last, Run(rest, d - {n}), n);
      } else {
        OwnFile(last, Run(rest, d));
        OwnFile(last, Run(rest, d - {n}));
      }
    }
  }

  /** Starting the next operation changes nothing for creations. */
  lemma FreshKick(s: State)
    ensures Fresh(Kick(s)) <==> Fresh(s)
  {
    if s.inFlight.None? && s.queue != [] { FreshCons(s.queue, s.disk); }
  }

  lemma FreshFail(s: State)
    requires Fresh(s)
    ensures Fresh(Next(s, Fail)) <==> FindsFree(s, Fail)
  {
    if s.inFlight.Some? {
      FreshKick(s.(inFlight := None));
      if Deleting(s) {
        DeletionFailed(s.queue, s.disk, s.inFlight.value.name);
      } else {
        FewerFiles(s.queue, s.disk, Base(s));
      }
    }
  }

  lemma FreshEnqueue(s: State, queue: seq<Op>, entered: bool)
    requires s.inFlight.Some? && s.inFlight.value.Create? ==> s.inFlight.value.name !in s.disk
    ensures Fresh(Enqueue(s, queue, entered)) <==> CreatesFresh(queue, Base(s))
  {
    FreshKick(s.(queue := queue));
  }

  lemma FreshWrite(s: State, n: string, w: Write)
    requires Fresh(s) && n !in s.memoryOnly
    ensures Fresh(Next(s, WriteAt(n, w.offset, w.data)))
  {
    var original := Content(s.mem, n);
    InsertPatchKeepsFiles(s.queue, n, original, w, Base(s));
    FreshEnqueue(s.(mem := Written(s.mem, n, w)), InsertPatch(s.queue, n, original, w),
                 !CanMerge(s.queue, n));
  }

  lemma FreshRemove(s: State, n: string)
    requires Fresh(s) && n !in s.memoryOnly
    ensures Fresh(Next(s, Remove(n)))
  {
    InsertDeleteMeaning(s.queue, n, Base(s));
    FreshEnqueue(s.(mem := s.mem - {n}), InsertDelete(s.queue, n), !Settled(s.queue, n));
  }

  lemma FreshAppend(s: State, op: Op, mem: Files)
    requires Fresh(s)
    ensures Fresh(Enqueue(s.(mem := mem), s.queue + [op], true)) <==> (op.Create? ==> op.name !in Pending(s))
  {
    FreshSnoc(s.queue, op, Base(s));
    FreshEnqueue(s.(mem := mem), s.queue + [op], true);
  }

  lemma FreshStep(s: State, step: Step)
    requires Fresh(s)
    ensures Fresh(Next(s, step)) <==> FindsFree(s, step)
  {
    match step
    case Open(n, create, deleteOnClose) => FreshAppend(s, Create(n), s.mem[n := []]);
    case Remove(n) => if n !in s.memoryOnly { FreshRemove(s, n); }
    case WriteAt(n, offset, data) => if n !in s.memoryOnly { FreshWrite(s, n, Write(offset, data)); }
    case Truncate(n, length) =>
      FreshAppend(s, Resize(n, length), s.mem[n := ResizedBytes(Content(s.mem, n), length)]);
    case Complete => if s.inFlight.Some? { FreshKick(s.(inFlight := None, disk := Base(s))); }
    case Fail => FreshFail(s);
  }

  /**
   Over every run, creations find their names free at every point exactly when no file is created that the pending
   operations leave stored, and no deletion of a stored file fails ahead of a creation of it.
  */
  lemma CreationsFindTheirNameFree(s: State, steps: seq<Step>)
    requires Fresh(s)
    ensures Always(s, steps, Fresh) <==> Each(s, steps, FindsFree)
  {
    forall t, step | Fresh(t) ensures Fresh(Next(t, step)) <==> FindsFree(t, step) { FreshStep(t, step); }
    AlwaysExactly(s, steps, Fresh, FindsFree);
  }

  // ----- Runs in which failures do no harm to the queue -----

  /** What is pending stores only files that are in memory and meant to be stored. */
  ghost predicate Traced(s: State) {
    Kept(s) && Fresh(s) && Pending(s).Keys <= s.mem.Keys - s.memoryOnly
  }

  /**
   Every step but the failing deletion of a stored file whose next creation or deletion in the queue is not a
   deletion; with none in the queue it does no harm only if the file has come back in memory.
  */
  ghost predicate Harmless(s: State, step: Step) {
    step.Fail? && Deleting(s) ==>
      var n := s.inFlight.value.name;
      var i := FirstOf(s.queue, n);
      if i < |s.queue| then s.queue[i].Delete? else n in s.mem && n !in s.memoryOnly
  }

  lemma TracedFail(s: State)
    requires Traced(s)
    ensures Traced(Next(s, Fail)) <==> Harmless(s, Fail)
  {
    StepAppends(s, Fail);
    FreshFail(s);
    if s.inFlight.Some? {
      FailureMeaning(s);
      if Deleting(s) {
        DeletionFailed(s.queue, s.disk, s.inFlight.value.name);
        SameByFile(Run(s.queue, s.disk), Pending(s), s.inFlight.value.name);
        OnlyOneMore(Run(s.queue, s.disk), Pending(s), s.inFlight.value.name);
      } else {
        FewerFiles(s.queue, s.disk, Base(s));
      }
    }
  }

  lemma OnlyOneMore(d: Disk, e: Disk, n: string)
    requires SameExcept(d, e, n)
    ensures d.Keys <= e.Keys + {n}
  {
    forall k | k in d && k != n ensures k in e { assert k in d - {n}; }
  }

  lemma TracedStep(s: State, step: Step)
    requires Traced(s)
    ensures Traced(Next(s, step)) <==> Harmless(s, step)
    ensures !step.Fail? ==> Faithful(s, step)
  {
    if step.Fail? {
      TracedFail(s);
    } else {
      if step.Remove? { PurgeKeepsFresh(s.queue, step.name, Base(s)); }
      StepAppends(s, step);
      FreshStep(s, step);
      KeysAfter(s, step);
    }
  }

  /** The effect of the operation that a step makes, if it makes one. */
  lemma MadeEffect(s: State, step: Step)
    requires Made(s, step) != []
    ensures Run(Made(s, step), Pending(s)) == Perform(Made(s, step)[0], Pending(s))
  {
    var op := Made(s, step)[0];
    assert Made(s, step) == [] + [op];
    RunSnoc([], op, Pending(s));
  }

  lemma KeysAfter(s: State, step: Step)
    requires Traced(s) && !step.Fail?
    ensures Run(Made(s, step), Pending(s)).Keys <= Next(s, step).mem.Keys - Next(s, step).memoryOnly
  {
    if Made(s, step) != [] {
      MadeEffect(s, step);
      assert Next(s, step).memoryOnly == s.memoryOnly;
      match step
      case Open(n, _, _) => assert Next(s, step).mem == s.mem[n := []];
      case Remove(n) => assert Next(s, step).mem == s.mem - {n};
      case WriteAt(n, offset, data) => assert Next(s, step).mem.Keys >= s.mem.Keys;
      case Truncate(n, length) => assert Next(s, step).mem.Keys == s.mem.Keys + {n};
      case _ =>
    } else if step.Open? {
      assert step.name !in s.mem ==> step.name !in Pending(s);
    }
  }

  lemma OpenedTraced(d: Disk)
    ensures Traced(Opened(d))
  {}

  /**
   Over every run, safe or not, what is pending stores only files of memory and creates only absent ones, at every
   point, exactly when no failure does harm.
  */
  lemma HarmlessExactly(d: Disk, steps: seq<Step>)
    ensures Always(Opened(d), steps, Traced) <==> Each(Opened(d), steps, Harmless)
  {
    OpenedTraced(d);
    forall t, step | Traced(t) ensures Traced(Next(t, step)) <==> Harmless(t, step) { TracedStep(t, step); }
    AlwaysExactly(Opened(d), steps, Traced, Harmless);
  }

  predicate NoFailure(s: State, step: Step) {
    !step.Fail?
  }

  /** Without failures, in every run, safe or not, rewriting the queue never changes its meaning. */
  lemma {:induction false} WithoutFailures(d: Disk, steps: seq<Step>)
    requires Each(Opened(d), steps, NoFailure)
    ensures var s := After(Opened(d), steps); Traced(s) && Pending(s) == Run(AllMade(Opened(d), steps), d)
  {
    if steps == [] {
      OpenedTraced(d);
    } else {
      var rest, last := steps[..|steps| - 1], steps[|steps| - 1];
      WithoutFailures(d, rest);
      TracedStep(After(Opened(d), rest), last);
      StepAppends(After(Opened(d), rest), last);
      RunConcat(AllMade(Opened(d), rest), Made(After(Opened(d), rest), last), d);
    }
  }

  /** A deletion that starts at once and fails: the file is gone from memory, and stays on the store. */
  lemma DeletionFails(n: string, f: File)
    ensures After(Opened(map[n := f]), [Remove(n), Fail]) == State(map[], {}, None, [], map[n := f])
  {
    var s := Opened(map[n := f]);
    AfterTwo(s, Remove(n), Fail);
    assert s.mem - {n} == map[];
    assert Next(s, Remove(n)) == State(map[], {}, Some(Delete(n)), [], s.disk);
  }

  lemma CreatedBehind(n: string, k: string, f: File)
    requires n != k
    ensures After(State(map[], {}, None, [], map[n := f]), [Open(k, true, false), Open(n, true, false)])
         == State(map[k := [], n := []], {}, Some(Create(k)), [Create(n)], map[n := f])
  {
    var s := State(map[], {}, None, [], map[n := f]);
    AfterTwo(s, Open(k, true, false), Open(n, true, false));
    assert Next(s, Open(k, true, false)) == State(map[k := []], {}, Some(Create(k)), [], s.disk);
  }

  /**
   A failed deletion may keep a file for good: the deletion of n fails, n is created again behind another
   creation and deleted once more. That deletion cancels the creation, and nothing deletes the stored file.
  */
  lemma FailedDeletionCancels(n: string, k: string, f: File)
    requires n != k
    ensures var s := After(After(Opened(map[n := f]), [Remove(n), Fail]), [Open(k, true, false), Open(n, true, false)]);
      var t := Next(s, Remove(n));
      && s.queue == [Create(n)] && !Fresh(s) && !Faithful(s, Remove(n))
      && n !in Run(Made(s, Remove(n)), Pending(s))
      && n !in t.mem && t.queue == [] && Drained(t).disk == map[n := f, k := EMPTY]
  {
    DeletionFails(n, f);
    CreatedBehind(n, k, f);
    var s := State(map[k := [], n := []], {}, Some(Create(k)), [Create(n)], map[n := f]);
    CancelledAndStored(s, n, k, f);
    MadeEffect(s, Remove(n));
  }

  lemma CancelledAndStored(s: State, n: string, k: string, f: File)
    requires n != k && s == State(map[k := [], n := []], {}, Some(Create(k)), [Create(n)], map[n := f])
    ensures !Fresh(s) && !Faithful(s, Remove(n))
    ensures var t := Next(s, Remove(n)); n !in t.mem && t.queue == [] && Drained(t).disk == map[n := f, k := EMPTY]
  {
    assert [Create(n)][..0] == [];
    assert Base(s) == map[n := f, k := EMPTY];
    assert Next(s, Remove(n)) == State(s.mem - {n}, {}, Some(Create(k)), [], s.disk);
  }

  // ----- Calls that are safe by themselves -----

  /**
   For a call, a condition on the call alone: the file is there, a write leaves no gap, a truncation does not
   grow the file. A transaction may fail where that makes no difference in the end.
  */
  ghost predicate Gentle(s: State, step: Step) {
    match step
    case WriteAt(n, offset, _) => n in s.mem && offset <= |s.mem[n]|
    case Truncate(n, length) => n in s.mem && length <= |s.mem[n]|
    case Fail => Safe(s, step) && FindsFree(s, step)
    case _ => true
  }

  lemma GentleIsSafe(s: State, step: Step)
    requires Mirrors(s) && Fresh(s) && Gentle(s, step)
    ensures Safe(s, step) && FindsFree(s, step)
  {
    match step
    case Remove(n) => PurgeKeepsFresh(s.queue, n, Base(s));
    case _ =>
  }

  /** Every run of gentle calls, with transactions completing at any time, keeps the agreement. */
  lemma {:induction false} GentleRun(d: Disk, steps: seq<Step>)
    requires AllSound(d) && Each(Opened(d), steps, Gentle)
    ensures Mirrors(After(Opened(d), steps)) && Fresh(After(Opened(d), steps))
  {
    if steps == [] {
      OpenedMirrors(d);
    } else {
      var rest, last := steps[..|steps| - 1], steps[|steps| - 1];
      GentleRun(d, rest);
      GentleIsSafe(After(Opened(d), rest), last);
      StepExact(After(Opened(d), rest), last);
      FreshStep(After(Opened(d), rest), last);
    }
  }

  // ----- A transaction that fails -----

  predicate Touches(q: seq<Op>, n: string) {
    exists i :: 0 <= i < |q| && q[i].name == n
  }

  lemma {:induction false} UntouchedStays(q: seq<Op>, d: Disk, n: string)
    requires !Touches(q, n)
    ensures SameFile(Run(q, d), d, n)
  {
    if q == [] {
    } else {
      var rest, last := q[..|q| - 1], q[|q| - 1];
      assert forall i :: 0 <= i < |rest| ==> rest[i] == q[i];
      UntouchedStays(rest, d, n);
      assert last.name != n;
      WithoutOther(last, Run(rest, d), n);
    }
  }

  /** A file that is never deleted stays; one that is not there and never created stays away. */
  lemma {:induction false} PresenceStays(q: seq<Op>, d: Disk, e: Disk, n: string)
    requires n in d && n !in e && !Deletes(q, n) && CreatesFresh(q, d)
    ensures n in Run(q, d) && n !in Run(q, e)
  {
    if q == [] {
    } else {
      var rest, last := q[..|q| - 1], q[|q| - 1];
      assert forall i :: 0 <= i < |rest| ==> rest[i] == q[i];
      PresenceStays(rest, d, e, n);
      assert last != Delete(n);
    }
  }

  /**
   A failed transaction leaves store and memory in agreement exactly when its own file still agrees. That
   is so when a deletion of the file is pending; when nothing is pending on it, exactly when the stored
   file already is the one in memory; for the creation of a stored file always, and for one of an absent file,
   with the names of later creations free, only with a deletion pending.
  */
  lemma FailureExact(s: State)
    requires Mirrors(s) && s.inFlight.Some?
    ensures var op, agrees := s.inFlight.value, Agrees(Pending(Next(s, Fail)), s.mem, s.memoryOnly);
      && (agrees <==> FileAgrees(Run(s.queue, s.disk), s.mem, s.memoryOnly, op.name))
      && (Deletes(s.queue, op.name) ==> agrees)
      && (!Touches(s.queue, op.name) ==> (agrees <==> FileAgrees(s.disk, s.mem, s.memoryOnly, op.name)))
      && (op.Create? && op.name in s.disk ==> agrees)
      && (op.Create? && Fresh(s) ==> (agrees <==> Deletes(s.queue, op.name)))
  {
    var op := s.inFlight.value;
    FailureMeaning(s);
    AgreesElsewhere(Pending(s), Run(s.queue, s.disk), s.mem, s.mem, s.memoryOnly, op.name);
    if !Touches(s.queue, op.name) { UntouchedStays(s.queue, s.disk, op.name); }
    if op.Create? && Fresh(s) && !Deletes(s.queue, op.name) { PresenceStays(s.queue, Base(s), s.disk, op.name); }
  }

  // ----- Each transaction at its turn -----

  /** Every operation still to be done is in order when its turn comes. */
  ghost predicate Orderly(s: State) {
    && AllSound(s.disk)
    && (s.inFlight.Some? ==> InOrder(s.inFlight.value, s.disk))
    && WellFormed(s.queue, Base(s))
  }

  lemma OrderlyKick(s: State)
    requires Orderly(s)
    ensures Orderly(Kick(s))
  {
    if s.inFlight.None? && s.queue != [] { WellFormedCons(s.queue, s.disk); }
  }

  lemma OrderlyWrite(s: State, n: string, w: Write)
    requires Mirrors(s) && Orderly(s) && Safe(s, WriteAt(n, w.offset, w.data)) && n !in s.memoryOnly
    ensures Orderly(Next(s, WriteAt(n, w.offset, w.data)))
  {
    var original := Content(s.mem, n);
    if s.inFlight.Some? { SoundAfter(s.inFlight.value, s.disk); }
    assert [] + [w] == [w];
    Snoc(original, [], w);
    InsertPatchKeepsOrder(s.queue, n, original, w, Base(s));
    OrderlyKick(s.(mem := Written(s.mem, n, w), queue := InsertPatch(s.queue, n, original, w)));
  }

  lemma OrderlyRemove(s: State, n: string)
    requires Orderly(s) && n !in s.memoryOnly
    ensures Orderly(Next(s, Remove(n)))
  {
    InsertDeleteKeepsOrder(s.queue, n, Base(s));
    OrderlyKick(s.(mem := s.mem - {n}, queue := InsertDelete(s.queue, n)));
  }

  /** An operation that is in order enters at the end. */
  lemma OrderlyAppend(s: State, op: Op, mem: Files)
    requires Orderly(s) && InOrder(op, Pending(s))
    ensures Orderly(Enqueue(s.(mem := mem), s.queue + [op], true))
  {
    WellFormedSnoc(s.queue, op, Base(s));
    OrderlyKick(s.(mem := mem, queue := s.queue + [op]));
  }

  lemma OrderlyStep(s: State, step: Step)
    requires Mirrors(s) && Orderly(s) && Safe(s, step) && !step.Fail?
    ensures Orderly(Next(s, step))
  {
    match step
    case Open(n, create, deleteOnClose) =>
      if n !in s.mem && create && !deleteOnClose { OrderlyAppend(s, Create(n), s.mem[n := []]); }
    case Remove(n) => if n !in s.memoryOnly { OrderlyRemove(s, n); }
    case WriteAt(n, offset, data) => if n !in s.memoryOnly { OrderlyWrite(s, n, Write(offset, data)); }
    case Truncate(n, length) =>
      OrderlyAppend(s, Resize(n, length), s.mem[n := ResizedBytes(Content(s.mem, n), length)]);
    case Complete =>
      if s.inFlight.Some? {
        SoundAfter(s.inFlight.value, s.disk);
        OrderlyKick(s.(inFlight := None, disk := Base(s)));
      }
  }

  ghost predicate SafeCompleting(s: State, step: Step) {
    Safe(s, step) && !step.Fail?
  }

  /**
   In every run of safe steps whose transactions complete, the operation that is running does what it was made for:
   it creates an absent file, or overlays its writes on what the stored file holds.
  */
  lemma {:induction false} TransactionsInOrder(d: Disk, steps: seq<Step>)
    requires AllSound(d) && Each(Opened(d), steps, SafeCompleting)
    ensures var s := After(Opened(d), steps);
      && Mirrors(s) && Orderly(s)
      && (s.inFlight.Some? ==>
            match s.inFlight.value
            case Create(n) => n !in s.disk
            case Patch(n, _, ws) => n in s.disk ==> ReadBack(Base(s)[n]) == Some(Overlaid(Read(s.disk[n]), ws))
            case _ => true)
  {
    var s := After(Opened(d), steps);
    if steps == [] {
      OpenedMirrors(d);
    } else {
      var rest, last := steps[..|steps| - 1], steps[|steps| - 1];
      TransactionsInOrder(d, rest);
      StepExact(After(Opened(d), rest), last);
      OrderlyStep(After(Opened(d), rest), last);
    }
    if s.inFlight.Some? && s.inFlight.value.Patch? && s.inFlight.value.name in s.disk {
      var f, ws := s.disk[s.inFlight.value.name], s.inFlight.value.writes;
      PatchExact(f, ws);
      PatchedSound(f, Read(f), ws);
    }
  }
}
