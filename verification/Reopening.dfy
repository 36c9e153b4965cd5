/**
 Whether the store can be opened again: a stored file with a block past its end cannot be read. Runs without
 failures never leave one behind, safe or not; some failures followed by a write do.
*/
module Reopening {
  import opened Options
  import opened Blocks
  import opened Storage
  import opened PendingQueue
  import opened FileStates
  import opened FileRuns

  // ----- One operation -----

  /** A patch of a stored file that ends before one of the blocks that stay in the store. */
  ghost predicate Strands(op: Op, d: Disk) {
    op.Patch? && op.name in d &&
    exists p :: p in d[op.name].blocks && p > |Overlaid(op.original, op.writes)|
  }

  /** An operation on sound files leaves them sound exactly when it strands no block. */
  lemma SoundExactly(op: Op, d: Disk)
    requires AllSound(d)
    ensures AllSound(Perform(op, d)) <==> !Strands(op, d)
  {
    match op
    case Patch(n, original, ws) =>
      if n in d {
        forall p | p in Touched(ws) ensures p % BLOCK == 0 && p < |Overlaid(original, ws)| {
          TouchedBounds(original, ws, p);
        }
        var f, g := d[n], Perform(op, d)[n];
        assert g == Patched(f, original, ws);
        assert Sound(g) <==> !Strands(op, d) by {
          if Strands(op, d) {
            var p :| p in f.blocks && p > |Overlaid(original, ws)|;
            assert p in g.blocks && p > g.length;
          }
        }
      }
    case Resize(n, length) => if n in d { ResizedSound(d[n], length); }
    case _ =>
  }

  /** Every stored file can be read, so that the store can be opened again. */
  ghost predicate Reopens(s: State) {
    AllSound(s.disk)
  }

  ghost predicate StrandsNothing(s: State, step: Step) {
    step.Complete? && s.inFlight.Some? ==> !Strands(s.inFlight.value, s.disk)
  }

  /**
   Over every run, safe or not, with any failures, the store can be opened again after every step exactly when
   no transaction that completes strands a block.
  */
  lemma ReopensExactly(s: State, steps: seq<Step>)
    requires Reopens(s)
    ensures Always(s, steps, Reopens) <==> Each(s, steps, StrandsNothing)
  {
    forall t, step | Reopens(t) ensures Reopens(Next(t, step)) <==> StrandsNothing(t, step) {
      if t.inFlight.Some? { SoundExactly(t.inFlight.value, t.disk); }
    }
    AlwaysExactly(s, steps, Reopens, StrandsNothing);
  }

  // ----- Which failures can do that -----

  /** A patch starts from at least as many bytes as its file has. */
  ghost predicate Fits(op: Op, d: Disk) {
    op.Patch? && op.name in d ==> d[op.name].length <= |op.original|
  }

  ghost predicate AllFit(q: seq<Op>, d: Disk) {
    q != [] ==> AllFit(q[..|q| - 1], d) && Fits(q[|q| - 1], Run(q[..|q| - 1], d))
  }

  lemma FitSnoc(q: seq<Op>, op: Op, d: Disk)
    ensures AllFit(q + [op], d) <==> AllFit(q, d) && Fits(op, Run(q, d))
  {
    assert (q + [op])[..|q|] == q;
  }

  lemma {:induction false} FitCons(q: seq<Op>, d: Disk)
    requires q != [] && AllFit(q, d)
    ensures Fits(q[0], d) && AllFit(q[1..], Perform(q[0], d))
  {
    if |q| == 1 {
      assert q[..0] == [];
    } else {
      var rest := q[..|q| - 1];
      FitCons(rest, d);
      RunCons(rest, d);
      assert rest[1..] == q[1..][..|q| - 2];
    }
  }

  /** Every file of d is in e, and is no longer there than it is in e. */
  ghost predicate Within(d: Disk, e: Disk) {
    d.Keys <= e.Keys && forall n :: n in d ==> d[n].length <= e[n].length
  }

  lemma {:induction false} ShorterFits(q: seq<Op>, d: Disk, e: Disk)
    requires Within(d, e) && AllFit(q, e)
    ensures Within(Run(q, d), Run(q, e)) && AllFit(q, d)
  {
    if q == [] {
    } else {
      ShorterFits(q[..|q| - 1], d, e);
    }
  }

  lemma FitsElsewhere(op: Op, d: Disk, e: Disk, n: string)
    requires op.name != n && SameExcept(d, e, n)
    ensures Fits(op, d) <==> Fits(op, e)
  {
    SameByFile(d, e, n);
    assert SameFile(d, e, op.name);
  }

  lemma {:induction false} PurgeFits(q: seq<Op>, n: string, d: Disk)
    requires AllFit(q, d)
    ensures AllFit(Purge(q, n), d)
  {
    if q == [] {
    } else {
      var rest, last := q[..|q| - 1], q[|q| - 1];
      PurgeFits(rest, n, d);
      if last.name != n && !last.Resize? {
        PurgeMeaning(rest, n, d);
        FitsElsewhere(last, Run(Purge(rest, n), d), Run(rest, d), n);
        FitSnoc(Purge(rest, n), last, d);
      }
    }
  }

  lemma {:induction false} MergeFits(q: seq<Op>, n: string, w: Write, d: Disk)
    requires CanMerge(q, n) && AllFit(q, d)
    ensures AllFit(MergeWrite(q, n, w), d)
  {
    var rest, last := q[..|q| - 1], q[|q| - 1];
    if last.name == n {
      FitSnoc(rest, Patch(n, last.original, last.writes + [w]), d);
    } else {
      MergeFits(rest, n, w, d);
      MergeElsewhere(rest, n, w, d);
      FitsElsewhere(last, Run(MergeWrite(rest, n, w), d), Run(rest, d), n);
      FitSnoc(MergeWrite(rest, n, w), last, d);
    }
  }

  /** No pending patch starts from less than its file has. */
  ghost predicate Fitting(s: State) {
    (s.inFlight.Some? ==> Fits(s.inFlight.value, s.disk)) && AllFit(s.queue, Base(s))
  }

  lemma FittingKick(s: State)
    requires Fitting(s)
    ensures Fitting(Kick(s))
  {
    if s.inFlight.None? && s.queue != [] { FitCons(s.queue, s.disk); }
  }

  /** No file is longer on the store than in memory. */
  ghost predicate Shorter(d: Disk, mem: Files) {
    forall n :: n in d ==> d[n].length <= |Content(mem, n)|
  }

  ghost predicate Covered(s: State) {
    Traced(s) && AllSound(s.disk) && Fitting(s) && Shorter(Pending(s), s.mem)
  }

  /** Every step but the failing deletion of a stored file and the failing truncation that would shorten one. */
  predicate Mild(s: State, step: Step) {
    step.Fail? && s.inFlight.Some? ==>
      match s.inFlight.value
      case Delete(n) => n !in s.disk
      case Resize(n, length) => n in s.disk ==> s.disk[n].length <= length
      case _ => true
  }

  /** When one file alone may differ, it depends on this file. */
  lemma ShorterElsewhere(d: Disk, e: Disk, mem: Files, mem': Files, n: string)
    requires Shorter(d, mem) && SameExcept(d, e, n) && mem - {n} == mem' - {n}
    requires n in e ==> e[n].length <= |Content(mem', n)|
    ensures Shorter(e, mem')
  {
    SameByFile(d, e, n);
    forall k | k in e && k != n ensures e[k].length <= |Content(mem', k)| {
      assert SameFile(d, e, k);
      assert k in mem <==> k in mem - {n};
      assert k in mem' <==> k in mem' - {n};
      if k in mem { assert mem[k] == (mem - {n})[k] == (mem' - {n})[k] == mem'[k]; }
    }
  }

  lemma ShorterPatch(d: Disk, mem: Files, n: string, w: Write)
    requires Shorter(d, mem)
    ensures Shorter(Perform(Patch(n, Content(mem, n), [w]), d), Written(mem, n, w))
  {
    var op, mem' := Patch(n, Content(mem, n), [w]), Written(mem, n, w);
    assert [] + [w] == [w];
    Snoc(Content(mem, n), [], w);
    OwnFile(op, d);
    assert mem - {n} == mem' - {n};
    ShorterElsewhere(d, Perform(op, d), mem, mem', n);
  }

  lemma ShorterOther(d: Disk, mem: Files, op: Op, content: Bytes)
    requires Shorter(d, mem) && (op.Create? ==> op.name !in d) && !op.Patch? && !op.Delete?
    requires op.Resize? ==> |content| == op.length
    ensures Shorter(Perform(op, d), mem[op.name := content])
  {
    OwnFile(op, d);
    assert mem - {op.name} == mem[op.name := content] - {op.name};
    ShorterElsewhere(d, Perform(op, d), mem, mem[op.name := content], op.name);
  }

  lemma ShorterDelete(d: Disk, mem: Files, n: string)
    requires Shorter(d, mem)
    ensures Shorter(Perform(Delete(n), d), mem - {n})
  {
    assert mem - {n} == (mem - {n}) - {n};
    OwnFile(Delete(n), d);
    ShorterElsewhere(d, Perform(Delete(n), d), mem, mem - {n}, n);
  }

  /** A file that is not stored may have any content in memory. */
  lemma ShorterMemory(d: Disk, mem: Files, mem': Files, n: string)
    requires Shorter(d, mem) && n !in d && mem - {n} == mem' - {n}
    ensures Shorter(d, mem')
  {
    ShorterElsewhere(d, d, mem, mem', n);
  }

  lemma ShorterMade(s: State, step: Step)
    requires Traced(s) && Shorter(Pending(s), s.mem) && Made(s, step) != []
    ensures Shorter(Perform(Made(s, step)[0], Pending(s)), Next(s, step).mem)
  {
    var d := Pending(s);
    match step
    case Open(n, _, _) => ShorterOther(d, s.mem, Create(n), []);
    case Remove(n) => ShorterDelete(d, s.mem, n);
    case WriteAt(n, offset, data) => ShorterPatch(d, s.mem, n, Write(offset, data));
    case Truncate(n, length) => ShorterOther(d, s.mem, Resize(n, length), ResizedBytes(Content(s.mem, n), length));
  }

  lemma ShorterUnmade(s: State, step: Step)
    requires Traced(s) && Shorter(Pending(s), s.mem) && Made(s, step) == []
    ensures Shorter(Pending(s), Next(s, step).mem)
  {
    var mem' := Next(s, step).mem;
    if step.Open? || step.Remove? || step.WriteAt? || step.Truncate? {
      assert mem' - {step.name} == s.mem - {step.name};
      if mem' != s.mem { ShorterMemory(Pending(s), s.mem, mem', step.name); }
    }
  }

  lemma ShorterStep(s: State, step: Step)
    requires Traced(s) && Shorter(Pending(s), s.mem) && !step.Fail?
    ensures Shorter(Run(Made(s, step), Pending(s)), Next(s, step).mem)
  {
    if Made(s, step) != [] {
      MadeEffect(s, step);
      ShorterMade(s, step);
    } else {
      ShorterUnmade(s, step);
    }
  }

  lemma FittingRemove(s: State, n: string)
    requires Fitting(s) && n !in s.memoryOnly
    ensures Fitting(Next(s, Remove(n)))
  {
    PurgeFits(s.queue, n, Base(s));
    FitSnoc(Purge(s.queue, n), Delete(n), Base(s));
    FittingKick(s.(mem := s.mem - {n}, queue := InsertDelete(s.queue, n)));
  }

  lemma FittingWrite(s: State, n: string, w: Write)
    requires Fitting(s) && Shorter(Pending(s), s.mem) && n !in s.memoryOnly
    ensures Fitting(Next(s, WriteAt(n, w.offset, w.data)))
  {
    var original := Content(s.mem, n);
    if CanMerge(s.queue, n) {
      MergeFits(s.queue, n, w, Base(s));
    } else {
      FitSnoc(s.queue, Patch(n, original, [w]), Base(s));
    }
    FittingKick(s.(mem := Written(s.mem, n, w), queue := InsertPatch(s.queue, n, original, w)));
  }

  /** An operation other than a patch that enters at the end. */
  lemma FittingAppend(s: State, op: Op, mem: Files)
    requires Fitting(s) && !op.Patch?
    ensures Fitting(Enqueue(s.(mem := mem), s.queue + [op], true))
  {
    FitSnoc(s.queue, op, Base(s));
    FittingKick(s.(mem := mem, queue := s.queue + [op]));
  }

  lemma FittingStep(s: State, step: Step)
    requires Fitting(s) && Shorter(Pending(s), s.mem) && !step.Fail?
    ensures Fitting(Next(s, step))
  {
    match step
    case Open(n, create, deleteOnClose) => FittingAppend(s, Create(n), s.mem[n := []]);
    case Remove(n) => if n !in s.memoryOnly { FittingRemove(s, n); }
    case WriteAt(n, offset, data) => if n !in s.memoryOnly { FittingWrite(s, n, Write(offset, data)); }
    case Truncate(n, length) =>
      FittingAppend(s, Resize(n, length), s.mem[n := ResizedBytes(Content(s.mem, n), length)]);
    case Complete => if s.inFlight.Some? { FittingKick(s.(inFlight := None, disk := Base(s))); }
  }

  /** A failure of that kind leaves every file there is no longer than its operation would have. */
  lemma MildIsWithin(s: State)
    requires Mild(s, Fail) && Fitting(s)
    ensures Within(s.disk, Base(s))
  {
    if s.inFlight.Some? && s.inFlight.value.Patch? {
      OverlaidGrows(s.inFlight.value.original, s.inFlight.value.writes);
    }
  }

  lemma FitStrandsNothing(op: Op, d: Disk)
    requires AllSound(d) && Fits(op, d)
    ensures !Strands(op, d)
  {
    if op.Patch? { OverlaidGrows(op.original, op.writes); }
  }

  lemma CoveredStep(s: State, step: Step)
    requires Covered(s) && Mild(s, step)
    ensures Covered(Next(s, step)) && StrandsNothing(s, step)
  {
    StepAppends(s, step);
    TracedStep(s, step);
    if s.inFlight.Some? {
      FitStrandsNothing(s.inFlight.value, s.disk);
      SoundExactly(s.inFlight.value, s.disk);
    }
    if !step.Fail? {
      FittingStep(s, step);
      ShorterStep(s, step);
    } else if s.inFlight.Some? {
      MildIsWithin(s);
      ShorterFits(s.queue, s.disk, Base(s));
      FittingKick(s.(inFlight := None));
      FailureMeaning(s);
    }
  }

  /**
   Over every run, safe or not, from a store that can be read: it can be read again after every step, if no
   transaction fails but creations, writes, growing truncations and what concerns files that are not stored.
  */
  lemma {:induction false} MildFailuresDoNotMatter(d: Disk, steps: seq<Step>)
    requires AllSound(d) && Each(Opened(d), steps, Mild)
    ensures Covered(After(Opened(d), steps)) && Always(Opened(d), steps, Reopens)
  {
    if steps == [] {
      OpenedTraced(d);
    } else {
      MildFailuresDoNotMatter(d, steps[..|steps| - 1]);
      CoveredStep(After(Opened(d), steps[..|steps| - 1]), steps[|steps| - 1]);
    }
  }

  // ----- Two failures that make a store unreadable -----

  /** Once the running write of a byte over a file empty in memory is stored, the old second block is left behind. */
  lemma WriteStrands(s: State, n: string, b: Byte, f: File)
    requires s.inFlight == Some(Patch(n, [], [Write(0, [b])])) && s.queue == [] && s.disk == map[n := f]
    requires BLOCK in f.blocks
    ensures var t := Next(s, Complete);
      && t.inFlight.None? && t.queue == [] && t.mem == s.mem
      && n in t.disk && ReadBack(t.disk[n]) == None && !Reopens(t)
  {
    assert Overlay([], Write(0, [b])) == [b];
    StrandedByte(f, [], Write(0, [b]));
  }

  /**
   The truncation to nothing of a stored file with a second block fails, and the write after it leaves that block behind
   the new end.
  */
  lemma FailedTruncationStrands(n: string, b: Byte, f: File)
    requires Sound(f) && BLOCK in f.blocks
    ensures var failed := After(Opened(map[n := f]), [Truncate(n, 0), Fail]);
      var s := After(failed, [WriteAt(n, 0, [b]), Complete]);
      && s.inFlight.None? && s.queue == [] && s.mem == map[n := [b]]
      && n in s.disk && ReadBack(s.disk[n]) == None && !Reopens(s)
  {
    TruncationFails(n, f);
    var failed := State(map[n := []], {}, None, [], map[n := f]);
    AfterTwo(failed, WriteAt(n, 0, [b]), Complete);
    assert Overlay([], Write(0, [b])) == [b];
    assert Next(failed, WriteAt(n, 0, [b]))
        == State(map[n := [b]], {}, Some(Patch(n, [], [Write(0, [b])])), [], map[n := f]);
    WriteStrands(Next(failed, WriteAt(n, 0, [b])), n, b, f);
  }

  lemma TruncationFails(n: string, f: File)
    ensures After(Opened(map[n := f]), [Truncate(n, 0), Fail]) == State(map[n := []], {}, None, [], map[n := f])
  {
    var s := Opened(map[n := f]);
    AfterTwo(s, Truncate(n, 0), Fail);
    assert ResizedBytes(s.mem[n], 0) == [];
    assert Next(s, Truncate(n, 0)) == State(map[n := []], {}, Some(Resize(n, 0)), [], s.disk);
  }

  /** The deletion of such a file fails, and the write into the one created in its place leaves the old second block. */
  lemma FailedDeletionStrands(n: string, b: Byte, f: File)
    requires Sound(f) && BLOCK in f.blocks
    ensures var failed := After(Opened(map[n := f]), [Remove(n), Fail]);
      var written := After(failed, [Open(n, true, false), WriteAt(n, 0, [b])]);
      var s := After(written, [Complete, Complete]);
      && s.inFlight.None? && s.queue == [] && s.mem == map[n := [b]]
      && n in s.disk && ReadBack(s.disk[n]) == None && !Reopens(s)
  {
    DeletionFails(n, f);
    WrittenAgain(n, b, map[n := f]);
    BothComplete(n, b, f);
  }

  lemma BothComplete(n: string, b: Byte, f: File)
    requires BLOCK in f.blocks
    ensures var patch := Patch(n, [], [Write(0, [b])]);
      var s := After(State(map[n := [b]], {}, Some(Create(n)), [patch], map[n := f]), [Complete, Complete]);
      && s.inFlight.None? && s.queue == [] && s.mem == map[n := [b]]
      && n in s.disk && ReadBack(s.disk[n]) == None && !Reopens(s)
  {
    var patch := Patch(n, [], [Write(0, [b])]);
    var written := State(map[n := [b]], {}, Some(Create(n)), [patch], map[n := f]);
    AfterTwo(written, Complete, Complete);
    assert Next(written, Complete) == State(map[n := [b]], {}, Some(patch), [], map[n := f]);
    WriteStrands(Next(written, Complete), n, b, f);
  }

  lemma WrittenAgain(n: string, b: Byte, d: Disk)
    ensures After(State(map[], {}, None, [], d), [Open(n, true, false), WriteAt(n, 0, [b])])
         == State(map[n := [b]], {}, Some(Create(n)), [Patch(n, [], [Write(0, [b])])], d)
  {
    var s := State(map[], {}, None, [], d);
    AfterTwo(s, Open(n, true, false), WriteAt(n, 0, [b]));
    assert Next(s, Open(n, true, false)) == State(map[n := []], {}, Some(Create(n)), [], d);
    assert Overlay([], Write(0, [b])) == [b];
  }

  lemma StrandedByte(f: File, original: Bytes, w: Write)
    requires BLOCK in f.blocks && |Overlay(original, w)| < BLOCK
    ensures ReadBack(Patched(f, original, [w])) == None
  {
    assert [] + [w] == [w];
    Snoc(original, [], w);
    assert BLOCK in Patched(f, original, [w]).blocks;
  }
}
