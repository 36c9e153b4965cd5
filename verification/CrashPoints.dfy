/** What a worker that stops at any time leaves on the store, if no transaction failed before. */
module CrashPoints {
  import opened Options
  import opened Blocks
  import opened Storage
  import opened PendingQueue
  import opened FileStates
  import opened FileRuns

  /** The file is on e as some first part of the operations made leaves it. */
  ghost predicate Passed(e: Disk, made: seq<Op>, d: Disk, n: string) {
    exists k :: 0 <= k <= |made| && SameFile(e, Run(made[..k], d), n)
  }

  /** So it is before and after each operation of the queue. */
  ghost predicate AllPassed(q: seq<Op>, base: Disk, made: seq<Op>, d: Disk, n: string) {
    Passed(Run(q, base), made, d, n) && (q != [] ==> AllPassed(q[..|q| - 1], base, made, d, n))
  }

  lemma PassedAs(e: Disk, e': Disk, made: seq<Op>, d: Disk, n: string)
    requires Passed(e, made, d, n) && SameFile(e, e', n)
    ensures Passed(e', made, d, n)
  {
    var k :| 0 <= k <= |made| && SameFile(e, Run(made[..k], d), n);
    assert SameFile(e', Run(made[..k], d), n);
  }

  lemma PassedNow(e: Disk, made: seq<Op>, d: Disk, n: string)
    requires e == Run(made, d)
    ensures Passed(e, made, d, n)
  {
    assert made[..|made|] == made;
  }

  lemma PassedMore(e: Disk, made: seq<Op>, more: seq<Op>, d: Disk, n: string)
    requires Passed(e, made, d, n)
    ensures Passed(e, made + more, d, n)
  {
    var k :| 0 <= k <= |made| && SameFile(e, Run(made[..k], d), n);
    assert (made + more)[..k] == made[..k];
  }

  lemma {:induction false} AllPassedMore(q: seq<Op>, base: Disk, made: seq<Op>, more: seq<Op>, d: Disk, n: string)
    requires AllPassed(q, base, made, d, n)
    ensures AllPassed(q, base, made + more, d, n)
  {
    PassedMore(Run(q, base), made, more, d, n);
    if q == [] {
    } else {
      AllPassedMore(q[..|q| - 1], base, made, more, d, n);
    }
  }

  lemma PassedSnoc(q: seq<Op>, op: Op, base: Disk, made: seq<Op>, d: Disk, n: string)
    ensures AllPassed(q + [op], base, made, d, n)
       <==> AllPassed(q, base, made, d, n) && Passed(Run(q + [op], base), made, d, n)
  {
    assert (q + [op])[..|q|] == q;
  }

  lemma {:induction false} PassedCons(q: seq<Op>, base: Disk, made: seq<Op>, d: Disk, n: string)
    requires q != [] && AllPassed(q, base, made, d, n)
    ensures AllPassed(q[1..], Perform(q[0], base), made, d, n)
  {
    RunCons(q, base);
    if |q| == 1 {
      assert q[1..] == [];
    } else {
      var rest := q[..|q| - 1];
      PassedCons(rest, base, made, d, n);
      assert rest[1..] == q[1..][..|q| - 2];
    }
  }

  lemma {:induction false} PassedBefore(q: seq<Op>, base: Disk, made: seq<Op>, d: Disk, n: string)
    requires AllPassed(q, base, made, d, n)
    ensures Passed(base, made, d, n)
  {
    if q == [] {
    } else {
      PassedBefore(q[..|q| - 1], base, made, d, n);
    }
  }

  lemma {:induction false} PurgePassed(q: seq<Op>, name: string, base: Disk, made: seq<Op>, d: Disk, n: string)
    requires AllPassed(q, base, made, d, n)
    ensures AllPassed(Purge(q, name), base, made, d, n)
  {
    if q == [] {
    } else {
      var rest, last := q[..|q| - 1], q[|q| - 1];
      PurgePassed(rest, name, base, made, d, n);
      if last.name != name && !last.Resize? {
        var purged := Purge(rest, name);
        PurgeMeaning(q, name, base);
        SameByFile(Run(Purge(q, name), base), Run(q, base), name);
        RunSnoc(purged, last, base);
        if n == name {
          WithoutOther(last, Run(purged, base), name);
          PassedAs(Run(purged, base), Run(purged + [last], base), made, d, n);
        } else {
          assert SameFile(Run(Purge(q, name), base), Run(q, base), n);
          PassedAs(Run(q, base), Run(purged + [last], base), made, d, n);
        }
        PassedSnoc(purged, last, base, made, d, n);
      }
    }
  }

  lemma {:induction false} MergePassed(q: seq<Op>, name: string, w: Write, base: Disk, made: seq<Op>, d: Disk,
                                       n: string)
    requires CanMerge(q, name) && AllPassed(q, base, made, d, n)
    requires n == name ==> Passed(Run(MergeWrite(q, name, w), base), made, d, n)
    ensures AllPassed(MergeWrite(q, name, w), base, made, d, n)
  {
    var rest, last := q[..|q| - 1], q[|q| - 1];
    var merged := MergeWrite(q, name, w);
    if n != name {
      MergeElsewhere(q, name, w, base);
      SameByFile(Run(merged, base), Run(q, base), name);
      assert SameFile(Run(merged, base), Run(q, base), n);
      PassedAs(Run(q, base), Run(merged, base), made, d, n);
    }
    if last.name == name {
      PassedSnoc(rest, Patch(name, last.original, last.writes + [w]), base, made, d, n);
    } else {
      var before := MergeWrite(rest, name, w);
      RunSnoc(before, last, base);
      if n == name {
        WithoutOther(last, Run(before, base), name);
        PassedAs(Run(merged, base), Run(before, base), made, d, n);
      }
      MergePassed(rest, name, w, base, made, d, n);
      PassedSnoc(before, last, base, made, d, n);
    }
  }

  /** The stored file, and what each operation still to be done makes of it, is as some operations made left it. */
  ghost predicate OnTheWay(s: State, made: seq<Op>, d: Disk, n: string) {
    Passed(s.disk, made, d, n) && AllPassed(s.queue, Base(s), made, d, n)
  }

  lemma WayKick(s: State, made: seq<Op>, d: Disk, n: string)
    requires OnTheWay(s, made, d, n)
    ensures OnTheWay(Kick(s), made, d, n)
  {
    if s.inFlight.None? && s.queue != [] { PassedCons(s.queue, s.disk, made, d, n); }
  }

  lemma WayEnqueue(s: State, queue: seq<Op>, entered: bool, made: seq<Op>, d: Disk, n: string)
    requires Passed(s.disk, made, d, n) && AllPassed(queue, Base(s), made, d, n)
    ensures OnTheWay(Enqueue(s, queue, entered), made, d, n)
  {
    WayKick(s.(queue := queue), made, d, n);
  }

  lemma WayAppend(s: State, mem: Files, op: Op, made: seq<Op>, d: Disk, n: string)
    requires OnTheWay(s, made, d, n) && Run(s.queue + [op], Base(s)) == Run(made, d)
    ensures OnTheWay(Enqueue(s.(mem := mem), s.queue + [op], true), made, d, n)
  {
    PassedNow(Run(s.queue + [op], Base(s)), made, d, n);
    PassedSnoc(s.queue, op, Base(s), made, d, n);
    WayEnqueue(s.(mem := mem), s.queue + [op], true, made, d, n);
  }

  lemma WayRemove(s: State, name: string, made: seq<Op>, d: Disk, n: string)
    requires Traced(s) && name !in s.memoryOnly
    requires OnTheWay(s, made, d, n) && Perform(Delete(name), Pending(s)) == Run(made, d)
    ensures OnTheWay(Next(s, Remove(name)), made, d, n)
  {
    var q := InsertDelete(s.queue, name);
    PurgePassed(s.queue, name, Base(s), made, d, n);
    InsertDeleteMeaning(s.queue, name, Base(s));
    RunSnoc(s.queue, Delete(name), Base(s));
    PassedNow(Run(q, Base(s)), made, d, n);
    PassedSnoc(Purge(s.queue, name), Delete(name), Base(s), made, d, n);
    WayEnqueue(s.(mem := s.mem - {name}), q, !Settled(s.queue, name), made, d, n);
  }

  lemma WayWrite(s: State, name: string, w: Write, made: seq<Op>, d: Disk, n: string)
    requires Traced(s) && name !in s.memoryOnly
    requires OnTheWay(s, made, d, n) && Perform(Patch(name, Content(s.mem, name), [w]), Pending(s)) == Run(made, d)
    ensures OnTheWay(Next(s, WriteAt(name, w.offset, w.data)), made, d, n)
  {
    var original := Content(s.mem, name);
    var q := InsertPatch(s.queue, name, original, w);
    InsertPatchMeaning(s.queue, name, original, w, Base(s));
    RunSnoc(s.queue, Patch(name, original, [w]), Base(s));
    PassedNow(Run(q, Base(s)), made, d, n);
    if CanMerge(s.queue, name) {
      MergePassed(s.queue, name, w, Base(s), made, d, n);
    } else {
      PassedSnoc(s.queue, Patch(name, original, [w]), Base(s), made, d, n);
    }
    WayEnqueue(s.(mem := Written(s.mem, name, w)), q, !CanMerge(s.queue, name), made, d, n);
  }

  lemma WayStep(s: State, step: Step, made: seq<Op>, d: Disk, n: string)
    requires Traced(s) && !step.Fail?
    requires OnTheWay(s, made, d, n) && Run(Made(s, step), Pending(s)) == Run(made, d)
    ensures OnTheWay(Next(s, step), made, d, n)
  {
    if Made(s, step) != [] {
      MadeEffect(s, step);
      RunSnoc(s.queue, Made(s, step)[0], Base(s));
    }
    match step
    case Open(x, create, deleteOnClose) =>
      if Made(s, step) != [] { WayAppend(s, s.mem[x := []], Create(x), made, d, n); }
    case Remove(x) => if x !in s.memoryOnly { WayRemove(s, x, made, d, n); }
    case WriteAt(x, offset, data) => if x !in s.memoryOnly { WayWrite(s, x, Write(offset, data), made, d, n); }
    case Truncate(x, length) =>
      if x !in s.memoryOnly {
        WayAppend(s, s.mem[x := ResizedBytes(Content(s.mem, x), length)], Resize(x, length), made, d, n);
      }
    case Complete =>
      if s.inFlight.Some? {
        PassedBefore(s.queue, Base(s), made, d, n);
        WayKick(s.(inFlight := None, disk := Base(s)), made, d, n);
      }
  }

  /**
   Over every run without failures, safe or not: at every point, each stored file by itself is as some first part
   of the operations made so far leaves it, whatever was merged, dropped or cancelled.
  */
  lemma {:induction false} StoredFilesWereMade(d: Disk, steps: seq<Step>, n: string)
    requires Each(Opened(d), steps, NoFailure)
    ensures OnTheWay(After(Opened(d), steps), AllMade(Opened(d), steps), d, n)
    ensures Passed(After(Opened(d), steps).disk, AllMade(Opened(d), steps), d, n)
  {
    if steps == [] {
      PassedNow(d, [], d, n);
    } else {
      var rest, last := steps[..|steps| - 1], steps[|steps| - 1];
      var s, made := After(Opened(d), rest), AllMade(Opened(d), rest);
      StoredFilesWereMade(d, rest, n);
      WithoutFailures(d, rest);
      PassedMore(s.disk, made, Made(s, last), d, n);
      AllPassedMore(s.queue, Base(s), made, Made(s, last), d, n);
      RunConcat(made, Made(s, last), d);
      WayStep(s, last, made + Made(s, last), d, n);
    }
  }

  /**
   Not so the store as a whole: of three writes, to a, to b and to a again, the third joins the first, and a worker
   that stops after that patch leaves a store that no first part of the three writes leaves.
  */
  lemma WritesOvertake(a: string, b: string, x: Byte)
    requires a != b
    ensures var d: Disk, w := map[a := EMPTY, b := EMPTY], Write(1, [x]);
      var q := [Patch(a, [], [Write(0, [x])]), Patch(b, [], [Write(0, [x])])];
      var rewritten, made := InsertPatch(q, a, [x], w), q + [Patch(a, [x], [w])];
      && Run(rewritten, d) == Run(made, d)
      && forall k :: 0 <= k <= |made| ==> Run(rewritten[..1], d) != Run(made[..k], d)
  {
    var d: Disk := map[a := EMPTY, b := EMPTY];
    var made := [Patch(a, [], [Write(0, [x])]), Patch(b, [], [Write(0, [x])])] + [Patch(a, [x], [Write(1, [x])])];
    TwoWrites(x);
    ThirdJoins(a, b, x);
    ThreeInOrder(a, b, x, d);
    assert d[a].length == 0;
  }

  lemma TwoWrites(x: Byte)
    ensures Overlaid([], [Write(0, [x])]) == [x]
    ensures |Overlaid([x], [Write(1, [x])])| == 2 == |Overlaid([], [Write(0, [x]), Write(1, [x])])|
  {
    var v, w := Write(0, [x]), Write(1, [x]);
    assert [] + [v] == [v] && [] + [w] == [w] && [v] + [w] == [v, w];
    Snoc([], [], v);
    Snoc([x], [], w);
    Snoc([], [v], w);
    assert Overlay([], v) == [x];
  }

  /** After the first operation of the rewritten queue a has both its bytes, and b none. */
  lemma ThirdJoins(a: string, b: string, x: Byte)
    requires a != b
    ensures var d: Disk, w := map[a := EMPTY, b := EMPTY], Write(1, [x]);
      var q := [Patch(a, [], [Write(0, [x])]), Patch(b, [], [Write(0, [x])])];
      var rewritten := InsertPatch(q, a, [x], w);
      && Run(rewritten, d) == Run(q + [Patch(a, [x], [w])], d)
      && a in Run(rewritten[..1], d) && Run(rewritten[..1], d)[a].length == 2
      && b in Run(rewritten[..1], d) && Run(rewritten[..1], d)[b].length == 0
  {
    var d: Disk, v, w := map[a := EMPTY, b := EMPTY], Write(0, [x]), Write(1, [x]);
    var first, second, merged := Patch(a, [], [v]), Patch(b, [], [v]), Patch(a, [], [v, w]);
    var q := [first, second];
    TwoWrites(x);
    assert q == [first] + [second] && q[..1] == [first] && [first][..0] == [] && [v] + [w] == [v, w];
    assert CanMerge([first], a) && MergeTarget([first], a) == first && CanMerge(q, a) && MergeTarget(q, a) == first;
    InsertPatchMeaning(q, a, [x], w, d);
    assert MergeWrite([first], a, w) == [merged];
    assert InsertPatch(q, a, [x], w)[..1] == [] + [merged];
    RunSnoc([], merged, d);
  }

  /** The three writes as they were made: b has its byte from the second one on. */
  lemma ThreeInOrder(a: string, b: string, x: Byte, d: Disk)
    requires a != b && d == map[a := EMPTY, b := EMPTY]
    ensures var made := [Patch(a, [], [Write(0, [x])]), Patch(b, [], [Write(0, [x])])]
                        + [Patch(a, [x], [Write(1, [x])])];
      && Run(made[..0], d) == d
      && a in Run(made[..1], d) && Run(made[..1], d)[a].length == 1
      && b in Run(made[..2], d) && Run(made[..2], d)[b].length == 1
      && b in Run(made[..3], d) && Run(made[..3], d)[b].length == 1
  {
    var v, w := Write(0, [x]), Write(1, [x]);
    var first, second, third := Patch(a, [], [v]), Patch(b, [], [v]), Patch(a, [x], [w]);
    var made := [first, second] + [third];
    TwoWrites(x);
    assert made[..0] == [] && made[..1] == [] + [first] && made[..2] == made[..1] + [second];
    assert made[..3] == made[..2] + [third];
    RunSnoc([], first, d);
    RunSnoc(made[..1], second, d);
    RunSnoc(made[..2], third, d);
  }
}
