/**
 What the files in memory hold, of stored files and of those deleted on close alike, told byte by byte from the
 calls that were made.
*/
module MemoryFiles {
  import opened Blocks
  import opened Storage
  import opened FileStates

  /** A write leaves every byte that it does not reach, fills a gap with zeros, and concerns no other file. */
  lemma WriteInMemory(s: State, n: string, offset: nat, data: Bytes)
    ensures var before, after := Content(s.mem, n), Content(Next(s, WriteAt(n, offset, data)).mem, n);
      && |after| == (if |before| < offset + |data| then offset + |data| else |before|)
      && (forall i :: offset <= i < offset + |data| ==> after[i] == data[i - offset])
      && (forall i :: 0 <= i < |before| && !(offset <= i < offset + |data|) ==> after[i] == before[i])
      && (forall i :: |before| <= i < offset && i < |after| ==> after[i] == 0)
    ensures n in Next(s, WriteAt(n, offset, data)).mem <==> n in s.mem || offset + |data| > 0
    ensures forall k :: k != n ==> SameInMemory(s, Next(s, WriteAt(n, offset, data)), k)
  {
    assert Next(s, WriteAt(n, offset, data)).mem == Written(s.mem, n, Write(offset, data));
  }

  /** A truncation keeps what is before the new end, and fills with zeros. */
  lemma TruncateInMemory(s: State, n: string, length: nat)
    ensures var before, after := Content(s.mem, n), Content(Next(s, Truncate(n, length)).mem, n);
      && n in Next(s, Truncate(n, length)).mem && |after| == length
      && forall i :: 0 <= i < length ==> after[i] == if i < |before| then before[i] else 0
    ensures forall k :: k != n ==> SameInMemory(s, Next(s, Truncate(n, length)), k)
  {
    assert Next(s, Truncate(n, length)).mem == s.mem[n := ResizedBytes(Content(s.mem, n), length)];
  }

  /** The file is the same in memory, or in neither. */
  ghost predicate SameInMemory(s: State, t: State, n: string) {
    (n in s.mem <==> n in t.mem) && (n in s.mem ==> s.mem[n] == t.mem[n])
  }

  /** Opening makes an unknown file known and empty, removing makes it unknown, and transactions concern no file. */
  lemma OtherInMemory(s: State, step: Step, n: string)
    requires !step.WriteAt? && !step.Truncate?
    ensures var t := Next(s, step);
      if step.Remove? && step.name == n then n !in t.mem
      else if step.Open? && step.name == n && step.create && n !in s.mem then n in t.mem && t.mem[n] == []
      else SameInMemory(s, t, n)
  {}

  // ----- Over a run, from its last call back -----

  /** Whether the file is known after a step, by whether it was before. */
  predicate KnownThen(step: Step, n: string, before: bool) {
    match step
    case Open(k, create, _) => before || (k == n && create)
    case Remove(k) => before && k != n
    case WriteAt(k, offset, data) => before || (k == n && offset + |data| > 0)
    case Truncate(k, _) => before || k == n
    case _ => before
  }

  /** How long it is then. */
  function LengthThen(step: Step, n: string, before: nat): nat {
    match step
    case Remove(k) => if k == n then 0 else before
    case WriteAt(k, offset, data) => if k == n && before < offset + |data| then offset + |data| else before
    case Truncate(k, length) => if k == n then length else before
    case _ => before
  }

  /** What byte i of it is then. */
  function ByteThen(step: Step, n: string, i: nat, before: Byte): Byte {
    match step
    case Remove(k) => if k == n then 0 else before
    case WriteAt(k, offset, data) => if k == n && offset <= i < offset + |data| then data[i - offset] else before
    case Truncate(k, length) => if k == n && i >= length then 0 else before
    case _ => before
  }

  predicate Known(mem: Files, steps: seq<Step>, n: string) {
    if steps == [] then n in mem else KnownThen(steps[|steps| - 1], n, Known(mem, steps[..|steps| - 1], n))
  }

  function LengthOf(mem: Files, steps: seq<Step>, n: string): nat {
    if steps == [] then |Content(mem, n)|
    else LengthThen(steps[|steps| - 1], n, LengthOf(mem, steps[..|steps| - 1], n))
  }

  function ByteOf(mem: Files, steps: seq<Step>, n: string, i: nat): Byte {
    if steps == [] then ByteAt(Content(mem, n), i)
    else ByteThen(steps[|steps| - 1], n, i, ByteOf(mem, steps[..|steps| - 1], n, i))
  }

  lemma StepInMemory(s: State, step: Step, n: string, i: nat)
    ensures var t := Next(s, step);
      && (n in t.mem <==> KnownThen(step, n, n in s.mem))
      && |Content(t.mem, n)| == LengthThen(step, n, |Content(s.mem, n)|)
      && ByteAt(Content(t.mem, n), i) == ByteThen(step, n, i, ByteAt(Content(s.mem, n), i))
  {
    if step.WriteAt? {
      WriteInMemory(s, step.name, step.offset, step.data);
      assert step.name != n ==> SameInMemory(s, Next(s, step), n);
    } else if step.Truncate? {
      TruncateInMemory(s, step.name, step.length);
      assert step.name != n ==> SameInMemory(s, Next(s, step), n);
    } else {
      OtherInMemory(s, step, n);
    }
  }

  /**
   Over every run, safe or not, with transactions completing or failing at any time, every file in memory holds
   just what the calls wrote into it: at each byte the last write that reaches it, unless the file was cut before
   that byte or deleted since.
  */
  lemma {:induction false} MemoryHoldsWhatWasWritten(s: State, steps: seq<Step>, n: string, i: nat)
    ensures n in After(s, steps).mem <==> Known(s.mem, steps, n)
    ensures |Content(After(s, steps).mem, n)| == LengthOf(s.mem, steps, n)
    ensures ByteAt(Content(After(s, steps).mem, n), i) == ByteOf(s.mem, steps, n, i)
  {
    if steps == [] {
    } else {
      var rest, last := steps[..|steps| - 1], steps[|steps| - 1];
      MemoryHoldsWhatWasWritten(s, rest, n, i);
      StepInMemory(After(s, rest), last, n, i);
    }
  }
}
