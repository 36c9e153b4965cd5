/**
 A clean-up by the runner while an owner takes over, effect by effect in any order: the runner's mutex is not
 taken by the owner. A dead owner's record and proxy are there at the start, and nobody else sets the proxy.
*/
module Overlap {
  import opened Options
  import opened Recovery

  datatype Who = TheRunner | TheOwner

  /** How far a process has got: both clean up first, and the owner goes on to take over. */
  datatype Phase =
    | Idle | Read(record: Record) | Restoring(record: Record) | Deleting | Disarming
    | Clear | Captured(baseline: ProxyState) | Recorded(baseline: ProxyState) | Ready(baseline: ProxyState) | Done

  datatype State = State(machine: Machine, runner: Phase, owner: Phase)

  /** One effect, with whether it works; what a process is not up to leaves everything as it is. */
  datatype Effect =
    | Reads(who: Who) | Judges(who: Who, acts: bool) | Restores(who: Who, lands: bool, reports: bool)
    | Deletes(who: Who, works: bool) | Disarms(who: Who)
    | Captures | Writes(whole: bool) | Arms(works: bool) | Sets(lands: bool) | Stops(who: Who)

  function PhaseOf(s: State, who: Who): Phase {
    if who.TheRunner? then s.runner else s.owner
  }

  function Move(s: State, who: Who, p: Phase): State {
    if who.TheRunner? then s.(runner := p) else s.(owner := p)
  }

  /** A runner may be called again; the owner gives up. */
  function End(who: Who): Phase {
    if who.TheRunner? then Idle else Done
  }

  function MarkedKey(o: Owner, baseline: ProxyState): Key {
    Filled(map[Armed := Dword(0)], RecordOf(o, baseline))[Armed := Dword(1)]
  }

  /** The effects of cleaning up, RecoverZeonSystemProxy and recoverOwnedSystemProxy alike. */
  function CleanNext(s: State, e: Effect): State {
    match e
    case Reads(who) =>
      if !PhaseOf(s, who).Idle? then s
      else
        var r := ReadRecord(s.machine.key);
        if r.Found? then Move(s, who, Read(r.record))
        else if r.NoRecord? && who.TheOwner? then Move(s, who, Clear)
        else Move(s, who, End(who))
    case Judges(who, acts) =>
      var p := PhaseOf(s, who);
      if !p.Read? then s
      else if !acts then Move(s, who, End(who))
      else Move(s, who, if s.machine.proxy == p.record.expected then Restoring(p.record) else Deleting)
    case Restores(who, lands, reports) =>
      var p := PhaseOf(s, who);
      if !p.Restoring? then s
      else
        var m := if lands then s.machine.(proxy := p.record.baseline) else s.machine;
        Move(s.(machine := m), who, if lands && reports then Deleting else End(who))
    case Deletes(who, works) =>
      if !PhaseOf(s, who).Deleting? then s
      else if works then Move(s.(machine := s.machine.(key := None)), who, Disarming)
      else Move(s, who, End(who))
    case Disarms(who) =>
      if !PhaseOf(s, who).Disarming? then s
      else Move(s.(machine := s.machine.(runOnce := None)), who, if who.TheOwner? then Clear else Idle)
    case _ => s
  }

  /** The effects of taking over, the rest of Enable. */
  function TakeNext(s: State, o: Owner, e: Effect): State {
    match e
    case Captures => if s.owner.Clear? then s.(owner := Captured(s.machine.proxy)) else s
    case Writes(whole) =>
      if !s.owner.Captured? then s
      else if whole then
        State(s.machine.(key := Some(MarkedKey(o, s.owner.baseline))), s.runner, Recorded(s.owner.baseline))
      else State(s.machine.(key := None), s.runner, Done)
    case Arms(works) =>
      if !s.owner.Recorded? then s
      else if works then State(s.machine.(runOnce := Some(Command(o.path))), s.runner, Ready(s.owner.baseline))
      else State(s.machine.(key := None), s.runner, Done)
    case Sets(lands) =>
      if !s.owner.Ready? then s
      else if lands then
        State(s.machine.(proxy := ExpectedState(s.owner.baseline, o.address)), s.runner, Done)
      else s.(owner := Done)
    case Stops(who) => Move(s, who, End(who))
    case _ => s
  }

  function Next(s: State, o: Owner, e: Effect): State {
    if e.Captures? || e.Writes? || e.Arms? || e.Sets? || e.Stops? then TakeNext(s, o, e) else CleanNext(s, e)
  }

  function After(s: State, o: Owner, run: seq<Effect>): State {
    if run == [] then s else Next(After(s, o, run[..|run| - 1]), o, run[|run| - 1])
  }

  /** The effect takes the record away. */
  predicate Removes(s: State, e: Effect) {
    (e.Deletes? && e.works && PhaseOf(s, e.who).Deleting?) || (e.Arms? && !e.works && s.owner.Recorded?)
  }

  /** The effect writes the owner's record. */
  predicate Marks(s: State, e: Effect) {
    e.Writes? && e.whole && s.owner.Captured?
  }

  /** The last effect on the record since the owner wrote its own took it away. */
  predicate Removed(s: State, o: Owner, run: seq<Effect>) {
    run != [] &&
    var before, last := After(s, o, run[..|run| - 1]), run[|run| - 1];
    Removes(before, last) || (!Marks(before, last) && Removed(s, o, run[..|run| - 1]))
  }

  /** The effect is the owner's setting of the proxy. */
  predicate TakesEffect(s: State, e: Effect) {
    e.Sets? && e.lands && s.owner.Ready?
  }

  /** The last effect on the proxy is the owner's setting of it. */
  predicate InForce(s: State, o: Owner, run: seq<Effect>) {
    run != [] &&
    var before, last := After(s, o, run[..|run| - 1]), run[|run| - 1];
    TakesEffect(before, last)
    || (!(last.Restores? && last.lands && PhaseOf(before, last.who).Restoring?) && InForce(s, o, run[..|run| - 1]))
  }

  /** The owner has written its record. */
  predicate Written(s: State, o: Owner, run: seq<Effect>) {
    run != [] &&
    (Written(s, o, run[..|run| - 1]) || Marks(After(s, o, run[..|run| - 1]), run[|run| - 1]))
  }

  /** A dead owner's record and proxy, with both processes still to begin. */
  ghost predicate Left(s: State, r: Record) {
    && ReadRecord(s.machine.key) == Found(r) && s.machine.proxy == r.expected
    && s.runner == Idle && s.owner == Idle
  }

  /** What a process that cleans up knows, while no owner has written its record. */
  predicate Before(p: Phase, m: Machine, r: Record) {
    && (p.Read? || p.Restoring? ==> p.record == r)
    && (p.Deleting? ==> m.proxy == r.baseline)
    && (p.Disarming? ==> m.proxy == r.baseline && ReadRecord(m.key).NoRecord?)
  }

  /** The machine and the processes, by what has happened to the record and the proxy. */
  ghost predicate Kept(s: State, r: Record, o: Owner, written: bool, removed: bool, inForce: bool) {
    var mine, now := RecordOf(o, r.baseline), ReadRecord(s.machine.key);
    && (s.runner.Idle? || s.runner.Read? || s.runner.Restoring? || s.runner.Deleting? || s.runner.Disarming?)
    && (inForce ==> written)
    && if !written then
         && (now == Found(r) || now.NoRecord?)
         && (s.machine.proxy == r.baseline || (now.Found? && s.machine.proxy == r.expected))
         && Before(s.runner, s.machine, r) && Before(s.owner, s.machine, r)
         && (s.owner.Clear? || s.owner.Captured? ==> now.NoRecord?)
         && (s.owner.Captured? ==> s.owner.baseline == r.baseline)
         && !s.owner.Recorded? && !s.owner.Ready?
       else
         && (if removed then now.NoRecord? else now == Found(mine))
         && s.machine.proxy == (if inForce then mine.expected else r.baseline)
         && (s.runner.Read? || s.runner.Restoring? ==> s.runner.record == r || s.runner.record == mine)
         && (s.owner == Done || (!inForce && (s.owner == Recorded(r.baseline) || s.owner == Ready(r.baseline))))
  }

  lemma KeptByCleaning(s: State, r: Record, o: Owner, e: Effect, written: bool, removed: bool, inForce: bool)
    requires Kept(s, r, o, written, removed, inForce)
    requires e.Reads? || e.Judges? || e.Restores? || e.Deletes? || e.Disarms?
    ensures var restored := e.Restores? && e.lands && PhaseOf(s, e.who).Restoring?;
      Kept(Next(s, o, e), r, o, written, removed || Removes(s, e), inForce && !restored)
  {}

  lemma KeptByTaking(s: State, r: Record, o: Owner, e: Effect, written: bool, removed: bool, inForce: bool)
    requires Kept(s, r, o, written, removed, inForce) && o.generation != 0
    requires e.Captures? || e.Writes? || e.Arms? || e.Sets? || e.Stops?
    ensures Kept(Next(s, o, e), r, o, written || Marks(s, e), Removes(s, e) || (!Marks(s, e) && removed),
                 TakesEffect(s, e) || inForce)
  {
    if Marks(s, e) { WrittenIsRead(map[Armed := Dword(0)], RecordOf(o, r.baseline)); }
  }

  lemma {:induction false} AlwaysKept(s: State, r: Record, o: Owner, run: seq<Effect>)
    requires Left(s, r) && o.generation != 0
    ensures Kept(After(s, o, run), r, o, Written(s, o, run), Removed(s, o, run), InForce(s, o, run))
  {
    if run == [] {
    } else {
      var rest, last := run[..|run| - 1], run[|run| - 1];
      var t := After(s, o, rest);
      AlwaysKept(s, r, o, rest);
      if last.Captures? || last.Writes? || last.Arms? || last.Sets? || last.Stops? {
        KeptByTaking(t, r, o, last, Written(s, o, rest), Removed(s, o, rest), InForce(s, o, rest));
      } else {
        KeptByCleaning(t, r, o, last, Written(s, o, rest), Removed(s, o, rest), InForce(s, o, rest));
      }
    }
  }

  /** Once its record is written, only the runner takes it from an owner whose proxy is in force. */
  lemma {:induction false} OnlyTheRunnerRemoves(s: State, r: Record, o: Owner, run: seq<Effect>)
    requires Left(s, r) && o.generation != 0 && Deletes(TheRunner, true) !in run
    ensures Written(s, o, run) && Removed(s, o, run) ==> After(s, o, run).owner == Done && !InForce(s, o, run)
  {
    if run == [] {
    } else {
      var rest := run[..|run| - 1];
      OnlyTheRunnerRemoves(s, r, o, rest);
      AlwaysKept(s, r, o, rest);
    }
  }

  /**
   However the effects of any number of clean-ups and of one takeover come in between each other, fail or stop: ZEON's
   proxy is left without a record that knows the user's state exactly when the owner's setting was the last effect on
   the proxy, and a deletion the last one on the record; and it is never if no deletion by the runner takes effect.
  */
  lemma OverlapExactly(s: State, r: Record, o: Owner, run: seq<Effect>)
    requires Left(s, r) && o.generation != 0
    ensures Accounted(World(After(s, o, run).machine, r.baseline))
       <==> !(InForce(s, o, run) && Removed(s, o, run)) || ExpectedState(r.baseline, o.address) == r.baseline
    ensures Deletes(TheRunner, true) !in run ==> Accounted(World(After(s, o, run).machine, r.baseline))
  {
    AlwaysKept(s, r, o, run);
    if Deletes(TheRunner, true) !in run { OnlyTheRunnerRemoves(s, r, o, run); }
  }

  lemma {:induction false} AfterConcat(s: State, o: Owner, run: seq<Effect>, more: seq<Effect>)
    ensures After(s, o, run + more) == After(After(s, o, run), o, more)
  {
    if more == [] {
      assert run + more == run;
    } else {
      assert (run + more)[..|run + more| - 1] == run + more[..|more| - 1];
      AfterConcat(s, o, run, more[..|more| - 1]);
    }
  }

  lemma AfterTwo(s: State, o: Owner, first: Effect, second: Effect)
    ensures After(s, o, [first, second]) == Next(Next(s, o, first), o, second)
  {
    assert [first][..0] == [] && After(s, o, [first]) == Next(s, o, first);
    assert [first, second][..1] == [first];
  }

  /** An owner that finds the proxy restored but the record still there cleans it up. */
  lemma OwnerCleans(s: State, r: Record, o: Owner)
    requires ReadRecord(s.machine.key) == Found(r) && s.machine.proxy != r.expected && s.owner == Idle
    ensures After(After(s, o, [Reads(TheOwner), Judges(TheOwner, true)]), o,
                  [Deletes(TheOwner, true), Disarms(TheOwner)])
         == State(s.machine.(key := None, runOnce := None), s.runner, Clear)
  {
    AfterTwo(s, o, Reads(TheOwner), Judges(TheOwner, true));
    AfterTwo(s.(owner := Deleting), o, Deletes(TheOwner, true), Disarms(TheOwner));
  }

  /** It goes on to take over. */
  lemma OwnerTakesOver(s: State, o: Owner)
    requires s.owner == Clear
    ensures var t := After(After(s, o, [Captures, Writes(true)]), o, [Arms(true), Sets(true)]);
      t.machine.proxy == ExpectedState(s.machine.proxy, o.address) && t.runner == s.runner && t.owner == Done
  {
    var b := s.machine.proxy;
    AfterTwo(s, o, Captures, Writes(true));
    AfterTwo(State(s.machine.(key := Some(MarkedKey(o, b))), s.runner, Recorded(b)), o, Arms(true), Sets(true));
  }

  /** All of this between the runner's restoring and its deleting. */
  function Between(): seq<Effect> {
    [Reads(TheOwner), Judges(TheOwner, true)] + [Deletes(TheOwner, true), Disarms(TheOwner)]
    + [Captures, Writes(true)] + [Arms(true), Sets(true)]
  }

  /** The loss: the runner deletes what it takes for the dead owner's record, and it is the new owner's. */
  lemma NewRecordIsDeleted(s: State, r: Record, o: Owner)
    requires Left(s, r) && r.expected != r.baseline && ExpectedState(r.baseline, o.address) != r.baseline
    ensures var restored := After(After(s, o, [Reads(TheRunner), Judges(TheRunner, true)]), o,
                                  [Restores(TheRunner, true, true)]);
      var t := After(After(restored, o, Between()), o, [Deletes(TheRunner, true)]);
      && t.machine.key == None && t.machine.proxy == ExpectedState(r.baseline, o.address)
      && !Accounted(World(t.machine, r.baseline))
  {
    AfterTwo(s, o, Reads(TheRunner), Judges(TheRunner, true));
    AfterOne(s.(runner := Restoring(r)), o, Restores(TheRunner, true, true));
    var restored := State(s.machine.(proxy := r.baseline), Deleting, Idle);
    BetweenTakesOver(restored, r, o);
    AfterOne(After(restored, o, Between()), o, Deletes(TheRunner, true));
  }

  lemma AfterOne(s: State, o: Owner, e: Effect)
    ensures After(s, o, [e]) == Next(s, o, e)
  {
    assert [e][..0] == [];
  }

  lemma BetweenTakesOver(s: State, r: Record, o: Owner)
    requires ReadRecord(s.machine.key) == Found(r) && s.machine.proxy != r.expected && s.owner == Idle
    ensures var t := After(s, o, Between());
      t.machine.proxy == ExpectedState(s.machine.proxy, o.address) && t.runner == s.runner && t.owner == Done
  {
    var first, second := [Reads(TheOwner), Judges(TheOwner, true)], [Deletes(TheOwner, true), Disarms(TheOwner)];
    var third, fourth := [Captures, Writes(true)], [Arms(true), Sets(true)];
    AfterConcat(s, o, first, second);
    AfterConcat(s, o, first + second, third);
    AfterConcat(s, o, first + second + third, fourth);
    OwnerCleans(s, r, o);
    OwnerTakesOver(After(s, o, first + second), o);
  }
}
