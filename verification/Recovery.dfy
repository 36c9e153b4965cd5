/**
 The recovery of the Windows system proxy after a crash: the ownership record in the registry, the
 RunOnce entry and the proxy state, the owner that writes them and the calls that clean up.

 Registry calls, the reading of each single value included, WinINet calls and process queries may fail
 at any point, and a process may stop between any two of its effects. The per-connection proxy set and
 the registry-tree delete are atomic. One call runs at a time here; Overlap is about calls that come in between
 each other.
*/
module Recovery {
  import opened Options
  import Decimal

  datatype ProxyState = ProxyState(flags: nat, server: string, bypass: string, autoConfig: string)

  datatype Value = Dword(n: nat) | Qword(n: nat) | Text(s: string)

  /** The names of the values in the record's key. */
  datatype Part = Flags | ProxyServer | ProxyBypass | AutoConfigURL
  datatype Name =
    | Armed | Schema | OwnerPid | OwnerCreationTime | Generation | MixedPort | ExecutablePath
    | Baseline(part: Part) | Expected(part: Part)

  type Key = map<Name, Value>

  datatype Record = Record(pid: nat, creation: nat, generation: nat, port: nat, path: string,
                           baseline: ProxyState, expected: ProxyState)

  datatype Machine = Machine(
    key: Option<Key>,           // Software\ZEON\SystemProxyRecovery
    runOnce: Option<string>,    // the RunOnce command
    proxy: ProxyState,
    processes: map<nat, nat>)   // live processes with their creation times

  // ----- The decision -----

  /** IsExpectedZeonLoopback */
  predicate ExpectedLoopback(expected: ProxyState, port: nat) {
    && 0 < port <= 65535
    && (expected.flags / 2) % 2 == 1
    && expected.server == "http://127.0.0.1:" + Decimal.Numeral(port)
  }

  datatype Decision = WaitForLiveOwner | RestoreBaseline | PreserveForeignState | RejectInvalidMarker

  function Decide(current: ProxyState, expected: ProxyState, port: nat, ownerRunning: bool, allowOwner: bool)
    : Decision
  {
    if !ExpectedLoopback(expected, port) then RejectInvalidMarker
    else if ownerRunning && !allowOwner then WaitForLiveOwner
    else if current == expected then RestoreBaseline else PreserveForeignState
  }

  // ----- The record -----

  datatype Reading = NoRecord | Unreadable | Found(record: Record)

  function GetDword(k: Key, name: Name): Option<nat> {
    if name in k && k[name].Dword? then Some(k[name].n) else None
  }

  function GetQword(k: Key, name: Name): Option<nat> {
    if name in k && k[name].Qword? then Some(k[name].n) else None
  }

  function GetText(k: Key, name: Name): Option<string> {
    if name in k && k[name].Text? then Some(k[name].s) else None
  }

  /** ReadProxyState */
  function GetState(k: Key, prefix: Part -> Name): Option<ProxyState> {
    var flags, server := GetDword(k, prefix(Flags)), GetText(k, prefix(ProxyServer));
    var bypass, auto := GetText(k, prefix(ProxyBypass)), GetText(k, prefix(AutoConfigURL));
    if flags.Some? && server.Some? && bypass.Some? && auto.Some?
    then Some(ProxyState(flags.value, server.value, bypass.value, auto.value)) else None
  }

  /** ReadOwnershipRecord: only a key whose Armed value is 1 can own the proxy. */
  function ReadRecord(key: Option<Key>): Reading {
    if key.None? then NoRecord
    else
      var k := key.value;
      if GetDword(k, Armed) != Some(1) then NoRecord
      else
        var schema, pid, creation := GetDword(k, Schema), GetDword(k, OwnerPid), GetQword(k, OwnerCreationTime);
        var generation, port, path := GetQword(k, Generation), GetDword(k, MixedPort), GetText(k, ExecutablePath);
        var baseline, expected := GetState(k, part => Baseline(part)), GetState(k, part => Expected(part));
        if schema != Some(1) || pid.None? || creation.None? || generation.None? || generation.value == 0
           || port.None? || path.None? || baseline.None? || expected.None?
        then Unreadable
        else Found(Record(pid.value, creation.value, generation.value, port.value, path.value, baseline.value,
                          expected.value))
  }

  /** The record's key as it looks to a reader who fails to read some of the values. */
  function Seen(key: Option<Key>, unread: set<Name>): Option<Key> {
    if key.None? then None else Some(key.value - unread)
  }

  /** A record seen in part is no other record, and with Armed read an absent record is seen as absent. */
  lemma SeenIsRead(key: Option<Key>, unread: set<Name>)
    ensures var seen := ReadRecord(Seen(key, unread));
      && (seen.Found? ==> seen == ReadRecord(key))
      && (Armed !in unread ==> (seen.NoRecord? <==> ReadRecord(key).NoRecord?))
      && (Armed in unread ==> seen.NoRecord?)
  {}

  lemma NothingUnread(key: Option<Key>)
    ensures Seen(key, {}) == key
  {
    if key.Some? { assert key.value - {} == key.value; }
  }

  // ----- Cleaning up: the Windows runner -----

  /** What the outside does to one call: which calls fail, and where the process stops. */
  datatype Weather = Weather(
    mutex: bool, keyOpens: bool,
    unread: set<Name>,                     // the values that cannot be read
    query: bool,
    accessDenied: bool, timesFail: bool,   // OpenProcess refuses a live process; GetProcessTimes fails
    setLands: bool, setReports: bool,      // the proxy set takes effect; it also reports success
    treeDeletes: bool, valueDeletes: bool, armSucceeds: bool,
    stopBeforeSet: bool, stopAfterSet: bool, stopAfterTree: bool)

  const CALM := Weather(true, true, {}, true, false, false, true, true, true, true, true, false, false, false)

  datatype Outcome =
    | MutexFailed | RecordReadFailed | NoRecordFound | ProxyQueryFailed | OwnerStillRunning | InvalidMarker
    | ForeignStatePreserved | StateCleanupFailed | ProxyRestoreFailed | BaselineRestored | Stopped

  /** IsRecordedOwnerRunning */
  predicate OwnerRunning(r: Record, processes: map<nat, nat>, w: Weather) {
    r.pid in processes && !w.accessDenied && (w.timesFail || processes[r.pid] == r.creation)
  }

  /** DeleteRecoveryState: first the record, then the RunOnce value. */
  function DeleteState(m: Machine, w: Weather, done: Outcome): (Machine, Outcome) {
    if !w.treeDeletes && m.key.Some? then (m, StateCleanupFailed)
    else
      var m' := m.(key := None);
      if w.stopAfterTree then (m', Stopped)
      else if !w.valueDeletes && m.runOnce.Some? then (m', StateCleanupFailed)
      else (m'.(runOnce := None), done)
  }

  /** The command that runs the recovery at the next logon; a path with a quote is refused. */
  predicate CanArm(path: string) {
    path != "" && '"' !in path
  }

  function Command(path: string): string {
    "\"" + path + "\" --recover-system-proxy"
  }

  /** ArmRecoveryRunOnce */
  function Arm(m: Machine, path: string, w: Weather): Machine {
    if CanArm(path) && w.armSucceeds then m.(runOnce := Some(Command(path))) else m
  }

  /** The part of the call that follows the decision. */
  function Act(m: Machine, r: Record, decision: Decision, w: Weather): (Machine, Outcome) {
    match decision
    case WaitForLiveOwner => (m, OwnerStillRunning)
    case RejectInvalidMarker => (m, InvalidMarker)
    case PreserveForeignState => DeleteState(m, w, ForeignStatePreserved)
    case RestoreBaseline =>
      if w.stopBeforeSet then (m, Stopped)
      else
        var m' := if w.setLands then m.(proxy := r.baseline) else m;
        if w.stopAfterSet then (m', Stopped)
        else if !(w.setLands && w.setReports) then (Arm(m', r.path, w), ProxyRestoreFailed)
        else DeleteState(m', w, BaselineRestored)
  }

  /** RecoverZeonSystemProxy, called by process self. */
  function Recover(m: Machine, self: nat, allowOwner: bool, w: Weather): (Machine, Outcome) {
    if !w.mutex then (m, MutexFailed)
    else if !w.keyOpens && m.key.Some? then (m, RecordReadFailed)
    else
      match ReadRecord(Seen(m.key, w.unread))
      case Unreadable => (m, RecordReadFailed)
      case NoRecord => (m, NoRecordFound)
      case Found(r) =>
        if !w.query then (m, ProxyQueryFailed)
        else
          var running := OwnerRunning(r, m.processes, w);
          Act(m, r, Decide(m.proxy, r.expected, r.port, running, allowOwner && r.pid == self), w)
  }

  // ----- Taking over: the owner -----

  datatype Owner = Owner(pid: nat, creation: nat, generation: nat, address: string, port: nat, path: string)

  /** expectedWindowsProxyState */
  function ExpectedState(baseline: ProxyState, address: string): ProxyState {
    baseline.(flags := 3, server := "http://" + address)
  }

  function RecordOf(o: Owner, baseline: ProxyState): Record {
    Record(o.pid, o.creation, o.generation, o.port, o.path, baseline, ExpectedState(baseline, o.address))
  }

  /** The values of a record in the order in which they are written, before Armed is set. */
  function Fields(r: Record): seq<(Name, Value)> {
    [(Schema, Dword(1)), (OwnerPid, Dword(r.pid)), (OwnerCreationTime, Qword(r.creation)),
     (Generation, Qword(r.generation)), (MixedPort, Dword(r.port)), (ExecutablePath, Text(r.path)),
     (Baseline(Flags), Dword(r.baseline.flags)), (Baseline(ProxyServer), Text(r.baseline.server)),
     (Baseline(ProxyBypass), Text(r.baseline.bypass)), (Baseline(AutoConfigURL), Text(r.baseline.autoConfig)),
     (Expected(Flags), Dword(r.expected.flags)), (Expected(ProxyServer), Text(r.expected.server)),
     (Expected(ProxyBypass), Text(r.expected.bypass)), (Expected(AutoConfigURL), Text(r.expected.autoConfig))]
  }

  /** The key after as many writes as there are outcomes, of which those that succeeded took effect. */
  function Put(k: Key, fields: seq<(Name, Value)>, outcomes: seq<bool>): Key
    requires |outcomes| <= |fields|
  {
    if outcomes == [] then k
    else
      var n := |outcomes| - 1;
      var k' := Put(k, fields, outcomes[..n]);
      if outcomes[n] then k'[fields[n].0 := fields[n].1] else k'
  }

  /** How far writing the record gets. Every field is written even when an earlier one failed. */
  datatype Writing =
    | NotStarted(created: bool)        // the key could not be created, or not be invalidated
    | Partly(outcomes: seq<bool>)      // stopped among the fields, or some field failed
    | Unarmed                          // all fields are written, but Armed is not set
    | Complete

  /**
   What the outside does to an Enable: which calls fail, and how far it gets. A process that stops
   does what a failing call does, without cleaning up.
  */
  datatype Start = Start(
    recovery: Weather,        // the recovery of an earlier session that Enable begins with
    query: bool, keyDeletes: bool, writing: Writing, cleanup: bool,
    arms: bool, setLands: bool)

  /** recoverOwnedSystemProxy: as Recover, without looking at the owner or at the marker's form. */
  function RecoverOwned(m: Machine, generation: nat, w: Weather): (Machine, bool) {
    if !w.keyOpens && m.key.Some? then (m, false)
    else
      match ReadRecord(Seen(m.key, w.unread))
      case Unreadable => (m, false)
      case NoRecord => (m, true)
      case Found(r) =>
        if generation != 0 && r.generation != generation then (m, true)
        else if !w.query then (m, false)
        else
          var decision := if m.proxy == r.expected then RestoreBaseline else PreserveForeignState;
          var (m', outcome) := Act(m, r, decision, w.(armSucceeds := false));
          (m', outcome == BaselineRestored || outcome == ForeignStatePreserved)
  }

  /** The rest of Enable, once the proxy was queried: the record is armed before the proxy is changed. */
  function TakeOver(m: Machine, o: Owner, s: Start): Machine {
    var r := RecordOf(o, m.proxy);
    var deleted := s.keyDeletes || m.key.None?;
    var stale := if deleted then map[] else m.key.value;
    var open := stale[Armed := Dword(0)];
    match s.writing
    case NotStarted(created) => m.(key := if deleted && !created then None else Some(stale))
    case Partly(outcomes) =>
      var reached := if |outcomes| <= |Fields(r)| then outcomes else outcomes[..|Fields(r)|];
      m.(key := if s.cleanup then None else Some(Put(open, Fields(r), reached)))
    case Unarmed => m.(key := Some(Filled(open, r)))
    case Complete =>
      var marked := m.(key := Some(Filled(open, r)[Armed := Dword(1)]));
      if !s.arms then (if s.cleanup then marked.(key := None) else marked)
      else
        var armed := marked.(runOnce := Some(Command(o.path)));
        if s.setLands then armed.(proxy := r.expected) else armed
  }

  /** WindowsSystemProxy.Enable */
  function Enable(m: Machine, o: Owner, s: Start): Machine {
    var (m', ok) := RecoverOwned(m, 0, s.recovery);
    if ok && s.query then TakeOver(m', o, s) else m'
  }

  function Successes(n: nat): (s: seq<bool>)
    ensures |s| == n && forall i :: 0 <= i < n ==> s[i]
  {
    if n == 0 then [] else Successes(n - 1) + [true]
  }

  /** The key with every field of the record written. */
  function Filled(k: Key, r: Record): Key {
    Put(k, Fields(r), Successes(|Fields(r)|))
  }

  /** WindowsSystemProxy.Disable */
  function Disable(m: Machine, generation: nat, w: Weather): Machine {
    RecoverOwned(m, generation, w).0
  }

  // ----- What holds over every run -----

  datatype Step =
    | Recovering(self: nat, allowOwner: bool, weather: Weather)
    | Enabling(owner: Owner, start: Start)
    | Disabling(generation: nat, outside: Weather)
    | Foreign(state: ProxyState)
    | Processes(live: map<nat, nat>)

  /** The machine, and the proxy state that the user or another program set last. */
  datatype World = World(machine: Machine, user: ProxyState)

  function Next(w: World, step: Step): World {
    match step
    case Recovering(self, allowOwner, weather) => w.(machine := Recover(w.machine, self, allowOwner, weather).0)
    case Enabling(o, start) => w.(machine := Enable(w.machine, o, start))
    case Disabling(generation, weather) => w.(machine := Disable(w.machine, generation, weather))
    case Foreign(state) => World(w.machine.(proxy := state), state)
    case Processes(live) => w.(machine := w.machine.(processes := live))
  }

  /**
   The proxy is what the user set last, unless an armed record says that it is ZEON's; and whenever
   the proxy is what an armed record expects, that record knows what the user had set.
  */
  ghost predicate Accounted(w: World) {
    var r := ReadRecord(w.machine.key);
    && (w.machine.proxy == w.user || (r.Found? && w.machine.proxy == r.record.expected))
    && (r.Found? && w.machine.proxy == r.record.expected ==> r.record.baseline == w.user)
  }

  /** Foreign programs do not set exactly the state that an armed record expects, unless it is the baseline as well. */
  ghost predicate Distinguishable(w: World, step: Step) {
    step.Foreign? ==>
      var r := ReadRecord(w.machine.key);
      r.Found? && step.state == r.record.expected ==> r.record.baseline == step.state
  }

  /** An owner's generation is never zero. */
  predicate ProperOwner(step: Step) {
    step.Enabling? ==> step.owner.generation != 0
  }

  lemma DeleteKeeps(w: World, weather: Weather, done: Outcome)
    requires Accounted(w) && w.machine.proxy == w.user
    ensures Accounted(w.(machine := DeleteState(w.machine, weather, done).0))
  {}

  lemma ActKeeps(w: World, r: Record, decision: Decision, weather: Weather)
    requires Accounted(w) && ReadRecord(w.machine.key) == Found(r)
    requires decision == RestoreBaseline ==> w.machine.proxy == r.expected
    requires decision == PreserveForeignState ==> w.machine.proxy != r.expected
    ensures Accounted(w.(machine := Act(w.machine, r, decision, weather).0))
  {
    if decision == RestoreBaseline && !weather.stopBeforeSet && weather.setLands {
      var w' := w.(machine := w.machine.(proxy := r.baseline));
      assert Accounted(w');
      DeleteKeeps(w', weather, BaselineRestored);
    }
    if decision == PreserveForeignState { DeleteKeeps(w, weather, ForeignStatePreserved); }
  }

  /** A clean-up that reports success leaves no record. */
  lemma SuccessClears(m: Machine, r: Record, decision: Decision, weather: Weather)
    ensures var (m', outcome) := Act(m, r, decision, weather);
      outcome == BaselineRestored || outcome == ForeignStatePreserved ==> m'.key == None
  {}

  lemma RecoverOwnedKeeps(w: World, generation: nat, weather: Weather)
    requires Accounted(w)
    ensures var (m, ok) := RecoverOwned(w.machine, generation, weather);
      && Accounted(w.(machine := m))
      && (generation == 0 && ok && Armed !in weather.unread ==> !ReadRecord(m.key).Found?)
  {
    SeenIsRead(w.machine.key, weather.unread);
    var r := ReadRecord(Seen(w.machine.key, weather.unread));
    if r.Found? {
      var decision := if w.machine.proxy == r.record.expected then RestoreBaseline else PreserveForeignState;
      ActKeeps(w, r.record, decision, weather.(armSucceeds := false));
      SuccessClears(w.machine, r.record, decision, weather.(armSucceeds := false));
    }
  }

  /** Before Armed is set, a partly written key is not a record. */
  lemma {:induction false} UnarmedWhileWriting(k: Key, r: Record, outcomes: seq<bool>)
    requires |outcomes| <= |Fields(r)| && Armed in k && k[Armed] == Dword(0)
    ensures Armed in Put(k, Fields(r), outcomes) && Put(k, Fields(r), outcomes)[Armed] == Dword(0)
  {
    if outcomes == [] {
    } else {
      UnarmedWhileWriting(k, r, outcomes[..|outcomes| - 1]);
    }
  }

  /** Every field of the record is in the key. */
  ghost predicate Holds(k: Key, r: Record) {
    forall i :: 0 <= i < |Fields(r)| ==> Fields(r)[i].0 in k && k[Fields(r)[i].0] == Fields(r)[i].1
  }

  lemma NumbersRead(k: Key, r: Record)
    requires Holds(k, r)
    ensures GetDword(k, Schema) == Some(1) && GetDword(k, OwnerPid) == Some(r.pid)
    ensures GetQword(k, OwnerCreationTime) == Some(r.creation) && GetQword(k, Generation) == Some(r.generation)
    ensures GetDword(k, MixedPort) == Some(r.port) && GetText(k, ExecutablePath) == Some(r.path)
  {
    var f := Fields(r);
    assert f[0].0 == Schema && f[1].0 == OwnerPid && f[2].0 == OwnerCreationTime && f[3].0 == Generation;
    assert f[4].0 == MixedPort && f[5].0 == ExecutablePath;
  }

  lemma StatesRead(k: Key, r: Record)
    requires Holds(k, r)
    ensures GetState(k, part => Baseline(part)) == Some(r.baseline)
    ensures GetState(k, part => Expected(part)) == Some(r.expected)
  {
    var f := Fields(r);
    assert f[6].0 == Baseline(Flags) && f[7].0 == Baseline(ProxyServer) && f[8].0 == Baseline(ProxyBypass);
    assert f[9].0 == Baseline(AutoConfigURL) && f[10].0 == Expected(Flags) && f[11].0 == Expected(ProxyServer);
    assert f[12].0 == Expected(ProxyBypass) && f[13].0 == Expected(AutoConfigURL);
  }

  /** A completely written and armed record is read back as it was. */
  lemma WrittenIsRead(k: Key, r: Record)
    requires r.generation != 0
    ensures ReadRecord(Some(Filled(k, r)[Armed := Dword(1)])) == Found(r)
  {
    DifferentNames(r);
    forall i | 0 <= i < |Fields(r)|
      ensures Fields(r)[i].0 in Filled(k, r) && Filled(k, r)[Fields(r)[i].0] == Fields(r)[i].1
    {
      FilledValue(k, Fields(r), |Fields(r)|, i);
    }
    var k' := Filled(k, r)[Armed := Dword(1)];
    assert Holds(k', r);
    NumbersRead(k', r);
    StatesRead(k', r);
  }

  /** Writing fields with different names, each one successfully, leaves all of them in the key. */
  lemma {:induction false} FilledValue(k: Key, fields: seq<(Name, Value)>, n: nat, i: nat)
    requires i < n <= |fields|
    requires forall j :: i < j < |fields| ==> fields[j].0 != fields[i].0
    ensures var filled := Put(k, fields, Successes(n)); fields[i].0 in filled && filled[fields[i].0] == fields[i].1
  {
    var before := Put(k, fields, Successes(n - 1));
    assert Successes(n)[..n - 1] == Successes(n - 1) && Successes(n)[n - 1];
    assert Put(k, fields, Successes(n)) == before[fields[n - 1].0 := fields[n - 1].1];
    if i == n - 1 {
    } else {
      FilledValue(k, fields, n - 1, i);
    }
  }

  /** The place of a name among the fields. */
  function Place(n: Name): int {
    match n
    case Armed => -1 case Schema => 0 case OwnerPid => 1 case OwnerCreationTime => 2 case Generation => 3
    case MixedPort => 4 case ExecutablePath => 5
    case Baseline(part) => 6 + PartPlace(part)
    case Expected(part) => 10 + PartPlace(part)
  }

  function PartPlace(p: Part): nat {
    match p case Flags => 0 case ProxyServer => 1 case ProxyBypass => 2 case AutoConfigURL => 3
  }

  lemma DifferentNames(r: Record)
    ensures forall i, j :: 0 <= i < j < |Fields(r)| ==> Fields(r)[i].0 != Fields(r)[j].0
  {
    forall i | 0 <= i < |Fields(r)| ensures Place(Fields(r)[i].0) == i {}
  }

  /** Something of the user's depends on the record: the proxy is ZEON's, and the record knows another state. */
  ghost predicate AtStake(w: World) {
    var r := ReadRecord(w.machine.key);
    r.Found? && w.machine.proxy == r.record.expected != r.record.baseline
  }

  /** An Enable that takes over although it could not read whether a record is armed. */
  predicate TakesOverBlindly(step: Step) {
    && step.Enabling? && step.start.recovery.keyOpens && Armed in step.start.recovery.unread && step.start.query
    && (step.start.writing.NotStarted? ==> step.start.keyDeletes)
  }

  /** Taking over the user's own state keeps the account; taking over ZEON's only when it leaves the old record. */
  lemma TakeOverExact(w: World, o: Owner, s: Start)
    requires Accounted(w) && o.generation != 0
    ensures Accounted(w.(machine := TakeOver(w.machine, o, s)))
       <==> w.machine.proxy == w.user || (s.writing.NotStarted? && !s.keyDeletes)
  {
    var m := w.machine;
    var r := RecordOf(o, m.proxy);
    var open := (if s.keyDeletes || m.key.None? then map[] else m.key.value)[Armed := Dword(0)];
    match s.writing
    case NotStarted(_) =>
    case Partly(outcomes) =>
      UnarmedWhileWriting(open, r, if |outcomes| <= |Fields(r)| then outcomes else outcomes[..|Fields(r)|]);
    case Unarmed => UnarmedWhileWriting(open, r, Successes(|Fields(r)|));
    case Complete => WrittenIsRead(open, r);
  }

  lemma EnableExact(w: World, o: Owner, s: Start)
    requires Accounted(w) && o.generation != 0
    ensures Accounted(w.(machine := Enable(w.machine, o, s))) <==> !(TakesOverBlindly(Enabling(o, s)) && AtStake(w))
  {
    RecoverOwnedKeeps(w, 0, s.recovery);
    SeenIsRead(w.machine.key, s.recovery.unread);
    var (m, ok) := RecoverOwned(w.machine, 0, s.recovery);
    if ok && s.query { TakeOverExact(w.(machine := m), o, s); }
  }

  /**
   One step keeps the account exactly when a foreign program's state can be told from ZEON's, and no owner
   takes over blindly while something of the user's is at stake.
  */
  lemma StepExact(w: World, step: Step)
    requires Accounted(w) && ProperOwner(step)
    ensures Accounted(Next(w, step)) <==> Distinguishable(w, step) && !(TakesOverBlindly(step) && AtStake(w))
  {
    match step
    case Recovering(self, allowOwner, weather) =>
      SeenIsRead(w.machine.key, weather.unread);
      var r := ReadRecord(Seen(w.machine.key, weather.unread));
      if r.Found? {
        var running := OwnerRunning(r.record, w.machine.processes, weather);
        var decision := Decide(w.machine.proxy, r.record.expected, r.record.port, running,
                               allowOwner && r.record.pid == self);
        ActKeeps(w, r.record, decision, weather);
      }
    case Enabling(o, start) => EnableExact(w, o, start);
    case Disabling(generation, weather) => RecoverOwnedKeeps(w, generation, weather);
    case _ =>
  }

  function After(w: World, steps: seq<Step>): World {
    if steps == [] then w else Next(After(w, steps[..|steps| - 1]), steps[|steps| - 1])
  }

  ghost predicate AccountedAlong(w: World, steps: seq<Step>) {
    Accounted(After(w, steps)) && (steps != [] ==> AccountedAlong(w, steps[..|steps| - 1]))
  }

  ghost predicate GuardedAlong(w: World, steps: seq<Step>) {
    steps != [] ==>
      var rest, last := steps[..|steps| - 1], steps[|steps| - 1];
      && GuardedAlong(w, rest) && Distinguishable(After(w, rest), last)
      && !(TakesOverBlindly(last) && AtStake(After(w, rest)))
  }

  predicate ProperOwners(steps: seq<Step>) {
    forall i :: 0 <= i < |steps| ==> ProperOwner(steps[i])
  }

  /**
   Whatever calls fail and wherever processes stop, over any run of owners taking over, giving up and
   being cleaned up after: ZEON's proxy state is never left without an armed record that knows the
   user's own state, exactly when foreign states can be told from ZEON's all along and no owner takes
   over blindly while something of the user's is at stake.
  */
  lemma {:induction false} NeverUnmarked(w: World, steps: seq<Step>)
    requires w.machine.key == None && w.machine.proxy == w.user && ProperOwners(steps)
    ensures AccountedAlong(w, steps) <==> GuardedAlong(w, steps)
  {
    if steps == [] {
    } else {
      var rest, last := steps[..|steps| - 1], steps[|steps| - 1];
      assert ProperOwners(rest) by { assert forall i :: 0 <= i < |rest| ==> rest[i] == steps[i]; }
      NeverUnmarked(w, rest);
      if GuardedAlong(w, rest) { StepExact(After(w, rest), last); }
    }
  }

  const TAKES_OVER := Start(CALM, true, true, Complete, true, true, true)
  const TAKES_OVER_BLINDLY := Start(CALM.(unread := {Armed}), true, true, Complete, true, true, true)

  /**
   The loss: one owner takes over and dies, and the next one cannot read Armed. The user's state is then
   nowhere any more, neither set nor recorded; the record knows ZEON's dead state as the baseline.
  */
  lemma UnreadArmedLosesUserState(m: Machine, o: Owner, next: Owner)
    requires m.key == None && o.generation != 0 && next.generation != 0
    requires m.proxy != ExpectedState(m.proxy, o.address)
    requires m.proxy != ExpectedState(ExpectedState(m.proxy, o.address), next.address)
    ensures var steps := [Enabling(o, TAKES_OVER), Enabling(next, TAKES_OVER_BLINDLY)];
      var w := After(World(m, m.proxy), steps);
      && !Accounted(w) && w.machine.proxy != m.proxy
      && ReadRecord(w.machine.key).Found?
      && ReadRecord(w.machine.key).record.baseline == ExpectedState(m.proxy, o.address)
  {
    var first, second := Enabling(o, TAKES_OVER), Enabling(next, TAKES_OVER_BLINDLY);
    var w := World(m, m.proxy);
    var w' := Next(w, first);
    assert [first, second][..1] == [first] && [first][..0] == [];
    WrittenIsRead(map[Armed := Dword(0)], RecordOf(o, m.proxy));
    assert Accounted(w') && AtStake(w');
    SeenIsRead(w'.machine.key, {Armed});
    EnableExact(w', next, TAKES_OVER_BLINDLY);
    WrittenIsRead(map[Armed := Dword(0)], RecordOf(next, w'.machine.proxy));
    assert After(w, [first]) == w';
    assert After(w, [first, second]) == Next(w', second);
  }

  // ----- Convergence after a crash -----

  ghost predicate OnlyRecovering(steps: seq<Step>) {
    forall i :: 0 <= i < |steps| ==> steps[i].Recovering?
  }

  /** Between the crash of an owner and the end of its recovery. */
  ghost predicate Converging(m: Machine, key: Option<Key>, r: Record) {
    && (m.key == key || m.key == None)
    && (m.proxy == r.expected || m.proxy == r.baseline)
    && (m.key == None ==> m.proxy == r.baseline)
  }

  /**
   Once the owner has left its state behind, any sequence of recovery calls that fail or stop
   anywhere keeps the proxy at the expected or the baseline state while the record exists, and at
   the baseline whenever the record is gone.
  */
  lemma {:induction false} RecoveryConverges(w: World, r: Record, steps: seq<Step>)
    requires ReadRecord(w.machine.key) == Found(r) && w.machine.proxy == r.expected
    requires OnlyRecovering(steps)
    ensures Converging(After(w, steps).machine, w.machine.key, r)
  {
    if steps == [] {
    } else {
      var rest, last := steps[..|steps| - 1], steps[|steps| - 1];
      assert forall i :: 0 <= i < |rest| ==> rest[i] == steps[i];
      RecoveryConverges(w, r, rest);
      SeenIsRead(After(w, rest).machine.key, last.weather.unread);
    }
  }

  /** The recorded owner is alive. */
  predicate Alive(r: Record, processes: map<nat, nat>) {
    r.pid in processes && processes[r.pid] == r.creation
  }

  /**
   One call finishes the recovery of a dead owner, also when another process has its id by now, exactly when the
   marker is a proper loopback; and but for calls that fail otherwise, it is hindered only by a process with that id
   whose creation time cannot be read, if the process opens and the caller is not the owner with permission.
  */
  lemma CalmCallFinishes(m: Machine, key: Option<Key>, r: Record, self: nat, allowOwner: bool, w: Weather)
    requires ReadRecord(key) == Found(r) && Converging(m, key, r) && !Alive(r, m.processes)
    requires w == CALM.(accessDenied := w.accessDenied, timesFail := w.timesFail)
    ensures var (m', outcome) := Recover(m, self, allowOwner, w);
      var mistaken := r.pid in m.processes && w.timesFail && !w.accessDenied && !(allowOwner && r.pid == self);
      && ((m'.key == None && m'.proxy == r.baseline)
          <==> (m.key == None || (ExpectedLoopback(r.expected, r.port) && !mistaken)))
      && (m.key != None && ExpectedLoopback(r.expected, r.port) && !mistaken ==>
            m'.runOnce == None && outcome == if m.proxy == r.expected then BaselineRestored else ForeignStatePreserved)
      && (m.key != None && mistaken ==> m' == m)
  {
    NothingUnread(m.key);
  }

  lemma TakenOver(m: Machine, o: Owner)
    requires m.key == None && o.generation != 0
    ensures var taken, r := Enable(m, o, TAKES_OVER), RecordOf(o, m.proxy);
      && ReadRecord(taken.key) == Found(r) && taken.key.Some?
      && taken.proxy == r.expected && taken.processes == m.processes
  {
    WrittenIsRead(map[Armed := Dword(0)], RecordOf(o, m.proxy));
  }

  lemma ServerIsLoopback(address: string, port: string)
    ensures "http://" + address == "http://127.0.0.1:" + port <==> address == "127.0.0.1:" + port
  {
    assert "http://127.0.0.1:" + port == "http://" + ("127.0.0.1:" + port);
    assert ("http://" + address)[7..] == address;
    assert ("http://" + ("127.0.0.1:" + port))[7..] == "127.0.0.1:" + port;
  }

  /**
   What an owner leaves behind when it dies can be recovered exactly when it listened on IPv4 loopback, whether or not
   another process has its id by now.
  */
  lemma TakenOverIsRecoverable(m: Machine, o: Owner, self: nat)
    requires m.key == None && o.generation != 0 && !(o.pid in m.processes && m.processes[o.pid] == o.creation)
    ensures var (m', _) := Recover(Enable(m, o, TAKES_OVER), self, false, CALM);
      m'.key == None && m'.proxy == m.proxy && m'.runOnce == None
      <==> 0 < o.port <= 65535 && o.address == "127.0.0.1:" + Decimal.Numeral(o.port)
  {
    var r, taken := RecordOf(o, m.proxy), Enable(m, o, TAKES_OVER);
    TakenOver(m, o);
    ServerIsLoopback(o.address, Decimal.Numeral(o.port));
    assert r.expected.flags / 2 % 2 == 1;
    CalmCallFinishes(taken, taken.key, r, self, false, CALM);
  }

  // ----- Giving up -----

  /** A record that is found names a generation, so that giving up without one is giving up whatever is there. */
  lemma FoundNamesItsGeneration(key: Option<Key>)
    ensures ReadRecord(key).Found? ==> ReadRecord(key).record.generation != 0
  {}

  /**
   The owner's state is the user's but for its server, and for its flags, by which a connection goes through that
   server or directly, with no automatic detection and no script.
  */
  lemma OwnStateIsBaseline(baseline: ProxyState, address: string)
    ensures var e := ExpectedState(baseline, address);
      && e.bypass == baseline.bypass && e.autoConfig == baseline.autoConfig
      && e.server == "http://" + address
      && e.flags % 2 == 1 && e.flags / 2 % 2 == 1 && e.flags / 4 == 0
  {}

  /** A clean-up by the owner without failures undoes its own takeover; another generation's record it leaves alone. */
  lemma DisableRestores(m: Machine, r: Record, generation: nat)
    requires ReadRecord(m.key) == Found(r) && generation != 0
    ensures var m' := Disable(m, generation, CALM);
      && (r.generation == generation ==>
            && m'.key == None && m'.runOnce == None && m'.processes == m.processes
            && m'.proxy == if m.proxy == r.expected then r.baseline else m.proxy)
      && (r.generation != generation ==> m' == m)
  {
    NothingUnread(m.key);
  }

  /** An owner that takes over and gives up again leaves the proxy as it found it. */
  lemma EnableThenDisable(m: Machine, o: Owner)
    requires m.key == None && o.generation != 0
    ensures var m' := Disable(Enable(m, o, TAKES_OVER), o.generation, CALM);
      m'.proxy == m.proxy && m'.key == None && m'.runOnce == None
  {
    TakenOver(m, o);
    DisableRestores(Enable(m, o, TAKES_OVER), RecordOf(o, m.proxy), o.generation);
  }

  // ----- The next logon -----

  /** What a command line starts: its first argument, up to the closing quote if it begins with one. */
  function Started(command: string): string {
    if command != [] && command[0] == '"' then UpTo(command[1..], '"') else UpTo(command, ' ')
  }

  function UpTo(s: string, end: char): string {
    if s == [] || s[0] == end then [] else [s[0]] + UpTo(s[1..], end)
  }

  lemma {:induction false} UpToFirst(s: string, end: char, rest: string)
    ensures UpTo(s + [end] + rest, end) == s <==> end !in s
  {
    if s == [] {
      assert ([] + [end] + rest)[0] == end;
    } else {
      UpToFirst(s[1..], end, rest);
      assert (s + [end] + rest)[1..] == s[1..] + [end] + rest;
      if s[0] != end { assert s == [s[0]] + s[1..]; }
    }
  }

  /** The command set up for the next logon starts the recorded program exactly when its path has no quote. */
  lemma CommandStartsPath(path: string)
    ensures Started(Command(path)) == path <==> '"' !in path
    ensures CanArm(path) ==> Started(Command(path)) == path
  {
    var rest := " --recover-system-proxy";
    assert Command(path)[1..] == path + ['"'] + rest;
    UpToFirst(path, '"', rest);
  }

  /** An owner changes the proxy, if at all, to its own, with its record armed and the next logon prepared. */
  lemma ArmedBeforeSet(m: Machine, o: Owner, s: Start)
    requires o.generation != 0 && TakeOver(m, o, s).proxy != m.proxy
    ensures var m' := TakeOver(m, o, s);
      && m'.proxy == ExpectedState(m.proxy, o.address) && m'.runOnce == Some(Command(o.path))
      && ReadRecord(m'.key) == Found(RecordOf(o, m.proxy))
  {
    var stale := if s.keyDeletes || m.key.None? then map[] else m.key.value;
    WrittenIsRead(stale[Armed := Dword(0)], RecordOf(o, m.proxy));
  }

  /** A restore that fails leaves the record and prepares the next logon again, if the path can be quoted. */
  lemma FailedRestoreIsArmed(m: Machine, self: nat, allowOwner: bool, w: Weather)
    requires Recover(m, self, allowOwner, w).1 == ProxyRestoreFailed
    ensures var (m', _) := Recover(m, self, allowOwner, w);
      var r := ReadRecord(m.key);
      && r.Found? && m'.key == m.key && m'.processes == m.processes
      && m'.runOnce == if CanArm(r.record.path) && w.armSucceeds then Some(Command(r.record.path)) else m.runOnce
  {
    SeenIsRead(m.key, w.unread);
  }

  /** The entry for the next logon goes only once the record is gone: a clean-up that stops can be taken up again. */
  lemma RunOnceGoesLast(m: Machine, self: nat, allowOwner: bool, w: Weather)
    ensures var (m', _) := Recover(m, self, allowOwner, w);
      m.runOnce.Some? && m'.runOnce.None? ==> m'.key.None?
  {}

  /** What each result of a call tells about the machine. */
  lemma OutcomeTells(m: Machine, self: nat, allowOwner: bool, w: Weather)
    ensures var (m', outcome) := Recover(m, self, allowOwner, w);
      var r := ReadRecord(m.key);
      && (outcome == BaselineRestored ==>
            r.Found? && m.proxy == r.record.expected && m' == Machine(None, None, r.record.baseline, m.processes))
      && (outcome == ForeignStatePreserved ==>
            r.Found? && m.proxy != r.record.expected && m' == Machine(None, None, m.proxy, m.processes))
      && (outcome == OwnerStillRunning ==>
            && r.Found? && m' == m && r.record.pid in m.processes && ExpectedLoopback(r.record.expected, r.record.port)
            && !(allowOwner && r.record.pid == self))
      && (outcome == InvalidMarker ==>
            r.Found? && m' == m && !ExpectedLoopback(r.record.expected, r.record.port))
      && (outcome == NoRecordFound ==> m' == m && (!r.Found? || Armed in w.unread))
      && (outcome == RecordReadFailed ==> m' == m && m.key.Some? && (!w.keyOpens || r.Unreadable? || w.unread != {}))
      && (outcome == ProxyQueryFailed || outcome == MutexFailed ==> m' == m)
      && (outcome == StateCleanupFailed ==>
            && r.Found? && (m'.key == m.key || m'.key == None)
            && (m.proxy == r.record.expected ==> m'.proxy == r.record.baseline))
  {
    SeenIsRead(m.key, w.unread);
    if w.unread == {} { NothingUnread(m.key); }
  }

  // ----- What a recovery call may overwrite -----

  /** A call changes the proxy only from the recorded expected state to the baseline, and never under a live owner. */
  lemma RecoverOverwrites(m: Machine, self: nat, allowOwner: bool, w: Weather)
    ensures var (m', _) := Recover(m, self, allowOwner, w);
      m'.proxy != m.proxy ==>
        var r := ReadRecord(m.key);
        && r.Found? && m.proxy == r.record.expected && m'.proxy == r.record.baseline
        && ExpectedLoopback(r.record.expected, r.record.port)
        && (!OwnerRunning(r.record, m.processes, w) || (allowOwner && r.record.pid == self))
  {
    SeenIsRead(m.key, w.unread);
  }

  /** A live owner's machine is left alone exactly as long as its process opens, if there is anything to undo. */
  lemma LiveOwnerUntouched(m: Machine, r: Record, self: nat, allowOwner: bool, w: Weather)
    requires ReadRecord(m.key) == Found(r) && Alive(r, m.processes) && !(allowOwner && r.pid == self)
    ensures !w.accessDenied ==> Recover(m, self, allowOwner, w).0 == m
    ensures m.proxy == r.expected != r.baseline && ExpectedLoopback(r.expected, r.port) ==>
      (Recover(m, self, allowOwner, CALM.(accessDenied := w.accessDenied)).0 == m <==> !w.accessDenied)
  {
    SeenIsRead(m.key, w.unread);
    NothingUnread(m.key);
  }

  /** Steps that clean up or pass time, while nobody sets the proxy for purposes of their own. */
  ghost predicate OnlyCleaning(steps: seq<Step>) {
    forall i :: 0 <= i < |steps| ==> steps[i].Recovering? || steps[i].Disabling? || steps[i].Processes?
  }

  lemma CleaningKeepsUserState(w: World, step: Step)
    requires Accounted(w) && w.machine.proxy == w.user
    requires step.Recovering? || step.Disabling? || step.Processes?
    ensures Accounted(Next(w, step)) && Next(w, step).machine.proxy == w.user && Next(w, step).user == w.user
  {
    StepExact(w, step);
    if step.Recovering? { RecoverOverwrites(w.machine, step.self, step.allowOwner, step.weather); }
  }

  /** A state that the user or another program set stays, whatever is cleaned up afterwards and however often. */
  lemma {:induction false} UserStateStays(w: World, steps: seq<Step>)
    requires Accounted(w) && w.machine.proxy == w.user && OnlyCleaning(steps)
    ensures Accounted(After(w, steps)) && After(w, steps).machine.proxy == w.user && After(w, steps).user == w.user
  {
    if steps == [] {
    } else {
      UserStateStays(w, steps[..|steps| - 1]);
      CleaningKeepsUserState(After(w, steps[..|steps| - 1]), steps[|steps| - 1]);
    }
  }

  /** Calls by others that can look at the owner's process, while that process stays alive. */
  ghost predicate OwnerStays(r: Record, steps: seq<Step>) {
    forall i :: 0 <= i < |steps| ==>
      match steps[i]
      case Recovering(self, allowOwner, weather) => !weather.accessDenied && !(allowOwner && r.pid == self)
      case Processes(live) => Alive(r, live)
      case _ => false
  }

  /** A live owner's proxy and its record survive any number of recovery calls. */
  lemma {:induction false} LiveOwnerSurvives(w: World, r: Record, steps: seq<Step>)
    requires ReadRecord(w.machine.key) == Found(r) && Alive(r, w.machine.processes) && OwnerStays(r, steps)
    ensures After(w, steps).machine.key == w.machine.key && After(w, steps).machine.proxy == w.machine.proxy
    ensures Alive(r, After(w, steps).machine.processes)
  {
    if steps == [] {
    } else {
      var rest, last := steps[..|steps| - 1], steps[|steps| - 1];
      LiveOwnerSurvives(w, r, rest);
      if last.Recovering? {
        LiveOwnerUntouched(After(w, rest).machine, r, last.self, last.allowOwner, last.weather);
      }
    }
  }

  /**
   Another program's state set between the query and the restore of one call is lost, unless it is
   the baseline: comparing before restoring protects only what was set before the query.
  */
  lemma LateForeignStateIsLost(m: Machine, r: Record, late: ProxyState)
    requires ReadRecord(m.key) == Found(r) && m.proxy == r.expected
    requires Decide(m.proxy, r.expected, r.port, OwnerRunning(r, m.processes, CALM), false) == RestoreBaseline
    ensures Act(m.(proxy := late), r, RestoreBaseline, CALM).0.proxy == late <==> late == r.baseline
    ensures Recover(m.(proxy := late), 0, false, CALM).0.proxy == late <==> late != r.expected || late == r.baseline
  {
    NothingUnread(m.key);
  }

  // ----- The call, step by step -----

  class SystemProxy {
    var key: Option<Key>
    var runOnce: Option<string>
    var proxy: ProxyState
    var processes: map<nat, nat>

    function View(): Machine
      reads this
    {
      Machine(key, runOnce, proxy, processes)
    }

    constructor (m: Machine)
      ensures View() == m
    {
      key, runOnce, proxy, processes := m.key, m.runOnce, m.proxy, m.processes;
    }

    method ReadDword(k: Key, name: Name, unread: set<Name>) returns (ok: bool, value: nat)
      ensures GetDword(k - unread, name) == if ok then Some(value) else None
    {
      if name in unread || name !in k || !k[name].Dword? { return false, 0; }
      return true, k[name].n;
    }

    method ReadQword(k: Key, name: Name, unread: set<Name>) returns (ok: bool, value: nat)
      ensures GetQword(k - unread, name) == if ok then Some(value) else None
    {
      if name in unread || name !in k || !k[name].Qword? { return false, 0; }
      return true, k[name].n;
    }

    method ReadString(k: Key, name: Name, unread: set<Name>) returns (ok: bool, value: string)
      ensures GetText(k - unread, name) == if ok then Some(value) else None
    {
      if name in unread || name !in k || !k[name].Text? { return false, ""; }
      return true, k[name].s;
    }

    /** ReadProxyState */
    method ReadProxyState(k: Key, prefix: Part -> Name, unread: set<Name>) returns (ok: bool, state: ProxyState)
      ensures GetState(k - unread, prefix) == if ok then Some(state) else None
    {
      var server, bypass, auto: string := "", "", "";
      var flags: nat;
      ok, flags := ReadDword(k, prefix(Flags), unread);
      if ok { ok, server := ReadString(k, prefix(ProxyServer), unread); }
      if ok { ok, bypass := ReadString(k, prefix(ProxyBypass), unread); }
      if ok { ok, auto := ReadString(k, prefix(AutoConfigURL), unread); }
      state := ProxyState(flags, server, bypass, auto);
    }

    /**
     ReadOwnershipRecord: one value after the other, up to the first that cannot be read. False for a record
     that cannot be read; found is false when there is none, or when Armed cannot be read.
    */
    method ReadOwnershipRecord(w: Weather) returns (ok: bool, found: bool, record: Option<Record>)
      ensures ok == ((w.keyOpens || key.None?) && !ReadRecord(Seen(key, w.unread)).Unreadable?)
      ensures ok ==> found == ReadRecord(Seen(key, w.unread)).Found?
      ensures ok && found ==> record == Some(ReadRecord(Seen(key, w.unread)).record)
    {
      found, record := false, None;
      if key.None? { return true, found, record; }
      if !w.keyOpens { return false, found, record; }
      var k := key.value;
      var armed, schema, pid, creation, generation, port: nat;
      var path: string;
      var baseline, expected: ProxyState;
      ok, armed := ReadDword(k, Armed, w.unread);
      if !ok || armed != 1 { return true, found, record; }
      ok, schema := ReadDword(k, Schema, w.unread);
      if !ok || schema != 1 { return false, found, record; }
      ok, pid := ReadDword(k, OwnerPid, w.unread);
      if !ok { return; }
      ok, creation := ReadQword(k, OwnerCreationTime, w.unread);
      if !ok { return; }
      ok, generation := ReadQword(k, Generation, w.unread);
      if !ok || generation == 0 { return false, found, record; }
      ok, port := ReadDword(k, MixedPort, w.unread);
      if !ok { return; }
      ok, path := ReadString(k, ExecutablePath, w.unread);
      if !ok { return; }
      ok, baseline := ReadProxyState(k, part => Baseline(part), w.unread);
      if !ok { return; }
      ok, expected := ReadProxyState(k, part => Expected(part), w.unread);
      if !ok { return; }
      return true, true, Some(Record(pid, creation, generation, port, path, baseline, expected));
    }

    /** DeleteRecoveryState; stopped tells that the process ended in between. */
    method DeleteRecoveryState(w: Weather, ghost done: Outcome) returns (ok: bool, stopped: bool)
      modifies this`key, this`runOnce
      ensures DeleteState(old(View()), w, done)
           == (View(), if stopped then Stopped else if ok then done else StateCleanupFailed)
    {
      stopped := false;
      if key.Some? {
        if !w.treeDeletes { return false, false; }
        key := None;
      }
      if w.stopAfterTree { return false, true; }
      if runOnce.Some? {
        if !w.valueDeletes { return false, false; }
        runOnce := None;
      }
      ok := true;
    }

    /** ArmRecoveryRunOnce */
    method ArmRecoveryRunOnce(path: string, w: Weather) returns (ok: bool)
      modifies this`runOnce
      ensures View() == Arm(old(View()), path, w)
      ensures ok ==> runOnce == Some(Command(path))
    {
      if path == "" || '"' in path || !w.armSucceeds { return false; }
      runOnce := Some(Command(path));
      return true;
    }

    /** RecoverZeonSystemProxy */
    method RecoverZeonSystemProxy(self: nat, allowOwner: bool, w: Weather) returns (result: Outcome)
      modifies this
      ensures (View(), result) == Recover(old(View()), self, allowOwner, w)
    {
      if !w.mutex { return MutexFailed; }
      var ok, found, record := ReadOwnershipRecord(w);
      if !ok { return RecordReadFailed; }
      if !found { return NoRecordFound; }
      var r := record.value;
      if !w.query { return ProxyQueryFailed; }
      var decision := Decide(proxy, r.expected, r.port, OwnerRunning(r, processes, w), allowOwner && r.pid == self);
      match decision {
        case WaitForLiveOwner => return OwnerStillRunning;
        case RejectInvalidMarker => return InvalidMarker;
        case PreserveForeignState =>
          var deleted, stopped := DeleteRecoveryState(w, ForeignStatePreserved);
          return if stopped then Stopped else if deleted then ForeignStatePreserved else StateCleanupFailed;
        case RestoreBaseline =>
          if w.stopBeforeSet { return Stopped; }
          if w.setLands { proxy := r.baseline; }
          if w.stopAfterSet { return Stopped; }
          if !(w.setLands && w.setReports) {
            var armed := ArmRecoveryRunOnce(r.path, w);
            return ProxyRestoreFailed;
          }
          var deleted, stopped := DeleteRecoveryState(w, BaselineRestored);
          return if stopped then Stopped else if deleted then BaselineRestored else StateCleanupFailed;
      }
    }
  }
}
