/**
 The report of an iOS lab run: what save may write, the verdict of a device run, and the control flow of
 a whole run with every exception and every interrupt that can end one of its parts.
*/
module LabReport {
  import opened Options

  datatype Status = Interrupted | Blocked | Failed | Passed

  /** The steps of a device receipt that the verdict looks at; Failure is any failed one, Other any other. */
  datatype MarkId = Connected | ServerSelected | DirectTraffic | TunnelTraffic | CleanedUp | Failure | Other

  datatype Mark = Mark(id: MarkId, time: real)

  datatype Receipt = Receipt(passed: bool, steps: seq<Mark>)

  /** One USB round trip of the heartbeat thread. */
  datatype Beat = Beat(started: real, ended: real, ok: bool, tunnel: bool)

  datatype Report = Report(device: bool, status: Status, cleanup: bool, ended: bool, realVpn: bool,
                           steps: seq<Mark>, trips: seq<Beat>)

  /** Run.save: what is written differs from the report in memory where that claims too much. */
  function Persisted(r: Report): Report {
    var status := if r.status == Passed && (!r.cleanup || !r.ended) then Interrupted else r.status;
    r.(status := status, realVpn := r.realVpn && status == Passed)
  }

  // ----- The verdict of device_run -----

  /** sanitized_device_receipt: a receipt that passed reports no failed step. */
  predicate Accepted(receipt: Receipt) {
    receipt.passed ==> forall m <- receipt.steps :: m.id != Failure
  }

  predicate Has(steps: seq<Mark>, id: MarkId) {
    exists i :: 0 <= i < |steps| && steps[i].id == id
  }

  function TimeOf(steps: seq<Mark>, id: MarkId): real
    requires Has(steps, id)
  {
    if steps[0].id == id then steps[0].time else TimeOf(steps[1..], id)
  }

  /** The time of a step is that of its first report. */
  lemma {:induction false} TimeOfFirst(steps: seq<Mark>, id: MarkId, i: nat)
    requires i < |steps| && steps[i].id == id && forall j :: 0 <= j < i ==> steps[j].id != id
    ensures Has(steps, id) && TimeOf(steps, id) == steps[i].time
  {
    if i == 0 {
    } else {
      TimeOfFirst(steps[1..], id, i - 1);
    }
  }

  predicate EndsClean(steps: seq<Mark>) {
    steps != [] && steps[|steps| - 1].id == CleanedUp
  }

  /** A round trip that found the tunnel alive, between the connection and the verified traffic. */
  predicate Inside(b: Beat, steps: seq<Mark>)
    requires Has(steps, Connected) && Has(steps, TunnelTraffic)
  {
    b.ok && b.tunnel && b.started >= TimeOf(steps, Connected) && b.ended <= TimeOf(steps, TunnelTraffic)
  }

  predicate Alive(beats: seq<Beat>, steps: seq<Mark>) {
    && Has(steps, Connected) && Has(steps, TunnelTraffic)
    && exists i :: 0 <= i < |beats| && Inside(beats[i], steps)
  }

  predicate Steady(beats: seq<Beat>) {
    forall i :: 0 <= i < |beats| ==> beats[i].ok
  }

  datatype Verdict = Fails | Raises | Unsteady | Passes

  function Judge(testFailed: bool, receipt: Receipt, beats: seq<Beat>): Verdict {
    if testFailed || !receipt.passed then Fails
    else if !(Has(receipt.steps, Connected) && Has(receipt.steps, ServerSelected) && Has(receipt.steps, DirectTraffic)
              && Has(receipt.steps, TunnelTraffic) && Has(receipt.steps, CleanedUp)) then Raises
    else if !Alive(beats, receipt.steps) then Raises
    else if !Steady(beats) then Unsteady
    else Passes
  }

  // ----- A run -----

  /** Blocked and what main catches with it; a subprocess that timed out; an interrupt; anything else. */
  datatype Exception = Caught | TimedOut | Interrupt | Uncaught

  datatype Pc =
    | Preparing
    | Created | Simulating | ShuttingDown | Deleting | Unlinking
    | Testing | Judging | Passing | Vouching | Stopping | Recording | Checking
    | Handling(e: Exception) | Ending | Over

  /** The heartbeats so far, whether their thread has ended, the receipt and whether the test failed. */
  datatype Trial = Trial(beats: seq<Beat>, stopped: bool, receipt: Receipt, testFailed: bool)

  datatype Log = Log(interrupts: nat, saved: seq<Report>)

  /**
   pending is the exception a finally block holds back, owned whether the steps name a simulator or a test
   of this run, deleted whether the simulator is gone.
  */
  datatype State = State(pc: Pc, r: Report, pending: Option<Exception>, owned: bool, deleted: bool, t: Trial, log: Log)

  datatype Action =
    | Proceed                                  // the statement at hand succeeds
    | Raise(e: Exception)                      // the statement at hand raises and nothing near it catches that
    | Signal                                   // an interrupt arrives
    | SaveStep                                 // Run.step begins or ends
    | Begin                                    // the part of the chosen suite begins
    | SimulatorReceipt(passed: bool)
    | DeviceReceipt(receipt: Receipt, testFailed: bool)
    | HeartBeat(beat: Beat)
    | Join(alive: bool)

  function Init(device: bool): State {
    var r := Report(device, Interrupted, false, false, false, [], []);
    State(Preparing, r, None, false, false, Trial([], true, Receipt(false, []), false), Log(0, [Persisted(r)]))
  }

  function Save(s: State): State {
    s.(log := s.log.(saved := s.log.saved + [Persisted(s.r)]))
  }

  /** A finally block is done: what it held back is raised again. */
  function Leave(s: State): State {
    s.(pc := if s.pending.Some? then Handling(s.pending.value) else Ending)
  }

  predicate OfSimulator(pc: Pc) {
    pc.Created? || pc.Simulating? || pc.ShuttingDown? || pc.Deleting? || pc.Unlinking?
  }

  predicate OfDevice(pc: Pc) {
    pc.Testing? || pc.Judging? || pc.Passing? || pc.Vouching? || pc.Stopping? || pc.Recording? || pc.Checking?
  }

  predicate Enabled(s: State, a: Action) {
    match a
    case Proceed => !s.pc.Preparing? && !s.pc.Simulating? && !s.pc.Testing? && !s.pc.Stopping? && !s.pc.Over?
    case Raise(e) => !e.Interrupt? && (s.pc.Preparing? || s.pc.Testing? || OfSimulator(s.pc))
    case Signal => true
    case SaveStep => s.pc.Preparing? || s.pc.Simulating? || s.pc.Deleting? || s.pc.Testing?
    case Begin => s.pc == Preparing
    case SimulatorReceipt(_) => s.pc == Simulating
    case DeviceReceipt(receipt, _) => s.pc == Testing && Accepted(receipt)
    case HeartBeat(_) => !s.t.stopped
    case Join(_) => s.pc == Stopping
  }

  /** Where an exception goes; Run.step saves on its way out, and finally blocks hold it back. */
  function Thrown(s: State, e: Exception): State {
    match s.pc
    case Simulating => s.(pc := ShuttingDown, pending := Some(e))
    case Deleting => Save(s).(pc := Handling(e))
    case Testing | Judging | Passing | Vouching => s.(pc := Stopping, pending := Some(e))
    case Handling(_) => s.(pc := Ending)
    case Ending | Over => s.(pc := Over)
    case _ => s.(pc := Handling(e))
  }

  /** An interrupt, wherever it arrives. */
  function Struck(s: State): State {
    var n := Thrown(s, Interrupt);
    n.(log := n.log.(interrupts := n.log.interrupts + 1))
  }

  /** The handlers of main. */
  function Handle(s: State, e: Exception): State {
    match e
    case Interrupt => s.(r := s.r.(status := Interrupted), pc := Ending)
    case Uncaught => s.(pc := Ending)
    case _ =>
      var status := if e == TimedOut then Interrupted else if s.r.status == Failed then Failed else Blocked;
      s.(r := s.r.(status := status, cleanup := s.r.cleanup || !s.owned), pc := Ending)
  }

  function Judged(s: State): State {
    match Judge(s.t.testFailed, s.t.receipt, s.t.beats)
    case Fails => s.(r := s.r.(status := Failed), pc := Stopping)
    case Raises => s.(pc := Stopping, pending := Some(Caught))
    case Unsteady => s.(r := s.r.(status := Interrupted), pc := Stopping)
    case Passes => s.(r := s.r.(cleanup := EndsClean(s.t.receipt.steps)), pc := Passing)
  }

  function Continue(s: State): State
    requires Enabled(s, Proceed)
  {
    match s.pc
    case Created => s.(pc := Simulating)
    case ShuttingDown => s.(pc := Deleting)
    case Deleting => Save(s).(pc := Unlinking, deleted := true)
    case Unlinking => Leave(s.(r := s.r.(cleanup := true)))
    case Judging => Judged(s)
    case Passing => s.(r := s.r.(status := Passed), pc := Vouching)
    case Vouching => s.(r := s.r.(realVpn := true), pc := Stopping)
    case Recording => s.(r := s.r.(trips := s.t.beats), pc := Checking)
    case Checking =>
      Leave(if s.r.status == Passed && !Steady(s.t.beats) then s.(r := s.r.(status := Interrupted)) else s)
    case Handling(e) => Handle(s, e)
    case Ending =>
      var r := s.r.(ended := true);
      Save(s.(r := if r.status == Passed && !r.cleanup then r.(status := Interrupted) else r)).(pc := Over)
    case _ => s
  }

  function Next(s: State, a: Action): State
    requires Enabled(s, a)
  {
    match a
    case Proceed => Continue(s)
    case Raise(e) => Thrown(s, e)
    case Signal => Struck(s)
    case SaveStep => Save(s.(owned := s.owned || s.pc == Testing))
    case Begin =>
      if s.r.device then s.(pc := Testing, t := s.t.(stopped := false)) else Save(s.(pc := Created, owned := true))
    case SimulatorReceipt(passed) =>
      if passed then s.(r := s.r.(status := Passed), pc := ShuttingDown)
      else s.(r := s.r.(status := Failed), pc := ShuttingDown, pending := Some(Caught))
    case DeviceReceipt(receipt, testFailed) =>
      s.(t := s.t.(receipt := receipt, testFailed := testFailed), pc := Judging,
         r := s.r.(steps := receipt.steps, cleanup := EndsClean(receipt.steps)))
    case HeartBeat(beat) => s.(t := s.t.(beats := s.t.beats + [beat]))
    case Join(alive) =>
      s.(pc := Recording, t := s.t.(stopped := !alive), r := if alive then s.r.(status := Interrupted) else s.r)
  }

  ghost predicate Possible(s: State, run: seq<Action>)
    decreases |run|, 0
  {
    run == [] || (Possible(s, run[..|run| - 1]) && Enabled(After(s, run[..|run| - 1]), run[|run| - 1]))
  }

  ghost function After(s: State, run: seq<Action>): State
    requires Possible(s, run)
    decreases |run|, 1
  {
    if run == [] then s else Next(After(s, run[..|run| - 1]), run[|run| - 1])
  }

  // ----- What every state keeps -----

  /** A report that says PASS was cleaned up and ended; of a device, its receipt says so last. */
  predicate Honest(r: Report) {
    && (r.status == Passed ==> r.cleanup && r.ended && (r.device ==> EndsClean(r.steps)))
    && (r.realVpn ==> r.status == Passed && r.device)
  }

  /** A device PASS rests on a live round trip in the window, and no round trip failed. */
  predicate Backed(r: Report) {
    r.status == Passed && r.device ==> Alive(r.trips, r.steps) && Steady(r.trips)
  }

  /** An interrupt that the last check of the round trips is lost to: before it, or at it when it would fail. */
  predicate Cuts(s: State, a: Action) {
    a.Signal? && (s.pc.Stopping? || s.pc.Recording? || (s.pc.Checking? && !Steady(s.t.beats)))
  }

  ghost predicate CutShort(s: State, run: seq<Action>)
    requires Possible(s, run)
  {
    run != [] && (CutShort(s, run[..|run| - 1]) || Cuts(After(s, run[..|run| - 1]), run[|run| - 1]))
  }

  predicate Before(pc: Pc) {
    pc.Preparing? || pc.Created? || pc.Simulating? || pc.Testing? || pc.Judging? || pc.Passing?
  }

  /** What a claim in memory rests on, for the simulator. */
  predicate FairSimulator(s: State) {
    && !OfDevice(s.pc) && !s.r.realVpn
    && (s.r.ended ==> s.pc.Over?)
    && (Before(s.pc) ==> s.r.status != Passed && s.pending.None?)
    && (s.r.cleanup && (s.r.status == Passed || Before(s.pc)) ==> s.deleted)
    && (s.pc.Unlinking? ==> s.deleted)
  }

  /** The same for a device, of a run that was cut short or not. */
  predicate FairDevice(s: State, cut: bool) {
    && !OfSimulator(s.pc)
    && (s.r.ended ==> s.pc.Over?)
    && (Before(s.pc) ==> s.r.status != Passed && s.pending.None? && !cut)
    && (Before(s.pc) || s.pc.Vouching? || s.pc.Stopping? || s.pc.Recording? ==> s.r.trips == [])
    && (s.pc.Judging? ==> s.r.steps == s.t.receipt.steps)
    && (s.pc.Passing? ==> s.r.cleanup == EndsClean(s.r.steps) && Alive(s.t.beats, s.r.steps))
    && (s.r.status == Passed ==>
          s.r.cleanup == EndsClean(s.r.steps) && Alive(s.t.beats, s.r.steps) && OnTrack(s, cut))
  }

  /** How far a device PASS has been checked, and what its round trips are worth when the checking is over. */
  predicate OnTrack(s: State, cut: bool) {
    match s.pc
    case Vouching => s.pending.None? && !cut
    case Stopping => HeldBack(s) && !cut
    case Recording => HeldBack(s) && !cut && s.t.stopped
    case Checking => HeldBack(s) && !cut && s.t.stopped && s.r.trips == s.t.beats
    case Handling(e) => e == Interrupt && s.log.interrupts >= 1 && Worth(s.r, cut)
    case Ending => (cut ==> s.log.interrupts >= 2) && Worth(s.r, cut)
    case _ => true
  }

  predicate HeldBack(s: State) {
    s.pending.None? || (s.pending == Some(Interrupt) && s.log.interrupts >= 1)
  }

  predicate Worth(r: Report, cut: bool) {
    (Alive(r.trips, r.steps) && Steady(r.trips)) <==> !cut
  }

  predicate Fair(s: State, cut: bool) {
    if s.r.device then FairDevice(s, cut) else FairSimulator(s)
  }

  // ----- Every step keeps it -----

  lemma AliveGrows(beats: seq<Beat>, steps: seq<Mark>, beat: Beat)
    requires Alive(beats, steps)
    ensures Alive(beats + [beat], steps)
  {
    var i :| 0 <= i < |beats| && Inside(beats[i], steps);
    assert Inside((beats + [beat])[i], steps);
  }

  lemma SimulatorContinues(s: State)
    requires !s.r.device && FairSimulator(s) && Enabled(s, Proceed)
    ensures !Continue(s).r.device && FairSimulator(Continue(s))
  {}

  lemma SimulatorStep(s: State, a: Action)
    requires !s.r.device && FairSimulator(s) && Enabled(s, a)
    ensures !Next(s, a).r.device && FairSimulator(Next(s, a))
  {
    if a.Proceed? { SimulatorContinues(s); }
  }

  /** Steps before the verdict, and those that no claim depends on. */
  lemma DeviceEarlyStep(s: State, a: Action, cut: bool)
    requires s.r.device && FairDevice(s, cut) && Enabled(s, a)
    requires !a.HeartBeat? && ((Before(s.pc) && !(a.Proceed? && s.pc.Judging?)) || s.pc.Over?)
    ensures Next(s, a).r.device && FairDevice(Next(s, a), cut)
  {}

  lemma DeviceJudged(s: State, cut: bool)
    requires s.r.device && FairDevice(s, cut) && s.pc.Judging?
    ensures Judged(s).r.device && FairDevice(Judged(s), cut)
  {
    var n := Judged(s);
    assert n.r.status != Passed && n.t == s.t && n.r.steps == s.t.receipt.steps;
  }

  lemma DeviceHeartBeat(s: State, beat: Beat, cut: bool)
    requires s.r.device && FairDevice(s, cut) && !s.t.stopped
    ensures var n := Next(s, HeartBeat(beat)); n.r.device && FairDevice(n, cut)
  {
    if Has(s.r.steps, Connected) && Alive(s.t.beats, s.r.steps) { AliveGrows(s.t.beats, s.r.steps, beat); }
  }

  /** Interrupts from the claim of PASS on. */
  lemma DeviceStruck(s: State, cut: bool)
    requires s.r.device && FairDevice(s, cut) && !Before(s.pc)
    ensures Struck(s).r.device && FairDevice(Struck(s), cut || Cuts(s, Signal))
  {
    var n := Struck(s);
    assert n.r == s.r && n.t == s.t && n.log.interrupts == s.log.interrupts + 1;
  }

  lemma DeviceChecked(s: State, cut: bool)
    requires s.r.device && FairDevice(s, cut) && s.pc.Checking?
    ensures Continue(s).r.device && FairDevice(Continue(s), cut)
  {
    assert Continue(s).t == s.t && Continue(s).log == s.log;
  }

  lemma DeviceLateStep(s: State, a: Action, cut: bool)
    requires s.r.device && FairDevice(s, cut) && Enabled(s, a)
    requires s.pc.Vouching? || s.pc.Stopping? || s.pc.Recording? || s.pc.Handling? || s.pc.Ending?
    requires a.Proceed? || a.Join?
    ensures Next(s, a).r.device && FairDevice(Next(s, a), cut)
  {}

  lemma FairStep(s: State, a: Action, cut: bool)
    requires Fair(s, cut) && Enabled(s, a)
    ensures Fair(Next(s, a), cut || Cuts(s, a)) && Next(s, a).r.device == s.r.device
  {
    if !s.r.device { SimulatorStep(s, a); }
    else if a.HeartBeat? { DeviceHeartBeat(s, a.beat, cut); }
    else if Before(s.pc) || s.pc.Over? {
      if s.pc.Judging? && a.Proceed? { DeviceJudged(s, cut); } else { DeviceEarlyStep(s, a, cut); }
    }
    else if a.Signal? { DeviceStruck(s, cut); }
    else if s.pc.Checking? { DeviceChecked(s, cut); }
    else { DeviceLateStep(s, a, cut); }
  }

  // ----- What is saved -----

  /** A saved report: honest, and if it says PASS, saved at the end and worth what the run left of its checks. */
  predicate Sound(r: Report, over: bool, deleted: bool, interrupts: nat, cut: bool) {
    && Honest(r) && (r.status == Passed ==> over)
    && (r.status == Passed && !r.device ==> deleted)
    && (r.status == Passed && r.device ==> (Backed(r) <==> !cut) && (cut ==> interrupts >= 2))
  }

  predicate SavedOk(s: State, cut: bool) {
    forall i :: 0 <= i < |s.log.saved| ==> Sound(s.log.saved[i], s.pc.Over?, s.deleted, s.log.interrupts, cut)
  }

  /** Before its end a run saves no report that says PASS. */
  lemma SavedEarly(s: State, cut: bool)
    requires Fair(s, cut) && !s.pc.Over?
    ensures Persisted(s.r).status != Passed && Honest(Persisted(s.r))
  {}

  lemma SavedAtEnd(s: State, cut: bool)
    requires Fair(s, cut) && s.pc.Ending?
    ensures var n := Continue(s);
      && n.pc.Over? && n.deleted == s.deleted && n.log == Log(s.log.interrupts, s.log.saved + [Persisted(n.r)])
      && Sound(Persisted(n.r), true, s.deleted, s.log.interrupts, cut)
  {}

  /** What a step does to the log. */
  lemma LogStep(s: State, a: Action)
    requires Enabled(s, a) && !(s.pc.Ending? && a.Proceed?)
    ensures var n := Next(s, a);
      && (n.log.saved == s.log.saved || (n.log.saved == s.log.saved + [Persisted(s.r)] && !s.pc.Over?))
      && n.log.interrupts == s.log.interrupts + (if a.Signal? then 1 else 0)
      && (s.deleted ==> n.deleted) && (s.pc.Over? ==> n.pc.Over?)
  {}

  lemma SavedStep(s: State, a: Action, cut: bool)
    requires Fair(s, cut) && SavedOk(s, cut) && Enabled(s, a)
    ensures SavedOk(Next(s, a), cut || Cuts(s, a))
  {
    if s.pc.Ending? && a.Proceed? {
      SavedAtEnd(s, cut);
    } else {
      LogStep(s, a);
      if !s.pc.Over? { SavedEarly(s, cut); }
    }
  }

  lemma {:induction false} Always(device: bool, run: seq<Action>)
    requires Possible(Init(device), run)
    ensures var s := After(Init(device), run);
      s.r.device == device && Fair(s, CutShort(Init(device), run)) && SavedOk(s, CutShort(Init(device), run))
  {
    if run == [] {
    } else {
      var rest, last := run[..|run| - 1], run[|run| - 1];
      var before, cut := After(Init(device), rest), CutShort(Init(device), rest);
      Always(device, rest);
      FairStep(before, last, cut);
      SavedStep(before, last, cut);
    }
  }

  // ----- What holds in every run -----

  /** Whatever is raised and however often a run is interrupted, a report saved as PASS was cleaned up and has ended. */
  lemma SavedReportsAreHonest(device: bool, run: seq<Action>, i: nat)
    requires Possible(Init(device), run) && i < |After(Init(device), run).log.saved|
    ensures var s := After(Init(device), run);
      var r := s.log.saved[i];
      && Honest(r) && (r.status == Passed && !r.device ==> s.deleted)
  {
    Always(device, run);
  }

  /**
   A device report saved as PASS has its live round trip and no failed one exactly when no interrupt arrived
   in the last finally block before the round trips were checked, or at the check when one had failed.
  */
  lemma SavedPassExact(run: seq<Action>, i: nat)
    requires Possible(Init(true), run) && i < |After(Init(true), run).log.saved|
    requires After(Init(true), run).log.saved[i].status == Passed
    ensures var r := After(Init(true), run).log.saved[i];
      r.device && (Backed(r) <==> !CutShort(Init(true), run))
  {
    Always(true, run);
    DeviceSaved(run, i);
  }

  lemma {:induction false} DeviceSaved(run: seq<Action>, i: nat)
    requires Possible(Init(true), run) && i < |After(Init(true), run).log.saved|
    ensures After(Init(true), run).log.saved[i].device
  {
    if run == [] {
    } else {
      var rest, last := run[..|run| - 1], run[|run| - 1];
      var s := After(Init(true), rest);
      Always(true, rest);
      if s.pc.Ending? && last.Proceed? {
        SavedAtEnd(s, CutShort(Init(true), rest));
      } else {
        LogStep(s, last);
      }
      if i < |s.log.saved| { DeviceSaved(rest, i); }
      Always(true, run);
    }
  }

  /** One interrupt alone never does that. */
  lemma SavedPassIsBacked(run: seq<Action>, i: nat)
    requires Possible(Init(true), run) && i < |After(Init(true), run).log.saved|
    requires After(Init(true), run).log.interrupts <= 1
    ensures Backed(After(Init(true), run).log.saved[i])
  {
    Always(true, run);
  }

  // ----- A run that nothing disturbs -----

  /** Nothing is raised near a statement that would let it through, and no interrupt arrives. */
  predicate Undisturbed(a: Action) {
    !a.Signal? && !a.Raise?
  }

  /** What the verdict of a device run was given on. */
  ghost function JudgedOn(s: State, run: seq<Action>): Option<Trial>
    requires Possible(s, run)
  {
    if run == [] then None
    else
      var before := After(s, run[..|run| - 1]);
      JudgedThen(before, run[|run| - 1], JudgedOn(s, run[..|run| - 1]))
  }

  function JudgedThen(s: State, a: Action, seen: Option<Trial>): Option<Trial> {
    if a.Proceed? && s.pc.Judging? then Some(s.t) else seen
  }

  /** The test and its receipt are what a PASS needs: five steps, and the tunnel alive in between. */
  predicate Convincing(t: Trial) {
    && !t.testFailed && t.receipt.passed
    && Has(t.receipt.steps, Connected) && Has(t.receipt.steps, ServerSelected) && Has(t.receipt.steps, DirectTraffic)
    && Has(t.receipt.steps, TunnelTraffic) && Has(t.receipt.steps, CleanedUp)
    && Alive(t.beats, t.receipt.steps)
  }

  /** The status before the last finally block, without a PASS taken back there. */
  function Given(t: Trial): Status {
    if t.testFailed || !t.receipt.passed then Failed
    else if Convincing(t) && Steady(t.beats) then Passed
    else Interrupted
  }

  /** A verdict that raises Blocked. */
  predicate Doubtful(t: Trial) {
    !t.testFailed && t.receipt.passed && !Convincing(t)
  }

  /** The status when the heartbeat thread was joined, or not. */
  function Joined(t: Trial, now: Trial): Status {
    if now.stopped then Given(t) else Interrupted
  }

  /** The status after the check of the round trips. */
  function Checked(t: Trial, now: Trial): Status {
    if Joined(t, now) == Passed && !Steady(now.beats) then Interrupted else Joined(t, now)
  }

  /** The status in the end. */
  function Final(t: Trial, now: Trial): Status {
    if Doubtful(t) then Blocked
    else if Checked(t, now) == Passed && !EndsClean(t.receipt.steps) then Interrupted
    else Checked(t, now)
  }

  /** What has been settled so far of a device run that nothing disturbs. */
  predicate OnCourse(s: State, seen: Option<Trial>) {
    && s.r.device && !OfSimulator(s.pc)
    && (s.pc.Preparing? || s.pc.Testing? || s.pc.Judging? ==>
          seen.None? && s.r.status == Interrupted && s.pending.None?)
    && (s.pc.Judging? ==> s.r.cleanup == EndsClean(s.t.receipt.steps))
    && (!(s.pc.Preparing? || s.pc.Testing? || s.pc.Judging?) ==> seen.Some? && Settled(s, seen.value))
  }

  predicate Settled(s: State, t: Trial) {
    && t.receipt == s.t.receipt && t.testFailed == s.t.testFailed && t.beats <= s.t.beats
    && (!s.pc.Over? && !Doubtful(t) ==> s.r.cleanup == EndsClean(t.receipt.steps))
    && (!s.pc.Passing? && !s.pc.Vouching? && !s.pc.Over? && Given(t) == Passed ==> s.r.realVpn)
    && match s.pc
       case Passing => Given(t) == Passed && s.r.status == Interrupted && s.pending.None?
       case Vouching => Given(t) == Passed && s.r.status == Passed && s.pending.None?
       case Stopping => s.r.status == Given(t) && s.pending == HeldFor(t)
       case Recording => s.r.status == Joined(t, s.t) && s.pending == HeldFor(t)
       case Checking => s.r.status == Joined(t, s.t) && s.pending == HeldFor(t)
       case Handling(e) => e == Caught && Doubtful(t) && s.r.status != Failed
       case Ending => s.r.status == if Doubtful(t) then Blocked else Checked(t, s.t)
       case Over =>
         && s.log.saved != []
         && var last := s.log.saved[|s.log.saved| - 1];
         last.status == Final(t, s.t) && (last.realVpn <==> last.status == Passed)
       case _ => false
  }

  function HeldFor(t: Trial): Option<Exception> {
    if Doubtful(t) then Some(Caught) else None
  }

  lemma VerdictOnCourse(s: State)
    requires OnCourse(s, None) && s.pc.Judging?
    ensures OnCourse(Continue(s), Some(s.t))
  {
    var verdict := Judge(s.t.testFailed, s.t.receipt, s.t.beats);
    assert verdict == Passes <==> Convincing(s.t) && Steady(s.t.beats);
    assert verdict == Raises <==> Doubtful(s.t);
    assert verdict == Fails <==> s.t.testFailed || !s.t.receipt.passed;
  }

  lemma LateOnCourse(s: State, a: Action, t: Trial)
    requires OnCourse(s, Some(t)) && Enabled(s, a) && Undisturbed(a) && !a.HeartBeat?
    requires s.pc.Passing? || s.pc.Vouching? || s.pc.Stopping? || s.pc.Recording?
    ensures OnCourse(Next(s, a), Some(t))
  {}

  lemma CheckedOnCourse(s: State, t: Trial)
    requires OnCourse(s, Some(t)) && s.pc.Checking?
    ensures OnCourse(Continue(s), Some(t))
  {}

  lemma LastOnCourse(s: State, a: Action, t: Trial)
    requires OnCourse(s, Some(t)) && Enabled(s, a) && Undisturbed(a) && !a.HeartBeat?
    requires s.pc.Handling? || s.pc.Ending? || s.pc.Over?
    ensures OnCourse(Next(s, a), Some(t))
  {}

  lemma BeatOnCourse(s: State, beat: Beat, seen: Option<Trial>)
    requires OnCourse(s, seen) && !s.t.stopped
    ensures OnCourse(Next(s, HeartBeat(beat)), seen)
  {}

  lemma EarlyOnCourse(s: State, a: Action)
    requires OnCourse(s, None) && Enabled(s, a) && Undisturbed(a) && !a.HeartBeat? && !a.Proceed?
    requires s.pc.Preparing? || s.pc.Testing? || s.pc.Judging?
    ensures OnCourse(Next(s, a), None)
  {}

  lemma {:induction false} StaysOnCourse(run: seq<Action>)
    requires Possible(Init(true), run) && forall i :: 0 <= i < |run| ==> Undisturbed(run[i])
    ensures OnCourse(After(Init(true), run), JudgedOn(Init(true), run))
  {
    if run == [] {
    } else {
      var rest, last := run[..|run| - 1], run[|run| - 1];
      var s, seen := After(Init(true), rest), JudgedOn(Init(true), rest);
      assert forall i :: 0 <= i < |rest| ==> rest[i] == run[i];
      StaysOnCourse(rest);
      if last.HeartBeat? { BeatOnCourse(s, last.beat, seen); }
      else if s.pc.Judging? && last.Proceed? { VerdictOnCourse(s); }
      else if s.pc.Preparing? || s.pc.Testing? || s.pc.Judging? { EarlyOnCourse(s, last); }
      else if s.pc.Checking? { CheckedOnCourse(s, seen.value); }
      else if s.pc.Handling? || s.pc.Ending? || s.pc.Over? { LastOnCourse(s, last, seen.value); }
      else { LateOnCourse(s, last, seen.value); }
    }
  }

  /**
   A device run that nothing disturbs ends in a saved PASS exactly when test and receipt are convincing, the receipt
   ends with the clean-up, the heartbeat thread has ended, and none of its round trips failed. Otherwise it is FAIL for
   a failed test or receipt, BLOCKED for an unconvincing one, and INTERRUPTED else or when the thread goes on.
  */
  lemma UndisturbedVerdict(run: seq<Action>)
    requires Possible(Init(true), run) && forall i :: 0 <= i < |run| ==> Undisturbed(run[i])
    requires After(Init(true), run).pc.Over?
    ensures var s, seen := After(Init(true), run), JudgedOn(Init(true), run);
      && seen.Some? && s.log.saved != []
      && var t, status := seen.value, s.log.saved[|s.log.saved| - 1].status;
      && (s.log.saved[|s.log.saved| - 1].realVpn <==> status == Passed)
      && t.receipt == s.t.receipt && t.beats <= s.t.beats
      && (status == Passed <==> Convincing(t) && Steady(s.t.beats) && s.t.stopped && EndsClean(t.receipt.steps))
      && (status == Failed <==> (t.testFailed || !t.receipt.passed) && s.t.stopped)
      && (status == Blocked <==> !t.testFailed && t.receipt.passed && !Convincing(t))
  {
    StaysOnCourse(run);
    var s, t := After(Init(true), run), JudgedOn(Init(true), run).value;
    if Steady(s.t.beats) { assert forall i :: 0 <= i < |t.beats| ==> t.beats[i] == s.t.beats[i]; }
  }

  /**
   An exception that reaches main decides what is saved: BLOCKED for one it catches, unless the report says FAIL, and
   INTERRUPTED for a subprocess that timed out and for an interrupt; any other leaves the status, but for a PASS that
   was not cleaned up.
  */
  lemma HandlerDecides(s: State, e: Exception)
    requires s.pc == Handling(e)
    ensures Enabled(s, Proceed) && Enabled(Next(s, Proceed), Proceed)
    ensures var n := Next(Next(s, Proceed), Proceed);
      && n.pc.Over? && n.log.saved != []
      && n.log.saved[|n.log.saved| - 1].status ==
           match e
           case Interrupt => Interrupted
           case TimedOut => Interrupted
           case Caught => if s.r.status == Failed then Failed else Blocked
           case Uncaught => if s.r.status == Passed && !s.r.cleanup then Interrupted else s.r.status
  {}

  /** A simulator run that nothing disturbs, by whether its receipt passed. */
  predicate SimulatorOnCourse(s: State, passed: Option<bool>) {
    && !s.r.device && !OfDevice(s.pc)
    && (s.pc.Preparing? || s.pc.Created? || s.pc.Simulating? ==>
          passed.None? && s.r.status == Interrupted && s.pending.None?)
    && (!(s.pc.Preparing? || s.pc.Created? || s.pc.Simulating?) ==> passed.Some?)
    && (passed.Some? && !s.pc.Over? ==> s.r.status == (if passed.value then Passed else Failed))
    && (s.pc.ShuttingDown? || s.pc.Deleting? || s.pc.Unlinking? ==>
          s.pending == if passed == Some(false) then Some(Caught) else None)
    && (s.pc.Handling? ==> s.pc.e == Caught && passed == Some(false))
    && (s.pc.Handling? || s.pc.Ending? ==> s.r.cleanup)
    && (s.pc.Over? ==> s.log.saved != []
                       && s.log.saved[|s.log.saved| - 1].status == if passed.value then Passed else Failed)
  }

  function ReceiptThen(a: Action, passed: Option<bool>): Option<bool> {
    if a.SimulatorReceipt? then Some(a.passed) else passed
  }

  function ReceiptOf(run: seq<Action>): Option<bool> {
    if run == [] then None else ReceiptThen(run[|run| - 1], ReceiptOf(run[..|run| - 1]))
  }

  lemma SimulatorStaysOnCourse(s: State, a: Action, passed: Option<bool>)
    requires SimulatorOnCourse(s, passed) && Enabled(s, a) && Undisturbed(a)
    ensures SimulatorOnCourse(Next(s, a), ReceiptThen(a, passed))
  {}

  lemma {:induction false} AlwaysOnCourse(run: seq<Action>)
    requires Possible(Init(false), run) && forall i :: 0 <= i < |run| ==> Undisturbed(run[i])
    ensures SimulatorOnCourse(After(Init(false), run), ReceiptOf(run))
  {
    if run == [] {
    } else {
      var rest := run[..|run| - 1];
      assert forall i :: 0 <= i < |rest| ==> rest[i] == run[i];
      AlwaysOnCourse(rest);
      SimulatorStaysOnCourse(After(Init(false), rest), run[|run| - 1], ReceiptOf(rest));
    }
  }

  /** A simulator run that nothing disturbs is saved as PASS exactly when its receipt passed, and as FAIL otherwise. */
  lemma UndisturbedSimulator(run: seq<Action>)
    requires Possible(Init(false), run) && forall i :: 0 <= i < |run| ==> Undisturbed(run[i])
    requires After(Init(false), run).pc.Over?
    ensures var s := After(Init(false), run);
      && ReceiptOf(run).Some? && s.log.saved != []
      && s.log.saved[|s.log.saved| - 1].status == if ReceiptOf(run).value then Passed else Failed
  {
    AlwaysOnCourse(run);
  }

  // ----- A second interrupt -----

  lemma Extend(s: State, run: seq<Action>, a: Action)
    requires Possible(s, run) && Enabled(After(s, run), a)
    ensures Possible(s, run + [a]) && After(s, run + [a]) == Next(After(s, run), a)
  {
    assert (run + [a])[..|run|] == run;
  }

  const CLEAN_RECEIPT := Receipt(true, [Mark(Connected, 0.0), Mark(ServerSelected, 1.0), Mark(DirectTraffic, 2.0),
                                        Mark(TunnelTraffic, 9.0), Mark(CleanedUp, 10.0)])

  lemma CleanReceipt(beat: Beat)
    requires beat == Beat(3.0, 4.0, true, true)
    ensures Accepted(CLEAN_RECEIPT) && Judge(false, CLEAN_RECEIPT, [beat]) == Passes && EndsClean(CLEAN_RECEIPT.steps)
  {
    var steps := CLEAN_RECEIPT.steps;
    assert steps[0].id == Connected && steps[1].id == ServerSelected && steps[2].id == DirectTraffic
           && steps[3].id == TunnelTraffic && steps[4].id == CleanedUp;
    TimeOfTraffic();
    assert Inside([beat][0], steps);
  }

  lemma TimeOfTraffic()
    ensures Has(CLEAN_RECEIPT.steps, Connected) && Has(CLEAN_RECEIPT.steps, TunnelTraffic)
    ensures TimeOf(CLEAN_RECEIPT.steps, Connected) == 0.0 && TimeOf(CLEAN_RECEIPT.steps, TunnelTraffic) == 9.0
  {
    var s := CLEAN_RECEIPT.steps;
    assert s[0].id == Connected && s[3].id == TunnelTraffic;
    assert s[1..][0] == s[1] && s[1..][1..][0] == s[2] && s[1..][1..][1..][0] == s[3];
    assert s[1..][2].id == TunnelTraffic && s[1..][1..][1].id == TunnelTraffic;
  }

  /** A device run whose verdict is PASS claims it in three statements. */
  lemma Claims(s: State)
    requires s.pc.Judging? && Judge(s.t.testFailed, s.t.receipt, s.t.beats) == Passes && EndsClean(s.t.receipt.steps)
    ensures Continue(s).pc.Passing? && Continue(Continue(s)).pc.Vouching?
    ensures Continue(Continue(Continue(s)))
         == s.(pc := Stopping, r := s.r.(cleanup := true, status := Passed, realVpn := true))
  {
    assert Continue(s) == s.(pc := Passing, r := s.r.(cleanup := true));
  }

  /** The first part of the run: the device passes with one live round trip. */
  lemma PassesWith(beat: Beat) returns (run: seq<Action>)
    requires beat == Beat(3.0, 4.0, true, true)
    ensures Possible(Init(true), run)
    ensures var s := After(Init(true), run);
      && s.pc.Stopping? && s.r.status == Passed && s.r.cleanup && s.r.device && s.r.trips == []
      && s.log.interrupts == 0
  {
    CleanReceipt(beat);
    var s := Init(true);
    Extend(s, [], Begin);
    Extend(s, [Begin], HeartBeat(beat));
    run := [Begin] + [HeartBeat(beat)];
    var testing := After(s, run);
    assert testing.t.beats == [beat];
    Extend(s, run, DeviceReceipt(CLEAN_RECEIPT, false));
    run := run + [DeviceReceipt(CLEAN_RECEIPT, false)];
    Claims(After(s, run));
    Extend(s, run, Proceed);
    Extend(s, run + [Proceed], Proceed);
    Extend(s, run + [Proceed] + [Proceed], Proceed);
    run := run + [Proceed] + [Proceed] + [Proceed];
  }

  /**
   Two interrupts in a row anywhere in the last finally block of a passing device run end in a saved PASS,
   and its round trips are gone unless they were recorded and none had failed.
  */
  lemma TwoInterrupts(s: State)
    requires s.r.device && s.r.status == Passed && s.r.cleanup
    requires s.pc.Stopping? || s.pc.Recording? || s.pc.Checking?
    requires if s.pc.Checking? then s.r.trips == s.t.beats && Alive(s.t.beats, s.r.steps) else s.r.trips == []
    ensures var n := Next(Next(s, Signal), Signal);
      var last := s.r.(ended := true);
      && n.pc.Ending? && n.log == s.log.(interrupts := s.log.interrupts + 2)
      && Next(n, Proceed).log == n.log.(saved := s.log.saved + [last])
      && (Backed(last) <==> s.pc.Checking? && Steady(s.t.beats))
  {
    assert Next(s, Signal).pc == Handling(Interrupt);
    assert !s.pc.Checking? ==> !Alive([], s.r.steps);
  }

  /** A run of two interrupts that loses the check: its PASS is saved without any round trip. */
  lemma SecondInterruptLosesTheCheck() returns (run: seq<Action>)
    ensures Possible(Init(true), run)
    ensures var s := After(Init(true), run);
      && s.log.interrupts == 2 && s.log.saved != []
      && s.log.saved[|s.log.saved| - 1].status == Passed && !Backed(s.log.saved[|s.log.saved| - 1])
  {
    var s := Init(true);
    run := PassesWith(Beat(3.0, 4.0, true, true));
    var passed := After(s, run);
    TwoInterrupts(passed);
    Extend(s, run, Signal);
    Extend(s, run + [Signal], Signal);
    Extend(s, run + [Signal] + [Signal], Proceed);
    run := run + [Signal] + [Signal] + [Proceed];
    assert After(s, run).log.saved == passed.log.saved + [passed.r.(ended := true)];
  }

  // ----- The object -----

  /** Run: the report in memory and what was saved of it. */
  class Run {
    var report: Report
    ghost var saved: seq<Report>

    constructor (device: bool)
      ensures report == Init(device).r && saved == Init(device).log.saved
    {
      report := Report(device, Interrupted, false, false, false, [], []);
      saved := [];
      new;
      Save();
    }

    method Save()
      modifies this`saved
      ensures saved == old(saved) + [Persisted(report)]
    {
      var snapshot := report;
      if snapshot.status == Passed && (!snapshot.cleanup || !snapshot.ended) {
        snapshot := snapshot.(status := Interrupted);
      }
      if snapshot.status != Passed {
        snapshot := snapshot.(realVpn := false);
      }
      saved := saved + [snapshot];
    }

    /** The verdict of device_run on an accepted receipt; a raised exception stands for Blocked. */
    method Conclude(testFailed: bool, receipt: Receipt, heartbeats: seq<Beat>) returns (raised: bool)
      modifies this`report
      ensures var r := old(report).(steps := receipt.steps, cleanup := EndsClean(receipt.steps));
        match Judge(testFailed, receipt, heartbeats)
        case Fails => !raised && report == r.(status := Failed)
        case Raises => raised && report == r
        case Unsteady => !raised && report == r.(status := Interrupted)
        case Passes => !raised && report == r.(status := Passed, realVpn := true)
    {
      raised := false;
      report := report.(steps := receipt.steps, cleanup := EndsClean(receipt.steps));
      if testFailed || !receipt.passed {
        report := report.(status := Failed);
        return;
      }
      if !(Has(receipt.steps, Connected) && Has(receipt.steps, ServerSelected) && Has(receipt.steps, DirectTraffic)
           && Has(receipt.steps, TunnelTraffic) && Has(receipt.steps, CleanedUp)) {
        return true;
      }
      var connected := FirstTime(receipt.steps, Connected);
      var traffic := FirstTime(receipt.steps, TunnelTraffic);
      var live, steady := false, true;
      for i := 0 to |heartbeats|
        invariant live <==> exists j :: 0 <= j < i && Inside(heartbeats[j], receipt.steps)
        invariant steady <==> forall j :: 0 <= j < i ==> heartbeats[j].ok
      {
        var h := heartbeats[i];
        if h.ok && h.tunnel && h.started >= connected && h.ended <= traffic { live := true; }
        if !h.ok { steady := false; }
      }
      if !live { return true; }
      if !steady {
        report := report.(status := Interrupted);
        return;
      }
      report := report.(cleanup := EndsClean(receipt.steps), status := Passed, realVpn := true);
    }

    method FirstTime(steps: seq<Mark>, id: MarkId) returns (time: real)
      requires Has(steps, id)
      ensures time == TimeOf(steps, id)
    {
      var i := 0;
      while steps[i].id != id
        invariant i < |steps| && Has(steps[i..], id) && TimeOf(steps, id) == TimeOf(steps[i..], id)
        decreases |steps| - i
      {
        assert steps[i..][1..] == steps[i + 1..];
        var k :| 0 <= k < |steps[i..]| && steps[i..][k].id == id;
        assert steps[i + 1..][k - 1].id == id;
        i := i + 1;
      }
      time := steps[i].time;
    }
  }
}
