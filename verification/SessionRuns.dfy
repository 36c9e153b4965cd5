/**
 Whole runs of a WebSocket session: the mutex sections of SessionCore interleaved in any order with what
 the threads do between them and with what WinHTTP is trusted to do.

 Nothing is assumed of WinHTTP but this: a completion arrives only for an operation that was issued and is
 still outstanding; the response headers arrive at most once for each request sent; HANDLE_CLOSING arrives
 once for a closed handle, after every other callback on that handle has returned.
*/
module SessionRuns {
  import opened Options
  import opened SessionCore

  // ----- States -----

  datatype Which = Request | WebSocket

  /** A WinHTTP handle: the threads about to close it, how often it was closed, and its callbacks still running. */
  datatype Handle = Handle(created: bool, closing: nat, closes: nat, gone: bool, running: nat)

  /** Request sent without response headers so far, and the threads at each stage of OnHeadersAvailable. */
  datatype Upgrade = Upgrade(due: nat, entered: nat, made: nat, counted: nat)

  /**
   The atomic counter and flag, the threads about to enter MaybeErase, those in it about to erase the session, and
   the registry's entry.
  */
  datatype Life = Life(openHandles: int, released: bool, owed: nat, erasing: nat, registered: bool)

  datatype Outer = Connect | Internet

  /**
   connect_ or internet_: whether the field is set, the threads of MaybeErase about to look at it, about to
   close it, and about to clear it, and how often it was closed.
  */
  datatype Parent = Parent(held: bool, looking: nat, seen: nat, closed: nat, closes: nat)

  /** The threads about to enter StartCurrentSend and about to call WinHttpWebSocketSend, and the sends outstanding. */
  datatype Sending = Sending(starting: nat, issuing: seq<Message>, flying: seq<Message>, stuck: seq<Message>,
                             accepted: seq<Message>, handed: seq<Message>, completed: seq<Message>)

  datatype Closing = Closing(starting: nat, issuing: seq<Goodbye>, flying: nat, handed: seq<Goodbye>)

  datatype Receiving = Receiving(starting: nat, issuing: nat, flying: nat, lost: nat, frames: seq<Frame>)

  datatype State = State(c: Core, req: Handle, ws: Handle, up: Upgrade, life: Life, connect: Parent, internet: Parent,
                         tx: Sending, sh: Closing, rx: Receiving)

  /** Start has set the counter to one and called WinHttpSendRequest, with or without success. */
  ghost predicate Init(s: State) {
    && s.c.link == Link(true, false, false)
    && s.c.out == Outgoing([], 0, false, false, None, Goodbye(NORMAL_CLOSE, []), false)
    && !s.c.inc.receiving && s.c.inc.buffer == [] && !s.c.inc.binary
    && s.c.ev == Events([], 0, 0, [], []) && !s.c.terminal
    && s.req == Handle(true, 0, 0, false, 0) && s.ws == Handle(false, 0, 0, false, 0)
    && s.up.due <= 1 && s.up == Upgrade(s.up.due, 0, 0, 0)
    && s.life == Life(1, false, 0, 0, true)
    && s.connect == Parent(true, 0, 0, 0, 0) && s.internet == Parent(true, 0, 0, 0, 0)
    && s.tx == Sending(0, [], [], [], [], [], []) && s.sh == Closing(0, [], 0, []) && s.rx == Receiving(0, 0, 0, 0, [])
  }

  // ----- Steps -----

  datatype Action =
    | CallbackStarts(h: Which) | CallbackReturns(h: Which) | HandleClosing(h: Which) | CloseHandle(h: Which)
    | Release | TestErase | LookAt(o: Outer) | CloseOuter(o: Outer) | ClearOuter(o: Outer) | Erase
    | HeadersArrive | HeadersRejected | RequestAgain
    | UpgradeMade | UpgradeCounted | UpgradeRefused | UpgradeDone(now: int)
    | Fail | Abort
    | QueueSend(payload: Message) | StartSend | IssueSend(ok: bool) | WriteComplete
    | RequestClose(code: nat, reason: Bytes, deadline: int) | StartShutdown | IssueShutdown(ok: bool) | ShutdownComplete
    | StartReceive | IssueReceive(ok: bool) | ReadComplete(frame: Frame, now: int) | ReadUnusable
    | CheckDeadlines(now: int) | Pop(capacity: nat)

  function One(b: bool): nat {
    if b then 1 else 0
  }

  function Of(s: State, h: Which): Handle {
    if h.Request? then s.req else s.ws
  }

  function With(s: State, h: Which, handle: Handle): State {
    if h.Request? then s.(req := handle) else s.(ws := handle)
  }

  function OuterOf(s: State, o: Outer): Parent {
    if o.Connect? then s.connect else s.internet
  }

  function WithOuter(s: State, o: Outer, p: Parent): State {
    if o.Connect? then s.(connect := p) else s.(internet := p)
  }

  /** A thread of MaybeErase goes on: from connect_ to internet_, and from there to erasing the session. */
  function PassOn(s: State, o: Outer): State {
    if o.Connect? then s.(internet := s.internet.(looking := s.internet.looking + 1))
    else s.(life := s.life.(erasing := s.life.erasing + 1))
  }

  function Plus(h: Handle, taken: bool): Handle {
    if taken then h.(closing := h.closing + 1) else h
  }

  /** The callbacks on a handle that are inside OnHeadersAvailable. */
  function Busy(s: State, h: Which): nat {
    if h.Request? then s.up.entered + s.up.made + s.up.counted else 0
  }

  predicate Enabled(s: State, a: Action) {
    match a
    case CallbackStarts(h) => Of(s, h).created && !Of(s, h).gone
    case CallbackReturns(h) => Of(s, h).running > Busy(s, h)
    case HandleClosing(h) => Of(s, h).closes > 0 && !Of(s, h).gone && Of(s, h).running == 0
    case CloseHandle(h) => Of(s, h).closing > 0
    case TestErase => s.life.owed > 0
    case LookAt(o) => OuterOf(s, o).looking > 0
    case CloseOuter(o) => OuterOf(s, o).seen > 0
    case ClearOuter(o) => OuterOf(s, o).closed > 0
    case Erase => s.life.erasing > 0
    case HeadersArrive => s.up.due > 0 && !s.req.gone
    case HeadersRejected => s.up.entered > 0
    case RequestAgain => s.up.entered > 0
    case UpgradeMade => s.up.entered > 0
    case UpgradeCounted => s.up.made > 0
    case UpgradeRefused => s.up.counted > 0
    case UpgradeDone(_) => s.up.counted > 0
    case Abort => s.c.terminal
    case StartSend => s.tx.starting > 0
    case IssueSend(_) => s.tx.issuing != []
    case WriteComplete => s.tx.flying != [] && s.ws.running > 0
    case StartShutdown => s.sh.starting > 0
    case IssueShutdown(_) => s.sh.issuing != []
    case ShutdownComplete => s.sh.flying > 0 && s.ws.running > 0
    case StartReceive => s.rx.starting > 0
    case IssueReceive(_) => s.rx.issuing > 0
    case ReadComplete(_, _) => s.rx.flying > 0 && s.ws.running > 0
    case ReadUnusable => s.rx.flying > 0 && s.ws.running > 0
    case _ => true
  }

  /** The steps of callbacks and of closing the request and the websocket. */
  function HandleNext(s: State, a: Action): State
    requires Enabled(s, a)
  {
    match a
    case CallbackStarts(h) => With(s, h, Of(s, h).(running := Of(s, h).running + 1))
    case CallbackReturns(h) => With(s, h, Of(s, h).(running := Of(s, h).running - 1))
    case HandleClosing(h) =>
      With(s, h, Of(s, h).(gone := true)).(
        life := s.life.(openHandles := s.life.openHandles - 1, owed := s.life.owed + One(s.life.openHandles == 1)))
    case CloseHandle(h) => With(s, h, Of(s, h).(closing := Of(s, h).closing - 1, closes := Of(s, h).closes + 1))
    case _ => s
  }

  /** The steps of Release and MaybeErase. */
  function EraseNext(s: State, a: Action): State
    requires Enabled(s, a)
  {
    match a
    case Release => s.(life := s.life.(released := true, owed := s.life.owed + 1))
    case TestErase =>
      var life := s.life.(owed := s.life.owed - 1);
      if s.life.released && s.life.openHandles == 0 then
        s.(life := life, connect := s.connect.(looking := s.connect.looking + 1))
      else s.(life := life)
    case LookAt(o) =>
      var p := OuterOf(s, o);
      var left := p.(looking := p.looking - 1);
      if p.held then WithOuter(s, o, left.(seen := p.seen + 1)) else PassOn(WithOuter(s, o, left), o)
    case CloseOuter(o) =>
      var p := OuterOf(s, o);
      WithOuter(s, o, p.(seen := p.seen - 1, closed := p.closed + 1, closes := p.closes + 1))
    case ClearOuter(o) =>
      var p := OuterOf(s, o);
      PassOn(WithOuter(s, o, p.(closed := p.closed - 1, held := false)), o)
    case Erase => s.(life := s.life.(erasing := s.life.erasing - 1, registered := false))
    case _ => s
  }

  /** The steps from the response headers to the upgrade, and the end of the session. */
  function UpgradeNext(s: State, a: Action): State
    requires Enabled(s, a)
  {
    match a
    case HeadersArrive =>
      s.(req := s.req.(running := s.req.running + 1),
         up := s.up.(due := s.up.due - 1, entered := s.up.entered + if s.c.terminal then 0 else 1))
    case HeadersRejected => s.(up := s.up.(entered := s.up.entered - 1))
    case RequestAgain => s.(up := s.up.(entered := s.up.entered - 1, due := s.up.due + 1))
    case UpgradeMade =>
      s.(up := s.up.(entered := s.up.entered - 1, made := s.up.made + 1), ws := s.ws.(created := true))
    case UpgradeCounted =>
      s.(up := s.up.(made := s.up.made - 1, counted := s.up.counted + 1),
         life := s.life.(openHandles := s.life.openHandles + 1))
    case UpgradeRefused =>
      s.(up := s.up.(counted := s.up.counted - 1), ws := Plus(s.ws, true))
    case UpgradeDone(now) =>
      var (c, tookRequest, ended) := UpgradeSection(s.c, now);
      s.(c := c, up := s.up.(counted := s.up.counted - 1), req := Plus(s.req, tookRequest), ws := Plus(s.ws, ended),
         rx := if ended then s.rx else s.rx.(starting := s.rx.starting + 1))
    case Fail => s.(c := FailSection(s.c))
    case Abort =>
      s.(c := AbortSection(s.c), req := Plus(s.req, s.c.link.request), ws := Plus(s.ws, s.c.link.websocket),
         life := s.life.(owed := s.life.owed + One(!s.c.link.request && !s.c.link.websocket)))
    case CheckDeadlines(now) => s.(c := DeadlineSection(s.c, now).0)
    case Pop(capacity) => s.(c := PopSection(s.c, capacity).0)
    case _ => s
  }

  /** The steps of sends and of the shutdown. */
  function SendNext(s: State, a: Action): State
    requires Enabled(s, a)
  {
    match a
    case QueueSend(payload) =>
      var (c, queued) := QueueSection(s.c, payload);
      if queued.Refused? then s.(c := c)
      else s.(c := c, tx := s.tx.(accepted := s.tx.accepted + [payload],
                                  starting := s.tx.starting + if queued.start then 1 else 0))
    case StartSend =>
      var (c, data) := SendSection(s.c);
      s.(c := c, tx := s.tx.(starting := s.tx.starting - 1,
                             issuing := if data.None? then s.tx.issuing else s.tx.issuing + [data.value]))
    case IssueSend(ok) =>
      var data := [s.tx.issuing[0]];
      s.(tx := s.tx.(issuing := s.tx.issuing[1..], handed := s.tx.handed + data,
                     flying := if ok then s.tx.flying + data else s.tx.flying,
                     stuck := if ok then s.tx.stuck else s.tx.stuck + data))
    case WriteComplete =>
      var (c, next, shutdown) := WrittenSection(s.c);
      s.(c := c,
         tx := s.tx.(flying := s.tx.flying[1..], completed := s.tx.completed + [s.tx.flying[0]],
                     starting := s.tx.starting + if next then 1 else 0),
         sh := s.sh.(starting := s.sh.starting + if shutdown then 1 else 0))
    case RequestClose(code, reason, deadline) =>
      var (c, asked) := CloseSection(s.c, code, reason, deadline);
      s.(c := c, sh := s.sh.(starting := s.sh.starting + if asked == Accepted(true) then 1 else 0))
    case StartShutdown =>
      var goodbye := ShutdownSection(s.c);
      s.(sh := s.sh.(starting := s.sh.starting - 1,
                     issuing := if goodbye.None? then s.sh.issuing else s.sh.issuing + [goodbye.value]))
    case IssueShutdown(ok) =>
      s.(sh := s.sh.(issuing := s.sh.issuing[1..], handed := s.sh.handed + [s.sh.issuing[0]],
                     flying := s.sh.flying + if ok then 1 else 0))
    case ShutdownComplete =>
      s.(c := s.c.(out := s.c.out.(shutting := false)), sh := s.sh.(flying := s.sh.flying - 1))
    case _ => s
  }

  /** The steps of receives. */
  function ReceiveNext(s: State, a: Action): State
    requires Enabled(s, a)
  {
    match a
    case StartReceive =>
      var (c, start) := ReceiveSection(s.c);
      s.(c := c, rx := s.rx.(starting := s.rx.starting - 1, issuing := s.rx.issuing + if start then 1 else 0))
    case IssueReceive(ok) =>
      if ok then s.(rx := s.rx.(issuing := s.rx.issuing - 1, flying := s.rx.flying + 1))
      else s.(c := s.c.(inc := s.c.inc.(receiving := false)), rx := s.rx.(issuing := s.rx.issuing - 1))
    case ReadComplete(f, now) =>
      var (c, again) := ReadSection(s.c, f, now);
      s.(c := c, rx := s.rx.(flying := s.rx.flying - 1, starting := s.rx.starting + if again then 1 else 0,
                             frames := s.rx.frames + [f]))
    case ReadUnusable => s.(rx := s.rx.(flying := s.rx.flying - 1, lost := s.rx.lost + 1))
    case _ => s
  }

  predicate OnHandles(a: Action) {
    a.CallbackStarts? || a.CallbackReturns? || a.HandleClosing? || a.CloseHandle?
  }

  predicate OnErase(a: Action) {
    a.Release? || a.TestErase? || a.LookAt? || a.CloseOuter? || a.ClearOuter? || a.Erase?
  }

  predicate OnSends(a: Action) {
    || a.QueueSend? || a.StartSend? || a.IssueSend? || a.WriteComplete?
    || a.RequestClose? || a.StartShutdown? || a.IssueShutdown? || a.ShutdownComplete?
  }

  predicate OnReceives(a: Action) {
    a.StartReceive? || a.IssueReceive? || a.ReadComplete? || a.ReadUnusable?
  }

  predicate OnUpgrade(a: Action) {
    !OnHandles(a) && !OnErase(a) && !OnSends(a) && !OnReceives(a)
  }

  function Next(s: State, a: Action): State
    requires Enabled(s, a)
  {
    if OnHandles(a) then HandleNext(s, a)
    else if OnErase(a) then EraseNext(s, a)
    else if OnSends(a) then SendNext(s, a)
    else if OnReceives(a) then ReceiveNext(s, a)
    else UpgradeNext(s, a)
  }

  ghost predicate Possible(s: State, run: seq<Action>)
    decreases |run|, 0
  {
    run == [] || (Possible(s, run[..|run| - 1]) && Enabled(After(s, run[..|run| - 1]), run[|run| - 1]))
  }

  ghost function After(s: State, run: seq<Action>): State
    requires Possible(s, run)
    decreases |run|, 1
  {
    if run == [] then s else Next(After(s, run[..|run| - 1]), run[|run| - 1])
  }

  // ----- What every state keeps -----

  /** A created handle is in its field, or in the hands of a thread about to close it, or closed once. */
  predicate HandleOk(h: Handle, held: nat) {
    && held + h.closing + h.closes == One(h.created)
    && (h.running > 0 ==> h.created && !h.gone)
    && (h.gone ==> h.closes > 0)
  }

  function Live(h: Handle): nat {
    One(h.created && !h.gone)
  }

  /** The threads inside MaybeErase that have passed its test. */
  function Erasing(s: State): nat {
    s.connect.looking + s.connect.seen + s.connect.closed + s.internet.looking + s.internet.seen + s.internet.closed
    + s.life.erasing
  }

  predicate HandlesOk(s: State) {
    && HandleOk(s.req, One(s.c.link.request))
    && HandleOk(s.ws, One(s.c.link.websocket) + s.up.made + s.up.counted)
    && s.req.created
    && s.up.due + s.up.entered + s.up.made + s.up.counted <= 1
    && (s.ws.created ==> s.up.due == s.up.entered == 0)
    && s.req.running >= s.up.entered + s.up.made + s.up.counted
    && s.life.openHandles + s.up.made == Live(s.req) + Live(s.ws)
    && (s.life.released && s.life.openHandles == 0 && s.life.registered ==> s.life.owed + Erasing(s) > 0)
    && (Erasing(s) > 0 || !s.life.registered ==> s.life.openHandles == 0 && s.life.released)
  }

  predicate FlagsOk(s: State) {
    && (s.c.link.websocket ==> s.c.link.connected)
    && (s.c.link.connected && !s.c.terminal ==> s.c.link.websocket)
    && (s.c.link.connected ==> s.ws.created && s.up.made == s.up.counted == 0)
    && (!s.c.link.connected ==> 
          && s.rx.starting + s.rx.issuing + s.rx.flying + s.rx.lost == 0 && s.rx.frames == []
          && s.c.out.sends == [] && s.tx.accepted == [] && !s.c.out.writing)
  }

  /** The payload with some thread or operation, if any, is the first one queued. */
  predicate First(some: seq<Message>, sends: seq<Message>) {
    some != [] ==> sends != [] && some == [sends[0]]
  }

  predicate SendsOk(out: Outgoing, tx: Sending, terminal: bool) {
    && tx.starting + |tx.issuing| + |tx.flying| + |tx.stuck| == One(out.writing)
    && tx.accepted == tx.completed + out.sends
    && tx.handed == tx.completed + tx.flying + tx.stuck
    && First(tx.issuing, out.sends) && First(tx.flying, out.sends) && First(tx.stuck, out.sends)
    && out.bytes == TotalBytes(out.sends) <= MAX_SEND_BYTES && |out.sends| <= MAX_SENDS
    && (!out.writing && !terminal ==> out.sends == [])
  }

  predicate SendingOk(s: State) {
    SendsOk(s.c.out, s.tx, s.c.terminal)
  }

  predicate ClosingOk(s: State) {
    && s.sh.starting + |s.sh.issuing| + s.sh.flying <= One(s.c.out.shutting)
    && (s.c.out.shutting || s.sh.handed != [] ==>
          s.c.link.connected && s.c.out.closing && s.c.out.sends == [] && !s.c.out.writing)
  }

  predicate ReceivingOk(s: State) {
    && s.rx.issuing + s.rx.flying + s.rx.lost == One(s.c.inc.receiving)
    && s.rx.starting + s.rx.issuing + s.rx.flying + s.rx.lost <= 1
    && |s.c.inc.buffer| <= MAX_MESSAGE
  }

  // ----- Events -----

  predicate Carries(e: Event) {
    e.kind == TextMessage || e.kind == BinaryMessage
  }

  /** Connected (Text | Binary)*, or nothing. */
  predicate Open(p: seq<Event>) {
    p == [] || (p[0].kind == Connected && forall i :: 0 < i < |p| ==> Carries(p[i]))
  }

  /** (Connected (Text | Binary)*)? (Error | Close) */
  predicate Ended(p: seq<Event>) {
    p != [] && Open(p[..|p| - 1]) && (p[|p| - 1].kind == Failed || (p[|p| - 1].kind == Closed && |p| > 1))
  }

  predicate Numbered(p: seq<Event>) {
    forall i :: 0 <= i < |p| ==> p[i].sequence == i + 1
  }

  /** Every event pushed was delivered or is still queued. */
  predicate NoGap(e: Events) {
    e.delivered + e.queue == e.pushed
  }

  /** All that is missing comes after the first k events and before the last one, which is an error. */
  predicate GapAt(e: Events, k: nat) {
    && k < |e.pushed| && e.pushed[|e.pushed| - 1].kind == Failed
    && e.delivered + e.queue == e.pushed[..k] + [e.pushed[|e.pushed| - 1]]
  }

  ghost predicate InOrder(e: Events, connected: bool, terminal: bool) {
    && e.sequence == |e.pushed| && Numbered(e.pushed)
    && |e.queue| <= MAX_EVENTS && e.bytes == PayloadBytes(e.queue) <= MAX_EVENT_BYTES
    && (NoGap(e) || (terminal && exists k: nat :: GapAt(e, k)))
    && (!terminal ==> Open(e.pushed) && (connected <==> e.pushed != []))
    && (terminal ==> Open(e.pushed) || Ended(e.pushed))
  }

  ghost predicate EventsOk(c: Core) {
    InOrder(c.ev, c.link.connected, c.terminal)
  }

  // ----- Messages -----

  function Contents(p: seq<Event>): seq<(bool, Bytes)> {
    seq(if p == [] then 0 else |p| - 1,
        i requires 0 <= i < |p| - 1 => (p[i + 1].kind == BinaryMessage, p[i + 1].payload))
  }

  /** The messages pushed and the buffer are those that the frames received make up. */
  predicate MadeUp(frames: seq<Frame>, inc: Incoming, pushed: seq<Event>) {
    var f := Feed(Fed([], [], false, true), frames);
    f.ok && f.buffer == inc.buffer && f.binary == inc.binary && f.messages == Contents(pushed)
  }

  predicate MessagesOk(s: State) {
    !s.c.terminal ==> MadeUp(s.rx.frames, s.c.inc, s.c.ev.pushed)
  }

  /** Handles, threads, flags and outgoing payloads. */
  predicate Running(s: State) {
    HandlesOk(s) && FlagsOk(s) && SendingOk(s) && ClosingOk(s) && ReceivingOk(s)
  }

  /** The history of events and messages. */
  ghost predicate Told(s: State) {
    EventsOk(s.c) && MessagesOk(s)
  }

  // ----- Every step keeps it -----

  predicate SameThreads(s: State, n: State) {
    && n.req == s.req && n.ws == s.ws && n.up == s.up && n.life == s.life
    && n.connect == s.connect && n.internet == s.internet
  }

  lemma SendFrame(s: State, a: Action)
    requires Enabled(s, a) && OnSends(a)
    ensures var n := SendNext(s, a);
      && SameThreads(s, n) && n.rx == s.rx && n.c == s.c.(out := n.c.out)
  {
  }

  lemma ReadFrame(c: Core, f: Frame, now: int)
    ensures var (n, again) := ReadSection(c, f, now);
      && n.link == c.link && n.out == c.out && !n.inc.receiving
      && (c.terminal ==> n.terminal) && (again ==> !n.terminal)
      && (|c.inc.buffer| <= MAX_MESSAGE ==> |n.inc.buffer| <= MAX_MESSAGE)
  {
  }

  lemma ReceiveFrame(s: State, a: Action)
    requires Enabled(s, a) && OnReceives(a)
    ensures var n := ReceiveNext(s, a);
      && SameThreads(s, n) && n.tx == s.tx && n.sh == s.sh
      && n.c.link == s.c.link && n.c.out == s.c.out && (s.c.terminal ==> n.c.terminal)
  {
    if a.ReadComplete? { ReadFrame(s.c, a.frame, a.now); }
  }

  lemma UpgradeFrame(s: State, a: Action)
    requires Enabled(s, a) && OnUpgrade(a)
    ensures var n := UpgradeNext(s, a);
      && n.tx == s.tx && n.sh == s.sh && n.rx == s.rx.(starting := n.rx.starting)
      && n.connect == s.connect && n.internet == s.internet
      && n.c.out == s.c.out && n.c.inc == s.c.inc.(lastActivity := n.c.inc.lastActivity)
      && (s.c.terminal ==> n.c.terminal) && (s.c.link.connected ==> n.c.link.connected)
  {
  }

  lemma HandleFrame(s: State, a: Action)
    requires Enabled(s, a) && OnHandles(a)
    ensures var n := HandleNext(s, a);
      n == s.(req := n.req, ws := n.ws, life := n.life) && n.ws.created == s.ws.created
  {
  }

  lemma EraseFrame(s: State, a: Action)
    requires Enabled(s, a) && OnErase(a)
    ensures var n := EraseNext(s, a);
      n == s.(life := n.life, connect := n.connect, internet := n.internet)
  {
  }

  // The same for Next, group by group.

  lemma QuietStep(s: State, a: Action)
    requires Enabled(s, a) && (OnHandles(a) || OnErase(a))
    ensures var n := Next(s, a);
      && n == (if OnHandles(a) then HandleNext(s, a) else EraseNext(s, a))
      && n.c == s.c && n.up == s.up && n.tx == s.tx && n.sh == s.sh && n.rx == s.rx
  {
    if OnHandles(a) { HandleFrame(s, a); } else { EraseFrame(s, a); }
  }

  lemma SentStep(s: State, a: Action)
    requires Enabled(s, a) && OnSends(a)
    ensures var n := Next(s, a);
      && n == SendNext(s, a) && SameThreads(s, n) && n.rx == s.rx && n.c == s.c.(out := n.c.out)
  {
    SendFrame(s, a);
  }

  lemma ReceivedStep(s: State, a: Action)
    requires Enabled(s, a) && OnReceives(a)
    ensures var n := Next(s, a);
      && n == ReceiveNext(s, a) && SameThreads(s, n) && n.tx == s.tx && n.sh == s.sh
      && n.c.link == s.c.link && n.c.out == s.c.out && (s.c.terminal ==> n.c.terminal)
  {
    ReceiveFrame(s, a);
  }

  lemma UpgradedStep(s: State, a: Action)
    requires Enabled(s, a) && OnUpgrade(a)
    ensures var n := Next(s, a);
      && n == UpgradeNext(s, a) && n.tx == s.tx && n.sh == s.sh && n.connect == s.connect && n.internet == s.internet
      && n.c.out == s.c.out && (s.c.terminal ==> n.c.terminal)
  {
    UpgradeFrame(s, a);
  }

  lemma HandlesOnHandles(s: State, a: Action)
    requires HandlesOk(s) && Enabled(s, a) && OnHandles(a)
    ensures HandlesOk(HandleNext(s, a))
  {
  }

  lemma HandlesOnErase(s: State, a: Action)
    requires HandlesOk(s) && Enabled(s, a) && OnErase(a)
    ensures HandlesOk(EraseNext(s, a))
  {
  }

  lemma HandlesOnHeaders(s: State, a: Action)
    requires HandlesOk(s) && FlagsOk(s) && Enabled(s, a) && !a.UpgradeDone?
    requires a.HeadersArrive? || a.HeadersRejected? || a.RequestAgain? || a.UpgradeMade? || a.UpgradeCounted?
             || a.UpgradeRefused?
    ensures HandlesOk(UpgradeNext(s, a))
  {
  }

  lemma HandlesOnDone(s: State, now: int)
    requires HandlesOk(s) && FlagsOk(s) && Enabled(s, UpgradeDone(now))
    ensures HandlesOk(UpgradeNext(s, UpgradeDone(now)))
  {
  }

  lemma HandlesOnEnd(s: State, a: Action)
    requires HandlesOk(s) && Enabled(s, a) && (a.Fail? || a.Abort? || a.CheckDeadlines? || a.Pop?)
    ensures HandlesOk(UpgradeNext(s, a))
  {
  }

  lemma HandlesOnUpgrade(s: State, a: Action)
    requires HandlesOk(s) && FlagsOk(s) && Enabled(s, a) && OnUpgrade(a)
    ensures HandlesOk(UpgradeNext(s, a))
  {
    if a.UpgradeDone? { HandlesOnDone(s, a.now); }
    else if a.Fail? || a.Abort? || a.CheckDeadlines? || a.Pop? { HandlesOnEnd(s, a); }
    else { HandlesOnHeaders(s, a); }
  }

  lemma FlagsOnUpgrade(s: State, a: Action)
    requires HandlesOk(s) && FlagsOk(s) && Enabled(s, a) && OnUpgrade(a)
    ensures FlagsOk(UpgradeNext(s, a))
  {
  }

  lemma FlagsOnSends(s: State, a: Action)
    requires FlagsOk(s) && SendingOk(s) && Enabled(s, a) && OnSends(a)
    ensures FlagsOk(SendNext(s, a))
  {
    SendFrame(s, a);
  }

  lemma FlagsOnReceives(s: State, a: Action)
    requires FlagsOk(s) && Enabled(s, a) && OnReceives(a)
    ensures FlagsOk(ReceiveNext(s, a))
  {
    ReceiveFrame(s, a);
  }

  lemma SendingOnQueue(s: State, payload: Message)
    requires SendingOk(s)
    ensures SendingOk(SendNext(s, QueueSend(payload)))
  {
    TotalBytesAdd(s.c.out.sends, payload);
  }

  lemma SendingOnStart(s: State)
    requires FlagsOk(s) && SendingOk(s) && s.tx.starting > 0
    ensures SendingOk(SendNext(s, StartSend))
  {
  }

  lemma SendingOnIssue(s: State, ok: bool)
    requires SendingOk(s) && s.tx.issuing != []
    ensures SendingOk(SendNext(s, IssueSend(ok)))
  {
  }

  lemma SendingOnWritten(s: State)
    requires SendingOk(s) && Enabled(s, WriteComplete)
    ensures SendingOk(SendNext(s, WriteComplete))
  {
    TotalBytesFirst(s.c.out.sends);
    assert s.c.out.sends == s.tx.flying + s.c.out.sends[1..];
  }

  lemma SendingOnClose(s: State, a: Action)
    requires SendingOk(s) && Enabled(s, a)
    requires a.RequestClose? || a.StartShutdown? || a.IssueShutdown? || a.ShutdownComplete?
    ensures SendingOk(SendNext(s, a))
  {
    var n := SendNext(s, a);
    assert n.tx == s.tx && n.c.out.sends == s.c.out.sends && n.c.out.bytes == s.c.out.bytes;
  }

  lemma SendingOnSends(s: State, a: Action)
    requires FlagsOk(s) && SendingOk(s) && ClosingOk(s) && Enabled(s, a) && OnSends(a)
    ensures SendingOk(SendNext(s, a))
  {
    if a.QueueSend? { SendingOnQueue(s, a.payload); }
    else if a.IssueSend? { SendingOnIssue(s, a.ok); }
    else if a.WriteComplete? { SendingOnWritten(s); }
    else if a.StartSend? { SendingOnStart(s); }
    else { SendingOnClose(s, a); }
  }

  lemma ClosingOnClose(s: State, a: Action)
    requires FlagsOk(s) && SendingOk(s) && ClosingOk(s) && Enabled(s, a)
    requires a.RequestClose? || a.StartShutdown? || a.IssueShutdown? || a.ShutdownComplete?
    ensures ClosingOk(SendNext(s, a))
  {}

  lemma ClosingOnSend(s: State, a: Action)
    requires FlagsOk(s) && SendingOk(s) && ClosingOk(s) && Enabled(s, a)
    requires a.QueueSend? || a.StartSend? || a.IssueSend?
    ensures ClosingOk(SendNext(s, a))
  {}

  lemma ClosingOnWritten(s: State)
    requires FlagsOk(s) && SendingOk(s) && ClosingOk(s) && Enabled(s, WriteComplete)
    ensures ClosingOk(SendNext(s, WriteComplete))
  {
    assert s.c.out.writing;
  }

  lemma ClosingOnSends(s: State, a: Action)
    requires FlagsOk(s) && SendingOk(s) && ClosingOk(s) && Enabled(s, a) && OnSends(a)
    ensures ClosingOk(SendNext(s, a))
  {
    if a.WriteComplete? { ClosingOnWritten(s); }
    else if a.QueueSend? || a.StartSend? || a.IssueSend? { ClosingOnSend(s, a); }
    else { ClosingOnClose(s, a); }
  }

  lemma ReceivingOnReceives(s: State, a: Action)
    requires FlagsOk(s) && ReceivingOk(s) && Enabled(s, a) && OnReceives(a)
    ensures ReceivingOk(ReceiveNext(s, a))
  {
    if a.ReadComplete? { ReadFrame(s.c, a.frame, a.now); }
  }

  lemma ReceivingOnUpgrade(s: State, a: Action)
    requires HandlesOk(s) && FlagsOk(s) && ReceivingOk(s) && Enabled(s, a) && OnUpgrade(a)
    ensures ReceivingOk(UpgradeNext(s, a))
  {
  }

  /** An event in its place keeps the order of the history. */
  lemma Grows(p: seq<Event>, event: Event)
    requires Open(p) && (event.kind == Failed || (event.kind == Connected <==> p == []))
    ensures Carries(event) || event.kind == Connected ==> Open(p + [event])
    ensures event.kind == Failed || event.kind == Closed ==> Ended(p + [event])
  {
    assert (p + [event])[..|p|] == p;
  }

  predicate InPlace(c: Core, kind: EventType) {
    kind == Failed || (kind == Connected <==> !c.link.connected)
  }

  lemma PushFits(c: Core, kind: EventType, payload: Bytes)
    requires EventsOk(c) && !c.terminal && InPlace(c, kind) && !Full(c.ev, payload)
    ensures var n := Push(c.ev, kind, payload);
      && NoGap(n) && n.sequence == |n.pushed| && Numbered(n.pushed)
      && |n.queue| <= MAX_EVENTS && n.bytes == PayloadBytes(n.queue) <= MAX_EVENT_BYTES
      && (if kind == Failed || kind == Closed then Ended(n.pushed) else Open(n.pushed))
  {
    var e, n := c.ev, Push(c.ev, kind, payload);
    PayloadBytesAdd(e.queue, Event(kind, e.sequence + 1, payload));
    Grows(e.pushed, Event(kind, e.sequence + 1, payload));
  }

  lemma PushOverflows(c: Core, kind: EventType, payload: Bytes)
    requires EventsOk(c) && !c.terminal && Overflows(c.ev, kind, payload)
    ensures var n := Push(c.ev, kind, payload);
      && n.sequence == |n.pushed| && Numbered(n.pushed) && GapAt(n, |n.delivered|)
      && |n.queue| == 1 && n.bytes == PayloadBytes(n.queue) == 0 && Ended(n.pushed)
  {
    var e, n := c.ev, Push(c.ev, kind, payload);
    assert n.pushed[..|e.delivered|] == e.pushed[..|e.delivered|] == e.delivered;
    PushKeepsCounter(e, kind, payload);
    Grows(e.pushed, Event(Failed, e.sequence + 1, []));
  }

  /** A push in its place keeps the history in order, whether it fits or not. */
  lemma PushKeepsEvents(c: Core, kind: EventType, payload: Bytes)
    requires EventsOk(c) && !c.terminal && InPlace(c, kind) && (kind == Connected ==> payload == [])
    ensures var n := PushInto(c, kind, payload);
      if kind == Failed || kind == Closed then EventsOk(n.(terminal := true))
      else EventsOk(n.(link := c.link.(connected := true)))
  {
    if !Full(c.ev, payload) { PushFits(c, kind, payload); }
    else if kind != Failed {
      PushOverflows(c, kind, payload);
      assert kind == Connected ==> c.ev.queue == [];
    }
  }

  lemma EventsOnUpgrade(s: State, a: Action)
    requires HandlesOk(s) && FlagsOk(s) && EventsOk(s.c) && Enabled(s, a) && OnUpgrade(a)
    ensures EventsOk(UpgradeNext(s, a).c)
  {
    if !s.c.terminal {
      PushKeepsEvents(s.c, Failed, []);
      if a.UpgradeDone? { PushKeepsEvents(s.c, Connected, []); }
    }
    if a.Pop? { PopKeepsEvents(s.c, a.capacity); }
  }

  lemma PopKeepsEvents(c: Core, capacity: nat)
    requires EventsOk(c)
    ensures EventsOk(PopSection(c, capacity).0)
  {
    var e, n := c.ev, PopSection(c, capacity).0.ev;
    if n != e {
      PayloadBytesFirst(e.queue);
      assert n.delivered + n.queue == e.delivered + e.queue;
      if !NoGap(e) {
        var k: nat :| GapAt(e, k);
        assert GapAt(n, k);
      }
    }
  }

  lemma EventsOnReceives(s: State, a: Action)
    requires FlagsOk(s) && EventsOk(s.c) && Enabled(s, a) && OnReceives(a)
    ensures EventsOk(ReceiveNext(s, a).c)
  {
    if a.ReadComplete? && !s.c.terminal { ReadKeepsEvents(s.c, a.frame, a.now); }
  }

  lemma ReadKeepsEvents(c: Core, f: Frame, now: int)
    requires EventsOk(c) && !c.terminal && c.link.connected
    ensures EventsOk(ReadSection(c, f, now).0)
  {
    var n := ReadSection(c, f, now).0;
    if f.CloseFrame? { PushKeepsEvents(c, Closed, f.reason); }
    else {
      match Reassemble(c.inc.buffer, c.inc.binary, f)
      case Rejected => PushKeepsEvents(c, Failed, []);
      case More(_, _) =>
      case Whole(_, payload) => PushKeepsEvents(c, if f.binary then BinaryMessage else TextMessage, payload);
    }
  }

  lemma MessagesOnReceives(s: State, a: Action)
    requires FlagsOk(s) && EventsOk(s.c) && MessagesOk(s) && Enabled(s, a) && OnReceives(a)
    ensures MessagesOk(ReceiveNext(s, a))
  {
    if a.ReadComplete? && !s.c.terminal {
      var n := ReceiveNext(s, a);
      assert n.rx.frames[..|s.rx.frames|] == s.rx.frames;
      if !n.c.terminal {
        ReadMessages(s.c, a.frame, a.now);
      }
    }
  }

  /** What a frame that does not end the session does to the buffer and to the messages pushed. */
  lemma ReadMessages(c: Core, f: Frame, now: int)
    requires !c.terminal && c.ev.pushed != [] && !ReadSection(c, f, now).0.terminal
    ensures f.Data?
    ensures var n, r := ReadSection(c, f, now).0, Reassemble(c.inc.buffer, c.inc.binary, f);
      && !r.Rejected?
      && (r.More? ==> n.inc.buffer == r.buffer && n.inc.binary == r.binary && n.ev == c.ev)
      && (r.Whole? ==>
            n.inc.buffer == [] && n.inc.binary == r.binary
            && Contents(n.ev.pushed) == Contents(c.ev.pushed) + [(r.binary, r.payload)])
  {
    var n, r := ReadSection(c, f, now).0, Reassemble(c.inc.buffer, c.inc.binary, f);
    if f.Data? && r.Whole? {
      assert |n.ev.pushed| == |c.ev.pushed| + 1;
      assert Contents(n.ev.pushed) == Contents(c.ev.pushed) + [(r.binary, r.payload)];
    }
  }

  lemma MessagesOnUpgrade(s: State, a: Action)
    requires HandlesOk(s) && FlagsOk(s) && EventsOk(s.c) && MessagesOk(s)
    requires Enabled(s, a) && OnUpgrade(a)
    ensures MessagesOk(UpgradeNext(s, a))
  {
    var n := UpgradeNext(s, a);
    UpgradeFrame(s, a);
    if !n.c.terminal {
      if a.UpgradeDone? {
        assert Contents(n.c.ev.pushed) == [] == Contents(s.c.ev.pushed);
      } else {
        assert n.c.ev.pushed == s.c.ev.pushed;
      }
    }
  }

  lemma RunningOnHandles(s: State, a: Action)
    requires Running(s) && Enabled(s, a) && OnHandles(a)
    ensures Running(Next(s, a))
  {
    assert Next(s, a) == HandleNext(s, a);
    HandleFrame(s, a);
    HandlesOnHandles(s, a);
  }

  lemma RunningOnErase(s: State, a: Action)
    requires Running(s) && Enabled(s, a) && OnErase(a)
    ensures Running(Next(s, a))
  {
    assert Next(s, a) == EraseNext(s, a);
    EraseFrame(s, a);
    HandlesOnErase(s, a);
  }

  lemma RunningOnSends(s: State, a: Action)
    requires Running(s) && Enabled(s, a) && OnSends(a)
    ensures Running(Next(s, a))
  {
    assert Next(s, a) == SendNext(s, a);
    SendFrame(s, a);
    FlagsOnSends(s, a);
    SendingOnSends(s, a);
    ClosingOnSends(s, a);
  }

  lemma RunningOnReceives(s: State, a: Action)
    requires Running(s) && Enabled(s, a) && OnReceives(a)
    ensures Running(Next(s, a))
  {
    assert Next(s, a) == ReceiveNext(s, a);
    ReceiveFrame(s, a);
    FlagsOnReceives(s, a);
    ReceivingOnReceives(s, a);
  }

  lemma RunningOnUpgrade(s: State, a: Action)
    requires Running(s) && Enabled(s, a) && OnUpgrade(a)
    ensures Running(Next(s, a))
  {
    assert Next(s, a) == UpgradeNext(s, a);
    UpgradeFrame(s, a);
    HandlesOnUpgrade(s, a);
    FlagsOnUpgrade(s, a);
    ReceivingOnUpgrade(s, a);
  }

  lemma RunningStep(s: State, a: Action)
    requires Running(s) && Enabled(s, a)
    ensures Running(Next(s, a))
  {
    if OnHandles(a) { RunningOnHandles(s, a); }
    else if OnErase(a) { RunningOnErase(s, a); }
    else if OnSends(a) { RunningOnSends(s, a); }
    else if OnReceives(a) { RunningOnReceives(s, a); }
    else { RunningOnUpgrade(s, a); }
  }

  lemma ToldAsBefore(s: State, n: State)
    requires Told(s) && n.rx.frames == s.rx.frames && n.c == s.c.(out := n.c.out)
    ensures Told(n)
  {
  }

  lemma ToldOnReceives(s: State, a: Action)
    requires Running(s) && Told(s) && Enabled(s, a) && OnReceives(a)
    ensures Told(ReceiveNext(s, a))
  {
    EventsOnReceives(s, a);
    MessagesOnReceives(s, a);
  }

  lemma ToldOnUpgrade(s: State, a: Action)
    requires Running(s) && Told(s) && Enabled(s, a) && OnUpgrade(a)
    ensures Told(UpgradeNext(s, a))
  {
    EventsOnUpgrade(s, a);
    MessagesOnUpgrade(s, a);
  }

  lemma ToldStep(s: State, a: Action)
    requires Running(s) && Told(s) && Enabled(s, a)
    ensures Told(Next(s, a))
  {
    if OnReceives(a) {
      ReceivedStep(s, a);
      ToldOnReceives(s, a);
    } else if OnUpgrade(a) {
      UpgradedStep(s, a);
      ToldOnUpgrade(s, a);
    } else {
      if OnSends(a) { SentStep(s, a); } else { QuietStep(s, a); }
      ToldAsBefore(s, Next(s, a));
    }
  }

  // ----- What holds in every run -----

  lemma {:induction false} AlwaysRunning(s: State, run: seq<Action>)
    requires Init(s) && Possible(s, run)
    ensures Running(After(s, run))
  {
    if run == [] {
    } else {
      var before := After(s, run[..|run| - 1]);
      AlwaysRunning(s, run[..|run| - 1]);
      RunningStep(before, run[|run| - 1]);
      assert After(s, run) == Next(before, run[|run| - 1]);
    }
  }

  lemma {:induction false} AlwaysTold(s: State, run: seq<Action>)
    requires Init(s) && Possible(s, run)
    ensures Told(After(s, run))
  {
    if run == [] {
    } else {
      var before := After(s, run[..|run| - 1]);
      AlwaysRunning(s, run[..|run| - 1]);
      AlwaysTold(s, run[..|run| - 1]);
      ToldStep(before, run[|run| - 1]);
      assert After(s, run) == Next(before, run[|run| - 1]);
    }
  }

  lemma AlwaysEvents(s: State, run: seq<Action>)
    requires Init(s) && Possible(s, run)
    ensures EventsOk(After(s, run).c)
  {
    AlwaysTold(s, run);
  }

  lemma AlwaysHandles(s: State, run: seq<Action>)
    requires Init(s) && Possible(s, run)
    ensures HandlesOk(After(s, run))
  {
    AlwaysRunning(s, run);
  }

  lemma AlwaysSending(s: State, run: seq<Action>)
    requires Init(s) && Possible(s, run)
    ensures SendingOk(After(s, run))
  {
    AlwaysRunning(s, run);
  }

  /** The counter is the number of handles whose HANDLE_CLOSING is to come, but for a websocket not counted yet. */
  lemma CounterIsExact(s: State, run: seq<Action>)
    requires Init(s) && Possible(s, run)
    ensures var n := After(s, run);
      && n.life.openHandles == Live(n.req) + Live(n.ws) - n.up.made
      && n.up.made <= 1 && n.life.openHandles >= 0 && (n.life.openHandles == 0 ==> n.up.made == 0)
  {
    AlwaysHandles(s, run);
  }

  /** The callbacks that look the session up by its id. */
  predicate Callback(a: Action) {
    || a.CallbackStarts? || a.HandleClosing? || a.HeadersArrive? || a.WriteComplete? || a.ShutdownComplete?
    || a.ReadComplete? || a.ReadUnusable?
  }

  /** Every callback, HANDLE_CLOSING included, finds its session still registered. */
  lemma CallbacksFindTheirSession(s: State, run: seq<Action>, a: Action)
    requires Init(s) && Possible(s, run) && Enabled(After(s, run), a) && Callback(a)
    ensures After(s, run).life.registered
  {
    AlwaysHandles(s, run);
  }

  /** The session also outlives every callback it has let in, and nothing is left for its destructor to close. */
  lemma ErasedOnlyWhenDone(s: State, run: seq<Action>)
    requires Init(s) && Possible(s, run)
    ensures var n := After(s, run);
      !n.life.registered ==>
        && n.life.released && n.req.running == 0 && n.ws.running == 0
        && !n.c.link.request && !n.c.link.websocket && n.req.closing == 0 && n.ws.closing == 0
        && n.req.closes == 1 && n.ws.closes == One(n.ws.created)
  {
    AlwaysHandles(s, run);
  }

  /**
   Once no thread is inside MaybeErase or about to enter it, the session is erased exactly when it was released and
   every handle made for it is gone: the last of these always sends a thread there.
  */
  lemma ErasedExactly(s: State, run: seq<Action>)
    requires Init(s) && Possible(s, run)
    requires After(s, run).life.owed == 0 && Erasing(After(s, run)) == 0
    ensures var n := After(s, run); !n.life.registered <==> n.life.released && Live(n.req) + Live(n.ws) == 0
  {
    AlwaysHandles(s, run);
  }

  lemma ClosedAtMostOnce(s: State, run: seq<Action>)
    requires Init(s) && Possible(s, run)
    ensures var n := After(s, run);
      n.req.closing + n.req.closes <= 1 && n.ws.closing + n.ws.closes <= 1
  {
    AlwaysHandles(s, run);
  }

  lemma Prefix(out: Outgoing, tx: Sending, terminal: bool)
    requires SendsOk(out, tx, terminal)
    ensures tx.handed <= tx.accepted
  {
  }

  /** What WinHTTP is handed is what was accepted, in order, one at a time, and within the limits. */
  lemma HandedIsAPrefix(s: State, run: seq<Action>)
    requires Init(s) && Possible(s, run)
    ensures var n := After(s, run);
      && n.tx.handed <= n.tx.accepted
      && n.tx.starting + |n.tx.issuing| + |n.tx.flying| <= 1
      && n.tx.accepted == n.tx.completed + n.c.out.sends
      && n.c.out.bytes == TotalBytes(n.c.out.sends) <= MAX_SEND_BYTES && |n.c.out.sends| <= MAX_SENDS
  {
    AlwaysSending(s, run);
    Prefix(After(s, run).c.out, After(s, run).tx, After(s, run).c.terminal);
  }

  /** The payload about to be handed over or in flight is the first one queued, so its bytes stay where they are. */
  lemma InFlightIsQueued(s: State, run: seq<Action>)
    requires Init(s) && Possible(s, run)
    ensures var n := After(s, run);
      && (n.tx.issuing != [] ==> n.c.out.sends != [] && n.tx.issuing == [n.c.out.sends[0]])
      && (n.tx.flying != [] ==> n.c.out.sends != [] && n.tx.flying == [n.c.out.sends[0]])
  {
    AlwaysSending(s, run);
  }

  /** Nothing is accepted once a close was requested. */
  lemma ClosingAcceptsNothing(s: State, a: Action)
    requires Enabled(s, a) && s.c.out.closing
    ensures var n := Next(s, a); n.c.out.closing && n.tx.accepted == s.tx.accepted
  {
    if OnSends(a) {
      SentStep(s, a);
      NothingAccepted(s, a);
    } else if OnReceives(a) {
      ReceivedStep(s, a);
    } else if OnUpgrade(a) {
      UpgradedStep(s, a);
    } else {
      QuietStep(s, a);
    }
  }

  lemma NothingAccepted(s: State, a: Action)
    requires Enabled(s, a) && OnSends(a) && s.c.out.closing
    ensures var n := SendNext(s, a); n.c.out.closing && n.tx.accepted == s.tx.accepted
  {
  }

  lemma {:induction false} StillAcceptsNothing(s: State, run: seq<Action>, k: nat)
    requires Possible(s, run) && k <= |run| && Possible(s, run[..k]) && After(s, run[..k]).c.out.closing
    ensures After(s, run).c.out.closing && After(s, run).tx.accepted == After(s, run[..k]).tx.accepted
  {
    if k == |run| {
      assert run[..k] == run;
    } else {
      var front := run[..|run| - 1];
      assert front[..k] == run[..k];
      StillAcceptsNothing(s, front, k);
      ClosingAcceptsNothing(After(s, front), run[|run| - 1]);
    }
  }

  /** A shutdown goes out only after every payload ever accepted has completed, whatever happens afterwards. */
  lemma ShutdownComesLast(s: State, run: seq<Action>, k: nat)
    requires Init(s) && Possible(s, run) && k <= |run| && Possible(s, run[..k])
    requires After(s, run[..k]).sh.handed != []
    ensures var once, now := After(s, run[..k]), After(s, run);
      && once.tx.completed == once.tx.accepted && now.tx.accepted == once.tx.accepted && now.tx.handed == once.tx.handed
  {
    AlwaysRunning(s, run[..k]);
    AlwaysRunning(s, run);
    StillAcceptsNothing(s, run, k);
    StillShut(s, run, k);
  }

  lemma {:induction false} StillShut(s: State, run: seq<Action>, k: nat)
    requires Possible(s, run) && k <= |run| && Possible(s, run[..k])
    ensures After(s, run[..k]).sh.handed <= After(s, run).sh.handed
  {
    if k == |run| {
      assert run[..k] == run;
    } else {
      var front := run[..|run| - 1];
      assert front[..k] == run[..k];
      StillShut(s, front, k);
      HandedGrows(After(s, front), run[|run| - 1]);
    }
  }

  lemma HandedGrows(s: State, a: Action)
    requires Enabled(s, a)
    ensures s.sh.handed <= Next(s, a).sh.handed
  {
    if OnSends(a) {
      SentStep(s, a);
      HandedMore(s, a);
    } else if OnReceives(a) {
      ReceivedStep(s, a);
    } else if OnUpgrade(a) {
      UpgradedStep(s, a);
    } else {
      QuietStep(s, a);
    }
  }

  lemma HandedMore(s: State, a: Action)
    requires Enabled(s, a) && OnSends(a)
    ensures s.sh.handed <= SendNext(s, a).sh.handed
  {
  }

  lemma OneShutdownAtATime(s: State, run: seq<Action>)
    requires Init(s) && Possible(s, run)
    ensures var n := After(s, run); n.sh.starting + |n.sh.issuing| + n.sh.flying <= 1
  {
    AlwaysRunning(s, run);
  }

  /** After a shutdown was handed over, one more close request starts one more exactly when the first has completed. */
  lemma ClosingAgain(s: State, run: seq<Action>, code: nat, reason: Bytes, deadline: int)
    requires Init(s) && Possible(s, run) && After(s, run).sh.handed != [] && |reason| <= MAX_REASON
    requires !After(s, run).c.terminal
    ensures var n := After(s, run);
      Next(n, RequestClose(code, reason, deadline)).sh.starting == n.sh.starting + (if n.c.out.shutting then 0 else 1)
  {
    AlwaysRunning(s, run);
    var n, a := After(s, run), RequestClose(code, reason, deadline);
    assert Next(n, a) == SendNext(n, a);
  }

  /** At most one thread or operation owns the receive buffer, and no message outgrows its limit. */
  lemma OneReceiveAtATime(s: State, run: seq<Action>)
    requires Init(s) && Possible(s, run)
    ensures var n := After(s, run);
      && n.rx.issuing + n.rx.flying + n.rx.lost == One(n.c.inc.receiving)
      && |n.c.inc.buffer| <= MAX_MESSAGE
  {
    AlwaysRunning(s, run);
  }

  lemma HistoryMatches(s: State, run: seq<Action>)
    requires Init(s) && Possible(s, run)
    ensures var e := After(s, run).c.ev;
      && (if After(s, run).c.terminal then Open(e.pushed) || Ended(e.pushed) else Open(e.pushed))
      && |e.queue| <= MAX_EVENTS && e.bytes == PayloadBytes(e.queue) <= MAX_EVENT_BYTES
  {
    AlwaysTold(s, run);
  }

  /** An error goes unreported exactly when the queue is full at the time. */
  lemma ErrorIsLostWhenFull(s: State, run: seq<Action>)
    requires Init(s) && Possible(s, run) && !After(s, run).c.terminal
    ensures var c := After(s, run).c;
      FailSection(c).terminal && (FailSection(c).ev.pushed == c.ev.pushed <==> |c.ev.queue| == MAX_EVENTS)
  {
    AlwaysTold(s, run);
    var c := After(s, run).c;
    assert |FailSection(c).ev.pushed| == |c.ev.pushed| + 1 <==> |c.ev.queue| < MAX_EVENTS;
  }

  lemma TerminalStep(s: State, a: Action)
    requires Enabled(s, a) && s.c.terminal
    ensures Next(s, a).c.terminal && Next(s, a).c.ev.pushed == s.c.ev.pushed
  {
    if OnSends(a) { SentStep(s, a); }
    else if OnHandles(a) || OnErase(a) { QuietStep(s, a); }
  }

  /** Nothing is pushed once the session has ended. */
  lemma {:induction false} TerminalIsFinal(s: State, run: seq<Action>, k: nat)
    requires Possible(s, run) && k <= |run| && Possible(s, run[..k]) && After(s, run[..k]).c.terminal
    ensures After(s, run).c.terminal && After(s, run).c.ev.pushed == After(s, run[..k]).c.ev.pushed
  {
    if k == |run| {
      assert run[..k] == run;
    } else {
      var front := run[..|run| - 1];
      assert front[..k] == run[..k];
      TerminalIsFinal(s, front, k);
      TerminalStep(After(s, front), run[|run| - 1]);
    }
  }

  /** The next event delivered has the next number, or skips to the last event, an error. */
  predicate Follows(e: Events, i: nat)
    requires i < |e.delivered|
  {
    var d := e.delivered[i];
    && 1 <= d.sequence <= |e.pushed| && e.pushed[d.sequence - 1] == d
    && (i > 0 ==> e.delivered[i - 1].sequence < d.sequence)
    && (d.sequence != (if i == 0 then 1 else e.delivered[i - 1].sequence + 1) ==>
          d.kind == Failed && d.sequence == |e.pushed| && i == |e.delivered| - 1)
  }

  lemma FollowsWithoutGap(e: Events, i: nat)
    requires Numbered(e.pushed) && NoGap(e) && i < |e.delivered|
    ensures Follows(e, i)
  {
    assert (e.delivered + e.queue)[i] == e.delivered[i];
    if i > 0 { assert (e.delivered + e.queue)[i - 1] == e.delivered[i - 1]; }
  }

  lemma FollowsWithGap(e: Events, k: nat, i: nat)
    requires Numbered(e.pushed) && GapAt(e, k) && i < |e.delivered|
    ensures Follows(e, i)
  {
    var all := e.pushed[..k] + [e.pushed[|e.pushed| - 1]];
    assert all[i] == e.delivered[i];
    if i > 0 { assert all[i - 1] == e.delivered[i - 1]; }
    assert |all| == k + 1;
  }

  /**
   Events are delivered in the order they were pushed, under the numbers they were pushed with; the
   numbers skip only right before an error, which is the last event of the session.
  */
  lemma DeliveredInOrder(s: State, run: seq<Action>, i: nat)
    requires Init(s) && Possible(s, run) && i < |After(s, run).c.ev.delivered|
    ensures Follows(After(s, run).c.ev, i)
  {
    AlwaysTold(s, run);
    var e := After(s, run).c.ev;
    if NoGap(e) {
      FollowsWithoutGap(e, i);
    } else {
      var k: nat :| GapAt(e, k);
      FollowsWithGap(e, k, i);
    }
  }

  /**
   However the peer split its messages, a session that has taken in all their frames and lasts has
   pushed, after Connected, exactly these messages in order.
  */
  lemma MessagesComeOutWhole(s: State, run: seq<Action>, ms: seq<Split>)
    requires Init(s) && Possible(s, run) && WellSplit(ms)
    requires !After(s, run).c.terminal && After(s, run).rx.frames == FramesOfAll(ms)
    ensures NoneTooLong(ms) && Contents(After(s, run).c.ev.pushed) == MessagesOf(ms)
  {
    AlwaysTold(s, run);
    ReassemblyIsConcatenation(ms);
  }

  // ----- Deadlines -----

  /** When the peer was last heard of: the upgrade or the last frame. */
  function LastHeard(start: int, run: seq<Action>): int {
    if run == [] then start
    else
      match run[|run| - 1]
      case UpgradeDone(now) => now
      case ReadComplete(_, now) => now
      case _ => LastHeard(start, run[..|run| - 1])
  }

  datatype Asked = Asked(code: nat, reason: Bytes, deadline: int)

  /** The last close request that was not refused, if there was one. */
  function AskedFor(run: seq<Action>): Option<Asked> {
    if run == [] then None
    else
      match run[|run| - 1]
      case RequestClose(code, reason, deadline) =>
        if |reason| > MAX_REASON then AskedFor(run[..|run| - 1]) else Some(Asked(code, reason, deadline))
      case _ => AskedFor(run[..|run| - 1])
  }

  predicate Timed(s: State, heard: int, asked: Option<Asked>, timeout: nat) {
    && s.c.inc.lastActivity == heard && s.c.inc.timeout == timeout
    && (s.c.out.closing <==> asked.Some?)
    && (asked.Some? ==> s.c.out.deadline == Some(asked.value.deadline)
                        && s.c.out.goodbye == Recorded(asked.value.code, asked.value.reason))
  }

  /** What a step makes of the last sign of the peer, and of the last close request. */
  function HeardAfter(a: Action, heard: int): int {
    if a.UpgradeDone? || a.ReadComplete? then a.now else heard
  }

  function AskedAfter(a: Action, asked: Option<Asked>): Option<Asked> {
    if a.RequestClose? && |a.reason| <= MAX_REASON then Some(Asked(a.code, a.reason, a.deadline)) else asked
  }

  lemma TimedOnSends(s: State, a: Action, heard: int, asked: Option<Asked>, timeout: nat)
    requires Timed(s, heard, asked, timeout) && Enabled(s, a) && !s.c.terminal && OnSends(a)
    ensures Timed(SendNext(s, a), heard, AskedAfter(a, asked), timeout)
  {
    SendFrame(s, a);
  }

  lemma TimedOnReceives(s: State, a: Action, heard: int, asked: Option<Asked>, timeout: nat)
    requires Timed(s, heard, asked, timeout) && Enabled(s, a) && !s.c.terminal && OnReceives(a)
    ensures Timed(ReceiveNext(s, a), HeardAfter(a, heard), asked, timeout)
  {
    ReceiveFrame(s, a);
  }

  lemma TimedOnUpgrade(s: State, a: Action, heard: int, asked: Option<Asked>, timeout: nat)
    requires Timed(s, heard, asked, timeout) && Enabled(s, a) && !s.c.terminal && OnUpgrade(a)
    ensures Timed(UpgradeNext(s, a), HeardAfter(a, heard), asked, timeout)
  {
    UpgradeFrame(s, a);
  }

  lemma TimedStep(s: State, a: Action, heard: int, asked: Option<Asked>, timeout: nat)
    requires Timed(s, heard, asked, timeout) && Enabled(s, a) && !s.c.terminal
    ensures Timed(Next(s, a), HeardAfter(a, heard), AskedAfter(a, asked), timeout)
  {
    if OnSends(a) {
      SentStep(s, a);
      TimedOnSends(s, a, heard, asked, timeout);
    } else if OnReceives(a) {
      ReceivedStep(s, a);
      TimedOnReceives(s, a, heard, asked, timeout);
    } else if OnUpgrade(a) {
      UpgradedStep(s, a);
      TimedOnUpgrade(s, a, heard, asked, timeout);
    } else {
      QuietStep(s, a);
    }
  }

  lemma {:induction false} AlwaysTimed(s: State, run: seq<Action>)
    requires Init(s) && Possible(s, run) && !After(s, run).c.terminal
    ensures Timed(After(s, run), LastHeard(s.c.inc.lastActivity, run), AskedFor(run), s.c.inc.timeout)
  {
    if run == [] {
    } else {
      var rest, last := run[..|run| - 1], run[|run| - 1];
      var before := After(s, rest);
      if before.c.terminal { TerminalStep(before, last); }
      AlwaysTimed(s, rest);
      TimedStep(before, last, LastHeard(s.c.inc.lastActivity, rest), AskedFor(rest), s.c.inc.timeout);
    }
  }

  /**
   A check of the deadlines ends the session exactly when the deadline of the last close request has
   come, or the peer has not been heard of for the receive timeout.
  */
  lemma EndsAtItsDeadline(s: State, run: seq<Action>, now: int)
    requires Init(s) && Possible(s, run) && !After(s, run).c.terminal
    ensures var timeout, asked := s.c.inc.timeout, AskedFor(run);
      Next(After(s, run), CheckDeadlines(now)).c.terminal
      <==> (asked.Some? && asked.value.deadline <= now)
           || (After(s, run).c.link.connected && timeout > 0 && LastHeard(s.c.inc.lastActivity, run) + timeout <= now)
  {
    AlwaysTimed(s, run);
  }

  /** A shutdown is started with the code and the reason of the last close request. */
  lemma ShutdownSaysWhatWasAsked(s: State, run: seq<Action>)
    requires Init(s) && Possible(s, run) && !After(s, run).c.terminal && After(s, run).sh.starting > 0
    ensures var n, asked := After(s, run), AskedFor(run);
      && asked.Some?
      && var code := if asked.value.code == 0 then 1000 else asked.value.code;
      Next(n, StartShutdown).sh.issuing == n.sh.issuing + [Goodbye(code, asked.value.reason)]
  {
    var n := After(s, run);
    AlwaysRunning(s, run);
    AlwaysTimed(s, run);
    SentStep(n, StartShutdown);
    SaysWhatWasAsked(n, LastHeard(s.c.inc.lastActivity, run), AskedFor(run), s.c.inc.timeout);
  }

  lemma SaysWhatWasAsked(s: State, heard: int, asked: Option<Asked>, timeout: nat)
    requires Running(s) && Timed(s, heard, asked, timeout) && !s.c.terminal && s.sh.starting > 0
    ensures asked.Some?
    ensures var code := if asked.value.code == 0 then 1000 else asked.value.code;
      SendNext(s, StartShutdown).sh.issuing == s.sh.issuing + [Goodbye(code, asked.value.reason)]
  {
  }

  // ----- Every close request leads to a shutdown -----

  /** A close request that the session takes while it is connected. */
  predicate ClosesConnected(s: State, a: Action) {
    a.RequestClose? && |a.reason| <= MAX_REASON && s.c.link.connected && !s.c.terminal
  }

  ghost predicate ClosedConnected(s: State, run: seq<Action>)
    requires Possible(s, run)
  {
    run != [] && (ClosedConnected(s, run[..|run| - 1]) || ClosesConnected(After(s, run[..|run| - 1]), run[|run| - 1]))
  }

  /** A shutdown is about to be handed over, or was. */
  predicate ShutsDown(s: State) {
    s.sh.starting + |s.sh.issuing| > 0 || s.sh.handed != []
  }

  /**
   Closed: the queue still drains, or a shutdown is on its way. Not closed while connected: no shutdown, and a
   request made before has kept everything out of the queue.
  */
  predicate Owing(s: State, closed: bool) {
    && (s.c.out.writing ==> s.c.out.sends != [])
    && (if closed then
          !s.c.terminal ==> s.c.link.connected && s.c.out.closing && (s.c.out.writing || ShutsDown(s))
        else
          && !s.c.out.shutting && !ShutsDown(s) && s.sh.flying == 0
          && (s.c.out.closing ==> !s.c.out.writing))
  }

  lemma OwingOnSend(s: State, a: Action, closed: bool)
    requires Running(s) && Owing(s, closed) && Enabled(s, a)
    requires a.QueueSend? || a.StartSend? || a.IssueSend?
    ensures Owing(SendNext(s, a), closed)
  {}

  lemma OwingOnWritten(s: State, closed: bool)
    requires Running(s) && Owing(s, closed) && Enabled(s, WriteComplete)
    ensures Owing(SendNext(s, WriteComplete), closed)
  {
    assert s.c.out.writing;
  }

  lemma OwingOnClose(s: State, a: Action, closed: bool)
    requires Running(s) && Owing(s, closed) && Enabled(s, a)
    requires a.RequestClose? || a.StartShutdown? || a.IssueShutdown? || a.ShutdownComplete?
    ensures Owing(SendNext(s, a), closed || ClosesConnected(s, a))
  {}

  lemma OwingOnUpgrade(s: State, a: Action, closed: bool)
    requires Running(s) && Owing(s, closed) && Enabled(s, a) && OnUpgrade(a)
    ensures Owing(UpgradeNext(s, a), closed)
  {
    UpgradeFrame(s, a);
  }

  lemma OwingStep(s: State, a: Action, closed: bool)
    requires Running(s) && Owing(s, closed) && Enabled(s, a)
    ensures Owing(Next(s, a), closed || ClosesConnected(s, a))
  {
    if OnSends(a) {
      SentStep(s, a);
      if a.WriteComplete? { OwingOnWritten(s, closed); }
      else if a.QueueSend? || a.StartSend? || a.IssueSend? { OwingOnSend(s, a, closed); }
      else { OwingOnClose(s, a, closed); }
    } else if OnReceives(a) {
      ReceivedStep(s, a);
    } else if OnUpgrade(a) {
      UpgradedStep(s, a);
      OwingOnUpgrade(s, a, closed);
    } else {
      QuietStep(s, a);
    }
  }

  lemma {:induction false} AlwaysOwing(s: State, run: seq<Action>)
    requires Init(s) && Possible(s, run)
    ensures Owing(After(s, run), ClosedConnected(s, run))
  {
    if run == [] {
    } else {
      var rest := run[..|run| - 1];
      AlwaysRunning(s, rest);
      AlwaysOwing(s, rest);
      OwingStep(After(s, rest), run[|run| - 1], ClosedConnected(s, rest));
    }
  }

  /**
   While a session lasts, once nothing is being sent, a shutdown is about to be handed over or was exactly when a
   close request was taken while it was connected. So such a request is always followed by one, at once or when the
   queue has drained; and one that came before the upgrade is followed by none.
  */
  lemma ShutdownFollowsClose(s: State, run: seq<Action>)
    requires Init(s) && Possible(s, run) && !After(s, run).c.terminal
    ensures var n := After(s, run);
      && (ClosedConnected(s, run) ==> n.c.out.writing || ShutsDown(n))
      && (ShutsDown(n) ==> ClosedConnected(s, run))
      && (!n.c.out.writing ==> (ShutsDown(n) <==> ClosedConnected(s, run)))
  {
    AlwaysOwing(s, run);
  }

  /** A close request that comes while the upgrade is under way: the session connects, and no shutdown follows. */
  lemma EarlyCloseIsLost(s: State, code: nat, reason: Bytes, deadline: int) returns (run: seq<Action>)
    requires Init(s) && s.up.due == 1 && |reason| <= MAX_REASON
    ensures Possible(s, run) && AskedFor(run) == Some(Asked(code, reason, deadline))
    ensures var n := After(s, run);
      n.c.link.connected && !n.c.terminal && n.c.out.closing && !n.c.out.writing && !ShutsDown(n)
  {
    var close := RequestClose(code, reason, deadline);
    assert AskedFor([]).None?;
    Extend(s, [], close);
    run := [] + [close];
    assert run[..0] == [] && AskedFor(run) == Some(Asked(code, reason, deadline));
    var n := After(s, run);
    assert n == SendNext(s, close);
    UpgradeAsksNothing(run);
    run := Upgrades(s, run);
  }

  /** The first half of an upgrade, in a session in which nothing has happened yet but perhaps a close request. */
  lemma UpgradeBegins(n: State)
    requires n.up == Upgrade(1, 0, 0, 0) && !n.req.gone && !n.c.terminal
    ensures Enabled(n, HeadersArrive) && Enabled(Next(n, HeadersArrive), UpgradeMade)
    ensures var b := Next(Next(n, HeadersArrive), UpgradeMade);
      b.up == Upgrade(0, 0, 1, 0) && b.c == n.c && b.sh == n.sh && b.tx == n.tx && b.ws == n.ws.(created := true)
  {
    var a := UpgradeNext(n, HeadersArrive);
    assert Next(n, HeadersArrive) == a && Next(a, UpgradeMade) == UpgradeNext(a, UpgradeMade);
  }

  lemma UpgradeEnds(n: State)
    requires n.up == Upgrade(0, 0, 1, 0) && !n.c.terminal && n.c.ev == Events([], 0, 0, [], [])
    ensures Enabled(n, UpgradeCounted) && Enabled(Next(n, UpgradeCounted), UpgradeDone(0))
    ensures var d := Next(Next(n, UpgradeCounted), UpgradeDone(0));
      && d.c.link.connected && d.c.link.websocket && !d.c.terminal && d.c.out == n.c.out
      && d.sh == n.sh && d.tx == n.tx && d.ws == n.ws
  {
    var c := UpgradeNext(n, UpgradeCounted);
    assert Next(n, UpgradeCounted) == c && Next(c, UpgradeDone(0)) == UpgradeNext(c, UpgradeDone(0));
  }

  /** The steps of an upgrade that succeeds, with nothing between them. */
  lemma Upgrades(s: State, run: seq<Action>) returns (more: seq<Action>)
    requires Possible(s, run)
    requires var n := After(s, run);
      n.up == Upgrade(1, 0, 0, 0) && !n.req.gone && !n.c.terminal && n.c.ev == Events([], 0, 0, [], [])
    ensures more == run + [HeadersArrive] + [UpgradeMade] + [UpgradeCounted] + [UpgradeDone(0)] && Possible(s, more)
    ensures var n, m := After(s, run), After(s, more);
      && m.c.link.connected && m.c.link.websocket && !m.c.terminal
      && m.c.out == n.c.out && m.sh == n.sh && m.tx == n.tx && m.ws.closing == n.ws.closing
  {
    UpgradeBegins(After(s, run));
    Extend(s, run, HeadersArrive);
    Extend(s, run + [HeadersArrive], UpgradeMade);
    UpgradeEnds(After(s, run + [HeadersArrive] + [UpgradeMade]));
    Extend(s, run + [HeadersArrive] + [UpgradeMade], UpgradeCounted);
    Extend(s, run + [HeadersArrive] + [UpgradeMade] + [UpgradeCounted], UpgradeDone(0));
    more := run + [HeadersArrive] + [UpgradeMade] + [UpgradeCounted] + [UpgradeDone(0)];
  }

  lemma UpgradeAsksNothing(run: seq<Action>)
    ensures AskedFor(run + [HeadersArrive] + [UpgradeMade] + [UpgradeCounted] + [UpgradeDone(0)]) == AskedFor(run)
  {
    AskedStays(run, HeadersArrive);
    AskedStays(run + [HeadersArrive], UpgradeMade);
    AskedStays(run + [HeadersArrive] + [UpgradeMade], UpgradeCounted);
    AskedStays(run + [HeadersArrive] + [UpgradeMade] + [UpgradeCounted], UpgradeDone(0));
  }

  lemma AskedStays(run: seq<Action>, a: Action)
    requires !a.RequestClose?
    ensures AskedFor(run + [a]) == AskedFor(run)
  {
    assert (run + [a])[..|run|] == run;
  }

  // ----- Receiving goes on -----

  /** The receives that WinHTTP refused, or completed with nothing usable. */
  function Lapses(run: seq<Action>): nat {
    if run == [] then 0
    else Lapses(run[..|run| - 1]) + One(run[|run| - 1] == IssueReceive(false) || run[|run| - 1] == ReadUnusable)
  }

  predicate Listening(s: State, lapses: nat) {
    && (!s.c.link.connected ==> lapses == 0)
    && (s.c.link.connected && !s.c.terminal ==> s.rx.starting + s.rx.issuing + s.rx.flying + lapses == 1)
  }

  /** A frame is followed by another receive exactly while the session lasts. */
  lemma ReadsAgain(c: Core, f: Frame, now: int)
    ensures ReadSection(c, f, now).1 == !ReadSection(c, f, now).0.terminal || c.terminal
    ensures c.terminal ==> !ReadSection(c, f, now).1
  {}

  lemma ListeningOnReceives(s: State, a: Action, lapses: nat)
    requires Running(s) && Listening(s, lapses) && Enabled(s, a) && OnReceives(a)
    ensures Listening(ReceiveNext(s, a), lapses + One(a == IssueReceive(false) || a == ReadUnusable))
  {
    if a.ReadComplete? {
      ReadsAgain(s.c, a.frame, a.now);
      ReadFrame(s.c, a.frame, a.now);
    }
  }

  lemma ListeningOnUpgrade(s: State, a: Action, lapses: nat)
    requires Running(s) && Listening(s, lapses) && Enabled(s, a) && OnUpgrade(a)
    ensures Listening(UpgradeNext(s, a), lapses)
  {
    UpgradeFrame(s, a);
  }

  lemma ListeningStep(s: State, a: Action, lapses: nat)
    requires Running(s) && Listening(s, lapses) && Enabled(s, a)
    ensures Listening(Next(s, a), lapses + One(a == IssueReceive(false) || a == ReadUnusable))
  {
    if OnReceives(a) {
      ReceivedStep(s, a);
      ListeningOnReceives(s, a, lapses);
    } else if OnUpgrade(a) {
      UpgradedStep(s, a);
      ListeningOnUpgrade(s, a, lapses);
    } else if OnSends(a) {
      SentStep(s, a);
    } else {
      QuietStep(s, a);
    }
  }

  /**
   A connected session that lasts always has just one receive on its way, until WinHTTP refuses one or completes one
   with nothing usable, and none from then on.
  */
  lemma {:induction false} KeepsReceiving(s: State, run: seq<Action>)
    requires Init(s) && Possible(s, run)
    ensures Listening(After(s, run), Lapses(run))
    ensures var n := After(s, run);
      n.c.link.connected && !n.c.terminal ==> n.rx.starting + n.rx.issuing + n.rx.flying == 1 - Lapses(run)
  {
    if run == [] {
    } else {
      var rest := run[..|run| - 1];
      AlwaysRunning(s, rest);
      KeepsReceiving(s, rest);
      ListeningStep(After(s, rest), run[|run| - 1], Lapses(rest));
    }
  }

  // ----- What callers get -----

  /**
   A payload is accepted exactly when it is not too long, the session is connected and lasts, no close was requested,
   and the payloads accepted but not completed leave room; the code says which of these is missing first.
  */
  lemma AcceptsExactly(s: State, run: seq<Action>, payload: Message)
    requires Init(s) && Possible(s, run) && !After(s, run).c.terminal
    ensures |After(s, run).tx.completed| <= |After(s, run).tx.accepted|
    ensures var n := After(s, run);
      var pending := n.tx.accepted[|n.tx.completed|..];
      var answer := QueueSection(n.c, payload).1;
      && (answer == Refused(-2) <==> |payload.bytes| > MAX_MESSAGE)
      && (answer == Refused(-1) <==> |payload.bytes| <= MAX_MESSAGE && (!n.c.link.connected || AskedFor(run).Some?))
      && (answer == Refused(-3) <==>
            && |payload.bytes| <= MAX_MESSAGE && n.c.link.connected && AskedFor(run).None?
            && (|pending| >= MAX_SENDS || TotalBytes(pending) + |payload.bytes| > MAX_SEND_BYTES))
      && (answer.Accepted? <==> Next(n, QueueSend(payload)).tx.accepted == n.tx.accepted + [payload])
      && (answer.Refused? ==> answer.code == -1 || answer.code == -2 || answer.code == -3)
  {
    AlwaysRunning(s, run);
    AlwaysTimed(s, run);
    var n := After(s, run);
    assert n.tx.accepted[|n.tx.completed|..] == n.c.out.sends;
    assert Next(n, QueueSend(payload)) == SendNext(n, QueueSend(payload));
    assert |n.tx.accepted + [payload]| == |n.tx.accepted| + 1;
  }

  /** A close frame ends the session with its reason as the last event, or with an error when there is no room. */
  lemma CloseComesOut(s: State, run: seq<Action>, reason: Bytes, now: int)
    requires Init(s) && Possible(s, run) && !After(s, run).c.terminal
    requires Enabled(After(s, run), ReadComplete(CloseFrame(reason), now))
    ensures var e := After(s, run).c.ev;
      var n := Next(After(s, run), ReadComplete(CloseFrame(reason), now)).c;
      && n.terminal && |n.ev.pushed| == |e.pushed| + 1 && e.pushed <= n.ev.pushed
      && var last := n.ev.pushed[|e.pushed|];
      && (last.kind == Closed && last.payload == reason <==>
            |e.queue| < MAX_EVENTS && PayloadBytes(e.queue) + |reason| <= MAX_EVENT_BYTES)
      && (last.kind != Closed ==> last.kind == Failed && n.ev.queue == [last])
  {
    AlwaysTold(s, run);
    var n, a := After(s, run), ReadComplete(CloseFrame(reason), now);
    assert Next(n, a) == ReceiveNext(n, a);
  }

  /**
   Of the frames that may arrive, these end the session: a close frame, one of another kind than the message it
   continues, one that makes the message longer than 8 MiB, and the last one of a message with no room in the queue.
  */
  lemma FrameEndsExactly(c: Core, f: Frame, now: int)
    requires EventsOk(c) && !c.terminal
    ensures ReadSection(c, f, now).0.terminal <==>
              f.CloseFrame?
              || (c.inc.buffer != [] && f.binary != c.inc.binary)
              || |c.inc.buffer| + |f.bytes| > MAX_MESSAGE
              || (!f.fragment && (|c.ev.queue| >= MAX_EVENTS
                                  || PayloadBytes(c.ev.queue) + |c.inc.buffer| + |f.bytes| > MAX_EVENT_BYTES))
  {}

  /** What NextEvent returns: 1 for the first event, if its payload fits, 0 without one, -2 when it does not fit. */
  lemma PopTells(c: Core, capacity: nat)
    ensures var (n, code) := PopSection(c, capacity);
      && (code == 0 <==> c.ev.queue == [])
      && (code == -2 <==> c.ev.queue != [] && |c.ev.queue[0].payload| > capacity)
      && (code == 1 <==> n.ev.delivered != c.ev.delivered)
      && (code == 1 <==> c.ev.queue != [] && n.ev.delivered + n.ev.queue == c.ev.delivered + c.ev.queue
                         && |n.ev.delivered| == |c.ev.delivered| + 1)
      && (code != 1 ==> n == c)
  {
    if c.ev.queue != [] { assert [c.ev.queue[0]] + c.ev.queue[1..] == c.ev.queue; }
  }

  function Pops(capacity: nat, k: nat): seq<Action> {
    seq(k, _ => Pop(capacity))
  }

  function PopsFrom(s: State, capacity: nat, k: nat): State {
    if k == 0 then s else Next(PopsFrom(s, capacity, k - 1), Pop(capacity))
  }

  lemma {:induction false} PopsAreSteps(s: State, run: seq<Action>, capacity: nat, k: nat)
    requires Possible(s, run)
    ensures Possible(s, run + Pops(capacity, k))
    ensures After(s, run + Pops(capacity, k)) == PopsFrom(After(s, run), capacity, k)
  {
    if k == 0 {
      assert run + Pops(capacity, k) == run;
    } else {
      PopsAreSteps(s, run, capacity, k - 1);
      Extend(s, run + Pops(capacity, k - 1), Pop(capacity));
      assert run + Pops(capacity, k) == run + Pops(capacity, k - 1) + [Pop(capacity)];
    }
  }

  lemma PopDelivers(s: State, capacity: nat)
    requires s.c.ev.queue != [] && |s.c.ev.queue[0].payload| <= capacity
    ensures var e, n := s.c.ev, Next(s, Pop(capacity)).c.ev;
      n.queue == e.queue[1..] && n.delivered == e.delivered + [e.queue[0]] && n.pushed == e.pushed
  {
    assert Next(s, Pop(capacity)) == UpgradeNext(s, Pop(capacity));
  }

  lemma MovedOn(q: seq<Event>, k: nat)
    requires 0 < k <= |q|
    ensures q[k - 1..][0] == q[k - 1] && q[k - 1..][1..] == q[k..] && q[..k - 1] + [q[k - 1]] == q[..k]
  {}

  lemma {:induction false} CallsDeliver(s: State, capacity: nat, k: nat)
    requires k <= |s.c.ev.queue| && forall i :: 0 <= i < k ==> |s.c.ev.queue[i].payload| <= capacity
    ensures var e, n := s.c.ev, PopsFrom(s, capacity, k).c.ev;
      n.delivered == e.delivered + e.queue[..k] && n.queue == e.queue[k..] && n.pushed == e.pushed
  {
    if k == 0 {
    } else {
      CallsDeliver(s, capacity, k - 1);
      MovedOn(s.c.ev.queue, k);
      PopDelivers(PopsFrom(s, capacity, k - 1), capacity);
    }
  }

  /**
   As many calls as events are queued deliver all of them, if the caller has room for each: every event gets to
   the caller, but for those that an overflow has replaced by its error.
  */
  lemma EveryEventIsDelivered(s: State, run: seq<Action>, capacity: nat)
    requires Init(s) && Possible(s, run)
    requires var queue := After(s, run).c.ev.queue; forall i :: 0 <= i < |queue| ==> |queue[i].payload| <= capacity
    ensures var k := |After(s, run).c.ev.queue|;
      && Possible(s, run + Pops(capacity, k))
      && var e := After(s, run + Pops(capacity, k)).c.ev;
      && e.queue == [] && e.pushed == After(s, run).c.ev.pushed
      && (e.delivered == e.pushed || (e.delivered != [] && e.delivered[|e.delivered| - 1].kind == Failed))
  {
    var k := |After(s, run).c.ev.queue|;
    PopsAreSteps(s, run, capacity, k);
    CallsDeliver(After(s, run), capacity, k);
    AlwaysEvents(s, run + Pops(capacity, k));
    Delivered(After(s, run + Pops(capacity, k)).c);
  }

  lemma Delivered(c: Core)
    requires EventsOk(c) && c.ev.queue == []
    ensures c.ev.delivered == c.ev.pushed
            || (c.ev.delivered != [] && c.ev.delivered[|c.ev.delivered| - 1].kind == Failed)
  {
    assert c.ev.delivered + c.ev.queue == c.ev.delivered;
  }

  // ----- connect_ and internet_ -----

  /** A thread finds the field set while another is about to close the handle or to clear the field. */
  predicate Overlaps(s: State, a: Action, o: Outer) {
    a == LookAt(o) && OuterOf(s, o).held && OuterOf(s, o).seen + OuterOf(s, o).closed > 0
  }

  ghost predicate Overlapped(s: State, run: seq<Action>, o: Outer)
    requires Possible(s, run)
  {
    run != [] && (Overlapped(s, run[..|run| - 1], o) || Overlaps(After(s, run[..|run| - 1]), run[|run| - 1], o))
  }

  predicate ParentOk(p: Parent, overlapped: bool) {
    && (p.held ==> p.closes == p.closed)
    && (p.seen + p.closes <= 1 <==> !overlapped)
  }

  lemma ParentOnErase(s: State, a: Action, o: Outer, overlapped: bool)
    requires Enabled(s, a) && OnErase(a) && ParentOk(OuterOf(s, o), overlapped)
    ensures ParentOk(OuterOf(EraseNext(s, a), o), overlapped || Overlaps(s, a, o))
  {
  }

  lemma ParentElsewhere(s: State, a: Action, o: Outer)
    requires Enabled(s, a) && !OnErase(a)
    ensures OuterOf(Next(s, a), o) == OuterOf(s, o)
  {
    if OnSends(a) {
      SentStep(s, a);
    } else if OnReceives(a) {
      ReceivedStep(s, a);
    } else if OnUpgrade(a) {
      UpgradedStep(s, a);
    } else {
      HandleFrame(s, a);
      QuietStep(s, a);
    }
  }

  lemma ParentStep(s: State, a: Action, o: Outer, overlapped: bool)
    requires Enabled(s, a) && ParentOk(OuterOf(s, o), overlapped)
    ensures ParentOk(OuterOf(Next(s, a), o), overlapped || Overlaps(s, a, o))
  {
    if OnErase(a) {
      assert Next(s, a) == EraseNext(s, a);
      ParentOnErase(s, a, o, overlapped);
    } else {
      ParentElsewhere(s, a, o);
      assert !Overlaps(s, a, o);
    }
  }

  /**
   MaybeErase looks at connect_ and internet_ and closes them without a lock. Each is closed at most once,
   the threads about to close it included, exactly when no thread ever found it set while another was
   between finding it set and clearing it.
  */
  lemma {:induction false} ParentClosedOnceExactly(s: State, run: seq<Action>, o: Outer)
    requires Init(s) && Possible(s, run)
    ensures var p := OuterOf(After(s, run), o);
      && (p.seen + p.closes <= 1 <==> !Overlapped(s, run, o))
      && ParentOk(p, Overlapped(s, run, o))
  {
    if run == [] {
    } else {
      var rest := run[..|run| - 1];
      ParentClosedOnceExactly(s, rest, o);
      ParentStep(After(s, rest), run[|run| - 1], o, Overlapped(s, rest, o));
    }
  }

  // ----- The websocket handle outside the mutex -----

  /** A section hands the websocket handle to its thread, which makes one call on it later. */
  predicate Takes(s: State, a: Action) {
    || (a.StartSend? && SendSection(s.c).1.Some?)
    || (a.StartReceive? && ReceiveSection(s.c).1)
    || (a.StartShutdown? && ShutdownSection(s.c).Some?)
  }

  predicate ClosesWebSocket(run: seq<Action>) {
    CloseHandle(WebSocket) in run
  }

  lemma ClosesOnHandles(s: State, a: Action)
    requires Enabled(s, a) && OnHandles(a)
    ensures HandleNext(s, a).ws.closes == s.ws.closes + One(a == CloseHandle(WebSocket))
  {}

  lemma ClosesStep(s: State, a: Action)
    requires Enabled(s, a)
    ensures Next(s, a).ws.closes == s.ws.closes + One(a == CloseHandle(WebSocket))
    ensures s.c.link.connected ==> Next(s, a).c.link.connected
  {
    if OnSends(a) { SentStep(s, a); }
    else if OnReceives(a) { ReceivedStep(s, a); }
    else if OnUpgrade(a) { UpgradeFrame(s, a); ClosesOnUpgrade(s, a); }
    else {
      QuietStep(s, a);
      if OnHandles(a) { ClosesOnHandles(s, a); } else { EraseFrame(s, a); }
    }
  }

  lemma ClosesOnUpgrade(s: State, a: Action)
    requires Enabled(s, a) && OnUpgrade(a)
    ensures UpgradeNext(s, a).ws.closes == s.ws.closes
  {}

  lemma {:induction false} ClosesSince(s: State, run: seq<Action>, k: nat)
    requires Possible(s, run) && k <= |run| && Possible(s, run[..k])
    requires After(s, run[..k]).ws.closes == 0 && After(s, run[..k]).c.link.connected
    ensures After(s, run).ws.closes > 0 <==> ClosesWebSocket(run[k..])
    ensures After(s, run).c.link.connected
  {
    if k == |run| {
      assert run[..k] == run;
    } else {
      var front, last := run[..|run| - 1], run[|run| - 1];
      assert front[..k] == run[..k] && run[k..] == front[k..] + [last];
      ClosesSince(s, front, k);
      ClosesStep(After(s, front), last);
    }
  }

  /**
   The threads that send, receive and shut down use the websocket handle after they have left the mutex. It is still
   open at their call exactly when no thread has closed it since their section; if one has, the session has ended.
  */
  lemma OpenAtTheCallExactly(s: State, run: seq<Action>, k: nat)
    requires Init(s) && Possible(s, run) && k < |run| && Possible(s, run[..k])
    requires Takes(After(s, run[..k]), run[k])
    ensures var n := After(s, run);
      && n.ws.created
      && (n.ws.closes == 0 <==> !ClosesWebSocket(run[k..]))
      && (ClosesWebSocket(run[k..]) ==> n.c.terminal)
  {
    AlwaysRunning(s, run[..k]);
    AlwaysRunning(s, run);
    ClosesSince(s, run, k);
  }

  lemma Extend(s: State, run: seq<Action>, a: Action)
    requires Possible(s, run) && Enabled(After(s, run), a)
    ensures Possible(s, run + [a]) && After(s, run + [a]) == Next(After(s, run), a)
  {
    assert (run + [a])[..|run|] == run;
  }

  /** A run that has released the session and closed its request, and so may erase it. */
  lemma MayErase(s: State) returns (run: seq<Action>)
    requires Init(s)
    ensures Possible(s, run)
    ensures var n := After(s, run);
      n.life.openHandles == 0 && n.life.released && n.life.owed == 2 && n.connect == s.connect
  {
    run := [];
    Extend(s, run, Fail);
    run := run + [Fail];
    Extend(s, run, Abort);
    run := run + [Abort];
    Extend(s, run, CloseHandle(Request));
    run := run + [CloseHandle(Request)];
    Extend(s, run, Release);
    run := run + [Release];
    Extend(s, run, HandleClosing(Request));
    run := run + [HandleClosing(Request)];
  }

  /** Two threads in MaybeErase that both look at connect_ before one of them clears it. */
  lemma BothFind(s: State)
    requires s.life.openHandles == 0 && s.life.released && s.life.owed == 2 && s.connect == Parent(true, 0, 0, 0, 0)
    ensures var t := EraseNext(EraseNext(s, TestErase), TestErase);
      && t == s.(life := s.life.(owed := 0), connect := Parent(true, 2, 0, 0, 0))
      && EraseNext(EraseNext(t, LookAt(Connect)), LookAt(Connect)) == t.(connect := Parent(true, 0, 2, 0, 0))
  {
  }

  lemma BothHaveFound(s: State) returns (run: seq<Action>)
    requires Init(s)
    ensures Possible(s, run) && After(s, run).connect == Parent(true, 0, 2, 0, 0)
  {
    run := MayErase(s);
    BothFind(After(s, run));
    Extend(s, run, TestErase);
    run := run + [TestErase];
    Extend(s, run, TestErase);
    run := run + [TestErase];
    Extend(s, run, LookAt(Connect));
    run := run + [LookAt(Connect)];
    Extend(s, run, LookAt(Connect));
    run := run + [LookAt(Connect)];
  }

  /** Release and the last HANDLE_CLOSING can both pass the test of MaybeErase, and both find connect_ set. */
  lemma ParentClosedTwice(s: State) returns (run: seq<Action>)
    requires Init(s)
    ensures Possible(s, run) && After(s, run).connect.closes == 2
  {
    run := BothHaveFound(s);
    Extend(s, run, CloseOuter(Connect));
    run := run + [CloseOuter(Connect)];
    Extend(s, run, CloseOuter(Connect));
    run := run + [CloseOuter(Connect)];
  }

  /** A run that upgrades and queues a payload, whose thread has taken the handle but not made its call. */
  lemma AboutToSend(s: State, payload: Message) returns (run: seq<Action>)
    requires Init(s) && s.up.due == 1 && |payload.bytes| <= MAX_MESSAGE
    ensures Possible(s, run) && |run| > 0 && Possible(s, run[..|run| - 1])
    ensures Takes(After(s, run[..|run| - 1]), run[|run| - 1])
    ensures var n := After(s, run);
      n.tx.issuing == [payload] && n.c.link.websocket && n.ws.closing == 0 && !n.c.terminal
  {
    run := Upgrades(s, []);
    Extend(s, run, QueueSend(payload));
    run := run + [QueueSend(payload)];
    Extend(s, run, StartSend);
    assert (run + [StartSend])[..|run|] == run;
    run := run + [StartSend];
  }

  /** The session fails and the websocket handle is closed, while a thread is about to use it. */
  lemma ClosedUnderway(s: State)
    requires !s.c.terminal && s.c.link.websocket && s.ws.closing == 0 && s.ws.closes == 0
    ensures var t := Next(s, Fail);
      && Enabled(t, Abort)
      && var u := Next(t, Abort);
      && Enabled(u, CloseHandle(WebSocket))
      && Next(u, CloseHandle(WebSocket)).ws.closes == 1 && Next(u, CloseHandle(WebSocket)).tx == s.tx
  {
    var t := UpgradeNext(s, Fail);
    assert t.c.terminal && t.ws == s.ws && t.tx == s.tx && t.c.link == s.c.link;
    var u := UpgradeNext(t, Abort);
    assert u.ws.closing == 1 && u.ws.closes == 0 && u.tx == s.tx;
    assert Next(s, Fail) == t && Next(t, Abort) == u;
    assert Next(u, CloseHandle(WebSocket)) == HandleNext(u, CloseHandle(WebSocket));
  }

  lemma CloseUnderway(s: State, run: seq<Action>) returns (more: seq<Action>)
    requires Possible(s, run)
    requires var n := After(s, run); !n.c.terminal && n.c.link.websocket && n.ws.closing == 0 && n.ws.closes == 0
    ensures Possible(s, more) && After(s, more).ws.closes == 1 && After(s, more).tx == After(s, run).tx
  {
    ClosedUnderway(After(s, run));
    Extend(s, run, Fail);
    more := run + [Fail];
    Extend(s, more, Abort);
    more := more + [Abort];
    Extend(s, more, CloseHandle(WebSocket));
    more := more + [CloseHandle(WebSocket)];
  }

  /** So a call may be made on a handle that was closed: the session fails before the thread makes its call. */
  lemma UsedAfterClose(s: State, payload: Message) returns (run: seq<Action>)
    requires Init(s) && s.up.due == 1 && |payload.bytes| <= MAX_MESSAGE
    ensures Possible(s, run) && Enabled(After(s, run), IssueSend(false)) && After(s, run).ws.closes == 1
  {
    run := AboutToSend(s, payload);
    AlwaysHandles(s, run);
    run := CloseUnderway(s, run);
  }
}
