/**
 The fields of the WebSocket session that its mutex protects, and the mutex sections of its methods.
 Each section runs as one step; what happens between sections is left to SessionRuns.
*/
module SessionCore {
  import opened Options

  type Bytes = seq<bv8>

  const MAX_MESSAGE := 8 * 1024 * 1024
  const MAX_EVENT_BYTES := 16 * 1024 * 1024
  const MAX_EVENTS := 128
  const MAX_SEND_BYTES := 8 * 1024 * 1024
  const MAX_SENDS := 64
  const MAX_REASON := 123
  const NORMAL_CLOSE := 1000

  datatype EventType = Connected | TextMessage | BinaryMessage | Closed | Failed

  datatype Event = Event(kind: EventType, sequence: nat, payload: Bytes)

  /** A message to be sent, with the type its sender gave it. */
  datatype Message = Message(binary: bool, bytes: Bytes)

  function PayloadBytes(events: seq<Event>): nat {
    PayloadUpTo(events, |events|)
  }

  function PayloadUpTo(events: seq<Event>, n: nat): nat
    requires n <= |events|
  {
    if n == 0 then 0 else PayloadUpTo(events, n - 1) + |events[n - 1].payload|
  }

  function TotalBytes(payloads: seq<Message>): nat {
    TotalUpTo(payloads, |payloads|)
  }

  function TotalUpTo(payloads: seq<Message>, n: nat): nat
    requires n <= |payloads|
  {
    if n == 0 then 0 else TotalUpTo(payloads, n - 1) + |payloads[n - 1].bytes|
  }

  lemma {:induction false} PayloadUpToAdd(events: seq<Event>, event: Event, n: nat)
    requires n <= |events|
    ensures PayloadUpTo(events + [event], n) == PayloadUpTo(events, n)
  {
    if n == 0 {
    } else {
      PayloadUpToAdd(events, event, n - 1);
    }
  }

  lemma PayloadBytesAdd(events: seq<Event>, event: Event)
    ensures PayloadBytes(events + [event]) == PayloadBytes(events) + |event.payload|
  {
    PayloadUpToAdd(events, event, |events|);
  }

  lemma {:induction false} PayloadUpToFirst(events: seq<Event>, n: nat)
    requires 0 < n <= |events|
    ensures PayloadUpTo(events, n) == |events[0].payload| + PayloadUpTo(events[1..], n - 1)
  {
    if n == 1 {
    } else {
      PayloadUpToFirst(events, n - 1);
    }
  }

  lemma PayloadBytesFirst(events: seq<Event>)
    requires events != []
    ensures PayloadBytes(events) == |events[0].payload| + PayloadBytes(events[1..])
  {
    PayloadUpToFirst(events, |events|);
  }

  lemma {:induction false} TotalUpToAdd(payloads: seq<Message>, payload: Message, n: nat)
    requires n <= |payloads|
    ensures TotalUpTo(payloads + [payload], n) == TotalUpTo(payloads, n)
  {
    if n == 0 {
    } else {
      TotalUpToAdd(payloads, payload, n - 1);
    }
  }

  lemma TotalBytesAdd(payloads: seq<Message>, payload: Message)
    ensures TotalBytes(payloads + [payload]) == TotalBytes(payloads) + |payload.bytes|
  {
    TotalUpToAdd(payloads, payload, |payloads|);
  }

  lemma {:induction false} TotalUpToFirst(payloads: seq<Message>, n: nat)
    requires 0 < n <= |payloads|
    ensures TotalUpTo(payloads, n) == |payloads[0].bytes| + TotalUpTo(payloads[1..], n - 1)
  {
    if n == 1 {
    } else {
      TotalUpToFirst(payloads, n - 1);
    }
  }

  lemma TotalBytesFirst(payloads: seq<Message>)
    requires payloads != []
    ensures TotalBytes(payloads) == |payloads[0].bytes| + TotalBytes(payloads[1..])
  {
    TotalUpToFirst(payloads, |payloads|);
  }

  // ----- Events -----

  /** The event queue, with the history of what was pushed into it and taken out of it. */
  datatype Events = Events(queue: seq<Event>, bytes: nat, sequence: nat, pushed: seq<Event>, delivered: seq<Event>)

  predicate Full(e: Events, payload: Bytes) {
    |e.queue| >= MAX_EVENTS || e.bytes + |payload| > MAX_EVENT_BYTES
  }

  /**
   PushEventLocked: a full queue drops an error event, and gives way to a single overflow error when
   any other event does not fit.
  */
  function Push(e: Events, kind: EventType, payload: Bytes): Events {
    if !Full(e, payload) then
      var event := Event(kind, e.sequence + 1, payload);
      Events(e.queue + [event], e.bytes + |payload|, e.sequence + 1, e.pushed + [event], e.delivered)
    else if kind != Failed then
      var event := Event(Failed, e.sequence + 1, []);
      Events([event], 0, e.sequence + 1, e.pushed + [event], e.delivered)
    else e
  }

  /** Whether that push ends the session. */
  predicate Overflows(e: Events, kind: EventType, payload: Bytes) {
    Full(e, payload) && kind != Failed
  }

  lemma PushKeepsCounter(e: Events, kind: EventType, payload: Bytes)
    requires e.bytes == PayloadBytes(e.queue)
    ensures Push(e, kind, payload).bytes == PayloadBytes(Push(e, kind, payload).queue)
  {
    PayloadBytesAdd(e.queue, Event(kind, e.sequence + 1, payload));
    PayloadBytesAdd([], Event(Failed, e.sequence + 1, []));
    assert [] + [Event(Failed, e.sequence + 1, [])] == [Event(Failed, e.sequence + 1, [])];
  }

  // ----- Reassembly -----

  /** A received frame: a data frame of a message, the last one of it unless it is a fragment, or a close frame. */
  datatype Frame = Data(binary: bool, fragment: bool, bytes: Bytes) | CloseFrame(reason: Bytes)

  datatype Reassembly = More(buffer: Bytes, binary: bool) | Whole(binary: bool, payload: Bytes) | Rejected

  /** The data branch of OnReadComplete. */
  function Reassemble(buffer: Bytes, binary: bool, f: Frame): Reassembly
    requires f.Data?
  {
    var kind := if buffer == [] then f.binary else binary;
    if kind != f.binary || |buffer| + |f.bytes| > MAX_MESSAGE then Rejected
    else if f.fragment then More(buffer + f.bytes, kind)
    else Whole(f.binary, buffer + f.bytes)
  }

  // ----- The fields -----

  /** request_ and websocket_ are not null; connected_. */
  datatype Link = Link(request: bool, websocket: bool, connected: bool)

  /** close_code_ and close_reason_. */
  datatype Goodbye = Goodbye(code: nat, reason: Bytes)

  datatype Outgoing = Outgoing(sends: seq<Message>, bytes: nat, writing: bool,
                               closing: bool, deadline: Option<int>, goodbye: Goodbye, shutting: bool)

  datatype Incoming = Incoming(receiving: bool, lastActivity: int, timeout: nat, buffer: Bytes, binary: bool)

  datatype Core = Core(link: Link, out: Outgoing, inc: Incoming, ev: Events, terminal: bool)

  function PushInto(c: Core, kind: EventType, payload: Bytes): Core {
    c.(ev := Push(c.ev, kind, payload), terminal := c.terminal || Overflows(c.ev, kind, payload))
  }

  /** The section of Fail and of Cancel: the first one pushes the error and ends the session. */
  function FailSection(c: Core): Core {
    if c.terminal then c else PushInto(c, Failed, []).(terminal := true)
  }

  datatype Queued = Accepted(start: bool) | Refused(code: int)

  /** QueueSend: whether to start sending, unless the payload is refused. */
  function QueueSection(c: Core, payload: Message): (Core, Queued) {
    if |payload.bytes| > MAX_MESSAGE then (c, Refused(-2))
    else if !c.link.connected || c.terminal || c.out.closing then (c, Refused(-1))
    else if |c.out.sends| >= MAX_SENDS || c.out.bytes + |payload.bytes| > MAX_SEND_BYTES then (c, Refused(-3))
    else
      (c.(out := c.out.(sends := c.out.sends + [payload], bytes := c.out.bytes + |payload.bytes|, writing := true)),
       Accepted(!c.out.writing))
  }

  /** StartCurrentSend: the payload to hand over, unless there is nothing to send any more. */
  function SendSection(c: Core): (Core, Option<Message>) {
    if c.out.sends == [] || !c.link.websocket || c.terminal then (c.(out := c.out.(writing := false)), None)
    else (c, Some(c.out.sends[0]))
  }

  /** A payload has left: the queue without its first entry. */
  function Popped(o: Outgoing): Outgoing {
    if o.sends == [] then o
    else o.(sends := o.sends[1..], bytes := if o.bytes < |o.sends[0].bytes| then 0 else o.bytes - |o.sends[0].bytes|)
  }

  /** OnWriteComplete: whether to start the next send, and whether to start the shutdown. */
  function WrittenSection(c: Core): (Core, bool, bool) {
    var o := Popped(c.out);
    if c.terminal then (c.(out := o.(writing := false)), false, false)
    else if o.sends != [] then (c.(out := o.(writing := true)), true, false)
    else if o.closing && !o.shutting then (c.(out := o.(writing := false, shutting := true)), false, true)
    else (c.(out := o.(writing := false)), false, false)
  }

  /** A close request as it is recorded: without a code, the normal one. */
  function Recorded(code: nat, reason: Bytes): Goodbye {
    Goodbye(if code == 0 then NORMAL_CLOSE else code, reason)
  }

  /** RequestClose: whether to start the shutdown, unless the reason is refused. */
  function CloseSection(c: Core, code: nat, reason: Bytes, deadline: int): (Core, Queued) {
    if |reason| > MAX_REASON then (c, Refused(-2))
    else if c.terminal then (c, Accepted(false))
    else
      var start := c.link.connected && !c.out.writing && !c.out.shutting;
      (c.(out := c.out.(closing := true, deadline := Some(deadline), goodbye := Recorded(code, reason),
                        shutting := c.out.shutting || start)),
       Accepted(start))
  }

  /** StartShutdown: the code and the reason to hand over, unless the session has ended. */
  function ShutdownSection(c: Core): Option<Goodbye> {
    if c.link.websocket && !c.terminal then Some(c.out.goodbye) else None
  }

  /** StartReceive: whether to hand the receive buffer over. */
  function ReceiveSection(c: Core): (Core, bool) {
    if c.terminal || c.inc.receiving || !c.link.websocket then (c, false)
    else (c.(inc := c.inc.(receiving := true)), true)
  }

  /** OnReadComplete: whether to receive again; otherwise the protocol close follows unless the session had ended. */
  function ReadSection(c: Core, f: Frame, now: int): (Core, bool) {
    if c.terminal then (c.(inc := c.inc.(receiving := false)), false)
    else
      var idle := Incoming(false, now, c.inc.timeout, c.inc.buffer, c.inc.binary);
      if f.CloseFrame? then (PushInto(c.(inc := idle), Closed, f.reason).(terminal := true), false)
      else
        var kind := if c.inc.buffer == [] then f.binary else c.inc.binary;
        match Reassemble(c.inc.buffer, c.inc.binary, f)
        case Rejected => (PushInto(c.(inc := idle.(binary := kind)), Failed, []).(terminal := true), false)
        case More(buffer, _) => (c.(inc := idle.(buffer := buffer, binary := kind)), true)
        case Whole(_, payload) =>
          var n := PushInto(c.(inc := idle.(buffer := [], binary := kind)),
                            if f.binary then BinaryMessage else TextMessage, payload);
          (n, !n.terminal)
  }

  /** OnHeadersAvailable after the upgrade: whether the request handle was taken, and whether the session had ended. */
  function UpgradeSection(c: Core, now: int): (Core, bool, bool) {
    if c.terminal then (c.(link := c.link.(request := false)), c.link.request, true)
    else
      var c' := c.(link := Link(false, true, true), inc := c.inc.(lastActivity := now));
      (PushInto(c', Connected, []), c.link.request, false)
  }

  /** AbortHandles: takes both handles out of their fields. */
  function AbortSection(c: Core): Core {
    c.(link := c.link.(websocket := false, request := false))
  }

  /** CheckDeadlinesLocked: whether a deadline has passed. */
  function DeadlineSection(c: Core, now: int): (Core, bool) {
    if !c.terminal && c.out.closing && c.out.deadline.Some? && now >= c.out.deadline.value then (FailSection(c), true)
    else if !c.terminal && c.link.connected && c.inc.timeout > 0 && now - c.inc.lastActivity >= c.inc.timeout
    then (FailSection(c), true)
    else (c, false)
  }

  /** The end of NextEvent: the first event is taken when its payload fits. */
  function PopSection(c: Core, capacity: nat): (Core, int) {
    if c.ev.queue == [] then (c, 0)
    else
      var next := c.ev.queue[0];
      if |next.payload| > capacity then (c, -2)
      else
        (c.(ev := c.ev.(queue := c.ev.queue[1..],
                        bytes := if c.ev.bytes < |next.payload| then 0 else c.ev.bytes - |next.payload|,
                        delivered := c.ev.delivered + [next])), 1)
  }

  // ----- Reassembly refines concatenation -----

  /** A message as its sender split it: one kind, and at least one part. */
  datatype Split = Split(binary: bool, parts: seq<Bytes>)

  function Joined(parts: seq<Bytes>): Bytes {
    if parts == [] then [] else Joined(parts[..|parts| - 1]) + parts[|parts| - 1]
  }

  /** The frames that carry a message: all parts but the last are fragments. */
  function FramesOf(m: Split): (f: seq<Frame>)
    ensures |f| == |m.parts|
  {
    seq(|m.parts|, i requires 0 <= i < |m.parts| => Data(m.binary, i + 1 < |m.parts|, m.parts[i]))
  }

  datatype Fed = Fed(messages: seq<(bool, Bytes)>, buffer: Bytes, binary: bool, ok: bool)

  /** Frames taken in one after the other by the branch of OnReadComplete; nothing follows a rejected one. */
  function Feed(s: Fed, frames: seq<Frame>): Fed {
    if frames == [] then s
    else
      var s' := Feed(s, frames[..|frames| - 1]);
      var f := frames[|frames| - 1];
      if !s'.ok || f.CloseFrame? then s'.(ok := false)
      else
        match Reassemble(s'.buffer, s'.binary, f)
        case Rejected => s'.(ok := false)
        case More(buffer, binary) => Fed(s'.messages, buffer, binary, true)
        case Whole(binary, payload) => Fed(s'.messages + [(binary, payload)], [], binary, true)
  }

  lemma {:induction false} FeedConcat(s: Fed, f: seq<Frame>, g: seq<Frame>)
    ensures Feed(s, f + g) == Feed(Feed(s, f), g)
  {
    if g == [] {
      assert f + g == f;
    } else {
      assert (f + g)[..|f + g| - 1] == f + g[..|g| - 1];
      FeedConcat(s, f, g[..|g| - 1]);
    }
  }

  /** After k fragments of a message the buffer holds just those, as long as they are not too long. */
  lemma {:induction false} FeedParts(s: Fed, m: Split, k: nat)
    requires s.ok && s.buffer == [] && k < |m.parts|
    ensures var s' := Feed(s, FramesOf(m)[..k]);
      if |Joined(m.parts[..k])| <= MAX_MESSAGE then
        s'.ok && s'.messages == s.messages && s'.buffer == Joined(m.parts[..k])
        && (s'.buffer != [] ==> s'.binary == m.binary)
      else !s'.ok
    ensures |Joined(m.parts[..k])| <= |Joined(m.parts)|
  {
    JoinedGrows(m.parts, k);
    if k == 0 {
    } else {
      var f := FramesOf(m)[..k];
      assert f[..k - 1] == FramesOf(m)[..k - 1];
      assert m.parts[..k][..k - 1] == m.parts[..k - 1];
      FeedParts(s, m, k - 1);
    }
  }

  lemma {:induction false} JoinedGrows(parts: seq<Bytes>, k: nat)
    requires k <= |parts|
    ensures |Joined(parts[..k])| <= |Joined(parts)|
  {
    if k < |parts| {
      assert parts[..|parts| - 1][..k] == parts[..k];
      JoinedGrows(parts[..|parts| - 1], k);
    } else {
      assert parts[..k] == parts;
    }
  }

  /** A message comes out as the concatenation of its parts exactly when it is not too long. */
  lemma FeedMessage(s: Fed, m: Split)
    requires s.ok && s.buffer == [] && m.parts != []
    ensures var s' := Feed(s, FramesOf(m));
      if |Joined(m.parts)| <= MAX_MESSAGE then
        s'.ok && s'.buffer == [] && s'.messages == s.messages + [(m.binary, Joined(m.parts))]
      else !s'.ok
  {
    var n := |m.parts| - 1;
    FeedParts(s, m, n);
    assert FramesOf(m)[..n + 1] == FramesOf(m);
  }

  function FramesOfAll(ms: seq<Split>): seq<Frame> {
    if ms == [] then [] else FramesOfAll(ms[..|ms| - 1]) + FramesOf(ms[|ms| - 1])
  }

  function MessagesOf(ms: seq<Split>): seq<(bool, Bytes)> {
    if ms == [] then [] else MessagesOf(ms[..|ms| - 1]) + [(ms[|ms| - 1].binary, Joined(ms[|ms| - 1].parts))]
  }

  ghost predicate WellSplit(ms: seq<Split>) {
    forall i :: 0 <= i < |ms| ==> ms[i].parts != []
  }

  ghost predicate NoneTooLong(ms: seq<Split>) {
    forall i :: 0 <= i < |ms| ==> |Joined(ms[i].parts)| <= MAX_MESSAGE
  }

  lemma {:induction false} NotOkForGood(s: Fed, frames: seq<Frame>)
    requires !s.ok
    ensures !Feed(s, frames).ok
  {
    if frames == [] {
    } else {
      NotOkForGood(s, frames[..|frames| - 1]);
    }
  }

  lemma LastSplit(ms: seq<Split>)
    requires ms != []
    ensures NoneTooLong(ms) <==> NoneTooLong(ms[..|ms| - 1]) && |Joined(ms[|ms| - 1].parts)| <= MAX_MESSAGE
  {
    var rest := ms[..|ms| - 1];
    assert forall i :: 0 <= i < |rest| ==> rest[i] == ms[i];
  }

  /**
   However messages are split into frames, the session puts out exactly the concatenations of their
   parts, in order, if none is too long; and it ends at the first one that is.
  */
  lemma {:induction false} ReassemblyIsConcatenation(ms: seq<Split>)
    requires WellSplit(ms)
    ensures var s := Feed(Fed([], [], false, true), FramesOfAll(ms));
      && (s.ok <==> NoneTooLong(ms))
      && (s.ok ==> s.buffer == [] && s.messages == MessagesOf(ms))
  {
    if ms == [] {
    } else {
      var rest, last := ms[..|ms| - 1], ms[|ms| - 1];
      ReassemblyIsConcatenation(rest);
      var s := Feed(Fed([], [], false, true), FramesOfAll(rest));
      FeedConcat(Fed([], [], false, true), FramesOfAll(rest), FramesOf(last));
      LastSplit(ms);
      if s.ok { FeedMessage(s, last); } else { NotOkForGood(s, FramesOf(last)); }
    }
  }

  /** Splitting the same messages in another way changes nothing. */
  lemma SplittingDoesNotMatter(ms: seq<Split>, ns: seq<Split>)
    requires WellSplit(ms) && WellSplit(ns) && MessagesOf(ms) == MessagesOf(ns)
    requires NoneTooLong(ms) && NoneTooLong(ns)
    ensures Feed(Fed([], [], false, true), FramesOfAll(ms)).messages
         == Feed(Fed([], [], false, true), FramesOfAll(ns)).messages
  {
    ReassemblyIsConcatenation(ms);
    ReassemblyIsConcatenation(ns);
  }
}
