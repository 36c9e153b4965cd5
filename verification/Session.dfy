/** The class Session: each mutex section is a method that changes the fields as SessionCore says. */
module SessionClass {
  import opened Options
  import opened SessionCore

  class Session {
    var request: bool
    var websocket: bool
    var connected: bool
    var terminal: bool
    var receiveOutstanding: bool
    var writeOutstanding: bool
    var shutdownOutstanding: bool
    var closeRequested: bool
    var closeDeadline: Option<int>
    var closeCode: nat
    var closeReason: Bytes
    var lastReceiveActivity: int
    const receiveTimeout: nat
    var fragmentBuffer: Bytes
    var fragmentBinary: bool
    var sendQueue: seq<Message>
    var queuedSendBytes: nat
    var events: seq<Event>
    var queuedEventBytes: nat
    var sequence: nat
    ghost var pushed: seq<Event>
    ghost var delivered: seq<Event>

    ghost function LinkView(): Link
      reads this`request, this`websocket, this`connected
    {
      Link(request, websocket, connected)
    }

    ghost function OutView(): Outgoing
      reads this`sendQueue, this`queuedSendBytes, this`writeOutstanding
      reads this`closeRequested, this`closeDeadline, this`closeCode, this`closeReason, this`shutdownOutstanding
    {
      Outgoing(sendQueue, queuedSendBytes, writeOutstanding, closeRequested, closeDeadline,
               Goodbye(closeCode, closeReason), shutdownOutstanding)
    }

    ghost function IncView(): Incoming
      reads this`receiveOutstanding, this`lastReceiveActivity, this`fragmentBuffer, this`fragmentBinary
    {
      Incoming(receiveOutstanding, lastReceiveActivity, receiveTimeout, fragmentBuffer, fragmentBinary)
    }

    ghost function EventView(): Events
      reads this`events, this`queuedEventBytes, this`sequence, this`pushed, this`delivered
    {
      Events(events, queuedEventBytes, sequence, pushed, delivered)
    }

    ghost function View(): Core
      reads this
    {
      Core(LinkView(), OutView(), IncView(), EventView(), terminal)
    }

    /** Both byte counters are exact. */
    ghost predicate Valid()
      reads this
    {
      queuedSendBytes == TotalBytes(sendQueue) && queuedEventBytes == PayloadBytes(events)
    }

    constructor (now: int, timeout: nat)
      ensures Valid()
      ensures View() == Core(Link(true, false, false),
                             Outgoing([], 0, false, false, None, Goodbye(NORMAL_CLOSE, []), false),
                             Incoming(false, now, timeout, [], false), Events([], 0, 0, [], []), false)
    {
      request, websocket, connected, terminal := true, false, false, false;
      receiveOutstanding, writeOutstanding, shutdownOutstanding := false, false, false;
      closeRequested, closeDeadline, closeCode, closeReason := false, None, NORMAL_CLOSE, [];
      lastReceiveActivity, receiveTimeout := now, timeout;
      fragmentBuffer, fragmentBinary := [], false;
      sendQueue, queuedSendBytes := [], 0;
      events, queuedEventBytes, sequence := [], 0, 0;
      pushed, delivered := [], [];
    }

    method PushEventLocked(kind: EventType, payload: Bytes)
      requires Valid()
      modifies this`events, this`queuedEventBytes, this`sequence, this`pushed, this`terminal
      ensures Valid() && View() == PushInto(old(View()), kind, payload)
    {
      PushOrOverflow(kind, payload);
    }

    /** The same, as it shows in the fields that it changes. */
    method PushOrOverflow(kind: EventType, payload: Bytes)
      requires Valid()
      modifies this`events, this`queuedEventBytes, this`sequence, this`pushed, this`terminal
      ensures Valid() && EventView() == Push(old(EventView()), kind, payload)
      ensures terminal == (old(terminal) || Overflows(old(EventView()), kind, payload))
    {
      ghost var e := EventView();
      PushKeepsCounter(e, kind, payload);
      if |events| >= MAX_EVENTS || queuedEventBytes + |payload| > MAX_EVENT_BYTES {
        if kind != Failed {
          sequence := sequence + 1;
          var overflow := Event(Failed, sequence, []);
          events, queuedEventBytes := [overflow], 0;
          terminal := true;
          pushed := pushed + [overflow];
        }
      } else {
        sequence := sequence + 1;
        var event := Event(kind, sequence, payload);
        queuedEventBytes := queuedEventBytes + |payload|;
        events := events + [event];
        pushed := pushed + [event];
      }
      assert EventView() == Push(e, kind, payload);
    }

    /** Fail, and Cancel up to its call of AbortHandles. */
    method Fail()
      requires Valid()
      modifies this`events, this`queuedEventBytes, this`sequence, this`pushed, this`terminal
      ensures Valid() && View() == FailSection(old(View()))
    {
      if terminal { return; }
      PushEventLocked(Failed, []);
      terminal := true;
    }

    method QueueSend(payload: Bytes, messageType: nat) returns (code: int, start: bool)
      requires Valid()
      modifies this`sendQueue, this`queuedSendBytes, this`writeOutstanding
      ensures Valid() && View() == QueueSection(old(View()), Message(messageType == 1, payload)).0
      ensures QueueSection(old(View()), Message(messageType == 1, payload)).1
           == if code == 0 then Accepted(start) else Refused(code)
    {
      if |payload| > MAX_MESSAGE { return -2, false; }
      var send := Message(messageType == 1, payload);
      if !connected || terminal || closeRequested { return -1, false; }
      if |sendQueue| >= MAX_SENDS || queuedSendBytes + |payload| > MAX_SEND_BYTES { return -3, false; }
      TotalBytesAdd(sendQueue, send);
      queuedSendBytes := queuedSendBytes + |payload|;
      sendQueue := sendQueue + [send];
      start := false;
      if !writeOutstanding {
        writeOutstanding := true;
        start := true;
      }
      return 0, start;
    }

    method StartCurrentSend() returns (data: Option<Message>)
      requires Valid()
      modifies this`writeOutstanding
      ensures Valid() && (View(), data) == SendSection(old(View()))
    {
      if sendQueue == [] || !websocket || terminal {
        writeOutstanding := false;
        return None;
      }
      data := Some(sendQueue[0]);
    }

    method OnWriteComplete() returns (startNext: bool, startShutdown: bool)
      requires Valid()
      modifies this`sendQueue, this`queuedSendBytes, this`writeOutstanding, this`shutdownOutstanding
      ensures Valid() && (View(), startNext, startShutdown) == WrittenSection(old(View()))
    {
      startNext, startShutdown := false, false;
      if sendQueue != [] {
        TotalBytesFirst(sendQueue);
        queuedSendBytes := queuedSendBytes - |sendQueue[0].bytes|;
        sendQueue := sendQueue[1..];
      }
      writeOutstanding := false;
      if terminal { return; }
      if sendQueue != [] {
        writeOutstanding := true;
        startNext := true;
      } else if closeRequested && !shutdownOutstanding {
        shutdownOutstanding := true;
        startShutdown := true;
      }
    }

    method RequestClose(code: nat, reason: Bytes, now: int, timeout: nat) returns (result: int, startShutdown: bool)
      requires Valid()
      modifies this`closeRequested, this`closeDeadline, this`closeCode, this`closeReason, this`shutdownOutstanding
      ensures Valid()
      ensures var (c, asked) := CloseSection(old(View()), code, reason, now + if timeout < 1 then 1 else timeout);
        View() == c && asked == if result == 0 then Accepted(startShutdown) else Refused(result)
    {
      if |reason| > MAX_REASON { return -2, false; }
      if terminal { return 0, false; }
      startShutdown := RecordClose(code, reason, now + if timeout < 1 then 1 else timeout);
      result := 0;
    }

    /** RequestClose under its lock, for a session that lasts. */
    method RecordClose(code: nat, reason: Bytes, deadline: int) returns (startShutdown: bool)
      modifies this`closeRequested, this`closeDeadline, this`closeCode, this`closeReason, this`shutdownOutstanding
      ensures startShutdown == (connected && !writeOutstanding && !old(shutdownOutstanding))
      ensures OutView() == old(OutView()).(closing := true, deadline := Some(deadline),
                                           goodbye := Recorded(code, reason),
                                           shutting := old(shutdownOutstanding) || startShutdown)
    {
      closeRequested := true;
      closeCode := if code == 0 then NORMAL_CLOSE else code;
      closeReason := reason;
      closeDeadline := Some(deadline);
      startShutdown := connected && !writeOutstanding && !shutdownOutstanding;
      if startShutdown { shutdownOutstanding := true; }
    }

    method StartShutdown() returns (goodbye: Option<Goodbye>)
      ensures goodbye == ShutdownSection(View())
    {
      if !websocket || terminal { return None; }
      goodbye := Some(Goodbye(closeCode, closeReason));
    }

    method OnShutdownComplete()
      requires Valid()
      modifies this`shutdownOutstanding
      ensures Valid() && View() == old(View()).(out := old(View()).out.(shutting := false))
    {
      shutdownOutstanding := false;
    }

    method StartReceive() returns (issue: bool)
      requires Valid()
      modifies this`receiveOutstanding
      ensures Valid() && (View(), issue) == ReceiveSection(old(View()))
    {
      if terminal || receiveOutstanding || !websocket { return false; }
      receiveOutstanding := true;
      issue := true;
    }

    method OnReadComplete(frame: Frame, now: int) returns (receiveAgain: bool)
      requires Valid()
      modifies this`receiveOutstanding, this`lastReceiveActivity, this`fragmentBuffer, this`fragmentBinary
      modifies this`events, this`queuedEventBytes, this`sequence, this`pushed, this`terminal
      ensures Valid() && (View(), receiveAgain) == ReadSection(old(View()), frame, now)
    {
      receiveAgain := false;
      receiveOutstanding := false;
      if terminal { return; }
      lastReceiveActivity := now;
      match frame {
        case CloseFrame(reason) =>
          PushEventLocked(Closed, reason);
          terminal := true;
        case Data(binary, fragment, bytes) =>
          OnDataFrame(binary, fragment, bytes);
          receiveAgain := !terminal;
      }
    }

    /** The branch of OnReadComplete for a data frame. */
    method OnDataFrame(binary: bool, fragment: bool, bytes: Bytes)
      requires Valid() && !terminal
      modifies this`fragmentBuffer, this`fragmentBinary
      modifies this`events, this`queuedEventBytes, this`sequence, this`pushed, this`terminal
      ensures Valid()
      ensures var c := old(View());
        var kind := if c.inc.buffer == [] then binary else c.inc.binary;
        View() == match Reassemble(c.inc.buffer, c.inc.binary, Data(binary, fragment, bytes))
                  case Rejected => PushInto(c.(inc := c.inc.(binary := kind)), Failed, []).(terminal := true)
                  case More(buffer, _) => c.(inc := c.inc.(buffer := buffer, binary := kind))
                  case Whole(_, payload) =>
                    PushInto(c.(inc := c.inc.(buffer := [], binary := kind)),
                             if binary then BinaryMessage else TextMessage, payload)
    {
      if fragmentBuffer == [] { fragmentBinary := binary; }
      if fragmentBinary != binary || |fragmentBuffer| + |bytes| > MAX_MESSAGE {
        PushEventLocked(Failed, []);
        terminal := true;
      } else {
        fragmentBuffer := fragmentBuffer + bytes;
        if !fragment {
          var payload := fragmentBuffer;
          fragmentBuffer := [];
          PushEventLocked(if binary then BinaryMessage else TextMessage, payload);
        }
      }
    }

    /** OnHeadersAvailable once the upgrade has completed. */
    method OnUpgraded(now: int) returns (requestToClose: bool, cancelledDuringUpgrade: bool)
      requires Valid()
      modifies this`request, this`websocket, this`connected, this`lastReceiveActivity
      modifies this`events, this`queuedEventBytes, this`sequence, this`pushed, this`terminal
      ensures Valid() && (View(), requestToClose, cancelledDuringUpgrade) == UpgradeSection(old(View()), now)
    {
      requestToClose := request;
      request := false;
      cancelledDuringUpgrade := terminal;
      if !cancelledDuringUpgrade {
        Install(now);
        PushEventLocked(Connected, []);
      }
    }

    method Install(now: int)
      modifies this`websocket, this`connected, this`lastReceiveActivity
      ensures LinkView() == Link(request, true, true) && IncView() == old(IncView()).(lastActivity := now)
    {
      websocket := true;
      connected := true;
      lastReceiveActivity := now;
    }

    method AbortHandles() returns (websocketToClose: bool, requestToClose: bool)
      requires Valid()
      modifies this`websocket, this`request
      ensures Valid() && View() == AbortSection(old(View()))
      ensures websocketToClose == old(websocket) && requestToClose == old(request)
    {
      websocketToClose, requestToClose := websocket, request;
      websocket, request := false, false;
    }

    method CheckDeadlinesLocked(now: int) returns (abort: bool)
      requires Valid()
      modifies this`events, this`queuedEventBytes, this`sequence, this`pushed, this`terminal
      ensures Valid() && (View(), abort) == DeadlineSection(old(View()), now)
    {
      abort := false;
      if !terminal && closeRequested && closeDeadline.Some? && now >= closeDeadline.value {
        PushEventLocked(Failed, []);
        terminal := true;
        abort := true;
      } else if !terminal && connected && receiveTimeout > 0 && now - lastReceiveActivity >= receiveTimeout {
        PushEventLocked(Failed, []);
        terminal := true;
        abort := true;
      }
    }

    /** The deadline of a close request has come, or the peer was not heard of for the receive timeout. */
    predicate PastDeadline(now: int)
      reads this`closeRequested, this`closeDeadline, this`connected, this`lastReceiveActivity
    {
      || (closeRequested && closeDeadline.Some? && now >= closeDeadline.value)
      || (connected && receiveTimeout > 0 && now >= lastReceiveActivity + receiveTimeout)
    }

    /** The end of NextEvent, under the lock again. */
    method TakeEvent(capacity: nat) returns (code: int, event: Option<Event>)
      requires Valid()
      modifies this`events, this`queuedEventBytes, this`delivered
      ensures Valid() && (View(), code) == PopSection(old(View()), capacity)
      ensures event == if old(events) == [] then None else Some(old(events)[0])
    {
      if events == [] { return 0, None; }
      var next := events[0];
      if |next.payload| > capacity { return -2, Some(next); }
      PayloadBytesFirst(events);
      queuedEventBytes := queuedEventBytes - |next.payload|;
      events := events[1..];
      delivered := delivered + [next];
      return 1, Some(next);
    }

    /**
     NextEvent after its wait: the deadlines, the handles when one has passed, and the first event. Between
     these sections the lock is free; this is the call when no other thread comes in between.
    */
    method NextEvent(now: int, capacity: nat) returns (code: int, event: Option<Event>)
      requires Valid()
      modifies this`events, this`queuedEventBytes, this`delivered, this`sequence, this`pushed, this`terminal
      modifies this`websocket, this`request
      ensures Valid()
      ensures var (checked, passed) := DeadlineSection(old(View()), now);
        var left := if passed then AbortSection(checked) else checked;
        && (View(), code) == PopSection(left, capacity)
        && event == if left.ev.queue == [] then None else Some(left.ev.queue[0])
      ensures !old(terminal) && PastDeadline(now) ==> terminal && !websocket && !request
      ensures old(terminal) || !PastDeadline(now) ==> websocket == old(websocket) && request == old(request)
    {
      var abort := CheckDeadlinesLocked(now);
      if abort {
        var _, _ := AbortHandles();
      }
      code, event := TakeEvent(capacity);
    }
  }
}
