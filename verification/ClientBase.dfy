/** The receive thread of clientbase.cpp: loops over a fixed buffer, fed by an arbitrary schedule of
    arrivals, timeouts, stops and failures, refining the parser and the handling of its items. */
module ClientBase {
  import opened Words
  import opened Frames
  import opened Handling
  import opened Options
  import opened Md5Spec
  import Md5Checksum

  /** What one pass through the stop check, select and recv meets. */
  datatype NetEvent =
    | StopRequested         // another thread has cleared the keep-running flag
    | TimedOut              // select timed out
    | SelectFailed
    | RecvFailed
    | PeerClosed
    | Arrived(limit: nat)   // recv returns at most this many bytes, and at least one

  datatype Alarm = ServerClose | SocketError

  /** How the thread leaves; at an overrun, a received byte has no place in the buffer, and what the
      program does from then on is not defined. */
  datatype Exit = Running | Stopped | Closed(alarm: Alarm) | Overrun

  /** The socket: the bytes the peer sends, how many were received, and the schedule to come. */
  class Network {
    const stream: seq<Byte>
    var at: nat
    var schedule: seq<NetEvent>
    ghost var log: seq<NetEvent>  // the events that have happened
    ghost const plan: seq<NetEvent>

    ghost predicate Valid()
      reads this
    {
      at <= |stream| && log + schedule == plan
    }

    constructor (stream: seq<Byte>, schedule: seq<NetEvent>)
      ensures Valid() && this.stream == stream && at == 0 && this.schedule == plan == schedule && log == []
    {
      this.stream, this.at, this.schedule, this.log, this.plan := stream, 0, schedule, [], schedule;
    }

    /** The next event; when the schedule ends, the thread is asked to stop. */
    method Next() returns (event: NetEvent)
      requires Valid()
      modifies this`schedule, this`log
      ensures Valid()
      ensures old(schedule) == [] ==> event == StopRequested && schedule == [] && log == old(log)
      ensures old(schedule) != [] ==> [event] + schedule == old(schedule) && log == old(log) + [event]
    {
      if schedule == [] {
        return StopRequested;
      }
      event, schedule := schedule[0], schedule[1..];
      log := log + [event];
    }

    /** recv into buffer + from + have: receives up to want bytes; none are there when the peer has sent
        no more yet. Bytes that go past the end of the buffer are lost to it. */
    method Recv(buffer: array<Byte>, from: nat, have: nat, want: nat, limit: nat) returns (ret: nat)
      requires Valid() && from + have <= buffer.Length
      modifies this`at, buffer
      ensures Valid() && ret <= want && at == old(at) + ret
      ensures (ret >= 1 || want == 0 || at == |stream|) && (ret <= limit || ret <= 1)
      ensures buffer[..from] == old(buffer[..from])
      ensures
        var kept := Min(ret, buffer.Length - from - have);
        && buffer[from..from + have + kept] == old(buffer[from..from + have]) + stream[old(at)..old(at) + kept]
        && buffer[from + have + kept..] == old(buffer[from + have + kept..])
    {
      ret := Min(Min(if limit == 0 then 1 else limit, want), |stream| - at);
      Md5Checksum.Memcpy(buffer, from + have, stream[at..at + Min(ret, buffer.Length - from - have)]);
      at := at + ret;
    }
  }

  // ---- Frames in the receive buffer ----

  predicate WholeFrame(frame: seq<Byte>) {
    |frame| >= HEADER && |frame| == HEADER + PayloadLength(frame[..HEADER])
  }

  /** Every byte has its place in the buffer: as many bytes on as those of its frame before it. */
  ghost predicate InBounds(bytes: seq<Byte>) {
    forall k: nat | k < |bytes| :: |Parse(bytes[..k]).rest| < BUFFER_SIZE
  }

  /** What there is of every frame fits the buffer. */
  predicate Fits(stream: seq<Byte>)
    decreases |stream|
  {
    if Complete(stream) then
      var end := HEADER + PayloadLength(stream[..HEADER]);
      end <= BUFFER_SIZE && Fits(stream[end..])
    else
      |stream| <= BUFFER_SIZE
  }

  /** No more than one frame. */
  predicate WithinFrame(bytes: seq<Byte>) {
    |bytes| >= HEADER ==> |bytes| <= HEADER + PayloadLength(bytes[..HEADER])
  }

  // ---- What a run of the thread owes to its schedule ----

  ghost predicate Quiet(events: seq<NetEvent>) {
    forall e <- events :: e.TimedOut? || e.Arrived?
  }

  ghost function Arrivals(events: seq<NetEvent>): nat {
    if events == [] then 0
    else Arrivals(events[..|events| - 1]) + (if events[|events| - 1].Arrived? then 1 else 0)
  }

  /** A failing select, or recv returning 0, is taken for the peer closing the connection. */
  function AlarmOf(event: NetEvent): Option<Alarm> {
    match event
    case SelectFailed => Some(ServerClose)
    case RecvFailed => Some(SocketError)
    case PeerClosed => Some(ServerClose)
    case _ => None
  }

  /** The failures that each alarm reports: recv's, or the peer's closing and select's. */
  predicate Causes(event: NetEvent, alarm: Alarm) {
    match alarm
    case SocketError => event.RecvFailed?
    case ServerClose => event.PeerClosed? || event.SelectFailed?
  }

  /** The events met explain the exit: a thread leaves only when asked to stop, when the schedule is
      exhausted, or at a failure, which it reports as what it is. */
  ghost predicate Explains(events: seq<NetEvent>, exhausted: bool, exit: Exit) {
    match exit
    case Running => Quiet(events)
    case Stopped =>
      || (exhausted && Quiet(events))
      || (events != [] && events[|events| - 1] == StopRequested && Quiet(events[..|events| - 1]))
    case Closed(alarm) =>
      events != [] && Causes(events[|events| - 1], alarm) && Quiet(events[..|events| - 1])
    case Overrun => Quiet(events)
  }

  /** What happened on the network since it was at at0 with the log log0: every arrival brought at
      least one byte, until the peer's stream was used up. */
  ghost predicate Since(net: Network, log0: seq<NetEvent>, at0: nat, exit: Exit)
    reads net
  {
    && at0 <= net.at <= |net.stream| && log0 <= net.log
    && Explains(net.log[|log0|..], net.schedule == [], exit)
    && (at0 + Arrivals(net.log[|log0|..]) <= net.at || net.at == |net.stream|)
  }

  lemma {:induction false} ArrivalsConcat(a: seq<NetEvent>, b: seq<NetEvent>)
    ensures Arrivals(a + b) == Arrivals(a) + Arrivals(b)
  {
    if b == [] {
      assert a + b == a;
    } else {
      assert (a + b)[..|a + b| - 1] == a + b[..|b| - 1];
      ArrivalsConcat(a, b[..|b| - 1]);
    }
  }

  lemma SinceEarlier(net: Network, log0: seq<NetEvent>, at0: nat, log1: seq<NetEvent>, at1: nat, exit: Exit)
    requires log0 <= log1 && at0 <= at1 <= |net.stream| && Quiet(log1[|log0|..])
    requires at0 + Arrivals(log1[|log0|..]) <= at1 || at1 == |net.stream|
    requires Since(net, log1, at1, exit)
    ensures Since(net, log0, at0, exit)
  {
    var a, b := log1[|log0|..], net.log[|log1|..];
    assert net.log[|log0|..] == a + b;
    ArrivalsConcat(a, b);
    if b != [] {
      assert (a + b)[..|a + b| - 1] == a + b[..|b| - 1];
    }
  }

  /** One more event, after quiet ones. */
  lemma OneMore(net: Network, log0: seq<NetEvent>, at0: nat, met: seq<NetEvent>, event: NetEvent, exit: Exit)
    requires net.Valid() && at0 <= net.at && Quiet(met)
    requires net.log == log0 + met + [event] || (net.log == log0 + met && net.schedule == [] && event == StopRequested)
    requires match exit
      case Running => event.TimedOut? || event.Arrived?
      case Stopped => event == StopRequested
      case Closed(alarm) => Causes(event, alarm)
      case Overrun => event.Arrived?
    requires at0 + Arrivals(met) + (if event.Arrived? then 1 else 0) <= net.at || net.at == |net.stream|
    ensures Since(net, log0, at0, exit)
  {
    assert (met + [event])[..|met|] == met;
    if net.log == log0 + met + [event] {
      assert net.log[|log0|..] == met + [event];
    } else {
      assert net.log[|log0|..] == met;
    }
  }

  /** The schedule brings this many arrivals before anything but time-outs. */
  ghost predicate Brings(schedule: seq<NetEvent>, n: nat) {
    exists q :: 0 <= q <= |schedule| && Quiet(schedule[..q]) && Arrivals(schedule[..q]) >= n
  }

  /** Unless it overruns, a thread leaves only after the time-outs and arrivals that come first. */
  lemma QuietGoesOn(quiet: seq<NetEvent>, events: seq<NetEvent>, plan: seq<NetEvent>, exit: Exit, exhausted: bool)
    requires quiet <= plan && events <= plan && Quiet(quiet) && (exhausted ==> events == plan)
    requires Explains(events, exhausted, exit) && exit != Running && exit != Overrun
    ensures quiet <= events
  {
    forall i | 0 <= i < |quiet| ensures plan[i].TimedOut? || plan[i].Arrived? {
      assert plan[i] == quiet[i];
    }
  }

  /** A thread that has left received the whole stream, if enough arrivals were to come. */
  lemma EnoughArrivals(net: Network, log0: seq<NetEvent>, at0: nat, exit: Exit)
    requires net.Valid() && Since(net, log0, at0, exit) && exit != Running && exit != Overrun
    requires Brings(net.plan[|log0|..], |net.stream| - at0)
    ensures net.at == |net.stream|
  {
    var events, plan := net.log[|log0|..], net.plan[|log0|..];
    var q :| 0 <= q <= |plan| && Quiet(plan[..q]) && Arrivals(plan[..q]) >= |net.stream| - at0;
    assert plan == events + net.schedule;
    QuietGoesOn(plan[..q], events, plan, exit, net.schedule == []);
    assert events == plan[..q] + events[q..];
    ArrivalsConcat(plan[..q], events[q..]);
  }

  lemma NothingSince(net: Network)
    requires net.Valid()
    ensures Since(net, net.log, net.at, Running)
  {
  }

  lemma ClosedForCause(net: Network, log0: seq<NetEvent>, at0: nat, exit: Exit)
    requires Since(net, log0, at0, exit) && exit.Closed?
    ensures net.log != [] && Causes(net.log[|net.log| - 1], exit.alarm)
  {
  }

  lemma SinceParts(net: Network, log0: seq<NetEvent>, at0: nat)
    requires Since(net, log0, at0, Running)
    ensures log0 <= net.log && at0 <= net.at <= |net.stream| && Quiet(net.log[|log0|..])
    ensures at0 + Arrivals(net.log[|log0|..]) <= net.at || net.at == |net.stream|
  {
  }

  class Client {
    var socketOpen: bool
    var keepRunning: bool
    var connecting: bool
    var lastSent: Option<FrameBytes>
    var sendSucceeded: bool
    var replyHash: Option<Hash>
    var awaited: Word
    var received: seq<Byte>
    var executed: seq<Event>
    var verified: seq<Arrival>
    var wire: seq<Byte>
    var sendWakeups: nat
    var connectWakeups: nat
    var exitWakeups: nat
    var raised: seq<Alarm>

    function Fields(): State
      reads this
    {
      State(lastSent, sendSucceeded, replyHash, awaited, received, executed, verified, wire, sendWakeups,
            connectWakeups)
    }

    ghost predicate Alive()
      reads this
    {
      socketOpen && keepRunning
    }

    twostate predicate OnlyFieldsChange()
      reads this
    {
      socketOpen == old(socketOpen) && keepRunning == old(keepRunning) && connecting == old(connecting)
      && exitWakeups == old(exitWakeups) && raised == old(raised)
    }

    method CoreSend(data: seq<Byte>)
      modifies this`wire
      ensures wire == old(wire) + data
    {
      wire := wire + data;
    }

    method Reply(successful: bool)
      modifies this
      ensures OnlyFieldsChange()
      ensures Fields() == if socketOpen then Replied(old(Fields()), successful) else old(Fields())
    {
      if !socketOpen || replyHash.None? {
        return;
      }
      CoreSend(ReplyFrame(replyHash.value, successful));
      replyHash := None;
    }

    method DealReplyMessage(hash: Hash, isSucceeded: bool)
      modifies this
      ensures OnlyFieldsChange()
      ensures Fields() == Handled(old(Fields()), Item.Reply(hash, isSucceeded))
    {
      var tmpdata := lastSent;
      if tmpdata.Some? && hash == tmpdata.value[..16] {
        if isSucceeded {
          sendSucceeded := true;
          sendWakeups := sendWakeups + 1;
        } else {
          CoreSend(tmpdata.value);
        }
      }
    }

    /** The digest of everything after the header's digest, compared with it. */
    method CheckFrame(buffer: array<Byte>, length: nat) returns (correct: bool)
      requires buffer.Length == BUFFER_SIZE && HEADER + length <= BUFFER_SIZE
      ensures correct <==> Verified(buffer[..HEADER], buffer[HEADER..HEADER + length])
    {
      hide Digest;
      ghost var header: Header := buffer[..HEADER];
      assert buffer[16..HEADER + length] == header[16..] + buffer[HEADER..HEADER + length];
      var md5hashcode := Md5Checksum.MDBytes(buffer[16..HEADER + length]);
      correct := md5hashcode[..] == buffer[..16];
      assert buffer[..16] == HashOf(header);
    }

    /** Checks a completed data frame, hands it on, and answers it, unless the socket has been closed. */
    method DealDataFrame(buffer: array<Byte>, length: nat)
      requires buffer.Length == BUFFER_SIZE && HEADER + length <= BUFFER_SIZE
      modifies this
      ensures OnlyFieldsChange()
      ensures
        var header, payload := buffer[..HEADER], buffer[HEADER..HEADER + length];
        Fields() == if socketOpen then Handled(old(Fields()), Data(header, payload))
                    else Checked(old(Fields()), header, payload)
    {
      hide Verified, HeaderTail, ReplyFrame, TypeOf, HashOf;
      var header: Header, payload := buffer[..HEADER], buffer[HEADER..HEADER + length];
      var correct := CheckFrame(buffer, length);
      replyHash := Some(HashOf(header));
      if correct {
        var event := Event(TypeOf(header), payload);
        verified := verified + [Arrival(event, TypeOf(header) == awaited)];
        if TypeOf(header) == awaited {
          awaited, received := 0, payload;
        } else {
          executed := executed + [event];
        }
        Reply(true);
      } else {
        Reply(false);
      }
    }

    /** Wakes the sender, stops the thread, answers a frame still unanswered and closes the socket. */
    method DisconnectForcibly() returns (done: bool)
      modifies this
      ensures done <==> old(socketOpen)
      ensures connecting == old(connecting) && exitWakeups == old(exitWakeups) && raised == old(raised)
      ensures done ==> !socketOpen && !keepRunning && Fields() == Disconnected(old(Fields()))
      ensures done ==> sendWakeups == old(sendWakeups) + 1 && replyHash.None?
      ensures done && old(replyHash).Some? ==> wire == old(wire) + ReplyFrame(old(replyHash).value, true)
      ensures !done ==> OnlyFieldsChange() && Fields() == old(Fields())
    {
      if !socketOpen {
        return false;
      }
      sendWakeups := sendWakeups + 1;
      keepRunning := false;
      Reply(true);
      socketOpen := false;
      done := true;
    }

    /** Send as far as its wait for the reply. Inputs are whether the last send has timed out, and
        whether this one's frame goes out. */
    method StartSend(typ: Word, data: array?<Byte>, length: Word, timedOut: bool, goesOut: bool)
      returns (started: bool)
      requires length + HEADER < WORD_LIMIT && (data != null ==> length <= data.Length)
      modifies this
      ensures started <==> old(socketOpen && sendSucceeded) && (data != null || length == 0) && goesOut
      ensures started ==> OnlyFieldsChange()
      ensures started ==> Fields() == Begun(old(Fields()), typ, if data == null then [] else data[..length])
      ensures old(socketOpen && sendSucceeded) && (data != null || length == 0) && !goesOut ==>
        && OnlyFieldsChange()
        && Fields() == Begun(old(Fields()), typ, if data == null then [] else data[..length]).(wire := old(wire))
      ensures old(socketOpen && sendSucceeded) && data == null && length != 0 ==>
        OnlyFieldsChange() && Fields() == old(Fields())
      ensures !old(socketOpen) || (!old(sendSucceeded) && !timedOut) ==> OnlyFieldsChange() && Fields() == old(Fields())
      ensures old(socketOpen && !sendSucceeded) && timedOut ==> !socketOpen && Fields() == Disconnected(old(Fields()))
      ensures old(socketOpen && !sendSucceeded) && timedOut ==>
        raised == old(raised) + (if connecting then [] else [SocketError]) && exitWakeups == old(exitWakeups)
    {
      hide DataFrame, Disconnected;
      if !socketOpen {
        return false;
      }
      if !sendSucceeded {
        if timedOut {
          var _ := DisconnectForcibly();
          if !connecting {
            raised := raised + [SocketError];
          }
        }
        return false;
      }
      var frame := CreateFrame(data, length, typ);
      if frame == null {
        return false;
      }
      lastSent := Some(frame[..]);
      sendSucceeded := false;
      if !goesOut {
        return false;
      }
      CoreSend(frame[..]);
      return true;
    }

    /** Receive names the type it waits for, and empties its slot: whatever the receive thread handles
        next, the slot will hold the first verified frame of that type, or nothing. */
    method InitReceiveDataAndType(typ: Word)
      modifies this
      ensures OnlyFieldsChange() && Fields() == Armed(old(Fields()), typ)
      ensures forall items | FromParser(items) ::
        && SlotOf(HandledAll(Fields(), items)) == Expected(typ, items)
        && HandledAll(Fields(), items).executed == old(executed) + PassedOn(typ, items)
    {
      ghost var s := Fields();
      awaited, received := typ, [];
      forall items | FromParser(items)
        ensures SlotOf(HandledAll(Fields(), items)) == Expected(typ, items)
        ensures HandledAll(Fields(), items).executed == s.executed + PassedOn(typ, items)
      {
        InitialisedSlot(s, typ, items);
      }
    }

    /** The thread's way out after a failure: disconnect, raise the event, wake Disconnect. */
    method Fail(alarm: Alarm)
      requires socketOpen
      modifies this
      ensures !socketOpen && !keepRunning && connecting == old(connecting)
      ensures Fields() == Disconnected(old(Fields()))
      ensures raised == old(raised) + (if connecting then [] else [alarm])
      ensures exitWakeups == old(exitWakeups) + 1
    {
      var _ := DisconnectForcibly();
      if !connecting {
        raised := raised + [alarm];
      }
      exitWakeups := exitWakeups + 1;
    }

    /** One pass of a receive loop: the stop check, select, and recv into buffer + from + have. */
    method Poll(net: Network, buffer: array<Byte>, from: nat, have: nat, want: nat,
            ghost log0: seq<NetEvent>, ghost at0: nat)
      returns (exit: Exit, ret: nat)
      requires Alive() && net.Valid() && want > 0 && from + have <= buffer.Length
      requires Since(net, log0, at0, Running)
      modifies this, net, buffer
      ensures net.Valid() && ret <= want && net.at == old(net.at) + ret && Since(net, log0, at0, exit)
      ensures buffer[..from] == old(buffer[..from])
      ensures exit == Overrun <==> from + have + ret > buffer.Length
      ensures exit != Overrun ==>
        buffer[from..from + have + ret] == old(buffer[from..from + have]) + net.stream[old(net.at)..net.at]
      ensures Left(old(Fields()), old(raised), old(exitWakeups), old(connecting), exit)
      ensures exit != Running && exit != Overrun ==> ret == 0
      ensures |net.schedule| <= |old(net.schedule)|
      ensures exit == Running ==> |net.schedule| < |old(net.schedule)|
    {
      hide Disconnected, Explains, Since;
      SinceParts(net, log0, at0);
      ghost var met := net.log[|log0|..];
      exit, ret := Running, 0;
      var event := net.Next();
      var alarm := AlarmOf(event);
      if alarm.Some? {
        Fail(alarm.value);
        exit := Closed(alarm.value);
      } else if event.StopRequested? {
        keepRunning, exitWakeups, exit := false, exitWakeups + 1, Stopped;
      } else if event.Arrived? {
        ret := net.Recv(buffer, from, have, want, event.limit);
        if from + have + ret > buffer.Length {
          exit := Overrun;
        }
      }
      OneMore(net, log0, at0, met, event, exit);
    }

    /** One receive loop, for a header or for a payload: fills buffer[from..from + want]. Every byte
        received stands at its place in the buffer, also when the thread leaves; it overruns exactly when
        a byte received has no place there. */
    method ReceiveInto(net: Network, buffer: array<Byte>, from: nat, want: nat) returns (exit: Exit)
      requires Alive() && net.Valid() && from <= buffer.Length
      modifies this, net, buffer
      ensures net.Valid() && old(net.at) <= net.at <= old(net.at) + want
      ensures buffer[..from] == old(buffer[..from])
      ensures exit == Overrun <==> from + (net.at - old(net.at)) > buffer.Length
      ensures exit != Overrun ==> buffer[from..from + (net.at - old(net.at))] == net.stream[old(net.at)..net.at]
      ensures Left(old(Fields()), old(raised), old(exitWakeups), old(connecting), exit)
      ensures exit == Running ==> net.at == old(net.at) + want
      ensures exit != Running && exit != Overrun ==> net.at < old(net.at) + want
      ensures Since(net, old(net.log), old(net.at), exit)
      ensures |net.schedule| <= |old(net.schedule)|
      ensures exit == Running && want > 0 ==> |net.schedule| < |old(net.schedule)|
    {
      hide Disconnected, Since;
      var readlength: nat := 0;
      NothingSince(net);
      while want > readlength
        invariant Alive() && net.Valid() && readlength <= want && net.at == old(net.at) + readlength
        invariant OnlyFieldsChange() && Fields() == old(Fields())
        invariant buffer[..from] == old(buffer[..from])
        invariant from + readlength <= buffer.Length
        invariant buffer[from..from + readlength] == net.stream[old(net.at)..net.at]
        invariant |net.schedule| <= |old(net.schedule)|
        invariant readlength > 0 ==> |net.schedule| < |old(net.schedule)|
        invariant Since(net, old(net.log), old(net.at), Running)
        decreases |net.schedule|
      {
        ghost var mid := net.at;
        var ret: nat;
        exit, ret := Poll(net, buffer, from, readlength, want - readlength, old(net.log), old(net.at));
        assert net.stream[old(net.at)..net.at] == net.stream[old(net.at)..mid] + net.stream[mid..net.at];
        if exit != Running {
          return;
        }
        readlength := readlength + ret;
        assert buffer[from..from + readlength] == net.stream[old(net.at)..net.at];
      }
      exit := Running;
    }

    /** How the thread's exit leaves a client that had handled everything up to state s. */
    ghost predicate Left(s: State, raised0: seq<Alarm>, exitWakeups0: nat, connecting0: bool, exit: Exit)
      reads this
    {
      connecting == connecting0 &&
      match exit
      case Running => Alive() && Fields() == s && raised == raised0 && exitWakeups == exitWakeups0
      case Stopped =>
        !(socketOpen && keepRunning) && Fields() == s && raised == raised0 && exitWakeups == exitWakeups0 + 1
      case Closed(alarm) =>
        && !socketOpen && Fields() == Disconnected(s) && exitWakeups == exitWakeups0 + 1
        && raised == raised0 + (if connecting then [] else [alarm])
      case Overrun => true
    }

    /** Drops a frame without the flag, deals with a header that is a whole message, and leaves a
        data frame's header alone. */
    method DealHeader(header: Header) returns (consumed: bool)
      modifies this
      ensures OnlyFieldsChange()
      ensures consumed <==> !(Flagged(header) && TypeOf(header) > MSG_CONNECT)
      ensures Fields() == if consumed then Handled(old(Fields()), ItemOf(header, [])) else old(Fields())
    {
      if !Flagged(header) {
        return true;
      }
      var typ := TypeOf(header);
      if typ == MSG_DATA_CORRECT {
        DealReplyMessage(HashOf(header), true);
        return true;
      }
      if typ == MSG_DATA_ERROR {
        DealReplyMessage(HashOf(header), false);
        return true;
      }
      if typ == MSG_CONNECT {
        connectWakeups := connectWakeups + 1;
        return true;
      }
      return false;
    }

    /** Receives the payload that a data frame's header declares, and deals with the frame. */
    method ReceiveData(net: Network, buffer: array<Byte>, header: Header) returns (exit: Exit)
      requires Alive() && net.Valid() && buffer.Length == BUFFER_SIZE && buffer[..HEADER] == header
      modifies this, net, buffer
      ensures net.Valid() && old(net.at) <= net.at <= old(net.at) + LengthOf(header)
      ensures |net.schedule| <= |old(net.schedule)|
      ensures exit == Overrun <==> HEADER + (net.at - old(net.at)) > BUFFER_SIZE
      ensures exit == Running ==>
        && net.at == old(net.at) + LengthOf(header) && OnlyFieldsChange()
        && Fields() == Handled(old(Fields()), Data(header, net.stream[old(net.at)..net.at]))
      ensures exit != Running && exit != Overrun ==>
        && net.at < old(net.at) + LengthOf(header)
        && buffer[..HEADER + (net.at - old(net.at))] == header + net.stream[old(net.at)..net.at]
      ensures exit != Running ==> Left(old(Fields()), old(raised), old(exitWakeups), old(connecting), exit)
      ensures Since(net, old(net.log), old(net.at), exit)
    {
      hide Handled, LengthOf, Since;
      var datalength := LengthOf(header);
      exit := ReceiveInto(net, buffer, HEADER, datalength);
      if exit == Running {
        DealDataFrame(buffer, datalength);
      } else if exit != Overrun {
        var have := HEADER + (net.at - old(net.at));
        assert buffer[..have] == buffer[..HEADER] + buffer[HEADER..have];
      }
    }

    /** One pass of the outer loop: a whole frame is received and handled, or the thread leaves in
        the middle of one; what it has of it then stands at the start of the buffer, and it overruns
        exactly when that is more than the buffer holds. */
    method ReceiveFrame(net: Network, buffer: array<Byte>) returns (exit: Exit)
      requires Alive() && net.Valid() && buffer.Length == BUFFER_SIZE
      modifies this, net, buffer
      ensures net.Valid() && old(net.at) <= net.at && |net.schedule| <= |old(net.schedule)|
      ensures WithinFrame(net.stream[old(net.at)..net.at])
      ensures exit == Overrun <==> net.at - old(net.at) > BUFFER_SIZE
      ensures exit == Running ==>
        var frame := net.stream[old(net.at)..net.at];
        && WholeFrame(frame)
        && OnlyFieldsChange() && Fields() == Handled(old(Fields()), ItemOf(frame[..HEADER], frame[HEADER..]))
      ensures exit == Running ==> |net.schedule| < |old(net.schedule)|
      ensures Since(net, old(net.log), old(net.at), exit)
      ensures exit != Running && exit != Overrun ==>
        && !Complete(net.stream[old(net.at)..net.at])
        && buffer[..net.at - old(net.at)] == net.stream[old(net.at)..net.at]
      ensures exit != Running ==> Left(old(Fields()), old(raised), old(exitWakeups), old(connecting), exit)
    {
      hide Handled, ItemOf, Since, WholeFrame, WithinFrame, Complete, LengthOf, TypeOf, Disconnected;
      ghost var start := net.at;
      exit := ReceiveInto(net, buffer, 0, HEADER);
      StartOfFrame(net.stream[start..net.at]);
      if exit != Running {
        return;
      }
      SinceParts(net, old(net.log), old(net.at));
      var header: Header := buffer[..HEADER];
      assert net.stream[start..net.at] == header + [];
      FrameParts(header, []);
      var consumed := DealHeader(header);
      if !consumed {
        ghost var log1, at1 := net.log, net.at;
        exit := ReceiveData(net, buffer, header);
        SinceEarlier(net, old(net.log), old(net.at), log1, at1, exit);
        assert net.stream[start..net.at] == header + net.stream[at1..net.at];
        FrameParts(header, net.stream[at1..net.at]);
        DataItem(header, net.stream[at1..net.at]);
      }
    }

    /** Whatever the schedule, the thread handles exactly the items of the bytes it received, in
        order, and leaves an incomplete last frame unhandled; until it overruns its buffer, which is when
        a byte received has no place there, and which happens on a stream received to its end exactly
        if the stream does not fit. */
    method Run(net: Network) returns (exit: Exit)
      requires net.Valid()
      modifies this, net
      ensures net.Valid() && net.at >= old(net.at)
      ensures exit != Running
      ensures old(Alive()) ==> Since(net, old(net.log), old(net.at), exit)
      ensures old(Alive()) && exit == Closed(SocketError) ==> net.log != [] && net.log[|net.log| - 1] == RecvFailed
      ensures old(Alive()) && exit == Closed(ServerClose) ==>
        net.log != [] && (net.log[|net.log| - 1] == SelectFailed || net.log[|net.log| - 1] == PeerClosed)
      ensures exit == Overrun <==> !InBounds(net.stream[old(net.at)..net.at])
      ensures Fits(net.stream[old(net.at)..]) ==> exit != Overrun
      ensures old(Alive()) && Brings(old(net.schedule), |net.stream| - old(net.at)) ==>
        (exit == Overrun <==> !Fits(net.stream[old(net.at)..]))
      ensures Left(HandledAll(old(Fields()), Parse(net.stream[old(net.at)..net.at]).items),
                   old(raised), old(exitWakeups), old(connecting), exit)
    {
      hide Handled, Parse, Replied, ItemOf, HandledAll, Complete, WholeFrame, WithinFrame, Fits, InBounds;
      hide Since, Brings;
      var buffer := new Byte[BUFFER_SIZE];
      ghost var s, start, schedule := Fields(), net.at, net.schedule;
      ghost var done: seq<Item> := [];
      NothingDone(s);
      NoBytes();
      NothingSince(net);
      assert net.stream[start..start] == [];
      while socketOpen && keepRunning
        invariant net.Valid() && start <= net.at
        invariant InBounds(net.stream[start..net.at])
        invariant Parse(net.stream[start..net.at]) == Parsed(done, [])
        invariant OnlyFieldsChange() && Fields() == HandledAll(s, done)
        invariant Since(net, old(net.log), start, Running)
        decreases |net.schedule|
      {
        ghost var boundary, log1 := net.at, net.log;
        SinceParts(net, old(net.log), start);
        exit := ReceiveFrame(net, buffer);
        SinceEarlier(net, old(net.log), start, log1, boundary, exit);
        ghost var frame := net.stream[boundary..net.at];
        assert net.stream[start..net.at] == net.stream[start..boundary] + frame;
        FrameInBounds(net.stream[start..boundary], frame);
        if exit != Running {
          if exit != Overrun {
            PartialFrame(net.stream[start..boundary], frame, done);
          }
          ReceivedFits(net, old(net.log), start, exit);
          if exit.Closed? {
            ClosedForCause(net, old(net.log), start, exit);
          }
          return;
        }
        FrameDone(s, net.stream[start..boundary], frame, done);
        done := done + [ItemOf(frame[..HEADER], frame[HEADER..])];
      }
      exitWakeups := exitWakeups + 1;
      exit := Stopped;
    }
  }

  /** A header and as much as there is of its payload. */
  lemma FrameParts(header: Header, payload: seq<Byte>)
    ensures
      var frame := header + payload;
      && frame[..HEADER] == header && frame[HEADER..] == payload
      && (|payload| <= PayloadLength(header) ==> WithinFrame(frame))
      && (|payload| < PayloadLength(header) ==> !Complete(frame))
      && (|payload| == PayloadLength(header) ==> WholeFrame(frame))
  {
    assert (header + payload)[..HEADER] == header;
  }

  lemma StartOfFrame(bytes: seq<Byte>)
    ensures |bytes| <= HEADER ==> WithinFrame(bytes)
    ensures |bytes| < HEADER ==> !Complete(bytes)
  {
  }

  lemma DataItem(h: Header, payload: seq<Byte>)
    requires Flagged(h) && TypeOf(h) > MSG_CONNECT
    ensures ItemOf(h, payload) == Data(h, payload)
  {
  }

  lemma NothingDone(s: State)
    ensures Parse([]) == Parsed([], []) && HandledAll(s, []) == s
  {
  }

  lemma PartialFrame(got: seq<Byte>, partial: seq<Byte>, done: seq<Item>)
    requires Parse(got) == Parsed(done, []) && !Complete(partial)
    ensures Parse(got + partial).items == done
  {
    hide Parse;
    ParseResumes(got, partial);
    assert [] + partial == partial;
    ParseStuck(partial);
  }

  /** A whole frame after a boundary is one more item, and leaves nothing over. */
  lemma FrameDone(s: State, got: seq<Byte>, frame: seq<Byte>, done: seq<Item>)
    requires Parse(got) == Parsed(done, []) && WholeFrame(frame)
    ensures |frame| >= HEADER
    ensures
      var item := ItemOf(frame[..HEADER], frame[HEADER..]);
      && Parse(got + frame) == Parsed(done + [item], [])
      && HandledAll(s, done + [item]) == Handled(HandledAll(s, done), item)
  {
    hide Handled, ItemOf, PayloadLength, Parse;
    ParseResumes(got, frame);
    assert [] + frame == frame;
    ParseStep(frame);
    assert frame[|frame|..] == [] && frame[HEADER..|frame|] == frame[HEADER..];
    NothingDone(s);
    var item := ItemOf(frame[..HEADER], frame[HEADER..]);
    assert Parse(frame) == Parsed([item], []);
    HandledAllConcat(s, done, [item]);
    OneHandled(HandledAll(s, done), item);
  }

  lemma OneHandled(s: State, item: Item)
    ensures HandledAll(s, [item]) == Handled(s, item)
  {
    assert [item][1..] == [];
  }

  // ---- The streams that overrun the buffer ----

  lemma NoBytes()
    ensures Parse([]) == Parsed([], []) && InBounds([]) && Fits([])
  {
  }

  lemma InBoundsConcat(got: seq<Byte>, later: seq<Byte>)
    requires Parse(got).rest == []
    ensures InBounds(got + later) <==> InBounds(got) && InBounds(later)
  {
    hide Parse;
    var all := got + later;
    forall k: nat | k < |all|
      ensures k < |got| ==> all[..k] == got[..k]
      ensures k >= |got| ==> Parse(all[..k]).rest == Parse(later[..k - |got|]).rest
    {
      if k < |got| {
        assert all[..k] == got[..k];
      } else {
        assert all[..k] == got + later[..k - |got|];
        ParseResumes(got, later[..k - |got|]);
        assert [] + later[..k - |got|] == later[..k - |got|];
      }
    }
    if InBounds(all) {
      forall k: nat | k < |got| ensures |Parse(got[..k]).rest| < BUFFER_SIZE {
        assert all[..k] == got[..k];
      }
      forall k: nat | k < |later| ensures |Parse(later[..k]).rest| < BUFFER_SIZE {
        assert |Parse(all[..|got| + k]).rest| < BUFFER_SIZE;
      }
    }
  }

  /** Within one frame, the first bytes of it stand at the start of the buffer. */
  lemma StartWaits(bytes: seq<Byte>, k: nat)
    requires WithinFrame(bytes) && k < |bytes|
    ensures Parse(bytes[..k]).rest == bytes[..k]
  {
    hide PayloadLength, Parse;
    assert k >= HEADER ==> bytes[..k][..HEADER] == bytes[..HEADER];
    ParseStuck(bytes[..k]);
  }

  lemma FrameInBounds(got: seq<Byte>, frame: seq<Byte>)
    requires InBounds(got) && Parse(got).rest == [] && WithinFrame(frame)
    ensures InBounds(got + frame) <==> |frame| <= BUFFER_SIZE
  {
    hide Parse, WithinFrame;
    InBoundsConcat(got, frame);
    forall k: nat | k < |frame| ensures |Parse(frame[..k]).rest| == k {
      StartWaits(frame, k);
    }
    if |frame| > BUFFER_SIZE {
      assert |Parse(frame[..BUFFER_SIZE]).rest| == BUFFER_SIZE;
    }
  }

  /** A stream fits the buffer if and only if every byte of it has its place there. */
  lemma {:induction false} FitsIff(stream: seq<Byte>)
    ensures Fits(stream) <==> InBounds(stream)
    decreases |stream|
  {
    hide Parse, PayloadLength, ItemOf, InBounds;
    NoBytes();
    if Complete(stream) {
      var end := HEADER + PayloadLength(stream[..HEADER]);
      var frame, later := stream[..end], stream[end..];
      assert stream == frame + later && frame[..HEADER] == stream[..HEADER] && frame[end..] == [];
      ParseStep(frame);
      InBoundsConcat(frame, later);
      FrameInBounds([], frame);
      assert [] + frame == frame;
      FitsIff(later);
    } else {
      FrameInBounds([], stream);
      assert [] + stream == stream;
    }
  }

  /** A prefix of a stream that fits is received within bounds, and so is not the whole of one that
      does not. */
  lemma ReceivedFits(net: Network, log0: seq<NetEvent>, start: nat, exit: Exit)
    requires net.Valid() && Since(net, log0, start, exit) && exit != Running
    requires exit == Overrun <==> !InBounds(net.stream[start..net.at])
    ensures Fits(net.stream[start..]) ==> exit != Overrun
    ensures Brings(net.plan[|log0|..], |net.stream| - start) ==> (exit == Overrun <==> !Fits(net.stream[start..]))
  {
    hide Parse, Fits, Brings;
    var stream, got := net.stream[start..], net.stream[start..net.at];
    FitsIff(stream);
    forall k: nat | k < |got| ensures got[..k] == stream[..k] {
    }
    if exit != Overrun && Brings(net.plan[|log0|..], |net.stream| - start) {
      EnoughArrivals(net, log0, start, exit);
      assert got == stream;
    }
  }

  /** A frame that Send makes fits its receiver's buffer if and only if its payload is at most 65504
      bytes long: with one more, its last byte goes past the end. */
  lemma DataFrameFitsIff(typ: Word, payload: Payload)
    requires typ > MSG_CONNECT
    ensures Fits(DataFrame(typ, payload)) <==> |payload| <= 65504
  {
    hide Digest;
    var frame := DataFrame(typ, payload);
    DataFrameParts(typ, payload);
    assert frame[|frame|..] == [];
  }
}
