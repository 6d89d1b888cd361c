/** What the receive thread does with each item of the stream, as a function of the client's state,
    and what follows for whole runs. */
module Handling {
  import opened Words
  import opened Md5Spec
  import opened Frames
  import opened Options

  datatype Event = Event(typ: Word, payload: seq<Byte>)

  /** A verified frame, and whether it went to Receive's slot or to the executer. */
  datatype Arrival = Arrival(event: Event, inSlot: bool)

  /** The fields of the client that the receive thread touches. */
  datatype State = State(
    lastSent: Option<FrameBytes>,  // kept for resending
    sendSucceeded: bool,
    replyHash: Option<Hash>,       // digest of the frame still to be answered
    awaited: Word,                 // the type Receive waits for; 0 when idle
    received: seq<Byte>,           // Receive's slot
    executed: seq<Event>,          // events handed to the executer, in order
    verified: seq<Arrival>,        // history: every verified frame, in order
    wire: seq<Byte>,               // bytes sent to the peer
    sendWakeups: nat,              // broadcasts on the condition Send waits for
    connectWakeups: nat)

  type FrameBytes = f: seq<Byte> | |f| >= HEADER witness Zeros(HEADER)

  function Replied(s: State, correct: bool): State {
    if s.replyHash.None? then s
    else s.(wire := s.wire + ReplyFrame(s.replyHash.value, correct), replyHash := None)
  }

  /** A data frame checked and handed on, and still to be answered. */
  function Checked(s: State, h: Header, payload: seq<Byte>): State {
    var pending, event := s.(replyHash := Some(HashOf(h))), Event(TypeOf(h), payload);
    if !Verified(h, payload) then pending
    else if TypeOf(h) == s.awaited then
      pending.(awaited := 0, received := payload, verified := s.verified + [Arrival(event, true)])
    else
      pending.(executed := s.executed + [event], verified := s.verified + [Arrival(event, false)])
  }

  /** A reply compared with the frame that was being kept when it was looked up. */
  function Dealt(s: State, saved: Option<FrameBytes>, hash: Hash, correct: bool): State {
    if saved.None? || saved.value[..16] != hash then s
    else if correct then s.(sendSucceeded := true, sendWakeups := s.sendWakeups + 1)
    else s.(wire := s.wire + saved.value)
  }

  function Handled(s: State, item: Item): State {
    match item
    case Noise(_) => s
    case Connect => s.(connectWakeups := s.connectWakeups + 1)
    case Reply(hash, correct) => Dealt(s, s.lastSent, hash, correct)
    case Data(h, payload) => Replied(Checked(s, h, payload), Verified(h, payload))
  }

  lemma HandledAppends(s: State, item: Item)
    ensures s.wire <= Handled(s, item).wire
  {
    hide Verified, ReplyFrame;
  }

  function HandledAll(s: State, items: seq<Item>): State
    decreases |items|
  {
    if items == [] then s else HandledAll(Handled(s, items[0]), items[1..])
  }

  /** DisconnectForcibly: wakes a sender and answers a frame still unanswered. */
  function Disconnected(s: State): State {
    Replied(s.(sendWakeups := s.sendWakeups + 1), true)
  }

  /** Send, once it has kept its frame, cleared the flag and sent it. */
  function Begun(s: State, typ: Word, payload: Payload): State {
    var frame := DataFrame(typ, payload);
    s.(lastSent := Some(frame), sendSucceeded := false, wire := s.wire + frame)
  }

  /** Receive, once it has named the type it waits for. */
  function Armed(s: State, typ: Word): State { s.(awaited := typ, received := []) }

  lemma {:induction false} HandledAllConcat(s: State, a: seq<Item>, b: seq<Item>)
    ensures HandledAll(s, a + b) == HandledAll(HandledAll(s, a), b)
    decreases |a|
  {
    hide Handled;
    if a == [] {
      assert a + b == b;
    } else {
      assert (a + b)[1..] == a[1..] + b;
      HandledAllConcat(Handled(s, a[0]), a[1..], b);
    }
  }

  // ---- Replies ----

  /** At a frame boundary no answer is pending, so a disconnection sends no stray reply. */
  lemma {:induction false} NoReplyIsPending(s: State, items: seq<Item>)
    requires s.replyHash.None?
    ensures HandledAll(s, items).replyHash.None?
    ensures Disconnected(HandledAll(s, items)).wire == HandledAll(s, items).wire
    decreases |items|
  {
    hide Verified;
    if items != [] {
      NoReplyIsPending(Handled(s, items[0]), items[1..]);
    }
  }

  /** The answers owed: one per data frame, in order, echoing its digest, positive exactly when
      the check passes. */
  function AnswersTo(items: seq<Item>): seq<Item> {
    if items == [] then [] else AnswerTo(items[0]) + AnswersTo(items[1..])
  }

  function AnswerTo(item: Item): seq<Item> {
    match item
    case Data(h, payload) => [Reply(HashOf(h), Verified(h, payload))]
    case _ => []
  }

  function RepliesIn(items: seq<Item>): seq<Item> {
    if items == [] then []
    else (if items[0].Reply? then [items[0]] else []) + RepliesIn(items[1..])
  }

  lemma {:induction false} RepliesInConcat(a: seq<Item>, b: seq<Item>)
    ensures RepliesIn(a + b) == RepliesIn(a) + RepliesIn(b)
  {
    if a == [] {
      assert a + b == b;
    } else {
      assert (a + b)[1..] == a[1..] + b;
      RepliesInConcat(a[1..], b);
    }
  }

  /** The client keeps a data frame of its own for resending, or none. */
  ghost predicate KeepsDataFrame(s: State) {
    s.lastSent.Some? ==>
      exists typ: Word, payload: Payload :: typ > MSG_CONNECT && s.lastSent.value == DataFrame(typ, payload)
  }

  /** The peer, parsing what the client sends back, reads one reply per data frame of the run, in
      order, with that frame's digest and the outcome of its check, among the frames resent. */
  lemma {:induction false} PeerReadsOneReplyPerFrame(s: State, items: seq<Item>)
    requires s.replyHash.None? && KeepsDataFrame(s) && Parse(s.wire).rest == []
    ensures
      var sent := Parse(HandledAll(s, items).wire);
      sent.rest == [] && RepliesIn(sent.items) == RepliesIn(Parse(s.wire).items) + AnswersTo(items)
    decreases |items|
  {
    hide Verified, Parse, Handled;
    if items != [] {
      var next := Handled(s, items[0]);
      OneItemAnswered(s, items[0]);
      PeerReadsOneReplyPerFrame(next, items[1..]);
    }
  }

  lemma OneItemAnswered(s: State, item: Item)
    requires s.replyHash.None? && KeepsDataFrame(s) && Parse(s.wire).rest == []
    ensures Handled(s, item).replyHash.None? && Handled(s, item).lastSent == s.lastSent
    ensures
      var sent := Parse(Handled(s, item).wire);
      sent.rest == [] && RepliesIn(sent.items) == RepliesIn(Parse(s.wire).items) + AnswerTo(item)
  {
    hide Verified, Parse, HeaderTail, FrameHash;
    assert s.wire + [] == s.wire && RepliesIn(Parse(s.wire).items) + [] == RepliesIn(Parse(s.wire).items);
    match item {
      case Data(h, payload) =>
        SendingParses(s.wire, ReplyMessage(HashOf(h), Verified(h, payload)));
      case Reply(hash, correct) =>
        if s.lastSent.Some? && s.lastSent.value[..16] == hash && !correct {
          var typ: Word, payload: Payload :| typ > MSG_CONNECT && s.lastSent.value == DataFrame(typ, payload);
          SendingParses(s.wire, DataMessage(typ, payload));
        }
      case _ =>
    }
  }

  lemma SendingParses(wire: seq<Byte>, m: Message)
    requires Parse(wire).rest == [] && (m.DataMessage? ==> m.typ > MSG_CONNECT)
    ensures Parse(wire + Bytes(m)).rest == []
    ensures RepliesIn(Parse(wire + Bytes(m)).items)
         == RepliesIn(Parse(wire).items) + (if m.ReplyMessage? then [Reply(m.hash, m.correct)] else [])
  {
    hide Parse, Verified;
    MessageComesBack(m);
    ParseResumes(wire, Bytes(m));
    assert [] + Bytes(m) == Bytes(m);
    var one := Parse(Bytes(m)).items;
    RepliesInConcat(Parse(wire).items, one);
    assert one == [one[0]] && one[1..] == [];
  }

  // ---- The receive slot ----

  /** A verified data frame of the given type. */
  predicate Matches(item: Item, typ: Word) {
    item.Data? && Verified(item.header, item.payload) && TypeOf(item.header) == typ
  }

  /** The events of the verified data frames, in order. */
  function EventsOf(items: seq<Item>): seq<Event> {
    if items == [] then [] else EventOf(items[0]) + EventsOf(items[1..])
  }

  function EventOf(item: Item): seq<Event> {
    if item.Data? && Verified(item.header, item.payload) then [Event(TypeOf(item.header), item.payload)] else []
  }

  /** Data items carry types the receive loop does not consume itself. */
  predicate FromParser(items: seq<Item>) {
    forall item <- items :: item.Data? ==> TypeOf(item.header) > MSG_CONNECT
  }

  lemma {:induction false} ParserTypes(stream: seq<Byte>)
    ensures FromParser(Parse(stream).items)
    decreases |stream|
  {
    if Complete(stream) {
      ParserTypes(stream[HEADER + PayloadLength(stream[..HEADER])..]);
    }
  }

  /** While nothing matches, the slot keeps waiting and every verified frame becomes an event. */
  lemma {:induction false} UnmatchedFramesBecomeEvents(s: State, items: seq<Item>)
    requires forall item <- items :: !Matches(item, s.awaited)
    ensures HandledAll(s, items).awaited == s.awaited && HandledAll(s, items).received == s.received
    ensures HandledAll(s, items).executed == s.executed + EventsOf(items)
    decreases |items|
  {
    hide Handled, Matches, EventOf;
    if items != [] {
      var next := Handled(s, items[0]);
      OneUnmatched(s, items[0]);
      assert forall item <- items[1..] :: item in items;
      UnmatchedFramesBecomeEvents(next, items[1..]);
    }
  }

  lemma OneUnmatched(s: State, item: Item)
    requires !Matches(item, s.awaited)
    ensures Handled(s, item).awaited == s.awaited && Handled(s, item).received == s.received
    ensures Handled(s, item).executed == s.executed + EventOf(item)
  {
    hide Verified;
  }

  lemma IdleSlotNeverMatches(items: seq<Item>)
    requires FromParser(items)
    ensures forall item <- items :: !Matches(item, 0)
  {
    hide Verified;
  }

  lemma MatchIsTaken(s: State, item: Item)
    requires Matches(item, s.awaited)
    ensures
      var s' := Handled(s, item);
      s'.awaited == 0 && s'.received == item.payload && s'.executed == s.executed
  {
    hide Verified, TypeOf;
  }

  /** From one initialisation of the slot to the next: the slot takes the first verified frame of
      the awaited type, exactly one, and all the others become events, in order. */
  lemma SlotTakesFirstMatch(s: State, items: seq<Item>, k: nat)
    requires FromParser(items) && k < |items| && Matches(items[k], s.awaited)
    requires forall i | 0 <= i < k :: !Matches(items[i], s.awaited)
    ensures HandledAll(s, items).awaited == 0
    ensures HandledAll(s, items).received == items[k].payload
    ensures HandledAll(s, items).executed == s.executed + EventsOf(items[..k]) + EventsOf(items[k + 1..])
  {
    hide Handled, Matches, EventsOf;
    var before, after := items[..k], items[k + 1..];
    assert items == before + ([items[k]] + after);
    UnmatchedFramesBecomeEvents(s, before);
    HandledAllConcat(s, before, [items[k]] + after);
    var taken := Handled(HandledAll(s, before), items[k]);
    MatchIsTaken(HandledAll(s, before), items[k]);
    assert ([items[k]] + after)[1..] == after;
    IdleSlotNeverMatches(after);
    UnmatchedFramesBecomeEvents(taken, after);
  }

  // ---- Successive initialisations ----

  /** Where the first frame stands that the slot takes when it awaits this type; past the end if
      there is none. */
  function FirstMatch(items: seq<Item>, typ: Word): (k: nat)
    ensures k <= |items| && (k < |items| ==> Matches(items[k], typ))
    ensures forall i | 0 <= i < k :: !Matches(items[i], typ)
  {
    if items == [] || Matches(items[0], typ) then 0 else 1 + FirstMatch(items[1..], typ)
  }

  datatype Slot = Slot(awaited: Word, received: seq<Byte>)

  function SlotOf(s: State): Slot { Slot(s.awaited, s.received) }

  /** The frame awaited, if it came, and otherwise a slot still empty and waiting. */
  function Expected(typ: Word, items: seq<Item>): Slot {
    var k := FirstMatch(items, typ);
    if k < |items| then Slot(0, items[k].payload) else Slot(typ, [])
  }

  /** The events of all frames but the one the slot takes. */
  function PassedOn(typ: Word, items: seq<Item>): seq<Event> {
    var k := FirstMatch(items, typ);
    if k < |items| then EventsOf(items[..k]) + EventsOf(items[k + 1..]) else EventsOf(items)
  }

  /** Once initialised, the slot ends up with the first verified frame of its type, or empty, whatever
      it held before; every other verified frame becomes an event. */
  lemma InitialisedSlot(s: State, typ: Word, items: seq<Item>)
    requires FromParser(items)
    ensures SlotOf(HandledAll(Armed(s, typ), items)) == Expected(typ, items)
    ensures HandledAll(Armed(s, typ), items).executed == s.executed + PassedOn(typ, items)
  {
    hide Handled, Matches, EventOf, FromParser, FirstMatch;
    var k := FirstMatch(items, typ);
    if k < |items| {
      SlotTakesFirstMatch(Armed(s, typ), items, k);
      assert s.executed + EventsOf(items[..k]) + EventsOf(items[k + 1..])
          == s.executed + (EventsOf(items[..k]) + EventsOf(items[k + 1..]));
    } else {
      UnmatchedFramesBecomeEvents(Armed(s, typ), items);
    }
  }

  /** One initialisation of the slot, and the items handled before the next. */
  datatype Round = Round(typ: Word, items: seq<Item>)

  /** The state after the rounds, and the slot as each of them left it. */
  function RunRounds(s: State, rounds: seq<Round>): (State, seq<Slot>)
    decreases |rounds|
  {
    if rounds == [] then (s, [])
    else
      var next := HandledAll(Armed(s, rounds[0].typ), rounds[0].items);
      var (end, slots) := RunRounds(next, rounds[1..]);
      (end, [SlotOf(next)] + slots)
  }

  function AllPassedOn(rounds: seq<Round>): seq<Event> {
    if rounds == [] then [] else PassedOn(rounds[0].typ, rounds[0].items) + AllPassedOn(rounds[1..])
  }

  /** Through any number of initialisations, each leaves its slot as if it were the only one: no frame
      of one is seen by another; and every verified frame is either taken by a slot or an event. */
  lemma {:induction false} EachRoundFillsItsSlot(s: State, rounds: seq<Round>)
    requires forall r <- rounds :: FromParser(r.items)
    ensures
      var (end, slots) := RunRounds(s, rounds);
      && |slots| == |rounds|
      && (forall i | 0 <= i < |rounds| :: slots[i] == Expected(rounds[i].typ, rounds[i].items))
      && end.executed == s.executed + AllPassedOn(rounds)
    decreases |rounds|
  {
    hide HandledAll, FromParser, Expected, PassedOn, Armed;
    if rounds != [] {
      var r := rounds[0];
      InitialisedSlot(s, r.typ, r.items);
      var next := HandledAll(Armed(s, r.typ), r.items);
      assert forall later <- rounds[1..] :: later in rounds;
      EachRoundFillsItsSlot(next, rounds[1..]);
    }
  }

  // ---- Where the verified frames went ----

  function EventsIn(arrivals: seq<Arrival>): (events: seq<Event>)
    ensures |events| == |arrivals|
  {
    seq(|arrivals|, i requires 0 <= i < |arrivals| => arrivals[i].event)
  }

  /** The arrivals that were handed to the executer. */
  function ToExecuter(arrivals: seq<Arrival>): seq<Event> {
    if arrivals == [] then []
    else
      var (rest, last) := (arrivals[..|arrivals| - 1], arrivals[|arrivals| - 1]);
      ToExecuter(rest) + (if last.inSlot then [] else [last.event])
  }

  /** Since a first state these frames have been verified, in this order, and all but those the slot
      took have been handed to the executer. */
  ghost predicate Dispatches(s: State, first: State, events: seq<Event>) {
    && first.verified <= s.verified
    && var since := s.verified[|first.verified|..];
    && EventsIn(since) == events && s.executed == first.executed + ToExecuter(since)
  }

  lemma NothingDispatched(s: State)
    ensures Dispatches(s, s, [])
  {
    assert s.verified[|s.verified|..] == [];
  }

  lemma ArrivalsSnoc(arrivals: seq<Arrival>, a: Arrival)
    ensures EventsIn(arrivals + [a]) == EventsIn(arrivals) + [a.event]
    ensures ToExecuter(arrivals + [a]) == ToExecuter(arrivals) + (if a.inSlot then [] else [a.event])
  {
    assert (arrivals + [a])[..|arrivals|] == arrivals;
  }

  /** One more frame checked. */
  lemma CheckDispatches(s: State, first: State, events: seq<Event>, h: Header, payload: seq<Byte>)
    requires Dispatches(s, first, events)
    ensures Dispatches(Checked(s, h, payload), first, events + EventOf(Data(h, payload)))
  {
    hide Verified, TypeOf, HashOf, EventsIn, ToExecuter;
    if Verified(h, payload) {
      var since, a := s.verified[|first.verified|..], Arrival(Event(TypeOf(h), payload), TypeOf(h) == s.awaited);
      ArrivalsSnoc(since, a);
      assert (s.verified + [a])[|first.verified|..] == since + [a];
      assert first.executed + ToExecuter(since) + [a.event] == first.executed + (ToExecuter(since) + [a.event]);
      assert ToExecuter(since) + [] == ToExecuter(since);
    } else {
      assert events + [] == events;
    }
  }

  // ---- Noise ----

  lemma {:induction false} NoiseIsNotHandled(s: State, items: seq<Item>)
    ensures HandledAll(s, items) == HandledAll(s, Significant(items))
    decreases |items|
  {
    hide Verified;
    if items != [] {
      NoiseIsNotHandled(Handled(s, items[0]), items[1..]);
      if items[0].Noise? {
        assert Significant(items) == Significant(items[1..]);
      } else {
        assert Significant(items)[0] == items[0] && Significant(items)[1..] == Significant(items[1..]);
      }
    }
  }

  /** Noise at frame boundaries changes no dispatch, reply, resend or wake-up. */
  lemma NoiseHasNoEffect(s: State, pieces: seq<Piece>)
    requires CutAtBoundaries(pieces)
    ensures HandledAll(s, Parse(Noisy(pieces)).items) == HandledAll(s, Parse(Clean(pieces)).items)
  {
    hide Parse, Handled;
    NoiseIsTransparent(pieces);
    NoiseIsNotHandled(s, Parse(Noisy(pieces)).items);
    NoiseIsNotHandled(s, Parse(Clean(pieces)).items);
  }

  // ---- End to end ----

  function EventsSent(messages: seq<Message>): seq<Event> {
    if messages == [] then []
    else (match messages[0]
          case DataMessage(typ, payload) => [Event(typ, payload)]
          case _ => []) + EventsSent(messages[1..])
  }

  /** A peer's messages become the events of its data frames, all of them and in order. */
  lemma MessagesBecomeEvents(s: State, messages: seq<Message>)
    requires s.awaited == 0
    requires forall m <- messages :: m.DataMessage? ==> m.typ > MSG_CONNECT
    ensures HandledAll(s, Parse(Stream(messages)).items).executed == s.executed + EventsSent(messages)
  {
    hide Parse, Verified;
    var items := Parse(Stream(messages)).items;
    StreamComesBack(messages);
    ParserTypes(Stream(messages));
    IdleSlotNeverMatches(items);
    UnmatchedFramesBecomeEvents(s, items);
    EventsCarried(items, messages);
  }

  lemma {:induction false} EventsCarried(items: seq<Item>, messages: seq<Message>)
    requires |items| == |messages| && forall i | 0 <= i < |items| :: Carries(items[i], messages[i])
    ensures EventsOf(items) == EventsSent(messages)
  {
    hide Verified;
    if items != [] {
      assert Carries(items[0], messages[0]);
      EventsCarried(items[1..], messages[1..]);
    }
  }
}
