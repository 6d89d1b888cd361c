/** One frame's way from Send to its acknowledgement: through any number of spoilings between two
    clients, step by step, and with the clients themselves and their receive threads. */
module Exchanges {
  import opened Words
  import opened Md5Spec
  import opened Options
  import opened Frames
  import ClientBase
  import Handling
  import Link
  import opened LinkBytes
  import opened TwoClients

  // ---- One frame received is one item handled ----

  /** Both ends after the first has taken some actions, if it could. */
  function Perform(me: End, you: End, actions: seq<Action>): Option<(End, End)>
    decreases |actions|
  {
    if actions == [] then Some((me, you))
    else if Can(actions[0], me, you) then
      var (me', you') := Do(actions[0], me, you);
      Perform(me', you', actions[1..])
    else None
  }

  /** Receiving a frame, first its header and then its payload, and dealing with it. */
  function Receipt(frame: seq<Byte>): seq<Action>
    requires |frame| >= HEADER
  {
    [Take(HEADER)] + (if |frame| > HEADER then [Take(|frame| - HEADER)] else [])
      + [Open] + Dealt(ItemOf(frame[..HEADER], frame[HEADER..]))
  }

  function Dealt(item: Item): seq<Action> {
    match item
    case Data(_, _) => [Check, Answer]
    case Reply(_, _) => [LookUp, Act]
    case _ => []
  }

  lemma PerformOne(me: End, you: End, a: Action, later: seq<Action>)
    requires Can(a, me, you)
    ensures var (me', you') := Do(a, me, you); Perform(me, you, [a] + later) == Perform(me', you', later)
  {
    assert ([a] + later)[1..] == later;
  }

  lemma TakeFrame(me: End, you: End, frame: seq<Byte>, later: seq<Action>)
    requires me.rx.Listening? && me.held == [] && ClientBase.WholeFrame(frame) && frame <= you.channel
    ensures
      var takes := [Take(HEADER)] + (if |frame| > HEADER then [Take(|frame| - HEADER)] else []);
      Perform(me, you, takes + later)
        == Perform(me.(held := frame), you.(channel := you.channel[|frame|..]), later)
  {
    hide PayloadLength;
    var header, rest := frame[..HEADER], frame[HEADER..];
    assert you.channel[..HEADER] == header && [] + header == header;
    var me1, you1 := me.(held := header), you.(channel := you.channel[HEADER..]);
    if |frame| > HEADER {
      var second := [Take(|frame| - HEADER)];
      assert [Take(HEADER)] + second + later == [Take(HEADER)] + (second + later);
      PerformOne(me, you, Take(HEADER), second + later);
      assert header[..HEADER] == header && you1.channel[..|frame| - HEADER] == rest && header + rest == frame;
      assert you1.channel[|frame| - HEADER..] == you.channel[|frame|..];
      PerformOne(me1, you1, Take(|frame| - HEADER), later);
    } else {
      assert [Take(HEADER)] + [] + later == [Take(HEADER)] + later && header == frame;
      PerformOne(me, you, Take(HEADER), later);
    }
  }

  /** The actions that receive a frame and deal with it do together what the receive loop does with
      its item. */
  lemma ReceiptHandles(me: End, you: End, frame: seq<Byte>)
    requires me.rx.Listening? && me.held == [] && ClientBase.WholeFrame(frame) && frame <= you.channel
    ensures
      var item := ItemOf(frame[..HEADER], frame[HEADER..]);
      Perform(me, you, Receipt(frame))
        == Some((Emits(me, Handling.Handled(me.client, item)), you.(channel := you.channel[|frame|..])))
  {
    hide PayloadLength, Perform, Verified, HashOf, TypeOf, ReplyFrame;
    var item := ItemOf(frame[..HEADER], frame[HEADER..]);
    var takes := [Take(HEADER)] + (if |frame| > HEADER then [Take(|frame| - HEADER)] else []);
    assert Receipt(frame) == takes + ([Open] + Dealt(item));
    TakeFrame(me, you, frame, [Open] + Dealt(item));
    var me1, you1 := me.(held := frame), you.(channel := you.channel[|frame|..]);
    assert frame[HEADER..|frame|] == frame[HEADER..];
    PerformOne(me1, you1, Open, Dealt(item));
    DealsWith(Do(Open, me1, you1).0, you1, me, item);
  }

  lemma DealsWith(ready: End, you: End, me: End, item: Item)
    requires ready == Opened(me, item) && me.rx.Listening? && me.held == []
    ensures Perform(ready, you, Dealt(item)) == Some((Emits(me, Handling.Handled(me.client, item)), you))
  {
    hide Verified, HashOf, TypeOf, ReplyFrame;
    match item
    case Data(h, payload) =>
      PerformTwo(ready, you, Check, Answer);
    case Reply(hash, correct) =>
      PerformTwo(ready, you, LookUp, Act);
    case _ =>
      assert me.client.wire[|me.client.wire|..] == [] && me.channel + [] == me.channel;
  }

  lemma PerformTwo(me: End, you: End, a: Action, b: Action)
    requires Can(a, me, you)
    requires var (me', you') := Do(a, me, you); Can(b, me', you')
    ensures var (me', you') := Do(a, me, you); Perform(me, you, [a, b]) == Some(Do(b, me', you'))
  {
    hide Can, Do;
    var (me1, you1) := Do(a, me, you);
    var (me2, you2) := Do(b, me1, you1);
    assert [a, b][1..] == [b] && [b][1..] == [];
    assert Perform(me2, you2, []) == Some((me2, you2));
    assert Perform(me1, you1, [b]) == Some((me2, you2));
  }

  // ---- The same as turns of the two clients ----

  function Turns(side: Link.Side, actions: seq<Action>): seq<Turn> {
    if actions == [] then [] else [Turn(side, actions[0])] + Turns(side, actions[1..])
  }

  function Pair(side: Link.Side, me: End, you: End): World {
    if side.Left? then World(me, you) else World(you, me)
  }

  lemma {:induction false} TurnsPerform(side: Link.Side, me: End, you: End, actions: seq<Action>, later: seq<Turn>)
    requires Perform(me, you, actions).Some?
    ensures
      var (me', you') := Perform(me, you, actions).value;
      Run(Pair(side, me, you), Turns(side, actions) + later) == Run(Pair(side, me', you'), later)
    decreases |actions|
  {
    hide Can, Do;
    if actions == [] {
      assert [] + later == later;
    } else {
      var (me', you') := Do(actions[0], me, you);
      TurnsPerform(side, me', you', actions[1..], later);
      var rest := Turns(side, actions[1..]);
      assert ([Turn(side, actions[0])] + rest + later)[1..] == rest + later;
    }
  }

  // ---- A frame spoilt any number of times arrives, once, and ends its Send ----

  predicate Waits(e: End) { e.rx.Listening? && e.held == [] }

  /** The left client's frame is all there is on its way, intact. */
  ghost predicate Travelling(w: World, f: Link.Frame) {
    && Waits(w.left) && Waits(w.right) && f.typ > MSG_CONNECT && !w.left.client.sendSucceeded
    && w.left.client.lastSent == Some(DataFrame(f.typ, f.payload))
    && w.left.channel == DataFrame(f.typ, f.payload) && w.right.channel == []
    && w.right.client.replyHash.None?
  }

  /** A message's bytes are one whole frame. */
  lemma MessageIsFrame(m: Msg) returns (item: Item)
    requires m.DataMsg? ==> m.frame.typ > MSG_CONNECT
    ensures ClientBase.WholeFrame(MsgBytes(m))
    ensures item == ItemOf(MsgBytes(m)[..HEADER], MsgBytes(m)[HEADER..])
    ensures m.ReplyMsg? ==> item == Reply(m.hash, m.correct)
    ensures m.DataMsg? ==> item.Data? && item.payload == m.frame.payload && HashOf(item.header) == m.hash
    ensures m.DataMsg? ==> TypeOf(item.header) == m.frame.typ
    ensures m.DataMsg? ==> (Verified(item.header, item.payload) <==> Link.Intact(m))
  {
    hide MsgBytes, Verified, HashOf, TypeOf, ItemOf, Link.Intact, PayloadLength;
    item := OnlyMessage(m);
    MessageIsWhole(m);
    assert MsgBytes(m)[HEADER..|MsgBytes(m)|] == MsgBytes(m)[HEADER..];
  }

  /** What the receiver of a frame becomes: it has dispatched the frame if intact, and answered it. */
  lemma FrameRead(me: End, you: End, m: Msg)
    requires m.DataMsg? && m.frame.typ > MSG_CONNECT && ClientBase.WholeFrame(MsgBytes(m))
    requires Waits(me) && me.client.replyHash.None? && me.channel == [] && you.channel == MsgBytes(m)
    ensures Perform(me, you, Receipt(MsgBytes(m))).Some?
    ensures
      var (me', you') := Perform(me, you, Receipt(MsgBytes(m))).value;
      var event, expected := Handling.Event(m.frame.typ, m.frame.payload), m.frame.typ == me.client.awaited;
      && you' == you.(channel := []) && Waits(me') && me'.client.replyHash.None?
      && me'.channel == ReplyFrame(m.hash, Link.Intact(m))
      && (me'.client.verified
           == me.client.verified + if Link.Intact(m) then [Handling.Arrival(event, expected)] else [])
      && (!Link.Intact(m) ==> me'.client.awaited == me.client.awaited)
  {
    hide MsgBytes, Verified, HashOf, TypeOf, ItemOf, Link.Intact, Perform, Receipt, ReplyFrame, ClientBase.WholeFrame;
    var item := MessageIsFrame(m);
    ReceiptHandles(me, you, MsgBytes(m));
    var reply := ReplyFrame(m.hash, Link.Intact(m));
    assert (me.client.wire + reply)[|me.client.wire|..] == reply && [] + reply == reply;
    assert you.channel[|you.channel|..] == [] && me.client.verified + [] == me.client.verified;
  }

  /** What the sender of the frame becomes at the reply: its flag is set, or the frame goes out again. */
  lemma ReplyRead(me: End, you: End, f: Link.Frame, correct: bool)
    requires Waits(me) && me.channel == [] && you.channel == ReplyFrame(f.Digested(), correct)
    requires me.client.lastSent == Some(DataFrame(f.typ, f.payload))
    requires ClientBase.WholeFrame(ReplyFrame(f.Digested(), correct))
    ensures Perform(me, you, Receipt(ReplyFrame(f.Digested(), correct))).Some?
    ensures
      var (me', you') := Perform(me, you, Receipt(ReplyFrame(f.Digested(), correct))).value;
      && you' == you.(channel := []) && Waits(me')
      && me'.channel == (if correct then [] else DataFrame(f.typ, f.payload))
      && me'.client.sendSucceeded == (correct || me.client.sendSucceeded)
      && me'.client.lastSent == me.client.lastSent
  {
    hide FrameHash, HeaderTail, ItemOf, Perform, Receipt, ClientBase.WholeFrame;
    var reply := ReplyFrame(f.Digested(), correct);
    var item := MessageIsFrame(Link.ReplyMsg(f.Digested(), correct));
    ReceiptHandles(me, you, reply);
    var frame := DataFrame(f.typ, f.payload);
    assert frame[..16] == FrameHash(f.typ, f.payload);
    assert (me.client.wire + frame)[|me.client.wire|..] == frame && [] + frame == frame;
    assert me.client.wire[|me.client.wire|..] == [] && you.channel[|you.channel|..] == [];
  }

  /** The frame's bytes with another payload under its header. */
  function SpoiltBytes(f: Link.Frame, payload: Payload): (bytes: seq<Byte>)
    ensures |bytes| >= HEADER
  {
    MsgBytes(Link.DataMsg(f.Digested(), Link.Frame(f.typ, payload)))
  }

  /** One spoiling, the receipt of the spoilt frame, and the receipt of the negative answer. */
  function SpoiltRound(f: Link.Frame, payload: Payload): seq<Turn> {
    [Turn(Link.Left, Spoil(0, payload))]
      + Turns(Link.Right, Receipt(SpoiltBytes(f, payload)))
      + Turns(Link.Left, Receipt(ReplyFrame(f.Digested(), false)))
  }

  function LastRound(f: Link.Frame): seq<Turn> {
    Turns(Link.Right, Receipt(DataFrame(f.typ, f.payload)))
      + Turns(Link.Left, Receipt(ReplyFrame(f.Digested(), true)))
  }

  /** The frame goes round, spoilt by each of these payloads in turn, and then arrives. */
  function Rounds(f: Link.Frame, payloads: seq<Payload>): seq<Turn> {
    if payloads == [] then LastRound(f) else SpoiltRound(f, payloads[0]) + Rounds(f, payloads[1..])
  }

  /** Each payload has the frame's length and fails the digest check under its header. */
  predicate Spoiling(f: Link.Frame, payloads: seq<Payload>) {
    forall p <- payloads :: |p| == |f.payload| && Link.Frame(f.typ, p).Digested() != f.Digested()
  }

  lemma RunOne(w: World, t: Turn, later: seq<Turn>)
    requires CanTurn(w, t)
    ensures Run(w, [t] + later) == Run(After(w, t), later)
  {
    assert ([t] + later)[1..] == later;
  }

  lemma FrameSpoilt(f: Link.Frame, payload: Payload)
    requires f.typ > MSG_CONNECT && Spoiling(f, [payload])
    ensures CanSpoil(DataFrame(f.typ, f.payload), 0, payload)
    ensures SpoiltStream(DataFrame(f.typ, f.payload), 0, payload) == SpoiltBytes(f, payload)
    ensures !Link.Intact(Link.DataMsg(f.Digested(), Link.Frame(f.typ, payload)))
  {
    hide Digest, HeaderTail, TypeOf, LengthOf, Flagged;
    assert payload in [payload];
    var frame := DataFrame(f.typ, f.payload);
    HeaderFields(f.Digested(), |f.payload|, f.typ);
    assert frame[..HEADER] == f.Digested() + HeaderTail(|f.payload|, f.typ);
    assert frame[..HEADER][16..] == HeaderTail(|f.payload|, f.typ) && frame[..HEADER][..16] == f.Digested();
    assert frame[|frame|..] == [];
  }

  /** A message and the reply to it, received one after the other. */
  lemma RoundTrip(w: World, f: Link.Frame, m: Msg, later: seq<Turn>) returns (t: World)
    requires Waits(w.left) && Waits(w.right) && w.left.client.lastSent == Some(DataFrame(f.typ, f.payload))
    requires m.DataMsg? && m.hash == f.Digested() && m.frame.typ == f.typ > MSG_CONNECT && |MsgBytes(m)| >= HEADER
    requires w.left.channel == MsgBytes(m) && w.right.channel == [] && w.right.client.replyHash.None?
    ensures
      var reply := ReplyFrame(f.Digested(), Link.Intact(m));
      Run(w, Turns(Link.Right, Receipt(MsgBytes(m))) + (Turns(Link.Left, Receipt(reply)) + later)) == Run(t, later)
    ensures Waits(t.left) && Waits(t.right) && t.right.channel == [] && t.right.client.replyHash.None?
    ensures t.left.client.lastSent == w.left.client.lastSent
    ensures t.left.client.sendSucceeded == (Link.Intact(m) || w.left.client.sendSucceeded)
    ensures t.left.channel == if Link.Intact(m) then [] else DataFrame(f.typ, f.payload)
    ensures Link.Intact(m) ==>
      t.right.client.verified == w.right.client.verified
        + [Handling.Arrival(Handling.Event(f.typ, m.frame.payload), f.typ == w.right.client.awaited)]
    ensures !Link.Intact(m) ==>
      t.right.client.verified == w.right.client.verified && t.right.client.awaited == w.right.client.awaited
  {
    hide MsgBytes, ReplyFrame, Link.Intact, Perform, Receipt, Run, Turns, FrameHash, DataFrame, ClientBase.WholeFrame;
    var item := MessageIsFrame(m);
    var correct := Link.Intact(m);
    var reply := ReplyFrame(f.Digested(), correct);
    var item' := MessageIsFrame(Link.ReplyMsg(f.Digested(), correct));
    FrameRead(w.right, w.left, m);
    var (right, left) := Perform(w.right, w.left, Receipt(MsgBytes(m))).value;
    TurnsPerform(Link.Right, w.right, w.left, Receipt(MsgBytes(m)), Turns(Link.Left, Receipt(reply)) + later);
    ReplyIsMessage(f.Digested(), correct);
    ReplyRead(left, right, f, correct);
    TurnsPerform(Link.Left, left, right, Receipt(reply), later);
    var (left', right') := Perform(left, right, Receipt(reply)).value;
    t := World(left', right');
  }

  lemma ReplyIsMessage(hash: Hash, correct: bool)
    ensures MsgBytes(Link.ReplyMsg(hash, correct)) == ReplyFrame(hash, correct)
  {
  }

  /** One spoiling, the negative answer, and the resend: as before, and nothing dispatched. */
  lemma SpoiltGoesRound(w: World, f: Link.Frame, payload: Payload, later: seq<Turn>) returns (t: World)
    requires Travelling(w, f) && Spoiling(f, [payload])
    ensures Travelling(t, f) && t.right.client.awaited == w.right.client.awaited
    ensures t.right.client.verified == w.right.client.verified
    ensures Run(w, SpoiltRound(f, payload) + later) == Run(t, later)
  {
    hide MsgBytes, FrameHash, DataFrame, CanSpoil, SpoiltStream, Run, Receipt, Turns, ReplyFrame, Link.Intact;
    hide SpoiltBytes;
    var m := Link.DataMsg(f.Digested(), Link.Frame(f.typ, payload));
    FrameSpoilt(f, payload);
    SpoiltIs(f, payload);
    var spoil := Turn(Link.Left, Spoil(0, payload));
    assert [] + w.left.channel == w.left.channel;
    assert SpoiltBytes(f, payload)[0..] == SpoiltBytes(f, payload);
    var w1 := After(w, spoil);
    var there := Turns(Link.Right, Receipt(SpoiltBytes(f, payload)));
    var back := Turns(Link.Left, Receipt(ReplyFrame(f.Digested(), false)));
    assert SpoiltRound(f, payload) + later == [spoil] + (there + (back + later));
    RunOne(w, spoil, there + (back + later));
    t := RoundTrip(w1, f, m, later);
  }

  lemma SpoiltIs(f: Link.Frame, payload: Payload)
    ensures SpoiltBytes(f, payload) == MsgBytes(Link.DataMsg(f.Digested(), Link.Frame(f.typ, payload)))
  {
  }

  /** However often the frame is spoilt, once it is let through it has been dispatched exactly once, the
      sender's flag is true, and nothing is left on its way. */
  lemma {:induction false} SpoiltFrameArrives(w: World, f: Link.Frame, payloads: seq<Payload>)
    requires Travelling(w, f) && Spoiling(f, payloads)
    ensures Run(w, Rounds(f, payloads)).Some? && Arrived(w, Run(w, Rounds(f, payloads)).value, f)
    decreases |payloads|
  {
    hide MsgBytes, FrameHash, Run, Receipt, Turns, ReplyFrame, SpoiltRound, DataFrame, Link.Intact;
    if payloads == [] {
      FrameIsMessage(f);
      var t := RoundTrip(w, f, Link.DataMsg(f.Digested(), f), []);
      var there := Turns(Link.Right, Receipt(DataFrame(f.typ, f.payload)));
      var back := Turns(Link.Left, Receipt(ReplyFrame(f.Digested(), true)));
      assert there + (back + []) == LastRound(f);
      RunNothing(t);
    } else {
      assert forall p <- payloads[1..] :: p in payloads;
      var t := SpoiltGoesRound(w, f, payloads[0], Rounds(f, payloads[1..]));
      SpoiltFrameArrives(t, f, payloads[1..]);
    }
  }

  lemma RunNothing(w: World)
    ensures Run(w, []) == Some(w)
  {
  }

  /** The right client has dispatched the frame, once, to its slot if that awaited its type and to its
      executer otherwise; the left one's flag is true, and nothing is on its way. */
  predicate Arrived(w: World, t: World, f: Link.Frame) {
    && t.left.client.sendSucceeded && t.left.channel == [] && t.right.channel == []
    && (t.right.client.verified == w.right.client.verified
         + [Handling.Arrival(Handling.Event(f.typ, f.payload), f.typ == w.right.client.awaited)])
  }

  /** So it is from the call of Send on, with nothing else on its way. */
  lemma SendArrivesOnce(w: World, f: Link.Frame, payloads: seq<Payload>)
    requires CanTurn(w, Turn(Link.Left, Keep(f))) && Waits(w.left) && Waits(w.right)
    requires w.left.channel == [] && w.right.channel == [] && w.right.client.replyHash.None? && Spoiling(f, payloads)
    ensures
      var end := Run(w, Turns(Link.Left, [Keep(f), TwoClients.Clear, Transmit]) + Rounds(f, payloads));
      end.Some? && Arrived(w, end.value, f)
  {
    hide Rounds, Run, DataFrame, Perform, Turns;
    var sent := w.left.client.wire + DataFrame(f.typ, f.payload);
    assert sent[|w.left.client.wire|..] == DataFrame(f.typ, f.payload);
    assert [] + DataFrame(f.typ, f.payload) == DataFrame(f.typ, f.payload);
    SendPerforms(w.left, w.right, f);
    TurnsPerform(Link.Left, w.left, w.right, [Keep(f), TwoClients.Clear, Transmit], Rounds(f, payloads));
    var (left, right) := Perform(w.left, w.right, [Keep(f), TwoClients.Clear, Transmit]).value;
    SpoiltFrameArrives(World(left, right), f, payloads);
  }

  lemma SendPerforms(me: End, you: End, f: Link.Frame)
    requires Can(Keep(f), me, you)
    ensures
      Perform(me, you, [Keep(f), TwoClients.Clear, Transmit])
        == Some((Emits(me.(tx := Link.Waiting(f), begun := me.begun + [f],
                           client := me.client.(lastSent := Some(DataFrame(f.typ, f.payload)), sendSucceeded := false)),
                       Handling.Begun(me.client, f.typ, f.payload)), you))
  {
    hide DataFrame;
    var (me1, you1) := Do(Keep(f), me, you);
    assert [Keep(f), TwoClients.Clear, Transmit] == [Keep(f)] + [TwoClients.Clear, Transmit];
    PerformOne(me, you, Keep(f), [TwoClients.Clear, Transmit]);
    PerformTwo(me1, you1, TwoClients.Clear, Transmit);
  }

  // ---- The same with the clients themselves ----

  /** The party after its send has started. */
  function AfterSend(p: Party, f: Link.Frame): Party {
    Link.Sent(p.(tx := Link.Waiting(f), lastSent := Some(f), succeeded := false, begun := p.begun + [f]),
              Link.DataMsg(f.Digested(), f))
  }

  /** The party after its receive thread has answered this frame. */
  function AfterAnswer(p: Party, f: Link.Frame): Party {
    Link.Sent(p.(dispatched := p.dispatched + [f]), Link.ReplyMsg(f.Digested(), true))
  }

  /** The party after its receive thread has dealt with the reply to its frame. */
  function AfterReply(p: Party, f: Link.Frame): Party { p.(succeeded := true, acked := p.acked + [f]) }

  lemma SendingSteps(s: Handling.State, self: Party, peer: Party, f: Link.Frame, first: Handling.State)
    requires StandsFor(s, self, first) && self.tx.Ready? && s.sendSucceeded && f.typ > MSG_CONNECT
    ensures StandsFor(Handling.Begun(s, f.typ, f.payload), AfterSend(self, f), first)
  {
    hide FrameHash, HeaderTail, WireOf, EventsOf, Handling.Dispatches, Keeps;
    SendIsThreeSteps(s, self, peer, f, first);
    ThreeSteps(self, peer, Link.Begin(f), Link.Clear, Link.Transmit);
  }

  /** What a client stands for depends neither on its party's channel nor on a disconnection. */
  lemma StandsStill(s: Handling.State, p: Party, first: Handling.State)
    requires StandsFor(s, p, first)
    ensures p.rx.Idle? && p.succeeded == s.sendSucceeded && StandsFor(Handling.Disconnected(s), p, first)
    ensures forall out :: StandsFor(s, p.(out := out), first)
    ensures Handling.Disconnected(s).verified == s.verified
  {
    hide WireOf, EventsOf;
  }

  /** One message alone in a channel is whole when its bytes have all come, and not before. */
  lemma WholeAlone(m: Msg, k: nat)
    ensures WireOf([m]) == MsgBytes(m) && WholeMessages([m], k) == if k < |MsgBytes(m)| then 0 else 1
  {
    hide MsgBytes;
    assert [m][1..] == [] && MsgBytes(m) + [] == MsgBytes(m);
  }

  /** Attending to the only message of a channel. */
  lemma AttendOne(self: Party, peer: Party, m: Msg)
    requires peer.out == [m]
    ensures Steps(self, peer, AttendAll([])) == Some((self, peer))
    ensures Steps(self, peer, AttendAll([m])) == Steps(self, peer, Attended(m))
    ensures [m][..0] == [] && [m][..1] == [m]
  {
    hide Attended;
    assert [m][1..] == [] && Attended(m) + [] == Attended(m);
  }

  /** A verified frame received is a frame dispatched. */
  lemma ArrivalOf(s: Handling.State, m: Msg)
    requires m.DataMsg? && m.frame.typ > MSG_CONNECT && Link.Intact(m)
    ensures
      Handling.HandledAll(s, Parse(MsgBytes(m)).items).verified == s.verified
        + [Handling.Arrival(Handling.Event(m.frame.typ, m.frame.payload), m.frame.typ == s.awaited)]
  {
    hide MsgBytes, Parse, Verified, Link.Intact, TypeOf, HashOf, ReplyFrame;
    var item := OneMessage(m);
    assert [item][1..] == [];
  }

  /** The receive thread on the bytes of one message: did they all come before it left? */
  method ReadMessage(client: ClientBase.Client, stream: seq<Byte>, schedule: seq<ClientBase.NetEvent>,
                     ghost self: Party, ghost peer: Party, ghost m: Msg, ghost first: Handling.State)
    returns (arrived: bool, ghost self': Party, ghost peer': Party)
    requires client.Alive() && StandsFor(client.Fields(), self, first)
    requires peer.out == [m] && DataTypes(peer.out) && FitBuffer(peer.out) && stream == MsgBytes(m)
    modifies client
    ensures ClientBase.Brings(schedule, |stream|) ==> arrived
    ensures StandsFor(client.Fields(), self', first)
    ensures if arrived then Steps(self, peer, Attended(m)) == Some((self', peer')) else self' == self && peer' == peer
    ensures arrived && m.DataMsg? && Link.Intact(m) ==>
      client.verified == old(client.verified)
        + [Handling.Arrival(Handling.Event(m.frame.typ, m.frame.payload), m.frame.typ == old(client.awaited))]
  {
    hide StandsFor, WireOf, WholeMessages, Handling.Disconnected, ClientBase.Since, Steps, MsgBytes, Attended, Parse;
    hide ClientBase.Brings, AttendAll, Handling.HandledAll, Link.Intact;
    var net := new ClientBase.Network(stream, schedule);
    assert net.stream[0..] == stream;
    WholeAlone(m, 0);
    AttendOne(self, peer, m);
    ghost var s := client.Fields();
    var exit;
    ghost var after;
    exit, after := RunAsParty(client, net, self, peer, first);
    WholeAlone(m, net.at);
    if ClientBase.Brings(schedule, |stream|) {
      ClientBase.EnoughArrivals(net, [], 0, exit);
    }
    arrived := net.at == |stream|;
    assert peer.out[..WholeMessages([m], net.at)] == if arrived then [m] else [];
    ghost var end := Steps(self, peer, AttendAll(if arrived then [m] else [])).value;
    self', peer' := end.0, end.1;
    StandsStill(after, self', first);
    if arrived && m.DataMsg? && Link.Intact(m) {
      assert net.stream[0..net.at] == stream;
      ArrivalOf(s, m);
    }
  }

  lemma AnsweringSteps(self: Party, peer: Party, f: Link.Frame)
    requires self.rx.Idle? && peer.out == [Link.DataMsg(f.Digested(), f)]
    ensures Steps(self, peer, Attended(peer.out[0])) == Some((AfterAnswer(self, f), peer.(out := [])))
  {
    hide FrameHash;
    ThreeSteps(self, peer, Link.ReceiveData, Link.Check, Link.Answer);
  }

  lemma AcknowledgingSteps(self: Party, peer: Party, f: Link.Frame)
    requires self.rx.Idle? && peer.out == [Link.ReplyMsg(f.Digested(), true)] && self.lastSent == Some(f)
    ensures Steps(self, peer, Attended(peer.out[0])) == Some((AfterReply(self, f), peer.(out := [])))
  {
    hide FrameHash;
    ThreeSteps(self, peer, Link.ReceiveReply, Link.LookUp, Link.Act);
  }

  /** The answering client's wire is one reply longer. */
  lemma AnswerOnWire(s: Handling.State, s': Handling.State, p: Party, f: Link.Frame, first: Handling.State)
    requires StandsFor(s, p, first) && StandsFor(s', AfterAnswer(p, f), first)
    ensures s'.wire == s.wire + MsgBytes(Link.ReplyMsg(f.Digested(), true))
  {
    hide WireOf, EventsOf, FrameHash, MsgBytes, Handling.Dispatches, Keeps;
    var reply := Link.ReplyMsg(f.Digested(), true);
    WireSnoc(p.sent, reply);
    assert first.wire + (WireOf(p.sent) + MsgBytes(reply)) == first.wire + WireOf(p.sent) + MsgBytes(reply);
  }

  /** A client's Send, the other's receive thread on the bytes it sent, and its own receive thread on
      the bytes that come back, in whatever pieces: once both have got all their bytes, however they
      left then, the frame has been dispatched once and Send's flag is true; and they have, when enough
      arrivals come before a stop or a failure. In any case both clients still stand for parties. */
  method Exchange(left: ClientBase.Client, right: ClientBase.Client, typ: Word, data: array?<Byte>, length: Word,
                  toRight: seq<ClientBase.NetEvent>, toLeft: seq<ClientBase.NetEvent>,
                  ghost self: Party, ghost peer: Party, ghost first: Handling.State, ghost firstPeer: Handling.State)
    returns (started: bool, arrived: bool, ghost self': Party, ghost peer': Party)
    requires left != right && left.Alive() && right.Alive()
    requires StandsFor(left.Fields(), self, first) && StandsFor(right.Fields(), peer, firstPeer)
    requires self.tx.Ready? && self.out == [] && peer.out == []
    requires typ > MSG_CONNECT && HEADER + length <= BUFFER_SIZE && (data != null ==> length <= data.Length)
    modifies left, right
    ensures started <==> old(left.sendSucceeded) && (data != null || length == 0)
    ensures StandsFor(left.Fields(), self', first) && StandsFor(right.Fields(), peer', firstPeer)
    ensures !started ==> self' == self && peer' == peer
    ensures started && ClientBase.Brings(toRight, HEADER + length) && ClientBase.Brings(toLeft, HEADER) ==> arrived
    ensures started && arrived ==>
      var f := Link.Frame(typ, if data == null then [] else old(data[..length]));
      && left.sendSucceeded && self' == AfterReply(AfterSend(self, f).(out := []), f)
      && (right.verified == old(right.verified)
           + [Handling.Arrival(Handling.Event(typ, f.payload), typ == old(right.awaited))])
      && peer' == AfterAnswer(peer, f).(out := [])
  {
    hide Steps, MsgBytes, DataFrame, Attended, StandsFor, ReplyFrame, FrameHash, ClientBase.Brings;
    hide Handling.Disconnected, Link.Intact;
    arrived, self', peer' := false, self, peer;
    var sentBefore, answeredBefore := left.wire, right.wire;
    ghost var s, t := left.Fields(), right.Fields();
    started := left.StartSend(typ, data, length, false, true);
    if started {
      ghost var f := Link.Frame(typ, if data == null then [] else data[..length]);
      ghost var m, reply := Link.DataMsg(f.Digested(), f), Link.ReplyMsg(f.Digested(), true);
      StandsStill(s, self, first);
      StandsStill(t, peer, firstPeer);
      SendingSteps(s, self, peer, f, first);
      self' := AfterSend(self, f);
      FrameIsMessage(f);
      AnsweringSteps(peer, self', f);
      var there := left.wire[|sentBefore|..];
      assert there == DataFrame(f.typ, f.payload);
      arrived, peer', self' := ReadMessage(right, there, toRight, peer, self', m, firstPeer);
      if arrived {
        StandsStill(left.Fields(), AfterSend(self, f), first);
        AnswerOnWire(t, right.Fields(), peer, f, firstPeer);
        AcknowledgingSteps(self', peer', f);
        ReplyIsMessage(f.Digested(), true);
        var back := right.wire[|answeredBefore|..];
        arrived, self', peer' := ReadMessage(left, back, toLeft, self', peer', reply, first);
        StandsStill(right.Fields(), AfterAnswer(peer, f), firstPeer);
        StandsStill(left.Fields(), self', first);
      }
    }
  }
}
