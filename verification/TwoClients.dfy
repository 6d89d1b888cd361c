/** Two clients over two byte channels, step by step: the steps of Send, of the receive thread with its
    partial receipts, of Receive's initialisations and of the network interleave freely, and every run
    is a run of the link. */
module TwoClients {
  import opened Words
  import opened Md5Spec
  import opened Options
  import opened Frames
  import ClientBase
  import Handling
  import Link
  import opened LinkBytes

  /** Where the receive thread is. */
  datatype Thread =
    | Listening                                           // receiving a frame
    | Checking(header: Header, payload: seq<Byte>)        // has received a data frame
    | Answering(correct: bool)                            // has handed it on; will answer it
    | Dealing(hash: Hash, correct: bool)                  // has received a reply
    | Comparing(hash: Hash, correct: bool, saved: Option<Handling.FrameBytes>)

  datatype End = End(
    client: Handling.State,
    tx: Link.Sending,            // where Send is
    rx: Thread,
    held: seq<Byte>,             // what the receive thread has of the next frame
    channel: seq<Byte>,          // sent and not yet received by the other client
    begun: seq<Link.Frame>)      // history: frames Send took on

  datatype World = World(left: End, right: End)

  datatype Action =
    | Keep(f: Link.Frame) | Clear | Transmit | TransmitFails | Return
    | Take(n: nat) | Open | Check | Answer | AnswerFails | LookUp | Act | ResendFails
    | Arm(typ: Word)                 // Receive initialises its slot
    | Spoil(i: nat, payload: Payload)  // the network alters a payload on its way

  datatype Turn = Turn(side: Link.Side, action: Action)

  // ---- What the actions do to the bytes ----

  function HeadLength(stream: seq<Byte>): (n: nat)
    requires Complete(stream)
    ensures HEADER <= n <= |stream|
  {
    HEADER + PayloadLength(stream[..HEADER])
  }

  function HeadItem(stream: seq<Byte>): Item
    requires Complete(stream)
  {
    ItemOf(stream[..HEADER], stream[HEADER..HeadLength(stream)])
  }

  /** How many bytes the receive loop that is running still wants. */
  function Missing(held: seq<Byte>): nat {
    if |held| < HEADER then HEADER - |held|
    else
      var end := HEADER + PayloadLength(held[..HEADER]);
      if |held| < end then end - |held| else 0
  }

  /** The stream holds, i frames on, a data frame of this payload length that the digest check will
      refuse with the new payload. */
  predicate CanSpoil(stream: seq<Byte>, i: nat, payload: Payload) {
    Complete(stream) &&
    if i > 0 then CanSpoil(stream[HeadLength(stream)..], i - 1, payload)
    else
      var h: Header := stream[..HEADER];
      Flagged(h) && TypeOf(h) > MSG_CONNECT && |payload| == LengthOf(h) && !Verified(h, payload)
  }

  function SpoiltStream(stream: seq<Byte>, i: nat, payload: Payload): (spoilt: seq<Byte>)
    requires CanSpoil(stream, i, payload)
    ensures |spoilt| == |stream|
  {
    var n := HeadLength(stream);
    if i > 0 then stream[..n] + SpoiltStream(stream[n..], i - 1, payload)
    else stream[..HEADER] + payload + stream[n..]
  }

  predicate IsSaved(saved: Option<Handling.FrameBytes>, hash: Hash) { saved.Some? && saved.value[..16] == hash }

  predicate Can(a: Action, me: End, you: End) {
    match a
    case Keep(f) => me.tx.Ready? && me.client.sendSucceeded && f.typ > MSG_CONNECT
    case Clear => me.tx.Saved?
    case Transmit => me.tx.Cleared?
    case TransmitFails => me.tx.Cleared?
    case Return => me.tx.Waiting?
    case Take(n) => me.rx.Listening? && 0 < n <= |you.channel| && n <= Missing(me.held)
    case Open => me.rx.Listening? && Complete(me.held)
    case Check => me.rx.Checking?
    case Answer => me.rx.Answering?
    case AnswerFails => me.rx.Answering?
    case LookUp => me.rx.Dealing?
    case Act => me.rx.Comparing?
    case ResendFails => me.rx.Comparing? && !me.rx.correct && IsSaved(me.rx.saved, me.rx.hash)
    case Arm(_) => true
    case Spoil(i, payload) =>
      var stream := you.held + me.channel;
      CanSpoil(stream, i, payload) && you.held <= SpoiltStream(stream, i, payload)
  }

  /** What goes on the client's wire goes into its channel. */
  function Emits(e: End, client: Handling.State): End {
    var more := if e.client.wire <= client.wire then client.wire[|e.client.wire|..] else [];
    e.(client := client, channel := e.channel + more)
  }

  function Do(a: Action, me: End, you: End): (End, End)
    requires Can(a, me, you)
  {
    var client := me.client;
    match a
    case Keep(f) =>
      (me.(tx := Link.Saved(f), client := client.(lastSent := Some(DataFrame(f.typ, f.payload))),
           begun := me.begun + [f]), you)
    case Clear =>
      (me.(tx := Link.Cleared(me.tx.f), client := client.(sendSucceeded := false)), you)
    case Transmit =>
      var f := me.tx.f;
      (Emits(me.(tx := Link.Waiting(f)), client.(wire := client.wire + DataFrame(f.typ, f.payload))), you)
    case TransmitFails =>
      (me.(tx := Link.Ready), you)
    case Return =>
      (me.(tx := Link.Ready), you)
    case Take(n) =>
      (me.(held := me.held + you.channel[..n]), you.(channel := you.channel[n..]))
    case Open =>
      (Opened(me.(held := []), HeadItem(me.held)), you)
    case Check =>
      var Checking(h, payload) := me.rx;
      (me.(rx := Answering(Verified(h, payload)), client := Handling.Checked(client, h, payload)), you)
    case Answer =>
      (Emits(me.(rx := Listening), Handling.Replied(client, me.rx.correct)), you)
    case AnswerFails =>
      (me.(rx := Listening, client := Handling.Replied(client, me.rx.correct).(wire := client.wire)), you)
    case LookUp =>
      (me.(rx := Comparing(me.rx.hash, me.rx.correct, client.lastSent)), you)
    case Act =>
      var Comparing(hash, correct, saved) := me.rx;
      (Emits(me.(rx := Listening), Handling.Dealt(client, saved, hash, correct)), you)
    case ResendFails =>
      (me.(rx := Listening), you)
    case Arm(typ) =>
      (me.(client := Handling.Armed(client, typ)), you)
    case Spoil(i, payload) =>
      (me.(channel := SpoiltStream(you.held + me.channel, i, payload)[|you.held|..]), you)
  }

  function Opened(me: End, item: Item): End {
    match item
    case Noise(_) => me
    case Connect => me.(client := me.client.(connectWakeups := me.client.connectWakeups + 1))
    case Reply(hash, correct) => me.(rx := Dealing(hash, correct))
    case Data(h, payload) => me.(rx := Checking(h, payload))
  }

  predicate CanTurn(w: World, t: Turn) {
    match t.side
    case Left => Can(t.action, w.left, w.right)
    case Right => Can(t.action, w.right, w.left)
  }

  function After(w: World, t: Turn): World
    requires CanTurn(w, t)
  {
    match t.side
    case Left => var (left, right) := Do(t.action, w.left, w.right); World(left, right)
    case Right => var (right, left) := Do(t.action, w.right, w.left); World(left, right)
  }

  function Run(w: World, turns: seq<Turn>): Option<World>
    decreases |turns|
  {
    if turns == [] then Some(w)
    else if CanTurn(w, turns[0]) then Run(After(w, turns[0]), turns[1..])
    else None
  }

  /** A client as Connect leaves it, with nothing on its way. */
  predicate Fresh(e: End) {
    && e.client.lastSent.None? && e.client.sendSucceeded && e.client.replyHash.None?
    && e.tx.Ready? && e.rx.Listening? && e.held == [] && e.channel == [] && e.begun == []
  }

  // ---- The link these bytes carry ----

  ghost predicate ThreadStands(t: Thread, replyHash: Option<Hash>, rx: Link.Receiving) {
    match t
    case Listening => rx.Idle? && replyHash.None?
    case Checking(h, payload) =>
      && replyHash.None? && rx.Checking? && rx.m.DataMsg? && HashOf(h) == rx.m.hash
      && TypeOf(h) == rx.m.frame.typ && payload == rx.m.frame.payload && (Verified(h, payload) <==> Link.Intact(rx.m))
    case Answering(correct) => replyHash.Some? && rx == Link.Answering(replyHash.value, correct)
    case Dealing(hash, correct) => replyHash.None? && rx == Link.Dealing(hash, correct)
    case Comparing(hash, correct, saved) =>
      replyHash.None? && rx.Comparing? && rx.hash == hash && rx.correct == correct && Keeps(saved, rx.saved)
  }

  ghost predicate EndStands(e: End, p: Party, first: Handling.State) {
    && e.tx == p.tx && e.begun == p.begun && ThreadStands(e.rx, e.client.replyHash, p.rx)
    && e.client.sendSucceeded == p.succeeded && Keeps(e.client.lastSent, p.lastSent)
    && e.client.wire == first.wire + WireOf(p.sent)
    && Handling.Dispatches(e.client, first, EventsOf(p.dispatched))
  }

  /** What the receiver has of the next frame, and the bytes on their way, are the sender's messages. */
  ghost predicate ChannelStands(sender: End, receiver: End, p: Party) {
    && receiver.held + sender.channel == WireOf(p.out)
    && ClientBase.WithinFrame(receiver.held) && (receiver.held != [] ==> receiver.rx.Listening?)
  }

  ghost predicate BothStand(me: End, you: End, self: Party, peer: Party, first: Handling.State,
                            firstYou: Handling.State) {
    && EndStands(me, self, first) && EndStands(you, peer, firstYou)
    && ChannelStands(me, you, self) && ChannelStands(you, me, peer)
  }

  /** The step of the link that the action is, if it is one. */
  function LabelOf(a: Action, me: End, you: End): Option<Link.Label>
    requires Can(a, me, you)
  {
    match a
    case Keep(f) => Some(Link.Begin(f))
    case Clear => Some(Link.Clear)
    case Transmit => Some(Link.Transmit)
    case TransmitFails => Some(Link.TransmitFails)
    case Return => Some(Link.Return)
    case Take(_) => None
    case Open => Some(if HeadItem(me.held).Data? then Link.ReceiveData else Link.ReceiveReply)
    case Check => Some(Link.Check)
    case Answer => Some(Link.Answer)
    case AnswerFails => Some(Link.AnswerFails)
    case LookUp => Some(Link.LookUp)
    case Act => Some(Link.Act)
    case ResendFails => Some(Link.ResendFails)
    case Arm(_) => None
    case Spoil(i, payload) => Some(Link.Spoil(i, payload))
  }

  /** The action keeps the two clients standing for the link's two parties. */
  ghost predicate Refines(a: Action, me: End, you: End, self: Party, peer: Party, first: Handling.State,
                          firstYou: Handling.State)
    requires Can(a, me, you)
  {
    var (me', you') := Do(a, me, you);
    match LabelOf(a, me, you)
    case None => BothStand(me', you', self, peer, first, firstYou)
    case Some(l) =>
      Link.Enabled(l, self, peer) &&
      var (self', peer') := Link.Apply(l, self, peer);
      BothStand(me', you', self', peer', first, firstYou)
  }

  /** Putting a message on the wire puts its bytes into the channel. */
  lemma EmitsMessage(e: End, client: Handling.State, p: Party, m: Msg, first: Handling.State, other: End)
    requires client.wire == e.client.wire + MsgBytes(m)
    requires e.client.wire == first.wire + WireOf(p.sent) && other.held + e.channel == WireOf(p.out)
    ensures Emits(e, client) == e.(client := client, channel := e.channel + MsgBytes(m))
    ensures client.wire == first.wire + WireOf(p.sent + [m])
    ensures other.held + (e.channel + MsgBytes(m)) == WireOf(p.out + [m])
  {
    hide WireOf, MsgBytes;
    WireSnoc(p.sent, m);
    WireSnoc(p.out, m);
    assert client.wire[|e.client.wire|..] == MsgBytes(m);
    assert first.wire + WireOf(p.sent) + MsgBytes(m) == first.wire + (WireOf(p.sent) + MsgBytes(m));
    assert other.held + e.channel + MsgBytes(m) == other.held + (e.channel + MsgBytes(m));
  }

  predicate Sends(a: Action) {
    a.Keep? || a.Clear? || a.Transmit? || a.TransmitFails? || a.Return?
  }

  lemma SendRefines(a: Action, me: End, you: End, self: Party, peer: Party, first: Handling.State,
                    firstYou: Handling.State)
    requires Sends(a) && Can(a, me, you) && BothStand(me, you, self, peer, first, firstYou)
    requires !self.tx.Ready? ==> self.lastSent == Some(self.tx.f)
    ensures Refines(a, me, you, self, peer, first, firstYou)
  {
    hide FrameHash, HeaderTail, WireOf, EventsOf, Handling.Dispatches, ClientBase.WithinFrame, Verified, HashOf, TypeOf;
    SameDispatches(me.client, first, EventsOf(self.dispatched));
    if a.Transmit? {
      var f := me.tx.f;
      var m := Link.DataMsg(f.Digested(), f);
      var sent := me.client.(wire := me.client.wire + DataFrame(f.typ, f.payload));
      FrameIsMessage(f);
      EmitsMessage(me.(tx := Link.Waiting(f)), sent, self, m, first, you);
    }
  }

  lemma FrameIsMessage(f: Link.Frame)
    ensures MsgBytes(Link.DataMsg(f.Digested(), f)) == DataFrame(f.typ, f.payload)
    ensures Link.Intact(Link.DataMsg(f.Digested(), f))
  {
  }

  /** What has been dispatched does not depend on the other fields. */
  lemma SameDispatches(s: Handling.State, first: Handling.State, events: seq<Handling.Event>)
    ensures forall s': Handling.State | s'.verified == s.verified && s'.executed == s.executed ::
      Handling.Dispatches(s', first, events) == Handling.Dispatches(s, first, events)
  {
  }

  lemma TakeRefines(n: nat, me: End, you: End, self: Party, peer: Party, first: Handling.State,
                    firstYou: Handling.State)
    requires Can(Take(n), me, you) && BothStand(me, you, self, peer, first, firstYou)
    ensures Refines(Take(n), me, you, self, peer, first, firstYou)
  {
    hide WireOf, EventsOf, Handling.Dispatches, PayloadLength, Verified, HashOf, TypeOf;
    assert me.held + you.channel[..n] + you.channel[n..] == me.held + you.channel;
    if |me.held| >= HEADER {
      assert (me.held + you.channel[..n])[..HEADER] == me.held[..HEADER];
    }
  }

  /** A message alone is one whole frame and one item. */
  lemma OnlyMessage(m: Msg) returns (item: Item)
    requires m.DataMsg? ==> m.frame.typ > MSG_CONNECT
    ensures Complete(MsgBytes(m)) && HeadLength(MsgBytes(m)) == |MsgBytes(m)| && item == HeadItem(MsgBytes(m))
    ensures m.ReplyMsg? ==> item == Reply(m.hash, m.correct)
    ensures m.DataMsg? ==> item.Data? && item.payload == m.frame.payload && HashOf(item.header) == m.hash
    ensures m.DataMsg? ==> TypeOf(item.header) == m.frame.typ
    ensures m.DataMsg? ==> (Verified(item.header, item.payload) <==> Link.Intact(m))
  {
    hide MsgBytes, Parse, Verified, HashOf, TypeOf, ItemOf, Link.Intact, PayloadLength;
    item := OneMessage(m);
    MessageIsWhole(m);
    var bytes := MsgBytes(m);
    ParseStep(bytes);
    assert Parse(bytes).items[0] == HeadItem(bytes);
  }

  /** A complete frame at the head of the stream is its first message, and nothing more. */
  lemma HeldIsMessage(held: seq<Byte>, channel: seq<Byte>, out: seq<Msg>)
    requires held + channel == WireOf(out) && DataTypes(out) && Complete(held) && ClientBase.WithinFrame(held)
    ensures out != [] && held == MsgBytes(out[0]) && channel == WireOf(out[1..])
  {
    hide MsgBytes, PayloadLength;
    var first := MsgBytes(out[0]);
    MessageIsWhole(out[0]);
    assert held[..HEADER] == (held + channel)[..HEADER] == first[..HEADER];
    assert held == (held + channel)[..|first|] == first;
    assert channel == (held + channel)[|first|..] == WireOf(out[1..]);
  }

  lemma OpenRefines(me: End, you: End, self: Party, peer: Party, first: Handling.State, firstYou: Handling.State)
    requires Can(Open, me, you) && BothStand(me, you, self, peer, first, firstYou) && DataTypes(peer.out)
    ensures Refines(Open, me, you, self, peer, first, firstYou)
  {
    hide MsgBytes, WireOf, EventsOf, Handling.Dispatches, Complete, HeadItem, Verified, HashOf, TypeOf, Link.Intact;
    hide Keeps, HeadLength, FrameHash, HeaderTail, ReplyFrame, PayloadLength, LengthOf;
    HeldIsMessage(me.held, you.channel, peer.out);
    var item := OnlyMessage(peer.out[0]);
    assert [] + you.channel == you.channel;
  }

  lemma CheckRefines(me: End, you: End, self: Party, peer: Party, first: Handling.State, firstYou: Handling.State)
    requires Can(Check, me, you) && BothStand(me, you, self, peer, first, firstYou)
    ensures Refines(Check, me, you, self, peer, first, firstYou)
  {
    hide WireOf, EventsOf, Handling.Dispatches, Verified, HashOf, TypeOf, Link.Intact, ClientBase.WithinFrame;
    hide Keeps, FrameHash, HeaderTail, ReplyFrame;
    var Checking(h, payload) := me.rx;
    Handling.CheckDispatches(me.client, first, EventsOf(self.dispatched), h, payload);
    EventsSnoc(self.dispatched, self.rx.m.frame);
    assert EventsOf(self.dispatched) + [] == EventsOf(self.dispatched);
  }

  lemma AnswerRefines(a: Action, me: End, you: End, self: Party, peer: Party, first: Handling.State,
                      firstYou: Handling.State)
    requires (a.Answer? || a.AnswerFails?) && Can(a, me, you) && BothStand(me, you, self, peer, first, firstYou)
    ensures Refines(a, me, you, self, peer, first, firstYou)
  {
    hide WireOf, EventsOf, Handling.Dispatches, ReplyFrame, ClientBase.WithinFrame, Verified, HashOf, TypeOf;
    hide Keeps, Link.Intact, FrameHash, HeaderTail;
    SameDispatches(me.client, first, EventsOf(self.dispatched));
    if a.Answer? {
      var m := Link.ReplyMsg(me.client.replyHash.value, me.rx.correct);
      EmitsMessage(me.(rx := Listening), Handling.Replied(me.client, me.rx.correct), self, m, first, you);
    }
  }

  lemma LookUpRefines(me: End, you: End, self: Party, peer: Party, first: Handling.State, firstYou: Handling.State)
    requires Can(LookUp, me, you) && BothStand(me, you, self, peer, first, firstYou)
    ensures Refines(LookUp, me, you, self, peer, first, firstYou)
  {
    hide WireOf, EventsOf, Handling.Dispatches, ClientBase.WithinFrame, Verified, TypeOf, HashOf, Link.Intact, Keeps;
  }

  lemma ActRefines(a: Action, me: End, you: End, self: Party, peer: Party, first: Handling.State,
                   firstYou: Handling.State)
    requires (a.Act? || a.ResendFails?) && Can(a, me, you) && BothStand(me, you, self, peer, first, firstYou)
    ensures Refines(a, me, you, self, peer, first, firstYou)
  {
    hide WireOf, EventsOf, Handling.Dispatches, FrameHash, HeaderTail, ClientBase.WithinFrame, Verified, TypeOf, HashOf;
    hide Link.Intact;
    SameDispatches(me.client, first, EventsOf(self.dispatched));
    SavedHash(me.rx.saved, self.rx.saved);
    if a.Act? && IsSaved(me.rx.saved, me.rx.hash) && !me.rx.correct {
      var f := self.rx.saved.value;
      FrameIsMessage(f);
      EmitsMessage(me.(rx := Listening), Handling.Dealt(me.client, me.rx.saved, me.rx.hash, me.rx.correct), self,
                   Link.DataMsg(f.Digested(), f), first, you);
    }
  }

  lemma SavedHash(saved: Option<Handling.FrameBytes>, f: Option<Link.Frame>)
    requires Keeps(saved, f)
    ensures forall hash :: IsSaved(saved, hash) == Link.IsLastSent(f, hash)
  {
    hide FrameHash, HeaderTail;
    if f.Some? {
      assert saved.value[..16] == FrameHash(f.value.typ, f.value.payload);
    }
  }

  lemma ArmRefines(typ: Word, me: End, you: End, self: Party, peer: Party, first: Handling.State,
                   firstYou: Handling.State)
    requires BothStand(me, you, self, peer, first, firstYou)
    ensures Refines(Arm(typ), me, you, self, peer, first, firstYou)
  {
    hide WireOf, EventsOf, Handling.Dispatches, ClientBase.WithinFrame, Verified, TypeOf, HashOf;
    SameDispatches(me.client, first, EventsOf(self.dispatched));
  }

  /** The head of a channel is its first message. */
  lemma HeadIsMessage(out: seq<Msg>)
    requires DataTypes(out) && Complete(WireOf(out))
    ensures out != [] && HeadLength(WireOf(out)) == |MsgBytes(out[0])|
    ensures WireOf(out)[HeadLength(WireOf(out))..] == WireOf(out[1..])
    ensures WireOf(out)[..HeadLength(WireOf(out))] == MsgBytes(out[0])
    ensures Parse(MsgBytes(out[0])) == Parsed([HeadItem(WireOf(out))], [])
  {
    hide MsgBytes, PayloadLength, ItemOf, Parse;
    var stream, first := WireOf(out), MsgBytes(out[0]);
    MessageIsWhole(out[0]);
    assert stream == first + WireOf(out[1..]);
    assert stream[..HEADER] == first[..HEADER];
    assert stream[..|first|] == first && first[|first|..] == [];
    assert stream[HEADER..|first|] == first[HEADER..|first|];
    ParseStep(first);
    NothingParses();
  }

  /** Spoiling the bytes of the i-th frame of the channel spoils the i-th message. */
  lemma {:induction false} SpoiltIsMessage(out: seq<Msg>, i: nat, payload: Payload)
    requires DataTypes(out) && CanSpoil(WireOf(out), i, payload)
    ensures i < |out| && out[i].DataMsg? && |payload| == |out[i].frame.payload|
    ensures !Link.Intact(Link.Spoilt(out[i], payload))
    ensures SpoiltStream(WireOf(out), i, payload) == WireOf(out[i := Link.Spoilt(out[i], payload)])
    decreases i
  {
    hide MsgBytes, Complete, Parse, PayloadLength, ItemOf, Verified, TypeOf, Link.Intact, HeadLength;
    HeadIsMessage(out);
    if i > 0 {
      SpoiltIsMessage(out[1..], i - 1, payload);
      var spoilt := Link.Spoilt(out[i], payload);
      assert out[i := spoilt][0] == out[0] && out[i := spoilt][1..] == out[1..][i - 1 := spoilt];
    } else {
      MessageSpoilt(out[0], WireOf(out[1..]), payload);
      assert WireOf(out) == MsgBytes(out[0]) + WireOf(out[1..]);
      assert out[0 := Link.Spoilt(out[0], payload)][1..] == out[1..];
    }
  }

  lemma MessageSpoilt(m: Msg, later: seq<Byte>, payload: Payload)
    requires m.DataMsg? ==> m.frame.typ > MSG_CONNECT
    requires |MsgBytes(m)| >= HEADER
    requires
      var h: Header := (MsgBytes(m) + later)[..HEADER];
      Flagged(h) && TypeOf(h) > MSG_CONNECT && |payload| == LengthOf(h) && !Verified(h, payload)
    ensures m.DataMsg? && |payload| == |m.frame.payload| && !Link.Intact(Link.Spoilt(m, payload))
    ensures
      (MsgBytes(m) + later)[..HEADER] + payload + (MsgBytes(m) + later)[|MsgBytes(m)|..]
        == MsgBytes(Link.Spoilt(m, payload)) + later
  {
    hide Digest, HeaderTail, TypeOf, LengthOf, Flagged;
    ReplyHead(m, later);
    var h: Header := (MsgBytes(m) + later)[..HEADER];
    var DataMsg(hash, f) := m;
    HeaderFields(hash, |f.payload|, f.typ);
    assert h == hash + HeaderTail(|f.payload|, f.typ);
    assert h[16..] == HeaderTail(|f.payload|, f.typ) && h[..16] == hash;
    assert (MsgBytes(m) + later)[|MsgBytes(m)|..] == later;
  }

  lemma ReplyHead(m: Msg, later: seq<Byte>)
    requires |MsgBytes(m)| >= HEADER
    ensures m.ReplyMsg? ==> TypeOf((MsgBytes(m) + later)[..HEADER]) <= MSG_CONNECT
  {
    if m.ReplyMsg? {
      HeaderFields(m.hash, 0, if m.correct then MSG_DATA_CORRECT else MSG_DATA_ERROR);
      assert (MsgBytes(m) + later)[..HEADER] == ReplyFrame(m.hash, m.correct);
    }
  }

  lemma SpoilRefines(i: nat, payload: Payload, me: End, you: End, self: Party, peer: Party, first: Handling.State,
                     firstYou: Handling.State)
    requires Can(Spoil(i, payload), me, you) && BothStand(me, you, self, peer, first, firstYou) && DataTypes(self.out)
    ensures Refines(Spoil(i, payload), me, you, self, peer, first, firstYou)
  {
    hide MsgBytes, Link.Intact, SpoiltStream, CanSpoil, WireOf, EventsOf, Handling.Dispatches, Keeps;
    hide ClientBase.WithinFrame, Verified, TypeOf, HashOf;
    SpoiltIsMessage(self.out, i, payload);
    var spoilt := SpoiltStream(you.held + me.channel, i, payload);
    assert spoilt == you.held + spoilt[|you.held|..];
  }

  lemma ActionRefines(a: Action, me: End, you: End, self: Party, peer: Party, first: Handling.State,
                      firstYou: Handling.State)
    requires Can(a, me, you) && BothStand(me, you, self, peer, first, firstYou)
    requires DataTypes(self.out) && DataTypes(peer.out) && (!self.tx.Ready? ==> self.lastSent == Some(self.tx.f))
    ensures Refines(a, me, you, self, peer, first, firstYou)
  {
    hide Can, BothStand, Refines, DataTypes;
    match a
    case Take(n) => TakeRefines(n, me, you, self, peer, first, firstYou);
    case Open => OpenRefines(me, you, self, peer, first, firstYou);
    case Check => CheckRefines(me, you, self, peer, first, firstYou);
    case Answer => AnswerRefines(a, me, you, self, peer, first, firstYou);
    case AnswerFails => AnswerRefines(a, me, you, self, peer, first, firstYou);
    case LookUp => LookUpRefines(me, you, self, peer, first, firstYou);
    case Act => ActRefines(a, me, you, self, peer, first, firstYou);
    case ResendFails => ActRefines(a, me, you, self, peer, first, firstYou);
    case Arm(typ) => ArmRefines(typ, me, you, self, peer, first, firstYou);
    case Spoil(i, payload) => SpoilRefines(i, payload, me, you, self, peer, first, firstYou);
    case _ => SendRefines(a, me, you, self, peer, first, firstYou);
  }

  // ---- Every run over bytes is a run of the link ----

  ghost predicate Stands(w: World, system: Link.System, first: World) {
    BothStand(w.left, w.right, system.left, system.right, first.left.client, first.right.client)
  }

  lemma Swapped(me: End, you: End, self: Party, peer: Party, first: Handling.State, firstYou: Handling.State)
    requires BothStand(me, you, self, peer, first, firstYou)
    ensures BothStand(you, me, peer, self, firstYou, first)
  {
    hide EndStands, ChannelStands;
  }

  lemma TurnRefines(w: World, t: Turn, system: Link.System, first: World) returns (moves: seq<Link.Move>)
    requires CanTurn(w, t) && Stands(w, system, first) && Link.Inv(system)
    ensures Link.Run(system, moves).Some? && Stands(After(w, t), Link.Run(system, moves).value, first)
  {
    hide Can, Do, BothStand, Link.Direction, Link.Enabled, Link.Apply;
    Link.DataTypesOnly(system.left, system.right);
    Link.DataTypesOnly(system.right, system.left);
    LastKept(system);
    var step;
    var l, r := first.left.client, first.right.client;
    match t.side {
      case Left =>
        ActionRefines(t.action, w.left, w.right, system.left, system.right, l, r);
        step := LabelOf(t.action, w.left, w.right);
      case Right =>
        Swapped(w.left, w.right, system.left, system.right, l, r);
        ActionRefines(t.action, w.right, w.left, system.right, system.left, r, l);
        step := LabelOf(t.action, w.right, w.left);
        var (right, left) := Do(t.action, w.right, w.left);
        forall s': Party, p': Party | BothStand(right, left, p', s', r, l)
          ensures BothStand(left, right, s', p', l, r)
        {
          Swapped(right, left, p', s', r, l);
        }
    }
    moves := if step.None? then [] else [Link.Move(t.side, step.value)];
    if step.Some? {
      OneMove(system, moves[0]);
    }
  }

  lemma OneMove(system: Link.System, m: Link.Move)
    requires Link.CanMove(system, m)
    ensures Link.Run(system, [m]) == Some(Link.After(system, m))
  {
    assert [m][1..] == [];
  }

  lemma LastKept(system: Link.System)
    requires Link.Inv(system)
    ensures !system.left.tx.Ready? ==> system.left.lastSent == Some(system.left.tx.f)
    ensures !system.right.tx.Ready? ==> system.right.lastSent == Some(system.right.tx.f)
  {
    hide Link.Tokens;
  }

  lemma {:induction false} RunRefines(w: World, turns: seq<Turn>, system: Link.System, first: World)
    returns (moves: seq<Link.Move>)
    requires Run(w, turns).Some? && Stands(w, system, first) && Link.Inv(system)
    ensures Link.Run(system, moves).Some? && Stands(Run(w, turns).value, Link.Run(system, moves).value, first)
    decreases |turns|
  {
    hide CanTurn, After, Stands, Link.Inv, Link.CanMove, Link.After;
    if turns == [] {
      moves := [];
    } else {
      var before := TurnRefines(w, turns[0], system, first);
      Link.RunKeepsInv(system, before);
      var later := RunRefines(After(w, turns[0]), turns[1..], Link.Run(system, before).value, first);
      moves := before + later;
      Link.RunConcat(system, before, later);
    }
  }

  lemma FreshStands(w: World)
    requires Fresh(w.left) && Fresh(w.right)
    ensures Stands(w, Link.START, w)
  {
    Handling.NothingDispatched(w.left.client);
    Handling.NothingDispatched(w.right.client);
    assert w.left.client.wire + [] == w.left.client.wire && w.right.client.wire + [] == w.right.client.wire;
  }

  /** Every run of two clients over bytes, from fresh connections, is a run of the link. */
  lemma WorldRunsTheLink(w: World, turns: seq<Turn>) returns (moves: seq<Link.Move>)
    requires Fresh(w.left) && Fresh(w.right) && Run(w, turns).Some?
    ensures Link.Run(Link.START, moves).Some? && Stands(Run(w, turns).value, Link.Run(Link.START, moves).value, w)
  {
    hide Fresh, Stands, Link.Inv, Link.Run, Run;
    FreshStands(w);
    Link.NoTokensAtStart();
    moves := RunRefines(w, turns, Link.START, w);
  }

  // ---- Exactly once, in order, over bytes ----

  lemma {:induction false} EventsOfPrefix(a: seq<Link.Frame>, b: seq<Link.Frame>)
    requires a <= b
    ensures |EventsOf(a)| == |a| && EventsOf(a) <= EventsOf(b)
    decreases |b|
  {
    if |a| < |b| {
      EventsOfPrefix(a, b[..|b| - 1]);
    } else if b != [] {
      assert a == b;
      EventsOfPrefix(a[..|a| - 1], b[..|b| - 1]);
    }
  }

  /** What the receiver has dispatched since the start, to its slot and its executer together, is what
      the sender's Send took on, in order and once each, but for at most the last; all of it while no
      frame is outstanding; and a Send that waits and finds the flag true has had its frame dispatched. */
  ghost predicate DeliversExactlyOnce(sender: End, receiver: End, first: Handling.State) {
    && first.verified <= receiver.client.verified
    && var arrivals := receiver.client.verified[|first.verified|..];
    && receiver.client.executed == first.executed + Handling.ToExecuter(arrivals)
    && var got := Handling.EventsIn(arrivals);
    && got <= EventsOf(sender.begun) && |sender.begun| <= |got| + 1
    && (sender.client.sendSucceeded && !sender.tx.Saved? ==> got == EventsOf(sender.begun))
    && (sender.client.sendSucceeded && sender.tx.Waiting? ==> Link.EndsWith(sender.begun, sender.tx.f))
  }

  /** Two clients over channels that cut, delay and spoil, what they send, answer or resend failing at
      will, and with any Receives: in every run each dispatches exactly the frames the other sent, in
      order and once each, but for at most the last one while it is unacknowledged. */
  lemma BytesArriveExactlyOnce(w: World, turns: seq<Turn>)
    requires Fresh(w.left) && Fresh(w.right) && Run(w, turns).Some?
    ensures
      var t := Run(w, turns).value;
      DeliversExactlyOnce(t.left, t.right, w.right.client) && DeliversExactlyOnce(t.right, t.left, w.left.client)
  {
    hide Fresh, Run, Link.Run, WireOf, EventsOf, Handling.Dispatches, ThreadStands, ChannelStands, Keeps;
    var moves := WorldRunsTheLink(w, turns);
    Link.ExactlyOnceInOrder(moves);
    Link.WaitEndsDelivered(moves, Link.Left);
    Link.WaitEndsDelivered(moves, Link.Right);
    var t, system := Run(w, turns).value, Link.Run(Link.START, moves).value;
    PrefixDelivers(t.left, t.right, system.left, system.right, w.left.client, w.right.client);
    PrefixDelivers(t.right, t.left, system.right, system.left, w.right.client, w.left.client);
  }

  lemma PrefixDelivers(sender: End, receiver: End, s: Party, r: Party, firstS: Handling.State, firstR: Handling.State)
    requires EndStands(sender, s, firstS) && EndStands(receiver, r, firstR)
    requires s.acked <= r.dispatched <= s.begun && |s.begun| <= |s.acked| + 1
    requires !Link.Outstanding(s) ==> r.dispatched == s.begun
    requires s.tx.Waiting? && s.succeeded ==> Link.EndsWith(s.begun, s.tx.f)
    ensures DeliversExactlyOnce(sender, receiver, firstR)
  {
    hide WireOf, EventsOf, ThreadStands, Keeps, Handling.EventsIn, Handling.ToExecuter;
    EventsOfPrefix(r.dispatched, s.begun);
  }
}
