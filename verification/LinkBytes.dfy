/** The receive loop over bytes carries out the protocol's steps: what it does with the bytes of the
    peer's channel is a run of the link. */
module LinkBytes {
  import opened Words
  import opened Md5Spec
  import opened Options
  import opened Frames
  import Handling
  import Link
  import opened ClientBase

  type Msg = Link.Msg
  type Party = Link.Party

  /** A message on the wire; a spoilt payload travels under the header of the original. */
  function MsgBytes(m: Msg): seq<Byte> {
    match m
    case DataMsg(hash, f) => hash + HeaderTail(|f.payload|, f.typ) + f.payload
    case ReplyMsg(hash, correct) => ReplyFrame(hash, correct)
  }

  function WireOf(out: seq<Msg>): seq<Byte> {
    if out == [] then [] else MsgBytes(out[0]) + WireOf(out[1..])
  }

  function EventsOf(frames: seq<Link.Frame>): seq<Handling.Event> {
    if frames == [] then []
    else EventsOf(frames[..|frames| - 1]) + [Handling.Event(frames[|frames| - 1].typ, frames[|frames| - 1].payload)]
  }

  /** The receive thread between two items stands for an idle party: since some first state it has
      sent the bytes of the party's messages, and dispatched its frames. */
  ghost predicate StandsFor(s: Handling.State, p: Party, first: Handling.State) {
    && p.rx.Idle? && s.replyHash.None? && s.sendSucceeded == p.succeeded
    && Keeps(s.lastSent, p.lastSent) && s.wire == first.wire + WireOf(p.sent)
    && Handling.Dispatches(s, first, EventsOf(p.dispatched))
  }

  /** The bytes kept for resending are those of the party's last frame. */
  predicate Keeps(lastSent: Option<Handling.FrameBytes>, f: Option<Link.Frame>) {
    lastSent.Some? == f.Some? && (f.Some? ==> lastSent.value == DataFrame(f.value.typ, f.value.payload))
  }

  /** The three steps a receive thread takes for one message. */
  function Attended(m: Msg): seq<Link.Label> {
    if m.DataMsg? then [Link.ReceiveData, Link.Check, Link.Answer]
    else [Link.ReceiveReply, Link.LookUp, Link.Act]
  }

  /** Both parties after the first has taken some steps, if it could. */
  function Steps(self: Party, peer: Party, labels: seq<Link.Label>): Option<(Party, Party)>
    decreases |labels|
  {
    if labels == [] then Some((self, peer))
    else if Link.Enabled(labels[0], self, peer) then
      var (self', peer') := Link.Apply(labels[0], self, peer);
      Steps(self', peer', labels[1..])
    else None
  }

  predicate DataTypes(out: seq<Msg>) {
    forall m <- out :: m.DataMsg? ==> m.frame.typ > MSG_CONNECT
  }

  /** A message's bytes parse to one item, which passes the check exactly if the payload is intact. */
  lemma OneMessage(m: Msg) returns (item: Item)
    requires m.DataMsg? ==> m.frame.typ > MSG_CONNECT
    ensures Parse(MsgBytes(m)) == Parsed([item], [])
    ensures m.ReplyMsg? ==> item == Reply(m.hash, m.correct)
    ensures m.DataMsg? ==> item.Data? && item.payload == m.frame.payload && HashOf(item.header) == m.hash
    ensures m.DataMsg? ==> TypeOf(item.header) == m.frame.typ
    ensures m.DataMsg? ==> (Verified(item.header, item.payload) <==> Link.Intact(m))
  {
    hide Digest;
    assert Parse([]) == Parsed([], []);
    match m
    case DataMsg(hash, f) =>
      var bytes := MsgBytes(m);
      var h: Header := hash + HeaderTail(|f.payload|, f.typ);
      HeaderFields(hash, |f.payload|, f.typ);
      assert bytes[..HEADER] == h && bytes[HEADER..HEADER + |f.payload|] == f.payload;
      assert bytes[HEADER + |f.payload|..] == [];
      ParseStep(bytes);
      item := Data(h, f.payload);
      assert h[16..] == HeaderTail(|f.payload|, f.typ);
    case ReplyMsg(hash, correct) =>
      HeaderFields(hash, 0, if correct then MSG_DATA_CORRECT else MSG_DATA_ERROR);
      assert MsgBytes(m)[..HEADER] == MsgBytes(m) && MsgBytes(m)[HEADER..] == [];
      item := Reply(hash, correct);
  }

  lemma {:induction false} WireSnoc(out: seq<Msg>, m: Msg)
    ensures WireOf(out + [m]) == WireOf(out) + MsgBytes(m)
  {
    hide MsgBytes;
    if out == [] {
      assert WireOf([m]) == MsgBytes(m) + WireOf([m][1..]) && [m][1..] == [];
    } else {
      assert (out + [m])[1..] == out[1..] + [m];
      WireSnoc(out[1..], m);
    }
  }

  /** Handling one item does what the party's three steps do: its state still stands for the party. */
  lemma ItemIsThreeSteps(s: Handling.State, self: Party, peer: Party, item: Item, first: Handling.State)
    requires StandsFor(s, self, first) && peer.out != [] && DataTypes([peer.out[0]])
    requires Parse(MsgBytes(peer.out[0])) == Parsed([item], [])
    ensures Steps(self, peer, Attended(peer.out[0])).Some?
    ensures
      var (self', peer') := Steps(self, peer, Attended(peer.out[0])).value;
      StandsFor(Handling.Handled(s, item), self', first) && peer' == peer.(out := peer.out[1..])
  {
    hide Digest, Parse, Verified, MsgBytes;
    var item' := OneMessage(peer.out[0]);
    if peer.out[0].DataMsg? {
      FrameIsThreeSteps(s, self, peer, item, first);
    } else {
      ReplyIsThreeSteps(s, self, peer, item, first);
    }
  }

  lemma ThreeSteps(self: Party, peer: Party, a: Link.Label, b: Link.Label, c: Link.Label)
    requires Link.Enabled(a, self, peer)
    requires var (self1, peer1) := Link.Apply(a, self, peer); Link.Enabled(b, self1, peer1)
    requires
      var (self1, peer1) := Link.Apply(a, self, peer);
      var (self2, peer2) := Link.Apply(b, self1, peer1);
      Link.Enabled(c, self2, peer2)
    ensures
      var (self1, peer1) := Link.Apply(a, self, peer);
      var (self2, peer2) := Link.Apply(b, self1, peer1);
      Steps(self, peer, [a, b, c]) == Some(Link.Apply(c, self2, peer2))
  {
    hide Link.Enabled, Link.Apply;
    var (self1, peer1) := Link.Apply(a, self, peer);
    var (self2, peer2) := Link.Apply(b, self1, peer1);
    var (self3, peer3) := Link.Apply(c, self2, peer2);
    assert [a, b, c][1..] == [b, c] && [b, c][1..] == [c] && [c][1..] == [];
    assert Steps(self3, peer3, []) == Some((self3, peer3));
    assert Steps(self2, peer2, [c]) == Some((self3, peer3));
    assert Steps(self1, peer1, [b, c]) == Some((self3, peer3));
  }

  lemma FrameIsThreeSteps(s: Handling.State, self: Party, peer: Party, item: Item, first: Handling.State)
    requires StandsFor(s, self, first) && peer.out != [] && peer.out[0].DataMsg?
    requires item.Data? && item.payload == peer.out[0].frame.payload && HashOf(item.header) == peer.out[0].hash
    requires TypeOf(item.header) == peer.out[0].frame.typ
    requires Verified(item.header, item.payload) <==> Link.Intact(peer.out[0])
    ensures
      var end := Steps(self, peer, [Link.ReceiveData, Link.Check, Link.Answer]);
      end.Some? && StandsFor(Handling.Handled(s, item), end.value.0, first)
      && end.value.1 == peer.(out := peer.out[1..])
  {
    hide Verified, Link.Intact, HashOf, TypeOf, Handling.Handled, FrameHash;
    var m := peer.out[0];
    StandsIdle(s, self, first);
    hide StandsFor;
    ThreeSteps(self, peer, Link.ReceiveData, Link.Check, Link.Answer);
    FrameStands(s, self, m, item, first);
  }

  lemma StandsIdle(s: Handling.State, p: Party, first: Handling.State)
    requires StandsFor(s, p, first)
    ensures p.rx.Idle?
  {
  }

  /** A client that has checked and answered a frame stands for the party that has. */
  lemma FrameStands(s: Handling.State, p: Party, m: Msg, item: Item, first: Handling.State)
    requires StandsFor(s, p, first) && m.DataMsg? && item.Data? && item.payload == m.frame.payload
    requires HashOf(item.header) == m.hash && TypeOf(item.header) == m.frame.typ
    requires Verified(item.header, item.payload) <==> Link.Intact(m)
    ensures
      var p' := p.(dispatched := if Link.Intact(m) then p.dispatched + [m.frame] else p.dispatched);
      StandsFor(Handling.Handled(s, item), Link.Sent(p', Link.ReplyMsg(m.hash, Link.Intact(m))), first)
  {
    hide Verified, Link.Intact, ReplyFrame, HashOf, TypeOf, WireOf, EventsOf, Handling.Dispatches, Keeps;
    var checked, reply := Handling.Checked(s, item.header, item.payload), Link.ReplyMsg(m.hash, Link.Intact(m));
    Handling.CheckDispatches(s, first, EventsOf(p.dispatched), item.header, item.payload);
    Answered(checked, Link.Intact(m), first, EventsOf(p.dispatched) + Handling.EventOf(item));
    assert EventsOf(p.dispatched) + [] == EventsOf(p.dispatched);
    WireSnoc(p.sent, reply);
    EventsSnoc(p.dispatched, m.frame);
    assert first.wire + WireOf(p.sent) + MsgBytes(reply) == first.wire + (WireOf(p.sent) + MsgBytes(reply));
  }

  lemma Answered(s: Handling.State, correct: bool, first: Handling.State, events: seq<Handling.Event>)
    ensures Handling.Dispatches(Handling.Replied(s, correct), first, events) == Handling.Dispatches(s, first, events)
  {
  }

  lemma EventsSnoc(frames: seq<Link.Frame>, f: Link.Frame)
    ensures EventsOf(frames + [f]) == EventsOf(frames) + [Handling.Event(f.typ, f.payload)]
  {
    assert (frames + [f])[..|frames|] == frames;
  }

  /** What a reply does to a client, in the party's terms. */
  lemma ReplyHandled(s: Handling.State, self: Party, hash: Hash, correct: bool, first: Handling.State)
    requires StandsFor(s, self, first)
    ensures
      var s' := Handling.Handled(s, Reply(hash, correct));
      if !Link.IsLastSent(self.lastSent, hash) then s' == s
      else if correct then s' == s.(sendSucceeded := true, sendWakeups := s.sendWakeups + 1)
      else s' == s.(wire := s.wire + MsgBytes(Link.DataMsg(hash, self.lastSent.value)))
  {
    hide FrameHash, HeaderTail, WireOf, EventsOf;
    if self.lastSent.Some? {
      var f := self.lastSent.value;
      assert DataFrame(f.typ, f.payload)[..16] == FrameHash(f.typ, f.payload);
    }
  }

  lemma ReplyIsThreeSteps(s: Handling.State, self: Party, peer: Party, item: Item, first: Handling.State)
    requires StandsFor(s, self, first) && peer.out != [] && peer.out[0].ReplyMsg?
    requires item == Reply(peer.out[0].hash, peer.out[0].correct)
    ensures
      var end := Steps(self, peer, [Link.ReceiveReply, Link.LookUp, Link.Act]);
      end.Some? && StandsFor(Handling.Handled(s, item), end.value.0, first)
      && end.value.1 == peer.(out := peer.out[1..])
  {
    hide FrameHash, MsgBytes, WireOf, EventsOf, Handling.Handled;
    var hash, correct := peer.out[0].hash, peer.out[0].correct;
    ThreeSteps(self, peer, Link.ReceiveReply, Link.LookUp, Link.Act);
    ReplyHandled(s, self, hash, correct, first);
    if Link.IsLastSent(self.lastSent, hash) {
      var m := Link.DataMsg(hash, self.lastSent.value);
      WireSnoc(self.sent, m);
      assert first.wire + WireOf(self.sent) + MsgBytes(m) == first.wire + (WireOf(self.sent) + MsgBytes(m));
    }
  }

  /** A send that starts is the party's three sending steps. */
  lemma SendIsThreeSteps(s: Handling.State, self: Party, peer: Party, f: Link.Frame, first: Handling.State)
    requires StandsFor(s, self, first) && Link.Enabled(Link.Begin(f), self, peer)
    ensures
      var end := Steps(self, peer, [Link.Begin(f), Link.Clear, Link.Transmit]);
      end.Some? && StandsFor(Handling.Begun(s, f.typ, f.payload), end.value.0, first) && end.value.1 == peer
  {
    hide FrameHash, HeaderTail, WireOf;
    ThreeSteps(self, peer, Link.Begin(f), Link.Clear, Link.Transmit);
    WireSnoc(self.sent, Link.DataMsg(f.Digested(), f));
  }

  // ---- Whole runs ----

  function AttendAll(messages: seq<Msg>): seq<Link.Label> {
    if messages == [] then [] else Attended(messages[0]) + AttendAll(messages[1..])
  }

  lemma {:induction false} StepsConcat(self: Party, peer: Party, a: seq<Link.Label>, b: seq<Link.Label>)
    requires Steps(self, peer, a).Some?
    ensures Steps(self, peer, a + b) == Steps(Steps(self, peer, a).value.0, Steps(self, peer, a).value.1, b)
    decreases |a|
  {
    hide Link.Enabled, Link.Apply;
    if a == [] {
      assert a + b == b;
    } else {
      assert (a + b)[1..] == a[1..] + b;
      var (self', peer') := Link.Apply(a[0], self, peer);
      StepsConcat(self', peer', a[1..], b);
    }
  }

  /** Reading the peer's channel as bytes, the receive loop carries out exactly the link's steps: its
      state after any number of messages stands for the party after attending to each of them. */
  lemma {:induction false} LoopRunsTheLink(s: Handling.State, self: Party, peer: Party, n: nat, first: Handling.State)
    requires StandsFor(s, self, first) && n <= |peer.out| && DataTypes(peer.out)
    ensures Parse(WireOf(peer.out[..n])).rest == []
    ensures
      var end := Steps(self, peer, AttendAll(peer.out[..n]));
      && end.Some? && end.value.1 == peer.(out := peer.out[n..])
      && StandsFor(Handling.HandledAll(s, Parse(WireOf(peer.out[..n])).items), end.value.0, first)
    decreases n
  {
    hide StandsFor, Parse, Handling.Handled, Attended, MsgBytes, Link.Enabled, Link.Apply;
    if n == 0 {
      NothingOnWire(s);
    } else {
      var m, later := peer.out[0], peer.out[1..n];
      var item := OneMessage(m);
      ItemIsThreeSteps(s, self, peer, item, first);
      var (self', peer') := Steps(self, peer, Attended(m)).value;
      assert peer.out[..n][0] == m && peer.out[..n][1..] == later == peer'.out[..n - 1];
      LoopRunsTheLink(Handling.Handled(s, item), self', peer', n - 1, first);
      StepsConcat(self, peer, Attended(m), AttendAll(later));
      ParseResumes(MsgBytes(m), WireOf(later));
      assert [] + WireOf(later) == WireOf(later);
      var items := Parse(WireOf(later)).items;
      assert ([item] + items)[1..] == items;
    }
  }

  lemma NothingOnWire(s: Handling.State)
    ensures Parse(WireOf([])) == Parsed([], []) && Handling.HandledAll(s, []) == s
  {
  }

  /** In every state of every run of the link, a receive loop that stands for the left party and reads
      the bytes of the right party's whole channel carries out the left party's steps. */
  lemma ReachableLoopsRunTheLink(s: Handling.State, moves: seq<Link.Move>, first: Handling.State)
    requires Link.Run(Link.START, moves).Some? && StandsFor(s, Link.Run(Link.START, moves).value.left, first)
    ensures
      var system := Link.Run(Link.START, moves).value;
      var end := Steps(system.left, system.right, AttendAll(system.right.out));
      && end.Some? && end.value.1 == system.right.(out := [])
      && StandsFor(Handling.HandledAll(s, Parse(WireOf(system.right.out)).items), end.value.0, first)
  {
    hide Parse, Handling.Handled, StandsFor, Link.Direction;
    Link.NoTokensAtStart();
    Link.RunKeepsInv(Link.START, moves);
    var system := Link.Run(Link.START, moves).value;
    Link.DataTypesOnly(system.right, system.left);
    var n := |system.right.out|;
    assert system.right.out[..n] == system.right.out && system.right.out[n..] == [];
    LoopRunsTheLink(s, system.left, system.right, n, first);
  }

  // ---- The receive thread itself, on the peer's channel ----

  /** How many whole messages the first k bytes of the channel hold. */
  function WholeMessages(out: seq<Msg>, k: nat): (n: nat)
    ensures n <= |out|
  {
    if out == [] || k < |MsgBytes(out[0])| then 0 else 1 + WholeMessages(out[1..], k - |MsgBytes(out[0])|)
  }

  /** Exactly those messages are whole. */
  lemma {:induction false} WholeMessagesExact(out: seq<Msg>, k: nat)
    ensures
      var n := WholeMessages(out, k);
      |WireOf(out[..n])| <= k && (n < |out| ==> k < |WireOf(out[..n])| + |MsgBytes(out[n])|)
    decreases |out|
  {
    hide MsgBytes;
    if out != [] && k >= |MsgBytes(out[0])| {
      var n := WholeMessages(out[1..], k - |MsgBytes(out[0])|);
      WholeMessagesExact(out[1..], k - |MsgBytes(out[0])|);
      assert out[..n + 1][0] == out[0] && out[..n + 1][1..] == out[1..][..n];
    }
  }

  /** A message is one whole frame, by the length its header declares. */
  lemma MessageIsWhole(m: Msg)
    requires m.DataMsg? ==> m.frame.typ > MSG_CONNECT
    ensures |MsgBytes(m)| >= HEADER
    ensures |MsgBytes(m)| == HEADER + PayloadLength(MsgBytes(m)[..HEADER])
  {
    match m
    case DataMsg(hash, f) =>
      HeaderFields(hash, |f.payload|, f.typ);
      assert MsgBytes(m)[..HEADER] == hash + HeaderTail(|f.payload|, f.typ);
    case ReplyMsg(hash, correct) =>
      HeaderFields(hash, 0, if correct then MSG_DATA_CORRECT else MSG_DATA_ERROR);
      assert MsgBytes(m)[..HEADER] == MsgBytes(m);
  }

  /** The start of a message is not a complete frame. */
  lemma StartIsIncomplete(m: Msg, k: nat)
    requires k < |MsgBytes(m)| && (m.DataMsg? ==> m.frame.typ > MSG_CONNECT)
    ensures !Complete(MsgBytes(m)[..k])
  {
    hide MsgBytes, PayloadLength;
    MessageIsWhole(m);
    if k >= HEADER {
      assert MsgBytes(m)[..k][..HEADER] == MsgBytes(m)[..HEADER];
    }
  }

  /** The items of any first k bytes of the channel are those of its whole messages. */
  lemma {:induction false} ItemsOfPrefix(out: seq<Msg>, k: nat)
    requires DataTypes(out) && k <= |WireOf(out)|
    ensures Parse(WireOf(out)[..k]).items == Parse(WireOf(out[..WholeMessages(out, k)])).items
    decreases |out|
  {
    hide Parse, MsgBytes, Complete;
    if out == [] {
    } else if k < |MsgBytes(out[0])| {
      assert WireOf(out)[..k] == MsgBytes(out[0])[..k];
      StartIsIncomplete(out[0], k);
      ParseStuck(MsgBytes(out[0])[..k]);
      NothingParses();
    } else {
      var first, k' := MsgBytes(out[0]), k - |MsgBytes(out[0])|;
      var n := WholeMessages(out[1..], k');
      ItemsOfPrefix(out[1..], k');
      var item := OneMessage(out[0]);
      assert WireOf(out)[..k] == first + WireOf(out[1..])[..k'];
      ParseResumes(first, WireOf(out[1..])[..k']);
      assert out[..n + 1][0] == out[0] && out[..n + 1][1..] == out[1..][..n];
      ParseResumes(first, WireOf(out[1..][..n]));
      assert [] + WireOf(out[1..])[..k'] == WireOf(out[1..])[..k'];
      assert [] + WireOf(out[1..][..n]) == WireOf(out[1..][..n]);
    }
  }

  lemma NothingParses()
    ensures Parse(WireOf([])) == Parsed([], [])
  {
  }

  /** Data small enough for the receive buffer. */
  predicate FitBuffer(out: seq<Msg>) {
    forall m <- out :: m.DataMsg? ==> HEADER + |m.frame.payload| <= BUFFER_SIZE
  }

  lemma {:induction false} ChannelFits(out: seq<Msg>)
    requires DataTypes(out) && FitBuffer(out)
    ensures Fits(WireOf(out))
  {
    hide PayloadLength;
    if out != [] {
      var bytes := MsgBytes(out[0]);
      ChannelFits(out[1..]);
      MessageIsWhole(out[0]);
      assert WireOf(out)[..HEADER] == bytes[..HEADER];
      assert WireOf(out)[|bytes|..] == WireOf(out[1..]);
    }
  }

  /** The receive thread, fed the peer's channel in whatever pieces, is the party attending to as many
      whole messages as it received; a failure then disconnects it from that very state. */
  method RunAsParty(client: Client, net: Network, ghost self: Party, ghost peer: Party, ghost first: Handling.State)
    returns (exit: Exit, ghost after: Handling.State)
    requires client.Alive() && StandsFor(client.Fields(), self, first)
    requires net.Valid() && net.stream[net.at..] == WireOf(peer.out) && DataTypes(peer.out) && FitBuffer(peer.out)
    modifies client, net
    ensures net.Valid() && old(net.at) <= net.at && exit != Running && exit != Overrun
    ensures
      var n := WholeMessages(peer.out, net.at - old(net.at));
      var end := Steps(self, peer, AttendAll(peer.out[..n]));
      end.Some? && StandsFor(after, end.value.0, first) && end.value.1 == peer.(out := peer.out[n..])
    ensures after == Handling.HandledAll(old(client.Fields()), Parse(net.stream[old(net.at)..net.at]).items)
    ensures client.Fields() == if exit.Closed? then Handling.Disconnected(after) else after
    ensures Since(net, old(net.log), old(net.at), exit)
  {
    hide Parse, Handling.Handled, Fits, Steps, WholeMessages, StandsFor;
    ghost var s, start := client.Fields(), net.at;
    ChannelFits(peer.out);
    exit := client.Run(net);
    ghost var k := net.at - start;
    ghost var n := WholeMessages(peer.out, k);
    assert net.stream[start..net.at] == WireOf(peer.out)[..k];
    ItemsOfPrefix(peer.out, k);
    LoopRunsTheLink(s, self, peer, n, first);
    after := Handling.HandledAll(s, Parse(net.stream[start..net.at]).items);
  }
}
