/** The stop-and-wait link between two parties, each with one sending thread and one receive
    thread, over two FIFO channels that may spoil payloads. */
module Link {
  import opened Words
  import opened Frames
  import opened Options

  datatype Frame = Frame(typ: Word, payload: Payload) {
    function Digested(): Hash { FrameHash(typ, payload) }
  }

  datatype Msg =
    | DataMsg(hash: Hash, frame: Frame)   // the header's digest, and what came with it
    | ReplyMsg(hash: Hash, correct: bool)

  /** Send: the frame is saved for resending, the flag is cleared, the frame goes out. */
  datatype Sending = Ready | Saved(f: Frame) | Cleared(f: Frame) | Waiting(f: Frame)

  /** The receive thread: checking a data frame and answering it, or dealing with a reply. */
  datatype Receiving =
    | Idle
    | Checking(m: Msg)
    | Answering(hash: Hash, correct: bool)
    | Dealing(hash: Hash, correct: bool)
    | Comparing(hash: Hash, correct: bool, saved: Option<Frame>)

  datatype Party = Party(
    tx: Sending,
    rx: Receiving,
    succeeded: bool,               // _send_succeeded
    lastSent: Option<Frame>,
    out: seq<Msg>,                 // the channel: sent and not yet received by the peer
    sent: seq<Msg>,                // history: everything sent, as it was sent
    failed: bool,                  // history: its frame, a resend, or the reply to it failed to go out
    begun: seq<Frame>,             // history: frames Send took on
    acked: seq<Frame>,             // history: frames the peer's replies acknowledged
    dispatched: seq<Frame>)        // history: the peer's frames this party handed on

  const INITIAL := Party(Ready, Idle, true, None, [], [], false, [], [], [])

  datatype Label =
    | Begin(f: Frame) | Clear | Transmit | TransmitFails | Return
    | ReceiveData | Check | Answer | AnswerFails
    | ReceiveReply | LookUp | Act | ResendFails
    | Spoil(i: nat, payload: Payload)

  predicate Intact(m: Msg)
    requires m.DataMsg?
  {
    m.frame.Digested() == m.hash
  }

  function Spoilt(m: Msg, payload: Payload): Msg
    requires m.DataMsg?
  {
    m.(frame := m.frame.(payload := payload))
  }

  /** The digest is that of the frame kept for resending. */
  predicate IsLastSent(saved: Option<Frame>, hash: Hash) { saved.Some? && saved.value.Digested() == hash }

  predicate Enabled(l: Label, self: Party, peer: Party) {
    match l
    case Begin(f) => self.tx.Ready? && self.succeeded && f.typ > MSG_CONNECT
    case Clear => self.tx.Saved?
    case Transmit => self.tx.Cleared?
    case TransmitFails => self.tx.Cleared?
    case Return => self.tx.Waiting?
    case ReceiveData => self.rx.Idle? && peer.out != [] && peer.out[0].DataMsg?
    case Check => self.rx.Checking? && self.rx.m.DataMsg?
    case Answer => self.rx.Answering?
    case AnswerFails => self.rx.Answering?
    case ReceiveReply => self.rx.Idle? && peer.out != [] && peer.out[0].ReplyMsg?
    case LookUp => self.rx.Dealing?
    case Act => self.rx.Comparing?
    case ResendFails => self.rx.Comparing? && !self.rx.correct && IsLastSent(self.rx.saved, self.rx.hash)
    case Spoil(i, payload) =>
      && i < |self.out| && self.out[i].DataMsg?
      && |payload| == |self.out[i].frame.payload|
      && !Intact(Spoilt(self.out[i], payload))
  }

  function Sent(p: Party, m: Msg): Party { p.(out := p.out + [m], sent := p.sent + [m]) }

  /** One step of a party: itself and its peer afterwards. */
  function Apply(l: Label, self: Party, peer: Party): (Party, Party)
    requires Enabled(l, self, peer)
  {
    match l
    case Begin(f) =>
      (self.(tx := Saved(f), lastSent := Some(f), begun := self.begun + [f]), peer)
    case Clear =>
      (self.(tx := Cleared(self.tx.f), succeeded := false), peer)
    case Transmit =>
      (Sent(self.(tx := Waiting(self.tx.f)), DataMsg(self.tx.f.Digested(), self.tx.f)), peer)
    case TransmitFails =>
      (self.(tx := Ready, failed := true), peer)
    case Return =>
      (self.(tx := Ready), peer)
    case ReceiveData =>
      (self.(rx := Checking(peer.out[0])), peer.(out := peer.out[1..]))
    case Check =>
      var m := self.rx.m;
      (self.(rx := Answering(m.hash, Intact(m)),
             dispatched := if Intact(m) then self.dispatched + [m.frame] else self.dispatched), peer)
    case Answer =>
      (Sent(self.(rx := Idle), ReplyMsg(self.rx.hash, self.rx.correct)), peer)
    case AnswerFails =>
      (self.(rx := Idle), peer.(failed := true))
    case ReceiveReply =>
      (self.(rx := Dealing(peer.out[0].hash, peer.out[0].correct)), peer.(out := peer.out[1..]))
    case LookUp =>
      (self.(rx := Comparing(self.rx.hash, self.rx.correct, self.lastSent)), peer)
    case Act =>
      var saved := self.rx.saved;
      if !IsLastSent(saved, self.rx.hash) then (self.(rx := Idle), peer)
      else if self.rx.correct then
        (self.(rx := Idle, succeeded := true, acked := self.acked + [saved.value]), peer)
      else
        (Sent(self.(rx := Idle), DataMsg(saved.value.Digested(), saved.value)), peer)
    case ResendFails =>
      (self.(rx := Idle, failed := true), peer)
    case Spoil(i, payload) =>
      (self.(out := self.out[i := Spoilt(self.out[i], payload)]), peer)
  }

  // ---- The token ----

  /** Where the outstanding frame is: still travelling with its payload, or judged. */
  datatype Token = Carried(m: Msg) | Judged(hash: Hash, correct: bool)

  function DataIn(out: seq<Msg>): seq<Token> {
    if out == [] then [] else (if out[0].DataMsg? then [Carried(out[0])] else []) + DataIn(out[1..])
  }

  function RepliesIn(out: seq<Msg>): seq<Token> {
    if out == [] then []
    else (if out[0].ReplyMsg? then [Judged(out[0].hash, out[0].correct)] else []) + RepliesIn(out[1..])
  }

  function HeldFrame(rx: Receiving): seq<Token> {
    match rx
    case Checking(m) => [Carried(m)]
    case Answering(hash, correct) => [Judged(hash, correct)]
    case _ => []
  }

  function HeldReply(rx: Receiving): seq<Token> {
    match rx
    case Dealing(hash, correct) => [Judged(hash, correct)]
    case Comparing(hash, correct, _) => [Judged(hash, correct)]
    case _ => []
  }

  /** Everything on its way for the frames that s sends to r, the most advanced first. */
  function Tokens(s: Party, r: Party): seq<Token> {
    HeldReply(s.rx) + RepliesIn(r.out) + HeldFrame(r.rx) + DataIn(s.out)
  }

  /** The token belongs to this frame: same header, and the payload is right or fails the check. */
  predicate Belongs(t: Token, f: Frame) {
    match t
    case Carried(m) => m.DataMsg? && m.hash == f.Digested() && m.frame.typ == f.typ && (m.frame == f || !Intact(m))
    case Judged(hash, _) => hash == f.Digested()
  }

  /** The outstanding frame was not lost, nor the reply to it, by a send that failed. */
  predicate NotLost(s: Party) { !s.failed }

  predicate Outstanding(s: Party) { s.tx.Saved? || !s.succeeded }

  predicate Accepting(t: Token) { t.Judged? && t.correct }

  predicate EndsWith(frames: seq<Frame>, f: Frame) { frames != [] && frames[|frames| - 1] == f }

  /** The invariant of one direction, from s to r. */
  ghost predicate Direction(s: Party, r: Party) {
    var tokens := Tokens(s, r);
    && |tokens| <= 1
    && (s.succeeded || s.tx.Cleared? ==> tokens == [])
    && (s.tx.Saved? ==> s.succeeded) && (s.tx.Cleared? ==> !s.succeeded)
    && (!s.tx.Ready? ==> s.lastSent == Some(s.tx.f) && EndsWith(s.begun, s.tx.f))
    && (Outstanding(s) ==> s.lastSent.Some?)
    && (s.lastSent.Some? ==> s.lastSent.value.typ > MSG_CONNECT)
    && (Outstanding(s) && NotLost(s) && tokens == [] ==> s.tx.Saved? || s.tx.Cleared?)
    && (s.failed ==> (s.tx.Ready? || s.tx.Waiting?) && !s.succeeded && tokens == [])
    && (tokens != [] ==> Belongs(tokens[0], s.lastSent.value))
    && (s.rx.Comparing? ==> s.rx.saved == s.lastSent)
    && s.begun == s.acked + (if Outstanding(s) then [s.lastSent.value] else [])
    && (!s.failed ==>
         r.dispatched == s.acked + (if tokens != [] && Accepting(tokens[0]) then [s.lastSent.value] else []))
    && (s.failed ==> r.dispatched == s.acked || r.dispatched == s.begun)
  }

  lemma {:induction false} InSnoc(out: seq<Msg>, m: Msg)
    ensures DataIn(out + [m]) == DataIn(out) + (if m.DataMsg? then [Carried(m)] else [])
    ensures RepliesIn(out + [m]) == RepliesIn(out) + (if m.ReplyMsg? then [Judged(m.hash, m.correct)] else [])
  {
    hide DataIn, RepliesIn;
    FirstOut(out + [m]);
    if out == [] {
      assert (out + [m])[1..] == [];
      NothingIn();
    } else {
      assert (out + [m])[1..] == out[1..] + [m];
      FirstOut(out);
      InSnoc(out[1..], m);
    }
  }

  lemma NothingIn()
    ensures DataIn([]) == [] && RepliesIn([]) == []
  {
  }

  predicate Acts(l: Label) { l.Act? || l.ResendFails? }

  /** A step's effect on the token of the party's own frames: sending creates it, a reply acted on
      ends it or sends it out again, and nothing else changes it. */
  ghost predicate OwnEffect(l: Label, self: Party, peer: Party)
    requires Enabled(l, self, peer)
  {
    var (self', peer') := Apply(l, self, peer);
    var tokens, tokens' := Tokens(self, peer), Tokens(self', peer');
    if l.Transmit? then
      tokens' == tokens + [Carried(DataMsg(self.tx.f.Digested(), self.tx.f))]
    else if Acts(l) then
      && tokens != [] && tokens[0] == Judged(self.rx.hash, self.rx.correct)
      && tokens' == tokens[1..] + (if self'.out == self.out then [] else [Carried(self'.out[|self.out|])])
    else
      tokens' == tokens
  }

  lemma OwnTokens(l: Label, self: Party, peer: Party)
    requires Enabled(l, self, peer) && !l.Spoil?
    ensures OwnEffect(l, self, peer)
  {
    hide FrameHash, DataIn, RepliesIn, Intact;
    if Acts(l) {
      ActTokens(l, self, peer);
    } else if l.ReceiveReply? || l.ReceiveData? {
      ReceiptTokens(l, self, peer);
    } else {
      AppendsOut(l, self, peer);
    }
  }

  lemma ActTokens(l: Label, self: Party, peer: Party)
    requires Enabled(l, self, peer) && Acts(l)
    ensures OwnEffect(l, self, peer)
  {
    hide FrameHash, DataIn, RepliesIn, HeldFrame, Intact;
    AppendsOut(l, self, peer);
    var self' := Apply(l, self, peer).0;
    var reply := Judged(self.rx.hash, self.rx.correct);
    var resent := if self'.out == self.out then [] else [Carried(self'.out[|self.out|])];
    assert DataIn(self'.out) == DataIn(self.out) + resent;
    Regroup(reply, RepliesIn(peer.out), HeldFrame(peer.rx), DataIn(self.out), resent);
    assert Tokens(self, peer)[1..] == RepliesIn(peer.out) + HeldFrame(peer.rx) + DataIn(self.out);
  }

  lemma Regroup(t: Token, a: seq<Token>, b: seq<Token>, c: seq<Token>, d: seq<Token>)
    ensures [t] + a + b + c == [t] + (a + b + c)
    ensures [] + a + b + (c + d) == a + b + c + d
  {
  }

  lemma ReceiptTokens(l: Label, self: Party, peer: Party)
    requires Enabled(l, self, peer) && (l.ReceiveReply? || l.ReceiveData?)
    ensures var (self', peer') := Apply(l, self, peer); Tokens(self', peer') == Tokens(self, peer)
  {
    hide FrameHash, DataIn, RepliesIn, Intact;
    var (self', peer') := Apply(l, self, peer);
    FirstOut(peer.out);
    assert HeldReply(self'.rx) + RepliesIn(peer'.out) == HeldReply(self.rx) + RepliesIn(peer.out);
  }

  lemma FirstOut(out: seq<Msg>)
    requires out != []
    ensures out[0].DataMsg? ==>
      DataIn(out) == [Carried(out[0])] + DataIn(out[1..]) && RepliesIn(out) == RepliesIn(out[1..])
    ensures out[0].ReplyMsg? ==>
      DataIn(out) == DataIn(out[1..]) && RepliesIn(out) == [Judged(out[0].hash, out[0].correct)] + RepliesIn(out[1..])
  {
  }

  /** What each step puts into the party's own channel. */
  lemma AppendsOut(l: Label, self: Party, peer: Party)
    requires Enabled(l, self, peer) && !l.Spoil?
    ensures
      var out' := Apply(l, self, peer).0.out;
      || out' == self.out
      || (l.Answer? && out' == self.out + [ReplyMsg(self.rx.hash, self.rx.correct)]
          && DataIn(out') == DataIn(self.out)
          && RepliesIn(out') == RepliesIn(self.out) + [Judged(self.rx.hash, self.rx.correct)])
      || ((l.Transmit? || l.Act?) && |out'| == |self.out| + 1 && out'[|self.out|].DataMsg?
          && DataIn(out') == DataIn(self.out) + [Carried(out'[|self.out|])]
          && RepliesIn(out') == RepliesIn(self.out))
  {
    hide FrameHash;
    var out' := Apply(l, self, peer).0.out;
    if out' != self.out {
      InSnoc(self.out, out'[|self.out|]);
    }
  }

  /** The effect of a party's step on the token of the frames its peer sends. */
  lemma PeerTokens(l: Label, self: Party, peer: Party)
    requires Enabled(l, self, peer) && !l.Spoil?
    ensures
      var (self', peer') := Apply(l, self, peer);
      var tokens, tokens' := Tokens(peer, self), Tokens(peer', self');
      if l.Check? then
        exists i | 0 <= i < |tokens| ::
          && tokens[i] == Carried(self.rx.m)
          && tokens' == tokens[i := Judged(self.rx.m.hash, Intact(self.rx.m))]
      else if l.AnswerFails? then
        exists i | 0 <= i < |tokens| ::
          && tokens[i] == Judged(self.rx.hash, self.rx.correct)
          && tokens' == tokens[..i] + tokens[i + 1..]
      else tokens' == tokens
  {
    hide FrameHash, DataIn, RepliesIn, Intact;
    var (self', peer') := Apply(l, self, peer);
    AppendsOut(l, self, peer);
    if l.Check? {
      var i := |HeldReply(peer.rx) + RepliesIn(self.out)|;
      assert Tokens(peer, self)[i] == Carried(self.rx.m);
      assert Tokens(peer', self') == Tokens(peer, self)[i := Judged(self.rx.m.hash, Intact(self.rx.m))];
    } else if l.AnswerFails? {
      var i := |HeldReply(peer.rx) + RepliesIn(self.out)|;
      assert Tokens(peer, self)[i] == Judged(self.rx.hash, self.rx.correct);
      assert Tokens(peer', self') == Tokens(peer, self)[..i] + Tokens(peer, self)[i + 1..];
    } else if l.ReceiveReply? || l.ReceiveData? {
      FirstOut(peer.out);
      assert HeldFrame(self'.rx) + DataIn(peer'.out) == HeldFrame(self.rx) + DataIn(peer.out);
      TailTokens(HeldReply(peer.rx) + RepliesIn(self.out), HeldFrame(self.rx), DataIn(peer.out));
      TailTokens(HeldReply(peer.rx) + RepliesIn(self.out), HeldFrame(self'.rx), DataIn(peer'.out));
    } else if l.Answer? {
      assert RepliesIn(self'.out) + HeldFrame(self'.rx) == RepliesIn(self.out) + HeldFrame(self.rx);
      TailTokens(HeldReply(peer.rx), RepliesIn(self.out), HeldFrame(self.rx));
      TailTokens(HeldReply(peer.rx), RepliesIn(self'.out), HeldFrame(self'.rx));
    }
  }

  lemma TailTokens(a: seq<Token>, b: seq<Token>, c: seq<Token>)
    ensures a + b + c == a + (b + c)
  {
  }

  /** Each party's step keeps the invariant of the frames it sends. */
  lemma OwnDirectionKept(l: Label, self: Party, peer: Party)
    requires Enabled(l, self, peer) && Direction(self, peer)
    ensures var (self', peer') := Apply(l, self, peer); Direction(self', peer')
  {
    hide FrameHash, Tokens;
    if l.Spoil? {
      SpoilKept(l, self, peer);
    } else {
      OwnTokens(l, self, peer);
      NoTokenNoReply(self, peer);
    }
  }

  lemma NoTokenNoReply(s: Party, r: Party)
    ensures Tokens(s, r) == [] ==> HeldReply(s.rx) == []
  {
  }

  /** Each party's step keeps the invariant of the frames its peer sends. */
  lemma PeerDirectionKept(l: Label, self: Party, peer: Party)
    requires Enabled(l, self, peer) && Direction(peer, self)
    ensures var (self', peer') := Apply(l, self, peer); Direction(peer', self')
  {
    hide FrameHash, Tokens;
    if l.Spoil? {
      SpoilKept(l, self, peer);
    } else {
      PeerTokens(l, self, peer);
    }
  }

  lemma SpoilKept(l: Label, self: Party, peer: Party)
    requires l.Spoil? && Enabled(l, self, peer)
    ensures
      var (self', peer') := Apply(l, self, peer);
      && Tokens(peer', self') == Tokens(peer, self)
      && (|Tokens(self, peer)| <= 1 ==>
          && Tokens(self, peer) == [Carried(self.out[l.i])]
          && Tokens(self', peer') == [Carried(Spoilt(self.out[l.i], l.payload))])
  {
    hide FrameHash;
    SpoiltData(self.out, l.i, l.payload);
  }

  /** Spoiling a payload keeps the replies, and the data messages but for the payload. */
  lemma {:induction false} SpoiltData(out: seq<Msg>, i: nat, payload: Payload)
    requires i < |out| && out[i].DataMsg?
    ensures
      var out' := out[i := Spoilt(out[i], payload)];
      && RepliesIn(out') == RepliesIn(out)
      && |DataIn(out')| == |DataIn(out)| >= 1
      && (|DataIn(out)| == 1 ==> DataIn(out) == [Carried(out[i])] && DataIn(out') == [Carried(Spoilt(out[i], payload))])
  {
    var spoilt := Spoilt(out[i], payload);
    if i == 0 {
      assert out[i := spoilt][1..] == out[1..];
    } else {
      assert out[i := spoilt][1..] == out[1..][i - 1 := spoilt];
      SpoiltData(out[1..], i - 1, payload);
    }
  }

  // ---- Runs of the whole system ----

  datatype Side = Left | Right
  datatype Move = Move(side: Side, step: Label)
  datatype System = System(left: Party, right: Party)

  function Other(side: Side): Side { if side.Left? then Right else Left }
  function Sender(s: System, side: Side): Party { if side.Left? then s.left else s.right }

  const START := System(INITIAL, INITIAL)

  predicate CanMove(s: System, m: Move) {
    match m.side
    case Left => Enabled(m.step, s.left, s.right)
    case Right => Enabled(m.step, s.right, s.left)
  }

  function After(s: System, m: Move): System
    requires CanMove(s, m)
  {
    match m.side
    case Left => var (left, right) := Apply(m.step, s.left, s.right); System(left, right)
    case Right => var (right, left) := Apply(m.step, s.right, s.left); System(left, right)
  }

  /** The state a run ends in, if every move was possible. */
  function Run(s: System, moves: seq<Move>): Option<System>
    decreases |moves|
  {
    if moves == [] then Some(s)
    else if CanMove(s, moves[0]) then Run(After(s, moves[0]), moves[1..])
    else None
  }

  ghost predicate Inv(s: System) {
    Direction(s.left, s.right) && Direction(s.right, s.left)
  }

  lemma MoveKeepsInv(s: System, m: Move)
    requires Inv(s) && CanMove(s, m)
    ensures Inv(After(s, m))
  {
    hide Enabled, Apply, Direction;
    match m.side
    case Left =>
      OwnDirectionKept(m.step, s.left, s.right);
      PeerDirectionKept(m.step, s.left, s.right);
    case Right =>
      OwnDirectionKept(m.step, s.right, s.left);
      PeerDirectionKept(m.step, s.right, s.left);
  }

  lemma {:induction false} RunKeepsInv(s: System, moves: seq<Move>)
    requires Inv(s) && Run(s, moves).Some?
    ensures Inv(Run(s, moves).value)
    decreases |moves|
  {
    hide CanMove, After, Inv;
    if moves != [] {
      MoveKeepsInv(s, moves[0]);
      RunKeepsInv(After(s, moves[0]), moves[1..]);
    }
  }

  lemma {:induction false} RunConcat(s: System, a: seq<Move>, b: seq<Move>)
    requires Run(s, a).Some?
    ensures Run(s, a + b) == Run(Run(s, a).value, b)
    decreases |a|
  {
    hide CanMove, After;
    if a == [] {
      assert a + b == b;
    } else {
      assert (a + b)[1..] == a[1..] + b;
      RunConcat(After(s, a[0]), a[1..], b);
    }
  }

  /** In every run from the start, each direction has at most one frame or reply on its way, and
      none while the sender believes its last frame arrived. */
  lemma AtMostOneToken(moves: seq<Move>)
    requires Run(START, moves).Some?
    ensures
      var s := Run(START, moves).value;
      && |Tokens(s.left, s.right)| <= 1 && (s.left.succeeded ==> Tokens(s.left, s.right) == [])
      && |Tokens(s.right, s.left)| <= 1 && (s.right.succeeded ==> Tokens(s.right, s.left) == [])
  {
    hide Tokens, CanMove, After;
    NoTokensAtStart();
    RunKeepsInv(START, moves);
  }

  lemma NoTokensAtStart()
    ensures Tokens(INITIAL, INITIAL) == [] && Inv(START)
  {
  }

  /** Every data message on its way has a type the peer's receive loop takes as data. */
  lemma DataTypesOnly(s: Party, r: Party)
    requires Direction(s, r)
    ensures forall m <- s.out :: m.DataMsg? ==> m.frame.typ > MSG_CONNECT
  {
    hide DataIn, RepliesIn, FrameHash, Intact;
    forall m <- s.out | m.DataMsg?
      ensures m.frame.typ > MSG_CONNECT
    {
      InData(s.out, m);
      assert Carried(m) in Tokens(s, r);
    }
  }

  lemma {:induction false} InData(out: seq<Msg>, m: Msg)
    requires m in out && m.DataMsg?
    ensures Carried(m) in DataIn(out)
  {
    if m != out[0] {
      InData(out[1..], m);
    }
  }

  /** In every run from the start, what the peer has handed on is exactly what was acknowledged, in
      order and once each, plus at most the one outstanding frame; nothing else was ever begun. */
  lemma ExactlyOnceInOrder(moves: seq<Move>)
    requires Run(START, moves).Some?
    ensures
      var s := Run(START, moves).value;
      && s.left.acked <= s.right.dispatched <= s.left.begun
      && |s.left.begun| <= |s.left.acked| + 1
      && (!Outstanding(s.left) ==> s.right.dispatched == s.left.acked == s.left.begun)
      && s.right.acked <= s.left.dispatched <= s.right.begun
      && |s.right.begun| <= |s.right.acked| + 1
      && (!Outstanding(s.right) ==> s.left.dispatched == s.right.acked == s.right.begun)
  {
    hide Tokens, CanMove, After;
    NoTokensAtStart();
    RunKeepsInv(START, moves);
  }

  /** When a Send that waits finds the flag true, the last frame the peer has handed on is its own. */
  lemma WaitEndsDelivered(moves: seq<Move>, side: Side)
    requires Run(START, moves).Some?
    ensures
      var s := Run(START, moves).value;
      var me, you := Sender(s, side), Sender(s, Other(side));
      me.tx.Waiting? && me.succeeded ==> EndsWith(you.dispatched, me.tx.f) && you.dispatched == me.begun
  {
    hide Tokens, CanMove, After;
    NoTokensAtStart();
    RunKeepsInv(START, moves);
  }

  // ---- The channel is the unread end of what was sent ----

  /** The message as it was sent, or spoilt beyond the digest check. */
  predicate Arrives(m: Msg, sent: Msg) {
    m == sent
    || (m.DataMsg? && sent.DataMsg? && m.hash == sent.hash && m.frame.typ == sent.frame.typ
        && |m.frame.payload| == |sent.frame.payload| && !Intact(m))
  }

  ghost predicate ChannelOf(p: Party) {
    && |p.out| <= |p.sent|
    && forall i | 0 <= i < |p.out| :: Arrives(p.out[i], p.sent[|p.sent| - |p.out| + i])
  }

  lemma ChannelKept(l: Label, self: Party, peer: Party)
    requires Enabled(l, self, peer) && ChannelOf(self) && ChannelOf(peer)
    ensures var (self', peer') := Apply(l, self, peer); ChannelOf(self') && ChannelOf(peer')
  {
    hide FrameHash, Intact;
  }

  lemma {:induction false} RunKeepsChannels(s: System, moves: seq<Move>)
    requires Run(s, moves).Some? && ChannelOf(s.left) && ChannelOf(s.right)
    ensures ChannelOf(Run(s, moves).value.left) && ChannelOf(Run(s, moves).value.right)
    decreases |moves|
  {
    hide Enabled, Apply, ChannelOf;
    if moves != [] {
      match moves[0].side {
        case Left => ChannelKept(moves[0].step, s.left, s.right);
        case Right => ChannelKept(moves[0].step, s.right, s.left);
      }
      RunKeepsChannels(After(s, moves[0]), moves[1..]);
    }
  }

  /** In every run from the start each channel holds the last messages its party sent, in order, each
      as it was sent or spoilt so that the digest check refuses it. */
  lemma ChannelsHoldWhatWasSent(moves: seq<Move>)
    requires Run(START, moves).Some?
    ensures ChannelOf(Run(START, moves).value.left) && ChannelOf(Run(START, moves).value.right)
  {
    RunKeepsChannels(START, moves);
  }

  // ---- An outstanding frame is acknowledged after finitely many spoilings ----

  /** How far the token still has to go when nothing spoils it. */
  function Stage(s: Party, r: Party): nat {
    if HeldReply(s.rx) != [] then (if s.rx.Comparing? then 1 else 2)
    else if RepliesIn(r.out) != [] then 3
    else if HeldFrame(r.rx) != [] then (if r.rx.Answering? then 4 else 5)
    else if DataIn(s.out) != [] then 6
    else 0
  }

  predicate Good(t: Token) {
    match t
    case Carried(m) => m.DataMsg? && Intact(m)
    case Judged(_, correct) => correct
  }

  function Rank(s: Party, r: Party): nat {
    var tokens := Tokens(s, r);
    if s.tx.Saved? then 8 else if s.tx.Cleared? then 7
    else if tokens == [] then 0
    else if Good(tokens[0]) then Stage(s, r) else Stage(s, r) + 6
  }

  function FirstIndex(out: seq<Msg>, data: bool): nat {
    if out == [] || out[0].DataMsg? == data then 0 else 1 + FirstIndex(out[1..], data)
  }

  function Busy(rx: Receiving): nat {
    if rx.Idle? then 0 else if rx.Checking? || rx.Dealing? then 2 else 1
  }

  /** What its receiver must finish before it takes the token from the channel. */
  function Ahead(s: Party, r: Party): nat {
    match Stage(s, r)
    case 3 => 3 * FirstIndex(r.out, false) + Busy(s.rx)
    case 6 => 3 * FirstIndex(s.out, true) + Busy(r.rx)
    case _ => 0
  }

  /** Bounds the helpful steps left while the channel may spoil k more payloads. */
  function Measure(s: Party, r: Party, k: nat): nat {
    8 * (7 * k + Rank(s, r)) + Ahead(s, r)
  }

  lemma {:induction false} FirstIndexBound(out: seq<Msg>, data: bool)
    ensures FirstIndex(out, data) <= if data then |RepliesIn(out)| else |DataIn(out)|
  {
    if out != [] {
      FirstIndexBound(out[1..], data);
    }
  }

  lemma AheadBound(s: Party, r: Party)
    requires Direction(s, r) && Direction(r, s)
    ensures Ahead(s, r) <= 5
  {
    hide FrameHash, DataIn, RepliesIn, FirstIndex, Tokens;
    OnePlace(s, r);
    OnePlace(r, s);
    FirstIndexBound(s.out, true);
    FirstIndexBound(r.out, false);
  }

  lemma {:induction false} FirstIndexSnoc(out: seq<Msg>, m: Msg, data: bool)
    ensures (if data then DataIn(out) != [] else RepliesIn(out) != []) ==>
      FirstIndex(out + [m], data) == FirstIndex(out, data)
  {
    if out != [] {
      assert (out + [m])[1..] == out[1..] + [m];
      FirstIndexSnoc(out[1..], m, data);
    }
  }

  /** The token, if any, sits in exactly one of the four places. */
  lemma OnePlace(s: Party, r: Party)
    requires |Tokens(s, r)| <= 1
    ensures |HeldReply(s.rx)| + |RepliesIn(r.out)| + |HeldFrame(r.rx)| + |DataIn(s.out)| == |Tokens(s, r)|
    ensures HeldFrame(r.rx) != [] ==> Tokens(s, r) == HeldFrame(r.rx)
  {
  }

  /** The token came nearer, or stayed where it is with no more ahead of it. */
  ghost predicate NotDelayed(s: Party, r: Party, s': Party, r': Party) {
    || Rank(s', r') < Rank(s, r)
    || (Rank(s', r') == Rank(s, r) && Ahead(s', r') <= Ahead(s, r))
  }

  lemma NotDelayedMeasure(s: Party, r: Party, s': Party, r': Party, k: nat)
    requires Direction(s, r) && Direction(r, s) && Direction(s', r') && Direction(r', s')
    requires NotDelayed(s, r, s', r')
    ensures Measure(s', r', k) <= Measure(s, r, k)
    ensures Rank(s', r') < Rank(s, r) || Ahead(s', r') < Ahead(s, r) ==> Measure(s', r', k) < Measure(s, r, k)
  {
    AheadBound(s, r);
    AheadBound(s', r');
  }

  /** No step but spoiling moves the token back: neither the sender's own ... */
  lemma OwnStepDoesNotDelay(l: Label, s: Party, r: Party)
    requires Enabled(l, s, r) && !l.Spoil? && Direction(s, r) && Outstanding(s)
    ensures var (s', r') := Apply(l, s, r); NotDelayed(s, r, s', r')
    ensures var (s', r') := Apply(l, s, r);
      Helpful(s, r) == (true, l) ==> Rank(s', r') < Rank(s, r) || Ahead(s', r') < Ahead(s, r)
  {
    hide *;
    if l.ReceiveReply? || l.ReceiveData? {
      OwnReceiptDoesNotDelay(l, s, r);
    } else if Acts(l) {
      ActingDoesNotDelay(l, s, r);
    } else {
      OwnOtherDoesNotDelay(l, s, r);
    }
  }

  lemma OwnReceiptDoesNotDelay(l: Label, s: Party, r: Party)
    requires l.ReceiveReply? || l.ReceiveData?
    requires Enabled(l, s, r) && Direction(s, r) && Outstanding(s)
    ensures var (s', r') := Apply(l, s, r); NotDelayed(s, r, s', r')
    ensures var (s', r') := Apply(l, s, r);
      Helpful(s, r) == (true, l) ==> Rank(s', r') < Rank(s, r) || Ahead(s', r') < Ahead(s, r)
  {
    hide FrameHash, DataIn, RepliesIn, FirstIndex, Belongs, Tokens;
    var (s', r') := Apply(l, s, r);
    OwnTokens(l, s, r);
    OnePlace(s, r);
    OnePlace(s', r');
    FirstOut(r.out);
    FirstStep(r.out);
  }

  lemma ActingDoesNotDelay(l: Label, s: Party, r: Party)
    requires Acts(l)
    requires Enabled(l, s, r) && Direction(s, r) && Outstanding(s)
    ensures var (s', r') := Apply(l, s, r); NotDelayed(s, r, s', r')
    ensures var (s', r') := Apply(l, s, r);
      Helpful(s, r) == (true, l) ==> Rank(s', r') < Rank(s, r) || Ahead(s', r') < Ahead(s, r)
  {
    hide FrameHash, DataIn, RepliesIn, FirstIndex, Belongs, Tokens;
    var (s', r') := Apply(l, s, r);
    OwnTokens(l, s, r);
    OwnDirectionKept(l, s, r);
    OnePlace(s, r);
    OnePlace(s', r');
    AppendsOut(l, s, r);
  }

  lemma OwnOtherDoesNotDelay(l: Label, s: Party, r: Party)
    requires !l.ReceiveReply? && !l.ReceiveData? && !Acts(l)
    requires Enabled(l, s, r) && !l.Spoil? && Direction(s, r) && Outstanding(s)
    ensures var (s', r') := Apply(l, s, r); NotDelayed(s, r, s', r')
    ensures var (s', r') := Apply(l, s, r);
      Helpful(s, r) == (true, l) ==> Rank(s', r') < Rank(s, r) || Ahead(s', r') < Ahead(s, r)
  {
    hide FrameHash, DataIn, RepliesIn, FirstIndex, Belongs, Tokens;
    var (s', r') := Apply(l, s, r);
    OwnTokens(l, s, r);
    OnePlace(s, r);
    OnePlace(s', r');
    AppendsOut(l, s, r);
    if l.Answer? {
      FirstIndexSnoc(s.out, s'.out[|s.out|], true);
    }
  }

  /** ... nor its receiver's. */
  lemma PeerStepDoesNotDelay(l: Label, r: Party, s: Party)
    requires Enabled(l, r, s) && !l.Spoil? && Direction(s, r) && Outstanding(s)
    ensures var (r', s') := Apply(l, r, s); NotDelayed(s, r, s', r')
    ensures var (r', s') := Apply(l, r, s);
      Helpful(s, r) == (false, l) && NotLost(s) ==> Rank(s', r') < Rank(s, r) || Ahead(s', r') < Ahead(s, r)
  {
    hide *;
    if l.ReceiveReply? || l.ReceiveData? {
      PeerReceiptDoesNotDelay(l, r, s);
    } else if Apply(l, r, s).0.out != r.out {
      PeerSendingDoesNotDelay(l, r, s);
    } else if l.Check? || l.AnswerFails? {
      PeerCheckAdvances(l, r, s);
    } else {
      PeerOtherDoesNotDelay(l, r, s);
    }
  }

  lemma PeerCheckAdvances(l: Label, r: Party, s: Party)
    requires l.Check? || l.AnswerFails?
    requires Enabled(l, r, s) && Direction(s, r) && Outstanding(s)
    ensures var (r', s') := Apply(l, r, s); NotDelayed(s, r, s', r') && Rank(s', r') < Rank(s, r)
  {
    hide FrameHash, DataIn, RepliesIn, FirstIndex, Tokens, Ahead, Helpful;
    var (r', s') := Apply(l, r, s);
    PeerTokens(l, r, s);
    OnePlace(s, r);
    OnePlace(s', r');
    if l.Check? {
      assert Stage(s, r) == 5 && Stage(s', r') == 4;
    } else {
      assert Rank(s', r') == 0;
    }
  }

  lemma PeerOtherDoesNotDelay(l: Label, r: Party, s: Party)
    requires !l.ReceiveReply? && !l.ReceiveData? && !l.Check? && !l.AnswerFails?
    requires Enabled(l, r, s) && !l.Spoil? && Direction(s, r) && Outstanding(s)
    requires Apply(l, r, s).0.out == r.out
    ensures var (r', s') := Apply(l, r, s); NotDelayed(s, r, s', r')
    ensures var (r', s') := Apply(l, r, s);
      Helpful(s, r) == (false, l) && NotLost(s) ==> Rank(s', r') < Rank(s, r) || Ahead(s', r') < Ahead(s, r)
  {
    hide FrameHash, DataIn, RepliesIn, FirstIndex, Belongs, Tokens;
    var (r', s') := Apply(l, r, s);
    PeerTokens(l, r, s);
    OnePlace(s, r);
    OnePlace(s', r');
    assert Stage(s', r') == Stage(s, r);
  }

  lemma PeerSendingDoesNotDelay(l: Label, r: Party, s: Party)
    requires Enabled(l, r, s) && !l.Spoil? && Direction(s, r) && Outstanding(s)
    requires Apply(l, r, s).0.out != r.out
    ensures var (r', s') := Apply(l, r, s); NotDelayed(s, r, s', r')
    ensures var (r', s') := Apply(l, r, s);
      Helpful(s, r) == (false, l) && NotLost(s) ==> Rank(s', r') < Rank(s, r) || Ahead(s', r') < Ahead(s, r)
  {
    hide FrameHash, DataIn, RepliesIn, FirstIndex, Belongs, Tokens;
    var (r', s') := Apply(l, r, s);
    PeerTokens(l, r, s);
    OnePlace(s, r);
    OnePlace(s', r');
    AppendsOut(l, r, s);
    FirstIndexSnoc(r.out, r'.out[|r.out|], false);
  }

  lemma PeerReceiptDoesNotDelay(l: Label, r: Party, s: Party)
    requires l.ReceiveReply? || l.ReceiveData?
    requires Enabled(l, r, s) && Direction(s, r) && Outstanding(s)
    ensures var (r', s') := Apply(l, r, s); NotDelayed(s, r, s', r')
    ensures var (r', s') := Apply(l, r, s);
      Helpful(s, r) == (false, l) && NotLost(s) ==> Rank(s', r') < Rank(s, r) || Ahead(s', r') < Ahead(s, r)
  {
    hide FrameHash, DataIn, RepliesIn, FirstIndex, Belongs, Tokens;
    var (r', s') := Apply(l, r, s);
    PeerTokens(l, r, s);
    OnePlace(s, r);
    OnePlace(s', r');
    FirstOut(s.out);
    FirstStep(s.out);
  }

  lemma FirstStep(out: seq<Msg>)
    requires out != []
    ensures FirstIndex(out, true) == if out[0].DataMsg? then 0 else 1 + FirstIndex(out[1..], true)
    ensures FirstIndex(out, false) == if out[0].DataMsg? then 1 + FirstIndex(out[1..], false) else 0
  {
  }

  /** Spoiling the token costs one of the k spoilings, and sends it back by less than that. */
  lemma SpoilingIsPaidFor(l: Label, s: Party, r: Party, k: nat)
    requires Enabled(l, s, r) && l.Spoil? && Direction(s, r) && Direction(r, s) && k > 0
    ensures var (s', r') := Apply(l, s, r); Measure(s', r', k - 1) < Measure(s, r, k)
  {
    hide Enabled, Apply, Direction, Rank, Ahead;
    var (s', r') := Apply(l, s, r);
    OwnDirectionKept(l, s, r);
    PeerDirectionKept(l, s, r);
    AheadBound(s', r');
    SpoiltRank(l, s, r);
  }

  lemma SpoiltRank(l: Label, s: Party, r: Party)
    requires Enabled(l, s, r) && l.Spoil? && Direction(s, r)
    ensures var (s', r') := Apply(l, s, r); Rank(s, r) >= 6 && Rank(s', r') <= 12
  {
    hide FrameHash, DataIn, RepliesIn, FirstIndex, Belongs, Tokens;
    var (s', r') := Apply(l, s, r);
    SpoilKept(l, s, r);
    OnePlace(s, r);
    OnePlace(s', r');
    SpoiltData(s.out, l.i, l.payload);
  }

  /** Spoiling the peer's frames costs nothing. */
  lemma PeerSpoilingDoesNotDelay(l: Label, r: Party, s: Party, k: nat)
    requires Enabled(l, r, s) && l.Spoil? && Direction(s, r) && Direction(r, s)
    ensures var (r', s') := Apply(l, r, s); Measure(s', r', k) == Measure(s, r, k)
  {
    hide FrameHash, DataIn, RepliesIn, FirstIndex, Belongs;
    SpoilKept(l, r, s);
    SpoiltData(r.out, l.i, l.payload);
    FirstIndexSpoilt(r.out, l.i, l.payload, false);
  }

  lemma {:induction false} FirstIndexSpoilt(out: seq<Msg>, i: nat, payload: Payload, data: bool)
    requires i < |out| && out[i].DataMsg?
    ensures FirstIndex(out[i := Spoilt(out[i], payload)], data) == FirstIndex(out, data)
  {
    var spoilt := Spoilt(out[i], payload);
    if i == 0 {
      assert out[i := spoilt][1..] == out[1..];
    } else {
      assert out[i := spoilt][1..] == out[1..][i - 1 := spoilt];
      FirstIndexSpoilt(out[1..], i - 1, payload, data);
    }
  }

  /** The next step towards the acknowledgement: the sender's own, or its receiver's. */
  function Helpful(s: Party, r: Party): (bool, Label) {
    if s.tx.Saved? then (true, Clear) else if s.tx.Cleared? then (true, Transmit)
    else match Stage(s, r)
      case 1 => (true, Act)
      case 2 => (true, LookUp)
      case 3 => (true, Attend(s.rx, r.out))
      case 4 => (false, Answer)
      case 5 => (false, Check)
      case _ => (false, Attend(r.rx, s.out))
  }

  /** What a receive thread does next. */
  function Attend(rx: Receiving, incoming: seq<Msg>): Label {
    match rx
    case Idle => if incoming != [] && incoming[0].DataMsg? then ReceiveData else ReceiveReply
    case Checking(_) => Check
    case Answering(_, _) => Answer
    case Dealing(_, _) => LookUp
    case Comparing(_, _, _) => Act
  }

  /** While a frame is outstanding and was not lost by a failed send, its helpful step is possible
      and is not a spoiling. */
  lemma HelpfulStepIsEnabled(s: Party, r: Party)
    requires Direction(s, r) && Direction(r, s) && Outstanding(s) && NotLost(s)
    ensures
      var (mine, l) := Helpful(s, r);
      !l.Spoil? && if mine then Enabled(l, s, r) else Enabled(l, r, s)
  {
    hide FrameHash, DataIn, RepliesIn, Tokens;
    OnePlace(s, r);
    OnePlace(r, s);
    NothingIn();
  }

  // ---- Until it is taken or the token advances, the helpful step stays the helpful step ----

  ghost predicate Steady(s: Party, r: Party, s': Party, r': Party) {
    Rank(s', r') == Rank(s, r) && Ahead(s', r') == Ahead(s, r) ==> Helpful(s', r') == Helpful(s, r)
  }

  lemma OwnStepIsSteady(l: Label, s: Party, r: Party)
    requires Enabled(l, s, r) && !l.Spoil? && Direction(s, r) && Outstanding(s)
    requires NotLost(s) && Helpful(s, r) != (true, l)
    ensures var (s', r') := Apply(l, s, r); Steady(s, r, s', r')
  {
    hide *;
    if l.ReceiveReply? || l.ReceiveData? {
      OwnReceiptIsSteady(l, s, r);
    } else {
      OwnOtherIsSteady(l, s, r);
    }
  }

  lemma OwnReceiptIsSteady(l: Label, s: Party, r: Party)
    requires l.ReceiveReply? || l.ReceiveData?
    requires Enabled(l, s, r) && Direction(s, r) && Outstanding(s)
    requires NotLost(s) && Helpful(s, r) != (true, l)
    ensures var (s', r') := Apply(l, s, r); Steady(s, r, s', r')
  {
    hide FrameHash, DataIn, RepliesIn, FirstIndex, Belongs, Tokens;
    var (s', r') := Apply(l, s, r);
    OwnTokens(l, s, r);
    OnePlace(s, r);
    OnePlace(s', r');
    FirstOut(r.out);
    FirstStep(r.out);
  }

  lemma OwnOtherIsSteady(l: Label, s: Party, r: Party)
    requires !l.ReceiveReply? && !l.ReceiveData?
    requires Enabled(l, s, r) && !l.Spoil? && Direction(s, r) && Outstanding(s)
    requires NotLost(s) && Helpful(s, r) != (true, l)
    ensures var (s', r') := Apply(l, s, r); Steady(s, r, s', r')
  {
    hide FrameHash, DataIn, RepliesIn, FirstIndex, Belongs, Tokens;
    var (s', r') := Apply(l, s, r);
    OwnTokens(l, s, r);
    OnePlace(s, r);
    OnePlace(s', r');
    AppendsOut(l, s, r);
    NothingIn();
    if l.ResendFails? || l.TransmitFails? {
      assert Rank(s', r') == 0;
    } else {
      assert Stage(s', r') == Stage(s, r);
      if l.Answer? {
        FirstIndexSnoc(s.out, s'.out[|s.out|], true);
      }
    }
  }

  lemma PeerStepIsSteady(l: Label, r: Party, s: Party)
    requires Enabled(l, r, s) && !l.Spoil? && Direction(s, r) && Outstanding(s)
    requires NotLost(s) && Helpful(s, r) != (false, l)
    ensures var (r', s') := Apply(l, r, s); Steady(s, r, s', r')
  {
    hide *;
    if l.ReceiveReply? || l.ReceiveData? {
      PeerReceiptIsSteady(l, r, s);
    } else if Apply(l, r, s).0.out != r.out {
      PeerSendingIsSteady(l, r, s);
    } else if l.Check? || l.AnswerFails? {
      PeerCheckAdvances(l, r, s);
      AdvanceIsSteady(l, r, s);
    } else {
      PeerOtherIsSteady(l, r, s);
    }
  }

  lemma AdvanceIsSteady(l: Label, r: Party, s: Party)
    requires Enabled(l, r, s)
    requires var (r', s') := Apply(l, r, s); Rank(s', r') < Rank(s, r)
    ensures var (r', s') := Apply(l, r, s); Steady(s, r, s', r')
  {
    hide Rank, Ahead, Helpful, Apply, Enabled;
  }

  lemma PeerReceiptIsSteady(l: Label, r: Party, s: Party)
    requires l.ReceiveReply? || l.ReceiveData?
    requires Enabled(l, r, s) && Direction(s, r) && Outstanding(s)
    requires NotLost(s) && Helpful(s, r) != (false, l)
    ensures var (r', s') := Apply(l, r, s); Steady(s, r, s', r')
  {
    hide FrameHash, DataIn, RepliesIn, FirstIndex, Belongs, Tokens;
    var (r', s') := Apply(l, r, s);
    PeerTokens(l, r, s);
    OnePlace(s, r);
    OnePlace(s', r');
    FirstOut(s.out);
    FirstStep(s.out);
  }

  lemma PeerSendingIsSteady(l: Label, r: Party, s: Party)
    requires Enabled(l, r, s) && !l.Spoil? && Direction(s, r) && Outstanding(s)
    requires NotLost(s) && Helpful(s, r) != (false, l) && Apply(l, r, s).0.out != r.out
    ensures var (r', s') := Apply(l, r, s); Steady(s, r, s', r')
  {
    hide FrameHash, DataIn, RepliesIn, FirstIndex, Belongs, Tokens;
    var (r', s') := Apply(l, r, s);
    PeerTokens(l, r, s);
    OnePlace(s, r);
    OnePlace(s', r');
    AppendsOut(l, r, s);
    NothingIn();
    FirstIndexSnoc(r.out, r'.out[|r.out|], false);
  }

  lemma PeerOtherIsSteady(l: Label, r: Party, s: Party)
    requires !l.ReceiveReply? && !l.ReceiveData? && !l.Check? && !l.AnswerFails?
    requires Enabled(l, r, s) && !l.Spoil? && Direction(s, r) && Outstanding(s)
    requires NotLost(s) && Helpful(s, r) != (false, l) && Apply(l, r, s).0.out == r.out
    ensures var (r', s') := Apply(l, r, s); Steady(s, r, s', r')
  {
    hide FrameHash, DataIn, RepliesIn, FirstIndex, Belongs, Tokens;
    var (r', s') := Apply(l, r, s);
    PeerTokens(l, r, s);
    OnePlace(s, r);
    OnePlace(s', r');
    NothingIn();
    assert Stage(s', r') == Stage(s, r);
  }

  lemma PeerSpoilingIsSteady(l: Label, r: Party, s: Party)
    requires Enabled(l, r, s) && l.Spoil? && Direction(s, r)
    ensures var (r', s') := Apply(l, r, s); Helpful(s', r') == Helpful(s, r)
  {
    hide FrameHash, DataIn, RepliesIn, FirstIndex, Belongs, Tokens, Direction;
    var (r', s') := Apply(l, r, s);
    SpoiltData(r.out, l.i, l.payload);
    assert Stage(s', r') == Stage(s, r);
  }

  // ---- The same for runs, and for either side as the sender ----

  function Remaining(s: System, side: Side, k: nat): nat {
    Measure(Sender(s, side), Sender(s, Other(side)), k)
  }

  function HelpfulMove(s: System, side: Side): Move {
    var (mine, l) := Helpful(Sender(s, side), Sender(s, Other(side)));
    Move(if mine then side else Other(side), l)
  }

  predicate Spoils(m: Move, side: Side) { m.side == side && m.step.Spoil? }

  function Spoilings(moves: seq<Move>, side: Side): nat {
    if moves == [] then 0 else (if Spoils(moves[0], side) then 1 else 0) + Spoilings(moves[1..], side)
  }

  /** How many moves of a run were the helpful one at their time. */
  function HelpfulTaken(s: System, moves: seq<Move>, side: Side): nat
    requires Run(s, moves).Some?
    decreases |moves|
  {
    if moves == [] then 0
    else (if moves[0] == HelpfulMove(s, side) then 1 else 0) + HelpfulTaken(After(s, moves[0]), moves[1..], side)
  }

  predicate Pending(s: System, side: Side) { Outstanding(Sender(s, side)) && NotLost(Sender(s, side)) }

  /** The side's frame is outstanding before every move of the run. */
  predicate PendingThroughout(s: System, moves: seq<Move>, side: Side)
    requires Run(s, moves).Some?
    decreases |moves|
  {
    moves == [] || (Pending(s, side) && PendingThroughout(After(s, moves[0]), moves[1..], side))
  }

  lemma MoveAdvances(s: System, m: Move, side: Side, k: nat)
    requires Inv(s) && CanMove(s, m) && Pending(s, side) && (Spoils(m, side) ==> k > 0)
    ensures
      var k' := if Spoils(m, side) then k - 1 else k;
      && Remaining(After(s, m), side, k') + (if m == HelpfulMove(s, side) then 1 else 0) <= Remaining(s, side, k)
      && (Spoils(m, side) ==> Remaining(After(s, m), side, k') < Remaining(s, side, k))
  {
    hide Enabled, Apply, Direction, Measure, Rank, Ahead, Helpful;
    var me, you := Sender(s, side), Sender(s, Other(side));
    MoveKeepsInv(s, m);
    if m.side == side {
      if m.step.Spoil? {
        SpoilingIsPaidFor(m.step, me, you, k);
      } else {
        OwnStepDoesNotDelay(m.step, me, you);
        var (me', you') := Apply(m.step, me, you);
        NotDelayedMeasure(me, you, me', you', k);
      }
    } else {
      if m.step.Spoil? {
        PeerSpoilingDoesNotDelay(m.step, you, me, k);
        HelpfulStepIsEnabled(me, you);
      } else {
        PeerStepDoesNotDelay(m.step, you, me);
        var (you', me') := Apply(m.step, you, me);
        NotDelayedMeasure(me, you, me', you', k);
      }
    }
  }

  /** While a frame stays outstanding and at most k of its payloads are spoilt, only boundedly many
      helpful moves can be taken. */
  lemma {:induction false} ResendingEnds(s: System, moves: seq<Move>, side: Side, k: nat)
    requires Inv(s) && Run(s, moves).Some? && PendingThroughout(s, moves, side)
    requires Spoilings(moves, side) <= k
    ensures HelpfulTaken(s, moves, side) <= Remaining(s, side, k) <= 56 * k + 101
    decreases |moves|
  {
    hide CanMove, After, HelpfulMove, Spoils, Remaining, Inv, Pending;
    RemainingBound(s, side, k);
    if moves != [] {
      MoveAdvances(s, moves[0], side, k);
      MoveKeepsInv(s, moves[0]);
      ResendingEnds(After(s, moves[0]), moves[1..], side, if Spoils(moves[0], side) then k - 1 else k);
    }
  }

  lemma RemainingBound(s: System, side: Side, k: nat)
    requires Inv(s)
    ensures Remaining(s, side, k) <= 56 * k + 101
  {
    hide Tokens, DataIn, RepliesIn, FirstIndex;
    AheadBound(Sender(s, side), Sender(s, Other(side)));
  }

  // ---- Under weak fairness the frame is acknowledged ----

  /** A move that neither takes the helpful step, nor spoils the frame, nor brings it nearer, leaves
      the same step the helpful one. */
  lemma MoveIsSteady(s: System, m: Move, side: Side, k: nat)
    requires Inv(s) && CanMove(s, m) && Pending(s, side) && !Spoils(m, side) && m != HelpfulMove(s, side)
    ensures
      Remaining(After(s, m), side, k) == Remaining(s, side, k) ==>
        HelpfulMove(After(s, m), side) == HelpfulMove(s, side)
  {
    hide Enabled, Apply, Direction, Measure, Rank, Ahead, Helpful;
    var me, you := Sender(s, side), Sender(s, Other(side));
    MoveKeepsInv(s, m);
    if m.side == side {
      OwnStepIsSteady(m.step, me, you);
      OwnStepDoesNotDelay(m.step, me, you);
      var (me', you') := Apply(m.step, me, you);
      NotDelayedMeasure(me, you, me', you', k);
    } else if m.step.Spoil? {
      PeerSpoilingIsSteady(m.step, you, me);
    } else {
      PeerStepIsSteady(m.step, you, me);
      PeerStepDoesNotDelay(m.step, you, me);
      var (you', me') := Apply(m.step, you, me);
      NotDelayedMeasure(me, you, me', you', k);
    }
  }

  /** In the course of these moves the helpful move h is taken, or gives way to another. */
  predicate Resolves(s: System, moves: seq<Move>, side: Side, h: Move)
    requires Run(s, moves).Some?
    decreases |moves|
  {
    HelpfulMove(s, side) != h
    || (moves != [] && (moves[0] == h || Resolves(After(s, moves[0]), moves[1..], side, h)))
  }

  /** A run in rounds with the side's frame outstanding throughout; each round goes on until the move
      helpful at its beginning has been taken or is no longer the helpful one. A weakly fair schedule,
      which never passes over a move for ever while it stays possible, only has such rounds. */
  predicate FairRounds(s: System, rounds: seq<seq<Move>>, side: Side)
    decreases |rounds|
  {
    rounds == []
    || (var round := Run(s, rounds[0]);
        && round.Some? && PendingThroughout(s, rounds[0], side)
        && Resolves(s, rounds[0], side, HelpfulMove(s, side))
        && FairRounds(round.value, rounds[1..], side))
  }

  function AllSpoilings(rounds: seq<seq<Move>>, side: Side): nat {
    if rounds == [] then 0 else Spoilings(rounds[0], side) + AllSpoilings(rounds[1..], side)
  }

  lemma {:induction false} RunDoesNotDelay(s: System, moves: seq<Move>, side: Side, k: nat)
    requires Inv(s) && Run(s, moves).Some? && PendingThroughout(s, moves, side)
    requires Spoilings(moves, side) <= k
    ensures Remaining(Run(s, moves).value, side, k - Spoilings(moves, side)) <= Remaining(s, side, k)
    decreases |moves|
  {
    hide CanMove, After, HelpfulMove, Spoils, Remaining, Inv, Pending;
    if moves != [] {
      MoveAdvances(s, moves[0], side, k);
      MoveKeepsInv(s, moves[0]);
      RunDoesNotDelay(After(s, moves[0]), moves[1..], side, if Spoils(moves[0], side) then k - 1 else k);
    }
  }

  lemma {:induction false} RoundAdvances(s: System, moves: seq<Move>, side: Side, k: nat)
    requires Inv(s) && Run(s, moves).Some? && PendingThroughout(s, moves, side)
    requires Spoilings(moves, side) <= k && Resolves(s, moves, side, HelpfulMove(s, side))
    ensures Remaining(Run(s, moves).value, side, k - Spoilings(moves, side)) < Remaining(s, side, k)
    decreases |moves|
  {
    hide CanMove, After, HelpfulMove, Spoils, Remaining, Inv, Pending;
    var m, next := moves[0], After(s, moves[0]);
    var k' := if Spoils(m, side) then k - 1 else k;
    MoveAdvances(s, m, side, k);
    MoveKeepsInv(s, m);
    if Remaining(next, side, k') < Remaining(s, side, k) {
      RunDoesNotDelay(next, moves[1..], side, k');
    } else {
      MoveIsSteady(s, m, side, k);
      RoundAdvances(next, moves[1..], side, k);
    }
  }

  /** With at most k spoilings, a frame stays outstanding for at most 56k + 101 fair rounds: under weak
      fairness it is acknowledged, unless it or its reply fails to go out. */
  lemma {:induction false} FairRoundsEnd(s: System, rounds: seq<seq<Move>>, side: Side, k: nat)
    requires Inv(s) && FairRounds(s, rounds, side) && AllSpoilings(rounds, side) <= k
    ensures |rounds| <= Remaining(s, side, k) <= 56 * k + 101
    decreases |rounds|
  {
    hide Run, HelpfulMove, Remaining, Inv, Resolves, PendingThroughout, Spoilings;
    RemainingBound(s, side, k);
    if rounds != [] {
      RoundAdvances(s, rounds[0], side, k);
      RunKeepsInv(s, rounds[0]);
      FairRoundsEnd(Run(s, rounds[0]).value, rounds[1..], side, k - Spoilings(rounds[0], side));
    }
  }

  lemma HelpfulMoveIsPossible(s: System, side: Side)
    requires Inv(s) && Pending(s, side)
    ensures CanMove(s, HelpfulMove(s, side)) && !HelpfulMove(s, side).step.Spoil?
  {
    hide Enabled, Direction, Helpful;
    HelpfulStepIsEnabled(Sender(s, side), Sender(s, Other(side)));
  }

  /** From every reachable state with a frame outstanding, the helpful moves alone lead to its
      acknowledgement: nothing ever gets stuck. */
  lemma {:induction false} AcknowledgementIsReachable(s: System, side: Side) returns (moves: seq<Move>)
    requires Inv(s) && Pending(s, side)
    ensures |moves| <= Remaining(s, side, 0) && Run(s, moves).Some?
    ensures Sender(Run(s, moves).value, side).acked == Sender(s, side).begun
    ensures Sender(Run(s, moves).value, side).acked
         == Sender(s, side).acked + [Sender(s, side).lastSent.value]
    decreases Remaining(s, side, 0)
  {
    hide CanMove, HelpfulMove, Remaining, Tokens;
    var m := HelpfulMove(s, side);
    HelpfulMoveIsPossible(s, side);
    MoveAdvances(s, m, side, 0);
    MoveKeepsInv(s, m);
    var next := After(s, m);
    HelpfulKeepsHistory(s, side);
    if Outstanding(Sender(next, side)) {
      var rest := AcknowledgementIsReachable(next, side);
      moves := [m] + rest;
      assert moves[1..] == rest;
    } else {
      moves := [m];
      assert Run(next, []) == Some(next) && moves[1..] == [];
    }
  }

  lemma HelpfulKeepsHistory(s: System, side: Side)
    requires Inv(s) && Pending(s, side) && CanMove(s, HelpfulMove(s, side))
    ensures
      var me, me' := Sender(s, side), Sender(After(s, HelpfulMove(s, side)), side);
      && me'.begun == me.begun
      && (Outstanding(me') ==> NotLost(me') && me'.acked == me.acked && me'.lastSent == me.lastSent)
      && (!Outstanding(me') ==> me'.acked == me'.begun)
  {
    hide Direction, Enabled, Apply, Measure, Helpful, Stage;
    var me, you := Sender(s, side), Sender(s, Other(side));
    var m := HelpfulMove(s, side);
    MoveKeepsInv(s, m);
    HelpfulLabel(me, you);
    if m.side == side {
      StepKeepsHistory(m.step, me, you);
    } else {
      StepKeepsHistory(m.step, you, me);
    }
    Histories(s, side);
    Histories(After(s, m), side);
    var me' := Sender(After(s, m), side);
    assert Outstanding(me') ==> me'.acked == me'.begun[..|me'.begun| - 1];
    assert me.acked == me.begun[..|me.begun| - 1];
  }

  /** Something fails to go out. */
  predicate Fails(l: Label) { l.TransmitFails? || l.AnswerFails? || l.ResendFails? }

  lemma HelpfulLabel(s: Party, r: Party)
    ensures !Helpful(s, r).1.Begin? && !Helpful(s, r).1.Spoil? && !Fails(Helpful(s, r).1)
  {
    hide Stage;
  }

  lemma StepKeepsHistory(l: Label, self: Party, peer: Party)
    requires Enabled(l, self, peer) && !l.Begin? && !Fails(l)
    ensures
      var (self', peer') := Apply(l, self, peer);
      && self'.begun == self.begun && self'.failed == self.failed && self'.lastSent == self.lastSent
      && peer'.(out := peer.out) == peer
  {
    hide FrameHash, Intact;
  }

  lemma Histories(s: System, side: Side)
    requires Inv(s)
    ensures
      var me := Sender(s, side);
      && (!Outstanding(me) ==> me.acked == me.begun)
      && (me.tx.Saved? ==> me.succeeded)
      && (Outstanding(me) ==> me.lastSent.Some? && me.begun == me.acked + [me.lastSent.value])
  {
    hide Tokens;
  }
}
