/** One Send call against the receive thread, step by step: the shared flag, the mutex, the
    condition variable, and one frame or reply on its way through an honest peer. */
module Wakeup {
  import opened Frames
  import opened Options

  /** A frame by its digest, which is all the code compares, and the call that sent it. */
  datatype Sent = Sent(hash: Hash, call: nat)

  /** Where the sending thread is inside Send. */
  datatype Caller =
    | Outside
    | Saving        // found the flag true; will keep the frame for resending
    | Clearing      // will clear the flag
    | Locking       // will take _cond_obj
    | Sending       // holds it; will send
    | Looking       // holds it; will test the flag
    | Succeeding    // holds it; saw the flag true
    | GoingToWait   // holds it; saw the flag false
    | Blocked       // released it; waits on _cond
    | Woken         // will take it again
    | Leaving       // holds it; will release it
    | Reading       // released it; will return the flag

  /** Where the receive thread is inside DealReplyMessage. */
  datatype Receiver =
    | Listening
    | Got(f: Sent, correct: bool)
    | Comparing(f: Sent, correct: bool, saved: Option<Sent>)
    | SettingFlag(f: Sent)
    | Resending(f: Sent)
    | WantsLock       // StopSendWaiting: will take _cond_obj
    | Broadcasting    // holds it; will broadcast
    | Releasing       // holds it; will release it

  datatype Network = Quiet | FrameOut(f: Sent) | ReplyOut(f: Sent, correct: bool)
  datatype Mutex = Free | HeldBySender | HeldByReceiver

  datatype State = State(
    caller: Caller,
    receiver: Receiver,
    network: Network,
    mutex: Mutex,
    succeeded: bool,              // _send_succeeded
    lastSent: Option<Sent>,       // _last_sent_bytes
    current: Sent,                // the frame of the current call; calls that pass the first test count
    acknowledged: set<nat>,       // history: calls whose frame a matching positive reply answered
    returned: seq<(nat, bool)>)   // history: what each such call returned

  datatype Step =
    | Call(hash: Hash) | Save | Clear | Lock | Send | SendFails | ClockFails
    | Look | Succeed | Wait | WaitFails | Wake | Relock | Unlock | Read
    | Receive | LookUp | Compare | SetFlag | Resend | TakeLock | Broadcast | Release
    | PeerReplies(correct: bool)

  ghost predicate Start(s: State) {
    s.caller.Outside? && s.receiver.Listening? && s.network.Quiet? && s.mutex.Free? && s.succeeded
    && s.lastSent.None? && s.current.call == 0 && s.acknowledged == {} && s.returned == []
  }

  predicate Enabled(s: State, step: Step) {
    match step
    case Call(_) => s.caller.Outside? && s.succeeded
    case Save => s.caller.Saving?
    case Clear => s.caller.Clearing?
    case Lock => s.caller.Locking? && s.mutex.Free?
    case Send => s.caller.Sending?
    case SendFails => s.caller.Sending?
    case ClockFails => s.caller.Looking?
    case Look => s.caller.Looking?
    case Succeed => s.caller.Succeeding?
    case Wait => s.caller.GoingToWait?
    case WaitFails => s.caller.GoingToWait?
    case Wake => s.caller.Blocked?
    case Relock => s.caller.Woken? && s.mutex.Free?
    case Unlock => s.caller.Leaving?
    case Read => s.caller.Reading?
    case Receive => s.receiver.Listening? && s.network.ReplyOut?
    case LookUp => s.receiver.Got?
    case Compare => s.receiver.Comparing?
    case SetFlag => s.receiver.SettingFlag?
    case Resend => s.receiver.Resending?
    case TakeLock => s.receiver.WantsLock? && s.mutex.Free?
    case Broadcast => s.receiver.Broadcasting?
    case Release => s.receiver.Releasing?
    case PeerReplies(_) => s.network.FrameOut?
  }

  function Return(s: State, result: bool): State {
    s.(caller := Outside, returned := s.returned + [(s.current.call, result)])
  }

  function Apply(s: State, step: Step): State
    requires Enabled(s, step)
  {
    match step
    case Call(hash) => s.(caller := Saving, current := Sent(hash, s.current.call + 1))
    case Save => s.(caller := Clearing, lastSent := Some(s.current))
    case Clear => s.(caller := Locking, succeeded := false)
    case Lock => s.(caller := Sending, mutex := HeldBySender)
    case Send => s.(caller := Looking, network := FrameOut(s.current))
    case SendFails => Return(s.(mutex := Free), false)
    case ClockFails => Return(s.(mutex := Free), false)
    case Look => s.(caller := if s.succeeded then Succeeding else GoingToWait)
    case Succeed => Return(s.(mutex := Free), true)
    case Wait => s.(caller := Blocked, mutex := Free)
    case WaitFails => Return(s.(mutex := Free), false)
    case Wake => s.(caller := Woken)  // a time-out, another thread's broadcast, or no reason at all
    case Relock => s.(caller := Leaving, mutex := HeldBySender)
    case Unlock => s.(caller := Reading, mutex := Free)
    case Read => Return(s, s.succeeded)
    case Receive => s.(receiver := Got(s.network.f, s.network.correct), network := Quiet)
    case LookUp => s.(receiver := Comparing(s.receiver.f, s.receiver.correct, s.lastSent))
    case Compare =>
      var Comparing(f, correct, saved) := s.receiver;
      s.(receiver := if saved.None? || saved.value.hash != f.hash then Listening
                     else if correct then SettingFlag(f) else Resending(saved.value))
    case SetFlag =>
      s.(receiver := WantsLock, succeeded := true, acknowledged := s.acknowledged + {s.receiver.f.call})
    case Resend => s.(receiver := Listening, network := FrameOut(s.receiver.f))
    case TakeLock => s.(receiver := Broadcasting, mutex := HeldByReceiver)
    case Broadcast => s.(receiver := Releasing, caller := if s.caller.Blocked? then Woken else s.caller)
    case Release => s.(receiver := Listening, mutex := Free)
    case PeerReplies(correct) => s.(network := ReplyOut(s.network.f, correct))
  }

  // ---- The invariant ----

  ghost predicate TokenIs(s: State, f: Sent) {
    && (s.network.FrameOut? || s.network.ReplyOut? ==> s.network.f == f)
    && (OnReceiver(s) ==> s.receiver.f == f)
    && (s.receiver.Comparing? ==> s.receiver.saved == Some(f))
  }

  predicate OnNetwork(s: State) { !s.network.Quiet? }

  predicate OnReceiver(s: State) {
    s.receiver.Got? || s.receiver.Comparing? || s.receiver.SettingFlag? || s.receiver.Resending?
  }

  /** The current call has cleared the flag and not returned yet. */
  predicate InCall(s: State) {
    !s.caller.Outside? && !s.caller.Saving? && !s.caller.Clearing?
  }

  predicate HoldsMutex(c: Caller) {
    c.Sending? || c.Looking? || c.Succeeding? || c.GoingToWait? || c.Leaving?
  }

  ghost predicate Inv(s: State) {
    && (s.mutex.HeldBySender? <==> HoldsMutex(s.caller))
    && (s.mutex.HeldByReceiver? <==> s.receiver.Broadcasting? || s.receiver.Releasing?)
    && !(OnNetwork(s) && OnReceiver(s))
    && (OnNetwork(s) || OnReceiver(s) ==>
         !s.succeeded && s.lastSent == Some(s.current) && TokenIs(s, s.current)
         && !s.caller.Locking? && !s.caller.Sending?)
    && (s.caller.Saving? || s.caller.Clearing? ==> s.succeeded)
    && (s.caller.Locking? || s.caller.Sending? ==> !s.succeeded)
    && (InCall(s) ==> (s.succeeded <==> s.current.call in s.acknowledged))
    && (s.caller.Succeeding? ==> s.succeeded)
    && (!s.succeeded ==> s.lastSent == Some(s.current))
    && (s.caller.Clearing? ==> s.lastSent == Some(s.current))
    && ((s.caller.GoingToWait? || s.caller.Blocked?) && s.succeeded ==>
         s.receiver.WantsLock? || s.receiver.Broadcasting?)
    && (!s.succeeded || !s.caller.Outside? ==> s.current.call > 0)
    && ((s.caller.Looking? || s.caller.GoingToWait? || s.caller.Blocked?) && !s.succeeded ==>
         OnNetwork(s) || OnReceiver(s))
    && (forall k <- s.acknowledged :: 0 < k <= s.current.call)
    && (s.caller.Saving? || s.caller.Clearing? ==> s.current.call !in s.acknowledged)
    && (forall r <- s.returned :: r.1 ==> r.0 in s.acknowledged)
  }

  predicate OfReceiver(step: Step) {
    step.Receive? || step.LookUp? || step.Compare? || step.SetFlag? || step.Resend?
    || step.TakeLock? || step.Broadcast? || step.Release? || step.PeerReplies?
  }

  predicate Returns(step: Step) {
    step.SendFails? || step.ClockFails? || step.Succeed? || step.WaitFails? || step.Read?
  }

  lemma ReceiverKeepsInv(s: State, step: Step)
    requires Inv(s) && Enabled(s, step) && OfReceiver(step)
    ensures Inv(Apply(s, step))
  {
  }

  lemma CallerKeepsInv(s: State, step: Step)
    requires Inv(s) && Enabled(s, step) && !OfReceiver(step) && !Returns(step)
    ensures Inv(Apply(s, step))
  {
  }

  lemma ReturnKeepsInv(s: State, step: Step)
    requires Inv(s) && Enabled(s, step) && Returns(step)
    ensures Inv(Apply(s, step))
  {
  }

  lemma StepKeepsInv(s: State, step: Step)
    requires Inv(s) && Enabled(s, step)
    ensures Inv(Apply(s, step))
  {
    hide Inv, Enabled, Apply;
    if OfReceiver(step) {
      ReceiverKeepsInv(s, step);
    } else if Returns(step) {
      ReturnKeepsInv(s, step);
    } else {
      CallerKeepsInv(s, step);
    }
  }

  function Run(s: State, steps: seq<Step>): Option<State>
    decreases |steps|
  {
    if steps == [] then Some(s)
    else if Enabled(s, steps[0]) then Run(Apply(s, steps[0]), steps[1..])
    else None
  }

  lemma {:induction false} RunKeepsInv(s: State, steps: seq<Step>)
    requires Inv(s) && Run(s, steps).Some?
    ensures Inv(Run(s, steps).value)
    decreases |steps|
  {
    hide Inv, Enabled, Apply;
    if steps != [] {
      StepKeepsInv(s, steps[0]);
      RunKeepsInv(Apply(s, steps[0]), steps[1..]);
    }
  }

  /** The states of all runs, under every interleaving of the two threads and the peer. */
  ghost predicate Reachable(s: State) {
    exists start, steps :: Start(start) && Run(start, steps) == Some(s)
  }

  lemma ReachableInv(s: State)
    requires Reachable(s)
    ensures Inv(s)
  {
    hide Run;
    var start, steps :| Start(start) && Run(start, steps) == Some(s);
    RunKeepsInv(start, steps);
  }

  // ---- What follows for every reachable state ----

  /** No acknowledgement's wake-up is lost: a sender asleep while the flag is true is owed a broadcast,
      the receive thread can go on at once, and within two of its steps the sender is awake. */
  lemma NoLostWakeup(s: State)
    requires Reachable(s) && s.caller.Blocked? && s.succeeded
    ensures
      || (s.receiver.Broadcasting? && Apply(s, Broadcast).caller.Woken?)
      || (s.receiver.WantsLock? && Enabled(s, TakeLock) && Enabled(Apply(s, TakeLock), Broadcast)
          && Apply(Apply(s, TakeLock), Broadcast).caller.Woken?)
  {
    hide Reachable;
    ReachableInv(s);
  }

  /** Send returns true only if a matching positive reply answered the frame of that very call, even
      after spurious wakes, and whatever earlier frames had the same digest. */
  lemma TrueMeansAcknowledged(s: State, call: nat)
    requires Reachable(s) && (call, true) in s.returned
    ensures call in s.acknowledged
  {
    hide Reachable;
    ReachableInv(s);
  }

  /** The calls whose frame the peer answered positively in the course of these steps. */
  function Answers(s: State, steps: seq<Step>): set<nat>
    requires Run(s, steps).Some?
    decreases |steps|
  {
    if steps == [] then {}
    else
      (if steps[0] == PeerReplies(true) then {s.network.f.call} else {}) + Answers(Apply(s, steps[0]), steps[1..])
  }

  /** Every positive reply on its way, and every frame taken for acknowledged, was answered positively. */
  ghost predicate Positive(s: State, answers: set<nat>) {
    && (s.network.ReplyOut? && s.network.correct ==> s.network.f.call in answers)
    && ((s.receiver.Got? || s.receiver.Comparing?) && s.receiver.correct ==> s.receiver.f.call in answers)
    && (s.receiver.SettingFlag? ==> s.receiver.f.call in answers)
    && s.acknowledged <= answers
  }

  lemma StepKeepsPositive(s: State, step: Step, answers: set<nat>)
    requires Positive(s, answers) && Enabled(s, step)
    ensures
      var more := if step == PeerReplies(true) then {s.network.f.call} else {};
      Positive(Apply(s, step), answers + more)
  {
    if OfReceiver(step) {
      ReceiverKeepsPositive(s, step, answers);
    }
  }

  lemma ReceiverKeepsPositive(s: State, step: Step, answers: set<nat>)
    requires Positive(s, answers) && Enabled(s, step) && OfReceiver(step)
    ensures
      var more := if step == PeerReplies(true) then {s.network.f.call} else {};
      Positive(Apply(s, step), answers + more)
  {
  }

  lemma {:induction false} RunKeepsPositive(s: State, steps: seq<Step>, answers: set<nat>)
    requires Positive(s, answers) && Run(s, steps).Some?
    ensures Positive(Run(s, steps).value, answers + Answers(s, steps))
    decreases |steps|
  {
    hide Positive, Apply;
    if steps == [] {
      assert answers + {} == answers;
    } else {
      var more := if steps[0] == PeerReplies(true) then {s.network.f.call} else {};
      StepKeepsPositive(s, steps[0], answers);
      RunKeepsPositive(Apply(s, steps[0]), steps[1..], answers + more);
      assert answers + more + Answers(Apply(s, steps[0]), steps[1..]) == answers + Answers(s, steps);
    }
  }

  /** The peer's step that answered the call's frame. */
  lemma {:induction false} AnswerIsStep(s: State, steps: seq<Step>, call: nat) returns (i: nat)
    requires Run(s, steps).Some? && call in Answers(s, steps)
    ensures i < |steps| && steps[i] == PeerReplies(true)
    ensures
      var before := Run(s, steps[..i]);
      before.Some? && before.value.network.FrameOut? && before.value.network.f.call == call
    decreases |steps|
  {
    if steps[0] == PeerReplies(true) && s.network.f.call == call {
      i := 0;
    } else {
      hide Enabled, Apply;
      var j := AnswerIsStep(Apply(s, steps[0]), steps[1..], call);
      i := j + 1;
      assert steps[..i][0] == steps[0] && steps[..i][1..] == steps[1..][..j];
    }
  }

  /** In every run Send returns true only if the peer has answered the frame of that very call, which
      was then on its way, positively. */
  lemma TrueMeansAnswered(start: State, steps: seq<Step>, call: nat) returns (i: nat)
    requires Start(start) && Run(start, steps).Some? && (call, true) in Run(start, steps).value.returned
    ensures i < |steps| && steps[i] == PeerReplies(true)
    ensures
      var before := Run(start, steps[..i]);
      before.Some? && before.value.network.FrameOut? && before.value.network.f.call == call
  {
    hide Run, Answers;
    RunKeepsInv(start, steps);
    RunKeepsPositive(start, steps, {});
    assert {} + Answers(start, steps) == Answers(start, steps);
    i := AnswerIsStep(start, steps, call);
  }

  /** A reply counts only against the frame that was kept when it was looked up: with another digest, or
      with no frame kept, it changes nothing; a positive one for it leads to the flag, a negative one to
      the frame's going out again. */
  lemma ReplyIsMatched(s: State)
    requires s.receiver.Comparing?
    ensures
      var Comparing(f, correct, saved) := s.receiver;
      var matches := saved.Some? && saved.value.hash == f.hash;
      var s' := Apply(s, Compare);
      && s' == s.(receiver := s'.receiver)
      && (!matches ==> s'.receiver.Listening?)
      && (matches && correct ==> Enabled(s', SetFlag) && Apply(s', SetFlag).succeeded)
      && (matches && !correct ==>
           Enabled(s', Resend) && Apply(s', Resend) == s.(receiver := Listening, network := FrameOut(saved.value)))
  {
  }

  /** A call that fails, because its frame does not go out, the clock cannot be read or the wait fails,
      returns false, gives up the mutex and sends nothing more. */
  lemma FailingCallReturnsFalse(s: State, step: Step)
    requires Reachable(s) && Enabled(s, step) && (step.SendFails? || step.ClockFails? || step.WaitFails?)
    ensures Apply(s, step) == s.(caller := Outside, mutex := Free, returned := s.returned + [(s.current.call, false)])
    ensures step.SendFails? ==> s.network.Quiet? && s.mutex.HeldBySender?
  {
    hide Reachable;
    ReachableInv(s);
  }

  /** The last test of a call that slept says exactly whether its frame has been acknowledged by then. */
  lemma FinalTestIsExact(s: State)
    requires Reachable(s) && s.caller.Reading?
    ensures Apply(s, Read).returned == s.returned + [(s.current.call, s.current.call in s.acknowledged)]
  {
    hide Reachable;
    ReachableInv(s);
  }

  /** A step that needs no time-out, failure or spurious wake. */
  function Next(s: State): Step {
    match s.receiver
    case Broadcasting => Broadcast
    case Releasing => Release
    case _ =>
      match s.caller
      case Saving => Save
      case Clearing => Clear
      case Locking => Lock
      case Sending => Send
      case Looking => Look
      case Succeeding => Succeed
      case GoingToWait => Wait
      case Woken => Relock
      case Leaving => Unlock
      case Reading => Read
      case _ =>
        match s.receiver
        case Listening => if s.network.ReplyOut? then Receive else PeerReplies(true)
        case Got(_, _) => LookUp
        case Comparing(_, _, _) => Compare
        case SettingFlag(_) => SetFlag
        case Resending(_) => Resend
        case _ => TakeLock
  }

  /** While a call is in progress, something other than a time-out can always happen. */
  lemma NoDeadlock(s: State)
    requires Reachable(s) && !s.caller.Outside?
    ensures Enabled(s, Next(s))
  {
    hide Reachable;
    ReachableInv(s);
  }

  // ---- When a call without a time-out waits for its reply ----

  /** A spurious wake or time-out, a send that fails, or a failure of time or of the wait itself. */
  predicate Disturbs(step: Step) { step.Wake? || step.SendFails? || step.ClockFails? || step.WaitFails? }

  predicate Undisturbed(steps: seq<Step>) { forall step <- steps :: !Disturbs(step) }

  /** Every call of the run is made while the receive thread owes no broadcast: it is not between
      setting the flag for the call before and taking _cond_obj. */
  predicate Unhurried(s: State, steps: seq<Step>)
    requires Run(s, steps).Some?
    decreases |steps|
  {
    steps == []
    || ((steps[0].Call? ==> !s.receiver.WantsLock?) && Unhurried(Apply(s, steps[0]), steps[1..]))
  }

  /** No broadcast of an earlier acknowledgement is left for the current call, so that only its own
      has woken it. */
  ghost predicate NoStaleBroadcast(s: State) {
    && (s.caller.Saving? || s.caller.Clearing? || s.caller.Locking? ==> !s.receiver.WantsLock?)
    && (InCall(s) && !s.caller.Locking? && !s.succeeded ==>
         !s.receiver.WantsLock? && !s.receiver.Broadcasting? && !s.receiver.Releasing?)
    && (s.caller.Woken? || s.caller.Leaving? || s.caller.Reading? ==> s.succeeded)
  }

  lemma StepIsUnhurried(s: State, step: Step)
    requires Inv(s) && Enabled(s, step) && NoStaleBroadcast(s)
    requires !Disturbs(step) && (step.Call? ==> !s.receiver.WantsLock?)
    ensures NoStaleBroadcast(Apply(s, step))
    ensures Apply(s, step).returned == s.returned
         || Apply(s, step).returned == s.returned + [(s.current.call, true)]
  {
  }

  /** What calls of an unhurried, undisturbed run return is true. */
  lemma {:induction false} UnhurriedReturns(s: State, steps: seq<Step>)
    requires Inv(s) && NoStaleBroadcast(s)
    requires Run(s, steps).Some? && Undisturbed(steps) && Unhurried(s, steps)
    ensures
      var t := Run(s, steps).value;
      s.returned <= t.returned && forall r <- t.returned[|s.returned|..] :: r.1
    decreases |steps|
  {
    hide Inv, NoStaleBroadcast, Enabled, Apply, Disturbs;
    if steps != [] {
      var next := Apply(s, steps[0]);
      StepKeepsInv(s, steps[0]);
      StepIsUnhurried(s, steps[0]);
      UnhurriedReturns(next, steps[1..]);
      var t := Run(s, steps).value;
      assert t.returned[|s.returned|..] == next.returned[|s.returned|..] + t.returned[|next.returned|..];
    }
  }

  /** In every undisturbed run whose calls find no broadcast owed, every call waits for its reply. */
  lemma CallsWaitForReplies(start: State, steps: seq<Step>)
    requires Start(start) && Run(start, steps).Some? && Undisturbed(steps) && Unhurried(start, steps)
    ensures forall r <- Run(start, steps).value.returned :: r.1 && r.0 in Run(start, steps).value.acknowledged
  {
    hide Run, Unhurried, Undisturbed;
    UnhurriedReturns(start, steps);
    RunKeepsInv(start, steps);
    var t := Run(start, steps).value;
    assert t.returned[0..] == t.returned;
  }

  /** The steps are one call and no other, undisturbed. */
  predicate OneCall(h: Hash, steps: seq<Step>) {
    && steps != [] && steps[0] == Call(h)
    && forall i | 0 < i < |steps| :: !steps[i].Call? && !Disturbs(steps[i])
  }

  /** One undisturbed call made in state s, run until it returns. */
  predicate Returning(s: State, h: Hash, steps: seq<Step>, result: bool) {
    && OneCall(h, steps) && Run(s, steps).Some?
    && Run(s, steps).value.returned == s.returned + [(s.current.call + 1, result)]
  }

  /** An undisturbed call can return without its reply if and only if it is made while the receive
      thread still owes the broadcast for the call before: between setting the flag and taking
      _cond_obj. */
  lemma CallCanReturnEarlyIff(s: State, h: Hash)
    requires Reachable(s) && s.caller.Outside? && s.succeeded
    ensures (exists steps :: Returning(s, h, steps, false)) <==> s.receiver.WantsLock?
  {
    hide Reachable, Run, OneCall;
    ReachableInv(s);
    if s.receiver.WantsLock? {
      NothingRuns(s);
      var steps, t := StaleBroadcastEndsCall(s, [], s, h);
      assert Returning(s, h, steps, false);
    } else {
      forall steps | Returning(s, h, steps, false)
        ensures false
      {
        UnhurriedCallReturnsTrue(s, h, steps, false);
      }
    }
  }

  lemma UnhurriedCallReturnsTrue(s: State, h: Hash, steps: seq<Step>, result: bool)
    requires Inv(s) && s.caller.Outside? && !s.receiver.WantsLock? && Returning(s, h, steps, result)
    ensures result
  {
    hide Run, OneCall;
    OneCallIsUnhurried(s, h, steps);
    UnhurriedReturns(s, steps);
    var r := Run(s, steps).value.returned[|s.returned|..];
    assert r == [(s.current.call + 1, result)] && r[0] in r;
  }

  lemma NothingRuns(s: State)
    ensures Run(s, []) == Some(s) && Undisturbed([])
  {
  }

  lemma CallsOnce(h: Hash)
    ensures OneCall(h, [] + [Call(h)])
  {
    assert [] + [Call(h)] == [Call(h)];
  }

  lemma OneCallIsUnhurried(s: State, h: Hash, steps: seq<Step>)
    requires OneCall(h, steps) && Run(s, steps).Some? && !s.receiver.WantsLock?
    ensures Undisturbed(steps) && Unhurried(s, steps)
  {
    hide Enabled, Apply;
    NoCallIsUnhurried(Apply(s, steps[0]), steps[1..]);
  }

  lemma {:induction false} NoCallIsUnhurried(s: State, steps: seq<Step>)
    requires Run(s, steps).Some? && forall step <- steps :: !step.Call?
    ensures Unhurried(s, steps)
    decreases |steps|
  {
    hide Enabled, Apply;
    if steps != [] {
      NoCallIsUnhurried(Apply(s, steps[0]), steps[1..]);
    }
  }

  /** After a run that ends with a broadcast owed, a call sends, sleeps, and is woken by it: the call
      returns false with its frame still travelling. */
  lemma StaleBroadcastEndsCall(start: State, steps0: seq<Step>, s0: State, h: Hash)
    returns (steps: seq<Step>, s: State)
    requires Run(start, steps0) == Some(s0) && s0.caller.Outside? && s0.mutex.Free? && s0.succeeded
    requires s0.receiver.WantsLock?
    ensures Run(start, steps) == Some(s) && s.returned == s0.returned + [(s0.current.call + 1, false)]
    ensures s.network.FrameOut? && s.network.f == Sent(h, s0.current.call + 1)
    ensures Undisturbed(steps0) ==> Undisturbed(steps)
    ensures steps0 == [] ==> OneCall(h, steps)
  {
    hide Run, Undisturbed, OneCall;
    steps, s := FallsAsleep(start, steps0, s0, h);
    steps, s := Extended(start, steps, s, TakeLock);
    steps, s := Extended(start, steps, s, Broadcast);
    steps, s := Extended(start, steps, s, Release);
    steps, s := ReadsFalse(start, steps, s);
  }

  lemma ReadsFalse(start: State, steps0: seq<Step>, s0: State) returns (steps: seq<Step>, s: State)
    requires Run(start, steps0) == Some(s0) && s0.caller.Woken? && s0.mutex.Free? && !s0.succeeded
    ensures Run(start, steps) == Some(s) && s == Return(s0, false)
    ensures Undisturbed(steps0) ==> Undisturbed(steps)
    ensures forall h | OneCall(h, steps0) :: OneCall(h, steps)
  {
    hide Run, Undisturbed, OneCall;
    steps, s := Extended(start, steps0, s0, Relock);
    steps, s := Extended(start, steps, s, Unlock);
    steps, s := Extended(start, steps, s, Read);
  }

  /** A run in which a call returns true at once, before the receive thread's broadcast, and that
      broadcast ends the next call: no disturbance is needed. */
  lemma StaleBroadcastRun(start: State, h: Hash, h': Hash) returns (steps: seq<Step>, s: State)
    requires Start(start)
    ensures Run(start, steps) == Some(s) && Undisturbed(steps)
    ensures s.returned == [(1, true), (2, false)] && s.network.FrameOut?
  {
    steps, s := [], start;
    hide Run, Undisturbed;
    NothingRuns(start);
    steps, s := SendsFrame(start, steps, s, h);
    steps, s := IsAcknowledged(start, steps, s);
    steps, s := Extended(start, steps, s, Look);
    steps, s := Extended(start, steps, s, Succeed);
    steps, s := StaleBroadcastEndsCall(start, steps, s, h');
  }

  /** The peer's reply arrives and sets the flag while the sender holds _cond_obj. */
  lemma IsAcknowledged(start: State, steps0: seq<Step>, s0: State) returns (steps: seq<Step>, s: State)
    requires Run(start, steps0) == Some(s0) && s0.caller.Looking? && s0.receiver.Listening?
    requires s0.network == FrameOut(s0.current) && s0.lastSent == Some(s0.current)
    ensures Run(start, steps) == Some(s) && (Undisturbed(steps0) ==> Undisturbed(steps))
    ensures s.caller.Looking? && s.receiver.WantsLock? && s.succeeded
    ensures s.mutex == s0.mutex && s.current == s0.current && s.returned == s0.returned
  {
    hide Run, Undisturbed, OneCall;
    steps, s := Extended(start, steps0, s0, PeerReplies(true));
    steps, s := Extended(start, steps, s, Receive);
    steps, s := Extended(start, steps, s, LookUp);
    steps, s := Extended(start, steps, s, Compare);
    steps, s := Extended(start, steps, s, SetFlag);
  }

  /** A spurious wake can end a call without a time-out before any reply: a bare pthread_cond_wait
      does not make Send wait for its acknowledgement. */
  lemma SpuriousWakeEndsCall(start: State, h: Hash) returns (steps: seq<Step>, s: State)
    requires Start(start)
    ensures Run(start, steps) == Some(s) && s.returned == [(1, false)] && s.network.FrameOut?
  {
    hide Run;
    NothingRuns(start);
    steps, s := FallsAsleep(start, [], start, h);
    steps, s := Extended(start, steps, s, Wake);
    steps, s := ReadsFalse(start, steps, s);
  }

  /** A call up to its first look at the flag. */
  lemma SendsFrame(start: State, steps0: seq<Step>, s0: State, h: Hash) returns (steps: seq<Step>, s: State)
    requires Run(start, steps0) == Some(s0) && s0.caller.Outside? && s0.mutex.Free? && s0.succeeded
    ensures Run(start, steps) == Some(s) && (Undisturbed(steps0) ==> Undisturbed(steps))
    ensures steps0 == [] ==> OneCall(h, steps)
    ensures
      var f := Sent(h, s0.current.call + 1);
      s == s0.(caller := Looking, mutex := HeldBySender, succeeded := false, lastSent := Some(f), current := f,
               network := FrameOut(f))
  {
    hide Run, Undisturbed, OneCall;
    CallsOnce(h);
    steps, s := Extended(start, steps0, s0, Call(h));
    steps, s := Extended(start, steps, s, Save);
    steps, s := Extended(start, steps, s, Clear);
    steps, s := Extended(start, steps, s, Lock);
    steps, s := Extended(start, steps, s, Send);
  }

  lemma FallsAsleep(start: State, steps0: seq<Step>, s0: State, h: Hash) returns (steps: seq<Step>, s: State)
    requires Run(start, steps0) == Some(s0) && s0.caller.Outside? && s0.mutex.Free? && s0.succeeded
    ensures Run(start, steps) == Some(s) && (Undisturbed(steps0) ==> Undisturbed(steps))
    ensures steps0 == [] ==> OneCall(h, steps)
    ensures
      var f := Sent(h, s0.current.call + 1);
      s == s0.(caller := Blocked, succeeded := false, lastSent := Some(f), current := f, network := FrameOut(f))
  {
    hide Run, Undisturbed, OneCall;
    steps, s := SendsFrame(start, steps0, s0, h);
    steps, s := Extended(start, steps, s, Look);
    steps, s := Extended(start, steps, s, Wait);
  }

  lemma Extended(start: State, steps: seq<Step>, s: State, step: Step) returns (steps': seq<Step>, s': State)
    requires Run(start, steps) == Some(s) && Enabled(s, step)
    ensures steps' == steps + [step] && s' == Apply(s, step) && Run(start, steps') == Some(s')
    ensures Undisturbed(steps) && !Disturbs(step) ==> Undisturbed(steps')
    ensures forall h | OneCall(h, steps) && !step.Call? && !Disturbs(step) :: OneCall(h, steps')
  {
    steps', s' := steps + [step], Apply(s, step);
    RunSnoc(start, steps, step);
  }

  lemma {:induction false} RunSnoc(start: State, steps: seq<Step>, step: Step)
    requires Run(start, steps).Some? && Enabled(Run(start, steps).value, step)
    ensures Run(start, steps + [step]) == Some(Apply(Run(start, steps).value, step))
    decreases |steps|
  {
    hide Enabled, Apply;
    if steps == [] {
      assert (steps + [step])[1..] == [] && Run(Apply(start, step), []) == Some(Apply(start, step));
    } else {
      assert (steps + [step])[1..] == steps[1..] + [step];
      RunSnoc(Apply(start, steps[0]), steps[1..], step);
    }
  }
}
