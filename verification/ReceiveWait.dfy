/** One Receive call against the receive thread filling its slot, step by step. */
module ReceiveWait {
  import opened Words
  import opened Frames
  import opened Options

  datatype Frame = Frame(typ: Word, payload: seq<Byte>)

  /** Where the calling thread is inside Receive. */
  datatype Caller =
    | Outside
    | Locking       // will take _cond_receive_obj
    | Arming        // holds it; will initialise the slot
    | Looking       // holds it; will test the type
    | Finding       // holds it; saw the slot filled
    | GoingToWait   // holds it; saw the slot waiting
    | Blocked       // released it; waits on _cond_receive
    | Woken(timedOut: bool)    // will take it again
    | Leaving(timedOut: bool)  // holds it; will release it
    | Deciding      // timed out; will test the type
    | Reading       // will return what the slot holds

  /** Where the receive thread is with a verified frame. */
  datatype Thread =
    | Listening
    | Got(f: Frame)
    | Setting(f: Frame)  // its type was the awaited one
    | WantsLock          // has filled the slot; will take _cond_receive_obj
    | Broadcasting       // holds it; will broadcast
    | Releasing          // holds it; will release it

  datatype Mutex = Free | HeldByCaller | HeldByThread

  datatype Result = Failed | Gave(slot: Option<Frame>)

  datatype State = State(
    caller: Caller,
    thread: Thread,
    mutex: Mutex,
    typ: Word,                          // the type the current call names
    awaited: Word,                      // _received_type
    slot: Option<Frame>,
    returned: seq<(Word, Result)>)      // history: what each call named and returned

  datatype Step =
    | Call(typ: Word) | Lock | Arm | ClockFails | Look | Find | Wait | TimeOut | Wake | Relock | Unlock | Decide | Read
    | Arrive(f: Frame) | Test | Set | TakeLock | Broadcast | Release

  ghost predicate Start(s: State) {
    s.caller.Outside? && s.thread.Listening? && s.mutex.Free? && s.awaited == 0 && s.slot.None? && s.returned == []
  }

  predicate Enabled(s: State, step: Step) {
    match step
    case Call(_) => s.caller.Outside?
    case Lock => s.caller.Locking? && s.mutex.Free?
    case Arm => s.caller.Arming?
    case ClockFails => s.caller.Looking?
    case Look => s.caller.Looking?
    case Find => s.caller.Finding?
    case Wait => s.caller.GoingToWait?
    case TimeOut => s.caller.Blocked?
    case Wake => s.caller.Blocked?
    case Relock => s.caller.Woken? && s.mutex.Free?
    case Unlock => s.caller.Leaving?
    case Decide => s.caller.Deciding?
    case Read => s.caller.Reading?
    case Arrive(f) => s.thread.Listening? && f.typ > MSG_CONNECT
    case Test => s.thread.Got?
    case Set => s.thread.Setting?
    case TakeLock => s.thread.WantsLock? && s.mutex.Free?
    case Broadcast => s.thread.Broadcasting?
    case Release => s.thread.Releasing?
  }

  function Return(s: State, result: Result): State {
    s.(caller := Outside, returned := s.returned + [(s.typ, result)])
  }

  function Apply(s: State, step: Step): State
    requires Enabled(s, step)
  {
    match step
    case Call(typ) => s.(caller := Locking, typ := typ)
    case Lock => s.(caller := Arming, mutex := HeldByCaller)
    case Arm => s.(caller := Looking, awaited := s.typ, slot := None)
    case ClockFails => Return(s.(mutex := Free), Failed)
    case Look => s.(caller := if s.awaited == 0 then Finding else GoingToWait)
    case Find => Return(s.(mutex := Free), Gave(s.slot))
    case Wait => s.(caller := Blocked, mutex := Free)
    case TimeOut => s.(caller := Woken(true))
    case Wake => s.(caller := Woken(false))  // for no reason at all
    case Relock => s.(caller := Leaving(s.caller.timedOut), mutex := HeldByCaller)
    case Unlock => s.(caller := if s.caller.timedOut then Deciding else Reading, mutex := Free)
    case Decide => if s.awaited == 0 then s.(caller := Reading) else Return(s, Failed)
    case Read => Return(s, Gave(s.slot))
    case Arrive(f) => s.(thread := Got(f))
    case Test => s.(thread := if s.thread.f.typ == s.awaited then Setting(s.thread.f) else Listening)
    case Set => s.(thread := WantsLock, awaited := 0, slot := Some(s.thread.f))
    case TakeLock => s.(thread := Broadcasting, mutex := HeldByThread)
    case Broadcast => s.(thread := Releasing, caller := if s.caller.Blocked? then Woken(false) else s.caller)
    case Release => s.(thread := Listening, mutex := Free)
  }

  function Run(s: State, steps: seq<Step>): Option<State>
    decreases |steps|
  {
    if steps == [] then Some(s)
    else if Enabled(s, steps[0]) then Run(Apply(s, steps[0]), steps[1..])
    else None
  }

  predicate HoldsMutex(c: Caller) {
    c.Arming? || c.Looking? || c.Finding? || c.GoingToWait? || c.Leaving?
  }

  ghost predicate Inv(s: State) {
    && (s.mutex.HeldByCaller? <==> HoldsMutex(s.caller))
    && (s.mutex.HeldByThread? <==> s.thread.Broadcasting? || s.thread.Releasing?)
    && ((s.caller.GoingToWait? || s.caller.Blocked?) && s.awaited == 0 ==>
         s.thread.WantsLock? || s.thread.Broadcasting?)
    && (s.thread.Got? || s.thread.Setting? ==> s.thread.f.typ > MSG_CONNECT)
  }

  lemma StepKeepsInv(s: State, step: Step)
    requires Inv(s) && Enabled(s, step)
    ensures Inv(Apply(s, step))
  {
  }

  lemma {:induction false} RunKeepsInv(s: State, steps: seq<Step>)
    requires Inv(s) && Run(s, steps).Some?
    ensures Inv(Run(s, steps).value)
    decreases |steps|
  {
    hide Inv, Enabled, Apply;
    if steps != [] {
      StepKeepsInv(s, steps[0]);
      RunKeepsInv(Apply(s, steps[0]), steps[1..]);
    }
  }

  ghost predicate Reachable(s: State) {
    exists start, steps :: Start(start) && Run(start, steps) == Some(s)
  }

  lemma ReachableInv(s: State)
    requires Reachable(s)
    ensures Inv(s)
  {
    hide Run;
    var start, steps :| Start(start) && Run(start, steps) == Some(s);
    RunKeepsInv(start, steps);
  }

  /** A Receive asleep while its slot is filled is owed a broadcast, which two steps of the receive
      thread, possible at once, deliver. */
  lemma NoLostWakeup(s: State)
    requires Reachable(s) && s.caller.Blocked? && s.awaited == 0
    ensures
      || (s.thread.Broadcasting? && Apply(s, Broadcast).caller.Woken?)
      || (s.thread.WantsLock? && Enabled(s, TakeLock) && Enabled(Apply(s, TakeLock), Broadcast)
          && Apply(Apply(s, TakeLock), Broadcast).caller.Woken?)
  {
    hide Reachable;
    ReachableInv(s);
  }

  // ---- When Receive gives a frame of the type it named ----

  /** Receive reports success without a frame of the type named. */
  predicate Wrong(typ: Word, result: Result) {
    result.Gave? && !(result.slot.Some? && result.slot.value.typ == typ)
  }

  /** Steps of one call and of the receive thread, without spurious wakes; time-outs may happen. */
  predicate OneCall(steps: seq<Step>) { forall step <- steps :: !step.Call? && !step.Wake? }

  /** A call from its initialisation of the slot on, and what it returns. */
  predicate Returning(s: State, steps: seq<Step>, result: Result) {
    && steps != [] && steps[0] == Arm && OneCall(steps) && Run(s, steps).Some?
    && Run(s, steps).value.returned == s.returned + [(s.typ, result)]
  }

  /** The receive thread has a frame of another type to put into the slot, or a broadcast to make for
      a frame that has been. */
  predicate Stale(s: State) { s.thread.WantsLock? || (s.thread.Setting? && s.thread.f.typ != s.typ) }

  /** From its initialisation on, a call that began with nothing stale sees only its own frame. */
  ghost predicate Sound(s: State) {
    && s.typ != 0 && !s.caller.Outside? && !s.caller.Locking? && !s.caller.Arming?
    && (s.thread.Got? ==> s.thread.f.typ > MSG_CONNECT) && (s.thread.Setting? ==> s.thread.f.typ == s.typ)
    && (if s.awaited == 0 then s.slot.Some? && s.slot.value.typ == s.typ else s.awaited == s.typ)
    && (s.thread.WantsLock? || s.thread.Broadcasting? || s.thread.Releasing? ==> s.awaited == 0)
    && (s.caller == Woken(false) || s.caller == Leaving(false) || s.caller.Reading? || s.caller.Finding? ==>
         s.awaited == 0)
  }

  lemma StepKeepsSound(s: State, step: Step)
    requires Sound(s) && Enabled(s, step) && !step.Call? && !step.Wake?
    ensures
      var s' := Apply(s, step);
      if s'.caller.Outside?
      then |s'.returned| == |s.returned| + 1 && s'.returned[..|s.returned|] == s.returned
           && !Wrong(s.typ, s'.returned[|s.returned|].1)
      else Sound(s') && s'.returned == s.returned && s'.typ == s.typ
  {
  }

  lemma {:induction false} NoMoreReturns(s: State, steps: seq<Step>)
    requires s.caller.Outside? && OneCall(steps) && Run(s, steps).Some?
    ensures Run(s, steps).value.returned == s.returned
    decreases |steps|
  {
    if steps != [] {
      NoMoreReturns(Apply(s, steps[0]), steps[1..]);
    }
  }

  lemma {:induction false} SoundReturns(s: State, steps: seq<Step>, result: Result)
    requires Sound(s) && OneCall(steps) && Run(s, steps).Some?
    requires Run(s, steps).value.returned == s.returned + [(s.typ, result)]
    ensures !Wrong(s.typ, result)
    decreases |steps|
  {
    hide Sound, Enabled, Apply, Wrong;
    if steps != [] {
      var s' := Apply(s, steps[0]);
      StepKeepsSound(s, steps[0]);
      if s'.caller.Outside? {
        NoMoreReturns(s', steps[1..]);
        assert s'.returned[|s.returned|] == (s.typ, result);
      } else {
        SoundReturns(s', steps[1..], result);
      }
    }
  }

  lemma SoundAfterArm(s: State)
    requires Inv(s) && s.caller.Arming? && s.typ != 0 && !Stale(s)
    ensures Sound(Apply(s, Arm))
  {
  }

  /** A Receive can report success without a frame of its type, no spurious wake helping, if and only
      if it names type 0 or, when it initialises its slot, the receive thread stands between matching a
      frame of another type and filling the slot, or between filling it and taking the mutex. */
  lemma ReceiveCanGiveWrongIff(s: State)
    requires Reachable(s) && s.caller.Arming?
    ensures (exists steps, result :: Returning(s, steps, result) && Wrong(s.typ, result)) <==> s.typ == 0 || Stale(s)
  {
    hide Reachable, Run, OneCall, Apply, Sound, Wrong, Inv;
    ReachableInv(s);
    if s.typ == 0 || Stale(s) {
      var steps, result := WrongRun(s);
    } else {
      forall steps, result | Returning(s, steps, result)
        ensures !Wrong(s.typ, result)
      {
        SoundAfterArm(s);
        AfterArm(s, steps, result);
      }
    }
  }

  lemma AfterArm(s: State, steps: seq<Step>, result: Result)
    requires Enabled(s, Arm) && Sound(Apply(s, Arm)) && Returning(s, steps, result)
    ensures !Wrong(s.typ, result)
  {
    hide Sound, Wrong;
    SoundReturns(Apply(s, Arm), steps[1..], result);
  }

  lemma RunOne(s: State, step: Step, later: seq<Step>)
    requires Enabled(s, step)
    ensures Run(s, [step] + later) == Run(Apply(s, step), later)
  {
    assert ([step] + later)[1..] == later;
  }

  lemma RunThree(s: State, a: Step, b: Step, c: Step, later: seq<Step>)
    requires Enabled(s, a) && Enabled(Apply(s, a), b) && Enabled(Apply(Apply(s, a), b), c)
    ensures Run(s, [a, b, c] + later) == Run(Apply(Apply(Apply(s, a), b), c), later)
  {
    hide Enabled, Apply;
    assert [a, b, c] + later == [a] + ([b] + ([c] + later));
    RunOne(s, a, [b] + ([c] + later));
    RunOne(Apply(s, a), b, [c] + later);
    RunOne(Apply(Apply(s, a), b), c, later);
  }

  lemma RunNothing(s: State)
    ensures Run(s, []) == Some(s)
  {
  }

  lemma WrongRun(s: State) returns (steps: seq<Step>, result: Result)
    requires Inv(s) && s.caller.Arming? && (s.typ == 0 || Stale(s))
    ensures Returning(s, steps, result) && Wrong(s.typ, result)
  {
    hide Returning, Wrong;
    if s.typ == 0 {
      steps, result := NoTypeRun(s);
    } else if s.thread.Setting? {
      steps, result := OtherFrameRun(s);
    } else {
      steps, result := StaleBroadcastRun(s);
    }
  }

  /** Naming type 0, the call finds its slot filled with nothing. */
  lemma NoTypeRun(s: State) returns (steps: seq<Step>, result: Result)
    requires s.caller.Arming? && s.typ == 0
    ensures Returning(s, steps, result) && Wrong(s.typ, result)
  {
    hide Run;
    steps, result := [Arm, Look, Find] + [], Gave(None);
    RunThree(s, Arm, Look, Find, []);
    RunNothing(Apply(Apply(Apply(s, Arm), Look), Find));
  }

  /** A frame matched for an earlier call, which has timed out, is put into this call's slot. */
  lemma OtherFrameRun(s: State) returns (steps: seq<Step>, result: Result)
    requires s.caller.Arming? && s.thread.Setting? && s.thread.f.typ != s.typ
    ensures Returning(s, steps, result) && Wrong(s.typ, result)
  {
    hide Run;
    steps, result := [Arm, Set, Look] + ([Find] + []), Gave(Some(s.thread.f));
    RunThree(s, Arm, Set, Look, [Find] + []);
    var s3 := Apply(Apply(Apply(s, Arm), Set), Look);
    RunOne(s3, Find, []);
    RunNothing(Apply(s3, Find));
  }

  /** The broadcast for a frame that an earlier call has taken wakes this call. */
  lemma StaleBroadcastRun(s: State) returns (steps: seq<Step>, result: Result)
    requires s.caller.Arming? && s.thread.WantsLock? && s.typ != 0
    ensures Returning(s, steps, result) && Wrong(s.typ, result)
  {
    hide Run;
    var rest := [Relock, Unlock, Read] + [];
    steps, result := [Arm, Look, Wait] + ([TakeLock, Broadcast, Release] + rest), Gave(None);
    var woken := WokenByStaleBroadcast(s, rest);
    RunThree(woken, Relock, Unlock, Read, []);
    RunNothing(Apply(Apply(Apply(woken, Relock), Unlock), Read));
  }

  lemma WokenByStaleBroadcast(s: State, rest: seq<Step>) returns (woken: State)
    requires s.caller.Arming? && s.thread.WantsLock? && s.typ != 0
    ensures
      woken == s.(caller := Woken(false), thread := Listening, mutex := Free, awaited := s.typ, slot := None)
    ensures Run(s, [Arm, Look, Wait] + ([TakeLock, Broadcast, Release] + rest)) == Run(woken, rest)
  {
    hide Run;
    RunThree(s, Arm, Look, Wait, [TakeLock, Broadcast, Release] + rest);
    var asleep := Apply(Apply(Apply(s, Arm), Look), Wait);
    RunThree(asleep, TakeLock, Broadcast, Release, rest);
    woken := Apply(Apply(Apply(asleep, TakeLock), Broadcast), Release);
  }

  /** So it comes about: a call times out just when a frame of its type is matched, and the next call,
      which names another type, is given that frame. */
  lemma LateFrameReachesNextCall(start: State, f: Frame, typ: Word) returns (steps: seq<Step>, end: State)
    requires Start(start) && f.typ > MSG_CONNECT && typ != f.typ
    ensures Run(start, steps) == Some(end) && end.returned == [(f.typ, Failed), (typ, Gave(Some(f)))]
  {
    hide Run;
    var rest := [Lock, Arm, Set] + ([Look, Find] + []);
    steps := [Call(f.typ), Lock, Arm] + ([Look, Wait, Arrive(f)] + ([Test, TimeOut, Relock]
              + ([Unlock, Decide, Call(typ)] + rest)));
    var next := TimesOut(start, f, typ, rest);
    RunThree(next, Lock, Arm, Set, [Look, Find] + []);
    var filled := Apply(Apply(Apply(next, Lock), Arm), Set);
    assert [Look, Find] + [] == [Look] + ([Find] + []);
    RunOne(filled, Look, [Find] + []);
    RunOne(Apply(filled, Look), Find, []);
    end := Apply(Apply(filled, Look), Find);
    RunNothing(end);
  }

  lemma TimesOut(start: State, f: Frame, typ: Word, rest: seq<Step>) returns (next: State)
    requires Start(start) && f.typ > MSG_CONNECT
    ensures
      next == start.(caller := Locking, thread := Setting(f), typ := typ, awaited := f.typ,
                     returned := [(f.typ, Failed)])
    ensures
      Run(start, [Call(f.typ), Lock, Arm] + ([Look, Wait, Arrive(f)] + ([Test, TimeOut, Relock]
            + ([Unlock, Decide, Call(typ)] + rest))))
        == Run(next, rest)
  {
    hide Run;
    var later := [Test, TimeOut, Relock] + ([Unlock, Decide, Call(typ)] + rest);
    var s := Asleep(start, f, later);
    RunThree(s, Test, TimeOut, Relock, [Unlock, Decide, Call(typ)] + rest);
    var t := Apply(Apply(Apply(s, Test), TimeOut), Relock);
    RunThree(t, Unlock, Decide, Call(typ), rest);
    next := Apply(Apply(Apply(t, Unlock), Decide), Call(typ));
  }

  lemma Asleep(start: State, f: Frame, later: seq<Step>) returns (s: State)
    requires Start(start) && f.typ > MSG_CONNECT
    ensures s == start.(caller := Blocked, thread := Got(f), typ := f.typ, awaited := f.typ)
    ensures Run(start, [Call(f.typ), Lock, Arm] + ([Look, Wait, Arrive(f)] + later)) == Run(s, later)
  {
    hide Run;
    RunThree(start, Call(f.typ), Lock, Arm, [Look, Wait, Arrive(f)] + later);
    var armed := Apply(Apply(Apply(start, Call(f.typ)), Lock), Arm);
    RunThree(armed, Look, Wait, Arrive(f), later);
    s := Apply(Apply(Apply(armed, Look), Wait), Arrive(f));
  }

  /** A spurious wake makes a Receive report success with nothing. */
  lemma SpuriousWakeGivesNothing(start: State, typ: Word) returns (steps: seq<Step>, end: State)
    requires Start(start) && typ != 0
    ensures Run(start, steps) == Some(end) && end.returned == [(typ, Gave(None))]
  {
    hide Run;
    var rest := [Unlock, Read] + [];
    steps := [Call(typ), Lock, Arm] + ([Look, Wait, Wake] + ([Relock] + rest));
    RunThree(start, Call(typ), Lock, Arm, [Look, Wait, Wake] + ([Relock] + rest));
    var armed := Apply(Apply(Apply(start, Call(typ)), Lock), Arm);
    RunThree(armed, Look, Wait, Wake, [Relock] + rest);
    var woken := Apply(Apply(Apply(armed, Look), Wait), Wake);
    RunOne(woken, Relock, rest);
    assert rest == [Unlock] + ([Read] + []);
    RunOne(Apply(woken, Relock), Unlock, [Read] + []);
    end := Apply(Apply(Apply(woken, Relock), Unlock), Read);
    RunOne(Apply(Apply(woken, Relock), Unlock), Read, []);
    RunNothing(end);
  }

  // ---- What Receive returns ----

  /** A call that has timed out looks once more: it fails if and only if the slot is still waiting, and
      otherwise gives what the slot holds. */
  lemma TimedOutCallLooksAgain(s: State)
    requires Reachable(s) && s.caller.Deciding?
    ensures s.awaited != 0 ==> Apply(s, Decide).returned == s.returned + [(s.typ, Failed)]
    ensures s.awaited == 0 ==>
      && Enabled(Apply(s, Decide), Read)
      && Apply(Apply(s, Decide), Read).returned == s.returned + [(s.typ, Gave(s.slot))]
  {
  }

  /** A call that cannot read the clock fails, with its slot still waiting for the type it named unless
      it has been filled. */
  lemma ClockFailureFails(s: State)
    requires s.caller.Looking?
    ensures Apply(s, ClockFails) == s.(caller := Outside, mutex := Free, returned := s.returned + [(s.typ, Failed)])
  {
  }

  predicate InCall(s: State) { !s.caller.Outside? && !s.caller.Locking? && !s.caller.Arming? }

  predicate Filled(s: State, f: Frame) {
    InCall(s) && s.awaited == 0 && s.slot == Some(f) && !s.thread.Setting? && (s.thread.Got? ==> s.thread.f.typ != 0)
  }

  lemma StepKeepsFilled(s: State, step: Step, f: Frame)
    requires Filled(s, f) && Enabled(s, step) && !step.Call? && !step.ClockFails?
    ensures
      var s' := Apply(s, step);
      if s'.caller.Outside? then s'.returned == s.returned + [(s.typ, Gave(Some(f)))]
      else Filled(s', f) && s'.returned == s.returned && s'.typ == s.typ
  {
  }

  predicate NoClockFailure(steps: seq<Step>) { forall step <- steps :: !step.ClockFails? }

  /** Once the slot of a call is filled, the call gives that frame, time-outs notwithstanding. */
  lemma {:induction false} FilledSlotIsGiven(s: State, f: Frame, steps: seq<Step>, result: Result)
    requires Filled(s, f) && OneCall(steps) && NoClockFailure(steps) && Run(s, steps).Some?
    requires Run(s, steps).value.returned == s.returned + [(s.typ, result)]
    ensures result == Gave(Some(f))
    decreases |steps|
  {
    hide Filled, Enabled, Apply;
    if steps != [] {
      var s' := Apply(s, steps[0]);
      StepKeepsFilled(s, steps[0], f);
      if s'.caller.Outside? {
        NoMoreReturns(s', steps[1..]);
        assert s'.returned[|s.returned|] == (s.typ, result);
      } else {
        FilledSlotIsGiven(s', f, steps[1..], result);
      }
    }
  }

  /** The frame put into the slot before the call returns, if any. */
  function Fill(s: State, steps: seq<Step>): Option<Frame>
    requires Run(s, steps).Some?
    decreases |steps|
  {
    if steps == [] || s.caller.Outside? then None
    else if steps[0].Set? then Some(s.thread.f)
    else Fill(Apply(s, steps[0]), steps[1..])
  }

  lemma FillingFills(s: State)
    requires Sound(s) && s.thread.Setting?
    ensures Filled(Apply(s, Set), s.thread.f) && Apply(s, Set).returned == s.returned && Apply(s, Set).typ == s.typ
  {
  }

  /** A step that does not fill the slot leaves it waiting; a call that then returns has failed. */
  lemma UnfilledStep(s: State, step: Step)
    requires Sound(s) && s.awaited != 0 && Enabled(s, step)
    requires !step.Call? && !step.Wake? && !step.Set? && !step.ClockFails?
    ensures
      var s' := Apply(s, step);
      if s'.caller.Outside? then s'.returned == s.returned + [(s.typ, Failed)]
      else Sound(s') && s'.awaited != 0 && s'.returned == s.returned && s'.typ == s.typ
  {
  }

  lemma {:induction false} UnfilledReturns(s: State, steps: seq<Step>, result: Result)
    requires Sound(s) && s.awaited != 0 && OneCall(steps) && NoClockFailure(steps) && Run(s, steps).Some?
    requires Run(s, steps).value.returned == s.returned + [(s.typ, result)]
    ensures result == match Fill(s, steps) { case None => Failed case Some(f) => Gave(Some(f)) }
    decreases |steps|
  {
    hide Filled, Apply;
    if steps != [] {
      var s' := Apply(s, steps[0]);
      if steps[0].Set? {
        FillingFills(s);
        FilledSlotIsGiven(s', s.thread.f, steps[1..], result);
      } else {
        UnfilledStep(s, steps[0]);
        if s'.caller.Outside? {
          NoMoreReturns(s', steps[1..]);
          assert s'.returned[|s.returned|] == (s.typ, result);
          NothingFilled(s', steps[1..]);
        } else {
          UnfilledReturns(s', steps[1..], result);
        }
      }
    }
  }

  lemma NothingFilled(s: State, steps: seq<Step>)
    requires s.caller.Outside? && Run(s, steps).Some?
    ensures Fill(s, steps) == None
  {
  }

  /** The exact answer of a Receive that begins with nothing stale, in every interleaving without
      spurious wakes and a failing clock: it gives the frame put into its slot before it returns, which
      is of the type it named, and fails if there was none. */
  lemma ReceiveReturnsExactly(s: State, steps: seq<Step>, result: Result)
    requires Reachable(s) && s.caller.Arming? && s.typ != 0 && !Stale(s)
    requires Returning(s, steps, result) && NoClockFailure(steps)
    ensures result == match Fill(s, steps) { case None => Failed case Some(f) => Gave(Some(f)) }
    ensures !Wrong(s.typ, result)
  {
    hide Reachable, Sound, Wrong, OneCall, Run;
    ReachableInv(s);
    SoundAfterArm(s);
    AfterArm(s, steps, result);
    FirstIsArm(s, steps, result);
    UnfilledReturns(Apply(s, Arm), steps[1..], result);
  }

  lemma FirstIsArm(s: State, steps: seq<Step>, result: Result)
    requires s.caller.Arming? && Returning(s, steps, result)
    ensures OneCall(steps[1..]) && Run(Apply(s, Arm), steps[1..]) == Run(s, steps)
    ensures Fill(s, steps) == Fill(Apply(s, Arm), steps[1..])
  {
  }
}
