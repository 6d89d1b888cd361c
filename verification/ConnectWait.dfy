/** Connect's wait for the server's connect message, which its new receive thread announces. */
module ConnectWait {
  import opened Options

  /** Where the calling thread is inside Connect. */
  datatype Caller =
    | Creating      // holds _cond_connect_obj; will create the receive thread
    | Timing        // holds it; will read the clock
    | GoingToWait   // holds it; will wait
    | Blocked       // released it; waits on _cond_connect
    | Woken(timedOut: bool)    // will take it again
    | Leaving(timedOut: bool)  // holds it; will release it
    | Done(connected: bool)

  /** Where the receive thread is, once created. */
  datatype Thread = NotRunning | Listening | WantsLock | Broadcasting | Releasing

  datatype Mutex = Free | HeldByCaller | HeldByThread

  datatype State = State(
    caller: Caller,
    thread: Thread,
    mutex: Mutex,
    heard: nat,        // history: connect messages received
    announced: nat)    // history: broadcasts made for them

  datatype Step =
    | Create | CreateFails | Clock | ClockFails | Wait | TimeOut | Wake | Relock | Unlock
    | Hear | TakeLock | Broadcast | Release

  const START := State(Creating, NotRunning, HeldByCaller, 0, 0)

  predicate Enabled(s: State, step: Step) {
    match step
    case Create => s.caller.Creating?
    case CreateFails => s.caller.Creating?
    case Clock => s.caller.Timing?
    case ClockFails => s.caller.Timing?
    case Wait => s.caller.GoingToWait?
    case TimeOut => s.caller.Blocked?
    case Wake => s.caller.Blocked?
    case Relock => s.caller.Woken? && s.mutex.Free?
    case Unlock => s.caller.Leaving?
    case Hear => s.thread.Listening?
    case TakeLock => s.thread.WantsLock? && s.mutex.Free?
    case Broadcast => s.thread.Broadcasting?
    case Release => s.thread.Releasing?
  }

  function Apply(s: State, step: Step): State
    requires Enabled(s, step)
  {
    match step
    case Create => s.(caller := Timing, thread := Listening)
    case CreateFails => s.(caller := Done(false), mutex := Free)
    case Clock => s.(caller := GoingToWait)
    case ClockFails => s.(caller := Done(false), mutex := Free)
    case Wait => s.(caller := Blocked, mutex := Free)
    case TimeOut => s.(caller := Woken(true))
    case Wake => s.(caller := Woken(false))  // for no reason at all
    case Relock => s.(caller := Leaving(s.caller.timedOut), mutex := HeldByCaller)
    case Unlock => s.(caller := Done(!s.caller.timedOut), mutex := Free)
    case Hear => s.(thread := WantsLock, heard := s.heard + 1)
    case TakeLock => s.(thread := Broadcasting, mutex := HeldByThread)
    case Broadcast =>
      s.(thread := Releasing, announced := s.announced + 1,
         caller := if s.caller.Blocked? then Woken(false) else s.caller)
    case Release => s.(thread := Listening, mutex := Free)
  }

  function Run(s: State, steps: seq<Step>): Option<State>
    decreases |steps|
  {
    if steps == [] then Some(s)
    else if Enabled(s, steps[0]) then Run(Apply(s, steps[0]), steps[1..])
    else None
  }

  predicate HoldsMutex(c: Caller) { c.Creating? || c.Timing? || c.GoingToWait? || c.Leaving? }

  /** Nothing can be announced before the wait, since Connect holds the mutex from before the receive
      thread exists. */
  ghost predicate Inv(s: State) {
    && (s.mutex.HeldByCaller? <==> HoldsMutex(s.caller))
    && (s.mutex.HeldByThread? <==> s.thread.Broadcasting? || s.thread.Releasing?)
    && (s.caller.Creating? ==> s.thread.NotRunning?)
    && (s.caller.Creating? || s.caller.Timing? || s.caller.GoingToWait? || s.caller.Blocked? ==> s.announced == 0)
    && (s.heard == s.announced + (if s.thread.WantsLock? || s.thread.Broadcasting? then 1 else 0))
  }

  lemma StepKeepsInv(s: State, step: Step)
    requires Inv(s) && Enabled(s, step)
    ensures Inv(Apply(s, step))
  {
  }

  /** Without spurious wakes only an announcement wakes the caller without a time-out. */
  ghost predicate Announced(s: State) {
    s.caller == Woken(false) || s.caller == Leaving(false) || s.caller == Done(true) ==> s.announced > 0
  }

  lemma {:induction false} RunKeepsInv(s: State, steps: seq<Step>)
    requires Inv(s) && Run(s, steps).Some?
    ensures Inv(Run(s, steps).value)
    ensures Announced(s) && (forall step <- steps :: !step.Wake?) ==> Announced(Run(s, steps).value)
    decreases |steps|
  {
    hide Inv;
    if steps != [] {
      StepKeepsInv(s, steps[0]);
      RunKeepsInv(Apply(s, steps[0]), steps[1..]);
    }
  }

  /** Connect never sleeps through an announcement: as long as it waits none has been made, and for any
      connect message received one is owed, which two steps of the receive thread deliver. */
  lemma NoLostWakeup(steps: seq<Step>)
    requires Run(START, steps).Some? && Run(START, steps).value.caller.Blocked?
    ensures
      var s := Run(START, steps).value;
      && s.announced == 0
      && (s.heard > 0 ==>
           || (s.thread.Broadcasting? && Apply(s, Broadcast).caller.Woken?)
           || (s.thread.WantsLock? && Enabled(s, TakeLock) && Apply(Apply(s, TakeLock), Broadcast).caller.Woken?))
  {
    RunKeepsInv(START, steps);
  }

  /** Without spurious wakes, Connect reports success only after a connect message. */
  lemma ConnectedMeansHeard(steps: seq<Step>)
    requires Run(START, steps).Some? && (forall step <- steps :: !step.Wake?)
    ensures Run(START, steps).value.caller == Done(true) ==> Run(START, steps).value.heard > 0
  {
    RunKeepsInv(START, steps);
  }

  /** The wait has ended, or will end, as it does without a failure or time-out so far. */
  predicate Succeeding(s: State) {
    match s.caller
    case Woken(timedOut) => !timedOut
    case Leaving(timedOut) => !timedOut
    case Done(connected) => connected
    case _ => true
  }

  predicate Hinders(step: Step) { step.CreateFails? || step.ClockFails? || step.TimeOut? }

  lemma StepDecides(s: State, step: Step)
    requires Enabled(s, step)
    ensures Succeeding(Apply(s, step)) <==> Succeeding(s) && !Hinders(step)
  {
  }

  lemma {:induction false} RunDecides(s: State, steps: seq<Step>)
    requires Run(s, steps).Some?
    ensures Succeeding(Run(s, steps).value) <==> Succeeding(s) && forall step <- steps :: !Hinders(step)
    decreases |steps|
  {
    hide Succeeding, Enabled, Apply, Hinders;
    if steps != [] {
      StepDecides(s, steps[0]);
      RunDecides(Apply(s, steps[0]), steps[1..]);
    }
  }

  /** Connect reports success if and only if its thread was created, the clock read, and the wait not
      timed out. */
  lemma ConnectsIff(steps: seq<Step>, connected: bool)
    requires Run(START, steps).Some? && Run(START, steps).value.caller == Done(connected)
    ensures connected <==> forall step <- steps :: !step.CreateFails? && !step.ClockFails? && !step.TimeOut?
  {
    hide Run;
    RunDecides(START, steps);
    assert forall step <- steps :: Hinders(step) <==> step.CreateFails? || step.ClockFails? || step.TimeOut?;
  }

  /** The way a connection is made: the thread is created and the clock read before the wait, and the
      server's message, heard meanwhile, is announced and ends the wait. */
  lemma ConnectionIsMade() returns (steps: seq<Step>)
    ensures Run(START, steps) == Some(State(Done(true), Listening, Free, 1, 1))
  {
    hide Run;
    var rest := [Broadcast, Release, Relock] + ([Unlock] + []);
    steps := [Create, Clock, Wait] + ([Hear] + ([TakeLock] + rest));
    RunThree(START, Create, Clock, Wait, [Hear] + ([TakeLock] + rest));
    var asleep := State(Blocked, Listening, Free, 0, 0);
    assert Apply(Apply(Apply(START, Create), Clock), Wait) == asleep;
    RunOne(asleep, Hear, [TakeLock] + rest);
    RunOne(Apply(asleep, Hear), TakeLock, rest);
    var owed := State(Blocked, Broadcasting, HeldByThread, 1, 0);
    assert Apply(Apply(asleep, Hear), TakeLock) == owed;
    RunThree(owed, Broadcast, Release, Relock, [Unlock] + []);
    var leaving := State(Leaving(false), Listening, HeldByCaller, 1, 1);
    assert Apply(Apply(Apply(owed, Broadcast), Release), Relock) == leaving;
    RunOne(leaving, Unlock, []);
    RunNothing(Apply(leaving, Unlock));
  }

  lemma RunOne(s: State, step: Step, later: seq<Step>)
    requires Enabled(s, step)
    ensures Run(s, [step] + later) == Run(Apply(s, step), later)
  {
    assert ([step] + later)[1..] == later;
  }

  lemma RunThree(s: State, a: Step, b: Step, c: Step, later: seq<Step>)
    requires Enabled(s, a) && Enabled(Apply(s, a), b) && Enabled(Apply(Apply(s, a), b), c)
    ensures Run(s, [a, b, c] + later) == Run(Apply(Apply(Apply(s, a), b), c), later)
  {
    hide Enabled, Apply;
    assert [a, b, c] + later == [a] + ([b] + ([c] + later));
    RunOne(s, a, [b] + ([c] + later));
    RunOne(Apply(s, a), b, [c] + later);
    RunOne(Apply(Apply(s, a), b), c, later);
  }

  lemma RunNothing(s: State)
    ensures Run(s, []) == Some(s)
  {
  }

  /** When the thread could not be created, Connect has failed and nothing more happens. */
  lemma FailedCreationIsFinal(s: State, step: Step)
    requires s.caller.Creating? && s.thread.NotRunning?
    ensures Apply(s, CreateFails) == s.(caller := Done(false), mutex := Free)
    ensures !Enabled(Apply(s, CreateFails), step)
  {
  }
}
