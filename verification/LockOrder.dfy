/** The mutexes of the client, its executer and its queue: a static check of lock order, its
    soundness for any number of interleaved threads, and the check of the client's own code. */
module LockOrder {
  import opened Options

  datatype Mutex =
    | CondObj | CondExitObj | CondConnectObj | CondReceiveObj
    | SendObj | SendSucceededObj | LastSentObj | ReplyHashObj | KeepRunningObj | ConnectingObj | ReceiveObj
    | QueueObj | ExecuterCondObj | ExecuterRunObj

  /** The global order: the four mutexes held across other calls come first. */
  function Rank(m: Mutex): nat {
    if m.CondObj? || m.CondExitObj? || m.CondConnectObj? || m.CondReceiveObj? then 0 else 1
  }

  // ---- Code as far as locking goes ----

  datatype Code =
    | Skip
    | Lock(m: Mutex)
    | Unlock(m: Mutex)
    | Wait(m: Mutex)     // pthread_cond_wait or timedwait with this mutex
    | Asleep(m: Mutex)   // inside such a wait, the mutex released
    | Seq(first: Code, second: Code)
    | Either(one: Code, other: Code)
    | Repeat(body: Code)

  /** A thread holds some mutexes and has a stack of code to run. */
  datatype Thread = Thread(held: set<Mutex>, todo: seq<Code>)

  /** Mutexes held after the code, or None if it could take them out of order, release one it does not
      hold, or wait while holding another. */
  function Check(held: set<Mutex>, code: Code): Option<set<Mutex>>
    decreases code
  {
    match code
    case Skip => Some(held)
    case Lock(m) => if forall h <- held :: Rank(h) < Rank(m) then Some(held + {m}) else None
    case Unlock(m) => if m in held then Some(held - {m}) else None
    case Wait(m) => if held == {m} then Some(held) else None
    case Asleep(m) => if held == {} then Some({m}) else None
    case Seq(first, second) =>
      var after := Check(held, first);
      if after.None? then None else Check(after.value, second)
    case Either(one, other) =>
      if Check(held, one) == Check(held, other) then Check(held, one) else None
    case Repeat(body) => if Check(held, body) == Some(held) then Some(held) else None
  }

  function CheckAll(held: set<Mutex>, todo: seq<Code>): Option<set<Mutex>>
    decreases |todo|
  {
    if todo == [] then Some(held)
    else
      var after := Check(held, todo[0]);
      if after.None? then None else CheckAll(after.value, todo[1..])
  }

  predicate Ordered(t: Thread) { CheckAll(t.held, t.todo) == Some({}) }

  // ---- Interleaved execution ----

  type State = seq<Thread>

  predicate Holds(s: State, i: nat, m: Mutex) { i < |s| && m in s[i].held }

  predicate Wants(s: State, i: nat, m: Mutex) { i < |s| && s[i].todo != [] && s[i].todo[0] == Lock(m) }

  ghost predicate Taken(s: State, m: Mutex) { exists j: nat :: Holds(s, j, m) }

  predicate Done(t: Thread) { t.todo == [] }
  predicate Sleeps(t: Thread) { t.todo != [] && t.todo[0].Asleep? }

  /** The thread can take a step of its own: it is not done, asleep, or in need of a taken mutex. */
  ghost predicate CanStep(s: State, i: nat) {
    i < |s| && !Done(s[i]) && !Sleeps(s[i])
    && (s[i].todo[0].Lock? ==> !Taken(s, s[i].todo[0].m))
  }

  /** One step of a thread; choice settles Either and Repeat, and a sleeper may be woken at any time. */
  function Stepped(t: Thread, choice: bool): Thread
    requires !Done(t)
  {
    var rest := t.todo[1..];
    match t.todo[0]
    case Skip => t.(todo := rest)
    case Lock(m) => Thread(t.held + {m}, rest)
    case Unlock(m) => Thread(t.held - {m}, rest)
    case Wait(m) => Thread(t.held - {m}, [Asleep(m)] + rest)
    case Asleep(m) => t.(todo := [Lock(m)] + rest)
    case Seq(first, second) => t.(todo := [first, second] + rest)
    case Either(one, other) => t.(todo := [if choice then one else other] + rest)
    case Repeat(body) => t.(todo := if choice then [body, Repeat(body)] + rest else rest)
  }

  ghost predicate Step(s: State, s': State) {
    exists i: nat, choice ::
      i < |s| && (CanStep(s, i) || Sleeps(s[i])) && s' == s[i := Stepped(s[i], choice)]
  }

  ghost predicate Execution(states: seq<State>) {
    states != [] && forall k: nat :: k + 1 < |states| ==> Step(states[k], states[k + 1])
  }

  ghost predicate Inv(s: State) {
    && (forall t <- s :: Ordered(t))
    && (forall i: nat, j: nat, m :: Holds(s, i, m) && Holds(s, j, m) ==> i == j)
  }

  // ---- Soundness of the check ----

  lemma StepKeepsOrder(t: Thread, choice: bool)
    requires Ordered(t) && !Done(t)
    ensures Ordered(Stepped(t, choice))
    ensures Stepped(t, choice).held <= t.held + (if t.todo[0].Lock? then {t.todo[0].m} else {})
  {
    hide CheckAll;
    var c, rest := t.todo[0], t.todo[1..];
    assert t.todo == [c] + rest;
    CheckFirst(t.held, c, rest);
    match c
    case Wait(m) =>
      assert t.held - {m} == {};
      CheckFirst({}, Asleep(m), rest);
    case Asleep(m) =>
      assert t.held + {m} == {m};
      CheckFirst({}, Lock(m), rest);
    case Seq(first, second) =>
      assert [first, second] + rest == [first] + ([second] + rest);
      CheckFirst(t.held, first, [second] + rest);
      CheckFirst(Check(t.held, first).value, second, rest);
    case Either(one, other) =>
      CheckFirst(t.held, one, rest);
      CheckFirst(t.held, other, rest);
    case Repeat(body) =>
      assert [body, Repeat(body)] + rest == [body] + ([Repeat(body)] + rest);
      CheckFirst(t.held, body, [Repeat(body)] + rest);
    case _ =>
  }

  lemma CheckFirst(held: set<Mutex>, c: Code, rest: seq<Code>)
    ensures CheckAll(held, [c] + rest)
         == if Check(held, c).None? then None else CheckAll(Check(held, c).value, rest)
  {
    assert ([c] + rest)[1..] == rest;
  }

  lemma StepKeepsInv(s: State, s': State)
    requires Inv(s) && Step(s, s')
    ensures Inv(s')
  {
    hide Ordered, Stepped;
    var i: nat, choice :| i < |s| && (CanStep(s, i) || Sleeps(s[i])) && s' == s[i := Stepped(s[i], choice)];
    StepKeepsOrder(s[i], choice);
    assert forall j: nat, m :: Holds(s', j, m) && j != i ==> Holds(s, j, m);
    assert forall m :: Holds(s', i, m) ==> Holds(s, i, m) || !Taken(s, m);
    assert forall k: nat, m :: Holds(s, k, m) ==> Taken(s, m);
    forall j: nat, k: nat, m | Holds(s', j, m) && Holds(s', k, m)
      ensures j == k
    {
    }
  }

  lemma {:induction false} ExecutionKeepsInv(states: seq<State>)
    requires Execution(states) && Inv(states[0])
    ensures Inv(states[|states| - 1])
  {
    if |states| > 1 {
      var before := states[..|states| - 1];
      assert forall k: nat :: k + 1 < |before| ==> Step(before[k], before[k + 1]);
      ExecutionKeepsInv(before);
      StepKeepsInv(before[|before| - 1], states[|states| - 1]);
    }
  }

  // ---- No cycles, and progress ----

  /** Thread i is stuck on a mutex that thread j holds. */
  ghost predicate WaitsFor(s: State, i: nat, j: nat) {
    exists m :: Wants(s, i, m) && Holds(s, j, m)
  }

  ghost predicate Chain(s: State, c: seq<nat>) {
    forall k: nat :: k + 1 < |c| ==> WaitsFor(s, c[k], c[k + 1])
  }

  lemma WantedIsHigher(s: State, i: nat, held: Mutex, wanted: Mutex)
    requires Inv(s) && Holds(s, i, held) && Wants(s, i, wanted)
    ensures Rank(held) < Rank(wanted)
  {
    assert Ordered(s[i]);
  }

  /** Along a chain of waiting threads the mutexes they want climb in rank. */
  lemma {:induction false} ChainClimbs(s: State, c: seq<nat>, first: Mutex, last: Mutex)
    requires Inv(s) && Chain(s, c) && |c| >= 2
    requires Wants(s, c[0], first) && Holds(s, c[1], first) && Wants(s, c[|c| - 1], last)
    ensures Rank(first) < Rank(last)
  {
    WantedIsHigherIfWanting(s, c[1], first);
    if |c| > 2 {
      assert WaitsFor(s, c[1], c[2]);
      var next :| Wants(s, c[1], next) && Holds(s, c[2], next);
      assert forall k: nat :: k + 1 < |c[1..]| ==> WaitsFor(s, c[1..][k], c[1..][k + 1]) by {
        forall k: nat | k + 1 < |c[1..]| ensures WaitsFor(s, c[1..][k], c[1..][k + 1]) {
          assert WaitsFor(s, c[k + 1], c[k + 2]);
        }
      }
      ChainClimbs(s, c[1..], next, last);
    }
  }

  lemma WantedIsHigherIfWanting(s: State, i: nat, held: Mutex)
    requires Inv(s) && Holds(s, i, held)
    ensures forall m :: Wants(s, i, m) ==> Rank(held) < Rank(m)
  {
    forall m | Wants(s, i, m) ensures Rank(held) < Rank(m) {
      WantedIsHigher(s, i, held, m);
    }
  }

  /** No state reached from ordered threads has threads waiting for each other in a cycle. */
  lemma NoWaitCycle(states: seq<State>, c: seq<nat>)
    requires Execution(states) && Inv(states[0])
    requires c != [] && Chain(states[|states| - 1], c)
    ensures !WaitsFor(states[|states| - 1], c[|c| - 1], c[0])
  {
    var s := states[|states| - 1];
    ExecutionKeepsInv(states);
    if WaitsFor(s, c[|c| - 1], c[0]) {
      var m :| Wants(s, c[|c| - 1], m) && Holds(s, c[0], m);
      if |c| == 1 {
        WantedIsHigher(s, c[0], m, m);
      } else {
        assert WaitsFor(s, c[0], c[1]);
        var first :| Wants(s, c[0], first) && Holds(s, c[1], first);
        WantedIsHigher(s, c[0], m, first);
        ChainClimbs(s, c, first, m);
      }
    }
  }

  /** A thread that holds a mutex is neither done nor asleep. */
  lemma HoldersAreAwake(t: Thread)
    requires Ordered(t) && t.held != {}
    ensures !Done(t) && !Sleeps(t)
  {
  }

  /** As long as some thread is neither done nor asleep, some thread can take a step. */
  lemma Progress(states: seq<State>, i: nat) returns (j: nat)
    requires Execution(states) && Inv(states[0])
    requires i < |states[|states| - 1]| && !Done(states[|states| - 1][i]) && !Sleeps(states[|states| - 1][i])
    ensures CanStep(states[|states| - 1], j)
  {
    ExecutionKeepsInv(states);
    j := SomeoneSteps(states[|states| - 1], i);
  }

  lemma {:induction false} SomeoneSteps(s: State, i: nat) returns (j: nat)
    requires Inv(s) && i < |s| && !Done(s[i]) && !Sleeps(s[i])
    ensures CanStep(s, j)
    decreases if s[i].todo[0].Lock? then 1 - Rank(s[i].todo[0].m) else 2
  {
    j := i;
    if !CanStep(s, i) {
      var m := s[i].todo[0].m;
      var k: nat :| Holds(s, k, m);
      assert Ordered(s[k]);
      HoldersAreAwake(s[k]);
      if !CanStep(s, k) {
        WantedIsHigher(s, k, m, s[k].todo[0].m);
        j := SomeoneSteps(s, k);
      } else {
        j := k;
      }
    }
  }

  // ---- The code of the client ----

  /** A mutex taken around a few statements that take no other. */
  function Brief(m: Mutex): Code { Seq(Lock(m), Unlock(m)) }

  /** A call, or an early return. */
  function Maybe(code: Code): Code { Either(Skip, code) }

  const IS_SEND_SUCCEEDED := Maybe(Brief(SendSucceededObj))
  const KEEP_RECEIVING := Maybe(Brief(KeepRunningObj))
  const CORE_SEND := Brief(SendObj)
  const STOP_SEND_WAITING := Brief(CondObj)

  const REPLY := Maybe(Seq(Brief(ReplyHashObj), Maybe(Seq(CORE_SEND, Brief(ReplyHashObj)))))

  const DISCONNECT_FORCIBLY := Maybe(Seq(STOP_SEND_WAITING, Seq(Maybe(Brief(KeepRunningObj)), REPLY)))

  const DISCONNECT :=
    Maybe(Seq(STOP_SEND_WAITING,
              Either(REPLY,
                     Maybe(Seq(Lock(CondExitObj),
                               Seq(Brief(KeepRunningObj),
                                   Seq(Wait(CondExitObj),
                                       Seq(Unlock(CondExitObj), Maybe(REPLY)))))))))

  const AWAIT_REPLY :=
    Either(Unlock(CondObj),
           Seq(IS_SEND_SUCCEEDED,
               Either(Unlock(CondObj),
                      Seq(Wait(CondObj), Seq(Unlock(CondObj), Maybe(IS_SEND_SUCCEEDED))))))

  const SEND_FRAME :=
    Seq(Brief(LastSentObj),
        Seq(Brief(SendSucceededObj),
            Seq(Lock(CondObj),
                Seq(CORE_SEND, Either(Unlock(CondObj), AWAIT_REPLY)))))

  const SEND :=
    Maybe(Seq(IS_SEND_SUCCEEDED,
              Either(Maybe(Seq(DISCONNECT_FORCIBLY, Brief(ConnectingObj))), Maybe(SEND_FRAME))))

  const RECEIVE :=
    Seq(Lock(CondReceiveObj),
        Seq(Brief(ReceiveObj),
            Either(Unlock(CondReceiveObj),
                   Seq(Brief(ReceiveObj),
                       Either(Seq(Brief(ReceiveObj), Unlock(CondReceiveObj)),
                              Seq(Wait(CondReceiveObj),
                                  Seq(Unlock(CondReceiveObj),
                                      Either(Seq(Brief(ReceiveObj), Maybe(Brief(ReceiveObj))),
                                             Brief(ReceiveObj)))))))))

  const AWAIT_SERVER :=
    Seq(Lock(CondConnectObj),
        Either(Seq(Unlock(CondConnectObj), Either(DISCONNECT, DISCONNECT_FORCIBLY)),
               Seq(Wait(CondConnectObj), Seq(Unlock(CondConnectObj), Maybe(DISCONNECT_FORCIBLY)))))

  const CONNECT :=
    Seq(Brief(ConnectingObj),
        Seq(Maybe(Seq(Brief(LastSentObj),
                      Seq(Brief(SendSucceededObj),
                          Seq(Brief(ReplyHashObj), Seq(Brief(KeepRunningObj), Maybe(AWAIT_SERVER)))))),
            Brief(ConnectingObj)))

  const SET_SOCKET := Seq(Maybe(DISCONNECT), Maybe(Brief(KeepRunningObj)))

  /** What any other thread, or an event handler, may do with the client. */
  const USE :=
    Repeat(Either(Either(Either(SEND, CORE_SEND), Either(RECEIVE, Either(CONNECT, DISCONNECT))),
                  Either(SET_SOCKET, Either(IS_SEND_SUCCEEDED, KEEP_RECEIVING))))

  const DEAL_REPLY_MESSAGE :=
    Seq(Brief(LastSentObj), Maybe(Either(CORE_SEND, Seq(Brief(SendSucceededObj), STOP_SEND_WAITING))))

  const EXECUTE := Seq(Brief(QueueObj), Brief(ExecuterCondObj))

  const DEAL_DATA_FRAME :=
    Seq(Repeat(KEEP_RECEIVING),
        Seq(Brief(ReplyHashObj),
            Seq(Maybe(Seq(Brief(ReceiveObj), Either(EXECUTE, Seq(Brief(ReceiveObj), Brief(CondReceiveObj))))),
                REPLY)))

  const RECEIVE_THREAD :=
    Seq(Repeat(Seq(Repeat(KEEP_RECEIVING),
                   Either(Either(DEAL_REPLY_MESSAGE, Brief(CondConnectObj)), Maybe(DEAL_DATA_FRAME)))),
        Seq(Repeat(KEEP_RECEIVING),
            Seq(Maybe(Seq(DISCONNECT_FORCIBLY, Seq(Brief(ConnectingObj), USE))), Brief(CondExitObj))))

  const EXECUTER_THREAD :=
    Repeat(Seq(Brief(ExecuterRunObj),
               Seq(Maybe(Seq(Lock(ExecuterCondObj), Seq(Wait(ExecuterCondObj), Unlock(ExecuterCondObj)))),
                   Repeat(Seq(Brief(QueueObj), USE)))))

  // ---- What it locks, on its main path ----

  datatype Access = Takes(m: Mutex) | Drops(m: Mutex) | Sleeps(m: Mutex)

  /** The accesses to mutexes where the code takes every last alternative and every repetition once. */
  function MainPath(code: Code): seq<Access> {
    match code
    case Skip => []
    case Lock(m) => [Access.Takes(m)]
    case Unlock(m) => [Access.Drops(m)]
    case Wait(m) => [Access.Sleeps(m)]
    case Asleep(_) => []
    case Seq(first, second) => MainPath(first) + MainPath(second)
    case Either(_, other) => MainPath(other)
    case Repeat(body) => MainPath(body)
  }

  function Briefly(m: Mutex): seq<Access> { [Access.Takes(m), Access.Drops(m)] }

  lemma PathRules()
    ensures MainPath(Skip) == []
    ensures forall m {:trigger MainPath(Brief(m))} :: MainPath(Brief(m)) == Briefly(m)
    ensures forall m {:trigger MainPath(Lock(m))} :: MainPath(Lock(m)) == [Access.Takes(m)]
    ensures forall m {:trigger MainPath(Unlock(m))} :: MainPath(Unlock(m)) == [Access.Drops(m)]
    ensures forall m {:trigger MainPath(Wait(m))} :: MainPath(Wait(m)) == [Access.Sleeps(m)]
    ensures forall a, b {:trigger MainPath(Seq(a, b))} :: MainPath(Seq(a, b)) == MainPath(a) + MainPath(b)
    ensures forall a, b {:trigger MainPath(Either(a, b))} :: MainPath(Either(a, b)) == MainPath(b)
    ensures forall a {:trigger MainPath(Maybe(a))} :: MainPath(Maybe(a)) == MainPath(a)
    ensures forall a {:trigger MainPath(Repeat(a))} :: MainPath(Repeat(a)) == MainPath(a)
  {
  }

  /** Send keeps its frame, clears the flag, sends, tests the flag and waits, the last three under the
      condition's mutex, and tests the flag again. */
  lemma SendPath()
    ensures MainPath(SEND)
         == Briefly(SendSucceededObj) + Briefly(LastSentObj) + Briefly(SendSucceededObj)
            + [Access.Takes(CondObj)] + Briefly(SendObj) + Briefly(SendSucceededObj)
            + [Access.Sleeps(CondObj), Access.Drops(CondObj)] + Briefly(SendSucceededObj)
  {
    hide MainPath, Briefly, Brief, Maybe;
    PathRules();
  }

  lemma DisconnectPaths()
    ensures MainPath(REPLY) == Briefly(ReplyHashObj) + Briefly(SendObj) + Briefly(ReplyHashObj)
    ensures MainPath(DISCONNECT_FORCIBLY) == Briefly(CondObj) + Briefly(KeepRunningObj) + MainPath(REPLY)
    ensures MainPath(DISCONNECT)
         == Briefly(CondObj) + [Access.Takes(CondExitObj)] + Briefly(KeepRunningObj)
            + [Access.Sleeps(CondExitObj), Access.Drops(CondExitObj)] + MainPath(REPLY)
    ensures MainPath(SET_SOCKET) == MainPath(DISCONNECT) + Briefly(KeepRunningObj)
  {
    hide MainPath, Briefly, Brief, Maybe;
    PathRules();
  }

  /** Receive initialises its slot and looks at it under the condition's mutex, waits, and reads it. */
  lemma ReceivePath()
    ensures MainPath(RECEIVE)
         == [Access.Takes(CondReceiveObj)] + Briefly(ReceiveObj) + Briefly(ReceiveObj)
            + [Access.Sleeps(CondReceiveObj), Access.Drops(CondReceiveObj)] + Briefly(ReceiveObj)
  {
    hide MainPath, Briefly, Brief, Maybe;
    PathRules();
  }

  lemma ConnectPath()
    ensures MainPath(CONNECT)
         == Briefly(ConnectingObj) + Briefly(LastSentObj) + Briefly(SendSucceededObj) + Briefly(ReplyHashObj)
            + Briefly(KeepRunningObj)
            + [Access.Takes(CondConnectObj), Access.Sleeps(CondConnectObj), Access.Drops(CondConnectObj)]
            + MainPath(DISCONNECT_FORCIBLY) + Briefly(ConnectingObj)
  {
    hide MainPath, Briefly, Brief, Maybe;
    PathRules();
  }

  /** The receive thread deals with replies and data frames, and hands events to the executer. */
  lemma DealingPaths()
    ensures MainPath(DEAL_REPLY_MESSAGE) == Briefly(LastSentObj) + Briefly(SendSucceededObj) + Briefly(CondObj)
    ensures MainPath(DEAL_DATA_FRAME)
         == Briefly(KeepRunningObj) + Briefly(ReplyHashObj) + Briefly(ReceiveObj) + Briefly(ReceiveObj)
            + Briefly(CondReceiveObj) + MainPath(REPLY)
    ensures MainPath(EXECUTE) == Briefly(QueueObj) + Briefly(ExecuterCondObj)
  {
    hide MainPath, Briefly, Brief, Maybe;
    PathRules();
  }

  lemma ThreadPaths()
    ensures MainPath(RECEIVE_THREAD)
         == Briefly(KeepRunningObj) + MainPath(DEAL_DATA_FRAME) + Briefly(KeepRunningObj)
            + MainPath(DISCONNECT_FORCIBLY) + Briefly(ConnectingObj) + MainPath(USE) + Briefly(CondExitObj)
    ensures MainPath(EXECUTER_THREAD)
         == Briefly(ExecuterRunObj)
            + [Access.Takes(ExecuterCondObj), Access.Sleeps(ExecuterCondObj), Access.Drops(ExecuterCondObj)]
            + Briefly(QueueObj) + MainPath(USE)
  {
    hide MainPath, Briefly, Brief, Maybe;
    PathRules();
  }

  // ---- Its check, by rules ----

  /** The code ends holding what it started with. */
  predicate Keeps(held: set<Mutex>, code: Code) { Check(held, code) == Some(held) }

  /** The code, started with just this mutex, ends holding none. */
  predicate Frees(m: Mutex, code: Code) { Check({m}, code) == Some({}) }

  lemma KeepRules(held: set<Mutex>)
    ensures Keeps(held, Skip)
    ensures forall m {:trigger Keeps(held, Brief(m))} ::
      (forall h <- held :: Rank(h) < Rank(m)) ==> Keeps(held, Brief(m))
    ensures forall a, b {:trigger Keeps(held, Seq(a, b))} ::
      Keeps(held, a) && Keeps(held, b) ==> Keeps(held, Seq(a, b))
    ensures forall a, b {:trigger Keeps(held, Either(a, b))} ::
      Keeps(held, a) && Keeps(held, b) ==> Keeps(held, Either(a, b))
    ensures forall a {:trigger Keeps(held, Repeat(a))} :: Keeps(held, a) ==> Keeps(held, Repeat(a))
  {
    forall m | forall h <- held :: Rank(h) < Rank(m)
      ensures Keeps(held, Brief(m))
    {
      assert held + {m} - {m} == held;
    }
  }

  lemma FreeRules(m: Mutex)
    ensures Keeps({m}, Wait(m)) && Frees(m, Unlock(m))
    ensures forall a {:trigger Keeps({}, Seq(Lock(m), a))} :: Frees(m, a) ==> Keeps({}, Seq(Lock(m), a))
    ensures forall a, b {:trigger Frees(m, Seq(a, b))} ::
      (Keeps({m}, a) && Frees(m, b)) || (Frees(m, a) && Keeps({}, b)) ==> Frees(m, Seq(a, b))
    ensures forall a, b {:trigger Frees(m, Either(a, b))} :: Frees(m, a) && Frees(m, b) ==> Frees(m, Either(a, b))
  {
    assert {} + {m} == {m} && {m} - {m} == {};
    forall a | Frees(m, a)
      ensures Keeps({}, Seq(Lock(m), a))
    {
      assert Check({}, Lock(m)) == Some({m});
    }
  }

  lemma UsesAreOrdered()
    ensures Keeps({}, DISCONNECT_FORCIBLY) && Keeps({}, REPLY) && Keeps({}, USE)
  {
    hide Check, Keeps, Frees, Brief;
    KeepRules({});
    KeepRules({CondObj});
    KeepRules({CondExitObj});
    KeepRules({CondConnectObj});
    KeepRules({CondReceiveObj});
    FreeRules(CondObj);
    FreeRules(CondExitObj);
    FreeRules(CondConnectObj);
    FreeRules(CondReceiveObj);
    assert Keeps({}, REPLY);
    assert Keeps({}, DISCONNECT_FORCIBLY);
    assert Keeps({}, DISCONNECT);
    assert Keeps({}, SEND);
    assert Keeps({}, RECEIVE);
    assert Keeps({}, CONNECT);
  }

  lemma ThreadsAreOrdered()
    ensures Keeps({}, RECEIVE_THREAD) && Keeps({}, EXECUTER_THREAD)
  {
    hide Check, Keeps, Frees, Brief;
    KeepRules({});
    KeepRules({ExecuterCondObj});
    FreeRules(ExecuterCondObj);
    UsesAreOrdered();
  }

  /** The client's threads: its receive thread, its executer, and any number of users. */
  predicate ClientThread(t: Thread) {
    t.held == {} && (t.todo == [RECEIVE_THREAD] || t.todo == [EXECUTER_THREAD] || t.todo == [USE])
  }

  lemma ClientStartsOrdered(s: State)
    requires forall t <- s :: ClientThread(t)
    ensures Inv(s)
  {
    hide Check;
    UsesAreOrdered();
    ThreadsAreOrdered();
    forall t <- s ensures Ordered(t) {
      assert t.todo == [t.todo[0]] && t.todo[1..] == [];
      assert CheckAll({}, []) == Some({});
    }
    assert forall i: nat | i < |s| :: s[i] in s;
  }

  /** In no interleaving of the client's threads do some of them wait for each other's mutexes in a
      cycle, and unless all are done or asleep, one of them can go on. */
  lemma ClientThreadsNeverDeadlock(states: seq<State>, c: seq<nat>, i: nat) returns (j: nat)
    requires Execution(states) && forall t <- states[0] :: ClientThread(t)
    requires c != [] && Chain(states[|states| - 1], c)
    ensures !WaitsFor(states[|states| - 1], c[|c| - 1], c[0])
    ensures
      var s := states[|states| - 1];
      i < |s| && !Done(s[i]) && !Sleeps(s[i]) ==> CanStep(s, j)
  {
    ClientStartsOrdered(states[0]);
    NoWaitCycle(states, c);
    j := 0;
    var s := states[|states| - 1];
    if i < |s| && !Done(s[i]) && !Sleeps(s[i]) {
      j := Progress(states, i);
    }
  }
}
