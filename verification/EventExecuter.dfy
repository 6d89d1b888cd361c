/** Producers handing events to the executer and its thread delivering them, in every interleaving. */
module EventExecuter {
  import opened Options
  import opened EventQueue

  const MAX_EVENTS_IN_QUEUE: int := 256

  // ---- The executer over the linked queue ----

  class Executer {
    const queue: Queue
    var delivered: seq<Record>  // the events raised, in order

    ghost predicate Valid()
      reads this, queue, queue.nodes, queue.payloads
    {
      queue.Valid() && queue.maxcount == MAX_EVENTS_IN_QUEUE
    }

    constructor ()
      ensures Valid() && fresh(queue) && queue.Contents() == [] && delivered == []
    {
      queue := new Queue(MAX_EVENTS_IN_QUEUE);
      delivered := [];
    }

    /** Queues a copy of the event, or drops it when the queue is full; a null pointer queues an event
        without payload. */
    method Execute(data: ReceivedData?)
      requires Valid() && (data != null ==> data.WellFormed())
      modifies queue, queue.nodes
      ensures Valid()
      ensures data != null ==>
        queue.Contents() == Put(old(queue.Contents()), MAX_EVENTS_IN_QUEUE, old(data.Value())).0
      ensures data == null ==>
        if |old(queue.Contents())| >= MAX_EVENTS_IN_QUEUE then queue.Contents() == old(queue.Contents())
        else exists r: Record :: r.payload.None? && queue.Contents() == old(queue.Contents()) + [r]
    {
      var ret := queue.Enqueue(data);
    }

    method DoEvent() returns (more: bool)
      requires Valid()
      modifies this, queue, queue.nodes
      ensures Valid() && |queue.nodes| <= |old(queue.nodes)|
      ensures more <==> old(queue.Contents()) != []
      ensures more ==> |delivered| > 0 && delivered[..|delivered| - 1] == old(delivered)
      ensures more ==> old(queue.Contents()) == [delivered[|delivered| - 1]] + queue.Contents()
      ensures queue.nodes == if more then old(queue.nodes)[1..] else old(queue.nodes)
      ensures !more ==> queue.Contents() == old(queue.Contents()) && delivered == old(delivered)
    {
      var data := queue.Dequeue();
      if data != null {
        delivered := delivered + [data.Value()];
        return true;
      }
      return false;
    }

    /** The thread's inner loop delivers everything queued, in order, and stops at the empty queue. */
    method DoEvents()
      requires Valid()
      modifies this, queue, queue.nodes
      ensures Valid() && queue.Contents() == []
      ensures delivered == old(delivered) + old(queue.Contents())
    {
      hide Values, Queue.Linked, Queue.Owned;
      var ret := true;
      ghost var all, k := queue.nodes, 0;
      while ret
        invariant Valid() && 0 <= k <= |all| && queue.nodes == all[k..]
        invariant delivered + queue.Contents() == old(delivered) + old(queue.Contents())
        invariant !ret ==> queue.Contents() == []
        decreases ret, |queue.nodes|
      {
        ghost var before := delivered;
        ret := DoEvent();
        if ret {
          k := k + 1;
          assert delivered == before + [delivered[|before|]];
          assert before + ([delivered[|before|]] + queue.Contents()) == delivered + queue.Contents();
        }
      }
    }
  }

  // ---- Producers and the thread, step by step ----

  /** The thread tests its run flag, waits, and drains the queue event by event. */
  datatype Worker = Testing | Waiting | Draining | Delivering(hand: Record) | Exited

  datatype State = State(
    queue: seq<Record>,
    running: bool,
    worker: Worker,
    delivered: seq<Record>,
    offers: seq<(Record, nat)>,   // history: each event offered, and how many were queued then
    polled: nat)                  // history: events accepted before the last poll that found none

  datatype Step = Execute(r: Record) | Stop | Test | Wake | Poll | Deliver

  const START := State([], true, Testing, [], [], 0)

  predicate Enabled(s: State, step: Step) {
    match step
    case Execute(_) => true
    case Stop => true
    case Test => s.worker.Testing?
    case Wake => s.worker.Waiting?  // a broadcast, the time-out, or no reason
    case Poll => s.worker.Draining?
    case Deliver => s.worker.Delivering?
  }

  function Apply(s: State, step: Step): State
    requires Enabled(s, step)
  {
    match step
    case Execute(r) => s.(queue := Put(s.queue, MAX_EVENTS_IN_QUEUE, r).0, offers := s.offers + [(r, |s.queue|)])
    case Stop => s.(running := false)
    case Test => s.(worker := if s.running then Waiting else Exited)
    case Wake => s.(worker := Draining)
    case Poll =>
      var (queue, taken) := Take(s.queue);
      match taken {
        case None => s.(worker := Testing, polled := |Accepted(s.offers)|)
        case Some(r) => s.(queue := queue, worker := Delivering(r))
      }
    case Deliver => s.(worker := Draining, delivered := s.delivered + [s.worker.hand])
  }

  /** The offers taken: exactly those that found fewer than 256 events queued. */
  function Accepted(offers: seq<(Record, nat)>): seq<Record> {
    if offers == [] then []
    else
      var (r, queued) := offers[|offers| - 1];
      Accepted(offers[..|offers| - 1]) + (if queued < 256 then [r] else [])
  }

  function Run(s: State, steps: seq<Step>): Option<State>
    decreases |steps|
  {
    if steps == [] then Some(s)
    else if Enabled(s, steps[0]) then Run(Apply(s, steps[0]), steps[1..])
    else None
  }

  function InHand(s: State): seq<Record> {
    if s.worker.Delivering? then [s.worker.hand] else []
  }

  ghost predicate Inv(s: State) {
    && s.delivered + InHand(s) + s.queue == Accepted(s.offers)
    && |s.queue| <= MAX_EVENTS_IN_QUEUE
    && s.polled <= |s.delivered|
    && (s.worker.Testing? || s.worker.Waiting? || s.worker.Exited? ==> |s.delivered| == s.polled)
  }

  lemma StepKeepsInv(s: State, step: Step)
    requires Inv(s) && Enabled(s, step)
    ensures Inv(Apply(s, step))
  {
    var s' := Apply(s, step);
    match step {
      case Execute(r) =>
        assert s'.offers[..|s.offers|] == s.offers;
        var rest := s.delivered + InHand(s);
        assert rest + (s.queue + [r]) == rest + s.queue + [r];
        assert s.delivered + InHand(s) + s.queue + [] == s.delivered + InHand(s) + s.queue;
      case Poll =>
        if s.queue != [] {
          assert s.delivered + [s.queue[0]] + s.queue[1..] == s.delivered + [] + s.queue;
        }
      case Deliver =>
        assert s.delivered + [s.worker.hand] + [] + s.queue == s.delivered + [s.worker.hand] + s.queue;
      case _ =>
    }
  }

  lemma {:induction false} RunKeepsInv(s: State, steps: seq<Step>)
    requires Inv(s) && Run(s, steps).Some?
    ensures Inv(Run(s, steps).value)
    decreases |steps|
  {
    hide Inv, Enabled, Apply;
    if steps != [] {
      StepKeepsInv(s, steps[0]);
      RunKeepsInv(Apply(s, steps[0]), steps[1..]);
    }
  }

  /** In every interleaving, what was delivered, then the event in hand, then the queue, are the
      accepted events in order; an event is refused exactly when 256 are queued. */
  lemma EventsAreConserved(steps: seq<Step>)
    requires Run(START, steps).Some?
    ensures
      var s := Run(START, steps).value;
      s.delivered + InHand(s) + s.queue == Accepted(s.offers) && |s.queue| <= 256
  {
    RunKeepsInv(START, steps);
  }

  /** An executer that has exited has delivered exactly what was accepted before its last look at an
      empty queue; the rest is still queued. */
  lemma ExitKeepsTheRest(steps: seq<Step>)
    requires Run(START, steps).Some? && Run(START, steps).value.worker.Exited?
    ensures
      var s := Run(START, steps).value;
      && s.polled <= |Accepted(s.offers)|
      && s.delivered == Accepted(s.offers)[..s.polled] && s.queue == Accepted(s.offers)[s.polled..]
  {
    RunKeepsInv(START, steps);
    var s := Run(START, steps).value;
    assert s.delivered + [] == s.delivered;
  }

  /** The thread will look at the queue again before it exits, or need not. */
  predicate WillEmpty(s: State) {
    s.worker.Testing? || s.worker.Exited? ==> s.queue == []
  }

  lemma {:induction false} StoppedRunKeepsFate(s: State, steps: seq<Step>)
    requires Inv(s) && !s.running && Run(s, steps).Some? && forall step <- steps :: !step.Execute?
    ensures Inv(Run(s, steps).value) && (WillEmpty(Run(s, steps).value) <==> WillEmpty(s))
    decreases |steps|
  {
    hide Inv;
    if steps != [] {
      StepKeepsInv(s, steps[0]);
      StoppedRunKeepsFate(Apply(s, steps[0]), steps[1..]);
    }
  }

  /** Stopped in any state, with no more events offered, the executer exits with every accepted event
      delivered if and only if its thread was not then testing the run flag with events queued. */
  lemma StopDeliversAllIff(s: State, steps: seq<Step>)
    requires Inv(s) && !s.running && Run(s, steps).Some? && forall step <- steps :: !step.Execute?
    requires Run(s, steps).value.worker.Exited?
    ensures
      var t := Run(s, steps).value;
      t.delivered == Accepted(t.offers) <==> (s.worker.Testing? || s.worker.Exited? ==> s.queue == [])
  {
    StoppedRunKeepsFate(s, steps);
    var t := Run(s, steps).value;
    assert t.delivered + [] + t.queue == t.delivered + t.queue;
    assert |t.delivered + t.queue| == |t.delivered| + |t.queue|;
  }

  /** An event accepted between the last look and the test of the run flag is lost. */
  lemma LastEventCanBeLost(r: Record) returns (steps: seq<Step>)
    ensures Run(START, steps).Some?
    ensures
      var s := Run(START, steps).value;
      s.worker.Exited? && Accepted(s.offers) == [r] && s.delivered == []
  {
    var s1 := Apply(Apply(Apply(START, Test), Wake), Poll);
    var s2 := Apply(s1, Execute(r));
    var s3 := Apply(Apply(s2, Stop), Test);
    assert s2.offers[..0] == [] && Accepted([]) == [] && [] + [r] == [r];
    steps := [Test, Wake, Poll] + ([Execute(r)] + [Stop, Test]);
    RunThree(START, Test, Wake, Poll, [Execute(r)] + [Stop, Test]);
    RunOne(s1, Execute(r), [Stop, Test]);
    RunOne(s2, Stop, [Test]);
    RunOne(Apply(s2, Stop), Test, []);
    assert [Stop] + [Test] == [Stop, Test] && [Test] + [] == [Test];
  }

  lemma RunOne(s: State, step: Step, later: seq<Step>)
    requires Enabled(s, step)
    ensures Run(s, [step] + later) == Run(Apply(s, step), later)
  {
    assert ([step] + later)[1..] == later;
  }

  lemma RunThree(s: State, a: Step, b: Step, c: Step, later: seq<Step>)
    requires Enabled(s, a) && Enabled(Apply(s, a), b) && Enabled(Apply(Apply(s, a), b), c)
    ensures Run(s, [a, b, c] + later) == Run(Apply(Apply(Apply(s, a), b), c), later)
  {
    hide Enabled, Apply;
    assert [a, b, c] + later == [a] + ([b] + ([c] + later));
    RunOne(s, a, [b] + ([c] + later));
    RunOne(Apply(s, a), b, [c] + later);
    RunOne(Apply(Apply(s, a), b), c, later);
  }

  // ---- A woken executer empties the queue ----

  /** Polling and delivering until the queue is empty. */
  function Drain(n: nat): seq<Step> {
    if n == 0 then [Poll] else [Poll, Deliver] + Drain(n - 1)
  }

  /** Left to itself, a draining executer delivers every event accepted so far, and looks again at
      its run flag. */
  lemma {:induction false} DrainDeliversAll(s: State)
    requires Inv(s) && s.worker.Draining?
    ensures Run(s, Drain(|s.queue|)).Some?
    ensures
      var t := Run(s, Drain(|s.queue|)).value;
      t.worker.Testing? && t.queue == [] && t.offers == s.offers && t.delivered == Accepted(s.offers)
    decreases |s.queue|
  {
    if s.queue == [] {
      assert Run(Apply(s, Poll), []) == Some(Apply(s, Poll)) && [Poll][1..] == [];
      assert s.delivered + [] + [] == s.delivered;
    } else {
      var taken := Apply(s, Poll);
      var next := Apply(taken, Deliver);
      StepKeepsInv(s, Poll);
      StepKeepsInv(taken, Deliver);
      DrainDeliversAll(next);
      var later := Drain(|s.queue| - 1);
      assert ([Poll, Deliver] + later)[1..] == [Deliver] + later && ([Deliver] + later)[1..] == later;
    }
  }

  /** Stopped while it drains its queue, or waits to, it still delivers every event accepted and exits. */
  lemma StoppedInTimeDeliversAll(s: State) returns (steps: seq<Step>)
    requires Inv(s) && (s.worker.Draining? || s.worker.Waiting?)
    ensures Run(s, [Stop] + steps).Some? && forall step <- steps :: !step.Execute?
    ensures
      var t := Run(s, [Stop] + steps).value;
      t.worker.Exited? && t.offers == s.offers && t.delivered == Accepted(t.offers)
  {
    hide Run, Drain;
    var stopped := Apply(s, Stop);
    var draining := if s.worker.Waiting? then Apply(stopped, Wake) else stopped;
    StepKeepsInv(s, Stop);
    if s.worker.Waiting? {
      StepKeepsInv(stopped, Wake);
    }
    var n := |s.queue|;
    steps := (if s.worker.Waiting? then [Wake] else []) + (Drain(n) + [Test]);
    RunOne(s, Stop, steps);
    if s.worker.Waiting? {
      RunOne(stopped, Wake, Drain(n) + [Test]);
    } else {
      assert steps == Drain(n) + [Test];
    }
    DrainDeliversAll(draining);
    DrainKeepsRunning(draining);
    RunConcat(draining, Drain(n), [Test]);
    var drained := Run(draining, Drain(n)).value;
    assert [Test] == [Test] + [];
    RunOne(drained, Test, []);
    RunNothing(Apply(drained, Test));
    DrainPolls(n);
  }

  lemma RunNothing(s: State)
    ensures Run(s, []) == Some(s)
  {
  }

  lemma {:induction false} RunConcat(s: State, a: seq<Step>, b: seq<Step>)
    requires Run(s, a).Some?
    ensures Run(s, a + b) == Run(Run(s, a).value, b)
    decreases |a|
  {
    hide Enabled, Apply;
    if a == [] {
      assert a + b == b;
    } else {
      assert (a + b)[1..] == a[1..] + b;
      RunConcat(Apply(s, a[0]), a[1..], b);
    }
  }

  lemma {:induction false} DrainPolls(n: nat)
    ensures forall step <- Drain(n) :: step.Poll? || step.Deliver?
  {
    if n > 0 {
      DrainPolls(n - 1);
    }
  }

  lemma DrainKeepsRunning(s: State)
    requires Run(s, Drain(|s.queue|)).Some?
    ensures Run(s, Drain(|s.queue|)).value.running == s.running
  {
    DrainPolls(|s.queue|);
    PollsKeepRunning(s, Drain(|s.queue|));
  }

  lemma PollKeepsRunning(s: State, step: Step)
    requires Enabled(s, step) && (step.Poll? || step.Deliver?)
    ensures Apply(s, step).running == s.running
  {
  }

  lemma {:induction false} PollsKeepRunning(s: State, steps: seq<Step>)
    requires Run(s, steps).Some? && forall step <- steps :: step.Poll? || step.Deliver?
    ensures Run(s, steps).value.running == s.running
    decreases |steps|
  {
    if steps != [] {
      assert steps[0] in steps && forall step <- steps[1..] :: step in steps;
      PollKeepsRunning(s, steps[0]);
      PollsKeepRunning(Apply(s, steps[0]), steps[1..]);
    }
  }
}
