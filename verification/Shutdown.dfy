/**
 How the workers of one `PacketProcessor` end.  The workers share the stop flag; each is a thread that
 tests the flag, waits on its own queue, and handles what it takes.  Every sequence of step attempts
 is a run, and other threads may append to any queue at any time.
 */
module ShutdownProtocol {
  import opened Bytes
  import opened Dispatch

  datatype Pc =
    | Head                        // tests the stop flag next
    | Waiting                     // in getObject, blocked while its queue is empty
    | Handling(m: Message)        // has taken `m`
    | Left                        // the loop condition failed
    | Broke                       // left by the break behind a SHUTDOWN

  datatype Worker = Worker(pc: Pc, queue: seq<Message>, handled: seq<Message>)

  datatype State = State(stop: bool, workers: seq<Worker>)

  datatype Step = Work(w: nat) | Put(w: nat, m: Message)

  const SHUTDOWN: Message := Command(Control.Shutdown)

  predicate Exited(x: Worker) {
    x.pc.Left? || x.pc.Broke?
  }

  predicate Enabled(s: State, a: Step) {
    a.w < |s.workers| && (a.Work? ==> !Exited(s.workers[a.w]) && (s.workers[a.w].pc.Waiting? ==> s.workers[a.w].queue != []))
  }

  function Turn(x: Worker, stop: bool): Worker {
    match x.pc
    case Head => x.(pc := if stop then Left else Waiting)
    case Waiting => if x.queue == [] then x else x.(pc := Handling(x.queue[0]), queue := x.queue[1..])
    case Handling(m) => if m == SHUTDOWN then x.(pc := Broke) else x.(pc := Head, handled := x.handled + [m])
    case _ => x
  }

  function Next(s: State, a: Step): (r: State)
    ensures |r.workers| == |s.workers|
  {
    if !Enabled(s, a) then s
    else
      var x := s.workers[a.w];
      match a
      case Put(w, m) => s.(workers := s.workers[w := x.(queue := x.queue + [m])])
      case Work(w) => State(s.stop || x.pc == Handling(SHUTDOWN), s.workers[w := Turn(x, s.stop)])
  }

  function Exec(s: State, steps: seq<Step>): (r: State)
    ensures |r.workers| == |s.workers|
  {
    if steps == [] then s else Next(Exec(s, steps[..|steps| - 1]), steps[|steps| - 1])
  }

  /** How often worker `w` is scheduled in a run. */
  function Turns(steps: seq<Step>, w: nat): nat {
    if steps == [] then 0
    else Turns(steps[..|steps| - 1], w) + if steps[|steps| - 1] == Work(w) then 1 else 0
  }

  lemma TurnsMore(steps: seq<Step>, a: Step, w: nat)
    ensures Turns(steps + [a], w) == Turns(steps, w) + if a == Work(w) then 1 else 0
  {
    assert (steps + [a])[..|steps|] == steps;
  }

  lemma ExecMore(s: State, steps: seq<Step>, a: Step)
    ensures Exec(s, steps + [a]) == Next(Exec(s, steps), a)
  {
    assert (steps + [a])[..|steps|] == steps;
  }

  // ---- One worker

  /** A SHUTDOWN is in its queue or in its hand, or it is out of its loop. */
  predicate Condemned(x: Worker) {
    Exited(x) || x.pc == Handling(SHUTDOWN) || SHUTDOWN in x.queue
  }

  /** The messages in front of the first SHUTDOWN. */
  function Before(queue: seq<Message>): seq<Message> {
    if queue == [] || queue[0] == SHUTDOWN then [] else [queue[0]] + Before(queue[1..])
  }

  /** What a worker has handled once it reaches its SHUTDOWN. */
  function Due(x: Worker): seq<Message> {
    if Exited(x) || x.pc == Handling(SHUTDOWN) then x.handled
    else x.handled + ((if x.pc.Handling? then [x.pc.m] else []) + Before(x.queue))
  }

  /** The turns that are left to a worker before it is out of its loop. */
  function Fuel(x: Worker): nat {
    match x.pc
    case Head => 3 * |Before(x.queue)| + 3
    case Waiting => 3 * |Before(x.queue)| + 2
    case Handling(m) => if m == SHUTDOWN then 1 else 3 * |Before(x.queue)| + 4
    case _ => 0
  }

  lemma {:induction false} BeforeAppend(queue: seq<Message>, m: Message)
    requires SHUTDOWN in queue
    ensures Before(queue + [m]) == Before(queue)
  {
    assert (queue + [m])[0] == queue[0];
    if queue[0] != SHUTDOWN {
      assert (queue + [m])[1..] == queue[1..] + [m];
      BeforeAppend(queue[1..], m);
    }
  }

  /** What others append makes no difference to a condemned worker. */
  lemma PutKeeps(x: Worker, m: Message)
    requires Condemned(x)
    ensures var y := x.(queue := x.queue + [m]); Condemned(y) && Due(y) == Due(x) && Fuel(y) == Fuel(x)
  {
    if SHUTDOWN in x.queue {
      BeforeAppend(x.queue, m);
    }
  }

  /** A turn of a condemned worker burns fuel, and it does not change what is due unless the worker
      leaves because of the flag. */
  lemma TurnProgress(x: Worker, stop: bool)
    requires Condemned(x) && !Exited(x)
    ensures var y := Turn(x, stop);
            && Condemned(y)
            && Fuel(y) < Fuel(x) && (!stop ==> Fuel(y) == Fuel(x) - 1)
            && Due(y) <= Due(x) && (!y.pc.Left? ==> Due(y) == Due(x))
            && (y.pc.Left? ==> stop)
  {
    if x.pc.Waiting? && x.queue[0] != SHUTDOWN {
      assert Before(x.queue) == [x.queue[0]] + Before(x.queue[1..]);
    } else if x.pc.Handling? && x.pc.m != SHUTDOWN {
      AppendAssoc(x.handled, [x.pc.m], Before(x.queue));
    }
  }

  // ---- Runs

  /** What `x` was once, after `turns` of its own, has become `y`. */
  predicate Ending(x: Worker, y: Worker, turns: nat) {
    && Condemned(y)
    && (Exited(y) || Fuel(y) + turns <= Fuel(x))
    && Due(y) <= Due(x)
    && (!y.pc.Left? ==> Due(y) == Due(x))
  }

  lemma EndingStep(x: Worker, s: State, a: Step, w: nat, turns: nat)
    requires w < |s.workers| && Ending(x, s.workers[w], turns)
    ensures Ending(x, Next(s, a).workers[w], turns + if a == Work(w) then 1 else 0)
  {
    if Enabled(s, a) && a.w == w {
      match a {
        case Put(_, m) => PutKeeps(s.workers[w], m);
        case Work(_) => TurnProgress(s.workers[w], s.stop);
      }
    }
  }

  /** From the moment a SHUTDOWN is in its queue: a worker never blocks; it is out of its loop after at
      most `Fuel` turns of its own, whatever the others do; what it has handled is a prefix of what was
      due, so nothing behind its SHUTDOWN is ever handled; and it handles all of that unless it leaves
      because another worker has set the flag. */
  lemma {:induction false} ShutdownEnds(s: State, steps: seq<Step>, w: nat)
    requires w < |s.workers| && Condemned(s.workers[w])
    ensures var x := Exec(s, steps).workers[w];
            && Ending(s.workers[w], x, Turns(steps, w))
            && (Exited(x) || Enabled(Exec(s, steps), Work(w)))
            && (Turns(steps, w) >= Fuel(s.workers[w]) ==> Exited(x))
            && x.handled <= Due(s.workers[w])
            && (x.pc.Broke? ==> x.handled == Due(s.workers[w]))
  {
    if steps != [] {
      ShutdownEnds(s, steps[..|steps| - 1], w);
      EndingStep(s.workers[w], Exec(s, steps[..|steps| - 1]), steps[|steps| - 1], w, Turns(steps[..|steps| - 1], w));
    }
  }

  // ---- What is taken is handled

  /** A worker that has handled `done` is about to take `m`, has it in its hand, or has handled it. */
  predicate Serving(x: Worker, done: seq<Message>, m: Message, turns: nat) {
    || (turns == 0 && x.pc.Waiting? && x.queue != [] && x.queue[0] == m && x.handled == done)
    || (turns == 1 && x.pc == Handling(m) && x.handled == done)
    || (turns >= 2 && done + [m] <= x.handled)
  }

  lemma ServingStep(s: State, a: Step, w: nat, done: seq<Message>, m: Message, turns: nat)
    requires w < |s.workers| && m != SHUTDOWN && Serving(s.workers[w], done, m, turns)
    ensures Serving(Next(s, a).workers[w], done, m, turns + if a == Work(w) then 1 else 0)
  {
  }

  /** The flag is read at the head of the loop only: a worker that waits beside a message takes it and handles
      it before it can leave, even when the flag has been set meanwhile. */
  lemma {:induction false} TakenIsHandled(s: State, steps: seq<Step>, w: nat)
    requires w < |s.workers| && s.workers[w].pc.Waiting? && s.workers[w].queue != [] && s.workers[w].queue[0] != SHUTDOWN
    ensures var x := s.workers[w];
            && Serving(Exec(s, steps).workers[w], x.handled, x.queue[0], Turns(steps, w))
            && (Turns(steps, w) >= 2 ==> x.handled + [x.queue[0]] <= Exec(s, steps).workers[w].handled)
  {
    if steps != [] {
      var x, n := s.workers[w], |steps| - 1;
      TakenIsHandled(s, steps[..n], w);
      ServingStep(Exec(s, steps[..n]), steps[n], w, x.handled, x.queue[0], Turns(steps[..n], w));
    }
  }

  // ---- Broadcasts

  /** The puts of a broadcast loop over the first `n` queues. */
  function BroadcastSteps(n: nat, control: Control): seq<Step> {
    if n == 0 then [] else BroadcastSteps(n - 1, control) + [Put(n - 1, Command(control))]
  }

  lemma {:induction false} BroadcastPutsEach(n: nat, control: Control, w: nat)
    requires w < n
    ensures Put(w, Command(control)) in BroadcastSteps(n, control)
  {
    if w < n - 1 {
      BroadcastPutsEach(n - 1, control, w);
    }
  }

  lemma PutAppends(s: State, u: nat, m: Message, w: nat)
    requires u < |s.workers| && w < |s.workers|
    ensures Next(s, Put(u, m)).workers[w].queue == if u == w then s.workers[w].queue + [m] else s.workers[w].queue
  {
  }

  lemma {:induction false} BroadcastPuts(s: State, control: Control, n: nat, w: nat)
    requires w < |s.workers| && n <= |s.workers|
    ensures Exec(s, BroadcastSteps(n, control)).workers[w].queue ==
            if w < n then s.workers[w].queue + [Command(control)] else s.workers[w].queue
  {
    if n > 0 {
      var before := BroadcastSteps(n - 1, control);
      BroadcastPuts(s, control, n - 1, w);
      ExecMore(s, before, Put(n - 1, Command(control)));
      PutAppends(Exec(s, before), n - 1, Command(control), w);
    }
  }

  /** With nothing in between, the loop leaves the queues that a processor's broadcast leaves, for every
      control message. */
  lemma BroadcastAlone(s: State, control: Control, queues: seq<seq<Message>>, n: nat, w: nat)
    requires |queues| == |s.workers| && forall u | 0 <= u < |queues| :: queues[u] == s.workers[u].queue
    requires w < |queues| && n <= |queues|
    ensures var x := Exec(s, BroadcastSteps(n, control)).workers[w];
            && x.queue == queues[w] + (if w < n then [Command(control)] else [])
            && x.queue == if w < n then Broadcast(queues, control)[w] else queues[w]
  {
    BroadcastPuts(s, control, n, w);
    BroadcastGrows(queues, control);
    AppendEmpty(queues[w]);
  }

  lemma StepKeepsCondemned(s: State, a: Step, w: nat)
    requires w < |s.workers| && (Condemned(s.workers[w]) || a == Put(w, SHUTDOWN))
    ensures Condemned(Next(s, a).workers[w])
  {
    if a == Put(w, SHUTDOWN) {
      assert Next(s, a).workers[w].queue[|s.workers[w].queue|] == SHUTDOWN;
    } else {
      EndingStep(s.workers[w], s, a, w, 0);
    }
  }

  /** Once a run has put a SHUTDOWN into its queue, a worker is condemned, even if it has already left. */
  lemma {:induction false} PutCondemns(s: State, steps: seq<Step>, w: nat)
    requires w < |s.workers| && Put(w, SHUTDOWN) in steps
    ensures Condemned(Exec(s, steps).workers[w])
  {
    var n := |steps| - 1;
    if Put(w, SHUTDOWN) in steps[..n] {
      PutCondemns(s, steps[..n], w);
    }
    StepKeepsCondemned(Exec(s, steps[..n]), steps[n], w);
  }

  lemma {:induction false} ExecAppend(s: State, a: seq<Step>, b: seq<Step>)
    ensures Exec(s, a + b) == Exec(Exec(s, a), b)
  {
    if b == [] {
      AppendEmpty(a);
    } else {
      assert (a + b)[..|a + b| - 1] == a + b[..|b| - 1];
      ExecAppend(s, a, b[..|b| - 1]);
    }
  }

  /** A SHUTDOWN broadcast ends every worker: in `during` the loop puts its messages one by one while
      everybody goes on, and some workers may have left before it is done; after it, in `steps`, every
      worker leaves once it has had the turns that are left to it, in any interleaving. */
  lemma BroadcastEnds(s: State, during: seq<Step>, steps: seq<Step>)
    requires forall a | a in BroadcastSteps(|s.workers|, Control.Shutdown) :: a in during
    requires forall w: nat | w < |s.workers| :: Turns(steps, w) >= Fuel(Exec(s, during).workers[w])
    ensures forall x | x in Exec(s, during + steps).workers :: Exited(x)
  {
    ExecAppend(s, during, steps);
    forall w: nat | w < |s.workers| ensures Exited(Exec(s, during + steps).workers[w]) {
      BroadcastPutsEach(|s.workers|, Control.Shutdown, w);
      PutCondemns(s, during, w);
      ShutdownEnds(Exec(s, during), steps, w);
    }
  }

  // ---- The stop flag

  /** The flag is set by a SHUTDOWN only: while no worker has broken off, nobody leaves early. */
  lemma {:induction false} FlagMeansBroke(s: State, steps: seq<Step>)
    requires !s.stop && forall x | x in s.workers :: !x.pc.Left?
    ensures var r := Exec(s, steps);
            && (r.stop ==> exists w | 0 <= w < |r.workers| :: r.workers[w].pc.Broke?)
            && (forall x | x in r.workers && x.pc.Left? :: r.stop)
  {
    if steps != [] {
      var before, a := Exec(s, steps[..|steps| - 1]), steps[|steps| - 1];
      FlagMeansBroke(s, steps[..|steps| - 1]);
      var r := Exec(s, steps);
      if r.stop {
        var w := if before.stop then (var u :| 0 <= u < |before.workers| && before.workers[u].pc.Broke?; u) else a.w;
        assert r.workers[w].pc.Broke?;
      }
    }
  }

  /** The worker does not wait on an empty queue. */
  predicate Awake(x: Worker) {
    x.pc.Waiting? ==> x.queue != []
  }

  /** The turns that are left to an awake worker once the flag is set. */
  function FlagFuel(x: Worker): nat {
    match x.pc
    case Head => 1
    case Waiting => 3
    case Handling(_) => 2
    case _ => 0
  }

  lemma FlagStep(s: State, a: Step, w: nat)
    requires s.stop && w < |s.workers| && Awake(s.workers[w])
    ensures var r := Next(s, a);
            && r.stop && Awake(r.workers[w])
            && (Exited(r.workers[w]) || FlagFuel(r.workers[w]) + (if a == Work(w) then 1 else 0) <= FlagFuel(s.workers[w]))
  {
  }

  lemma {:induction false} FlagEnds(s: State, steps: seq<Step>, w: nat)
    requires s.stop && w < |s.workers| && Awake(s.workers[w])
    ensures var r := Exec(s, steps);
            && r.stop && Awake(r.workers[w])
            && (Exited(r.workers[w]) || FlagFuel(r.workers[w]) + Turns(steps, w) <= FlagFuel(s.workers[w]))
  {
    if steps != [] {
      FlagEnds(s, steps[..|steps| - 1], w);
      FlagStep(Exec(s, steps[..|steps| - 1]), steps[|steps| - 1], w);
    }
  }

  /** One that waits on its empty queue waits for as long as nothing is put there, whatever the flag. */
  lemma {:induction false} FlagDoesNotWake(s: State, steps: seq<Step>, w: nat)
    requires w < |s.workers| && !Awake(s.workers[w])
    requires forall a | a in steps :: a.Put? ==> a.w != w
    ensures Exec(s, steps).workers[w] == s.workers[w]
  {
    if steps != [] {
      assert steps[|steps| - 1] in steps;
      FlagDoesNotWake(s, steps[..|steps| - 1], w);
    }
  }

  ghost predicate LeavesInThree(s: State, w: nat)
    requires w < |s.workers|
  {
    forall steps | Turns(steps, w) >= 3 :: Exited(Exec(s, steps).workers[w])
  }

  /** With the flag set, a worker is out of its loop after three turns of its own in every interleaving
      exactly when it does not wait on an empty queue. */
  lemma FlagEndsExactly(s: State, w: nat)
    requires s.stop && w < |s.workers|
    ensures LeavesInThree(s, w) <==> Awake(s.workers[w])
  {
    if Awake(s.workers[w]) {
      forall steps | Turns(steps, w) >= 3 ensures Exited(Exec(s, steps).workers[w]) {
        FlagEnds(s, steps, w);
      }
    } else {
      var steps := [Work(w), Work(w), Work(w)];
      TurnsMore([], Work(w), w);
      TurnsMore([Work(w)], Work(w), w);
      TurnsMore([Work(w), Work(w)], Work(w), w);
      assert [] + [Work(w)] == [Work(w)] && [Work(w)] + [Work(w)] == [Work(w), Work(w)];
      assert [Work(w), Work(w)] + [Work(w)] == steps;
      FlagDoesNotWake(s, steps, w);
    }
  }

  const NEW_WORKER := Worker(Head, [], [])

  /** Such a worker can be left behind: of two new workers that wait, one gets a SHUTDOWN and sets the flag. */
  lemma FlagStrands() returns (steps: seq<Step>)
    ensures var r := Exec(State(false, [NEW_WORKER, NEW_WORKER]), steps);
            |r.workers| == 2 && r.stop && r.workers[0].pc.Broke? && !Awake(r.workers[1]) && !LeavesInThree(r, 1)
  {
    var s := State(false, [NEW_WORKER, NEW_WORKER]);
    var waiting := NEW_WORKER.(pc := Waiting);
    var s2 := Next(Next(s, Work(0)), Work(1));
    assert s2 == State(false, [waiting, waiting]);
    var s3 := Next(s2, Put(0, SHUTDOWN));
    assert s3.workers[0] == waiting.(queue := [] + [SHUTDOWN]) && s3.workers[1] == waiting;
    var s4 := Next(s3, Work(0));
    assert s4.workers[0].pc == Handling(SHUTDOWN) && s4.workers[1] == waiting;
    var s5 := Next(s4, Work(0));
    assert s5.workers[0].pc.Broke? && s5.workers[1] == waiting && s5.stop;
    steps := [] + [Work(0)];
    ExecMore(s, [], Work(0));
    ExecMore(s, steps, Work(1));
    steps := steps + [Work(1)];
    ExecMore(s, steps, Put(0, SHUTDOWN));
    steps := steps + [Put(0, SHUTDOWN)];
    ExecMore(s, steps, Work(0));
    steps := steps + [Work(0)];
    ExecMore(s, steps, Work(0));
    steps := steps + [Work(0)];
    FlagEndsExactly(s5, 1);
  }

  /** So any message, not only a SHUTDOWN, ends a worker once the flag is set. */
  lemma AnyPutEnds(s: State, m: Message, steps: seq<Step>, w: nat)
    requires s.stop && w < |s.workers| && Turns(steps, w) >= 3
    ensures Exited(Exec(Next(s, Put(w, m)), steps).workers[w])
  {
    FlagEndsExactly(Next(s, Put(w, m)), w);
  }
}
