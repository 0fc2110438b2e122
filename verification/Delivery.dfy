/**
 What a worker handles in `Pipeline` is what was received for it: every packet, in order of arrival,
 with the contents it arrived with.
 */
module Delivery {
  import opened Bytes
  import opened Sessions
  import opened Pipeline
  import opened Ownership

  // ---- Contents

  /** The buffer still has the contents of the reception `number`. */
  ghost predicate Unchanged(buffer: nat, number: nat, memory: seq<Capture>, arrivals: seq<Capture>) {
    number < |arrivals| && buffer < |memory| && memory[buffer] == arrivals[number]
  }

  /** The buffer still has the contents of the reception that filled it, and the packet its attributes. */
  ghost predicate Filled(held: Held, memory: seq<Capture>, arrivals: seq<Capture>) {
    Unchanged(held.buffer, held.number, memory, arrivals) && held.avps == Parsed(arrivals[held.number])
  }

  ghost predicate HandIntact(hand: Hand, memory: seq<Capture>, arrivals: seq<Capture>) {
    && (hand.Holding? && hand.item.Data? ==> Filled(hand.item.held, memory, arrivals))
    && (hand.Matched? || hand.Spent? ==> Filled(hand.held, memory, arrivals))
  }

  ghost predicate WorkerIntact(x: Worker, memory: seq<Capture>, arrivals: seq<Capture>) {
    && (forall item | item in x.queue && item.Data? :: Filled(item.held, memory, arrivals))
    && HandIntact(x.hand, memory, arrivals)
    && (forall i | i in x.sessions :: Filled(x.sessions[i], memory, arrivals))
  }

  ghost predicate Intact(s: State) {
    && (forall x | x in s.workers :: WorkerIntact(x, s.memory, s.arrivals))
    && (s.nic.Routing? ==> Unchanged(s.nic.buffer, s.nic.number, s.memory, s.arrivals) && s.nic.number == |s.arrivals| - 1)
  }

  lemma {:induction false} NotInQueue(queue: seq<Item>, buffer: nat)
    requires InQueue(queue, Just(buffer)) == 0
    ensures forall item | item in queue && item.Data? :: item.held.buffer != buffer
  {
    if queue != [] {
      NotInQueue(queue[1..], buffer);
      assert forall item | item in queue :: item == queue[0] || item in queue[1..];
    }
  }

  lemma {:induction false} NotInSessions(sessions: map<byte, Held>, n: nat, buffer: nat)
    requires n <= 256 && InSessions(sessions, n, Just(buffer)) == 0
    ensures forall i | i in sessions && i < n :: sessions[i].buffer != buffer
  {
    if n > 0 {
      NotInSessions(sessions, n - 1, buffer);
    }
  }

  lemma {:induction false} NotInWorkers(xs: seq<Worker>, w: nat, which: Which)
    requires w < |xs|
    ensures InWorker(xs[w], which) <= InWorkers(xs, which)
  {
    if w < |xs| - 1 {
      NotInWorkers(xs[..|xs| - 1], w, which);
    }
  }

  lemma OtherFilled(held: Held, memory: seq<Capture>, arrivals: seq<Capture>, buffer: nat, capture: Capture)
    requires Filled(held, memory, arrivals) && buffer < |memory| && held.buffer != buffer
    ensures Filled(held, memory[buffer := capture], arrivals + [capture])
  {
  }

  /** Filling a buffer that a worker does not own leaves what it owns intact. */
  lemma FillElsewhere(x: Worker, memory: seq<Capture>, arrivals: seq<Capture>, buffer: nat, capture: Capture)
    requires WorkerIntact(x, memory, arrivals) && buffer < |memory| && InWorker(x, Just(buffer)) == 0
    ensures WorkerIntact(x, memory[buffer := capture], arrivals + [capture])
  {
    NotInQueue(x.queue, buffer);
    NotInSessions(x.sessions, 256, buffer);
    var m, a := memory[buffer := capture], arrivals + [capture];
    forall item | item in x.queue && item.Data? ensures Filled(item.held, m, a) {
      OtherFilled(item.held, memory, arrivals, buffer, capture);
    }
    forall i | i in x.sessions ensures Filled(x.sessions[i], m, a) {
      OtherFilled(x.sessions[i], memory, arrivals, buffer, capture);
    }
  }

  /** The receive loop may overwrite the buffer in its hand, because nobody else owns it. */
  lemma FillIntact(s: State, capture: Capture)
    requires Intact(s) && s.nic.Receiving? && s.nic.buffer < |s.memory| && Owners(s, Just(s.nic.buffer)) == 1
    ensures Intact(Fill(s, s.nic.buffer, capture))
  {
    var r := Fill(s, s.nic.buffer, capture);
    forall x | x in r.workers ensures WorkerIntact(x, r.memory, r.arrivals) {
      var w: nat :| w < |s.workers| && s.workers[w] == x;
      NotInWorkers(s.workers, w, Just(s.nic.buffer));
      FillElsewhere(x, s.memory, s.arrivals, s.nic.buffer, capture);
    }
  }

  lemma TurnIntact(c: Config, x: Worker, memory: seq<Capture>, arrivals: seq<Capture>, a: Step)
    requires OfWorker(a) && Able(x, a) && WorkerIntact(x, memory, arrivals)
    ensures WorkerIntact(Turn(c, x, memory, a).worker, memory, arrivals)
  {
  }

  lemma PushIntact(s: State, w: nat, item: Item)
    requires w < |s.workers| && Intact(s) && (item.Data? ==> Filled(item.held, s.memory, s.arrivals))
    ensures Intact(Push(s, w, item))
  {
    var y := s.workers[w].(queue := s.workers[w].queue + [item]);
    assert WorkerIntact(s.workers[w], s.memory, s.arrivals);
    assert WorkerIntact(y, s.memory, s.arrivals);
    assert forall x | x in Push(s, w, item).workers :: x == y || x in s.workers;
  }

  lemma StepIntact(c: Config, s: State, a: Step)
    requires Intact(s)
    requires s.nic.Receiving? ==> s.nic.buffer < |s.memory| && Owners(s, Just(s.nic.buffer)) == 1
    ensures Intact(Next(c, s, a))
  {
    if Enabled(s, a) {
      if OfWorker(a) {
        TurnIntact(c, s.workers[a.w], s.memory, s.arrivals, a);
      } else if a.NicReceive? {
        FillIntact(s, a.capture);
      } else if a.NicRoute? {
        var target := Route(c, Content(s.memory, s.nic.buffer).frame);
        if target.Some? && target.value < |s.workers| {
          PushIntact(s.(nic := Idle), target.value, Data(Made(s)));
        }
      } else if a.TimerPut? {
        PushIntact(s, s.turn, Item.SyncTimeout);
      }
    }
  }

  /** What the sizes are, and that the owner counts hold. */
  ghost predicate Shaped(c: Config, s: State) {
    && |s.memory| == c.pool && |s.workers| == Workers(c) && s.turn < |s.workers|
    && forall b: nat :: Owners(s, Just(b)) == Bit(b < c.pool)
  }

  lemma ReceivingOwned(c: Config, s: State)
    requires Shaped(c, s) && s.nic.Receiving?
    ensures s.nic.buffer < |s.memory| && Owners(s, Just(s.nic.buffer)) == 1
  {
    assert Owners(s, Just(s.nic.buffer)) == Bit(s.nic.buffer < c.pool);
  }

  lemma StepShaped(c: Config, s: State, a: Step)
    requires Shaped(c, s)
    ensures Shaped(c, Next(c, s, a))
  {
    forall b: nat ensures Owners(Next(c, s, a), Just(b)) == Bit(b < c.pool) {
      StepConserves(c, s, a, Just(b));
      assert Owners(s, Just(b)) == Bit(b < c.pool);
    }
  }

  lemma {:induction false} RunIntact(c: Config, memory: seq<Capture>, steps: seq<Step>)
    requires |memory| == c.pool
    ensures Shaped(c, Run(c, memory, steps)) && Intact(Run(c, memory, steps))
  {
    if steps == [] {
      SingleOwnership(c, memory, []);
      assert forall x | x in Init(c, memory).workers :: x == NEW_WORKER;
    } else {
      var s := Run(c, memory, steps[..|steps| - 1]);
      RunIntact(c, memory, steps[..|steps| - 1]);
      if s.nic.Receiving? {
        ReceivingOwned(c, s);
      }
      StepShaped(c, s, steps[|steps| - 1]);
      StepIntact(c, s, steps[|steps| - 1]);
    }
  }

  // ---- Order

  /** The numbers of the packets among the events. */
  function Handled(log: seq<Event>): seq<nat> {
    if log == [] then []
    else Handled(log[..|log| - 1]) + if log[|log| - 1].Arrival? then [log[|log| - 1].number] else []
  }

  function InItemNumbers(item: Item): seq<nat> {
    if item.Data? then [item.held.number] else []
  }

  function Queued(queue: seq<Item>): seq<nat> {
    if queue == [] then [] else InItemNumbers(queue[0]) + Queued(queue[1..])
  }

  function Taken(hand: Hand): seq<nat> {
    if hand.Holding? then InItemNumbers(hand.item) else []
  }

  /** The packets that a worker has handled, holds and has before it. */
  function Stream(x: Worker): seq<nat> {
    Handled(x.log) + (Taken(x.hand) + Queued(x.queue))
  }

  /** The receptions that are for worker `w`, in order of arrival. */
  function RoutedTo(c: Config, arrivals: seq<Capture>, w: nat): seq<nat> {
    if arrivals == [] then []
    else
      var n := |arrivals| - 1;
      RoutedTo(c, arrivals[..n], w) + if Route(c, arrivals[n].frame) == Some(w) then [n] else []
  }

  /** The reception that the receive loop is about to route to worker `w`. */
  function Coming(c: Config, s: State, w: nat): seq<nat> {
    if s.nic.Routing? && Route(c, Content(s.memory, s.nic.buffer).frame) == Some(w) then [s.nic.number] else []
  }

  predicate InOrder(c: Config, s: State, w: nat)
    requires w < |s.workers|
  {
    Stream(s.workers[w]) + Coming(c, s, w) == RoutedTo(c, s.arrivals, w)
  }

  lemma HandledSnoc(log: seq<Event>, e: Event)
    ensures Handled(log + [e]) == Handled(log) + if e.Arrival? then [e.number] else []
  {
    assert (log + [e])[..|log|] == log;
  }

  lemma {:induction false} QueuedSnoc(queue: seq<Item>, item: Item)
    ensures Queued(queue + [item]) == Queued(queue) + InItemNumbers(item)
  {
    if queue == [] {
      assert queue + [item] == [item];
      AppendEmpty(InItemNumbers(item));
    } else {
      assert (queue + [item])[1..] == queue[1..] + [item];
      QueuedSnoc(queue[1..], item);
      AppendAssoc(InItemNumbers(queue[0]), Queued(queue[1..]), InItemNumbers(item));
    }
  }

  lemma StreamPush(x: Worker, item: Item)
    ensures Stream(x.(queue := x.queue + [item])) == Stream(x) + InItemNumbers(item)
  {
    QueuedSnoc(x.queue, item);
    AppendAssoc(Taken(x.hand), Queued(x.queue), InItemNumbers(item));
    AppendAssoc(Handled(x.log), Taken(x.hand) + Queued(x.queue), InItemNumbers(item));
  }

  /** Handling an item appends its number to those handled. */
  lemma StreamHandle(x: Worker, y: Worker, e: Event)
    requires x.hand.Holding? && Taken(y.hand) == [] && y.queue == x.queue && y.log == x.log + [e]
    requires InItemNumbers(x.hand.item) == if e.Arrival? then [e.number] else []
    ensures Stream(y) == Stream(x)
  {
    HandledSnoc(x.log, e);
    AppendAssoc(Handled(x.log), InItemNumbers(x.hand.item), Queued(x.queue));
    assert [] + Queued(x.queue) == Queued(x.queue);
  }

  lemma StreamTake(x: Worker)
    requires x.hand.Ready? && x.queue != []
    ensures Stream(x.(queue := x.queue[1..], hand := Holding(x.queue[0]))) == Stream(x)
  {
    assert Queued(x.queue) == InItemNumbers(x.queue[0]) + Queued(x.queue[1..]);
    assert [] + Queued(x.queue) == Queued(x.queue);
  }

  /** Taking and handling moves a packet along its worker's stream without changing the stream. */
  lemma TurnStream(c: Config, x: Worker, memory: seq<Capture>, a: Step)
    requires OfWorker(a) && Able(x, a)
    ensures Stream(Turn(c, x, memory, a).worker) == Stream(x)
  {
    var y := Turn(c, x, memory, a).worker;
    if a.Take? {
      StreamTake(x);
    } else if a.Handle? {
      StreamHandle(x, y, y.log[|x.log|]);
    } else {
      assert y.log == x.log && y.queue == x.queue && Taken(y.hand) == Taken(x.hand);
    }
  }

  lemma FillInOrder(c: Config, s: State, capture: Capture, w: nat)
    requires w < |s.workers| && InOrder(c, s, w) && s.nic.Receiving? && s.nic.buffer < |s.memory|
    ensures InOrder(c, Fill(s, s.nic.buffer, capture), w)
  {
    var r := Fill(s, s.nic.buffer, capture);
    assert r.arrivals[..|s.arrivals|] == s.arrivals;
    AppendEmpty(Stream(s.workers[w]));
  }

  lemma PushInOrder(c: Config, s: State, target: nat, item: Item, w: nat)
    requires w < |s.workers| && target < |s.workers|
    ensures Stream(Push(s, target, item).workers[w]) == Stream(s.workers[w]) + if target == w then InItemNumbers(item) else []
  {
    StreamPush(s.workers[target], item);
    AppendEmpty(Stream(s.workers[w]));
  }

  lemma RouteInOrder(c: Config, s: State, w: nat)
    requires w < |s.workers| == Workers(c) && InOrder(c, s, w) && s.nic.Routing?
    ensures InOrder(c, RouteFrame(c, s), w)
  {
    var r := RouteFrame(c, s);
    var target := Route(c, Content(s.memory, s.nic.buffer).frame);
    if target.Some? {
      PushInOrder(c, s.(nic := Idle), target.value, Data(Made(s)), w);
    }
    AppendEmpty(Stream(r.workers[w]));
  }

  lemma WorkerInOrder(c: Config, s: State, a: Step, w: nat)
    requires OfWorker(a) && Enabled(s, a) && w < |s.workers| && InOrder(c, s, w)
    ensures InOrder(c, Do(c, s, a), w)
  {
    TurnStream(c, s.workers[a.w], s.memory, a);
  }

  lemma StepInOrder(c: Config, s: State, a: Step, w: nat)
    requires Shaped(c, s) && w < |s.workers| && InOrder(c, s, w)
    ensures w < |Next(c, s, a).workers| && InOrder(c, Next(c, s, a), w)
  {
    if Enabled(s, a) {
      if OfWorker(a) {
        WorkerInOrder(c, s, a, w);
      } else if a.NicReceive? {
        ReceivingOwned(c, s);
        FillInOrder(c, s, a.capture, w);
      } else if a.NicRoute? {
        RouteInOrder(c, s, w);
      } else if a.TimerPut? {
        PushInOrder(c, s, s.turn, Item.SyncTimeout, w);
        AppendEmpty(Stream(s.workers[w]));
      }
    }
  }

  /** Delivery: in every reachable state, what a worker has handled, then holds, then has queued, and
      then may be on its way to it, are exactly the packets received for it, in order of arrival. */
  lemma {:induction false} EveryPacketInOrder(c: Config, memory: seq<Capture>, steps: seq<Step>, w: nat)
    requires |memory| == c.pool && w < Workers(c)
    ensures w < |Run(c, memory, steps).workers| && InOrder(c, Run(c, memory, steps), w)
  {
    if steps == [] {
      assert Stream(NEW_WORKER) == [];
    } else {
      EveryPacketInOrder(c, memory, steps[..|steps| - 1], w);
      RunIntact(c, memory, steps[..|steps| - 1]);
      StepInOrder(c, Run(c, memory, steps[..|steps| - 1]), steps[|steps| - 1], w);
    }
  }

  // ---- Logs

  /** Every packet of a log is one that was received, with the identifier and time it was received with. */
  ghost predicate LogTrue(log: seq<Event>, arrivals: seq<Capture>) {
    forall k: nat | k < |log| && log[k].Arrival? ::
      && log[k].number < |arrivals|
      && var capture := arrivals[log[k].number]; log[k] == Arrival(capture.frame.data[43], capture.stamp, log[k].number)
  }

  lemma TurnLogTrue(c: Config, x: Worker, memory: seq<Capture>, arrivals: seq<Capture>, a: Step)
    requires OfWorker(a) && Able(x, a) && WorkerIntact(x, memory, arrivals) && LogTrue(x.log, arrivals)
    ensures LogTrue(Turn(c, x, memory, a).worker.log, arrivals)
  {
  }

  lemma {:induction false} LogsTrue(c: Config, memory: seq<Capture>, steps: seq<Step>, w: nat)
    requires |memory| == c.pool && w < Workers(c)
    ensures var s := Run(c, memory, steps); w < |s.workers| && LogTrue(s.workers[w].log, s.arrivals)
  {
    if steps != [] {
      var s, a := Run(c, memory, steps[..|steps| - 1]), steps[|steps| - 1];
      LogsTrue(c, memory, steps[..|steps| - 1], w);
      RunIntact(c, memory, steps[..|steps| - 1]);
      if Enabled(s, a) && OfWorker(a) && a.w == w {
        TurnLogTrue(c, s.workers[w], s.memory, s.arrivals, a);
      }
    }
  }
}
