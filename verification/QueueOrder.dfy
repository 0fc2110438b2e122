/**
 What a worker of `Pipeline` gets is what was put for it: packets and SYNC_TIMEOUT messages alike, in the
 order of the puts, with the clock readings and receptions of the run.
 */
module QueueOrder {
  import opened Bytes
  import opened Sessions
  import opened ObjectPools
  import opened Pipeline
  import opened Delivery
  import opened WorkerLedgers
  import opened Progress

  datatype Mark = PacketMark(number: nat) | SyncMark

  function EventMark(e: Event): Mark {
    if e.Arrival? then PacketMark(e.number) else SyncMark
  }

  function ItemMark(item: Item): Mark {
    if item.Data? then PacketMark(item.held.number) else SyncMark
  }

  function LogMarks(log: seq<Event>): seq<Mark> {
    seq(|log|, k requires 0 <= k < |log| => EventMark(log[k]))
  }

  function QueueMarks(queue: seq<Item>): seq<Mark> {
    seq(|queue|, k requires 0 <= k < |queue| => ItemMark(queue[k]))
  }

  function HandMarks(hand: Hand): seq<Mark> {
    if hand.Holding? then [ItemMark(hand.item)] else []
  }

  /** What a worker has handled, holds and has before it. */
  function Marks(x: Worker): seq<Mark> {
    LogMarks(x.log) + (HandMarks(x.hand) + QueueMarks(x.queue))
  }

  /** What a step puts for worker `w`: the frame that the receive loop routes to it, or the message of the
      synchroniser whose turn it is to serve it. */
  function PutNow(c: Config, s: State, a: Step, w: nat): seq<Mark> {
    if !Enabled(s, a) then []
    else if a.NicRoute? && Route(c, Content(s.memory, s.nic.buffer).frame) == Some(w) then [PacketMark(s.nic.number)]
    else if a.TimerPut? && s.turn == w then [SyncMark]
    else []
  }

  /** What a run has put for worker `w`, in the order of the puts. */
  function PutBy(c: Config, memory: seq<Capture>, steps: seq<Step>, w: nat): seq<Mark>
    requires |memory| == c.pool
  {
    if steps == [] then []
    else
      var before := steps[..|steps| - 1];
      PutBy(c, memory, before, w) + PutNow(c, Run(c, memory, before), steps[|steps| - 1], w)
  }

  // ---- Order of the puts

  lemma MarksAppend(log: seq<Event>, e: Event, queue: seq<Item>, item: Item)
    ensures LogMarks(log + [e]) == LogMarks(log) + [EventMark(e)]
    ensures QueueMarks(queue + [item]) == QueueMarks(queue) + [ItemMark(item)]
  {
  }

  lemma MarksTake(x: Worker)
    requires x.hand.Ready? && x.queue != []
    ensures Marks(x.(queue := x.queue[1..], hand := Holding(x.queue[0]))) == Marks(x)
  {
    assert QueueMarks(x.queue) == [ItemMark(x.queue[0])] + QueueMarks(x.queue[1..]);
    assert [] + QueueMarks(x.queue) == QueueMarks(x.queue);
  }

  lemma MarksHandle(x: Worker, y: Worker, e: Event)
    requires x.hand.Holding? && !y.hand.Holding? && y.queue == x.queue && y.log == x.log + [e]
    requires EventMark(e) == ItemMark(x.hand.item)
    ensures Marks(y) == Marks(x)
  {
    MarksAppend(x.log, e, [], x.hand.item);
    AppendAssoc(LogMarks(x.log), [EventMark(e)], QueueMarks(x.queue));
    assert [] + QueueMarks(x.queue) == QueueMarks(x.queue);
  }

  lemma TurnMarks(c: Config, x: Worker, memory: seq<Capture>, a: Step)
    requires OfWorker(a) && Able(x, a)
    ensures Marks(Turn(c, x, memory, a).worker) == Marks(x)
  {
    var y := Turn(c, x, memory, a).worker;
    if a.Take? {
      MarksTake(x);
    } else if a.Handle? {
      MarksHandle(x, y, y.log[|x.log|]);
    } else {
      assert y.log == x.log && y.queue == x.queue && HandMarks(y.hand) == HandMarks(x.hand);
    }
  }

  lemma PushMarks(s: State, target: nat, item: Item, w: nat)
    requires w < |s.workers| && target < |s.workers|
    ensures Marks(Push(s, target, item).workers[w]) == Marks(s.workers[w]) + if target == w then [ItemMark(item)] else []
  {
    var x := s.workers[target];
    MarksAppend([], Sync(0, 0), x.queue, item);
    AppendAssoc(HandMarks(x.hand), QueueMarks(x.queue), [ItemMark(item)]);
    AppendAssoc(LogMarks(x.log), HandMarks(x.hand) + QueueMarks(x.queue), [ItemMark(item)]);
    AppendEmpty(Marks(s.workers[w]));
  }

  lemma StepMarks(c: Config, s: State, a: Step, w: nat)
    requires Shaped(c, s) && w < |s.workers|
    ensures var r := Next(c, s, a); w < |r.workers| && Marks(r.workers[w]) == Marks(s.workers[w]) + PutNow(c, s, a, w)
  {
    AppendEmpty(Marks(s.workers[w]));
    if Enabled(s, a) {
      if OfWorker(a) {
        TurnMarks(c, s.workers[a.w], s.memory, a);
      } else if a.NicRoute? {
        var target := Route(c, Content(s.memory, s.nic.buffer).frame);
        if target.Some? {
          PushMarks(s.(nic := Idle), target.value, Data(Made(s)), w);
        }
      } else if a.TimerPut? {
        PushMarks(s, s.turn, Item.SyncTimeout, w);
      }
    }
  }

  /** Queue order: in every reachable state, what a worker has handled, then holds, then has queued, packets
      and SYNC_TIMEOUT messages alike, is what was put for it, in the order of the puts. */
  lemma {:induction false} HandledAsPut(c: Config, memory: seq<Capture>, steps: seq<Step>, w: nat)
    requires |memory| == c.pool && w < Workers(c)
    ensures w < |Run(c, memory, steps).workers| && Marks(Run(c, memory, steps).workers[w]) == PutBy(c, memory, steps, w)
  {
    if steps == [] {
      assert Marks(NEW_WORKER) == [];
    } else {
      var before := steps[..|steps| - 1];
      HandledAsPut(c, memory, before, w);
      RunIntact(c, memory, before);
      StepMarks(c, Run(c, memory, before), steps[|steps| - 1], w);
    }
  }

  // ---- Clock readings

  /** The SYNC_TIMEOUT messages of a log. */
  function Syncs(log: seq<Event>): seq<Event> {
    if log == [] then []
    else Syncs(log[..|log| - 1]) + if log[|log| - 1].Sync? then [log[|log| - 1]] else []
  }

  /** The reading of the clock when worker `w` handles a SYNC_TIMEOUT, with the timeout in effect. */
  function ReadNow(c: Config, s: State, a: Step, w: nat): seq<Event> {
    if Enabled(s, a) && a.Handle? && a.w == w then Reading(c, s.workers[w].hand.item, a.now) else []
  }

  function Reading(c: Config, item: Item, now: uint64): seq<Event> {
    if item.SyncTimeout? then [Sync(now, c.timeout)] else []
  }

  function ReadBy(c: Config, memory: seq<Capture>, steps: seq<Step>, w: nat): seq<Event>
    requires |memory| == c.pool
  {
    if steps == [] then []
    else
      var before := steps[..|steps| - 1];
      ReadBy(c, memory, before, w) + ReadNow(c, Run(c, memory, before), steps[|steps| - 1], w)
  }

  lemma SyncsMore(log: seq<Event>, e: Event)
    ensures Syncs(log + [e]) == Syncs(log) + if e.Sync? then [e] else []
  {
    assert (log + [e])[..|log|] == log;
  }

  lemma HandleReads(c: Config, x: Worker, y: Worker, memory: seq<Capture>, w: nat, now: uint64)
    requires x.hand.Holding? && y == Turn(c, x, memory, Handle(w, now)).worker
    ensures Syncs(y.log) == Syncs(x.log) + Reading(c, x.hand.item, now)
  {
    var e := y.log[|x.log|];
    assert y.log == x.log + [e];
    SyncsMore(x.log, e);
    assert if x.hand.item.SyncTimeout? then e == Sync(now, c.timeout) else e.Arrival?;
  }

  lemma OthersReadNothing(c: Config, s: State, a: Step, w: nat)
    requires w < |s.workers| && Enabled(s, a) && !(a.Handle? && a.w == w)
    ensures w < |Do(c, s, a).workers| && Do(c, s, a).workers[w].log == s.workers[w].log
  {
  }

  lemma StepReads(c: Config, s: State, a: Step, w: nat)
    requires w < |s.workers|
    ensures var r := Next(c, s, a); w < |r.workers| && Syncs(r.workers[w].log) == Syncs(s.workers[w].log) + ReadNow(c, s, a, w)
  {
    AppendEmpty(Syncs(s.workers[w].log));
    if Enabled(s, a) {
      if a.Handle? && a.w == w {
        HandleReads(c, s.workers[w], Do(c, s, a).workers[w], s.memory, w, a.now);
      } else {
        OthersReadNothing(c, s, a, w);
      }
    }
  }

  /** A worker's log has the clock readings that the run made for it, each with the timeout. */
  lemma {:induction false} SyncsAsRead(c: Config, memory: seq<Capture>, steps: seq<Step>, w: nat)
    requires |memory| == c.pool && w < Workers(c)
    ensures w < |Run(c, memory, steps).workers| && Syncs(Run(c, memory, steps).workers[w].log) == ReadBy(c, memory, steps, w)
  {
    if steps != [] {
      var before := steps[..|steps| - 1];
      SyncsAsRead(c, memory, before, w);
      StepReads(c, Run(c, memory, before), steps[|steps| - 1], w);
    }
  }

  // ---- The free list

  /** The buffer that a step takes from the pool. */
  function TakenNow(c: Config, s: State, a: Step): seq<nat> {
    var r := Next(c, s, a);
    if s.nic.Idle? && r.nic.Receiving? then [r.nic.buffer] else []
  }

  /** The buffers that a step gives back: that of a frame which nobody accepts, or what a worker releases. */
  function ReleasedNow(c: Config, s: State, a: Step): seq<nat> {
    if !Enabled(s, a) then []
    else if a.NicRoute? && Route(c, Content(s.memory, s.nic.buffer).frame).None? then [s.nic.buffer]
    else if OfWorker(a) then Turn(c, s.workers[a.w], s.memory, a).freed
    else []
  }

  function TakenBy(c: Config, memory: seq<Capture>, steps: seq<Step>): seq<nat>
    requires |memory| == c.pool
  {
    if steps == [] then []
    else
      var before := steps[..|steps| - 1];
      TakenBy(c, memory, before) + TakenNow(c, Run(c, memory, before), steps[|steps| - 1])
  }

  function ReleasedBy(c: Config, memory: seq<Capture>, steps: seq<Step>): seq<nat>
    requires |memory| == c.pool
  {
    if steps == [] then []
    else
      var before := steps[..|steps| - 1];
      ReleasedBy(c, memory, before) + ReleasedNow(c, Run(c, memory, before), steps[|steps| - 1])
  }

  lemma TakeFree(c: Config, s: State)
    requires Enabled(s, NicTake)
    ensures TakenNow(c, s, NicTake) + Next(c, s, NicTake).free == s.free && ReleasedNow(c, s, NicTake) == []
  {
    assert [s.free[0]] + s.free[1..] == s.free;
  }

  lemma OthersTakeNothing(c: Config, s: State, a: Step)
    requires !(Enabled(s, a) && a.NicTake?)
    ensures TakenNow(c, s, a) == []
  {
  }

  lemma OthersRelease(c: Config, s: State, a: Step)
    requires Shaped(c, s) && !a.NicTake?
    ensures Next(c, s, a).free == s.free + ReleasedNow(c, s, a)
  {
    AppendEmpty(s.free);
  }

  lemma StepFree(c: Config, s: State, a: Step)
    requires Shaped(c, s)
    ensures TakenNow(c, s, a) + Next(c, s, a).free == s.free + ReleasedNow(c, s, a)
  {
    if Enabled(s, a) && a.NicTake? {
      TakeFree(c, s);
      AppendEmpty(s.free);
    } else {
      OthersTakeNothing(c, s, a);
      if a.NicTake? {
        AppendEmpty(s.free);
      } else {
        OthersRelease(c, s, a);
      }
      assert [] + Next(c, s, a).free == Next(c, s, a).free;
    }
  }

  /** The pool is a queue: the buffers taken are, in order, a prefix of all buffers followed by those given
      back, and the free list is the rest. */
  lemma {:induction false} BuffersInTurn(c: Config, memory: seq<Capture>, steps: seq<Step>)
    requires |memory| == c.pool
    ensures TakenBy(c, memory, steps) + Run(c, memory, steps).free == Numbers(c.pool) + ReleasedBy(c, memory, steps)
  {
    if steps == [] {
      AppendEmpty(Numbers(c.pool));
      assert [] + Numbers(c.pool) == Numbers(c.pool);
    } else {
      var before, a := steps[..|steps| - 1], steps[|steps| - 1];
      var s := Run(c, memory, before);
      BuffersInTurn(c, memory, before);
      RunIntact(c, memory, before);
      StepFree(c, s, a);
      AppendAssoc(TakenBy(c, memory, before), TakenNow(c, s, a), Next(c, s, a).free);
      AppendAssoc(TakenBy(c, memory, before), s.free, ReleasedNow(c, s, a));
      AppendAssoc(Numbers(c.pool), ReleasedBy(c, memory, before), ReleasedNow(c, s, a));
    }
  }

  // ---- Receptions and the synchroniser's rounds

  /** The contents that the receive loop has received in a run. */
  function ReceivedBy(c: Config, memory: seq<Capture>, steps: seq<Step>): seq<Capture>
    requires |memory| == c.pool
  {
    if steps == [] then []
    else
      var before := steps[..|steps| - 1];
      ReceivedBy(c, memory, before) + Received(Run(c, memory, before), steps[|steps| - 1])
  }

  lemma {:induction false} ArrivalsAsReceived(c: Config, memory: seq<Capture>, steps: seq<Step>)
    requires |memory| == c.pool
    ensures Run(c, memory, steps).arrivals == ReceivedBy(c, memory, steps)
  {
    if steps != [] {
      var before := steps[..|steps| - 1];
      ArrivalsAsReceived(c, memory, before);
      AppendEmpty(ReceivedBy(c, memory, before));
    }
  }

  lemma ModSuccessor(k: nat, n: nat)
    requires n > 0
    ensures (k % n + 1) % n == (k + 1) % n
  {
    var m := k % n + 1;
    if m < n {
      ModUnique(m, m, 0, n);
      ModUnique(k + 1, m, k / n, n);
    } else {
      ModUnique(m, 0, 1, n);
      ModUnique(k + 1, 0, k / n + 1, n);
    }
  }

  /** The synchroniser serves the queues in turn. */
  lemma {:induction false} RoundRobin(c: Config, memory: seq<Capture>, steps: seq<Step>)
    requires |memory| == c.pool
    ensures Run(c, memory, steps).turn == TimerPuts(steps) % Workers(c)
  {
    if steps == [] {
      ModUnique(0, 0, 0, Workers(c));
    } else {
      var before := steps[..|steps| - 1];
      RoundRobin(c, memory, before);
      RunIntact(c, memory, before);
      ModSuccessor(TimerPuts(before), Workers(c));
    }
  }
}
