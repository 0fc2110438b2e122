/** Every buffer of the pool has exactly one owner, in every state of every run of `Pipeline`. */
module Ownership {
  import opened Bytes
  import opened Sessions
  import opened ObjectPools
  import opened Pipeline

  /** What is counted: one buffer, or all of them. */
  datatype Which = Any | Just(buffer: nat)

  function Weigh(buffer: nat, which: Which): nat {
    Bit(which.Any? || which.buffer == buffer)
  }

  function InList(buffers: seq<nat>, which: Which): nat {
    if buffers == [] then 0 else Weigh(buffers[0], which) + InList(buffers[1..], which)
  }

  function InItem(item: Item, which: Which): nat {
    if item.Data? then Weigh(item.held.buffer, which) else 0
  }

  function InQueue(queue: seq<Item>, which: Which): nat {
    if queue == [] then 0 else InItem(queue[0], which) + InQueue(queue[1..], which)
  }

  function InHand(hand: Hand, which: Which): nat {
    match hand
    case Holding(item) => InItem(item, which)
    case Matched(_, held) => Weigh(held.buffer, which)
    case Spent(held) => Weigh(held.buffer, which)
    case _ => 0
  }

  /** Among the entries with identifiers below `n`. */
  function InSessions(sessions: map<byte, Held>, n: nat, which: Which): nat
    requires n <= 256
  {
    if n == 0 then 0
    else InSessions(sessions, n - 1, which) + if n - 1 in sessions then Weigh(sessions[n - 1].buffer, which) else 0
  }

  function InWorker(x: Worker, which: Which): nat {
    InQueue(x.queue, which) + InHand(x.hand, which) + InSessions(x.sessions, 256, which)
  }

  function InWorkers(xs: seq<Worker>, which: Which): nat {
    if xs == [] then 0 else InWorkers(xs[..|xs| - 1], which) + InWorker(xs[|xs| - 1], which)
  }

  function InNic(nic: Nic, which: Which): nat {
    match nic
    case Idle => 0
    case Receiving(buffer) => Weigh(buffer, which)
    case Routing(buffer, _) => Weigh(buffer, which)
  }

  /** How many owners there are: places in the free list, the receive loop's hand, the workers' queues,
      hands and session maps. */
  function Owners(s: State, which: Which): nat {
    InList(s.free, which) + InNic(s.nic, which) + InWorkers(s.workers, which)
  }

  // ---- Sums

  lemma {:induction false} InListAppend(a: seq<nat>, b: seq<nat>, which: Which)
    ensures InList(a + b, which) == InList(a, which) + InList(b, which)
  {
    if a == [] {
      assert a + b == b;
    } else {
      assert (a + b)[1..] == a[1..] + b;
      InListAppend(a[1..], b, which);
    }
  }

  lemma {:induction false} InQueueSnoc(queue: seq<Item>, item: Item, which: Which)
    ensures InQueue(queue + [item], which) == InQueue(queue, which) + InItem(item, which)
  {
    if queue == [] {
      assert queue + [item] == [item];
    } else {
      assert (queue + [item])[1..] == queue[1..] + [item];
      InQueueSnoc(queue[1..], item, which);
    }
  }

  lemma {:induction false} InSessionsAdd(sessions: map<byte, Held>, id: byte, held: Held, n: nat, which: Which)
    requires n <= 256 && id !in sessions
    ensures InSessions(sessions[id := held], n, which) ==
            InSessions(sessions, n, which) + if id < n then Weigh(held.buffer, which) else 0
  {
    if n > 0 {
      InSessionsAdd(sessions, id, held, n - 1, which);
    }
  }

  lemma InSessionsRemove(sessions: map<byte, Held>, id: byte, which: Which)
    requires id in sessions
    ensures InSessions(Without(sessions, {id}), 256, which) == InSessions(sessions, 256, which) - Weigh(sessions[id].buffer, which)
  {
    var rest := Without(sessions, {id});
    assert rest[id := sessions[id]] == sessions;
    InSessionsAdd(rest, id, sessions[id], 256, which);
  }

  lemma {:induction false} InWorkersUpdate(xs: seq<Worker>, w: nat, y: Worker, which: Which)
    requires w < |xs|
    ensures InWorkers(xs[w := y], which) == InWorkers(xs, which) - InWorker(xs[w], which) + InWorker(y, which)
  {
    var n := |xs| - 1;
    if w == n {
      assert xs[w := y][..n] == xs[..n];
    } else {
      assert xs[w := y][..n] == xs[..n][w := y];
      InWorkersUpdate(xs[..n], w, y, which);
    }
  }

  // ---- Steps

  /** A worker's step loses no buffer and makes none: what it no longer owns it has released. */
  lemma TurnConserves(c: Config, x: Worker, memory: seq<Capture>, a: Step, which: Which)
    requires OfWorker(a) && Able(x, a)
    ensures var e := Turn(c, x, memory, a);
            InWorker(e.worker, which) + InList(e.freed, which) == InWorker(x, which)
  {
    match a {
      case Handle(w, _) =>
        if x.hand.item.Data? {
          DataConserves(c, x, Content(memory, x.hand.item.held.buffer), w, which);
        }
      case Erase(_) =>
        if x.hand.id in x.sessions {
          InSessionsRemove(x.sessions, x.hand.id, which);
        } else {
          assert Without(x.sessions, {x.hand.id}) == x.sessions;
        }
      case Visit(_, id) =>
        if id in x.sessions {
          InSessionsRemove(x.sessions, id, which);
        }
      case _ =>
    }
  }

  lemma DataConserves(c: Config, x: Worker, capture: Capture, w: nat, which: Which)
    requires x.hand.Holding? && x.hand.item.Data?
    ensures var e := HandleData(c, x, capture, x.hand.item.held, w);
            InWorker(e.worker, which) + InList(e.freed, which) == InWorker(x, which)
  {
    var id := EventOf(capture, 0).id;
    if id !in x.sessions {
      InSessionsAdd(x.sessions, id, x.hand.item.held, 256, which);
    }
  }

  lemma PushAdds(s: State, w: nat, item: Item, which: Which)
    requires w < |s.workers|
    ensures Owners(Push(s, w, item), which) == Owners(s, which) + InItem(item, which)
  {
    var x := s.workers[w];
    InQueueSnoc(x.queue, item, which);
    InWorkersUpdate(s.workers, w, x.(queue := x.queue + [item]), which);
  }

  lemma RouteConserves(c: Config, s: State, which: Which)
    requires s.nic.Routing?
    ensures Owners(RouteFrame(c, s), which) == Owners(s, which)
  {
    var target := Route(c, Content(s.memory, s.nic.buffer).frame);
    if target.Some? && target.value < |s.workers| {
      PushAdds(s.(nic := Idle), target.value, Data(Made(s)), which);
    } else {
      InListAppend(s.free, [s.nic.buffer], which);
    }
  }

  lemma WorkerConserves(c: Config, s: State, a: Step, which: Which)
    requires OfWorker(a) && Enabled(s, a)
    ensures Owners(Do(c, s, a), which) == Owners(s, which)
  {
    var e := Turn(c, s.workers[a.w], s.memory, a);
    TurnConserves(c, s.workers[a.w], s.memory, a, which);
    InWorkersUpdate(s.workers, a.w, e.worker, which);
    InListAppend(s.free, e.freed, which);
  }

  lemma StepConserves(c: Config, s: State, a: Step, which: Which)
    ensures Owners(Next(c, s, a), which) == Owners(s, which)
  {
    if Enabled(s, a) {
      if OfWorker(a) {
        WorkerConserves(c, s, a, which);
      } else if a.NicRoute? {
        RouteConserves(c, s, which);
      } else if a.TimerPut? {
        PushAdds(s, s.turn, Item.SyncTimeout, which);
      }
    }
  }

  // ---- Runs

  lemma {:induction false} NumbersOwned(n: nat, which: Which)
    ensures InList(Numbers(n), which) == if which.Any? then n else Bit(which.buffer < n)
  {
    if n > 0 {
      NumbersOwned(n - 1, which);
      assert Numbers(n) == Numbers(n - 1) + [n - 1];
      InListAppend(Numbers(n - 1), [n - 1], which);
    }
  }

  lemma {:induction false} NewWorkersOwnNothing(n: nat, which: Which)
    ensures InWorkers(seq(n, _ => NEW_WORKER), which) == 0
  {
    if n > 0 {
      assert seq(n, _ => NEW_WORKER)[..n - 1] == seq(n - 1, _ => NEW_WORKER);
      NewWorkersOwnNothing(n - 1, which);
      EmptySessions(256, which);
    }
  }

  lemma {:induction false} EmptySessions(n: nat, which: Which)
    requires n <= 256
    ensures InSessions(map[], n, which) == 0
  {
    if n > 0 {
      EmptySessions(n - 1, which);
    }
  }

  lemma {:induction false} RunConserves(c: Config, memory: seq<Capture>, steps: seq<Step>, which: Which)
    requires |memory| == c.pool
    ensures Owners(Run(c, memory, steps), which) == if which.Any? then c.pool else Bit(which.buffer < c.pool)
  {
    if steps == [] {
      NumbersOwned(c.pool, which);
      NewWorkersOwnNothing(Workers(c), which);
    } else {
      RunConserves(c, memory, steps[..|steps| - 1], which);
      StepConserves(c, Run(c, memory, steps[..|steps| - 1]), steps[|steps| - 1], which);
    }
  }

  /** Single ownership: in every reachable state each buffer of the pool is in exactly one place, no
      other buffer is anywhere, and the places number as many as the buffers. */
  lemma SingleOwnership(c: Config, memory: seq<Capture>, steps: seq<Step>)
    requires |memory| == c.pool
    ensures var s := Run(c, memory, steps);
            && (forall b: nat :: Owners(s, Just(b)) == if b < c.pool then 1 else 0)
            && Owners(s, Any) == c.pool
  {
    RunConserves(c, memory, steps, Any);
    forall b: nat ensures Owners(Run(c, memory, steps), Just(b)) == if b < c.pool then 1 else 0 {
      RunConserves(c, memory, steps, Just(b));
    }
  }
}
