/** When the receive loop of `Pipeline` can find the pool empty with every worker idle: exactly when the
    session maps can keep the whole pool. */
module Progress {
  import opened Bytes
  import opened Frames
  import opened Sessions
  import opened ObjectPools
  import opened Pipeline
  import opened Ownership
  import opened Delivery
  import opened WorkerLedgers

  /** The receive loop waits for a free buffer and every worker waits on its empty queue. */
  predicate Starved(s: State) {
    s.nic.Idle? && s.free == [] && forall x | x in s.workers :: x.hand.Ready? && x.queue == []
  }

  /** Starvation is when nobody but the synchroniser can make a step. */
  lemma StarvedMeansStuck(s: State)
    ensures Starved(s) <==> forall a | Enabled(s, a) :: a.TimerPut?
  {
    if forall a | Enabled(s, a) :: a.TimerPut? {
      assert !Enabled(s, NicTake) && !Enabled(s, NicRoute);
      assert !Enabled(s, NicReceive(Content([], 0)));
      forall x | x in s.workers ensures x.hand.Ready? && x.queue == [] {
        var w: nat :| w < |s.workers| && s.workers[w] == x;
        assert !Enabled(s, Take(w)) && !Enabled(s, Handle(w, 0)) && !Enabled(s, Erase(w));
        assert !Enabled(s, EndSweep(w)) && !Enabled(s, Release(w));
        if x.hand.Sweeping? && x.hand.todo != {} {
          var id :| id in x.hand.todo;
          assert Enabled(s, Visit(w, id));
        }
      }
    }
  }

  // ---- How many session maps can fill

  /** The number of values of the worker hash. */
  const HASHES: nat := MAX_IP_HASH - MIN_IP_HASH + 1

  function Min(a: nat, b: nat): nat {
    if a <= b then a else b
  }

  /** How many buffers the session maps can keep. */
  function Capacity(c: Config): nat {
    256 * Min(c.radius, HASHES)
  }

  /** Which hash value, counted from the least one, leads to RADIUS worker `w` first. */
  function FirstHash(c: Config, w: nat): nat {
    (w + (c.radius - 1) * MIN_IP_HASH) % c.radius
  }

  /** The worker behind the hash value `g`, counted from the least one. */
  function WorkerOf(c: Config, g: nat): nat {
    (MIN_IP_HASH + g) % c.radius
  }

  lemma ModUnique(a: int, b: int, q: int, n: nat)
    requires n > 0 && a == b + q * n && 0 <= b < n
    ensures a % n == b
  {
    var k := a / n - q;
    assert k > 0 ==> k * n >= n;
    assert k < 0 ==> k * n <= 0 - n;
    assert b == a % n + k * n;
  }

  lemma FirstHashInverse(c: Config, g: nat)
    ensures FirstHash(c, WorkerOf(c, g)) == g % c.radius
  {
    var n := c.radius;
    var w, q := WorkerOf(c, g), (MIN_IP_HASH + g) / n;
    assert w + (n - 1) * MIN_IP_HASH == g % n + (g / n - q + MIN_IP_HASH) * n;
    ModUnique(w + (n - 1) * MIN_IP_HASH, g % n, g / n - q + MIN_IP_HASH, n);
  }

  // ---- A large pool never runs dry

  lemma {:induction false} SessionsBound(sessions: map<byte, Held>, n: nat)
    requires n <= 256
    ensures InSessions(sessions, n, Any) <= n
    ensures sessions == map[] ==> InSessions(sessions, n, Any) == 0
  {
    if n > 0 {
      SessionsBound(sessions, n - 1);
    }
  }

  lemma {:induction false} HandledHas(log: seq<Event>, k: nat)
    requires k < |log| && log[k].Arrival?
    ensures log[k].number in Handled(log)
  {
    if k < |log| - 1 {
      HandledHas(log[..|log| - 1], k);
    }
  }

  lemma {:induction false} RoutedToMeaning(c: Config, arrivals: seq<Capture>, w: nat)
    ensures forall n: nat :: n in RoutedTo(c, arrivals, w) <==> n < |arrivals| && Route(c, arrivals[n].frame) == Some(w)
  {
    if arrivals != [] {
      RoutedToMeaning(c, arrivals[..|arrivals| - 1], w);
    }
  }

  /** A worker handles only packets that are routed to it. */
  lemma HandledIsRouted(c: Config, s: State, w: nat, k: nat)
    requires w < |s.workers| && InOrder(c, s, w) && k < |s.workers[w].log| && s.workers[w].log[k].Arrival?
    ensures var n := s.workers[w].log[k].number; n < |s.arrivals| && Route(c, s.arrivals[n].frame) == Some(w)
  {
    var x := s.workers[w];
    HandledHas(x.log, k);
    assert x.log[k].number in Stream(x) + Coming(c, s, w);
    RoutedToMeaning(c, s.arrivals, w);
  }

  /** Only the workers behind the hash values keep packets. */
  lemma KeepersAreHashed(c: Config, memory: seq<Capture>, steps: seq<Step>, w: nat)
    requires |memory| == c.pool && w < Workers(c)
    requires var s := Run(c, memory, steps); w < |s.workers| && s.workers[w].sessions != map[] && s.workers[w].hand.Ready?
    ensures w < c.radius && FirstHash(c, w) < HASHES
  {
    var s := Run(c, memory, steps);
    EveryWorkerTracks(c, memory, steps);
    EveryPacketInOrder(c, memory, steps, w);
    var x := s.workers[w];
    assert Tracks(c, x, w, s.arrivals, SentBy(Names(s.notified), w));
    var l := After(x.log, |x.log|);
    var i :| i in x.sessions;
    assert i in l.pending;
    HandledIsRouted(c, s, w, l.pending[i]);
    var f := s.arrivals[x.log[l.pending[i]].number].frame;
    IpHashRange(f);
    var g := EthHash(f) - MIN_IP_HASH;
    FirstHashInverse(c, g);
    assert WorkerOf(c, g) == w;
    ModAtMost(g, c.radius);
  }

  lemma ModAtMost(a: nat, n: nat)
    requires n > 0
    ensures a % n <= a
  {
    if a < n {
      ModUnique(a, a, 0, n);
    }
  }

  /** How many of the first `n` workers are behind a hash value. */
  function Keepers(c: Config, n: nat): nat {
    if n == 0 then 0 else Keepers(c, n - 1) + Bit(n - 1 < c.radius && FirstHash(c, n - 1) < HASHES)
  }

  lemma {:induction false} KeptBound(c: Config, xs: seq<Worker>)
    requires forall w | 0 <= w < |xs| ::
               && xs[w].hand.Ready? && xs[w].queue == []
               && (xs[w].sessions == map[] || (w < c.radius && FirstHash(c, w) < HASHES))
    ensures InWorkers(xs, Any) <= 256 * Keepers(c, |xs|)
  {
    if xs != [] {
      var n := |xs| - 1;
      KeptBound(c, xs[..n]);
      SessionsBound(xs[n].sessions, 256);
    }
  }

  lemma FirstHashCases(c: Config, w: nat)
    requires w < c.radius && c.radius > MIN_IP_HASH
    ensures FirstHash(c, w) == if w >= MIN_IP_HASH then w - MIN_IP_HASH else w + c.radius - MIN_IP_HASH
  {
    var n := c.radius;
    var r := if w >= MIN_IP_HASH then w - MIN_IP_HASH else w + n - MIN_IP_HASH;
    ModUnique(w + (n - 1) * MIN_IP_HASH, r, if w >= MIN_IP_HASH then MIN_IP_HASH else MIN_IP_HASH - 1, n);
  }

  /** Of the workers with numbers below `n`, those behind the hash values that wrap around, and the others. */
  function Quota(c: Config, n: nat): nat {
    var wrapped := if c.radius >= MAX_IP_HASH + 1 then 0 else MAX_IP_HASH + 1 - c.radius;
    if n <= MIN_IP_HASH then Min(n, wrapped) else wrapped + Min(n - MIN_IP_HASH, HASHES)
  }

  lemma {:induction false} ManyKeepers(c: Config, n: nat)
    requires n <= c.radius && c.radius > HASHES
    ensures Keepers(c, n) <= Quota(c, n)
  {
    if n > 0 {
      ManyKeepers(c, n - 1);
      FirstHashCases(c, n - 1);
    }
  }

  lemma {:induction false} FewKeepers(c: Config, n: nat)
    ensures Keepers(c, n) <= Min(n, c.radius)
  {
    if n > 0 {
      FewKeepers(c, n - 1);
    }
  }

  lemma {:induction false} NoMoreKeepers(c: Config, n: nat)
    requires n >= c.radius
    ensures Keepers(c, n) == Keepers(c, c.radius)
  {
    if n > c.radius {
      NoMoreKeepers(c, n - 1);
    }
  }

  lemma KeepersTotal(c: Config)
    ensures Keepers(c, Workers(c)) <= Min(c.radius, HASHES)
  {
    NoMoreKeepers(c, Workers(c));
    FewKeepers(c, c.radius);
    if c.radius > HASHES {
      ManyKeepers(c, c.radius);
    }
  }

  /** Pipeline progress: with more buffers than the session maps can keep, the pipeline is never stuck. */
  lemma NeverStarved(c: Config, memory: seq<Capture>, steps: seq<Step>)
    requires |memory| == c.pool > Capacity(c)
    ensures !Starved(Run(c, memory, steps))
  {
    var s := Run(c, memory, steps);
    if Starved(s) {
      EveryWorkerTracks(c, memory, steps);
      forall w | 0 <= w < |s.workers| && s.workers[w].sessions != map[]
        ensures w < c.radius && FirstHash(c, w) < HASHES
      {
        assert s.workers[w] in s.workers;
        KeepersAreHashed(c, memory, steps, w);
      }
      KeptBound(c, s.workers);
      KeepersTotal(c);
      RunConserves(c, memory, steps, Any);
      assert false;
    }
  }

  // ---- A small pool can

  /** The packet number `k` of the run that fills the session maps. */
  function FillingCapture(k: nat): Capture
    requires k < 256 * HASHES
  {
    Capture(RadiusFrame(MIN_IP_HASH + k / 256, k % 256), 0, _ => 0)
  }

  function FillingSteps(c: Config, k: nat): seq<Step>
    requires k < 256 * HASHES
  {
    var w := WorkerOf(c, k / 256);
    [NicTake, NicReceive(FillingCapture(k)), NicRoute, Take(w), Handle(w, 0)]
  }

  /** `k` packets are stored, filling one session map after the other, and everybody is idle. */
  ghost predicate FilledUp(c: Config, s: State, k: nat) {
    && |s.memory| == c.pool && |s.workers| == Workers(c) && k <= c.pool
    && s.nic.Idle? && s.free == Numbers(c.pool)[k..]
    && (forall x | x in s.workers :: x.hand.Ready? && x.queue == [])
    && forall w: nat, i | w < c.radius && i in s.workers[w].sessions :: 256 * FirstHash(c, w) + i < k
  }

  lemma ExecMore(c: Config, s: State, steps: seq<Step>, a: Step)
    ensures Exec(c, s, steps + [a]) == Next(c, Exec(c, s, steps), a)
  {
    assert (steps + [a])[..|steps|] == steps;
  }

  /** A free buffer is taken and filled. */
  lemma FillingReceives(c: Config, s: State, k: nat) returns (r: State)
    requires FilledUp(c, s, k) && k < c.pool && k < Capacity(c)
    ensures r == Next(c, Next(c, s, NicTake), NicReceive(FillingCapture(k)))
    ensures r.nic == Routing(k, |s.arrivals|) && Content(r.memory, k) == FillingCapture(k) && k < |r.memory| == c.pool
    ensures r.free == Numbers(c.pool)[k + 1..] && r.workers == s.workers
  {
    var s1 := Next(c, s, NicTake);
    assert s1.nic == Receiving(k) && s1.free == Numbers(c.pool)[k + 1..];
    r := Next(c, s1, NicReceive(FillingCapture(k)));
  }

  /** It is routed to its worker. */
  lemma FillingDelivers(c: Config, s: State, k: nat) returns (r: State, held: Held)
    requires FilledUp(c, s, k) && k < c.pool && k < Capacity(c)
    ensures r == Next(c, Next(c, Next(c, s, NicTake), NicReceive(FillingCapture(k))), NicRoute)
    ensures var w := WorkerOf(c, k / 256);
            && held.buffer < |r.memory| && r.memory[held.buffer] == FillingCapture(k)
            && r.free == Numbers(c.pool)[k + 1..] && r.nic.Idle? && |r.memory| == c.pool
            && w < |s.workers| && r.workers == s.workers[w := s.workers[w].(queue := [Data(held)])]
  {
    var w := WorkerOf(c, k / 256);
    var s2 := FillingReceives(c, s, k);
    held := Made(s2);
    r := Next(c, s2, NicRoute);
    RadiusFrameExists(MIN_IP_HASH + k / 256, k % 256);
    assert Route(c, FillingCapture(k).frame) == Some(w);
    assert s.workers[w] in s.workers;
    assert [] + [Data(held)] == [Data(held)];
  }

  /** The worker takes it and, its identifier being free, stores it. */
  lemma FillingStores(c: Config, s: State, k: nat, x: Worker, held: Held, w: nat) returns (y: Worker)
    requires w < |s.workers| && w < c.radius && x.hand.Ready? && x.queue == [] && s.workers[w] == x.(queue := [Data(held)])
    requires k < 256 * HASHES && held.buffer < |s.memory| && s.memory[held.buffer] == FillingCapture(k) && k % 256 !in x.sessions
    ensures y.hand.Ready? && y.queue == [] && y.sessions == x.sessions[k % 256 := held]
    ensures Next(c, Next(c, s, Take(w)), Handle(w, 0)) == s.(workers := s.workers[w := y])
  {
    var id := k % 256;
    RadiusFrameExists(MIN_IP_HASH + k / 256, id);
    var x1 := x.(queue := [], hand := Holding(Data(held)));
    var s1 := Next(c, s, Take(w));
    assert [Data(held)][1..] == [];
    assert s1 == s.(workers := s.workers[w := x1]) by {
      AppendEmpty(s.free);
      AppendEmpty(s.notified);
    }
    y := HandleData(c, x1, FillingCapture(k), held, w).worker;
    AppendEmpty(s1.free);
    AppendEmpty(s1.notified);
    assert s.workers[w := x1][w := y] == s.workers[w := y];
  }

  lemma FillingStep(c: Config, s: State, k: nat)
    requires FilledUp(c, s, k) && k < c.pool && k < Capacity(c)
    ensures FilledUp(c, Exec(c, s, FillingSteps(c, k)), k + 1)
  {
    var w, id := WorkerOf(c, k / 256), k % 256;
    FirstHashInverse(c, k / 256);
    ModUnique(k / 256, k / 256, 0, c.radius);
    var s3, held := FillingDelivers(c, s, k);
    assert s.workers[w] in s.workers;
    assert 256 * FirstHash(c, w) + id == k;
    var y := FillingStores(c, s3, k, s.workers[w], held, w);
    ExecFive(c, s, NicTake, NicReceive(FillingCapture(k)), NicRoute, Take(w), Handle(w, 0));
    assert s3.workers[w := y] == s.workers[w := y];
  }

  lemma ExecFive(c: Config, s: State, a1: Step, a2: Step, a3: Step, a4: Step, a5: Step)
    ensures Exec(c, s, [a1, a2, a3, a4, a5]) == Next(c, Next(c, Next(c, Next(c, Next(c, s, a1), a2), a3), a4), a5)
  {
    var none: seq<Step> := [];
    var one := none + [a1];
    var two := one + [a2];
    var three := two + [a3];
    var four := three + [a4];
    ExecMore(c, s, none, a1);
    ExecMore(c, s, one, a2);
    ExecMore(c, s, two, a3);
    ExecMore(c, s, three, a4);
    ExecMore(c, s, four, a5);
    assert four + [a5] == [a1, a2, a3, a4, a5];
  }

  lemma {:induction false} ExecAppend(c: Config, s: State, a: seq<Step>, b: seq<Step>)
    ensures Exec(c, s, a + b) == Exec(c, Exec(c, s, a), b)
  {
    if b == [] {
      AppendEmpty(a);
    } else {
      assert (a + b)[..|a + b| - 1] == a + b[..|b| - 1];
      ExecAppend(c, s, a, b[..|b| - 1]);
    }
  }

  /** A run that fills the session maps with `k` packets. */
  lemma {:induction false} FillingRun(c: Config, memory: seq<Capture>, k: nat) returns (steps: seq<Step>)
    requires |memory| == c.pool && k <= c.pool && k <= Capacity(c)
    ensures FilledUp(c, Run(c, memory, steps), k)
  {
    if k == 0 {
      steps := [];
      assert forall x | x in Init(c, memory).workers :: x == NEW_WORKER;
    } else {
      var before := FillingRun(c, memory, k - 1);
      steps := before + FillingSteps(c, k - 1);
      FillingStep(c, Run(c, memory, before), k - 1);
      ExecAppend(c, Init(c, memory), before, FillingSteps(c, k - 1));
    }
  }

  ghost predicate CanStarve(c: Config) {
    exists memory: seq<Capture>, steps: seq<Step> :: |memory| == c.pool && Starved(Run(c, memory, steps))
  }

  /** Some run gets stuck exactly when the session maps can keep the whole pool. */
  lemma StarvesExactly(c: Config)
    ensures CanStarve(c) <==> c.pool <= Capacity(c)
  {
    if c.pool <= Capacity(c) {
      var memory := seq(c.pool, _ => Content([], 0));
      var steps := FillingRun(c, memory, c.pool);
      assert Starved(Run(c, memory, steps));
    }
    if CanStarve(c) {
      var memory: seq<Capture>, steps: seq<Step> :| |memory| == c.pool && Starved(Run(c, memory, steps));
      if c.pool > Capacity(c) {
        NeverStarved(c, memory, steps);
      }
    }
  }

  // ---- Workers settle

  function ItemEffort(item: Item): nat {
    if item.Data? then 4 else 259
  }

  function QueueEffort(queue: seq<Item>): nat {
    if queue == [] then 0 else ItemEffort(queue[0]) + QueueEffort(queue[1..])
  }

  function HandEffort(hand: Hand): nat {
    match hand
    case Ready => 0
    case Holding(item) => ItemEffort(item) - 1
    case Matched(_, _) => 2
    case Sweeping(_, todo) => |todo| + 1
    case Spent(_) => 1
  }

  /** A bound on the steps that the workers can still make with what they have. */
  function Effort(xs: seq<Worker>): nat {
    if xs == [] then 0
    else Effort(xs[..|xs| - 1]) + QueueEffort(xs[|xs| - 1].queue) + HandEffort(xs[|xs| - 1].hand)
  }

  lemma {:induction false} EffortUpdate(xs: seq<Worker>, w: nat, y: Worker)
    requires w < |xs|
    ensures Effort(xs[w := y]) == Effort(xs) - QueueEffort(xs[w].queue) - HandEffort(xs[w].hand) + QueueEffort(y.queue) + HandEffort(y.hand)
  {
    var n := |xs| - 1;
    if w == n {
      assert xs[w := y][..n] == xs[..n];
    } else {
      assert xs[w := y][..n] == xs[..n][w := y];
      EffortUpdate(xs[..n], w, y);
    }
  }

  lemma HandleEffort(c: Config, x: Worker, memory: seq<Capture>, w: nat, now: uint64)
    requires x.hand.Holding?
    ensures var y := Turn(c, x, memory, Handle(w, now)).worker; y.queue == x.queue && HandEffort(y.hand) < HandEffort(x.hand)
  {
    SetSizeBelow(x.sessions.Keys, 256);
  }

  lemma TurnEffort(c: Config, x: Worker, memory: seq<Capture>, a: Step)
    requires OfWorker(a) && Able(x, a)
    ensures var y := Turn(c, x, memory, a).worker;
            QueueEffort(y.queue) + HandEffort(y.hand) < QueueEffort(x.queue) + HandEffort(x.hand)
  {
    if a.Handle? {
      HandleEffort(c, x, memory, a.w, a.now);
    } else if a.Visit? {
      assert |x.hand.todo - {a.id}| == |x.hand.todo| - 1;
    }
  }

  lemma StepEffort(c: Config, s: State, a: Step)
    requires OfWorker(a) && Enabled(s, a)
    ensures var r := Next(c, s, a); Effort(r.workers) < Effort(s.workers) && r.nic == s.nic && |r.workers| == |s.workers|
  {
    TurnEffort(c, s.workers[a.w], s.memory, a);
    EffortUpdate(s.workers, a.w, Turn(c, s.workers[a.w], s.memory, a).worker);
  }

  /** Only workers make steps, and every step is possible when it is made. */
  ghost predicate WorkersOnly(c: Config, s: State, steps: seq<Step>) {
    forall k | 0 <= k < |steps| :: OfWorker(steps[k]) && Enabled(Exec(c, s, steps[..k]), steps[k])
  }

  lemma WorkersOnlyPrefix(c: Config, s: State, steps: seq<Step>, n: nat)
    requires WorkersOnly(c, s, steps) && n <= |steps|
    ensures WorkersOnly(c, s, steps[..n])
  {
    forall k | 0 <= k < n ensures OfWorker(steps[..n][k]) && Enabled(Exec(c, s, steps[..n][..k]), steps[..n][k]) {
      assert steps[..n][..k] == steps[..k] && steps[..n][k] == steps[k];
    }
  }

  /** How often the synchroniser puts a message. */
  function TimerPuts(steps: seq<Step>): nat {
    if steps == [] then 0 else TimerPuts(steps[..|steps| - 1]) + Bit(steps[|steps| - 1].TimerPut?)
  }

  /** The receive loop makes no step; workers and synchroniser do, each step when it is possible. */
  ghost predicate LoopWaits(c: Config, s: State, steps: seq<Step>) {
    forall k | 0 <= k < |steps| :: (OfWorker(steps[k]) || steps[k].TimerPut?) && Enabled(Exec(c, s, steps[..k]), steps[k])
  }

  lemma LoopWaitsPrefix(c: Config, s: State, steps: seq<Step>, n: nat)
    requires LoopWaits(c, s, steps) && n <= |steps|
    ensures LoopWaits(c, s, steps[..n])
  {
    forall k | 0 <= k < n
      ensures (OfWorker(steps[..n][k]) || steps[..n][k].TimerPut?) && Enabled(Exec(c, s, steps[..n][..k]), steps[..n][k])
    {
      assert steps[..n][..k] == steps[..k] && steps[..n][k] == steps[k];
    }
  }

  lemma {:induction false} QueueEffortSnoc(queue: seq<Item>, item: Item)
    ensures QueueEffort(queue + [item]) == QueueEffort(queue) + ItemEffort(item)
  {
    if queue == [] {
      assert queue + [item] == [item];
    } else {
      assert (queue + [item])[1..] == queue[1..] + [item];
      QueueEffortSnoc(queue[1..], item);
    }
  }

  lemma PutEffort(c: Config, s: State)
    requires Enabled(s, TimerPut)
    ensures var r := Next(c, s, TimerPut);
            Effort(r.workers) == Effort(s.workers) + 259 && r.nic == s.nic && |r.workers| == |s.workers|
  {
    var x := s.workers[s.turn];
    QueueEffortSnoc(x.queue, Item.SyncTimeout);
    EffortUpdate(s.workers, s.turn, x.(queue := x.queue + [Item.SyncTimeout]));
  }

  /** What the workers have to do is used up by their steps; only the synchroniser adds to it. */
  lemma {:induction false} WorkersSettle(c: Config, s: State, steps: seq<Step>)
    requires LoopWaits(c, s, steps)
    ensures var r := Exec(c, s, steps);
            && |steps| + Effort(r.workers) <= Effort(s.workers) + 260 * TimerPuts(steps)
            && r.nic == s.nic && |r.workers| == |s.workers|
  {
    if steps != [] {
      var n := |steps| - 1;
      LoopWaitsPrefix(c, s, steps, n);
      WorkersSettle(c, s, steps[..n]);
      if steps[n].TimerPut? {
        PutEffort(c, Exec(c, s, steps[..n]));
      } else {
        StepEffort(c, Exec(c, s, steps[..n]), steps[n]);
      }
    }
  }

  /** A buffer comes back: while the receive loop waits, the workers make no more than `Effort` steps and 259
      more for each message of the synchroniser, and when they cannot go on, the pool has a free buffer. */
  lemma BufferComesBack(c: Config, memory: seq<Capture>, steps: seq<Step>, more: seq<Step>)
    requires |memory| == c.pool > Capacity(c) && Run(c, memory, steps).nic.Idle?
    requires LoopWaits(c, Run(c, memory, steps), more)
    ensures var r := Exec(c, Run(c, memory, steps), more);
            && |more| <= Effort(Run(c, memory, steps).workers) + 260 * TimerPuts(more)
            && ((forall a | OfWorker(a) :: !Enabled(r, a)) ==> r.free != [])
  {
    var s := Run(c, memory, steps);
    var r := Exec(c, s, more);
    WorkersSettle(c, s, more);
    ExecAppend(c, Init(c, memory), steps, more);
    NeverStarved(c, memory, steps + more);
    StarvedMeansStuck(r);
  }
}
