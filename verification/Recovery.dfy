/**
 How `Pipeline` recovers from the state in which nobody but the synchroniser can make a step: a round of
 SYNC_TIMEOUT messages that expires everything pending brings every buffer back, whatever the pool's size.
 */
module Recovery {
  import opened Bytes
  import opened Sessions
  import opened Pipeline
  import opened Ownership
  import opened WorkerLedgers
  import Delivery
  import opened Progress

  /** The receive loop waits for a buffer and the workers have nothing to do. */
  predicate Quiet(s: State) {
    s.nic.Idle? && forall x | x in s.workers :: x.hand.Ready? && x.queue == []
  }

  ghost predicate WorkersIdle(s: State) {
    forall a | OfWorker(a) :: !Enabled(s, a)
  }

  lemma IdleHands(s: State, w: nat)
    requires WorkersIdle(s) && w < |s.workers|
    ensures s.workers[w].hand.Ready? && s.workers[w].queue == []
  {
    var x := s.workers[w];
    assert !Enabled(s, Take(w)) && !Enabled(s, Handle(w, 0)) && !Enabled(s, Erase(w));
    assert !Enabled(s, EndSweep(w)) && !Enabled(s, Release(w));
    if x.hand.Sweeping? && x.hand.todo != {} {
      var id :| id in x.hand.todo;
      assert Enabled(s, Visit(w, id));
    }
  }

  // ---- The round

  /** A broadcast of the synchroniser, one put for each worker. */
  function Round(n: nat): seq<Step> {
    if n == 0 then [] else Round(n - 1) + [TimerPut]
  }

  /** After how many puts it is the turn of worker `v`. */
  function Offset(v: nat, turn: nat, n: nat): int {
    if v >= turn then v - turn else v - turn + n
  }

  /** The worker with a SYNC_TIMEOUT in its queue. */
  function Notified(x: Worker): Worker {
    x.(queue := [Item.SyncTimeout])
  }

  /** `r` is `s` after `n` puts. */
  ghost predicate PutTo(s: State, r: State, n: nat) {
    && r == s.(workers := r.workers, turn := r.turn) && |r.workers| == |s.workers|
    && (forall v: nat | v < |s.workers| ::
          r.workers[v] == if Offset(v, s.turn, |s.workers|) < n then Notified(s.workers[v]) else s.workers[v])
    && r.turn == if s.turn + n < |s.workers| then s.turn + n else s.turn + n - |s.workers|
  }

  lemma PutNext(c: Config, s: State, r: State, n: nat)
    requires Quiet(s) && n < |s.workers| && s.turn < |s.workers| && PutTo(s, r, n)
    ensures PutTo(s, Next(c, r, TimerPut), n + 1)
  {
    var x := s.workers[r.turn];
    assert x in s.workers;
    assert Offset(r.turn, s.turn, |s.workers|) == n;
    assert [] + [Item.SyncTimeout] == [Item.SyncTimeout];
    Successor(r.turn, |s.workers|);
    assert Next(c, r, TimerPut).workers == r.workers[r.turn := Notified(x)];
  }

  lemma {:induction false} RoundPuts(c: Config, s: State, n: nat)
    requires Quiet(s) && n <= |s.workers| && s.turn < |s.workers|
    ensures PutTo(s, Exec(c, s, Round(n)), n)
  {
    if n > 0 {
      RoundPuts(c, s, n - 1);
      assert Round(n)[..|Round(n)| - 1] == Round(n - 1);
      PutNext(c, s, Exec(c, s, Round(n - 1)), n - 1);
    }
  }

  lemma Successor(a: nat, n: nat)
    requires a < n
    ensures (a + 1) % n == if a + 1 < n then a + 1 else 0
  {
  }

  // ---- What the workers do with it

  /** At the time `now` every entry is past the timeout. */
  ghost predicate AllExpired(c: Config, sessions: map<byte, Held>, memory: seq<Capture>, now: uint64) {
    forall i | i in sessions :: Expired(Content(memory, sessions[i].buffer).stamp, now, c.timeout)
  }

  /** A worker on its way from its notification to an empty session map; `was` is what the map was then. */
  ghost predicate Clearing(c: Config, x: Worker, was: map<byte, Held>, memory: seq<Capture>) {
    && (forall i | i in x.sessions :: i in was && x.sessions[i] == was[i])
    && match x.hand
       case Ready => x.queue == [Item.SyncTimeout] || (x.queue == [] && x.sessions == map[])
       case Holding(item) => item.SyncTimeout? && x.queue == []
       case Sweeping(now, todo) => x.queue == [] && x.sessions.Keys <= todo && AllExpired(c, was, memory, now)
       case _ => false
  }

  lemma ClearingTurn(c: Config, x: Worker, was: map<byte, Held>, memory: seq<Capture>, a: Step)
    requires OfWorker(a) && Able(x, a) && Clearing(c, x, was, memory)
    requires a.w >= c.radius ==> was == map[]
    requires a.Handle? ==> AllExpired(c, was, memory, a.now)
    ensures Clearing(c, Turn(c, x, memory, a).worker, was, memory)
  {
    if a.Take? {
      assert [Item.SyncTimeout][1..] == [];
    } else if a.Handle? && a.w >= c.radius {
      assert x.sessions == map[];
    }
  }

  /** Whatever the workers read from the clock is past everything that is pending in `s`. */
  ghost predicate LateClocks(c: Config, s: State, steps: seq<Step>) {
    forall a, x | a in steps && a.Handle? && x in s.workers :: AllExpired(c, x.sessions, s.memory, a.now)
  }

  lemma LateClocksParts(c: Config, s: State, steps: seq<Step>, n: nat)
    requires LateClocks(c, s, steps) && n < |steps|
    ensures LateClocks(c, s, steps[..n]) && LateClocks(c, s, [steps[n]])
  {
    assert steps[n] in steps && forall a | a in steps[..n] :: a in steps;
  }

  ghost predicate AllClearing(c: Config, s: State, r: State) {
    && r.memory == s.memory && r.nic == s.nic && |r.workers| == |s.workers|
    && forall w: nat | w < |s.workers| :: Clearing(c, r.workers[w], s.workers[w].sessions, s.memory)
  }

  lemma ClearingStep(c: Config, s: State, r: State, a: Step)
    requires AllClearing(c, s, r) && OfWorker(a) && Enabled(r, a) && LateClocks(c, s, [a])
    requires a.w >= c.radius ==> s.workers[a.w].sessions == map[]
    ensures AllClearing(c, s, Next(c, r, a))
  {
    assert s.workers[a.w] in s.workers && a in [a];
    ClearingTurn(c, r.workers[a.w], s.workers[a.w].sessions, s.memory, a);
  }

  ghost predicate OthersKeepNothing(c: Config, s: State) {
    forall w: nat | c.radius <= w < |s.workers| :: s.workers[w].sessions == map[]
  }

  lemma {:induction false} ClearingRun(c: Config, s: State, r: State, more: seq<Step>)
    requires AllClearing(c, s, r) && WorkersOnly(c, r, more) && LateClocks(c, s, more) && OthersKeepNothing(c, s)
    ensures AllClearing(c, s, Exec(c, r, more))
  {
    if more != [] {
      var n := |more| - 1;
      WorkersOnlyPrefix(c, r, more, n);
      LateClocksParts(c, s, more, n);
      ClearingRun(c, s, r, more[..n]);
      ClearingStep(c, s, Exec(c, r, more[..n]), more[n]);
    }
  }

  // ---- All buffers are back

  lemma {:induction false} AnyCountsAll(free: seq<nat>)
    ensures InList(free, Any) == |free|
  {
    if free != [] {
      AnyCountsAll(free[1..]);
    }
  }

  lemma {:induction false} CountedIsIn(free: seq<nat>, b: nat)
    requires InList(free, Just(b)) > 0
    ensures b in free
  {
    if free[0] != b {
      CountedIsIn(free[1..], b);
    }
  }

  lemma {:induction false} NothingOwned(xs: seq<Worker>, which: Which)
    requires forall x | x in xs :: x.hand.Ready? && x.queue == [] && x.sessions == map[]
    ensures InWorkers(xs, which) == 0
  {
    if xs != [] {
      NothingOwned(xs[..|xs| - 1], which);
      assert xs[|xs| - 1] in xs;
      EmptySessions(256, which);
    }
  }

  /** Every buffer of the pool is free. */
  ghost predicate AllFree(c: Config, s: State) {
    |s.free| == c.pool && forall b: nat | b < c.pool :: b in s.free
  }

  lemma NothingOwnedAllFree(c: Config, memory: seq<Capture>, steps: seq<Step>)
    requires |memory| == c.pool
    requires var s := Run(c, memory, steps);
             s.nic.Idle? && forall x | x in s.workers :: x.hand.Ready? && x.queue == [] && x.sessions == map[]
    ensures AllFree(c, Run(c, memory, steps))
  {
    var s := Run(c, memory, steps);
    SingleOwnership(c, memory, steps);
    NothingOwned(s.workers, Any);
    AnyCountsAll(s.free);
    forall b: nat | b < c.pool ensures b in s.free {
      NothingOwned(s.workers, Just(b));
      CountedIsIn(s.free, b);
    }
  }

  lemma KeepNothing(c: Config, memory: seq<Capture>, steps: seq<Step>)
    requires |memory| == c.pool
    ensures |Run(c, memory, steps).workers| == Workers(c) && OthersKeepNothing(c, Run(c, memory, steps))
  {
    var s := Run(c, memory, steps);
    EveryWorkerTracks(c, memory, steps);
    forall w: nat | c.radius <= w < |s.workers| ensures s.workers[w].sessions == map[] {
      assert Tracks(c, s.workers[w], w, s.arrivals, SentBy(Names(s.notified), w));
    }
  }

  lemma RoundClears(c: Config, s: State)
    requires Quiet(s) && s.turn < |s.workers|
    ensures AllClearing(c, s, Exec(c, s, Round(|s.workers|)))
  {
    var r := Exec(c, s, Round(|s.workers|));
    RoundPuts(c, s, |s.workers|);
    forall w: nat | w < |s.workers| ensures Clearing(c, r.workers[w], s.workers[w].sessions, s.memory) {
      assert s.workers[w] in s.workers;
      assert r.workers[w] == Notified(s.workers[w]);
    }
  }

  /** Recovery, for every size of the pool: from any quiet state, starved or not, after a round of SYNC_TIMEOUT
      messages and any steps of the workers that read the clock past all that is pending, as soon as the workers
      have nothing to do again, every buffer is free. */
  lemma RoundFreesAll(c: Config, memory: seq<Capture>, steps: seq<Step>, more: seq<Step>)
    requires |memory| == c.pool && Quiet(Run(c, memory, steps))
    requires LateClocks(c, Run(c, memory, steps), more)
    requires WorkersOnly(c, Run(c, memory, steps + Round(Workers(c))), more)
    requires WorkersIdle(Run(c, memory, steps + Round(Workers(c)) + more))
    ensures AllFree(c, Run(c, memory, steps + Round(Workers(c)) + more))
  {
    var s, round := Run(c, memory, steps), Round(Workers(c));
    var r := Run(c, memory, steps + round + more);
    KeepNothing(c, memory, steps);
    Delivery.RunIntact(c, memory, steps);
    ExecAppend(c, Init(c, memory), steps, round);
    ExecAppend(c, Init(c, memory), steps + round, more);
    RoundClears(c, s);
    ClearingRun(c, s, Exec(c, s, round), more);
    forall x | x in r.workers ensures x.hand.Ready? && x.queue == [] && x.sessions == map[] {
      var w: nat :| w < |r.workers| && r.workers[w] == x;
      IdleHands(r, w);
      assert Clearing(c, x, s.workers[w].sessions, s.memory);
    }
    NothingOwnedAllFree(c, memory, steps + round + more);
  }

  // ---- The workers get there

  /** Every step that handles an item reads `now`. */
  ghost predicate ReadsClock(steps: seq<Step>, now: uint64) {
    forall a | a in steps && a.Handle? :: a.now == now
  }

  lemma WorkersOnlyCons(c: Config, s: State, a: Step, rest: seq<Step>)
    requires OfWorker(a) && Enabled(s, a) && WorkersOnly(c, Next(c, s, a), rest)
    ensures WorkersOnly(c, s, [a] + rest) && Exec(c, s, [a] + rest) == Exec(c, Next(c, s, a), rest)
  {
    var steps := [a] + rest;
    ExecMore(c, s, [], a);
    assert [] + [a] == [a];
    ExecAppend(c, s, [a], rest);
    forall k | 0 <= k < |steps| ensures OfWorker(steps[k]) && Enabled(Exec(c, s, steps[..k]), steps[k]) {
      if k > 0 {
        assert steps[..k] == [a] + rest[..k - 1];
        ExecAppend(c, s, [a], rest[..k - 1]);
        assert steps[k] == rest[k - 1];
      }
    }
  }

  /** The workers can go on until they have nothing to do. */
  lemma {:induction false} WorkersFinish(c: Config, s: State, now: uint64) returns (more: seq<Step>)
    ensures WorkersOnly(c, s, more) && ReadsClock(more, now) && WorkersIdle(Exec(c, s, more))
    decreases Effort(s.workers)
  {
    if a :| OfWorker(a) && Enabled(s, a) {
      var b := if a.Handle? then Handle(a.w, now) else a;
      assert Enabled(s, b);
      StepEffort(c, s, b);
      var rest := WorkersFinish(c, Next(c, s, b), now);
      more := [b] + rest;
      WorkersOnlyCons(c, s, b, rest);
    } else {
      more := [];
    }
  }

  /** A starved pipeline recovers at any time that is past all that is pending. */
  lemma StarvedRecovers(c: Config, memory: seq<Capture>, steps: seq<Step>, now: uint64) returns (more: seq<Step>)
    requires |memory| == c.pool && Starved(Run(c, memory, steps))
    requires forall x | x in Run(c, memory, steps).workers :: AllExpired(c, x.sessions, Run(c, memory, steps).memory, now)
    ensures WorkersOnly(c, Run(c, memory, steps + Round(Workers(c))), more) && ReadsClock(more, now)
    ensures AllFree(c, Run(c, memory, steps + Round(Workers(c)) + more))
  {
    var round := Round(Workers(c));
    more := WorkersFinish(c, Run(c, memory, steps + round), now);
    ExecAppend(c, Init(c, memory), steps + round, more);
    RoundFreesAll(c, memory, steps, more);
  }

  /** No entry's receive time plus the timeout is later than `time`. */
  ghost predicate DueBy(c: Config, s: State, time: int) {
    forall x, i | x in s.workers && i in x.sessions :: Content(s.memory, x.sessions[i].buffer).stamp + c.timeout <= time
  }

  /** A clock that has reached every receive time plus the timeout is past all that is pending. */
  lemma DueIsExpired(c: Config, s: State, now: uint64)
    requires DueBy(c, s, now)
    ensures forall x | x in s.workers :: AllExpired(c, x.sessions, s.memory, now)
  {
  }

  /** So it can recover when the timeout added to the largest pending receive time stays below 2^64. */
  lemma StarvedCanRecover(c: Config, memory: seq<Capture>, steps: seq<Step>) returns (now: uint64, more: seq<Step>)
    requires |memory| == c.pool && Starved(Run(c, memory, steps))
    requires DueBy(c, Run(c, memory, steps), TWO_64 - 1)
    ensures WorkersOnly(c, Run(c, memory, steps + Round(Workers(c))), more) && ReadsClock(more, now)
    ensures AllFree(c, Run(c, memory, steps + Round(Workers(c)) + more))
  {
    now := TWO_64 - 1;
    DueIsExpired(c, Run(c, memory, steps), now);
    more := StarvedRecovers(c, memory, steps, now);
  }
}
