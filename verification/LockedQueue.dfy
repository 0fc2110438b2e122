/**
 `ObjectQueue` under its two lock policies, one atomic access of a thread at a time.

 A thread inside `putObject` or `getObject` is at one of the points of `Pc`.  `SpinLockPolicy` waits
 by unlocking, yielding and locking again; `WaitLockPolicy` sleeps on its condition variable and is
 woken by `notify_one` or spuriously.  Every sequence of step attempts of any number of threads is a
 run; an attempt that is not possible, like a failing test-and-set, changes nothing.
 */
module LockedQueue {
  import opened Bytes

  datatype Policy = SpinLockPolicy | WaitLockPolicy

  datatype Pc =
    | Idle
    | PutLock(x: nat)                // putObject wants the lock
    | PutPush(x: nat)                // holds it and pushes next
    | PutNotify                      // has pushed, notifies next
    | GetLock                        // getObject wants the lock
    | GetCheck                       // holds it and tests the predicate next
    | GetRelease                     // spin policy, predicate false: unlocks next
    | GetPop                         // predicate true: takes the front next
    | Asleep                         // wait policy, predicate false: on the condition variable
    | Unlock(result: Option<nat>)    // destroys its lock guard next

  /** Entries of the log, in the order in which the container was changed. */
  datatype Op = Put(t: nat, x: nat) | Get(t: nat, x: nat)

  /** `locked`, `container` and `pc` are the program's; `owner` names the lock's holder, `log` records
      the container's changes, `offered` and `returned` what each thread passed in and got back, and
      `broken` that `front` was called on an empty container. */
  datatype State = State(policy: Policy, locked: bool, container: seq<nat>, pc: seq<Pc>, owner: Option<nat>,
                         log: seq<Op>, offered: seq<seq<nat>>, returned: seq<seq<nat>>, broken: bool)

  datatype Step =
    | CallPut(t: nat, x: nat) | CallGet(t: nat) | Acquire(t: nat) | Push(t: nat) | Notify(t: nat, woken: nat)
    | Check(t: nat) | Release(t: nat) | Pop(t: nat) | Wake(t: nat) | Return(t: nat)

  function Init(policy: Policy, threads: nat, container: seq<nat>): State {
    State(policy, false, container, seq(threads, _ => Idle), None, [], seq(threads, _ => []), seq(threads, _ => []), false)
  }

  predicate WellShaped(s: State) {
    |s.offered| == |s.returned| == |s.pc|
  }

  predicate Sleeper(pc: seq<Pc>) {
    exists u | 0 <= u < |pc| :: pc[u] == Asleep
  }

  predicate SomeAsleep(s: State) {
    Sleeper(s.pc)
  }

  /** Thread `a.t` can make the step now. */
  predicate Enabled(s: State, a: Step) {
    WellShaped(s) && a.t < |s.pc| &&
    var p := s.pc[a.t];
    match a
    case CallPut(_, _) => p.Idle?
    case CallGet(_) => p.Idle?
    case Acquire(_) => (p.PutLock? || p.GetLock?) && !s.locked
    case Push(_) => p.PutPush?
    case Notify(_, w) => p.PutNotify? && (s.policy.WaitLockPolicy? && SomeAsleep(s) ==> w < |s.pc| && s.pc[w] == Asleep)
    case Check(_) => p.GetCheck?
    case Release(_) => p.GetRelease?
    case Pop(_) => p.GetPop?
    case Wake(_) => p.Asleep?
    case Return(_) => p.Unlock?
  }

  function Goto(s: State, t: nat, p: Pc): State
    requires t < |s.pc|
  {
    s.(pc := s.pc[t := p])
  }

  function Free(s: State): State {
    s.(locked := false, owner := None)
  }

  function Do(s: State, a: Step): State
    requires Enabled(s, a)
  {
    var t := a.t;
    match a
    case CallPut(_, x) => Goto(s, t, PutLock(x)).(offered := s.offered[t := s.offered[t] + [x]])
    case CallGet(_) => Goto(s, t, GetLock)
    case Acquire(_) =>
      Goto(s, t, if s.pc[t].PutLock? then PutPush(s.pc[t].x) else GetCheck).(locked := true, owner := Some(t))
    case Push(_) =>
      Goto(s, t, PutNotify).(container := s.container + [s.pc[t].x], log := s.log + [Put(t, s.pc[t].x)])
    case Notify(_, w) =>
      var r := Goto(s, t, Unlock(None));
      if s.policy.WaitLockPolicy? && SomeAsleep(s) then Goto(r, w, GetLock) else r
    case Check(_) =>
      if s.container != [] then Goto(s, t, GetPop)
      else if s.policy.SpinLockPolicy? then Goto(s, t, GetRelease)
      else Free(Goto(s, t, Asleep))
    case Release(_) => Free(Goto(s, t, GetLock))
    case Pop(_) =>
      if s.container == [] then s.(broken := true)
      else Goto(s, t, Unlock(Some(s.container[0]))).(container := s.container[1..], log := s.log + [Get(t, s.container[0])])
    case Wake(_) => Goto(s, t, GetLock)
    case Return(_) =>
      var r := Free(Goto(s, t, Idle));
      if s.pc[t].result.Some? then r.(returned := s.returned[t := s.returned[t] + [s.pc[t].result.value]]) else r
  }

  function Next(s: State, a: Step): State {
    if Enabled(s, a) then Do(s, a) else s
  }

  function Exec(s: State, steps: seq<Step>): State {
    if steps == [] then s else Next(Exec(s, steps[..|steps| - 1]), steps[|steps| - 1])
  }

  // ---- Mutual exclusion

  predicate Holds(p: Pc) {
    p.PutPush? || p.PutNotify? || p.GetCheck? || p.GetRelease? || p.GetPop? || p.Unlock?
  }

  /** The lock is held exactly when some thread is in a critical section, and then by that thread only. */
  predicate Owned(s: State) {
    && WellShaped(s)
    && (s.locked <==> s.owner.Some?)
    && (s.owner.Some? ==> s.owner.value < |s.pc|)
    && (forall t | 0 <= t < |s.pc| :: Holds(s.pc[t]) <==> s.owner == Some(t))
  }

  /** Whoever takes the front next has seen it, whoever goes on to spin has seen that there is none, and
      nobody has taken the front of an empty container. */
  predicate Filled(s: State) {
    && (forall t | 0 <= t < |s.pc| :: s.pc[t].GetPop? ==> s.container != [])
    && (forall t | 0 <= t < |s.pc| :: s.pc[t].GetRelease? ==> s.container == [])
    && !s.broken
  }

  predicate Exclusive(s: State) {
    Owned(s) && Filled(s)
  }

  lemma OwnedStep(s: State, a: Step)
    requires Owned(s)
    ensures Owned(Next(s, a))
  {
    if a.Notify? {
      NotifyOwned(s, a);
    }
  }

  lemma NotifyOwned(s: State, a: Step)
    requires Owned(s) && a.Notify?
    ensures Owned(Next(s, a))
  {
  }

  lemma FilledStep(s: State, a: Step)
    requires Owned(s) && Filled(s)
    ensures Filled(Next(s, a))
  {
  }

  lemma ExclusiveStep(s: State, a: Step)
    requires Exclusive(s)
    ensures Exclusive(Next(s, a))
  {
    OwnedStep(s, a);
    FilledStep(s, a);
  }

  // ---- First in, first out

  function Puts(log: seq<Op>): seq<nat> {
    if log == [] then []
    else Puts(log[..|log| - 1]) + if log[|log| - 1].Put? then [log[|log| - 1].x] else []
  }

  function Gets(log: seq<Op>): seq<nat> {
    if log == [] then []
    else Gets(log[..|log| - 1]) + if log[|log| - 1].Get? then [log[|log| - 1].x] else []
  }

  lemma LogSnoc(log: seq<Op>, op: Op)
    ensures Puts(log + [op]) == Puts(log) + if op.Put? then [op.x] else []
    ensures Gets(log + [op]) == Gets(log) + if op.Get? then [op.x] else []
  {
    assert (log + [op])[..|log|] == log;
  }

  predicate InSequence(initial: seq<nat>, log: seq<Op>, container: seq<nat>) {
    initial + Puts(log) == Gets(log) + container
  }

  predicate Fifo(initial: seq<nat>, s: State) {
    InSequence(initial, s.log, s.container)
  }

  lemma SequencePut(initial: seq<nat>, log: seq<Op>, container: seq<nat>, t: nat, x: nat)
    requires InSequence(initial, log, container)
    ensures InSequence(initial, log + [Put(t, x)], container + [x])
  {
    LogSnoc(log, Put(t, x));
    AppendAssoc(initial, Puts(log), [x]);
    AppendAssoc(Gets(log), container, [x]);
    AppendEmpty(Gets(log));
  }

  lemma SequenceGet(initial: seq<nat>, log: seq<Op>, container: seq<nat>, t: nat)
    requires InSequence(initial, log, container) && container != []
    ensures InSequence(initial, log + [Get(t, container[0])], container[1..])
  {
    var x := container[0];
    LogSnoc(log, Get(t, x));
    AppendAssoc(Gets(log), [x], container[1..]);
    assert [x] + container[1..] == container;
    AppendEmpty(Puts(log));
  }

  lemma FifoStep(initial: seq<nat>, s: State, a: Step)
    requires Fifo(initial, s)
    ensures Fifo(initial, Next(s, a))
  {
    if Enabled(s, a) {
      if a.Push? {
        SequencePut(initial, s.log, s.container, a.t, s.pc[a.t].x);
      } else if a.Pop? && s.container != [] {
        SequenceGet(initial, s.log, s.container, a.t);
      }
    }
  }

  // ---- Every call takes effect once, between its call and its return

  function PutsBy(log: seq<Op>, t: nat): seq<nat> {
    if log == [] then []
    else PutsBy(log[..|log| - 1], t) + if log[|log| - 1].Put? && log[|log| - 1].t == t then [log[|log| - 1].x] else []
  }

  function GetsBy(log: seq<Op>, t: nat): seq<nat> {
    if log == [] then []
    else GetsBy(log[..|log| - 1], t) + if log[|log| - 1].Get? && log[|log| - 1].t == t then [log[|log| - 1].x] else []
  }

  lemma LogBySnoc(log: seq<Op>, op: Op, t: nat)
    ensures PutsBy(log + [op], t) == PutsBy(log, t) + if op.Put? && op.t == t then [op.x] else []
    ensures GetsBy(log + [op], t) == GetsBy(log, t) + if op.Get? && op.t == t then [op.x] else []
  {
    assert (log + [op])[..|log|] == log;
  }

  /** The object of a put call that has not taken effect yet. */
  function Offering(p: Pc): seq<nat> {
    match p
    case PutLock(x) => [x]
    case PutPush(x) => [x]
    case _ => []
  }

  /** The object of a get call that has taken effect and not returned yet. */
  function Carrying(p: Pc): seq<nat> {
    if p.Unlock? && p.result.Some? then [p.result.value] else []
  }

  /** What thread `t` passed in is what it put, and what it put last may be under way; what it took is
      what it got back, and what it took last may be under way. */
  predicate Matches(s: State, t: nat, puts: seq<nat>, gets: seq<nat>) {
    && WellShaped(s)
    && (t < |s.pc| ==> s.offered[t] == puts + Offering(s.pc[t]) && gets == s.returned[t] + Carrying(s.pc[t]))
  }

  predicate Accounted(s: State, t: nat) {
    Matches(s, t, PutsBy(s.log, t), GetsBy(s.log, t))
  }

  /** The steps that change the container. */
  predicate Effect(a: Step) {
    a.Push? || a.Pop?
  }

  lemma MatchesElsewhere(s: State, a: Step, t: nat, puts: seq<nat>, gets: seq<nat>)
    requires Matches(s, t, puts, gets) && Enabled(s, a) && t != a.t
    ensures Matches(Do(s, a), t, puts, gets)
  {
    if a.Notify? {
      MatchesNotified(s, a, t, puts, gets);
    }
  }

  lemma MatchesNotified(s: State, a: Step, t: nat, puts: seq<nat>, gets: seq<nat>)
    requires Matches(s, t, puts, gets) && Enabled(s, a) && t != a.t && a.Notify?
    ensures Matches(Do(s, a), t, puts, gets)
  {
  }

  lemma MatchesQuiet(s: State, a: Step, puts: seq<nat>, gets: seq<nat>)
    requires Matches(s, a.t, puts, gets) && Enabled(s, a) && !Effect(a)
    ensures Matches(Do(s, a), a.t, puts, gets)
  {
    AppendEmpty(puts);
    AppendEmpty(s.returned[a.t]);
  }

  lemma MatchesPush(s: State, a: Step, puts: seq<nat>, gets: seq<nat>)
    requires Matches(s, a.t, puts, gets) && Enabled(s, a) && a.Push?
    ensures Matches(Do(s, a), a.t, puts + [s.pc[a.t].x], gets)
  {
    AppendEmpty(puts + [s.pc[a.t].x]);
  }

  lemma MatchesPop(s: State, a: Step, puts: seq<nat>, gets: seq<nat>)
    requires Matches(s, a.t, puts, gets) && Enabled(s, a) && a.Pop? && s.container != []
    ensures Matches(Do(s, a), a.t, puts, gets + [s.container[0]])
  {
    AppendEmpty(s.returned[a.t]);
  }

  lemma AccountedPush(s: State, a: Step, t: nat)
    requires Accounted(s, t) && Enabled(s, a) && a.Push?
    ensures Accounted(Do(s, a), t)
  {
    var puts, gets := PutsBy(s.log, t), GetsBy(s.log, t);
    LogBySnoc(s.log, Put(a.t, s.pc[a.t].x), t);
    AppendEmpty(puts);
    AppendEmpty(gets);
    if t == a.t {
      MatchesPush(s, a, puts, gets);
    } else {
      MatchesElsewhere(s, a, t, puts, gets);
    }
  }

  lemma AccountedPop(s: State, a: Step, t: nat)
    requires Accounted(s, t) && Enabled(s, a) && a.Pop? && s.container != []
    ensures Accounted(Do(s, a), t)
  {
    var puts, gets := PutsBy(s.log, t), GetsBy(s.log, t);
    LogBySnoc(s.log, Get(a.t, s.container[0]), t);
    AppendEmpty(puts);
    AppendEmpty(gets);
    if t == a.t {
      MatchesPop(s, a, puts, gets);
    } else {
      MatchesElsewhere(s, a, t, puts, gets);
    }
  }

  lemma AccountedQuiet(s: State, a: Step, t: nat)
    requires Accounted(s, t) && Enabled(s, a) && !Effect(a)
    ensures Accounted(Do(s, a), t)
  {
    var puts, gets := PutsBy(s.log, t), GetsBy(s.log, t);
    if t == a.t {
      MatchesQuiet(s, a, puts, gets);
    } else {
      MatchesElsewhere(s, a, t, puts, gets);
    }
  }

  lemma AccountedStep(s: State, a: Step, t: nat)
    requires Accounted(s, t) && Exclusive(s)
    ensures Accounted(Next(s, a), t)
  {
    if Enabled(s, a) {
      if a.Push? {
        AccountedPush(s, a, t);
      } else if a.Pop? {
        AccountedPop(s, a, t);
      } else {
        AccountedQuiet(s, a, t);
      }
    }
  }

  // ---- No lost wakeup

  /** Getters that are awake, and producers that still owe a notification. */
  function Credit(p: Pc): nat {
    if p.GetLock? || p.GetCheck? || p.GetRelease? || p.GetPop? || p.PutNotify? then 1 else 0
  }

  function Credits(pc: seq<Pc>): nat {
    if pc == [] then 0 else Credits(pc[..|pc| - 1]) + Credit(pc[|pc| - 1])
  }

  lemma {:induction false} CreditsUpdate(pc: seq<Pc>, t: nat, p: Pc)
    requires t < |pc|
    ensures Credits(pc[t := p]) == Credits(pc) - Credit(pc[t]) + Credit(p)
  {
    var n := |pc| - 1;
    if t == n {
      assert pc[t := p][..n] == pc[..n];
    } else {
      assert pc[t := p][..n] == pc[..n][t := p];
      CreditsUpdate(pc[..n], t, p);
    }
  }

  lemma {:induction false} CreditWitness(pc: seq<Pc>) returns (t: nat)
    requires Credits(pc) > 0
    ensures t < |pc| && Credit(pc[t]) == 1
  {
    var n := |pc| - 1;
    if Credit(pc[n]) == 1 {
      t := n;
    } else {
      t := CreditWitness(pc[..n]);
    }
  }

  /** Whenever a consumer sleeps, there is an awake getter, or a notification to come, for every object. */
  predicate Covered(s: State) {
    SomeAsleep(s) ==> s.policy.WaitLockPolicy? && |s.container| <= Credits(s.pc)
  }

  lemma CoveredNotify(s: State, a: Step)
    requires Covered(s) && Enabled(s, a) && a.Notify?
    ensures Covered(Do(s, a))
  {
    var pc := s.pc[a.t := Unlock(None)];
    CreditsUpdate(s.pc, a.t, Unlock(None));
    if SomeAsleep(s) {
      CreditsUpdate(pc, a.woken, GetLock);
    } else {
      assert forall u | 0 <= u < |s.pc| :: Do(s, a).pc[u] == pc[u] != Asleep;
    }
  }

  /** A step other than a notification adds no object without a credit; who falls asleep leaves an
      empty container. */
  lemma CreditsKeepUp(s: State, a: Step)
    requires Exclusive(s) && Enabled(s, a) && !a.Notify?
    ensures var r := Do(s, a);
            var p := r.pc[a.t];
            && r.pc == s.pc[a.t := p] && r.policy == s.policy
            && (p == Asleep ==> s.policy.WaitLockPolicy? && r.container == [])
            && (p != Asleep ==> |r.container| + Credit(s.pc[a.t]) <= |s.container| + Credit(p))
  {
  }

  lemma CoveredOther(s: State, a: Step)
    requires Covered(s) && Exclusive(s) && Enabled(s, a) && !a.Notify?
    ensures Covered(Do(s, a))
  {
    var p := Do(s, a).pc[a.t];
    CreditsKeepUp(s, a);
    CreditsUpdate(s.pc, a.t, p);
    if p != Asleep {
      NobodyElseSleeps(s.pc, a.t, p);
    }
  }

  lemma NobodyElseSleeps(pc: seq<Pc>, t: nat, p: Pc)
    requires t < |pc| && p != Asleep
    ensures Sleeper(pc[t := p]) ==> Sleeper(pc)
  {
    assert forall u | 0 <= u < |pc| && u != t :: pc[t := p][u] == pc[u];
  }

  lemma CoveredStep(s: State, a: Step)
    requires Covered(s) && Exclusive(s)
    ensures Covered(Next(s, a))
  {
    if Enabled(s, a) {
      if a.Notify? {
        CoveredNotify(s, a);
      } else {
        CoveredOther(s, a);
      }
    }
  }

  // ---- Runs

  ghost predicate Sound(initial: seq<nat>, s: State) {
    && Exclusive(s)
    && Fifo(initial, s)
    && (forall t: nat :: Accounted(s, t))
    && Covered(s)
  }

  lemma {:induction false} EveryRunSound(policy: Policy, threads: nat, initial: seq<nat>, steps: seq<Step>)
    ensures Sound(initial, Exec(Init(policy, threads, initial), steps))
  {
    if steps == [] {
      AppendEmpty(initial);
      assert Puts([]) == [] && Gets([]) == [];
      assert [] + initial == initial;
    } else {
      var s := Exec(Init(policy, threads, initial), steps[..|steps| - 1]);
      var a := steps[|steps| - 1];
      EveryRunSound(policy, threads, initial, steps[..|steps| - 1]);
      ExclusiveStep(s, a);
      FifoStep(initial, s, a);
      CoveredStep(s, a);
      forall t: nat ensures Accounted(Next(s, a), t) {
        AccountedStep(s, a, t);
      }
    }
  }

  /** Under either policy and any interleaving, at most one thread is in a critical section, nobody
      takes the front of an empty container, and the objects taken so far are, in lock order, a prefix
      of the initial contents followed by the objects put; the rest is what the container holds. */
  lemma Linearizable(policy: Policy, threads: nat, initial: seq<nat>, steps: seq<Step>)
    ensures var s := Exec(Init(policy, threads, initial), steps);
            && (forall t, u | 0 <= t < |s.pc| && 0 <= u < |s.pc| && Holds(s.pc[t]) && Holds(s.pc[u]) :: t == u)
            && !s.broken
            && (forall t | 0 <= t < |s.pc| && s.pc[t].GetRelease? :: s.container == [])
            && Gets(s.log) <= initial + Puts(s.log)
            && initial + Puts(s.log) == Gets(s.log) + s.container
            && forall t | 0 <= t < |s.pc| && t < |s.offered| && t < |s.returned| ::
                 PutsBy(s.log, t) <= s.offered[t] && s.returned[t] <= GetsBy(s.log, t)
  {
    var s := Exec(Init(policy, threads, initial), steps);
    EveryRunSound(policy, threads, initial, steps);
    forall t | 0 <= t < |s.pc| && t < |s.offered| && t < |s.returned|
      ensures PutsBy(s.log, t) <= s.offered[t] && s.returned[t] <= GetsBy(s.log, t)
    {
      assert Accounted(s, t);
    }
  }

  // ---- Calls succeed

  /** A getter that holds the lock and tests a non-empty container takes the front and returns it. */
  lemma CheckTakes(s: State, t: nat) returns (r: State)
    requires Exclusive(s) && t < |s.pc| && s.pc[t].GetCheck? && s.container != []
    ensures r == Next(Next(Next(s, Check(t)), Pop(t)), Return(t))
    ensures r.container == s.container[1..] && r.returned[t] == s.returned[t] + [s.container[0]]
    ensures r.pc == s.pc[t := Idle] && !r.locked && r.log == s.log + [Get(t, s.container[0])]
  {
    var s1 := Next(s, Check(t));
    assert s1 == s.(pc := s.pc[t := GetPop]);
    var s2 := Next(s1, Pop(t));
    assert s2.pc == s.pc[t := Unlock(Some(s.container[0]))];
    r := Next(s2, Return(t));
    assert r.pc == s.pc[t := Idle];
  }

  /** Under either policy a getter that finds the lock free and an object in the container gets the front. */
  lemma GetSucceeds(policy: Policy, threads: nat, initial: seq<nat>, steps: seq<Step>, t: nat) returns (r: State)
    requires var s := Exec(Init(policy, threads, initial), steps);
             t < |s.pc| && s.pc[t].GetLock? && !s.locked && s.container != []
    ensures var s := Exec(Init(policy, threads, initial), steps);
            && r == Next(Next(Next(Next(s, Acquire(t)), Check(t)), Pop(t)), Return(t))
            && t < |s.returned| == |r.returned|
            && r.container == s.container[1..] && r.returned[t] == s.returned[t] + [s.container[0]]
            && r.pc == s.pc[t := Idle] && !r.locked
  {
    var s := Exec(Init(policy, threads, initial), steps);
    EveryRunSound(policy, threads, initial, steps);
    var s1 := Next(s, Acquire(t));
    ExclusiveStep(s, Acquire(t));
    assert s1.pc == s.pc[t := GetCheck];
    r := CheckTakes(s1, t);
  }

  /** A producer that finds the lock free appends its object, and wakes a sleeping consumer if there is one. */
  lemma PutSucceeds(policy: Policy, threads: nat, initial: seq<nat>, steps: seq<Step>, t: nat) returns (woken: nat, r: State)
    requires var s := Exec(Init(policy, threads, initial), steps);
             t < |s.pc| && s.pc[t].PutLock? && !s.locked
    ensures var s := Exec(Init(policy, threads, initial), steps);
            && r == Next(Next(Next(Next(s, Acquire(t)), Push(t)), Notify(t, woken)), Return(t))
            && r.container == s.container + [s.pc[t].x] && !r.locked && t < |r.pc| && r.pc[t].Idle?
            && (SomeAsleep(s) ==> woken < |s.pc| && s.pc[woken] == Asleep && woken < |r.pc| && r.pc[woken] == GetLock)
  {
    var s := Exec(Init(policy, threads, initial), steps);
    EveryRunSound(policy, threads, initial, steps);
    var s1 := Next(s, Acquire(t));
    assert s1.pc == s.pc[t := PutPush(s.pc[t].x)];
    var s2 := Next(s1, Push(t));
    assert s2.pc == s.pc[t := PutNotify];
    woken := if SomeAsleep(s) then (var u :| 0 <= u < |s.pc| && s.pc[u] == Asleep; u) else 0;
    assert SomeAsleep(s) ==> s2.pc[woken] == Asleep;
    NobodyElseSleeps(s.pc, t, PutNotify);
    var s3 := Next(s2, Notify(t, woken));
    assert s3.pc[t] == Unlock(None) && s3.container == s.container + [s.pc[t].x];
    r := Next(s3, Return(t));
  }

  /** Every call starts by asking for the lock, and a wakeup asks for it again. */
  lemma CallsAsk(s: State, t: nat, x: nat)
    requires WellShaped(s) && t < |s.pc|
    ensures s.pc[t].Idle? ==> Next(s, CallPut(t, x)).pc == s.pc[t := PutLock(x)] && Next(s, CallGet(t)).pc == s.pc[t := GetLock]
    ensures s.pc[t].Asleep? ==> Next(s, Wake(t)).pc == s.pc[t := GetLock]
    ensures s.pc[t].GetRelease? ==> Next(s, Release(t)).pc == s.pc[t := GetLock] && !Next(s, Release(t)).locked
  {
  }

  /** A getter that tests an empty container gives up the lock: under `WaitLockPolicy` it sleeps, under
      `SpinLockPolicy` it asks for the lock again. */
  lemma CheckWaits(s: State, t: nat)
    requires Exclusive(s) && t < |s.pc| && s.pc[t].GetCheck? && s.container == []
    ensures s.policy.WaitLockPolicy? ==> var r := Next(s, Check(t)); r.pc == s.pc[t := Asleep] && !r.locked
    ensures s.policy.SpinLockPolicy? ==> var r := Next(Next(s, Check(t)), Release(t)); r.pc == s.pc[t := GetLock] && !r.locked
    ensures Next(s, Check(t)).container == []
  {
    assert s.pc[t := GetRelease][t := GetLock] == s.pc[t := GetLock];
  }

  /** No lost wakeup: when a consumer sleeps and the container is not empty, the lock is held or
      another getter is awake and can take the lock. */
  lemma NoLostWakeup(policy: Policy, threads: nat, initial: seq<nat>, steps: seq<Step>) returns (t: nat)
    requires var s := Exec(Init(policy, threads, initial), steps); SomeAsleep(s) && s.container != []
    ensures var s := Exec(Init(policy, threads, initial), steps);
            t < |s.pc| && (s.locked ==> s.owner == Some(t)) && (!s.locked ==> s.pc[t] == GetLock && Enabled(s, Acquire(t)))
  {
    var s := Exec(Init(policy, threads, initial), steps);
    EveryRunSound(policy, threads, initial, steps);
    if s.locked {
      t := s.owner.value;
    } else {
      t := CreditWitness(s.pc);
      assert Holds(s.pc[t]) <==> s.owner == Some(t);
    }
  }

  predicate AwakeGetter(p: Pc) {
    p.GetLock? || p.GetCheck? || p.GetRelease? || p.GetPop?
  }

  function AwakeGetters(pc: seq<Pc>): nat {
    if pc == [] then 0 else AwakeGetters(pc[..|pc| - 1]) + if AwakeGetter(pc[|pc| - 1]) then 1 else 0
  }

  /** The holder is the only thread that can owe a notification. */
  lemma {:induction false} CreditsAreAwake(pc: seq<Pc>, owner: Option<nat>)
    requires forall t | 0 <= t < |pc| && pc[t].PutNotify? :: owner == Some(t)
    ensures Credits(pc) == AwakeGetters(pc) + if owner.Some? && owner.value < |pc| && pc[owner.value].PutNotify? then 1 else 0
  {
    if pc != [] {
      CreditsAreAwake(pc[..|pc| - 1], owner);
    }
  }

  /** While a consumer sleeps, the objects in the container are no more than the consumers that are awake
      inside `getObject`, but for the one object whose producer is about to notify. */
  lemma AwakeGettersCover(policy: Policy, threads: nat, initial: seq<nat>, steps: seq<Step>)
    requires SomeAsleep(Exec(Init(policy, threads, initial), steps))
    ensures var s := Exec(Init(policy, threads, initial), steps);
            var notifying := s.owner.Some? && s.owner.value < |s.pc| && s.pc[s.owner.value].PutNotify?;
            |s.container| <= AwakeGetters(s.pc) + if notifying then 1 else 0
  {
    var s := Exec(Init(policy, threads, initial), steps);
    EveryRunSound(policy, threads, initial, steps);
    CreditsAreAwake(s.pc, s.owner);
  }

  /** Whoever holds the lock can go on without waiting, so the lock is always released again. */
  lemma HolderProceeds(policy: Policy, threads: nat, initial: seq<nat>, steps: seq<Step>) returns (a: Step)
    requires Exec(Init(policy, threads, initial), steps).locked
    ensures var s := Exec(Init(policy, threads, initial), steps);
            Enabled(s, a) && s.owner == Some(a.t) && !a.Wake?
  {
    var s := Exec(Init(policy, threads, initial), steps);
    EveryRunSound(policy, threads, initial, steps);
    var t := s.owner.value;
    assert Holds(s.pc[t]);
    match s.pc[t] {
      case PutPush(_) => a := Push(t);
      case PutNotify =>
        if SomeAsleep(s) {
          var w :| 0 <= w < |s.pc| && s.pc[w] == Asleep;
          a := Notify(t, w);
        } else {
          a := Notify(t, 0);
        }
      case GetCheck => a := Check(t);
      case GetRelease => a := Release(t);
      case GetPop => a := Pop(t);
      case Unlock(_) => a := Return(t);
      case _ => assert false; a := CallGet(t);
    }
  }
}
