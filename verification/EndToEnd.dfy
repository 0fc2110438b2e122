/** A request and its reply, from the network to the notifier. */
module EndToEnd {
  import opened Bytes
  import opened Frames
  import opened Attributes
  import opened Sessions
  import opened Pipeline
  import opened Delivery
  import opened WorkerLedgers
  import opened Progress

  // ---- Arrival order

  ghost predicate Rising(numbers: seq<nat>) {
    forall a: nat, b: nat | a < b < |numbers| :: numbers[a] < numbers[b]
  }

  lemma {:induction false} RoutedToRises(c: Config, arrivals: seq<Capture>, w: nat)
    ensures Rising(RoutedTo(c, arrivals, w))
  {
    if arrivals != [] {
      var before := RoutedTo(c, arrivals[..|arrivals| - 1], w);
      RoutedToRises(c, arrivals[..|arrivals| - 1], w);
      RoutedToMeaning(c, arrivals[..|arrivals| - 1], w);
      assert forall k | 0 <= k < |before| :: before[k] in before;
    }
  }

  /** The packets of a log are in the order of their numbers. */
  ghost predicate Chronological(log: seq<Event>) {
    forall a: nat, b: nat | a < b < |log| && log[a].Arrival? && log[b].Arrival? :: log[a].number < log[b].number
  }

  lemma {:induction false} LogRises(log: seq<Event>)
    requires Rising(Handled(log))
    ensures Chronological(log)
  {
    if log != [] {
      var n := |log| - 1;
      var before := Handled(log[..n]);
      assert forall k | 0 <= k < |before| :: before[k] == Handled(log)[k];
      LogRises(log[..n]);
      forall a: nat | a < n && log[a].Arrival? && log[n].Arrival? ensures log[a].number < log[n].number {
        HandledHas(log[..n], a);
        var b: nat :| b < |before| && before[b] == log[a].number;
        assert Handled(log) == before + [log[n].number];
        assert Handled(log)[b] == log[a].number && Handled(log)[|before|] == log[n].number;
      }
    }
  }

  /** Where a log has the packet with a number, or the length of the log. */
  function PositionOf(log: seq<Event>, number: nat): (k: nat)
    ensures k <= |log|
    ensures k < |log| ==> log[k].Arrival? && log[k].number == number
  {
    if log == [] then 0
    else if log[0].Arrival? && log[0].number == number then 0
    else 1 + PositionOf(log[1..], number)
  }

  lemma {:induction false} PositionFound(log: seq<Event>, number: nat)
    requires number in Handled(log)
    ensures PositionOf(log, number) < |log|
  {
    var k := HandledAt(log, number);
    PositionBefore(log, k);
  }

  lemma {:induction false} HandledAt(log: seq<Event>, number: nat) returns (k: nat)
    requires number in Handled(log)
    ensures k < |log| && log[k].Arrival? && log[k].number == number
  {
    var n := |log| - 1;
    if number in Handled(log[..n]) {
      k := HandledAt(log[..n], number);
    } else {
      k := n;
    }
  }

  lemma {:induction false} PositionBefore(log: seq<Event>, k: nat)
    requires k < |log| && log[k].Arrival?
    ensures PositionOf(log, log[k].number) <= k
  {
    if k > 0 && !(log[0].Arrival? && log[0].number == log[k].number) {
      PositionBefore(log[1..], k - 1);
    }
  }

  lemma LogChronological(c: Config, s: State, w: nat)
    requires w < |s.workers| && InOrder(c, s, w)
    ensures Chronological(s.workers[w].log)
  {
    var log := s.workers[w].log;
    var all := RoutedTo(c, s.arrivals, w);
    RoutedToRises(c, s.arrivals, w);
    HandledFirst(c, s, w);
    assert forall k | 0 <= k < |Handled(log)| :: Handled(log)[k] == all[k];
    LogRises(log);
  }

  /** What a worker has handled is the first of what was received for it. */
  lemma HandledFirst(c: Config, s: State, w: nat)
    requires w < |s.workers| && InOrder(c, s, w)
    ensures Handled(s.workers[w].log) <= RoutedTo(c, s.arrivals, w)
  {
  }

  /** When a worker has handled one packet, it has handled those received for it earlier. */
  lemma EarlierHandled(c: Config, s: State, w: nat, p: nat, q: nat)
    requires w < |s.workers| && InOrder(c, s, w) && p < q < |s.arrivals|
    requires Route(c, s.arrivals[p].frame) == Some(w) && q in Handled(s.workers[w].log)
    ensures p in Handled(s.workers[w].log)
  {
    var done, all := Handled(s.workers[w].log), RoutedTo(c, s.arrivals, w);
    HandledFirst(c, s, w);
    RoutedToMeaning(c, s.arrivals, w);
    RoutedToRises(c, s.arrivals, w);
    assert p in all;
    var a: nat :| a < |all| && all[a] == p;
    var b: nat :| b < |done| && done[b] == q;
    assert all[b] == q;
    assert a < b;
    assert done[a] == p;
  }

  /** Affinity and order: a request and its reply are routed to the same RADIUS worker, which handles them
      in arrival order, each as it was received. */
  lemma SameWorkerInOrder(c: Config, memory: seq<Capture>, steps: seq<Step>, p: nat, q: nat) returns (w: nat)
    requires |memory| == c.pool
    requires var arrivals := Run(c, memory, steps).arrivals;
             p < q < |arrivals| && IsRadius(arrivals[p].frame) && Swapped(arrivals[p].frame, arrivals[q].frame)
    ensures var s := Run(c, memory, steps);
            && w < c.radius && w < |s.workers|
            && Route(c, s.arrivals[p].frame) == Some(w) && Route(c, s.arrivals[q].frame) == Some(w)
            && var log := s.workers[w].log;
               q in Handled(log) ==>
                 var i, j := PositionOf(log, p), PositionOf(log, q);
                 && i < j < |log|
                 && log[i] == Arrival(s.arrivals[p].frame.data[43], s.arrivals[p].stamp, p)
                 && log[j] == Arrival(s.arrivals[q].frame.data[43], s.arrivals[q].stamp, q)
  {
    var s := Run(c, memory, steps);
    SwappedHashesAgree(s.arrivals[p].frame, s.arrivals[q].frame);
    w := EthHash(s.arrivals[p].frame) % c.radius;
    EveryPacketInOrder(c, memory, steps, w);
    LogsTrue(c, memory, steps, w);
    var log := s.workers[w].log;
    if q in Handled(log) {
      EarlierHandled(c, s, w, p, q);
      PositionFound(log, p);
      PositionFound(log, q);
      LogChronological(c, s, w);
    }
  }

  // ---- What the notifier is given

  /** A notification carries the attributes parsed from its two packets as they were received. */
  ghost predicate RecordTrue(n: Notification, arrivals: seq<Capture>) {
    && n.name.reply < |arrivals| && n.respAvp == Parsed(arrivals[n.name.reply])
    && n.name.request < |arrivals| && n.reqAvp == Parsed(arrivals[n.name.request])
  }

  lemma TurnRecords(c: Config, x: Worker, memory: seq<Capture>, arrivals: seq<Capture>, a: Step)
    requires OfWorker(a) && Able(x, a) && WorkerIntact(x, memory, arrivals)
    ensures forall n | n in Turn(c, x, memory, a).sent :: RecordTrue(n, arrivals)
  {
  }

  lemma {:induction false} RecordsTrue(c: Config, memory: seq<Capture>, steps: seq<Step>)
    requires |memory| == c.pool
    ensures var s := Run(c, memory, steps); forall n | n in s.notified :: RecordTrue(n, s.arrivals)
  {
    if steps != [] {
      var s, a := Run(c, memory, steps[..|steps| - 1]), steps[|steps| - 1];
      RecordsTrue(c, memory, steps[..|steps| - 1]);
      RunIntact(c, memory, steps[..|steps| - 1]);
      if Enabled(s, a) && OfWorker(a) {
        assert s.workers[a.w] in s.workers;
        TurnRecords(c, s.workers[a.w], s.memory, s.arrivals, a);
      }
    }
  }

  // ---- Notifications

  predicate Mentions(sent: Sent, p: nat, q: nat) {
    sent.reply == p || sent.reply == q || sent.request == p || sent.request == q
  }

  /** How many notifications mention one of two packets. */
  function Mentioned(notified: seq<Sent>, p: nat, q: nat): nat {
    if notified == [] then 0
    else Mentioned(notified[..|notified| - 1], p, q) + Bit(Mentions(notified[|notified| - 1], p, q))
  }

  lemma {:induction false} MentionedOnce(sent: seq<Sent>, k: nat, p: nat, q: nat)
    requires k < |sent| && Mentions(sent[k], p, q)
    requires forall j: nat | j < |sent| && j != k :: !Mentions(sent[j], p, q)
    ensures Mentioned(sent, p, q) == 1
  {
    var n := |sent| - 1;
    if k < n {
      MentionedOnce(sent[..n], k, p, q);
    } else {
      NotMentioned(sent[..n], p, q);
    }
  }

  lemma {:induction false} NotMentioned(sent: seq<Sent>, p: nat, q: nat)
    requires forall x | x in sent :: !Mentions(x, p, q)
    ensures Mentioned(sent, p, q) == 0
  {
    if sent != [] {
      NotMentioned(sent[..|sent| - 1], p, q);
    }
  }

  lemma {:induction false} MentionedByOne(notified: seq<Sent>, w: nat, p: nat, q: nat)
    requires forall x | x in notified && x.worker != w :: !Mentions(x, p, q)
    ensures Mentioned(notified, p, q) == Mentioned(SentBy(notified, w), p, q)
  {
    if notified != [] {
      var n := |notified| - 1;
      MentionedByOne(notified[..n], w, p, q);
      if notified[n].worker == w {
        assert SentBy(notified, w)[..|SentBy(notified[..n], w)|] == SentBy(notified[..n], w);
      } else {
        AppendEmpty(SentBy(notified[..n], w));
        assert notified[n] in notified;
      }
    }
  }

  lemma {:induction false} SentByMeaning(notified: seq<Sent>, w: nat)
    ensures forall x :: x in SentBy(notified, w) <==> x in notified && x.worker == w
  {
    if notified != [] {
      var n := |notified| - 1;
      SentByMeaning(notified[..n], w);
      assert forall x :: x in notified <==> x in notified[..n] || x == notified[n];
    }
  }

  /** Only RADIUS workers notify. */
  lemma {:induction false} SendersAreRadius(c: Config, memory: seq<Capture>, steps: seq<Step>)
    requires |memory| == c.pool
    ensures forall x | x in Names(Run(c, memory, steps).notified) :: x.worker < c.radius
  {
    if steps != [] {
      var s, a := Run(c, memory, steps[..|steps| - 1]), steps[|steps| - 1];
      SendersAreRadius(c, memory, steps[..|steps| - 1]);
      if Enabled(s, a) && OfWorker(a) {
        NamesAppend(s.notified, Turn(c, s.workers[a.w], s.memory, a).sent);
      }
    }
  }

  /** What a worker notifies are packets that it handled. */
  lemma NotifiedWasHandled(c: Config, s: State, w: nat, x: Sent)
    requires w < c.radius && w < |s.workers| && Tracks(c, s.workers[w], w, s.arrivals, SentBy(Names(s.notified), w))
    requires InOrder(c, s, w) && x in Names(s.notified) && x.worker == w
    ensures x.reply < |s.arrivals| && Route(c, s.arrivals[x.reply].frame) == Some(w)
    ensures x.request < |s.arrivals| && Route(c, s.arrivals[x.request].frame) == Some(w)
  {
    var log := s.workers[w].log;
    var notes := After(log, |log|).notes;
    SentByMeaning(Names(s.notified), w);
    NotesDisjoint(log, |log|);
    assert x in Sending(w, log, notes);
    var k: nat :| k < |notes| && Sending(w, log, notes)[k] == x;
    assert Joins(log, notes[k], |log|);
    HandledIsRouted(c, s, w, notes[k].reply);
    HandledIsRouted(c, s, w, notes[k].request);
  }

  /** The one note of two positions is the one notification of their packets. */
  lemma SendingOnce(w: nat, log: seq<Event>, notes: seq<Note>, i: nat, j: nat)
    requires Chronological(log) && i < j < |log| && log[i].Arrival? && log[j].Arrival?
    requires (forall note | note in notes :: Joins(log, note, |log|)) && NotedOnce(notes, j, i)
    ensures Mentioned(Sending(w, log, notes), log[i].number, log[j].number) == 1
    ensures Sent(w, log[j].number, log[i].number) in Sending(w, log, notes)
  {
    var sent := Sending(w, log, notes);
    var k: nat :| k < |notes| && notes[k] == Note(j, i) && forall m: nat | m < |notes| && m != k :: Apart(notes[m], Note(j, i));
    assert sent[k] == Sent(w, log[j].number, log[i].number);
    forall m: nat | m < |sent| && m != k ensures !Mentions(sent[m], log[i].number, log[j].number) {
      assert Apart(notes[m], Note(j, i)) && Joins(log, notes[m], |log|);
      NumbersDiffer(log, notes[m].reply, i);
      NumbersDiffer(log, notes[m].reply, j);
      NumbersDiffer(log, notes[m].request, i);
      NumbersDiffer(log, notes[m].request, j);
    }
    MentionedOnce(sent, k, log[i].number, log[j].number);
  }

  lemma NumbersDiffer(log: seq<Event>, a: nat, b: nat)
    requires Chronological(log) && a < |log| && b < |log| && log[a].Arrival? && log[b].Arrival? && a != b
    ensures log[a].number != log[b].number
  {
    assert a < b || b < a;
  }

  /** No packet with the request's identifier is received for worker `w` between the request and its reply. */
  ghost predicate Undisturbed(c: Config, arrivals: seq<Capture>, w: nat, p: nat, q: nat)
    requires p < q < |arrivals|
  {
    forall m | p < m < q && Route(c, arrivals[m].frame) == Some(w) :: arrivals[m].frame.data[43] != arrivals[p].frame.data[43]
  }

  /** In the books of the worker, the request finds its identifier free and does not expire before its reply. */
  ghost predicate Timely(log: seq<Event>, p: nat, q: nat) {
    var i, j := PositionOf(log, p), PositionOf(log, q);
    i < j < |log| && log[i].id !in After(log, i).pending && !ExpiresBefore(log, i, j)
  }

  lemma NothingBetween(c: Config, s: State, w: nat, p: nat, q: nat)
    requires p < q < |s.arrivals| && w < |s.workers| && InOrder(c, s, w) && Undisturbed(c, s.arrivals, w, p, q)
    requires LogTrue(s.workers[w].log, s.arrivals) && Timely(s.workers[w].log, p, q)
    ensures var log := s.workers[w].log;
            var i, j := PositionOf(log, p), PositionOf(log, q);
            forall m | i < m < j && log[m].Arrival? :: log[m].id != log[i].id
  {
    var log := s.workers[w].log;
    var i, j := PositionOf(log, p), PositionOf(log, q);
    LogChronological(c, s, w);
    forall m | i < m < j && log[m].Arrival? ensures log[m].id != log[i].id {
      HandledIsRouted(c, s, w, m);
      assert p < log[m].number < q;
      assert log[m].id == s.arrivals[log[m].number].frame.data[43];
      assert log[i].id == s.arrivals[p].frame.data[43];
    }
  }

  lemma NotedOnceInLog(c: Config, s: State, w: nat, p: nat, q: nat)
    requires p < q < |s.arrivals| && w < |s.workers| && InOrder(c, s, w) && Undisturbed(c, s.arrivals, w, p, q)
    requires LogTrue(s.workers[w].log, s.arrivals) && Timely(s.workers[w].log, p, q)
    requires s.arrivals[p].frame.data[43] == s.arrivals[q].frame.data[43]
    ensures var log := s.workers[w].log;
            NotedOnce(After(log, |log|).notes, PositionOf(log, q), PositionOf(log, p))
  {
    var log := s.workers[w].log;
    var i, j := PositionOf(log, p), PositionOf(log, q);
    NothingBetween(c, s, w, p, q);
    assert log[i].id == s.arrivals[p].frame.data[43] && log[j].id == s.arrivals[q].frame.data[43];
    PairNoted(log, |log|, i, j);
  }

  /** A request and its reply, undisturbed and timely, that worker `w` has both handled. */
  ghost predicate Completed(c: Config, s: State, p: nat, q: nat, w: nat) {
    && p < q < |s.arrivals| && IsRadius(s.arrivals[p].frame) && Swapped(s.arrivals[p].frame, s.arrivals[q].frame)
    && Route(c, s.arrivals[p].frame) == Some(w) && w < |s.workers|
    && Undisturbed(c, s.arrivals, w, p, q) && Timely(s.workers[w].log, p, q)
  }

  lemma NamedOnce(c: Config, memory: seq<Capture>, steps: seq<Step>, p: nat, q: nat, w: nat)
    requires |memory| == c.pool && Completed(c, Run(c, memory, steps), p, q, w)
    ensures var names := Names(Run(c, memory, steps).notified); Sent(w, q, p) in names && Mentioned(names, p, q) == 1
  {
    var s := Run(c, memory, steps);
    var log := s.workers[w].log;
    EveryWorkerTracks(c, memory, steps);
    EveryPacketInOrder(c, memory, steps, w);
    LogsTrue(c, memory, steps, w);
    NotedOnceInLog(c, s, w, p, q);
    LogChronological(c, s, w);
    NotesDisjoint(log, |log|);
    SendingOnce(w, log, After(log, |log|).notes, PositionOf(log, p), PositionOf(log, q));
    assert Tracks(c, s.workers[w], w, s.arrivals, SentBy(Names(s.notified), w));
    SentByMeaning(Names(s.notified), w);
    OthersSilent(c, memory, steps, p, q, w);
    MentionedByOne(Names(s.notified), w, p, q);
  }

  /** End-to-end pairing, for any number of workers and any interleaving: once the worker has handled the
      reply of an undisturbed and timely request, the notifier has been given the attributes parsed from the
      two frames as they were received, and no other notification of any worker mentions either packet. */
  lemma PairNotifiedOnce(c: Config, memory: seq<Capture>, steps: seq<Step>, p: nat, q: nat, w: nat)
    requires |memory| == c.pool && Completed(c, Run(c, memory, steps), p, q, w)
    ensures var s := Run(c, memory, steps);
            && Notification(Sent(w, q, p), Parsed(s.arrivals[q]), Parsed(s.arrivals[p])) in s.notified
            && Mentioned(Names(s.notified), p, q) == 1
  {
    var s := Run(c, memory, steps);
    NamedOnce(c, memory, steps, p, q, w);
    RecordsTrue(c, memory, steps);
    var k: nat :| k < |s.notified| && Names(s.notified)[k] == Sent(w, q, p);
    assert RecordTrue(s.notified[k], s.arrivals);
  }

  /** From octets to the record: when the frames carry attribute lists, the record holds the lists'
      attributes, of each type the first, whatever lies behind the buffers. */
  lemma CarriedPairNotified(c: Config, memory: seq<Capture>, steps: seq<Step>, p: nat, q: nat, w: nat,
                            asked: seq<Attribute>, answered: seq<Attribute>)
    requires |memory| == c.pool && Completed(c, Run(c, memory, steps), p, q, w)
    requires Carries(Run(c, memory, steps).arrivals[p].frame, asked) && Carries(Run(c, memory, steps).arrivals[q].frame, answered)
    ensures Notification(Sent(w, q, p), StoreAll(answered), StoreAll(asked)) in Run(c, memory, steps).notified
  {
    var arrivals := Run(c, memory, steps).arrivals;
    PairNotifiedOnce(c, memory, steps, p, q, w);
    SwappedHashesAgree(arrivals[p].frame, arrivals[q].frame);
    CarriedIsParsed(arrivals[p].frame, arrivals[p].beyond, asked);
    CarriedIsParsed(arrivals[q].frame, arrivals[q].beyond, answered);
  }

  lemma OthersSilent(c: Config, memory: seq<Capture>, steps: seq<Step>, p: nat, q: nat, w: nat)
    requires |memory| == c.pool
    requires var arrivals := Run(c, memory, steps).arrivals;
             && p < q < |arrivals| && IsRadius(arrivals[p].frame) && Swapped(arrivals[p].frame, arrivals[q].frame)
             && Route(c, arrivals[p].frame) == Some(w)
    ensures forall x | x in Names(Run(c, memory, steps).notified) && x.worker != w :: !Mentions(x, p, q)
  {
    var s := Run(c, memory, steps);
    SwappedHashesAgree(s.arrivals[p].frame, s.arrivals[q].frame);
    EveryWorkerTracks(c, memory, steps);
    SendersAreRadius(c, memory, steps);
    forall x | x in Names(s.notified) && x.worker != w ensures !Mentions(x, p, q) {
      EveryPacketInOrder(c, memory, steps, x.worker);
      assert Tracks(c, s.workers[x.worker], x.worker, s.arrivals, SentBy(Names(s.notified), x.worker));
      NotifiedWasHandled(c, s, x.worker, x);
    }
  }
}
