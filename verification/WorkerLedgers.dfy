/**
 The RADIUS workers of `Pipeline` keep the books of `Sessions`: in every reachable state a worker's
 session map and its notifications are those of the ledger of its log.
 */
module WorkerLedgers {
  import opened Bytes
  import opened Sessions
  import opened Pipeline
  import opened Delivery

  function StampOf(arrivals: seq<Capture>, number: nat): uint64 {
    if number < |arrivals| then arrivals[number].stamp else 0
  }

  function NumberAt(h: seq<Event>, k: nat): nat {
    if k < |h| && h[k].Arrival? then h[k].number else 0
  }

  /** The entries that a SYNC_TIMEOUT leaves. */
  function Unexpired(sessions: map<byte, Held>, arrivals: seq<Capture>, now: uint64, limit: uint64): map<byte, Held> {
    map i | i in sessions && !Expired(StampOf(arrivals, sessions[i].number), now, limit) :: sessions[i]
  }

  /** The session map as it will be when the sweep or the erasure that may be under way is done. */
  function Settled(c: Config, x: Worker, arrivals: seq<Capture>): map<byte, Held> {
    if x.hand.Sweeping? then
      map i | i in x.sessions && !(i in x.hand.todo && Expired(StampOf(arrivals, x.sessions[i].number), x.hand.now, c.timeout))
        :: x.sessions[i]
    else if x.hand.Matched? then Without(x.sessions, {x.hand.id})
    else x.sessions
  }

  /** A session map holds the packets that a ledger has pending. */
  ghost predicate Mirrored(sessions: map<byte, Held>, l: Ledger, h: seq<Event>) {
    && sessions.Keys == l.pending.Keys
    && forall i | i in sessions :: l.pending[i] < |h| && sessions[i].number == NumberAt(h, l.pending[i])
  }

  /** The notifications of worker `w` that notes on its log stand for. */
  function Sending(w: nat, h: seq<Event>, notes: seq<Note>): seq<Sent> {
    seq(|notes|, k requires 0 <= k < |notes| => Sent(w, NumberAt(h, notes[k].reply), NumberAt(h, notes[k].request)))
  }

  function Names(notified: seq<Notification>): seq<Sent> {
    seq(|notified|, k requires 0 <= k < |notified| => notified[k].name)
  }

  lemma NamesAppend(a: seq<Notification>, b: seq<Notification>)
    ensures Names(a + b) == Names(a) + Names(b)
  {
  }

  /** The notifications of one worker. */
  function SentBy(notified: seq<Sent>, w: nat): seq<Sent> {
    if notified == [] then []
    else SentBy(notified[..|notified| - 1], w) + if notified[|notified| - 1].worker == w then [notified[|notified| - 1]] else []
  }

  lemma SentBySnoc(notified: seq<Sent>, sent: Sent, w: nat)
    ensures SentBy(notified + [sent], w) == SentBy(notified, w) + if sent.worker == w then [sent] else []
  {
    assert (notified + [sent])[..|notified|] == notified;
  }

  /** The books: session map and notifications `sent` against the ledger `l` of the log `h`. */
  ghost predicate Booked(sessions: map<byte, Held>, sent: seq<Sent>, w: nat, l: Ledger, h: seq<Event>) {
    Mirrored(sessions, l, h) && Below(l.notes, |h|) && sent == Sending(w, h, l.notes)
  }

  lemma SendingMore(w: nat, h: seq<Event>, e: Event, notes: seq<Note>)
    requires Below(notes, |h|)
    ensures Sending(w, h + [e], notes) == Sending(w, h, notes)
  {
  }

  lemma BookMatch(sessions: map<byte, Held>, sent: seq<Sent>, w: nat, l: Ledger, h: seq<Event>, e: Event)
    requires Booked(sessions, sent, w, l, h) && e.Arrival? && e.id in sessions && Linked(l, h + [e], |h|)
    ensures Booked(Without(sessions, {e.id}), sent + [Sent(w, e.number, sessions[e.id].number)], w, Advance(l, h + [e], |h|), h + [e])
  {
    SendingMore(w, h, e, l.notes);
    assert forall k: nat | k < |h| :: NumberAt(h + [e], k) == NumberAt(h, k);
  }

  lemma BookInsert(sessions: map<byte, Held>, sent: seq<Sent>, w: nat, l: Ledger, h: seq<Event>, e: Event, held: Held)
    requires Booked(sessions, sent, w, l, h) && e.Arrival? && e.id !in sessions && Linked(l, h + [e], |h|) && held.number == e.number
    ensures Booked(sessions[e.id := held], sent, w, Advance(l, h + [e], |h|), h + [e])
  {
    SendingMore(w, h, e, l.notes);
    assert forall k: nat | k < |h| :: NumberAt(h + [e], k) == NumberAt(h, k);
  }

  lemma BookSync(sessions: map<byte, Held>, sent: seq<Sent>, w: nat, l: Ledger, h: seq<Event>, e: Event, arrivals: seq<Capture>)
    requires Booked(sessions, sent, w, l, h) && e.Sync? && Linked(l, h + [e], |h|) && LogTrue(h, arrivals)
    ensures Booked(Unexpired(sessions, arrivals, e.now, e.limit), sent, w, Advance(l, h + [e], |h|), h + [e])
  {
    SendingMore(w, h, e, l.notes);
    forall i | i in sessions
      ensures Expired(StampOf(arrivals, sessions[i].number), e.now, e.limit) <==> i in Lost(l, h + [e], |h|, e.now, e.limit)
    {
      assert (h + [e])[l.pending[i]] == h[l.pending[i]];
    }
    assert forall k: nat | k < |h| :: NumberAt(h + [e], k) == NumberAt(h, k);
  }

  /** The books against the ledger of everything logged. */
  ghost predicate Balanced(sessions: map<byte, Held>, sent: seq<Sent>, w: nat, log: seq<Event>, n: nat) {
    n == |log| && Booked(sessions, sent, w, After(log, n), log)
  }

  lemma BalancedMatch(sessions: map<byte, Held>, sent: seq<Sent>, w: nat, log: seq<Event>, e: Event)
    requires Balanced(sessions, sent, w, log, |log|) && e.Arrival? && e.id in sessions
    ensures Balanced(Without(sessions, {e.id}), sent + [Sent(w, e.number, sessions[e.id].number)], w, log + [e], |log| + 1)
  {
    AfterSnoc(log, e);
    BookMatch(sessions, sent, w, After(log, |log|), log, e);
  }

  lemma BalancedInsert(sessions: map<byte, Held>, sent: seq<Sent>, w: nat, log: seq<Event>, e: Event, held: Held)
    requires Balanced(sessions, sent, w, log, |log|) && e.Arrival? && e.id !in sessions && held.number == e.number
    ensures Balanced(sessions[e.id := held], sent, w, log + [e], |log| + 1)
  {
    AfterSnoc(log, e);
    BookInsert(sessions, sent, w, After(log, |log|), log, e, held);
  }

  lemma BalancedSync(sessions: map<byte, Held>, sent: seq<Sent>, w: nat, log: seq<Event>, e: Event, arrivals: seq<Capture>)
    requires Balanced(sessions, sent, w, log, |log|) && e.Sync? && LogTrue(log, arrivals)
    ensures Balanced(Unexpired(sessions, arrivals, e.now, e.limit), sent, w, log + [e], |log| + 1)
  {
    AfterSnoc(log, e);
    BookSync(sessions, sent, w, After(log, |log|), log, e, arrivals);
  }

  /** Worker `w`: a RADIUS worker's books are in order, any other keeps and sends nothing. */
  ghost predicate Tracks(c: Config, x: Worker, w: nat, arrivals: seq<Capture>, sent: seq<Sent>) {
    if w < c.radius then Balanced(Settled(c, x, arrivals), sent, w, x.log, |x.log|)
    else x.sessions == map[] && !x.hand.Sweeping? && !x.hand.Matched? && sent == []
  }

  lemma TracksSettled(c: Config, y: Worker, w: nat, arrivals: seq<Capture>, sent: seq<Sent>, settled: map<byte, Held>)
    requires w < c.radius && Settled(c, y, arrivals) == settled && Balanced(settled, sent, w, y.log, |y.log|)
    ensures Tracks(c, y, w, arrivals, sent)
  {
  }

  lemma HandleDataTracks(c: Config, x: Worker, w: nat, arrivals: seq<Capture>, sent: seq<Sent>, capture: Capture, held: Held)
    requires Tracks(c, x, w, arrivals, sent) && x.hand == Holding(Data(held))
    ensures var e := HandleData(c, x, capture, held, w); Tracks(c, e.worker, w, arrivals, sent + Names(e.sent))
  {
    var e := EventOf(capture, held.number);
    AppendEmpty(sent);
    if w < c.radius {
      if e.id in x.sessions {
        BalancedMatch(x.sessions, sent, w, x.log, e);
      } else {
        BalancedInsert(x.sessions, sent, w, x.log, e, held);
      }
    }
  }

  lemma SyncSettled(c: Config, x: Worker, w: nat, arrivals: seq<Capture>, now: uint64)
    requires w < c.radius
    ensures Settled(c, HandleSync(c, x, now, w), arrivals) == Unexpired(x.sessions, arrivals, now, c.timeout)
  {
  }

  lemma HandleSyncTracks(c: Config, x: Worker, w: nat, arrivals: seq<Capture>, sent: seq<Sent>, now: uint64)
    requires Tracks(c, x, w, arrivals, sent) && x.hand.Holding? && LogTrue(x.log, arrivals)
    ensures Tracks(c, HandleSync(c, x, now, w), w, arrivals, sent)
  {
    if w < c.radius {
      var e := Sync(now, c.timeout);
      BalancedSync(x.sessions, sent, w, x.log, e, arrivals);
      SyncSettled(c, x, w, arrivals, now);
      TracksSettled(c, HandleSync(c, x, now, w), w, arrivals, sent, Unexpired(x.sessions, arrivals, e.now, e.limit));
    }
  }

  /** A visit of the sweep does not change what the sweep will leave. */
  lemma VisitSettled(c: Config, x: Worker, memory: seq<Capture>, arrivals: seq<Capture>, id: byte)
    requires x.hand.Sweeping? && id in x.hand.todo && WorkerIntact(x, memory, arrivals)
    ensures Settled(c, VisitEntry(c, x, memory, id).worker, arrivals) == Settled(c, x, arrivals)
  {
  }

  lemma TurnTracks(c: Config, x: Worker, memory: seq<Capture>, arrivals: seq<Capture>, sent: seq<Sent>, a: Step)
    requires OfWorker(a) && Able(x, a) && Tracks(c, x, a.w, arrivals, sent)
    requires WorkerIntact(x, memory, arrivals) && LogTrue(x.log, arrivals)
    ensures var e := Turn(c, x, memory, a); Tracks(c, e.worker, a.w, arrivals, sent + Names(e.sent))
  {
    AppendEmpty(sent);
    if a.Handle? && x.hand.item.Data? {
      HandleDataTracks(c, x, a.w, arrivals, sent, Content(memory, x.hand.item.held.buffer), x.hand.item.held);
    } else if a.Handle? {
      HandleSyncTracks(c, x, a.w, arrivals, sent, a.now);
    } else if a.Visit? {
      VisitSettled(c, x, memory, arrivals, a.id);
    } else {
      assert Settled(c, Turn(c, x, memory, a).worker, arrivals) == Settled(c, x, arrivals);
    }
  }

  /** What others do makes no difference to a worker's books. */
  lemma OthersTrack(c: Config, x: Worker, y: Worker, w: nat, memory: seq<Capture>, arrivals: seq<Capture>, more: seq<Capture>, sent: seq<Sent>)
    requires Tracks(c, x, w, arrivals, sent) && WorkerIntact(x, memory, arrivals)
    requires y.hand == x.hand && y.sessions == x.sessions && y.log == x.log
    ensures Tracks(c, y, w, arrivals + more, sent)
  {
    assert forall i | i in x.sessions :: StampOf(arrivals + more, x.sessions[i].number) == StampOf(arrivals, x.sessions[i].number);
    assert Settled(c, y, arrivals + more) == Settled(c, x, arrivals);
  }

  ghost predicate AllTrack(c: Config, s: State) {
    forall w: nat | w < |s.workers| :: Tracks(c, s.workers[w], w, s.arrivals, SentBy(Names(s.notified), w))
  }

  /** A step sends at most one notification, in the name of its worker. */
  predicate SentAs(sent: seq<Sent>, w: nat) {
    sent == [] || (|sent| == 1 && sent[0].worker == w)
  }

  lemma TurnSent(c: Config, x: Worker, memory: seq<Capture>, a: Step)
    requires OfWorker(a) && Able(x, a)
    ensures SentAs(Names(Turn(c, x, memory, a).sent), a.w)
  {
  }

  lemma SentByMore(notified: seq<Sent>, sent: seq<Sent>, v: nat, w: nat)
    requires SentAs(sent, v)
    ensures SentBy(notified + sent, w) == SentBy(notified, w) + if v == w then sent else []
  {
    AppendEmpty(notified);
    AppendEmpty(SentBy(notified, w));
    if sent != [] {
      assert sent == [sent[0]];
      SentBySnoc(notified, sent[0], w);
    }
  }

  lemma WorkerTracks(c: Config, s: State, a: Step, w: nat)
    requires OfWorker(a) && Enabled(s, a) && w < |s.workers| && Tracks(c, s.workers[w], w, s.arrivals, SentBy(Names(s.notified), w))
    requires WorkerIntact(s.workers[a.w], s.memory, s.arrivals) && LogTrue(s.workers[a.w].log, s.arrivals)
    ensures var r := Do(c, s, a); Tracks(c, r.workers[w], w, r.arrivals, SentBy(Names(r.notified), w))
  {
    var e := Turn(c, s.workers[a.w], s.memory, a);
    TurnSent(c, s.workers[a.w], s.memory, a);
    NamesAppend(s.notified, e.sent);
    SentByMore(Names(s.notified), Names(e.sent), a.w, w);
    if a.w == w {
      TurnTracks(c, s.workers[w], s.memory, s.arrivals, SentBy(Names(s.notified), w), a);
      assert Do(c, s, a).workers[w] == e.worker;
    } else {
      AppendEmpty(SentBy(Names(s.notified), w));
      assert Do(c, s, a).workers[w] == s.workers[w];
    }
  }

  function Received(s: State, a: Step): seq<Capture> {
    if Enabled(s, a) && a.NicReceive? then [a.capture] else []
  }

  lemma OthersQuiet(c: Config, s: State, a: Step, w: nat)
    requires !OfWorker(a) && w < |s.workers|
    ensures var r := Next(c, s, a);
            && w < |r.workers|
            && r.workers[w].hand == s.workers[w].hand && r.workers[w].sessions == s.workers[w].sessions
            && r.workers[w].log == s.workers[w].log
            && r.arrivals == s.arrivals + Received(s, a) && r.notified == s.notified
  {
    AppendEmpty(s.arrivals);
  }

  lemma StepTracks(c: Config, s: State, a: Step, w: nat)
    requires Intact(s) && w < |s.workers| && Tracks(c, s.workers[w], w, s.arrivals, SentBy(Names(s.notified), w))
    requires forall v: nat | v < |s.workers| :: LogTrue(s.workers[v].log, s.arrivals)
    ensures var r := Next(c, s, a); w < |r.workers| && Tracks(c, r.workers[w], w, r.arrivals, SentBy(Names(r.notified), w))
  {
    assert s.workers[w] in s.workers;
    if !OfWorker(a) {
      OthersQuiet(c, s, a, w);
      OthersTrack(c, s.workers[w], Next(c, s, a).workers[w], w, s.memory, s.arrivals, Received(s, a), SentBy(Names(s.notified), w));
    } else if Enabled(s, a) {
      assert s.workers[a.w] in s.workers;
      WorkerTracks(c, s, a, w);
    }
  }

  /** Worker refinement: in every reachable state, a RADIUS worker's session map (with what is left of a
      sweep or of a match done) and its notifications are those of the ledger of the packets and SYNC messages that it
      has handled; the other workers keep no packet and notify nothing. */
  lemma {:induction false} EveryWorkerTracks(c: Config, memory: seq<Capture>, steps: seq<Step>)
    requires |memory| == c.pool
    ensures |Run(c, memory, steps).workers| == Workers(c) && AllTrack(c, Run(c, memory, steps))
  {
    if steps == [] {
      forall w: nat | w < Workers(c) ensures Tracks(c, NEW_WORKER, w, [], []) {
        assert After([], 0) == NEW_LEDGER;
      }
    } else {
      var before, a := steps[..|steps| - 1], steps[|steps| - 1];
      var s := Run(c, memory, before);
      EveryWorkerTracks(c, memory, before);
      RunIntact(c, memory, before);
      RunIntact(c, memory, steps);
      forall v: nat | v < |s.workers| ensures LogTrue(s.workers[v].log, s.arrivals) {
        LogsTrue(c, memory, before, v);
      }
      forall w: nat | w < |s.workers|
        ensures var r := Next(c, s, a); w < |r.workers| && Tracks(c, r.workers[w], w, r.arrivals, SentBy(Names(r.notified), w))
      {
        StepTracks(c, s, a, w);
      }
    }
  }
}
