/**
 The worker thread of `PacketProcessor<RADIUSPacket>`: its session map, counters and loop, proved
 against the ledger of `Sessions`, and the notifier that collects its results.
 */
module RadiusWorkers {
  import opened Bytes
  import opened Attributes
  import opened Sessions

  /** A parsed packet as the worker keeps it; `number` names it. */
  datatype Packet = Packet(number: nat, id: byte, stamp: uint64, avps: AvpStorage)

  datatype Notification = Notification(reply: AvpStorage, request: AvpStorage)

  /** The notifier's record of a notification. */
  datatype NotificationData = NotificationData(timeMsec: uint64, sourceId: string, respAvp: AvpStorage, reqAvp: AvpStorage)

  /** What a worker takes from its queue, with the reading of the clock that handling it makes: for the
      record of a notification, and for the sweep of a SYNC_TIMEOUT. */
  datatype Message = Data(packet: Packet, clock: uint64) | SyncTimeout(now: uint64) | Shutdown

  class ResultNotifier {
    var queue: seq<NotificationData>
    var sourceId: string

    constructor (sourceId: string)
      ensures queue == [] && this.sourceId == sourceId
    {
      queue, this.sourceId := [], "";
      new;
      Initialize(sourceId);
    }

    /** The first non-empty identification stays. */
    method Initialize(sourceId: string)
      modifies this`sourceId
      ensures this.sourceId == if old(this.sourceId) == "" then sourceId else old(this.sourceId)
    {
      if this.sourceId == "" {
        this.sourceId := sourceId;
      }
    }

    method ProvideData(reply: Packet, request: Packet, clock: uint64)
      modifies this`queue
      ensures queue == old(queue) + [NotificationData(clock, sourceId, reply.avps, request.avps)]
    {
      queue := queue + [NotificationData(clock, sourceId, reply.avps, request.avps)];
    }
  }

  /** The pairs that records of the notifier are about. */
  function Pairs(sent: seq<NotificationData>): seq<Notification> {
    seq(|sent|, k requires 0 <= k < |sent| => Notification(sent[k].respAvp, sent[k].reqAvp))
  }

  /** The records that handling a packet makes. */
  function Records(sessions: map<byte, Packet>, packet: Packet, clock: uint64, sourceId: string): seq<NotificationData> {
    if packet.id in sessions then [NotificationData(clock, sourceId, packet.avps, sessions[packet.id].avps)] else []
  }

  lemma PairsOfRecords(sessions: map<byte, Packet>, packet: Packet, clock: uint64, sourceId: string)
    ensures Pairs(Records(sessions, packet, clock, sourceId)) ==
            if packet.id in sessions then [Notification(packet.avps, sessions[packet.id].avps)] else []
  {
  }

  lemma NothingSent(notified: seq<Notification>, queue: seq<NotificationData>)
    ensures notified + Pairs([]) == notified && queue + [] == queue
  {
  }

  ghost predicate From(sent: seq<NotificationData>, sourceId: string) {
    forall d | d in sent :: d.sourceId == sourceId
  }

  lemma FromAppend(a: seq<NotificationData>, b: seq<NotificationData>, sourceId: string)
    requires From(a, sourceId) && From(b, sourceId)
    ensures From(a + b, sourceId)
  {
  }

  lemma PairsAppend(a: seq<NotificationData>, b: seq<NotificationData>)
    ensures Pairs(a + b) == Pairs(a) + Pairs(b)
  {
  }

  function PacketEvent(p: Packet): Event {
    Arrival(p.id, p.stamp, p.number)
  }

  // ---- The messages of a run

  function EventOf(m: Message, timeout: uint64): seq<Event> {
    match m
    case Data(p, _) => [PacketEvent(p)]
    case SyncTimeout(now) => [Sync(now, timeout)]
    case Shutdown => []
  }

  /** The attributes that go with the event; a SYNC_TIMEOUT has none. */
  function ContentOf(m: Message): seq<AvpStorage> {
    match m
    case Data(p, _) => [p.avps]
    case SyncTimeout(_) => [map[]]
    case Shutdown => []
  }

  function Events(input: seq<Message>, timeout: uint64): seq<Event> {
    if input == [] then [] else Events(input[..|input| - 1], timeout) + EventOf(input[|input| - 1], timeout)
  }

  function Contents(input: seq<Message>): seq<AvpStorage> {
    if input == [] then [] else Contents(input[..|input| - 1]) + ContentOf(input[|input| - 1])
  }

  lemma EventsSnoc(before: seq<Event>, input: seq<Message>, timeout: uint64, m: Message)
    ensures before + Events(input + [m], timeout) == before + Events(input, timeout) + EventOf(m, timeout)
  {
    assert (input + [m])[..|input|] == input;
    assert before + (Events(input, timeout) + EventOf(m, timeout)) == before + Events(input, timeout) + EventOf(m, timeout);
  }

  lemma ContentsSnoc(before: seq<AvpStorage>, input: seq<Message>, m: Message)
    ensures before + Contents(input + [m]) == before + Contents(input) + ContentOf(m)
  {
    assert (input + [m])[..|input|] == input;
    assert before + (Contents(input) + ContentOf(m)) == before + Contents(input) + ContentOf(m);
  }

  /** How many messages a running worker takes: up to and including the first SHUTDOWN. */
  function UntilShutdown(input: seq<Message>): (n: nat)
    ensures n <= |input|
    ensures Shutdown !in input ==> n == |input|
    ensures Shutdown in input ==> n > 0 && input[n - 1] == Shutdown
    ensures forall k | 0 <= k < n && input[k] == Shutdown :: k == n - 1
  {
    if input == [] then 0
    else if input[0] == Shutdown then 1
    else 1 + UntilShutdown(input[1..])
  }

  // ---- What the worker's fields stand for

  /** The stored packet is the one that arrived at position `at`. */
  ghost predicate Stored(p: Packet, at: nat, h: seq<Event>, contents: seq<AvpStorage>) {
    at < |h| && at < |contents| && PacketEvent(p) == h[at] && p.avps == contents[at]
  }

  /** The session map holds exactly the pending packets of the ledger. */
  ghost predicate Mirrors(sessions: map<byte, Packet>, l: Ledger, h: seq<Event>, contents: seq<AvpStorage>) {
    && |contents| == |h|
    && sessions.Keys == l.pending.Keys
    && forall i | i in sessions :: Stored(sessions[i], l.pending[i], h, contents)
  }

  function AvpsAt(contents: seq<AvpStorage>, k: nat): AvpStorage {
    if k < |contents| then contents[k] else map[]
  }

  /** The notifications that notes on a history stand for. */
  function Render(contents: seq<AvpStorage>, notes: seq<Note>): seq<Notification> {
    seq(|notes|, k requires 0 <= k < |notes| =>
      Notification(AvpsAt(contents, notes[k].reply), AvpsAt(contents, notes[k].request)))
  }

  lemma RenderMore(contents: seq<AvpStorage>, c: AvpStorage, notes: seq<Note>)
    requires Below(notes, |contents|)
    ensures Render(contents + [c], notes) == Render(contents, notes)
  {
  }

  /** A worker's state is the ledger `l` of what it has handled. */
  ghost predicate Represents(sessions: map<byte, Packet>, total: uint64, notified: seq<Notification>,
                             l: Ledger, h: seq<Event>, contents: seq<AvpStorage>)
  {
    && Mirrors(sessions, l, h, contents)
    && total == CountUp(0, l.timeouts)
    && Below(l.notes, |contents|)
    && notified == Render(contents, l.notes)
  }

  lemma RepresentsMatch(sessions: map<byte, Packet>, total: uint64, notified: seq<Notification>,
                        l: Ledger, h: seq<Event>, contents: seq<AvpStorage>, p: Packet)
    requires Represents(sessions, total, notified, l, h, contents) && p.id in sessions
    requires Linked(l, h + [PacketEvent(p)], |h|)
    ensures var g := h + [PacketEvent(p)];
            Represents(Without(sessions, {p.id}), total, notified + [Notification(p.avps, sessions[p.id].avps)],
                       Advance(l, g, |h|), g, contents + [p.avps])
  {
    var g, c := h + [PacketEvent(p)], contents + [p.avps];
    var after, r := Without(sessions, {p.id}), Advance(l, g, |h|);
    assert g[|h|] == PacketEvent(p) && c[|h|] == p.avps;
    assert Stored(sessions[p.id], l.pending[p.id], h, contents);
    forall i | i in after ensures Stored(after[i], r.pending[i], g, c) {
      assert Stored(sessions[i], l.pending[i], h, contents);
    }
    RenderMore(contents, p.avps, l.notes);
  }

  lemma RepresentsInsert(sessions: map<byte, Packet>, total: uint64, notified: seq<Notification>,
                         l: Ledger, h: seq<Event>, contents: seq<AvpStorage>, p: Packet)
    requires Represents(sessions, total, notified, l, h, contents) && p.id !in sessions
    requires Linked(l, h + [PacketEvent(p)], |h|)
    ensures var g := h + [PacketEvent(p)];
            Represents(sessions[p.id := p], total, notified, Advance(l, g, |h|), g, contents + [p.avps])
  {
    var g, c := h + [PacketEvent(p)], contents + [p.avps];
    var after, r := sessions[p.id := p], Advance(l, g, |h|);
    assert g[|h|] == PacketEvent(p) && c[|h|] == p.avps;
    forall i | i in after ensures Stored(after[i], r.pending[i], g, c) {
      assert i in sessions ==> Stored(sessions[i], l.pending[i], h, contents);
    }
    RenderMore(contents, p.avps, l.notes);
  }

  /** What the sweep leaves of a session map. */
  ghost predicate Swept(before: map<byte, Packet>, after: map<byte, Packet>, now: uint64, timeout: uint64) {
    && (forall i :: i in after <==> i in before && !Expired(before[i].stamp, now, timeout))
    && (forall i | i in after :: after[i] == before[i])
  }

  /** The sweep erases exactly what the ledger loses. */
  lemma SweptIsLost(before: map<byte, Packet>, after: map<byte, Packet>, l: Ledger, h: seq<Event>, contents: seq<AvpStorage>,
                    now: uint64, timeout: uint64)
    requires Mirrors(before, l, h, contents) && Swept(before, after, now, timeout)
    requires Linked(l, h + [Sync(now, timeout)], |h|)
    ensures var lost := Lost(l, h + [Sync(now, timeout)], |h|, now, timeout);
            lost <= before.Keys && after == Without(before, lost)
  {
    forall i | i in before ensures i in after <==> i !in Lost(l, h + [Sync(now, timeout)], |h|, now, timeout) {
      assert Stored(before[i], l.pending[i], h, contents);
    }
  }

  lemma SweptSize(before: map<byte, Packet>, after: map<byte, Packet>, l: Ledger, h: seq<Event>, contents: seq<AvpStorage>,
                  now: uint64, timeout: uint64)
    requires Mirrors(before, l, h, contents) && Swept(before, after, now, timeout)
    requires Linked(l, h + [Sync(now, timeout)], |h|)
    ensures |before| == |after| + |Lost(l, h + [Sync(now, timeout)], |h|, now, timeout)|
  {
    SweptIsLost(before, after, l, h, contents, now, timeout);
    RemoveSize(before, Lost(l, h + [Sync(now, timeout)], |h|, now, timeout));
  }

  lemma MirrorsSync(before: map<byte, Packet>, after: map<byte, Packet>, l: Ledger, h: seq<Event>, contents: seq<AvpStorage>,
                    now: uint64, timeout: uint64)
    requires Mirrors(before, l, h, contents) && Swept(before, after, now, timeout)
    requires Linked(l, h + [Sync(now, timeout)], |h|)
    ensures var g := h + [Sync(now, timeout)]; Mirrors(after, Advance(l, g, |h|), g, contents + [map[]])
  {
    var g := h + [Sync(now, timeout)];
    var r := Advance(l, g, |h|);
    SweptIsLost(before, after, l, h, contents, now, timeout);
    forall i | i in after ensures Stored(after[i], r.pending[i], g, contents + [map[]]) {
      assert Stored(before[i], l.pending[i], h, contents);
    }
  }

  lemma AdvanceSync(l: Ledger, g: seq<Event>, n: nat)
    requires n < |g| && Linked(l, g, n) && g[n].Sync?
    ensures var r := Advance(l, g, n);
            var lost := |Lost(l, g, n, g[n].now, g[n].limit)|;
            r.notes == l.notes && r.timeouts == l.timeouts + lost && r.reports == l.reports + [lost]
  {
  }

  /** A sweep keeps the notifications and raises the total by the number of entries it erases. */
  lemma RepresentsSync(after: map<byte, Packet>, before: map<byte, Packet>, erased: nat, total: uint64, notified: seq<Notification>,
                       l: Ledger, h: seq<Event>, contents: seq<AvpStorage>, r: Ledger, g: seq<Event>)
    requires Represents(before, total, notified, l, h, contents)
    requires Mirrors(after, r, g, contents + [map[]]) && r.notes == l.notes && r.timeouts == l.timeouts + erased
    ensures Represents(after, CountUp(total, erased), notified, r, g, contents + [map[]])
  {
    CountUpMore(0, l.timeouts, erased);
    RenderMore(contents, map[], l.notes);
  }

  // ---- One message, from ledger to ledger

  /** The ledger behind a matched packet. */
  lemma AfterMatch(sessions: map<byte, Packet>, total: uint64, notified: seq<Notification>,
                   l: Ledger, h: seq<Event>, contents: seq<AvpStorage>, p: Packet) returns (r: Ledger)
    requires Represents(sessions, total, notified, l, h, contents) && l == After(h, |h|) && p.id in sessions
    ensures var g := h + [PacketEvent(p)];
            && r == After(g, |g|) && r.reports == l.reports
            && Represents(Without(sessions, {p.id}), total, notified + [Notification(p.avps, sessions[p.id].avps)], r, g, contents + [p.avps])
  {
    AfterSnoc(h, PacketEvent(p));
    RepresentsMatch(sessions, total, notified, l, h, contents, p);
    r := Advance(l, h + [PacketEvent(p)], |h|);
  }

  /** The ledger behind a stored packet. */
  lemma AfterInsert(sessions: map<byte, Packet>, total: uint64, notified: seq<Notification>,
                    l: Ledger, h: seq<Event>, contents: seq<AvpStorage>, p: Packet) returns (r: Ledger)
    requires Represents(sessions, total, notified, l, h, contents) && l == After(h, |h|) && p.id !in sessions
    ensures var g := h + [PacketEvent(p)];
            && r == After(g, |g|) && r.reports == l.reports
            && Represents(sessions[p.id := p], total, notified, r, g, contents + [p.avps])
  {
    AfterSnoc(h, PacketEvent(p));
    RepresentsInsert(sessions, total, notified, l, h, contents, p);
    r := Advance(l, h + [PacketEvent(p)], |h|);
  }

  lemma SweepLedger(before: map<byte, Packet>, after: map<byte, Packet>, erased: nat, l: Ledger, h: seq<Event>, contents: seq<AvpStorage>,
                    now: uint64, timeout: uint64) returns (r: Ledger)
    requires Mirrors(before, l, h, contents) && l == After(h, |h|) && Swept(before, after, now, timeout)
    requires erased == |before| - |after|
    ensures var g := h + [Sync(now, timeout)];
            && r == After(g, |g|) && Mirrors(after, r, g, contents + [map[]]) && r.notes == l.notes
            && r.timeouts == l.timeouts + erased && r.reports == l.reports + [erased]
  {
    var g := h + [Sync(now, timeout)];
    AfterSnoc(h, Sync(now, timeout));
    r := Advance(l, g, |h|);
    MirrorsSync(before, after, l, h, contents, now, timeout);
    SweptSize(before, after, l, h, contents, now, timeout);
    AdvanceSync(l, g, |h|);
  }

  /** The ledger behind a sweep. */
  lemma AfterSweep(before: map<byte, Packet>, after: map<byte, Packet>, erased: nat, total: uint64, notified: seq<Notification>,
                   l: Ledger, h: seq<Event>, contents: seq<AvpStorage>, now: uint64, timeout: uint64) returns (r: Ledger)
    requires Represents(before, total, notified, l, h, contents) && l == After(h, |h|)
    requires Swept(before, after, now, timeout) && erased == |before| - |after|
    ensures var g := h + [Sync(now, timeout)];
            && r == After(g, |g|) && r.reports == l.reports + [erased]
            && Represents(after, CountUp(total, erased), notified, r, g, contents + [map[]])
  {
    r := SweepLedger(before, after, erased, l, h, contents, now, timeout);
    RepresentsSync(after, before, erased, total, notified, l, h, contents, r, h + [Sync(now, timeout)]);
  }

  // ---- The sweep

  /** A sweep that still has the entries `todo` to visit. */
  ghost predicate SweptSoFar(before: map<byte, Packet>, rest: map<byte, Packet>, todo: set<byte>, now: uint64, timeout: uint64) {
    && todo <= rest.Keys <= before.Keys
    && (forall i | i in rest :: rest[i] == before[i])
    && (forall i | i in before && i !in todo :: i in rest <==> !Expired(before[i].stamp, now, timeout))
  }

  lemma {:induction false} SubsetSize(a: set<byte>, b: set<byte>)
    requires a <= b
    ensures |a| <= |b|
  {
    if a != {} {
      var i :| i in a;
      SubsetSize(a - {i}, b - {i});
    }
  }

  lemma SweepErases(before: map<byte, Packet>, rest: map<byte, Packet>, todo: set<byte>, i: byte, now: uint64, timeout: uint64)
    requires SweptSoFar(before, rest, todo, now, timeout) && i in todo && Expired(rest[i].stamp, now, timeout)
    ensures SweptSoFar(before, Without(rest, {i}), todo - {i}, now, timeout)
    ensures |Without(rest, {i})| == |rest| - 1 && |rest| <= |before| <= 256
  {
    RemoveSize(rest, {i});
    SetSizeBelow(before.Keys, 256);
    SubsetSize(rest.Keys, before.Keys);
  }

  class RadiusWorker {
    var sessions: map<byte, Packet>
    var totalTimeouts: uint64
    var intervalTimeouts: uint64
    var responseTimeout: uint64
    var stop: bool
    var reported: seq<nat>          // the interval values that the SYNC messages have written out
    ghost var history: seq<Event>
    ghost var contents: seq<AvpStorage>
    ghost var notified: seq<Notification>
    ghost var ledger: Ledger

    /** The fields are those of the ledger of everything handled so far. */
    ghost predicate Valid()
      reads this
    {
      && ledger == After(history, |history|)
      && Represents(sessions, totalTimeouts, notified, ledger, history, contents)
      && intervalTimeouts == 0
      && reported == ledger.reports
    }

    /** The counters of a worker: the total is the sum of the values reported at all SYNC messages, up to its
        wrap-around, and each of these is what the tracks of all identifiers lost at that message. */
    lemma Counters()
      requires Valid()
      ensures totalTimeouts == CountUp(0, Sum(reported))
      ensures reported == LostAtSyncs(history, |history|) && Sum(reported) == LostTotal(history, |history|, 256)
    {
      ReportsAddUp(history, |history|);
      CountersAreTracks(history, |history|);
    }

    constructor (responseTimeout: uint64)
      ensures Valid() && history == [] && notified == [] && reported == [] && this.responseTimeout == responseTimeout && !stop
    {
      sessions := map[];
      totalTimeouts, intervalTimeouts := 0, 0;
      this.responseTimeout := responseTimeout;
      stop, reported := false, [];
      history, contents, notified, ledger := [], [], [], NEW_LEDGER;
    }

    method SetTimeoutForWaitingResponse(timeout: uint64)
      requires Valid()
      modifies this`responseTimeout
      ensures Valid() && responseTimeout == timeout
    {
      responseTimeout := timeout;
    }

    /** Match and insert: a packet whose identifier is stored is notified with the stored packet, which
        is removed; any other packet is stored. */
    method HandlePacket(packet: Packet, clock: uint64, notifier: ResultNotifier) returns (ghost sent: seq<NotificationData>)
      requires Valid() && (notifier as object) != this
      modifies this`sessions, this`history, this`contents, this`notified, this`ledger, notifier`queue
      ensures Valid()
      ensures history == old(history) + [PacketEvent(packet)] && contents == old(contents) + [packet.avps]
      ensures sessions == if packet.id in old(sessions) then Without(old(sessions), {packet.id}) else old(sessions)[packet.id := packet]
      ensures sent == Records(old(sessions), packet, clock, notifier.sourceId)
      ensures packet.id in old(sessions) ==>
                sent == [NotificationData(clock, notifier.sourceId, packet.avps, old(sessions)[packet.id].avps)]
      ensures packet.id !in old(sessions) ==> sent == []
      ensures notified == old(notified) + Pairs(sent) && notifier.queue == old(notifier.queue) + sent
    {
      sent := Records(sessions, packet, clock, notifier.sourceId);
      PairsOfRecords(sessions, packet, clock, notifier.sourceId);
      if packet.id in sessions {
        ledger := AfterMatch(sessions, totalTimeouts, notified, ledger, history, contents, packet);
        notifier.ProvideData(packet, sessions[packet.id], clock);
        sessions := Without(sessions, {packet.id});
      } else {
        ledger := AfterInsert(sessions, totalTimeouts, notified, ledger, history, contents, packet);
        sessions := sessions[packet.id := packet];
        AppendEmpty(notifier.queue);
        AppendEmpty(notified);
      }
      notified := notified + Pairs(sent);
      history, contents := history + [PacketEvent(packet)], contents + [packet.avps];
    }

    /** A SYNC_TIMEOUT: sweep, report the interval counter and reset it. */
    method HandleSync(now: uint64) returns (interval: uint64)
      requires Valid()
      modifies this`sessions, this`totalTimeouts, this`intervalTimeouts, this`reported, this`history, this`contents, this`ledger
      ensures Valid()
      ensures history == old(history) + [Sync(now, responseTimeout)] && contents == old(contents) + [map[]]
      ensures Swept(old(sessions), sessions, now, responseTimeout)
      ensures interval == |old(sessions)| - |sessions| && totalTimeouts == CountUp(old(totalTimeouts), interval)
      ensures reported == old(reported) + [interval]
    {
      Sweep(now);
      interval := intervalTimeouts;
      reported := reported + [interval];
      intervalTimeouts := 0;
      ledger := AfterSweep(old(sessions), sessions, interval, old(totalTimeouts), notified, ledger, history, contents, now, responseTimeout);
      history, contents := history + [Sync(now, responseTimeout)], contents + [map[]];
    }

    /** The erase-while-iterating loop; `todo` are the entries that the iterator has not reached.  Exactly
        the entries whose age reaches the timeout are erased, and each is counted in both counters. */
    method Sweep(now: uint64)
      requires intervalTimeouts == 0
      modifies this`sessions, this`totalTimeouts, this`intervalTimeouts
      ensures Swept(old(sessions), sessions, now, responseTimeout)
      ensures intervalTimeouts == |old(sessions)| - |sessions| && totalTimeouts == CountUp(old(totalTimeouts), intervalTimeouts)
    {
      var todo := sessions.Keys;
      while todo != {}
        invariant SweptSoFar(old(sessions), sessions, todo, now, responseTimeout)
        invariant intervalTimeouts == |old(sessions)| - |sessions|
        invariant totalTimeouts == CountUp(old(totalTimeouts), intervalTimeouts)
        decreases |todo|
      {
        var i :| i in todo;
        var delta := Sub64(now, sessions[i].stamp);
        if delta >= responseTimeout {
          SweepErases(old(sessions), sessions, todo, i, now, responseTimeout);
          CountUpMore(old(totalTimeouts), intervalTimeouts, 1);
          intervalTimeouts := intervalTimeouts + 1;
          totalTimeouts := CountUp(totalTimeouts, 1);
          sessions := Without(sessions, {i});
        }
        todo := todo - {i};
      }
    }

    method Stop()
      requires Valid()
      modifies this`stop
      ensures Valid() && stop
    {
      stop := true;
    }

    /** One turn of the loop; a SHUTDOWN sets the stop flag, which ends it. */
    method Turn(m: Message, notifier: ResultNotifier) returns (ghost sent: seq<NotificationData>, ghost interval: seq<nat>)
      requires Valid() && (notifier as object) != this && !stop
      modifies this, notifier`queue
      ensures Valid() && responseTimeout == old(responseTimeout)
      ensures stop <==> m.Shutdown?
      ensures history == old(history) + EventOf(m, responseTimeout) && contents == old(contents) + ContentOf(m)
      ensures notified == old(notified) + Pairs(sent) && notifier.queue == old(notifier.queue) + sent
      ensures From(sent, notifier.sourceId)
      ensures m.Data? ==> sent == Records(old(sessions), m.packet, m.clock, notifier.sourceId)
      ensures !m.Data? ==> sent == []
      ensures reported == old(reported) + interval && |interval| == if m.SyncTimeout? then 1 else 0
      ensures m.SyncTimeout? ==> interval[0] == |old(sessions)| - |sessions|
    {
      NothingSent(notified, notifier.queue);
      AppendEmpty(history);
      AppendEmpty(contents);
      AppendEmpty(reported);
      sent, interval := [], [];
      match m {
        case Shutdown =>
          Stop();
        case SyncTimeout(now) =>
          var value := HandleSync(now);
          interval := [value];
        case Data(packet, clock) =>
          sent := HandlePacket(packet, clock, notifier);
      }
    }

    /** The thread's loop over the messages that its queue delivers.  It ends behind a SHUTDOWN, or at
        once when the stop flag is set; otherwise it takes everything and would wait for more. */
    method ProcessPackets(input: seq<Message>, notifier: ResultNotifier) returns (taken: nat, ghost sent: seq<NotificationData>)
      requires Valid() && (notifier as object) != this
      modifies this, notifier`queue
      ensures Valid() && responseTimeout == old(responseTimeout)
      ensures taken == if old(stop) then 0 else UntilShutdown(input)
      ensures history == old(history) + Events(input[..taken], responseTimeout)
      ensures contents == old(contents) + Contents(input[..taken])
      ensures notified == old(notified) + Pairs(sent) && notifier.queue == old(notifier.queue) + sent
      ensures From(sent, notifier.sourceId)
      ensures stop <==> old(stop) || Shutdown in input
      ensures reported == LostAtSyncs(history, |history|)
      ensures totalTimeouts == CountUp(0, Sum(reported))
    {
      taken, sent := 0, [];
      AppendEmpty(history);
      AppendEmpty(contents);
      AppendEmpty(notified);
      AppendEmpty(notifier.queue);
      while !stop && taken < |input|
        invariant Valid() && responseTimeout == old(responseTimeout)
        invariant taken <= UntilShutdown(input) && (old(stop) ==> taken == 0)
        invariant stop <==> old(stop) || (taken == UntilShutdown(input) && Shutdown in input)
        invariant history == old(history) + Events(input[..taken], responseTimeout)
        invariant contents == old(contents) + Contents(input[..taken])
        invariant notified == old(notified) + Pairs(sent) && notifier.queue == old(notifier.queue) + sent
        invariant From(sent, notifier.sourceId)
        decreases |input| - taken
      {
        var m := input[taken];
        TakeMore(input, taken);
        EventsSnoc(old(history), input[..taken], responseTimeout, m);
        ContentsSnoc(old(contents), input[..taken], m);
        ghost var added, interval := Turn(m, notifier);
        AppendAssoc(old(notified), Pairs(sent), Pairs(added));
        AppendAssoc(old(notifier.queue), sent, added);
        PairsAppend(sent, added);
        FromAppend(sent, added, notifier.sourceId);
        sent := sent + added;
        taken := taken + 1;
      }
      Counters();
    }
  }
}
