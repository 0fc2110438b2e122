/**
 What a RADIUS worker has done after a history of messages, stated on positions in that history.

 `After` is the ledger that the worker's session map and counters stand for.  `Opens` and
 `TrackOf` are two independent readings of a history, the first by looking back from each arrival
 and the second one identifier at a time; the lemmas show that all three agree.
 */
module Sessions {
  import opened Bytes

  /** A handled message: a packet with identifier, receive time and the number that
      names it, or a SYNC_TIMEOUT with
      the clock and the response timeout that the worker read for it. */
  datatype Event = Arrival(id: byte, stamp: uint64, number: nat) | Sync(now: uint64, limit: uint64)

  datatype Note = Note(reply: nat, request: nat)

  /** The pending packets by identifier, the notifications, the total of timeouts and the values that the
      SYNC messages reported. */
  datatype Ledger = Ledger(pending: map<byte, nat>, notes: seq<Note>, timeouts: nat, reports: seq<nat>)

  /** The age test of the sweep, with its subtraction in a `size_t`. */
  predicate Expired(stamp: uint64, now: uint64, limit: uint64) {
    Sub64(now, stamp) >= limit
  }

  /** The test means "age at least the timeout" exactly when the clock has not stepped back behind the
      receive time, or has by so much that the wrapped difference falls below the timeout. */
  lemma ExpiredMeansAge(stamp: uint64, now: uint64, limit: uint64)
    ensures (Expired(stamp, now, limit) <==> now - stamp >= limit) <==> (stamp <= now || now - stamp + TWO_64 < limit)
  {
  }

  /** One millisecond of clock step-back is enough to drop a packet that has just arrived. */
  lemma StepBackDropsFreshPacket(id: byte)
    ensures var h := [Arrival(id, 1, 0), Sync(0, 1000)];
            var l := After(h, 2);
            !(h[1].now - h[0].stamp >= h[1].limit) && l.pending == map[] && l.timeouts == 1 && l.reports == [1]
  {
    var h := [Arrival(id, 1, 0), Sync(0, 1000)];
    assert After(h, 1) == Advance(After(h, 0), h, 0) == Ledger(map[id := 0], [], 0, []);
    assert Lost(After(h, 1), h, 1, 0, 1000) == {id};
  }

  ghost predicate Linked(l: Ledger, h: seq<Event>, n: nat) {
    && n <= |h|
    && forall i | i in l.pending :: l.pending[i] < n && h[l.pending[i]].Arrival? && h[l.pending[i]].id == i
  }

  /** The identifiers whose pending packet a SYNC_TIMEOUT expires. */
  function Lost(l: Ledger, h: seq<Event>, n: nat, now: uint64, limit: uint64): set<byte>
    requires Linked(l, h, n)
  {
    set i | i in l.pending && Expired(h[l.pending[i]].stamp, now, limit)
  }

  function Without<V>(m: map<byte, V>, ids: set<byte>): map<byte, V> {
    map i | i in m && i !in ids :: m[i]
  }

  /** The ledger after the message at position `n`. */
  function Advance(l: Ledger, h: seq<Event>, n: nat): (r: Ledger)
    requires n < |h| && Linked(l, h, n)
    ensures Linked(r, h, n + 1)
  {
    match h[n]
    case Arrival(id, _, _) =>
      if id in l.pending
      then l.(pending := Without(l.pending, {id}), notes := l.notes + [Note(n, l.pending[id])])
      else l.(pending := l.pending[id := n])
    case Sync(now, limit) =>
      var lost := Lost(l, h, n, now, limit);
      l.(pending := Without(l.pending, lost),
         timeouts := l.timeouts + |lost|,
         reports := l.reports + [|lost|])
  }

  const NEW_LEDGER := Ledger(map[], [], 0, [])

  /** The ledger after the first `n` messages. */
  function After(h: seq<Event>, n: nat): (l: Ledger)
    requires n <= |h|
    ensures Linked(l, h, n)
  {
    if n == 0 then NEW_LEDGER else Advance(After(h, n - 1), h, n - 1)
  }

  lemma AdvanceFrame(l: Ledger, h: seq<Event>, more: seq<Event>, n: nat)
    requires n < |h| && Linked(l, h, n) && Linked(l, h + more, n)
    ensures Advance(l, h + more, n) == Advance(l, h, n)
  {
    assert forall i | i in l.pending :: (h + more)[l.pending[i]] == h[l.pending[i]];
    assert (h + more)[n] == h[n];
    if h[n].Sync? {
      assert Lost(l, h + more, n, h[n].now, h[n].limit) == Lost(l, h, n, h[n].now, h[n].limit);
    }
  }

  /** A ledger depends on nothing behind its position. */
  lemma {:induction false} AfterPrefix(h: seq<Event>, more: seq<Event>, n: nat)
    requires n <= |h|
    ensures After(h + more, n) == After(h, n)
  {
    if n > 0 {
      AfterPrefix(h, more, n - 1);
      AdvanceFrame(After(h, n - 1), h, more, n - 1);
    }
  }

  /** The ledger after one more message. */
  lemma AfterSnoc(h: seq<Event>, e: Event)
    ensures After(h + [e], |h|) == After(h, |h|)
    ensures After(h + [e], |h| + 1) == Advance(After(h, |h|), h + [e], |h|)
  {
    AfterPrefix(h, [e], |h|);
  }

  /** The notes are on the first `n` messages. */
  ghost predicate Below(notes: seq<Note>, n: nat) {
    forall k: nat | k < |notes| :: notes[k].reply < n && notes[k].request < n
  }

  // ---- Conservation

  function Bit(b: bool): nat {
    if b then 1 else 0
  }

  function Arrivals(h: seq<Event>, n: nat): nat
    requires n <= |h|
  {
    if n == 0 then 0 else Arrivals(h, n - 1) + Bit(h[n - 1].Arrival?)
  }

  function Sum(s: seq<nat>): nat {
    if s == [] then 0 else Sum(s[..|s| - 1]) + s[|s| - 1]
  }

  lemma RemoveSize<V>(m: map<byte, V>, ids: set<byte>)
    requires ids <= m.Keys
    ensures |Without(m, ids)| == |m| - |ids|
  {
    assert Without(m, ids) == m - ids;
    assert (m - ids).Keys == m.Keys - ids;
  }

  lemma AddSize(m: map<byte, nat>, i: byte, p: nat)
    requires i !in m
    ensures |m[i := p]| == |m| + 1
  {
    assert m[i := p].Keys == m.Keys + {i};
  }

  lemma SumSnoc(s: seq<nat>, x: nat)
    ensures Sum(s + [x]) == Sum(s) + x
  {
    assert (s + [x])[..|s|] == s;
  }

  // ---- Looking back from an arrival

  /** The last arrival of identifier `id` before position `n`. */
  function LastArrival(h: seq<Event>, id: byte, n: nat): (r: Option<nat>)
    requires n <= |h|
    ensures r.Some? ==> r.value < n && h[r.value].Arrival? && h[r.value].id == id
  {
    if n == 0 then None
    else if h[n - 1].Arrival? && h[n - 1].id == id then Some(n - 1)
    else LastArrival(h, id, n - 1)
  }

  lemma {:induction false} LastIsLatest(h: seq<Event>, id: byte, n: nat, k: nat)
    requires k < n <= |h| && h[k].Arrival? && h[k].id == id
    ensures var r := LastArrival(h, id, n); r.Some? && k <= r.value
  {
    if k < n - 1 {
      LastIsLatest(h, id, n - 1, k);
    }
  }

  lemma NoneLater(h: seq<Event>, id: byte, n: nat)
    requires n <= |h|
    ensures forall k: nat | k < n && h[k].Arrival? && h[k].id == id :: LastArrival(h, id, n).Some? && k <= LastArrival(h, id, n).value
  {
    forall k: nat | k < n && h[k].Arrival? && h[k].id == id
      ensures LastArrival(h, id, n).Some? && k <= LastArrival(h, id, n).value
    {
      LastIsLatest(h, id, n, k);
    }
  }

  /** The SYNC_TIMEOUT at position `t` expires the packet that arrived at `p`. */
  predicate ExpiresAt(h: seq<Event>, p: nat, t: nat) {
    p < t < |h| && h[p].Arrival? && h[t].Sync? && Expired(h[p].stamp, h[t].now, h[t].limit)
  }

  predicate ExpiresBefore(h: seq<Event>, p: nat, n: nat) {
    exists t | p < t < n :: ExpiresAt(h, p, t)
  }

  /** The arrival at `k` is stored as a request: no earlier arrival of its identifier is waiting for it. */
  predicate Opens(h: seq<Event>, k: nat)
    decreases k
  {
    && k < |h| && h[k].Arrival?
    && match LastArrival(h, h[k].id, k)
       case None => true
       case Some(p) => !Opens(h, p) || ExpiresBefore(h, p, k)
  }

  /** Identifier `id` has a packet waiting at position `n`: its last arrival was stored and not expired since. */
  predicate Waits(h: seq<Event>, id: byte, n: nat)
    requires n <= |h|
  {
    var last := LastArrival(h, id, n);
    last.Some? && Opens(h, last.value) && !ExpiresBefore(h, last.value, n)
  }

  ghost function Waiting(h: seq<Event>, n: nat): map<byte, nat>
    requires n <= |h|
  {
    map id: byte | Waits(h, id, n) :: LastArrival(h, id, n).value
  }

  /** The arrival at `q` answers the one at `p`. */
  predicate Answers(h: seq<Event>, q: nat, p: nat) {
    && q < |h| && h[q].Arrival? && !Opens(h, q)
    && LastArrival(h, h[q].id, q) == Some(p)
  }

  /** The answered pairs of the first `n` messages, in arrival order of the replies. */
  function Answered(h: seq<Event>, n: nat): seq<Note>
    requires n <= |h|
  {
    if n == 0 then []
    else Answered(h, n - 1) +
         if h[n - 1].Arrival? && !Opens(h, n - 1) then [Note(n - 1, LastArrival(h, h[n - 1].id, n - 1).value)] else []
  }

  /** A SYNC_TIMEOUT before `n` expired the packet at `p` before the next arrival of its identifier. */
  ghost predicate TimesOut(h: seq<Event>, p: nat, n: nat)
    requires n <= |h|
  {
    && p < n && Opens(h, p)
    && exists t: nat :: t < n && ExpiresAt(h, p, t) && LastArrival(h, h[p].id, t) == Some(p)
  }

  /** An arrival that is the last of its identifier at `n` was so at every position since. */
  lemma LastStays(h: seq<Event>, p: nat, t: nat, n: nat)
    requires p < t <= n <= |h| && h[p].Arrival? && LastArrival(h, h[p].id, n) == Some(p)
    ensures LastArrival(h, h[p].id, t) == Some(p)
  {
    var r := LastArrival(h, h[p].id, t);
    assert r.Some? && p <= r.value;
    assert r.value <= p;
  }

  lemma ExpiresStep(h: seq<Event>, p: nat, n: nat)
    requires p < n < |h|
    ensures ExpiresBefore(h, p, n + 1) <==> ExpiresBefore(h, p, n) || ExpiresAt(h, p, n)
  {
  }

  /** What waits after one more message. */
  lemma WaitsStep(h: seq<Event>, id: byte, n: nat)
    requires n < |h|
    ensures h[n].Arrival? && h[n].id == id ==>
              (Opens(h, n) <==> !Waits(h, id, n)) && (Waits(h, id, n + 1) <==> Opens(h, n)) && LastArrival(h, id, n + 1) == Some(n)
    ensures h[n].Arrival? && h[n].id != id ==>
              (Waits(h, id, n + 1) <==> Waits(h, id, n)) && LastArrival(h, id, n + 1) == LastArrival(h, id, n)
    ensures h[n].Sync? ==>
              && LastArrival(h, id, n + 1) == LastArrival(h, id, n)
              && (Waits(h, id, n + 1) <==> Waits(h, id, n) && !ExpiresAt(h, LastArrival(h, id, n).value, n))
  {
    var last := LastArrival(h, id, n);
    if last.Some? {
      ExpiresStep(h, last.value, n);
    }
  }

  lemma WaitingStep(l: Ledger, h: seq<Event>, n: nat)
    requires n < |h| && Linked(l, h, n) && l.pending == Waiting(h, n)
    ensures Advance(l, h, n).pending == Waiting(h, n + 1)
  {
    var r := Advance(l, h, n).pending;
    var w := Waiting(h, n + 1);
    forall id: byte ensures (id in r <==> id in w) && (id in r ==> r[id] == w[id]) {
      WaitsStep(h, id, n);
    }
  }

  lemma AnsweredStep(l: Ledger, h: seq<Event>, n: nat)
    requires n < |h| && Linked(l, h, n) && l.pending == Waiting(h, n) && l.notes == Answered(h, n)
    ensures Advance(l, h, n).notes == Answered(h, n + 1)
  {
    if h[n].Arrival? {
      WaitsStep(h, h[n].id, n);
    }
  }

  /** The stored packets that a SYNC_TIMEOUT expired before the next arrival of their identifier. */
  ghost function TimedOutSet(h: seq<Event>, n: nat): set<nat>
    requires n <= |h|
  {
    set p: nat | p < n && TimesOut(h, p, n)
  }

  lemma TimesOutStep(h: seq<Event>, n: nat, p: nat)
    requires n < |h|
    ensures TimesOut(h, p, n + 1) <==>
            TimesOut(h, p, n) || (ExpiresAt(h, p, n) && Waits(h, h[p].id, n) && LastArrival(h, h[p].id, n) == Some(p))
  {
    if TimesOut(h, p, n + 1) && !TimesOut(h, p, n) {
      assert p < n && ExpiresAt(h, p, n) && LastArrival(h, h[p].id, n) == Some(p);
      forall t: nat | p < t < n ensures !ExpiresAt(h, p, t) {
        LastStays(h, p, t, n);
      }
    }
  }

  /** The packets that the SYNC_TIMEOUT at position `n` expires. */
  ghost function ExpiredAt(h: seq<Event>, n: nat): set<byte>
    requires n < |h|
  {
    set id: byte | Waits(h, id, n) && ExpiresAt(h, LastArrival(h, id, n).value, n)
  }

  lemma {:induction false} TimedOutGrows(h: seq<Event>, n: nat, from: set<nat>, ids: set<byte>)
    requires n < |h| && ids <= ExpiredAt(h, n)
    requires forall p: nat :: p in from <==>
               TimesOut(h, p, n) || (ExpiresAt(h, p, n) && LastArrival(h, h[p].id, n) == Some(p) && h[p].id in ids)
    ensures |from| == |TimedOutSet(h, n)| + |ids|
    decreases |ids|
  {
    if ids == {} {
      assert from == TimedOutSet(h, n);
    } else {
      var id :| id in ids;
      var p := LastArrival(h, id, n).value;
      assert p in from && !TimesOut(h, p, n);
      TimedOutGrows(h, n, from - {p}, ids - {id});
    }
  }

  lemma TimedOutCount(h: seq<Event>, n: nat)
    requires n < |h|
    ensures |TimedOutSet(h, n + 1)| == |TimedOutSet(h, n)| + |ExpiredAt(h, n)|
  {
    forall p: nat
      ensures p in TimedOutSet(h, n + 1) <==>
              TimesOut(h, p, n) || (ExpiresAt(h, p, n) && LastArrival(h, h[p].id, n) == Some(p) && h[p].id in ExpiredAt(h, n))
    {
      TimesOutStep(h, n, p);
    }
    TimedOutGrows(h, n, TimedOutSet(h, n + 1), ExpiredAt(h, n));
  }

  lemma TimeoutsStep(l: Ledger, h: seq<Event>, n: nat)
    requires n < |h| && Linked(l, h, n) && l.pending == Waiting(h, n) && l.timeouts == |TimedOutSet(h, n)|
    ensures Advance(l, h, n).timeouts == |TimedOutSet(h, n + 1)|
  {
    TimedOutCount(h, n);
    if h[n].Sync? {
      assert Lost(l, h, n, h[n].now, h[n].limit) == ExpiredAt(h, n);
    } else {
      assert ExpiredAt(h, n) == {};
    }
  }

  // ---- What every ledger satisfies

  /** Every history: the pending entries and notifications of the ledger are the waiting packets and the
      answered pairs found by looking back, and its total is the number of packets found timed out. */
  lemma {:induction false} AfterLooksBack(h: seq<Event>, n: nat)
    requires n <= |h|
    ensures After(h, n).pending == Waiting(h, n)
    ensures After(h, n).notes == Answered(h, n)
    ensures After(h, n).timeouts == |TimedOutSet(h, n)|
  {
    if n == 0 {
      assert TimedOutSet(h, 0) == {};
    } else {
      AfterLooksBack(h, n - 1);
      WaitingStep(After(h, n - 1), h, n - 1);
      AnsweredStep(After(h, n - 1), h, n - 1);
      TimeoutsStep(After(h, n - 1), h, n - 1);
    }
  }

  lemma BalancedStep(l: Ledger, h: seq<Event>, n: nat)
    requires n < |h| && Linked(l, h, n) && Arrivals(h, n) == 2 * |l.notes| + l.timeouts + |l.pending|
    ensures var r := Advance(l, h, n); Arrivals(h, n + 1) == 2 * |r.notes| + r.timeouts + |r.pending|
  {
    if h[n].Sync? {
      RemoveSize(l.pending, Lost(l, h, n, h[n].now, h[n].limit));
    } else if h[n].id in l.pending {
      RemoveSize(l.pending, {h[n].id});
    } else {
      AddSize(l.pending, h[n].id, n);
    }
  }

  /** Ledger invariant: every packet handled is in two halves of a notification, timed out or pending. */
  lemma {:induction false} Balance(h: seq<Event>, n: nat)
    requires n <= |h|
    ensures var l := After(h, n); Arrivals(h, n) == 2 * |l.notes| + l.timeouts + |l.pending|
  {
    if n > 0 {
      Balance(h, n - 1);
      BalancedStep(After(h, n - 1), h, n - 1);
    }
  }

  lemma ReportedStep(l: Ledger, h: seq<Event>, n: nat)
    requires n < |h| && Linked(l, h, n) && Sum(l.reports) == l.timeouts
    ensures Sum(Advance(l, h, n).reports) == Advance(l, h, n).timeouts
  {
    if h[n].Sync? {
      SumSnoc(l.reports, |Lost(l, h, n, h[n].now, h[n].limit)|);
    }
  }

  /** The interval values reported at the SYNCs add up to the total number of timeouts. */
  lemma {:induction false} ReportsAddUp(h: seq<Event>, n: nat)
    requires n <= |h|
    ensures Sum(After(h, n).reports) == After(h, n).timeouts
  {
    if n > 0 {
      ReportsAddUp(h, n - 1);
      ReportedStep(After(h, n - 1), h, n - 1);
    }
  }

  // ---- Fates

  /** The next arrival of the identifier, when there is one. */
  lemma {:induction false} NextArrival(h: seq<Event>, p: nat, n: nat) returns (q: nat)
    requires p < n <= |h| && h[p].Arrival? && LastArrival(h, h[p].id, n) != Some(p)
    ensures p < q < n && h[q].Arrival? && h[q].id == h[p].id && LastArrival(h, h[p].id, q) == Some(p)
    decreases n
  {
    LastIsLatest(h, h[p].id, n, p);
    var last := LastArrival(h, h[p].id, n).value;
    if LastArrival(h, h[p].id, last) == Some(p) {
      q := last;
    } else {
      q := NextArrival(h, p, last);
    }
  }

  lemma {:induction false} NextUnique(h: seq<Event>, p: nat, q: nat, q': nat)
    requires q < |h| && h[q].Arrival? && LastArrival(h, h[q].id, q) == Some(p)
    requires q' < |h| && h[q'].Arrival? && LastArrival(h, h[q'].id, q') == Some(p)
    ensures q == q'
  {
    if q < q' {
      LastIsLatest(h, h[p].id, q', q);
    }
    if q' < q {
      LastIsLatest(h, h[q].id, q, q');
    }
  }

  ghost predicate IsReply(l: Ledger, k: nat) {
    exists p: nat :: Note(k, p) in l.notes
  }

  ghost predicate IsRequest(l: Ledger, k: nat) {
    exists q: nat :: Note(q, k) in l.notes
  }

  ghost predicate IsPending(l: Ledger, k: nat) {
    exists i :: i in l.pending && l.pending[i] == k
  }

  /** The answered pairs are listed once each. */
  lemma {:induction false} AnsweredMeaning(h: seq<Event>, n: nat)
    requires n <= |h|
    ensures forall q: nat, p: nat :: Note(q, p) in Answered(h, n) <==> q < n && Answers(h, q, p)
    ensures Ascending(Answered(h, n), n)
  {
    if n > 0 {
      AnsweredMeaning(h, n - 1);
    }
  }

  ghost predicate Ascending(notes: seq<Note>, n: nat) {
    && (forall k: nat | k < |notes| :: notes[k].reply < n)
    && (forall j: nat, k: nat | j < k < |notes| :: notes[j].reply < notes[k].reply)
  }

  /** A stored packet is answered, timed out or waiting, and only one of these. */
  lemma OpenedFate(h: seq<Event>, n: nat, k: nat)
    requires k < n <= |h| && Opens(h, k)
    ensures var waits := Waits(h, h[k].id, n) && LastArrival(h, h[k].id, n) == Some(k);
            Bit(exists q: nat :: q < n && Answers(h, q, k)) + Bit(TimesOut(h, k, n)) + Bit(waits) == 1
  {
    if LastArrival(h, h[k].id, n) == Some(k) {
      NoneLater(h, h[k].id, n);
      assert forall q: nat :: q < n ==> !Answers(h, q, k);
      forall t: nat | k < t < n && ExpiresAt(h, k, t) ensures LastArrival(h, h[k].id, t) == Some(k) {
        LastStays(h, k, t, n);
      }
    } else {
      var q := NextArrival(h, k, n);
      forall q': nat | q' < n && Answers(h, q', k) ensures q' == q {
        NextUnique(h, k, q, q');
      }
      assert Answers(h, q, k) <==> !ExpiresBefore(h, k, q);
      if ExpiresBefore(h, k, q) {
        var t :| k < t < q && ExpiresAt(h, k, t);
        LastStays(h, k, t, q);
      } else {
        forall t: nat | t < n && ExpiresAt(h, k, t) && LastArrival(h, h[k].id, t) == Some(k) ensures t <= q {
          if q < t {
            LastIsLatest(h, h[k].id, t, q);
          }
        }
      }
    }
  }

  /** Pairing discipline: every packet handled has exactly one fate. */
  lemma ExactlyOneFate(h: seq<Event>, n: nat, k: nat)
    requires k < n <= |h| && h[k].Arrival?
    ensures var l := After(h, n);
            Bit(IsReply(l, k)) + Bit(IsRequest(l, k)) + Bit(TimesOut(h, k, n)) + Bit(IsPending(l, k)) == 1
  {
    AfterLooksBack(h, n);
    AnsweredMeaning(h, n);
    FateFromBehind(After(h, n), h, n, k);
  }

  lemma FateFromBehind(l: Ledger, h: seq<Event>, n: nat, k: nat)
    requires k < n <= |h| && h[k].Arrival?
    requires l.pending == Waiting(h, n)
    requires forall q: nat, p: nat :: Note(q, p) in l.notes <==> q < n && Answers(h, q, p)
    ensures Bit(IsReply(l, k)) + Bit(IsRequest(l, k)) + Bit(TimesOut(h, k, n)) + Bit(IsPending(l, k)) == 1
  {
    assert IsPending(l, k) <==> Waits(h, h[k].id, n) && LastArrival(h, h[k].id, n) == Some(k) by {
      assert forall i | i in l.pending && l.pending[i] == k :: LastArrival(h, i, n) == Some(k) && i == h[k].id;
      assert Waits(h, h[k].id, n) <==> h[k].id in l.pending;
    }
    assert IsRequest(l, k) <==> exists q: nat :: q < n && Answers(h, q, k);
    if Opens(h, k) {
      assert !IsReply(l, k);
      OpenedFate(h, n, k);
    } else {
      assert Answers(h, k, LastArrival(h, h[k].id, k).value);
      assert Note(k, LastArrival(h, h[k].id, k).value) in l.notes;
      assert forall q: nat :: q < n ==> !Answers(h, q, k);
    }
  }

  /** What a notification joins: two consecutive arrivals of one identifier, the stored one earlier
      and not expired in between. */
  ghost predicate Joins(h: seq<Event>, note: Note, n: nat) {
    var q, p := note.reply, note.request;
    && p < q < n <= |h| && h[p].Arrival? && h[q].Arrival? && h[p].id == h[q].id
    && (forall m | p < m < q && h[m].Arrival? :: h[m].id != h[p].id)
    && !ExpiresBefore(h, p, q)
  }

  ghost predicate Apart(a: Note, b: Note) {
    {a.reply, a.request} !! {b.reply, b.request}
  }

  lemma AnswersJoins(h: seq<Event>, q: nat, p: nat, n: nat)
    requires q < n <= |h| && Answers(h, q, p)
    ensures Joins(h, Note(q, p), n)
  {
    NoneLater(h, h[q].id, q);
  }

  lemma AnswersApart(h: seq<Event>, q: nat, p: nat, q': nat, p': nat)
    requires Answers(h, q, p) && Answers(h, q', p') && q != q'
    ensures Apart(Note(q, p), Note(q', p'))
  {
    assert !Opens(h, q) && Opens(h, p) && !Opens(h, q') && Opens(h, p');
    if p == p' {
      NextUnique(h, p, q, q');
    }
  }

  /** Pairing discipline: a notification joins two consecutive arrivals of one identifier, the stored
      one earlier and not expired in between, and no packet is in two notifications. */
  lemma NotesDisjoint(h: seq<Event>, n: nat)
    requires n <= |h|
    ensures var notes := After(h, n).notes;
            && (forall note | note in notes :: Joins(h, note, n))
            && (forall j: nat, k: nat | j < k < |notes| :: Apart(notes[j], notes[k]))
  {
    AfterLooksBack(h, n);
    AnsweredMeaning(h, n);
    AnsweredDisjoint(h, n, After(h, n).notes);
  }

  lemma AnsweredDisjoint(h: seq<Event>, n: nat, notes: seq<Note>)
    requires n <= |h|
    requires forall q: nat, p: nat :: Note(q, p) in notes <==> q < n && Answers(h, q, p)
    requires Ascending(notes, n)
    ensures forall note | note in notes :: Joins(h, note, n)
    ensures forall j: nat, k: nat | j < k < |notes| :: Apart(notes[j], notes[k])
  {
    forall note | note in notes ensures Joins(h, note, n) {
      assert note == Note(note.reply, note.request);
      AnswersJoins(h, note.reply, note.request, n);
    }
    forall j: nat, k: nat | j < k < |notes| ensures Apart(notes[j], notes[k]) {
      assert Note(notes[j].reply, notes[j].request) in notes && Note(notes[k].reply, notes[k].request) in notes;
      AnswersApart(h, notes[j].reply, notes[j].request, notes[k].reply, notes[k].request);
    }
  }

  /** There is one notification of the pair, and no other one with either packet. */
  ghost predicate NotedOnce(notes: seq<Note>, q: nat, p: nat) {
    exists k: nat :: k < |notes| && notes[k] == Note(q, p)
      && forall j: nat | j < |notes| && j != k :: Apart(notes[j], Note(q, p))
  }

  /** A request that finds its identifier free and a reply that follows it without another packet of
      the identifier and without a timeout in between are notified, and nothing else is with either. */
  lemma PairNoted(h: seq<Event>, n: nat, p: nat, q: nat)
    requires p < q < n <= |h| && h[p].Arrival? && h[q].Arrival? && h[p].id == h[q].id
    requires h[p].id !in After(h, p).pending
    requires forall m | p < m < q && h[m].Arrival? :: h[m].id != h[p].id
    requires !ExpiresBefore(h, p, q)
    ensures NotedOnce(After(h, n).notes, q, p)
  {
    AfterLooksBack(h, p);
    WaitsStep(h, h[p].id, p);
    LastIsLatest(h, h[q].id, q, p);
    assert Answers(h, q, p);
    AfterLooksBack(h, n);
    AnsweredMeaning(h, n);
    AnsweredOnce(After(h, n).notes, h, n, q, p);
  }

  lemma AnsweredOnce(notes: seq<Note>, h: seq<Event>, n: nat, q: nat, p: nat)
    requires q < n <= |h| && Answers(h, q, p)
    requires forall q: nat, p: nat :: Note(q, p) in notes <==> q < n && Answers(h, q, p)
    requires Ascending(notes, n)
    ensures NotedOnce(notes, q, p)
  {
    assert Note(q, p) in notes;
    var k: nat :| k < |notes| && notes[k] == Note(q, p);
    forall j: nat | j < |notes| && j != k ensures Apart(notes[j], Note(q, p)) {
      assert Note(notes[j].reply, notes[j].request) in notes;
      AnswersApart(h, notes[j].reply, notes[j].request, q, p);
    }
  }

  function Count(h: seq<Event>, n: nat, id: byte): nat
    requires n <= |h|
  {
    if n == 0 then 0 else Count(h, n - 1, id) + Bit(h[n - 1].Arrival? && h[n - 1].id == id)
  }

  ghost predicate Odd(l: Ledger, h: seq<Event>, n: nat, id: byte) {
    n <= |h| && (l.timeouts == 0 ==> (id in l.pending <==> Count(h, n, id) % 2 == 1))
  }

  lemma OddStep(l: Ledger, h: seq<Event>, n: nat, id: byte)
    requires n < |h| && Linked(l, h, n) && Odd(l, h, n, id)
    ensures Odd(Advance(l, h, n), h, n + 1, id)
  {
    var r := Advance(l, h, n);
    if h[n].Sync? && r.timeouts == 0 {
      assert Lost(l, h, n, h[n].now, h[n].limit) == {};
    }
  }

  /** As long as nothing has timed out, an identifier is pending exactly when it has arrived an odd
      number of times. */
  lemma {:induction false} PendingParity(h: seq<Event>, n: nat, id: byte)
    requires n <= |h|
    ensures Odd(After(h, n), h, n, id)
  {
    if n > 0 {
      PendingParity(h, n - 1, id);
      OddStep(After(h, n - 1), h, n - 1, id);
    }
  }

  // ---- One identifier at a time

  /** What becomes of one identifier: its waiting packet, its answered pairs and the number of its lost packets. */
  datatype Track = Track(waiting: Option<Event>, pairs: seq<(Event, Event)>, lost: nat)

  predicate Concerns(e: Event, id: byte) {
    e.Sync? || e.id == id
  }

  function Move(t: Track, e: Event, id: byte): Track {
    if !Concerns(e, id) then t
    else match e
      case Arrival(_, _, _) =>
        if t.waiting.Some? then t.(waiting := None, pairs := t.pairs + [(e, t.waiting.value)])
        else t.(waiting := Some(e))
      case Sync(now, limit) =>
        if t.waiting.Some? && t.waiting.value.Arrival? && Expired(t.waiting.value.stamp, now, limit)
        then t.(waiting := None, lost := t.lost + 1)
        else t
  }

  function TrackOf(h: seq<Event>, n: nat, id: byte): Track
    requires n <= |h|
  {
    if n == 0 then Track(None, [], 0) else Move(TrackOf(h, n - 1, id), h[n - 1], id)
  }

  /** The messages that concern one identifier: its packets and the SYNC messages. */
  function Only(h: seq<Event>, n: nat, id: byte): seq<Event>
    requires n <= |h|
  {
    if n == 0 then [] else Only(h, n - 1, id) + if Concerns(h[n - 1], id) then [h[n - 1]] else []
  }

  lemma {:induction false} TrackPrefix(h: seq<Event>, more: seq<Event>, n: nat, id: byte)
    requires n <= |h|
    ensures TrackOf(h + more, n, id) == TrackOf(h, n, id)
  {
    if n > 0 {
      TrackPrefix(h, more, n - 1, id);
      assert (h + more)[n - 1] == h[n - 1];
    }
  }

  /** What happens to an identifier depends only on its own packets and the SYNC messages. */
  lemma {:induction false} TrackOnly(h: seq<Event>, n: nat, id: byte)
    requires n <= |h|
    ensures TrackOf(Only(h, n, id), |Only(h, n, id)|, id) == TrackOf(h, n, id)
  {
    if n > 0 {
      var g := Only(h, n - 1, id);
      TrackOnly(h, n - 1, id);
      if Concerns(h[n - 1], id) {
        TrackPrefix(g, [h[n - 1]], |g|, id);
        assert (g + [h[n - 1]])[|g|] == h[n - 1];
      } else {
        assert g + [] == g;
      }
    }
  }

  /** The answered pairs of one identifier in a ledger. */
  function PairsOf(h: seq<Event>, notes: seq<Note>, id: byte): seq<(Event, Event)> {
    if notes == [] then []
    else
      var k := notes[|notes| - 1];
      PairsOf(h, notes[..|notes| - 1], id) +
      if k.reply < |h| && k.request < |h| && h[k.reply].Arrival? && h[k.reply].id == id then [(h[k.reply], h[k.request])] else []
  }

  /** The timed out packets of one identifier. */
  ghost function LostOf(h: seq<Event>, n: nat, id: byte): set<nat>
    requires n <= |h|
  {
    set p: nat | p < n && TimesOut(h, p, n) && h[p].id == id
  }

  lemma LostOfStep(h: seq<Event>, n: nat, id: byte)
    requires n < |h|
    ensures |LostOf(h, n + 1, id)| == |LostOf(h, n, id)| + Bit(id in ExpiredAt(h, n))
  {
    var before, after := LostOf(h, n, id), LostOf(h, n + 1, id);
    forall p: nat ensures p in after <==>
        p in before || (ExpiresAt(h, p, n) && Waits(h, h[p].id, n) && LastArrival(h, h[p].id, n) == Some(p) && h[p].id == id)
    {
      TimesOutStep(h, n, p);
    }
    if id in ExpiredAt(h, n) {
      var p := LastArrival(h, id, n).value;
      assert p !in before && after == before + {p};
    } else {
      assert after == before;
    }
  }

  /** What a ledger, and the timeouts behind its total, show of one identifier. */
  ghost function View(l: Ledger, h: seq<Event>, n: nat, id: byte): Track
    requires Linked(l, h, n)
  {
    Track(if id in l.pending then Some(h[l.pending[id]]) else None, PairsOf(h, l.notes, id), |LostOf(h, n, id)|)
  }

  lemma ViewArrival(l: Ledger, h: seq<Event>, n: nat, id: byte)
    requires n < |h| && Linked(l, h, n) && h[n].Arrival?
    ensures View(Advance(l, h, n), h, n + 1, id) == Move(View(l, h, n, id), h[n], id)
  {
    var r := Advance(l, h, n);
    LostOfStep(h, n, id);
    if h[n].id in l.pending {
      assert r.notes[..|l.notes|] == l.notes;
      if h[n].id != id {
        assert PairsOf(h, l.notes, id) + [] == PairsOf(h, l.notes, id);
      }
    }
  }

  lemma ViewSync(l: Ledger, h: seq<Event>, n: nat, id: byte)
    requires n < |h| && Linked(l, h, n) && h[n].Sync? && l.pending == Waiting(h, n)
    ensures View(Advance(l, h, n), h, n + 1, id) == Move(View(l, h, n, id), h[n], id)
  {
    LostOfStep(h, n, id);
    assert id in Lost(l, h, n, h[n].now, h[n].limit) <==> id in ExpiredAt(h, n);
  }

  /** Worker refinement: the ledger shows, for every identifier, what the identifier's own track shows. */
  lemma {:induction false} LedgerTracks(h: seq<Event>, n: nat, id: byte)
    requires n <= |h|
    ensures View(After(h, n), h, n, id) == TrackOf(h, n, id)
  {
    if n == 0 {
      assert LostOf(h, 0, id) == {};
    } else {
      var l := After(h, n - 1);
      LedgerTracks(h, n - 1, id);
      if h[n - 1].Arrival? {
        ViewArrival(l, h, n - 1, id);
      } else {
        AfterLooksBack(h, n - 1);
        ViewSync(l, h, n - 1, id);
      }
    }
  }

  /** How many packets the tracks of the identifiers below `k` have lost. */
  function LostTotal(h: seq<Event>, n: nat, k: nat): nat
    requires n <= |h| && k <= 256
  {
    if k == 0 then 0 else LostTotal(h, n, k - 1) + TrackOf(h, n, k - 1).lost
  }

  /** What the tracks of all identifiers have lost at each SYNC_TIMEOUT. */
  function LostAtSyncs(h: seq<Event>, n: nat): seq<int>
    requires n <= |h|
  {
    if n == 0 then []
    else LostAtSyncs(h, n - 1) + if h[n - 1].Sync? then [LostTotal(h, n, 256) - LostTotal(h, n - 1, 256)] else []
  }

  /** The identifiers that the message at position `n` takes from the ledger by expiry. */
  ghost function LostBy(h: seq<Event>, n: nat): set<byte>
    requires n < |h|
  {
    if h[n].Sync? then Lost(After(h, n), h, n, h[n].now, h[n].limit) else {}
  }

  lemma TrackLoses(h: seq<Event>, n: nat, id: byte)
    requires n < |h|
    ensures TrackOf(h, n + 1, id).lost == TrackOf(h, n, id).lost + Bit(id in LostBy(h, n))
  {
    LedgerTracks(h, n, id);
    var waiting := View(After(h, n), h, n, id).waiting;
    assert waiting.Some? <==> id in After(h, n).pending;
  }

  lemma {:induction false} TracksLose(h: seq<Event>, n: nat, k: nat, ids: set<byte>)
    requires n < |h| && k <= 256 && forall id: byte :: id in ids <==> id < k && id in LostBy(h, n)
    ensures LostTotal(h, n + 1, k) == LostTotal(h, n, k) + |ids|
  {
    if k == 0 {
      assert ids == {};
    } else {
      TrackLoses(h, n, k - 1);
      TracksLose(h, n, k - 1, ids - {k - 1});
    }
  }

  lemma CountersStep(h: seq<Event>, n: nat)
    requires n < |h|
    ensures After(h, n + 1).timeouts == After(h, n).timeouts + |LostBy(h, n)|
    ensures After(h, n + 1).reports == After(h, n).reports + if h[n].Sync? then [|LostBy(h, n)|] else []
  {
    AppendEmpty(After(h, n).reports);
  }

  /** The counters of the ledger belong to its identifiers: the total is the sum of what the tracks of all 256
      identifiers have lost, and each reported value is what they have lost at that SYNC_TIMEOUT. */
  lemma {:induction false} CountersAreTracks(h: seq<Event>, n: nat)
    requires n <= |h|
    ensures After(h, n).timeouts == LostTotal(h, n, 256)
    ensures After(h, n).reports == LostAtSyncs(h, n)
  {
    if n == 0 {
      NothingLost(h, 256);
    } else {
      CountersAreTracks(h, n - 1);
      TracksLose(h, n - 1, 256, LostBy(h, n - 1));
      CountersStep(h, n - 1);
    }
  }

  lemma {:induction false} NothingLost(h: seq<Event>, k: nat)
    requires k <= 256
    ensures LostTotal(h, 0, k) == 0
  {
    if k > 0 {
      NothingLost(h, k - 1);
    }
  }

  /** Two histories with the same messages for an identifier leave it the same waiting packet and the
      same answered pairs, and lose as many of its packets. */
  lemma Independence(h: seq<Event>, g: seq<Event>, id: byte)
    requires Only(h, |h|, id) == Only(g, |g|, id)
    ensures View(After(h, |h|), h, |h|, id) == View(After(g, |g|), g, |g|, id)
  {
    TrackOnly(h, |h|, id);
    TrackOnly(g, |g|, id);
    LedgerTracks(h, |h|, id);
    LedgerTracks(g, |g|, id);
  }
}
