/**
 The inspector as interleaved steps of the receive loop, the workers and the synchroniser thread.

 A step makes at most one access to a locked queue, and `LockedQueue` shows that the accesses themselves
 are atomic.  Every sequence of step attempts is a run; an attempt that is not
 possible, like taking from an empty queue, changes nothing.  Nobody broadcasts SHUTDOWN.
 */
module Pipeline {
  import opened Bytes
  import opened Frames
  import opened Sessions
  import opened ObjectPools
  import Attributes
  import Dispatch

  datatype Setup = Setup(pool: nat, radius: nat, udp: nat, tcp: nat, timeout: uint64)

  /** Every processor has a worker. */
  type Config = c: Setup | c.radius > 0 && c.udp > 0 && c.tcp > 0 witness Setup(1, 1, 1, 1, 2000)

  /** What a reception leaves in a buffer, and what lies behind the buffer then. */
  datatype Capture = Capture(frame: Frame, stamp: uint64, beyond: Attributes.Memory)

  /** A packet made of a buffer, with the attributes parsed from it; `number` says which reception filled the buffer. */
  datatype Held = Held(buffer: nat, number: nat, avps: Attributes.AvpStorage)

  datatype Item = Data(held: Held) | SyncTimeout

  datatype Nic = Idle | Receiving(buffer: nat) | Routing(buffer: nat, number: nat)

  datatype Hand =
    | Ready                                      // takes from its queue next
    | Holding(item: Item)                        // has taken `item`
    | Sweeping(now: uint64, todo: set<byte>)     // has yet to visit `todo`
    | Matched(id: byte, held: Held)              // has given a notification and erases the stored packet next
    | Spent(held: Held)                          // is done with a packet and releases its buffer next

  datatype Worker = Worker(queue: seq<Item>, hand: Hand, sessions: map<byte, Held>, log: seq<Event>)

  /** Names a notification by its worker and the numbers of its packets. */
  datatype Sent = Sent(worker: nat, reply: nat, request: nat)

  /** What the notifier is given, under its name. */
  datatype Notification = Notification(name: Sent, respAvp: Attributes.AvpStorage, reqAvp: Attributes.AvpStorage)

  /** `memory` are the contents of the buffers and `turn` the queue that the synchroniser serves next.
      `arrivals` and the workers' logs record what was received and handled. */
  datatype State = State(free: seq<nat>, nic: Nic, memory: seq<Capture>, workers: seq<Worker>, turn: nat,
                         notified: seq<Notification>, arrivals: seq<Capture>)

  datatype Step =
    | NicTake | NicReceive(capture: Capture) | NicRoute | TimerPut
    | Take(w: nat) | Handle(w: nat, now: uint64) | Erase(w: nat) | Visit(w: nat, id: byte) | EndSweep(w: nat) | Release(w: nat)

  function Workers(c: Config): nat {
    c.radius + c.udp + c.tcp
  }

  const NEW_WORKER := Worker([], Ready, map[], [])

  function Init(c: Config, memory: seq<Capture>): State
    requires |memory| == c.pool
  {
    State(Numbers(c.pool), Idle, memory, seq(Workers(c), _ => NEW_WORKER), 0, [], [])
  }

  // ---- Routing

  datatype Kind = Radius | Udp | Tcp

  function KindOf(f: Frame): Option<Kind> {
    if IsRadius(f) then Some(Radius) else if IsUdp(f) then Some(Udp) else if IsTcp(f) then Some(Tcp) else None
  }

  /** The worker that gets a frame. */
  function Route(c: Config, f: Frame): (r: Option<nat>)
    ensures r.Some? ==> r.value < Workers(c)
    ensures IsRadius(f) <==> r.Some? && r.value < c.radius
  {
    match KindOf(f)
    case Some(Radius) => Some(EthHash(f) % c.radius)
    case Some(Udp) => Some(c.radius + EthHash(f) % c.udp)
    case Some(Tcp) => Some(c.radius + c.udp + EthHash(f) % c.tcp)
    case None => None
  }

  /** The routing is that of the dispatcher tree in `main`. */
  lemma RouteIsMainTree(radius: Dispatch.PacketProcessor, udp: Dispatch.PacketProcessor, tcp: Dispatch.PacketProcessor, f: Frame)
    ensures var found := Dispatch.Accepting(Dispatch.MainTree(radius, udp, tcp), f);
            match KindOf(f)
            case Some(Radius) => found != [] && found[0] == radius
            case Some(Udp) => found != [] && found[0] == udp
            case Some(Tcp) => found != [] && found[0] == tcp
            case None => found == []
  {
    Dispatch.MainTreeIsMainRouter(radius, udp, tcp, f);
    var leaves := Dispatch.MainRouter(radius, udp, tcp);
    Dispatch.TwoLeaves(leaves[1], leaves[2], f);
    assert leaves[1..] == [leaves[1], leaves[2]];
  }

  /** Within its processor, the worker is the one whose queue the processor's `onDispatch` serves: the frame's
      hash modulo the number of workers, the RADIUS workers coming first, then those for UDP and for TCP. */
  lemma RouteIsDelivery(c: Config, f: Frame, queues: seq<seq<Dispatch.Message>>)
    requires KindOf(f).Some?
    requires |queues| == match KindOf(f).value case Radius => c.radius case Udp => c.udp case Tcp => c.tcp
    ensures var first := match KindOf(f).value case Radius => 0 case Udp => c.radius case Tcp => c.radius + c.udp;
            && Route(c, f).Some? && first <= Route(c, f).value < first + |queues|
            && var w := Route(c, f).value - first;
               w == EthHash(f) % |queues| && Dispatch.Delivered(queues, f) == queues[w := queues[w] + [Dispatch.Packet(f)]]
  {
  }

  // ---- Steps

  function Content(memory: seq<Capture>, buffer: nat): Capture {
    if buffer < |memory| then memory[buffer] else Capture(Buffer(seq(MAX_PACKET_SIZE, _ => 0), 0), 0, _ => 0)
  }

  function EventOf(capture: Capture, number: nat): Event {
    Arrival(RadiusId(capture.frame), capture.stamp, number)
  }

  predicate Enabled(s: State, a: Step) {
    match a
    case NicTake => s.nic.Idle? && s.free != []
    case NicReceive(_) => s.nic.Receiving?
    case NicRoute => s.nic.Routing?
    case TimerPut => s.turn < |s.workers|
    case _ => a.w < |s.workers| && Able(s.workers[a.w], a)
  }

  predicate OfWorker(a: Step) {
    a.Take? || a.Handle? || a.Erase? || a.Visit? || a.EndSweep? || a.Release?
  }

  predicate Able(x: Worker, a: Step)
    requires OfWorker(a)
  {
    match a
    case Take(_) => x.hand.Ready? && x.queue != []
    case Handle(_, _) => x.hand.Holding?
    case Erase(_) => x.hand.Matched?
    case Visit(_, id) => x.hand.Sweeping? && id in x.hand.todo
    case EndSweep(_) => x.hand.Sweeping? && x.hand.todo == {}
    case Release(_) => x.hand.Spent?
  }

  /** What a step of a worker does: its new state, the buffers it releases and its notifications. */
  datatype Effect = Effect(worker: Worker, freed: seq<nat>, sent: seq<Notification>)

  function Turn(c: Config, x: Worker, memory: seq<Capture>, a: Step): Effect
    requires OfWorker(a) && Able(x, a)
  {
    match a
    case Take(_) => Effect(x.(queue := x.queue[1..], hand := Holding(x.queue[0])), [], [])
    case Handle(w, now) =>
      (match x.hand.item
       case Data(held) => HandleData(c, x, Content(memory, held.buffer), held, w)
       case SyncTimeout => Effect(HandleSync(c, x, now, w), [], []))
    case Erase(_) => EraseMatched(x)
    case Visit(_, id) => VisitEntry(c, x, memory, id)
    case EndSweep(_) => Effect(x.(hand := Ready), [], [])
    case Release(_) => Effect(x.(hand := Ready), [x.hand.held.buffer], [])
  }

  /** A RADIUS worker matches or stores a packet; the others only let go of it. */
  function HandleData(c: Config, x: Worker, capture: Capture, held: Held, w: nat): Effect {
    var e := EventOf(capture, held.number);
    var y := x.(log := x.log + [e]);
    if w >= c.radius then Effect(y.(hand := Spent(held)), [], [])
    else if e.id in x.sessions then
      Effect(y.(hand := Matched(e.id, held)), [], [Notification(Sent(w, held.number, x.sessions[e.id].number), held.avps, x.sessions[e.id].avps)])
    else Effect(y.(hand := Ready, sessions := x.sessions[e.id := held]), [], [])
  }

  /** The stored packet of a matched pair is erased, which releases its buffer. */
  function EraseMatched(x: Worker): Effect
    requires x.hand.Matched?
  {
    var y := x.(hand := Spent(x.hand.held), sessions := Without(x.sessions, {x.hand.id}));
    Effect(y, if x.hand.id in x.sessions then [x.sessions[x.hand.id].buffer] else [], [])
  }

  function HandleSync(c: Config, x: Worker, now: uint64, w: nat): Worker {
    x.(log := x.log + [Sync(now, c.timeout)], hand := if w < c.radius then Sweeping(now, x.sessions.Keys) else Ready)
  }

  /** The sweep erases the entry at its iterator, which releases the buffer, or goes on. */
  function VisitEntry(c: Config, x: Worker, memory: seq<Capture>, id: byte): Effect
    requires x.hand.Sweeping?
  {
    var y := x.(hand := Sweeping(x.hand.now, x.hand.todo - {id}));
    if id in x.sessions && Expired(Content(memory, x.sessions[id].buffer).stamp, x.hand.now, c.timeout)
    then Effect(y.(sessions := Without(x.sessions, {id})), [x.sessions[id].buffer], [])
    else Effect(y, [], [])
  }

  function Push(s: State, w: nat, item: Item): State
    requires w < |s.workers|
  {
    s.(workers := s.workers[w := s.workers[w].(queue := s.workers[w].queue + [item])])
  }

  /** The attributes of the packet that is made of a frame; only RADIUS packets have any. */
  function Parsed(capture: Capture): Attributes.AvpStorage {
    if IsRadius(capture.frame) then Attributes.ParsedAvps(capture.frame, capture.beyond) else map[]
  }

  /** The packet that is made of the buffer that is being routed. */
  function Made(s: State): Held
    requires s.nic.Routing?
  {
    Held(s.nic.buffer, s.nic.number, Parsed(Content(s.memory, s.nic.buffer)))
  }

  function RouteFrame(c: Config, s: State): State
    requires s.nic.Routing?
  {
    var target := Route(c, Content(s.memory, s.nic.buffer).frame);
    if target.Some? && target.value < |s.workers| then Push(s.(nic := Idle), target.value, Data(Made(s)))
    else s.(nic := Idle, free := s.free + [s.nic.buffer])
  }

  function Fill(s: State, buffer: nat, capture: Capture): State {
    s.(nic := Routing(buffer, |s.arrivals|),
       memory := if buffer < |s.memory| then s.memory[buffer := capture] else s.memory,
       arrivals := s.arrivals + [capture])
  }

  function Do(c: Config, s: State, a: Step): State
    requires Enabled(s, a)
  {
    match a
    case NicTake => s.(nic := Receiving(s.free[0]), free := s.free[1..])
    case NicReceive(capture) => Fill(s, s.nic.buffer, capture)
    case NicRoute => RouteFrame(c, s)
    case TimerPut => Push(s, s.turn, SyncTimeout).(turn := (s.turn + 1) % |s.workers|)
    case _ =>
      var e := Turn(c, s.workers[a.w], s.memory, a);
      s.(workers := s.workers[a.w := e.worker], free := s.free + e.freed, notified := s.notified + e.sent)
  }

  function Next(c: Config, s: State, a: Step): State {
    if Enabled(s, a) then Do(c, s, a) else s
  }

  function Exec(c: Config, s: State, steps: seq<Step>): State {
    if steps == [] then s else Next(c, Exec(c, s, steps[..|steps| - 1]), steps[|steps| - 1])
  }

  /** The state that a run from the start reaches. */
  function Run(c: Config, memory: seq<Capture>, steps: seq<Step>): State
    requires |memory| == c.pool
  {
    Exec(c, Init(c, memory), steps)
  }
}
