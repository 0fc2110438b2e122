/**
 Classification: the dispatcher tree of `IDispatcher`, the flat `PacketRouter`, and the processors at
 the leaves with one queue per worker.
 */
module Dispatch {
  import opened Bytes
  import opened Frames

  datatype Control = SyncTimeout | Shutdown

  datatype Message = Packet(frame: Frame) | Command(control: Control)

  class PacketProcessor {
    var queues: seq<seq<Message>>

    constructor (instances: nat)
      ensures queues == seq(instances, _ => [])
    {
      queues := seq(instances, _ => []);
    }

    /** Appends to the queue of the worker that the frame's hash selects. */
    method OnDispatch(frame: Frame)
      requires queues != []
      modifies this
      ensures queues == Delivered(old(queues), frame)
      ensures |queues| == |old(queues)|
      ensures forall w | 0 <= w < |queues| ::
                queues[w] == if w == EthHash(frame) % |queues| then old(queues)[w] + [Packet(frame)] else old(queues)[w]
    {
      var hash := ComputeEthHash(frame);
      var worker := hash % |queues|;
      queues := queues[worker := queues[worker] + [Packet(frame)]];
    }

    /** Appends to the queue of every worker. */
    method OnDispatchBroadcast(control: Control)
      modifies this
      ensures queues == Broadcast(old(queues), control)
      ensures Grown(old(queues), queues, [Command(control)])
    {
      var worker := 0;
      while worker < |queues|
        invariant worker <= |queues| == |old(queues)|
        invariant forall w | 0 <= w < |queues| ::
                    queues[w] == if w < worker then old(queues)[w] + [Command(control)] else old(queues)[w]
      {
        queues := queues[worker := queues[worker] + [Command(control)]];
        worker := worker + 1;
      }
    }
  }

  /** Queues after one frame: only the queue of the selected worker grows, by this frame. */
  function Delivered(queues: seq<seq<Message>>, frame: Frame): (r: seq<seq<Message>>)
    requires queues != []
    ensures |r| == |queues|
  {
    var worker := EthHash(frame) % |queues|;
    queues[worker := queues[worker] + [Packet(frame)]]
  }

  /** Every queue is what it was, followed by `more`. */
  ghost predicate Grown(before: seq<seq<Message>>, after: seq<seq<Message>>, more: seq<Message>) {
    |after| == |before| && forall w | 0 <= w < |before| :: after[w] == before[w] + more
  }

  lemma BroadcastGrows(queues: seq<seq<Message>>, control: Control)
    ensures Grown(queues, Broadcast(queues, control), [Command(control)])
  {
  }

  function Broadcast(queues: seq<seq<Message>>, control: Control): (r: seq<seq<Message>>)
    ensures |r| == |queues|
  {
    seq(|queues|, w requires 0 <= w < |queues| => queues[w] + [Command(control)])
  }

  /** A reply goes behind its request into the queue of the same worker, and into no other queue. */
  lemma ReplyFollowsRequest(queues: seq<seq<Message>>, f: Frame, g: Frame)
    requires queues != [] && Swapped(f, g)
    ensures var after := Delivered(Delivered(queues, f), g);
            var w := EthHash(f) % |queues|;
            w == EthHash(g) % |queues| && after == queues[w := queues[w] + [Packet(f), Packet(g)]]
  {
    SwappedHashesAgree(f, g);
    var w := EthHash(f) % |queues|;
    assert queues[w] + [Packet(f)] + [Packet(g)] == queues[w] + [Packet(f), Packet(g)];
    assert Delivered(Delivered(queues, f), g) == queues[w := queues[w] + [Packet(f), Packet(g)]];
  }

  // ---- The tree

  datatype Tree =
    | Leaf(accepts: Frame -> bool, processor: PacketProcessor)
    | Node(accepts: Frame -> bool, children: seq<Tree>)

  /** The processors from left to right. */
  function Processors(t: Tree): seq<PacketProcessor>
    decreases t, 1
  {
    match t
    case Leaf(_, p) => [p]
    case Node(_, ts) => AllProcessors(ts)
  }

  function AllProcessors(ts: seq<Tree>): seq<PacketProcessor>
    decreases ts, 0
  {
    if ts == [] then [] else Processors(ts[0]) + AllProcessors(ts[1..])
  }

  /** `canBeDispatchered`: the index of the first child that can dispatch the frame. */
  function Search(t: Tree, f: Frame): Option<nat>
    decreases t, 1
  {
    match t
    case Leaf(accepts, _) => if accepts(f) then Some(0) else None
    case Node(accepts, ts) => if accepts(f) then FirstTrue(Results(ts, f, false)) else None
  }

  /** The result array: a child is only asked while the flag is not set, and sets it. */
  function Results(ts: seq<Tree>, f: Frame, found: bool): (r: seq<bool>)
    ensures |r| == |ts|
    decreases ts, 0
  {
    if ts == [] then []
    else if found then [false] + Results(ts[1..], f, true)
    else
      var hit := Search(ts[0], f).Some?;
      [hit] + Results(ts[1..], f, hit)
  }

  function FirstTrue(r: seq<bool>): (i: Option<nat>)
    ensures i.Some? ==> i.value < |r| && r[i.value]
  {
    if r == [] then None
    else if r[0] then Some(0)
    else match FirstTrue(r[1..]) case None => None case Some(k) => Some(k + 1)
  }

  // ---- What the search is for

  /** The processors whose leaf and all of whose ancestors accept the frame, from left to right. */
  function Accepting(t: Tree, f: Frame): seq<PacketProcessor>
    decreases t, 1
  {
    match t
    case Leaf(accepts, p) => if accepts(f) then [p] else []
    case Node(accepts, ts) => if accepts(f) then AllAccepting(ts, f) else []
  }

  function AllAccepting(ts: seq<Tree>, f: Frame): seq<PacketProcessor>
    decreases ts, 0
  {
    if ts == [] then [] else Accepting(ts[0], f) + AllAccepting(ts[1..], f)
  }

  /** Search meaning: there is an index exactly when some leaf accepts together with all its ancestors,
      and the child at the index contains the leftmost such leaf. */
  lemma {:induction false} SearchMeaning(t: Tree, f: Frame)
    ensures Search(t, f).Some? <==> Accepting(t, f) != []
    ensures t.Node? && Search(t, f).Some? ==>
              var i := Search(t, f).value;
              && i < |t.children|
              && Accepting(t.children[i], f) != []
              && Accepting(t.children[i], f)[0] == Accepting(t, f)[0]
    decreases t, 1
  {
    if t.Node? && t.accepts(f) {
      ResultsMeaning(t.children, f);
    }
  }

  lemma {:induction false} ResultsMeaning(ts: seq<Tree>, f: Frame)
    ensures var i := FirstTrue(Results(ts, f, false));
            && (i.Some? <==> AllAccepting(ts, f) != [])
            && (i.Some? ==> Accepting(ts[i.value], f) != [] && Accepting(ts[i.value], f)[0] == AllAccepting(ts, f)[0])
    decreases ts, 0
  {
    if ts != [] {
      SearchMeaning(ts[0], f);
      var r := Results(ts, f, false);
      if Search(ts[0], f).Some? {
        assert FirstTrue(r) == Some(0);
      } else {
        ResultsMeaning(ts[1..], f);
        assert r[1..] == Results(ts[1..], f, false);
        assert AllAccepting(ts, f) == AllAccepting(ts[1..], f);
        var rest := FirstTrue(r[1..]);
        assert rest.Some? ==> FirstTrue(r) == Some(rest.value + 1) && ts[1..][rest.value] == ts[rest.value + 1];
      }
    }
  }

  /** Where `dispatch` takes a frame: a leaf takes it unasked, a node to its leftmost accepting leaf. */
  function Target(t: Tree, f: Frame): seq<PacketProcessor> {
    if t.Leaf? then [t.processor] else if Accepting(t, f) == [] then [] else [Accepting(t, f)[0]]
  }

  lemma {:induction false} AcceptingAreProcessors(t: Tree, f: Frame)
    ensures forall p | p in Accepting(t, f) :: p in Processors(t)
    decreases t, 1
  {
    if t.Node? {
      AllAcceptingAreProcessors(t.children, f);
    }
  }

  lemma {:induction false} AllAcceptingAreProcessors(ts: seq<Tree>, f: Frame)
    ensures forall p | p in AllAccepting(ts, f) :: p in AllProcessors(ts)
    decreases ts, 0
  {
    if ts != [] {
      AcceptingAreProcessors(ts[0], f);
      AllAcceptingAreProcessors(ts[1..], f);
    }
  }

  lemma {:induction false} ChildProcessors(ts: seq<Tree>, i: nat)
    requires i < |ts|
    ensures forall p | p in Processors(ts[i]) :: p in AllProcessors(ts)
  {
    if i > 0 {
      ChildProcessors(ts[1..], i - 1);
    }
  }

  lemma {:induction false} ProcessorsExist(t: Tree)
    ensures forall p | p in Processors(t) :: allocated(p)
    decreases t, 1
  {
    match t {
      case Leaf(_, p) =>
        assert Processors(t) == [p];
      case Node(_, ts) =>
        AllProcessorsExist(ts);
    }
  }

  lemma {:induction false} AllProcessorsExist(ts: seq<Tree>)
    ensures forall p | p in AllProcessors(ts) :: allocated(p)
    decreases ts, 0
  {
    if ts != [] {
      ProcessorsExist(ts[0]);
      AllProcessorsExist(ts[1..]);
    }
  }

  /** The processors of a list of trees are those of the first tree and those of the rest. */
  lemma ProcessorsSplit(ts: seq<Tree>)
    requires ts != []
    ensures forall p | p in AllProcessors(ts) :: allocated(p)
    ensures forall p :: p in AllProcessors(ts) <==> p in Processors(ts[0]) || p in AllProcessors(ts[1..])
  {
    AllProcessorsExist(ts);
  }

  // ---- Dispatching

  function Members(ps: seq<PacketProcessor>): set<PacketProcessor> {
    set p | p in ps
  }

  /** Every processor has a worker. */
  ghost predicate Ready(ps: seq<PacketProcessor>)
    reads Members(ps)
  {
    forall p | p in ps :: p.queues != []
  }

  /** Where `dispatchByIndex` takes a frame: it searches again in the child at the index. */
  function IndexTarget(t: Tree, index: nat, f: Frame): seq<PacketProcessor> {
    if t.Leaf? then [t.processor] else if index < |t.children| then Target(t.children[index], f) else []
  }

  /** `dispatch`: the frame goes to the target, once, and nowhere else. */
  method DispatchFrame(t: Tree, f: Frame) returns (dispatched: bool)
    requires Ready(Processors(t))
    modifies Members(Processors(t))
    ensures dispatched <==> Target(t, f) != []
    ensures forall p | p in Processors(t) ::
              p.queues == if p in Target(t, f) then Delivered(old(p.queues), f) else old(p.queues)
    decreases t, if t.Leaf? then 0 else 1
  {
    match t {
      case Leaf(_, processor) =>
        assert Processors(t)[0] == processor;
        processor.OnDispatch(f);
        dispatched := true;
      case Node(_, _) =>
        SearchMeaning(t, f);
        var index := Search(t, f);
        if index.Some? {
          DispatchByIndex(t, index.value, f);
        }
        dispatched := index.Some?;
    }
  }

  method DispatchByIndex(t: Tree, index: nat, f: Frame)
    requires Ready(Processors(t))
    modifies Members(Processors(t))
    ensures forall p | p in Processors(t) ::
              p.queues == if p in IndexTarget(t, index, f) then Delivered(old(p.queues), f) else old(p.queues)
    decreases t, if t.Leaf? then 1 else 0
  {
    match t {
      case Leaf(_, _) =>
        var _ := DispatchFrame(t, f);
      case Node(_, children) =>
        DispatchChild(children, index, f);
    }
  }

  /** The expansion over the children: the one at the index dispatches, the others do nothing. */
  method DispatchChild(ts: seq<Tree>, index: int, f: Frame)
    requires Ready(AllProcessors(ts))
    modifies Members(AllProcessors(ts))
    ensures forall p | p in AllProcessors(ts) ::
              p.queues == if 0 <= index < |ts| && p in Target(ts[index], f) then Delivered(old(p.queues), f) else old(p.queues)
    decreases ts, 0
  {
    if ts != [] {
      ProcessorsSplit(ts);
      if index == 0 {
        TargetIsProcessor(ts[0], f);
        var _ := DispatchFrame(ts[0], f);
      } else {
        if 0 < index < |ts| {
          TargetIsProcessor(ts[index], f);
          ChildProcessors(ts[1..], index - 1);
        }
        DispatchChild(ts[1..], index - 1, f);
      }
    }
  }

  lemma TargetIsProcessor(t: Tree, f: Frame)
    ensures forall p | p in Target(t, f) :: p in Processors(t)
  {
    AcceptingAreProcessors(t, f);
  }

  /** The queues of `p` once the first of the processors `found` has got the frame. */
  function AfterFirst(queues: seq<seq<Message>>, p: PacketProcessor, found: seq<PacketProcessor>, f: Frame): seq<seq<Message>>
    requires queues != []
  {
    if found != [] && p == found[0] then Delivered(queues, f) else queues
  }

  /** The body of the receive loop in `main`: classify, and move the frame away or keep it to be freed. */
  method InspectFrame(root: Tree, f: Frame) returns (routed: bool)
    requires root.Node? && Ready(Processors(root))
    modifies Members(Processors(root))
    ensures routed <==> Accepting(root, f) != []
    ensures forall p | p in Processors(root) ::
              p.queues == AfterFirst(old(p.queues), p, Accepting(root, f), f)
  {
    SearchMeaning(root, f);
    var index := Search(root, f);
    if index.Some? {
      DispatchByIndex(root, index.value, f);
    }
    routed := index.Some?;
  }

  // ---- Broadcasting

  /** The leaves hold different processors. */
  ghost predicate Distinct(ps: seq<PacketProcessor>) {
    forall i, j | 0 <= i < j < |ps| :: ps[i] != ps[j]
  }

  /** Every worker queue of every leaf grows by the one control message. */
  method DispatchBroadcast(t: Tree, control: Control)
    requires Distinct(Processors(t))
    modifies Members(Processors(t))
    ensures forall p | p in Processors(t) :: p.queues == Broadcast(old(p.queues), control)
    ensures forall p | p in Processors(t) :: Grown(old(p.queues), p.queues, [Command(control)])
    decreases t, 1
  {
    match t {
      case Leaf(_, processor) =>
        assert Processors(t)[0] == processor;
        processor.OnDispatchBroadcast(control);
      case Node(_, children) =>
        DispatchBroadcastAll(children, control);
    }
  }

  method DispatchBroadcastAll(ts: seq<Tree>, control: Control)
    requires Distinct(AllProcessors(ts))
    modifies Members(AllProcessors(ts))
    ensures forall p | p in AllProcessors(ts) :: p.queues == Broadcast(old(p.queues), control)
    ensures forall p | p in AllProcessors(ts) :: Grown(old(p.queues), p.queues, [Command(control)])
    decreases ts, 0
  {
    if ts != [] {
      ProcessorsSplit(ts);
      DistinctParts(Processors(ts[0]), AllProcessors(ts[1..]));
      DispatchBroadcast(ts[0], control);
      DispatchBroadcastAll(ts[1..], control);
    }
  }

  lemma DistinctParts(a: seq<PacketProcessor>, b: seq<PacketProcessor>)
    requires Distinct(a + b)
    ensures Distinct(a) && Distinct(b)
    ensures forall p | p in a :: p !in b && p in a + b
    ensures forall p | p in b :: p in a + b
  {
    forall i, j | 0 <= i < j < |a| ensures a[i] != a[j] {
      assert (a + b)[i] != (a + b)[j];
    }
    forall i, j | 0 <= i < j < |b| ensures b[i] != b[j] {
      assert (a + b)[|a| + i] != (a + b)[|a| + j];
    }
    forall p | p in a ensures p !in b {
      var i :| 0 <= i < |a| && a[i] == p;
      forall j | 0 <= j < |b| ensures b[j] != p {
        assert (a + b)[i] != (a + b)[|a| + j];
      }
    }
  }

  // ---- The flat router

  /** The leaves of a tree, as the flat router lists them. */
  function Leaves(t: Tree): seq<Tree>
    decreases t, 1
  {
    match t
    case Leaf(_, _) => [t]
    case Node(_, ts) => AllLeaves(ts)
  }

  function AllLeaves(ts: seq<Tree>): seq<Tree>
    decreases ts, 0
  {
    if ts == [] then [] else Leaves(ts[0]) + AllLeaves(ts[1..])
  }

  /** `PacketRouter::route`: the first leaf whose own predicate accepts gets the frame. */
  method Route(leaves: seq<Tree>, f: Frame)
    requires (forall t | t in leaves :: t.Leaf?) && Ready(AllProcessors(leaves))
    modifies Members(AllProcessors(leaves))
    ensures forall p | p in AllProcessors(leaves) ::
              p.queues == AfterFirst(old(p.queues), p, AllAccepting(leaves, f), f)
  {
    ResultsMeaning(leaves, f);
    var convResult := Results(leaves, f, false);
    OneResult(leaves, f, false);
    RouteFlagged(leaves, convResult, f);
  }

  /** The router's `route` for a control message: every processor in turn. */
  method RouteControl(leaves: seq<Tree>, control: Control)
    requires (forall t | t in leaves :: t.Leaf?) && Distinct(AllProcessors(leaves))
    modifies Members(AllProcessors(leaves))
    ensures forall p | p in AllProcessors(leaves) :: p.queues == Broadcast(old(p.queues), control)
    ensures forall p | p in AllProcessors(leaves) :: Grown(old(p.queues), p.queues, [Command(control)])
    decreases leaves
  {
    if leaves != [] {
      ProcessorsSplit(leaves);
      DistinctParts(Processors(leaves[0]), AllProcessors(leaves[1..]));
      assert Processors(leaves[0])[0] == leaves[0].processor;
      leaves[0].processor.OnDispatchBroadcast(control);
      RouteControl(leaves[1..], control);
    }
  }

  lemma {:induction false} OneResult(ts: seq<Tree>, f: Frame, found: bool)
    ensures var r := Results(ts, f, found);
            && (found ==> forall k | 0 <= k < |r| :: !r[k])
            && (forall k | 0 <= k < |r| && r[k] :: FirstTrue(r) == Some(k))
    decreases ts
  {
    if ts != [] {
      var r := Results(ts, f, found);
      var hit := !found && Search(ts[0], f).Some?;
      OneResult(ts[1..], f, found || hit);
      assert r[1..] == Results(ts[1..], f, found || hit);
      forall k | 0 <= k < |r| && r[k] ensures FirstTrue(r) == Some(k) {
        assert k > 0 ==> r[1..][k - 1];
      }
    }
  }

  /** The second expansion of `route`: every flagged leaf dispatches. */
  method RouteFlagged(leaves: seq<Tree>, flags: seq<bool>, f: Frame)
    requires |flags| == |leaves| && (forall t | t in leaves :: t.Leaf?) && Ready(AllProcessors(leaves))
    requires forall k | 0 <= k < |flags| && flags[k] :: FirstTrue(flags) == Some(k)
    modifies Members(AllProcessors(leaves))
    ensures forall p | p in AllProcessors(leaves) ::
              p.queues == if FirstTrue(flags).Some? && p == leaves[FirstTrue(flags).value].processor
                          then Delivered(old(p.queues), f) else old(p.queues)
    decreases leaves
  {
    if leaves != [] {
      ProcessorsSplit(leaves);
      assert Processors(leaves[0])[0] == leaves[0].processor;
      if flags[0] {
        leaves[0].processor.OnDispatch(f);
        assert forall k | 0 <= k < |flags[1..]| :: !flags[1..][k] by {
          assert forall k | 0 <= k < |flags[1..]| :: flags[1..][k] == flags[k + 1];
        }
        NoneTrue(flags[1..]);
      } else if FirstTrue(flags).Some? {
        assert forall k | 0 <= k < |flags[1..]| :: flags[1..][k] == flags[k + 1];
        var k := FirstTrue(flags).value;
        ChildProcessors(leaves[1..], k - 1);
        assert Processors(leaves[k])[0] == leaves[k].processor;
      }
      RouteFlagged(leaves[1..], flags[1..], f);
    }
  }

  lemma NoneTrue(flags: seq<bool>)
    requires forall k | 0 <= k < |flags| :: !flags[k]
    ensures FirstTrue(flags) == None
  {
  }

  // ---- Tree and router agree

  lemma {:induction false} ProcessorsConcat(a: seq<Tree>, b: seq<Tree>)
    ensures AllProcessors(a + b) == AllProcessors(a) + AllProcessors(b)
  {
    if a == [] {
      assert a + b == b;
    } else {
      ProcessorsConcat(a[1..], b);
      assert (a + b)[1..] == a[1..] + b;
      AppendAssoc(Processors(a[0]), AllProcessors(a[1..]), AllProcessors(b));
    }
  }

  /** A broadcast reaches the same processors through the tree and through the flat router. */
  lemma {:induction false} LeavesHoldProcessors(t: Tree)
    ensures AllProcessors(Leaves(t)) == Processors(t)
    decreases t, 1
  {
    match t {
      case Leaf(_, p) =>
        assert AllProcessors([t]) == [p] + AllProcessors([]);
      case Node(_, ts) =>
        AllLeavesHoldProcessors(ts);
    }
  }

  lemma {:induction false} AllLeavesHoldProcessors(ts: seq<Tree>)
    ensures AllProcessors(AllLeaves(ts)) == AllProcessors(ts)
    decreases ts, 0
  {
    if ts != [] {
      LeavesHoldProcessors(ts[0]);
      AllLeavesHoldProcessors(ts[1..]);
      ProcessorsConcat(Leaves(ts[0]), AllLeaves(ts[1..]));
    }
  }

  /** No leaf accepts the frame below a node that rejects it: every leaf's predicate implies those of
      its ancestors on this frame. */
  predicate Consistent(t: Tree, f: Frame)
    decreases t, 1
  {
    match t
    case Leaf(_, _) => true
    case Node(accepts, ts) => if accepts(f) then AllConsistent(ts, f) else AllAccepting(AllLeaves(ts), f) == []
  }

  predicate AllConsistent(ts: seq<Tree>, f: Frame)
    decreases ts, 0
  {
    ts == [] || (Consistent(ts[0], f) && AllConsistent(ts[1..], f))
  }

  lemma {:induction false} AcceptingConcat(a: seq<Tree>, b: seq<Tree>, f: Frame)
    ensures AllAccepting(a + b, f) == AllAccepting(a, f) + AllAccepting(b, f)
  {
    if a == [] {
      assert a + b == b;
    } else {
      AcceptingConcat(a[1..], b, f);
      assert (a + b)[1..] == a[1..] + b;
      AppendAssoc(Accepting(a[0], f), AllAccepting(a[1..], f), AllAccepting(b, f));
    }
  }

  /** Tree equals flat router: a tree finds the leaves that a flat scan finds exactly when no leaf
      accepts below a node that rejects; otherwise it finds fewer. */
  lemma {:induction false} TreeEqualsFlat(t: Tree, f: Frame)
    ensures Accepting(t, f) == AllAccepting(Leaves(t), f) <==> Consistent(t, f)
    ensures |Accepting(t, f)| <= |AllAccepting(Leaves(t), f)|
    decreases t, 1
  {
    match t {
      case Leaf(_, _) =>
        assert AllAccepting([t], f) == Accepting(t, f) + AllAccepting([], f);
      case Node(_, ts) =>
        TreesEqualFlat(ts, f);
    }
  }

  lemma {:induction false} TreesEqualFlat(ts: seq<Tree>, f: Frame)
    ensures AllAccepting(ts, f) == AllAccepting(AllLeaves(ts), f) <==> AllConsistent(ts, f)
    ensures |AllAccepting(ts, f)| <= |AllAccepting(AllLeaves(ts), f)|
    decreases ts, 0
  {
    if ts != [] {
      TreeEqualsFlat(ts[0], f);
      TreesEqualFlat(ts[1..], f);
      AcceptingConcat(Leaves(ts[0]), AllLeaves(ts[1..]), f);
      var a, a' := Accepting(ts[0], f), AllAccepting(Leaves(ts[0]), f);
      var b, b' := AllAccepting(ts[1..], f), AllAccepting(AllLeaves(ts[1..]), f);
      if a + b == a' + b' {
        assert |a| == |a'|;
        assert a == (a + b)[..|a|] && a' == (a' + b')[..|a'|];
        assert b == (a + b)[|a|..] && b' == (a' + b')[|a'|..];
      }
    }
  }

  // ---- Tree and router deliver alike

  /** No leaf accepts the frame below a node that rejects it, among the nodes up to the child that has the
      first leaf of the flat scan; what lies behind that child does not matter. */
  predicate Agrees(t: Tree, f: Frame)
    decreases t, 1
  {
    match t
    case Leaf(_, _) => true
    case Node(accepts, ts) => if accepts(f) then AllAgree(ts, f) else AllAccepting(AllLeaves(ts), f) == []
  }

  predicate AllAgree(ts: seq<Tree>, f: Frame)
    decreases ts, 0
  {
    ts == [] || (Agrees(ts[0], f) && (AllAccepting(Leaves(ts[0]), f) != [] || AllAgree(ts[1..], f)))
  }

  function First(ps: seq<PacketProcessor>): Option<PacketProcessor> {
    if ps == [] then None else Some(ps[0])
  }

  lemma FlatAccepting(ts: seq<Tree>, f: Frame)
    requires ts != []
    ensures AllAccepting(AllLeaves(ts), f) == AllAccepting(Leaves(ts[0]), f) + AllAccepting(AllLeaves(ts[1..]), f)
  {
    AcceptingConcat(Leaves(ts[0]), AllLeaves(ts[1..]), f);
  }

  lemma {:induction false} AgreesFirst(t: Tree, f: Frame)
    requires Distinct(Processors(t))
    ensures Agrees(t, f) <==> First(Accepting(t, f)) == First(AllAccepting(Leaves(t), f))
    decreases t, 1
  {
    TreeEqualsFlat(t, f);
    match t {
      case Leaf(_, _) =>
        assert AllAccepting([t], f) == Accepting(t, f) + AllAccepting([], f);
      case Node(_, ts) =>
        AllAgreeFirst(ts, f);
    }
  }

  lemma {:induction false} AllAgreeFirst(ts: seq<Tree>, f: Frame)
    requires Distinct(AllProcessors(ts))
    ensures AllAgree(ts, f) <==> First(AllAccepting(ts, f)) == First(AllAccepting(AllLeaves(ts), f))
    decreases ts, 0
  {
    if ts != [] {
      var a, a' := Accepting(ts[0], f), AllAccepting(Leaves(ts[0]), f);
      var b := AllAccepting(ts[1..], f);
      DistinctParts(Processors(ts[0]), AllProcessors(ts[1..]));
      AgreesFirst(ts[0], f);
      AllAgreeFirst(ts[1..], f);
      FlatAccepting(ts, f);
      TreeEqualsFlat(ts[0], f);
      if a' != [] && a == [] && b != [] {
        AllAcceptingAreProcessors(ts[1..], f);
        AllAcceptingAreProcessors(Leaves(ts[0]), f);
        LeavesHoldProcessors(ts[0]);
        assert b[0] in AllProcessors(ts[1..]) && a'[0] in Processors(ts[0]);
      }
    }
  }

  /** Tree delivers like flat router: with different processors at different leaves, the receive loop over
      the tree and the flat router over its leaves leave the same queues behind a frame, whatever the queues
      were, exactly when no leaf accepts below a rejecting node up to the first leaf of the flat scan. */
  lemma TreeDeliversLikeFlat(t: Tree, f: Frame, queues: seq<seq<Message>>)
    requires Distinct(Processors(t)) && queues != []
    ensures Agrees(t, f) <==>
            forall p | p in Processors(t) ::
              AfterFirst(queues, p, Accepting(t, f), f) == AfterFirst(queues, p, AllAccepting(Leaves(t), f), f)
  {
    var tree, flat := Accepting(t, f), AllAccepting(Leaves(t), f);
    AgreesFirst(t, f);
    TreeEqualsFlat(t, f);
    if First(tree) != First(flat) {
      AllAcceptingAreProcessors(Leaves(t), f);
      LeavesHoldProcessors(t);
      DeliveredDiffers(queues, f);
      assert flat[0] in Processors(t);
      assert AfterFirst(queues, flat[0], tree, f) != AfterFirst(queues, flat[0], flat, f);
    }
  }

  lemma DeliveredDiffers(queues: seq<seq<Message>>, f: Frame)
    requires queues != []
    ensures Delivered(queues, f) != queues
  {
    var w := EthHash(f) % |queues|;
    assert |Delivered(queues, f)[w]| == |queues[w]| + 1;
  }

  /** A rejecting node with an accepting leaf does no harm behind an accepting leaf. */
  lemma AgreementIsWeaker(p: PacketProcessor, q: PacketProcessor, f: Frame)
    ensures var t := Node(_ => true, [Leaf(_ => true, p), Node(_ => false, [Leaf(_ => true, q)])]);
            Agrees(t, f) && !Consistent(t, f)
  {
    var r := Node(_ => false, [Leaf(_ => true, q)]);
    var t := Node(_ => true, [Leaf(_ => true, p), r]);
    assert AllAccepting(AllLeaves(r.children), f) == [q] by {
      assert AllLeaves(r.children) == r.children + AllLeaves([]);
      assert AllAccepting(r.children, f) == [q] + AllAccepting([], f);
    }
    assert !Consistent(r, f);
    assert t.children[1..] == [r];
    assert !AllConsistent([r], f);
    assert AllAccepting(Leaves(t.children[0]), f) == [p] + AllAccepting([], f);
  }

  // ---- The tree in main

  function MainTree(radius: PacketProcessor, udp: PacketProcessor, tcp: PacketProcessor): Tree {
    Node(IsEth, [Node(IsUdp, [Leaf(IsRadius, radius), Leaf(IsUdp, udp)]), Leaf(IsTcp, tcp)])
  }

  function MainRouter(radius: PacketProcessor, udp: PacketProcessor, tcp: PacketProcessor): seq<Tree> {
    [Leaf(IsRadius, radius), Leaf(IsUdp, udp), Leaf(IsTcp, tcp)]
  }

  /** On every frame the tree in `main` dispatches like the flat router over RADIUS, UDP and TCP. */
  lemma MainTreeIsMainRouter(radius: PacketProcessor, udp: PacketProcessor, tcp: PacketProcessor, f: Frame)
    ensures Accepting(MainTree(radius, udp, tcp), f) == AllAccepting(MainRouter(radius, udp, tcp), f)
  {
    var t := MainTree(radius, udp, tcp);
    TreeEqualsFlat(t, f);
    var us := t.children[0].children;
    TwoLeaves(us[0], us[1], f);
    assert AllLeaves(t.children[1..]) == [t.children[1]] + AllLeaves([]);
    assert t.children[0] == Node(IsUdp, us) && Leaves(t.children[0]) == us;
    assert Leaves(t) == us + [t.children[1]];
    assert Consistent(t.children[0], f);
    assert AllConsistent(t.children[1..], f) == (Consistent(t.children[1], f) && AllConsistent([], f));
  }

  lemma TwoLeaves(a: Tree, b: Tree, f: Frame)
    requires a.Leaf? && b.Leaf?
    ensures AllLeaves([a, b]) == [a, b] && AllConsistent([a, b], f)
    ensures AllAccepting([a, b], f) == Accepting(a, f) + Accepting(b, f)
  {
    assert [a, b][1..] == [b] && [b][1..] == [];
    assert Consistent(b, f) && AllConsistent([b][1..], f);
    assert AllLeaves([b]) == [b] && AllConsistent([b], f);
    assert AllAccepting([b], f) == Accepting(b, f);
  }
}
