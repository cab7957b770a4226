/** The mesh at the grain of single sends. A node decides in one go whom a message goes to, but hands the
    copies to the network one by one, and anything can happen in between. */
module MeshSends {
  import opened MeshNode
  import opened MeshNet
  import opened MeshFlood
  import opened MeshCoverage

  /** A packet still to be sent, by the goroutine numbered `batch`; `reading` when that is its node's
      reader, which handles nothing else before it is through. */
  datatype Due = Due(batch: nat, reading: bool, p: Packet)

  /** The mesh, with only what has been sent on its way, and the packets still to be sent, in the order in
      which they fell due. */
  datatype Wire = Wire(net: Net, due: seq<Due>, batches: nat)

  datatype Move = Act(s: Step) | Send(k: nat)

  function Queued(ps: seq<Packet>, batch: nat, reading: bool): seq<Due> {
    seq(|ps|, i requires 0 <= i < |ps| => Due(batch, reading, ps[i]))
  }

  function Packets(due: seq<Due>): seq<Packet> {
    seq(|due|, i requires 0 <= i < |due| => due[i].p)
  }

  /** As if everything due were on its way already, behind what has been sent. */
  function Fused(w: Wire): Net { w.net.(flight := w.net.flight + Packets(w.due)) }

  /** How many of the packets on their way a step leaves there; what it sends comes behind them. */
  function Kept(net: Net, s: Step): nat
    requires s.Receive? || s.Lose? ==> s.i < |net.flight|
  {
    if s.Receive? || s.Lose? then |net.flight| - 1 else |net.flight|
  }

  ghost predicate CanMove(w: Wire, m: Move) {
    match m
    case Act(s) =>
      && Enabled(w.net, s)
      && (s.Receive? ==> forall d :: d in w.due && d.reading ==> d.p.src != w.net.flight[s.i].dst)
    case Send(k) => k < |w.due| && forall j :: 0 <= j < k ==> w.due[j].batch != w.due[k].batch
  }

  lemma StepAppends(net: Net, s: Step)
    requires Enabled(net, s)
    ensures Kept(net, s) <= |Apply(net, s).flight|
  {}

  ghost function Moved(w: Wire, m: Move): Wire
    requires CanMove(w, m)
  {
    match m
    case Act(s) =>
      StepAppends(w.net, s);
      var after, kept := Apply(w.net, s), Kept(w.net, s);
      Wire(after.(flight := after.flight[..kept]),
           w.due + Queued(after.flight[kept..], w.batches, s.Receive?), w.batches + 1)
    case Send(k) =>
      w.(net := w.net.(flight := w.net.flight + [w.due[k].p]), due := w.due[..k] + w.due[k + 1..])
  }

  ghost predicate Feasible(w: Wire, moves: seq<Move>)
    decreases |moves|, 0
  {
    moves == [] ||
    (Feasible(w, moves[..|moves| - 1]) && CanMove(Run(w, moves[..|moves| - 1]), moves[|moves| - 1]))
  }

  ghost function Run(w: Wire, moves: seq<Move>): Wire
    requires Feasible(w, moves)
    decreases |moves|, 1
  {
    if moves == [] then w else Moved(Run(w, moves[..|moves| - 1]), moves[|moves| - 1])
  }

  // ---- what a move does to the whole -------------------------------------------------------

  lemma PacketsAppend(a: seq<Due>, b: seq<Due>)
    ensures Packets(a + b) == Packets(a) + Packets(b)
  {}

  lemma PacketsQueued(ps: seq<Packet>, batch: nat, reading: bool)
    ensures Packets(Queued(ps, batch, reading)) == ps
  {}

  lemma WithoutAppend(f: seq<Packet>, d: seq<Packet>, i: nat)
    requires i < |f|
    ensures Without(f + d, i) == Without(f, i) + d && (f + d)[i] == f[i] && (f + d)[..i] == f[..i]
  {}

  lemma WithoutShorter(f: seq<Packet>, i: nat)
    requires i < |f|
    ensures |Without(f, i)| == |f| - 1
  {}

  /** What a step sends. */
  ghost function Sends(net: Net, s: Step): seq<Packet>
    requires Enabled(net, s)
  {
    match s
    case Broadcast(at, id, results, order) =>
      Copies(net.nodes[at].peers, order, net.nodes[at].addr, ShareOf(net.nodes[at], id, results))
    case Receive(i, order) =>
      var p := net.flight[i];
      if p.dst in net.nodes then Outbox(net.nodes[p.dst], p.msg, p.src, net.now, order) else []
    case Beat(at, order) =>
      Copies(net.nodes[at].peers, order, net.nodes[at].addr, Heartbeat(net.nodes[at].id))
    case Join(at, dst) => [Packet(net.nodes[at].addr, dst, Hello(net.nodes[at].id))]
    case _ => []
  }

  lemma StepSplits(net: Net, s: Step)
    requires Enabled(net, s)
    ensures Apply(net, s).flight ==
            (if s.Receive? || s.Lose? then Without(net.flight, s.i) else net.flight) + Sends(net, s)
  {
    hide Copies, Handled, Marked, Evicted, LinksOf, IsOrder, Targets, ForwardsTo, Accepts, Without, Outbox;
  }

  lemma OnItsWay(net: Net, s: Step)
    requires Enabled(net, s)
    ensures s.Receive? || s.Lose? ==> s.i < |net.flight|
  {}

  lemma ActElsewhere(w: Wire, s: Step)
    requires CanMove(w, Act(s))
    ensures Enabled(Fused(w), s) && Sends(Fused(w), s) == Sends(w.net, s)
    ensures Apply(Fused(w), s) == Apply(w.net, s).(flight := Apply(Fused(w), s).flight)
  {
    hide Copies, Handled, Marked, Evicted, LinksOf, IsOrder, Targets, ForwardsTo, Accepts, Without, Outbox;
    if s.Receive? || s.Lose? { WithoutAppend(w.net.flight, Packets(w.due), s.i); }
  }

  function Remaining(net: Net, s: Step): seq<Packet>
    requires s.Receive? || s.Lose? ==> s.i < |net.flight|
  {
    if s.Receive? || s.Lose? then Without(net.flight, s.i) else net.flight
  }

  lemma SplitAt(a: seq<Packet>, b: seq<Packet>)
    ensures (a + b)[..|a|] == a && (a + b)[|a|..] == b
  {}

  /** What a step takes off the wire and what it leaves to be sent. */
  lemma ActIs(w: Wire, s: Step)
    requires CanMove(w, Act(s))
    ensures s.Receive? || s.Lose? ==> s.i < |w.net.flight|
    ensures Moved(w, Act(s)) == Wire(Apply(w.net, s).(flight := Remaining(w.net, s)),
                                     w.due + Queued(Sends(w.net, s), w.batches, s.Receive?), w.batches + 1)
  {
    hide Apply, Enabled, Without, Sends, Queued;
    OnItsWay(w.net, s);
    StepSplits(w.net, s);
    StepAppends(w.net, s);
    if s.Receive? || s.Lose? { WithoutShorter(w.net.flight, s.i); }
    SplitAt(Remaining(w.net, s), Sends(w.net, s));
  }

  lemma Regroup(a: seq<Packet>, b: seq<Packet>, c: seq<Packet>)
    ensures (a + b) + c == a + (b + c)
  {}

  /** A step does to the whole what it does when a forward's packets are sent in one go. */
  lemma ActIsStep(w: Wire, s: Step)
    requires CanMove(w, Act(s))
    ensures Enabled(Fused(w), s) && Apply(Fused(w), s) == Fused(Moved(w, Act(s)))
  {
    hide Apply, Enabled, Without, Sends, Moved, Queued, Packets;
    var d, out := Packets(w.due), Sends(w.net, s);
    ActIs(w, s);
    ActElsewhere(w, s);
    StepSplits(Fused(w), s);
    PacketsAppend(w.due, Queued(out, w.batches, s.Receive?));
    PacketsQueued(out, w.batches, s.Receive?);
    if s.Receive? || s.Lose? { WithoutAppend(w.net.flight, d, s.i); }
    Regroup(Remaining(w.net, s), d, out);
  }

  /** A send moves one packet from among those due to the end of those sent. */
  lemma SendMoves(w: Wire, k: nat)
    requires CanMove(w, Send(k))
    ensures var f, a, b := w.net.flight, Packets(w.due[..k]), Packets(w.due[k + 1..]);
            && Fused(w).flight == f + (a + ([w.due[k].p] + b))
            && Fused(Moved(w, Send(k))) == Fused(w).(flight := (f + [w.due[k].p]) + (a + b))
  {
    var a, b := w.due[..k], w.due[k + 1..];
    assert w.due == a + ([w.due[k]] + b);
    PacketsAppend(a, [w.due[k]] + b);
    PacketsAppend([w.due[k]], b);
    PacketsAppend(a, b);
    assert Packets([w.due[k]]) == [w.due[k].p];
  }

  // ---- one send at a time is no new behaviour ----------------------------------------------

  /** Two states of the mesh that differ in the order of the packets on their way at most. */
  ghost predicate SameButOrder(a: Net, b: Net) {
    a == b.(flight := a.flight) && multiset(a.flight) == multiset(b.flight)
  }

  lemma WithoutMultiset(f: seq<Packet>, i: nat)
    requires i < |f|
    ensures multiset(Without(f, i)) == multiset(f) - multiset{f[i]}
  {
    assert f == f[..i] + [f[i]] + f[i + 1..];
  }

  lemma AlikeReceive(a: Net, b: Net, i: nat, j: nat, order: seq<NodeId>)
    requires SameButOrder(a, b) && Enabled(b, Receive(j, order)) && i < |a.flight| && a.flight[i] == b.flight[j]
    ensures Enabled(a, Receive(i, order))
    ensures SameButOrder(Apply(a, Receive(i, order)), Apply(b, Receive(j, order)))
  {
    hide Handled, LinksOf, IsOrder, ForwardsTo, Accepts, Without, Outbox;
    WithoutMultiset(a.flight, i);
    WithoutMultiset(b.flight, j);
  }

  lemma AlikeLose(a: Net, b: Net, i: nat, j: nat)
    requires SameButOrder(a, b) && Enabled(b, Lose(j)) && i < |a.flight| && a.flight[i] == b.flight[j]
    ensures Enabled(a, Lose(i)) && SameButOrder(Apply(a, Lose(i)), Apply(b, Lose(j)))
  {
    hide Without;
    WithoutMultiset(a.flight, i);
    WithoutMultiset(b.flight, j);
  }

  lemma AlikeOther(a: Net, b: Net, s: Step)
    requires SameButOrder(a, b) && Enabled(b, s) && !s.Receive? && !s.Lose?
    ensures Enabled(a, s) && SameButOrder(Apply(a, s), Apply(b, s))
  {
    hide Copies, Marked, Evicted, LinksOf, IsOrder, Targets, Without;
  }

  /** The same step, on the packet's other place. */
  lemma StepAlike(a: Net, b: Net, s: Step) returns (s': Step)
    requires SameButOrder(a, b) && Enabled(b, s)
    ensures Enabled(a, s') && SameButOrder(Apply(a, s'), Apply(b, s))
  {
    hide Apply;
    s' := s;
    if s.Receive? || s.Lose? {
      assert b.flight[s.i] in multiset(b.flight);
      assert b.flight[s.i] in multiset(a.flight);
      var i :| 0 <= i < |a.flight| && a.flight[i] == b.flight[s.i];
      if s.Receive? {
        s' := Receive(i, s.order);
        AlikeReceive(a, b, i, s.i, s.order);
      } else {
        s' := Lose(i);
        AlikeLose(a, b, i, s.i);
      }
    } else {
      AlikeOther(a, b, s);
    }
  }

  lemma Swapped(f: seq<Packet>, a: seq<Packet>, p: Packet, b: seq<Packet>)
    ensures multiset(f + (a + ([p] + b))) == multiset((f + [p]) + (a + b))
  {}

  /** However sends are delayed and interleaved, the mesh ends as in some run that sends a forward's
      packets in one go, but for the order of the packets on their way: whatever holds of every such run
      in any order of arrival holds here. */
  lemma {:induction false} SendsCanBeFused(start: Net, moves: seq<Move>) returns (steps: seq<Step>)
    requires Feasible(Wire(start, [], 0), moves)
    ensures Possible(start, steps)
    ensures SameButOrder(Exec(start, steps), Fused(Run(Wire(start, [], 0), moves)))
  {
    steps := [];
    if moves == [] {
      assert Fused(Wire(start, [], 0)).flight == start.flight;
    } else {
      hide Apply, Enabled, CanMove, Moved, Fused;
      var n := |moves| - 1;
      var w := Run(Wire(start, [], 0), moves[..n]);
      var before := SendsCanBeFused(start, moves[..n]);
      steps := before;
      match moves[n] {
        case Act(s) =>
          ActIsStep(w, s);
          var s' := StepAlike(Exec(start, before), Fused(w), s);
          steps := before + [s'];
          assert steps[..|before|] == before;
        case Send(k) =>
          SendMoves(w, k);
          Swapped(w.net.flight, Packets(w.due[..k]), w.due[k].p, Packets(w.due[k + 1..]));
      }
    }
  }

  // ---- calm runs ---------------------------------------------------------------------------

  /** A move that keeps the message's copies and the memory of it, and the peer tables. With `arrivals`,
      copies arrive in the order in which they were sent; with `sends`, they are sent in the order in which
      they fell due, so that no forward is overtaken by a later one. */
  ghost predicate CalmMove(start: Net, w: Wire, m: Move, id: MsgId, origin: NodeId, arrivals: bool, sends: bool) {
    && CanMove(w, m)
    && match m
       case Act(s) => Calm(start, Fused(w), s, id, origin, arrivals)
       case Send(k) => sends && IsCopy(w.due[k].p, id) ==> CopiesOf(Packets(w.due[..k]), id) == []
  }

  ghost predicate CalmRun(start: Net, w: Wire, moves: seq<Move>, id: MsgId, origin: NodeId, arrivals: bool, sends: bool)
    requires Feasible(w, moves)
  {
    moves == [] ||
    var n := |moves| - 1;
    && CalmRun(start, w, moves[..n], id, origin, arrivals, sends)
    && CalmMove(start, Run(w, moves[..n]), moves[n], id, origin, arrivals, sends)
  }

  lemma CopiesOfOne(p: Packet, id: MsgId)
    ensures CopiesOf([p], id) == if IsCopy(p, id) then [p] else []
  {
    assert [p][..0] == [];
  }

  /** The same copies, and `inOrder` in the same order. */
  ghost predicate Alike(q: seq<Packet>, q': seq<Packet>, inOrder: bool) {
    (forall p :: p in q <==> p in q') && (inOrder ==> q == q')
  }

  /** A send changes the order of the copies at most, and not even that when copies are sent as they fell
      due. */
  lemma SendKeepsCopies(w: Wire, k: nat, id: MsgId)
    requires CanMove(w, Send(k))
    ensures Alike(CopiesOf(Fused(w).flight, id), CopiesOf(Fused(Moved(w, Send(k))).flight, id),
                  !IsCopy(w.due[k].p, id) || CopiesOf(Packets(w.due[..k]), id) == [])
  {
    hide CopiesOf, Moved;
    var f, a, p, b := w.net.flight, Packets(w.due[..k]), w.due[k].p, Packets(w.due[k + 1..]);
    SendMoves(w, k);
    CopiesOfOne(p, id);
    CopiesAppend(f, a + ([p] + b), id);
    CopiesAppend(a, [p] + b, id);
    CopiesAppend([p], b, id);
    CopiesAppend(f + [p], a + b, id);
    CopiesAppend(f, [p], id);
    CopiesAppend(a, b, id);
    Regrouped(CopiesOf(f, id), CopiesOf(a, id), CopiesOf([p], id), CopiesOf(b, id));
  }

  lemma Regrouped(f: seq<Packet>, a: seq<Packet>, own: seq<Packet>, b: seq<Packet>)
    ensures Alike(f + (a + (own + b)), (f + own) + (a + b), own == [] || a == [])
  {}

  lemma SendKeepsInv(w: Wire, k: nat)
    requires Inv(Fused(w)) && CanMove(w, Send(k))
    ensures Inv(Fused(Moved(w, Send(k))))
  {
    hide GoodPacket, GoodAcceptance, GoodDelivery, GoodNodes, RealLink;
    var net, net' := Fused(w), Fused(Moved(w, Send(k)));
    SendMoves(w, k);
    InvNodes(net);
    InvExtends(net, net');
  }

  /** The invariant of the flood looks at the copies alone, and at their order only in order. */
  lemma CoverAlike(start: Net, id: MsgId, o: Addr, q: seq<Packet>, q': seq<Packet>, accepts: seq<Acceptance>,
                   fifo: bool)
    requires o in start.nodes && Cover(start, id, o, q, accepts, fifo)
    requires Alike(q, q', fifo)
    ensures Cover(start, id, o, q', accepts, fifo)
  {
    hide Neighbour, AcceptedWith, Ordered;
    if !fifo {
      forall b, t | Coming(q, b, t) ensures Coming(q', b, t) {
        var p :| p in q && p.dst == b && p.msg.Share? && p.msg.ttl >= t;
      }
    }
  }

  lemma LessAlike(q: seq<Packet>, q': seq<Packet>, inOrder: bool, fifo: bool)
    requires Alike(q, q', inOrder) && (fifo ==> inOrder)
    ensures Alike(q, q', fifo)
  {}

  lemma SendCovers(start: Net, w: Wire, k: nat, id: MsgId, o: Addr, fifo: bool)
    requires o in start.nodes && Covering(start, Fused(w), id, o, fifo) && CanMove(w, Send(k))
    requires fifo && IsCopy(w.due[k].p, id) ==> CopiesOf(Packets(w.due[..k]), id) == []
    ensures Covering(start, Fused(Moved(w, Send(k))), id, o, fifo)
  {
    hide CopiesOf, Cover, Inv, Moved, Alike;
    SendKeepsInv(w, k);
    SendKeepsCopies(w, k, id);
    SendMoves(w, k);
    var q, q' := CopiesOf(Fused(w).flight, id), CopiesOf(Fused(Moved(w, Send(k))).flight, id);
    LessAlike(q, q', !IsCopy(w.due[k].p, id) || CopiesOf(Packets(w.due[..k]), id) == [], fifo);
    CoverAlike(start, id, o, q, q', w.net.accepts, fifo);
  }

  lemma CalmWeaker(start: Net, net: Net, s: Step, id: MsgId, origin: NodeId, arrivals: bool, fifo: bool)
    requires Calm(start, net, s, id, origin, arrivals) && (fifo ==> arrivals)
    ensures Calm(start, net, s, id, origin, fifo)
  {}

  lemma {:induction false} CalmRunCovers(start: Net, w: Wire, moves: seq<Move>, id: MsgId, o: Addr, arrivals: bool,
                                         sends: bool)
    requires o in start.nodes && Covering(start, Fused(w), id, o, arrivals && sends)
    requires Feasible(w, moves) && CalmRun(start, w, moves, id, start.nodes[o].id, arrivals, sends)
    ensures Covering(start, Fused(Run(w, moves)), id, o, arrivals && sends)
  {
    hide Covering, Calm, Apply, Enabled, Fused, Moved;
    if moves != [] {
      var n := |moves| - 1;
      CalmRunCovers(start, w, moves[..n], id, o, arrivals, sends);
      var u := Run(w, moves[..n]);
      match moves[n] {
        case Act(s) =>
          ActIsStep(u, s);
          CalmWeaker(start, Fused(u), s, id, start.nodes[o].id, arrivals, arrivals && sends);
          CalmStep(start, Fused(u), s, id, o, arrivals && sends);
        case Send(k) => SendCovers(start, u, k, id, o, arrivals && sends);
      }
    }
  }

  lemma {:induction false} CalmRunAlong(start: Net, w: Wire, moves: seq<Move>, id: MsgId, o: Addr, arrivals: bool,
                                        sends: bool)
    requires o in start.nodes && Covering(start, Fused(w), id, o, arrivals && sends)
    requires Along(start, Fused(w), id, start.nodes[o].id)
    requires Feasible(w, moves) && CalmRun(start, w, moves, id, start.nodes[o].id, arrivals, sends)
    ensures Along(start, Fused(Run(w, moves)), id, start.nodes[o].id)
  {
    if moves != [] {
      hide Along, Calm, Apply, Enabled, Known, Inv, SameTables, Cover, Fused, Moved;
      var n := |moves| - 1;
      CalmRunAlong(start, w, moves[..n], id, o, arrivals, sends);
      CalmRunCovers(start, w, moves[..n], id, o, arrivals, sends);
      var u := Run(w, moves[..n]);
      match moves[n] {
        case Act(s) =>
          ActIsStep(u, s);
          StepAlong(start, Fused(u), s, id, o);
        case Send(k) =>
          SendMoves(u, k);
          SameLinks(start, Fused(u), Fused(Moved(u, Send(k))), id, start.nodes[o].id);
      }
    }
  }

  lemma SameLinks(start: Net, net: Net, net': Net, id: MsgId, origin: NodeId)
    requires Along(start, net, id, origin) && net'.crossed == net.crossed
    ensures Along(start, net', id, origin)
  {}

  lemma {:induction false} RunSourced(w: Wire, moves: seq<Move>, id: MsgId, o: Addr)
    requires Inv(Fused(w)) && Feasible(w, moves) && id != "" && id in w.net.origins && Sourced(Fused(w), id, o)
    ensures Inv(Fused(Run(w, moves))) && id in Run(w, moves).net.origins && Sourced(Fused(Run(w, moves)), id, o)
  {
    if moves != [] {
      hide Inv, Apply, Enabled, Sourced, Moved;
      var n := |moves| - 1;
      RunSourced(w, moves[..n], id, o);
      var u := Run(w, moves[..n]);
      match moves[n] {
        case Act(s) =>
          ActIsStep(u, s);
          StepKeeps(Fused(u), s);
          OriginsGrow(Fused(u), s, id);
          StepSourced(Fused(u), s, id, o);
        case Send(k) =>
          SendKeepsInv(u, k);
          SendMoves(u, k);
          SendSourced(u, k, id, o);
      }
    }
  }

  lemma SendSourced(w: Wire, k: nat, id: MsgId, o: Addr)
    requires CanMove(w, Send(k)) && Sourced(Fused(w), id, o)
    ensures Sourced(Fused(Moved(w, Send(k))), id, o)
  {
    hide CopiesOf, Moved, Fused, CameBy, AcceptanceSourced;
    SendKeepsCopies(w, k, id);
    SendMoves(w, k);
    var net, net' := Fused(w), Fused(Moved(w, Send(k)));
    assert net'.crossed == net.crossed && net'.accepts == net.accepts;
    forall p | p in CopiesOf(net'.flight, id)
      ensures IsCopy(p, id) && CameBy(net'.accepts, id, o, p.src, p.msg.ttl + 1)
    {
      assert p in CopiesOf(net.flight, id);
    }
  }

  // ---- from the broadcast to the last copy -------------------------------------------------

  /** The mesh just after a broadcast, its copies still to be sent. */
  ghost function Announced(start: Net, b: Step): Wire
    requires b.Broadcast? && Enabled(start, b)
  {
    Moved(Wire(start, [], 0), Act(b))
  }

  /** Nothing of the message is on its way or still to be sent. */
  ghost predicate Over(w: Wire, id: MsgId) { CopiesOf(Fused(w).flight, id) == [] }

  lemma AnnouncedIs(start: Net, b: Step)
    requires b.Broadcast? && Enabled(start, b)
    ensures Fused(Announced(start, b)) == Apply(start, b)
  {
    ActIsStep(Wire(start, [], 0), b);
    assert Fused(Wire(start, [], 0)).flight == start.flight;
  }

  lemma InOrigins(start: Net, net: Net, id: MsgId, o: Addr, fifo: bool)
    requires Covering(start, net, id, o, fifo)
    ensures Inv(net) && id in net.origins && id != ""
  {}

  /** However sends are delayed and in whatever order packets arrive: once no copy of a broadcast is left, a
      node other than the origin has accepted it exactly when the origin lists it, or a node does that
      accepted it with hops to spare. */
  lemma EveryPeerIsReached(start: Net, b: Step, moves: seq<Move>, x: Addr)
    requires Inv(start) && b.Broadcast? && Enabled(start, b) && x in start.nodes && x != b.at
    requires Feasible(Announced(start, b), moves)
    requires CalmRun(start, Announced(start, b), moves, b.id, start.nodes[b.at].id, false, false)
    requires Over(Run(Announced(start, b), moves), b.id)
    ensures var end := Run(Announced(start, b), moves).net;
            Took(end, b.id, x) <==> ListedBySender(start, end, b.id, b.at, x)
  {
    hide Inv, Neighbour, Apply, Enabled, CalmRun, Feasible, Run, Along, Sourced, Known, SameTables, Announced, CopiesOf;
    var w := Announced(start, b);
    var end := Fused(Run(w, moves));
    AnnouncedIs(start, b);
    BroadcastCovers(start, b, false);
    CalmRunCovers(start, w, moves, b.id, b.at, false, false);
    SuppliedAtEnd(end.accepts, b.id, b.at);
    if ListedBySender(start, end, b.id, b.at, x) {
      assert AcceptedWith(end.accepts, b.id, x, 0);
    }
    if Took(end, b.id, x) {
      BroadcastAlong(start, b);
      CalmRunAlong(start, w, moves, b.id, b.at, false, false);
      BroadcastSourced(start, b);
      InOrigins(start, Fused(w), b.id, b.at, false);
      RunSourced(w, moves, b.id, b.at);
      TookIsListed(start, end, b.id, b.at, x);
    }
  }

  /** When copies are sent in the order in which they fell due and arrive in the order in which they were
      sent: once none is left, exactly the nodes within four links of the origin have accepted the message,
      each with as many hops to spare as its distance leaves. */
  lemma InOrderReachesExactlyFourLinks(start: Net, b: Step, moves: seq<Move>, x: Addr)
    requires Inv(start) && b.Broadcast? && Enabled(start, b) && x in start.nodes && x != b.at
    requires Feasible(Announced(start, b), moves)
    requires CalmRun(start, Announced(start, b), moves, b.id, start.nodes[b.at].id, true, true)
    requires Over(Run(Announced(start, b), moves), b.id)
    ensures var end := Run(Announced(start, b), moves).net;
            var origin := start.nodes[b.at].id;
            && (Took(end, b.id, x) <==> exists k: nat :: k <= 4 && Reach(start, origin, b.at, k, x))
            && (forall k: nat :: k <= 4 && Reach(start, origin, b.at, k, x) ==>
                  AcceptedWith(end.accepts, b.id, x, 4 - k))
  {
    hide Reach, Neighbour, Apply, Walk, Along, Feasible, CalmRun, Run, Inv, Cover, CopiesOf, Announced;
    var w := Announced(start, b);
    var origin := start.nodes[b.at].id;
    var end := Fused(Run(w, moves));
    AnnouncedIs(start, b);
    BroadcastCovers(start, b, true);
    CalmRunCovers(start, w, moves, b.id, b.at, true, true);
    forall k: nat | k <= 4 && Reach(start, origin, b.at, k, x) ensures AcceptedWith(end.accepts, b.id, x, 4 - k) {
      ReachedInOrder(start, end, b.id, b.at, k, x);
    }
    if Took(end, b.id, x) {
      BroadcastAlong(start, b);
      CalmRunAlong(start, w, moves, b.id, b.at, true, true);
      TookIsReached(start, end, b.id, b.at, x);
    }
  }
}
