/** A mesh of nodes exchanging packets over an unreliable network, as a system of steps. */
module MeshNet {
  import opened Wrappers
  import opened MeshNode

  /** Who broadcast a message, and what. */
  datatype Origin = Origin(at: Addr, results: seq<string>)

  /** One node taking one message for new, and the hops the copy had left. */
  datatype Acceptance = Acceptance(at: Addr, id: MsgId, ttl: int)

  datatype Link = Link(id: MsgId, src: Addr, dst: Addr)

  /** The nodes by address, the packets on their way in order of sending, the clock, and what an
      observer of the whole run has noted: the broadcasts made, the links each message was sent over
      and the acceptances in order. */
  datatype Net = Net(
    nodes: map<Addr, Node>, flight: seq<Packet>, now: int,
    origins: map<MsgId, Origin>, crossed: set<Link>, accepts: seq<Acceptance>)

  /** The choices left open by the protocol are part of the step: which packet arrives or is lost, and
      in which order a peer table is walked. */
  datatype Step =
    | Broadcast(at: Addr, id: MsgId, results: seq<string>, order: seq<NodeId>)
    | Receive(i: nat, order: seq<NodeId>)
    | Lose(i: nat)
    | Beat(at: Addr, order: seq<NodeId>)
    | Join(at: Addr, dst: Addr)
    | Take(at: Addr)
    | Wait(dt: nat)

  function ShareOf(n: Node, id: MsgId, results: seq<string>): Msg {
    Share(n.id, id, DEFAULT_TTL, Some(ScanShare(n.id, results)))
  }

  ghost predicate Enabled(net: Net, s: Step) {
    match s
    case Broadcast(at, id, _, order) =>
      at in net.nodes && id != "" && id !in net.origins && IsOrder(order, Targets(net.nodes[at].peers, ""))
    case Receive(i, order) =>
      && i < |net.flight|
      && var p := net.flight[i];
         p.dst in net.nodes ==> IsOrder(order, ForwardsTo(net.nodes[p.dst], p.msg, p.src, net.now))
    case Lose(i) => i < |net.flight|
    case Beat(at, order) => at in net.nodes && IsOrder(order, net.nodes[at].peers.Keys)
    case Join(at, _) => at in net.nodes
    case Take(at) => at in net.nodes && net.nodes[at].incoming != []
    case Wait(_) => true
  }

  function Without(flight: seq<Packet>, i: nat): seq<Packet>
    requires i < |flight|
  {
    flight[..i] + flight[i + 1..]
  }

  /** The links a batch of packets sends message copies over. */
  function LinksOf(ps: seq<Packet>): set<Link> {
    set p | p in ps && p.msg.Share? :: Link(p.msg.id, p.src, p.dst)
  }

  function Sent(net: Net, ps: seq<Packet>): Net {
    net.(flight := net.flight + ps, crossed := net.crossed + LinksOf(ps))
  }

  function Received(net: Net, i: nat, order: seq<NodeId>): Net
    requires Enabled(net, Receive(i, order))
  {
    var p := net.flight[i];
    var rest := net.(flight := Without(net.flight, i));
    if p.dst !in net.nodes then rest
    else
      var n := net.nodes[p.dst];
      var noted := if Accepts(n, p.msg) then [Acceptance(p.dst, p.msg.id, p.msg.ttl)] else [];
      Sent(rest.(nodes := net.nodes[p.dst := Handled(n, p.msg, p.src, net.now)], accepts := net.accepts + noted),
           Outbox(n, p.msg, p.src, net.now, order))
  }

  function Apply(net: Net, s: Step): Net
    requires Enabled(net, s)
  {
    match s
    case Broadcast(at, id, results, order) =>
      var n := net.nodes[at];
      Sent(net.(nodes := net.nodes[at := Marked(n, id, net.now)], origins := net.origins[id := Origin(at, results)]),
           Copies(n.peers, order, n.addr, ShareOf(n, id, results)))
    case Receive(i, order) => Received(net, i, order)
    case Lose(i) => net.(flight := Without(net.flight, i))
    case Beat(at, order) =>
      var n := net.nodes[at];
      Sent(net.(nodes := net.nodes[at := Evicted(n, net.now)]), Copies(n.peers, order, n.addr, Heartbeat(n.id)))
    case Join(at, dst) => Sent(net, [Packet(net.nodes[at].addr, dst, Hello(net.nodes[at].id))])
    case Take(at) =>
      net.(nodes := net.nodes[at := net.nodes[at].(incoming := net.nodes[at].incoming[1..])])
    case Wait(dt) => net.(now := net.now + dt)
  }

  ghost predicate Possible(net: Net, steps: seq<Step>)
    decreases |steps|, 0
  {
    steps == [] ||
    (Possible(net, steps[..|steps| - 1]) && Enabled(Exec(net, steps[..|steps| - 1]), steps[|steps| - 1]))
  }

  ghost function Exec(net: Net, steps: seq<Step>): Net
    requires Possible(net, steps)
    decreases |steps|, 1
  {
    if steps == [] then net else Apply(Exec(net, steps[..|steps| - 1]), steps[|steps| - 1])
  }

  // ---- what every run keeps ----------------------------------------------------------------

  /** Following links of one message, `x` is exactly `k` hops from `o`. */
  ghost predicate Walk(crossed: set<Link>, id: MsgId, o: Addr, k: nat, x: Addr) {
    if k == 0 then x == o
    else exists y :: Link(id, y, x) in crossed && Walk(crossed, id, o, k - 1, y)
  }

  lemma {:induction false} WalkGrows(crossed: set<Link>, more: set<Link>, id: MsgId, o: Addr, k: nat, x: Addr)
    requires crossed <= more && Walk(crossed, id, o, k, x)
    ensures Walk(more, id, o, k, x)
  {
    if k > 0 {
      var y :| Link(id, y, x) in crossed && Walk(crossed, id, o, k - 1, y);
      WalkGrows(crossed, more, id, o, k - 1, y);
    }
  }

  /** No node lists itself, by identity or by address. */
  ghost predicate NotOwnPeer(n: Node) {
    n.id !in n.peers && forall q :: q in n.peers ==> n.peers[q].addr != n.addr
  }

  ghost predicate GoodNodes(nodes: map<Addr, Node>) {
    && "" !in nodes
    && (forall a :: a in nodes ==> nodes[a].addr == a && NotOwnPeer(nodes[a]))
    && (forall a, b :: a in nodes && b in nodes && nodes[a].id == nodes[b].id ==> a == b)
  }

  /** A share on its way with `ttl` hops left is an unaltered copy of a real broadcast: it has crossed
      `DEFAULT_TTL - ttl` links from the origin and is crossing one more. */
  ghost predicate GoodCopy(net: Net, p: Packet) {
    p.msg.Share? ==>
      && p.msg.id != "" && p.msg.id in net.origins
      && var o := net.origins[p.msg.id];
         && o.at in net.nodes
         && p.msg.nodeId == net.nodes[o.at].id
         && p.msg.payload == Some(ScanShare(net.nodes[o.at].id, o.results))
         && 0 <= p.msg.ttl <= DEFAULT_TTL
         && Walk(net.crossed, p.msg.id, o.at, DEFAULT_TTL - p.msg.ttl, p.src)
         && Link(p.msg.id, p.src, p.dst) in net.crossed
  }

  ghost predicate GoodPacket(net: Net, p: Packet) {
    && p.src in net.nodes
    && (p.src == p.dst ==> p.msg.nodeId == net.nodes[p.src].id)
    && GoodCopy(net, p)
  }

  /** Nobody accepts its own message, and an acceptance with `ttl` hops left happens exactly
      `DEFAULT_TTL + 1 - ttl` links from the origin. */
  ghost predicate GoodAcceptance(net: Net, a: Acceptance) {
    && a.at in net.nodes && a.id in net.origins
    && a.at != net.origins[a.id].at
    && 0 <= a.ttl <= DEFAULT_TTL
    && Walk(net.crossed, a.id, net.origins[a.id].at, DEFAULT_TTL + 1 - a.ttl, a.at)
  }

  /** What waits for delivery was broadcast by some other node, as it stands. */
  ghost predicate GoodDelivery(net: Net, at: Addr, s: ScanShare)
    requires at in net.nodes
  {
    && s.nodeId != net.nodes[at].id
    && exists id :: id in net.origins && net.origins[id].at in net.nodes
                    && s == ScanShare(net.nodes[net.origins[id].at].id, net.origins[id].results)
  }

  ghost predicate RealLink(net: Net, l: Link) { l.id in net.origins && l.src in net.nodes }

  ghost predicate Inv(net: Net) {
    && GoodNodes(net.nodes)
    && (forall p :: p in net.flight ==> GoodPacket(net, p))
    && (forall a :: a in net.accepts ==> GoodAcceptance(net, a))
    && (forall at, id :: at in net.nodes && id in net.nodes[at].seen ==> id in net.origins)
    && (forall l :: l in net.crossed ==> RealLink(net, l))
    && (forall at, s :: at in net.nodes && s in net.nodes[at].incoming ==> GoodDelivery(net, at, s))
  }

  /** Where a run starts: any peer tables in which no node lists itself, and nothing sent yet. */
  ghost predicate Initial(net: Net) {
    && GoodNodes(net.nodes) && net.flight == [] && net.accepts == [] && net.crossed == {} && net.origins == map[]
    && forall at :: at in net.nodes ==> net.nodes[at].seen == map[] && net.nodes[at].incoming == []
  }

  // ---- each step keeps it ------------------------------------------------------------------

  /** The later state knows the same nodes, and more broadcasts and links. */
  ghost predicate Extends(net: Net, net': Net) {
    && net'.nodes.Keys == net.nodes.Keys
    && (forall a :: a in net.nodes ==> net'.nodes[a].id == net.nodes[a].id)
    && (forall id :: id in net.origins ==> id in net'.origins && net'.origins[id] == net.origins[id])
    && net.crossed <= net'.crossed
  }

  lemma GoodPacketExtends(net: Net, net': Net, p: Packet)
    requires Extends(net, net') && GoodPacket(net, p)
    ensures GoodPacket(net', p)
  {
    hide Walk;
    if p.msg.Share? {
      var o := net.origins[p.msg.id];
      WalkGrows(net.crossed, net'.crossed, p.msg.id, o.at, DEFAULT_TTL - p.msg.ttl, p.src);
    }
  }

  lemma GoodAcceptanceExtends(net: Net, net': Net, a: Acceptance)
    requires Extends(net, net') && GoodAcceptance(net, a)
    ensures GoodAcceptance(net', a)
  {
    hide Walk;
    WalkGrows(net.crossed, net'.crossed, a.id, net.origins[a.id].at, DEFAULT_TTL + 1 - a.ttl, a.at);
  }

  lemma GoodDeliveryExtends(net: Net, net': Net, at: Addr, s: ScanShare)
    requires Extends(net, net') && at in net.nodes && GoodDelivery(net, at, s)
    ensures GoodDelivery(net', at, s)
  {}

  /** The invariant carries over to a later state once what is new there is good. */
  lemma InvExtends(net: Net, net': Net)
    requires Inv(net) && Extends(net, net') && GoodNodes(net'.nodes)
    requires forall p :: p in net'.flight ==> p in net.flight || GoodPacket(net', p)
    requires forall a :: a in net'.accepts ==> a in net.accepts || GoodAcceptance(net', a)
    requires forall l :: l in net'.crossed ==> l in net.crossed || RealLink(net', l)
    requires forall at, id :: at in net'.nodes && id in net'.nodes[at].seen ==>
               id in net.nodes[at].seen || id in net'.origins
    requires forall at, s :: at in net'.nodes && s in net'.nodes[at].incoming ==>
               s in net.nodes[at].incoming || GoodDelivery(net', at, s)
    ensures Inv(net')
  {
    hide GoodPacket, GoodAcceptance, GoodDelivery, GoodNodes;
    forall p | p in net'.flight ensures GoodPacket(net', p) {
      if p in net.flight { GoodPacketExtends(net, net', p); }
    }
    forall a | a in net'.accepts ensures GoodAcceptance(net', a) {
      if a in net.accepts { GoodAcceptanceExtends(net, net', a); }
    }
    forall at, s | at in net'.nodes && s in net'.nodes[at].incoming ensures GoodDelivery(net', at, s) {
      if s in net.nodes[at].incoming { GoodDeliveryExtends(net, net', at, s); }
    }
  }

  lemma LinksReal(net: Net, ps: seq<Packet>)
    requires forall p :: p in ps ==> GoodPacket(net, p)
    ensures forall l :: l in LinksOf(ps) ==> RealLink(net, l)
  {}

  lemma GoodNodesUpdate(nodes: map<Addr, Node>, a: Addr, n: Node)
    requires GoodNodes(nodes) && a in nodes
    requires n.id == nodes[a].id && n.addr == a && NotOwnPeer(n)
    ensures GoodNodes(nodes[a := n])
  {}

  /** A node that hears from itself ignores it, so it never becomes its own peer. */
  lemma HandledNotOwnPeer(n: Node, m: Msg, from: Addr, now: int)
    requires NotOwnPeer(n) && (from == n.addr ==> m.nodeId == n.id)
    ensures var h := Handled(n, m, from, now);
            NotOwnPeer(h) && h.id == n.id && h.addr == n.addr
  {}

  /** Replacing one node by a later version of itself, and nothing else about nodes. */
  lemma ExtendsUpdate(net: Net, net': Net, a: Addr, n: Node)
    requires a in net.nodes && n.id == net.nodes[a].id
    requires net'.nodes == net.nodes[a := n] && net.crossed <= net'.crossed
    requires forall id :: id in net.origins ==> id in net'.origins && net'.origins[id] == net.origins[id]
    ensures Extends(net, net')
  {}

  lemma InCopies(peers: map<NodeId, Peer>, order: seq<NodeId>, src: Addr, msg: Msg, p: Packet)
    requires forall n :: n in order ==> n in peers
    requires p in Copies(peers, order, src, msg)
    ensures p.src == src && p.msg == msg && exists n :: n in order && p.dst == peers[n].addr
  {
    var i :| 0 <= i < |order| && Copies(peers, order, src, msg)[i] == p;
    assert order[i] in order;
  }

  lemma BroadcastCopyGood(net: Net, s: Step, p: Packet)
    requires Inv(net) && Enabled(net, s) && s.Broadcast?
    requires p in Copies(net.nodes[s.at].peers, s.order, net.nodes[s.at].addr,
        ShareOf(net.nodes[s.at], s.id, s.results))
    ensures GoodPacket(Apply(net, s), p)
  {
    var n := net.nodes[s.at];
    var msg := ShareOf(n, s.id, s.results);
    InCopies(n.peers, s.order, n.addr, msg, p);
    assert Link(p.msg.id, p.src, p.dst) in LinksOf(Copies(n.peers, s.order, n.addr, msg));
  }

  lemma BroadcastKeeps(net: Net, s: Step)
    requires Inv(net) && Enabled(net, s) && s.Broadcast?
    ensures Inv(Apply(net, s))
  {
    hide Walk, LinksOf, GoodAcceptance, GoodDelivery, GoodPacket, GoodNodes, Extends, Copies, NotOwnPeer;
    var net' := Apply(net, s);
    var n := Marked(net.nodes[s.at], s.id, net.now);
    forall p | p in Copies(net.nodes[s.at].peers, s.order, net.nodes[s.at].addr,
        ShareOf(net.nodes[s.at], s.id, s.results))
      ensures GoodPacket(net', p)
    {
      BroadcastCopyGood(net, s, p);
    }
    LinksReal(net', Copies(net.nodes[s.at].peers, s.order, net.nodes[s.at].addr,
        ShareOf(net.nodes[s.at], s.id, s.results)));
    MarkedIs(net.nodes[s.at], s.id, net.now);
    GoodNodeAt(net.nodes, s.at);
    GoodNodesUpdate(net.nodes, s.at, n);
    ExtendsUpdate(net, net', s.at, n);
    InvExtends(net, net');
  }

  lemma MarkedIs(n: Node, id: MsgId, now: int)
    ensures var m := Marked(n, id, now);
            m.id == n.id && m.addr == n.addr && m.incoming == n.incoming && (NotOwnPeer(n) ==> NotOwnPeer(m))
  {}

  /** A copy that is passed on is good again, one hop further. */
  lemma GoodCopyNext(net: Net, net': Net, p: Packet, q: Packet)
    requires GoodCopy(net, p) && p.msg.Share? && p.msg.ttl > 0 && Extends(net, net')
    requires q.msg == p.msg.(ttl := p.msg.ttl - 1) && q.src == p.dst && Link(q.msg.id, q.src, q.dst) in net'.crossed
    ensures GoodCopy(net', q)
  {
    var o := net.origins[p.msg.id];
    WalkGrows(net.crossed, net'.crossed, p.msg.id, o.at, DEFAULT_TTL - p.msg.ttl, p.src);
    assert Link(p.msg.id, p.src, p.dst) in net'.crossed;
  }

  lemma PassedOn(net: Net, i: nat, order: seq<NodeId>, q: Packet)
    requires Inv(net) && Enabled(net, Receive(i, order))
    requires net.flight[i].dst in net.nodes
    requires q in Outbox(net.nodes[net.flight[i].dst], net.flight[i].msg, net.flight[i].src, net.now, order)
    requires Extends(net, Received(net, i, order))
    ensures GoodPacket(Received(net, i, order), q)
  {
    hide GoodAcceptance, GoodDelivery, RealLink, Walk, GoodCopy;
    var p := net.flight[i];
    var n := net.nodes[p.dst];
    assert GoodPacket(net, p);
    GoodNodeAt(net.nodes, p.dst);
    if p.msg.Share? {
      var peers := Refreshed(n, p.msg, p.src, net.now).peers;
      InCopies(peers, order, n.addr, p.msg.(ttl := p.msg.ttl - 1), q);
      var out := Outbox(n, p.msg, p.src, net.now, order);
      assert Link(q.msg.id, q.src, q.dst) in LinksOf(out);
      GoodCopyNext(net, Received(net, i, order), p, q);
    } else {
      HelloIsGood(Received(net, i, order), q);
    }
  }

  lemma HelloIsGood(net: Net, p: Packet)
    requires !p.msg.Share?
    ensures GoodCopy(net, p)
  {}

  lemma ReceiveExtends(net: Net, i: nat, order: seq<NodeId>)
    requires Inv(net) && Enabled(net, Receive(i, order))
    ensures var net' := Received(net, i, order);
            Extends(net, net') && GoodNodes(net'.nodes)
  {
    hide Walk, LinksOf, Outbox, GoodAcceptance, GoodDelivery, GoodNodes, Extends, NotOwnPeer, Handled, Accepts;
    var p := net.flight[i];
    assert GoodPacket(net, p);
    InvNodes(net);
    if p.dst in net.nodes {
      var n := net.nodes[p.dst];
      GoodNodeAt(net.nodes, p.dst);
      HandledNotOwnPeer(n, p.msg, p.src, net.now);
      GoodNodesUpdate(net.nodes, p.dst, Handled(n, p.msg, p.src, net.now));
      ExtendsUpdate(net, Received(net, i, order), p.dst, Handled(n, p.msg, p.src, net.now));
    } else {
      SameExtends(net, Received(net, i, order));
    }
  }

  lemma InvNodes(net: Net)
    requires Inv(net)
    ensures GoodNodes(net.nodes)
  {}

  lemma GoodNodeAt(nodes: map<Addr, Node>, a: Addr)
    requires GoodNodes(nodes) && a in nodes
    ensures nodes[a].addr == a && NotOwnPeer(nodes[a])
  {}

  lemma SameExtends(net: Net, net': Net)
    requires net'.nodes == net.nodes && net'.origins == net.origins && net'.crossed == net.crossed
    ensures Extends(net, net')
  {}

  /** A fresh acceptance and the delivery that goes with it. */
  lemma AcceptedGood(net: Net, i: nat, order: seq<NodeId>)
    requires Inv(net) && Enabled(net, Receive(i, order))
    requires net.flight[i].dst in net.nodes && Accepts(net.nodes[net.flight[i].dst], net.flight[i].msg)
    requires Extends(net, Received(net, i, order))
    ensures var p := net.flight[i];
            && p.msg.id in net.origins
            && GoodAcceptance(Received(net, i, order), Acceptance(p.dst, p.msg.id, p.msg.ttl))
            && p.msg.payload.Some? && GoodDelivery(Received(net, i, order), p.dst, p.msg.payload.value)
  {
    var p := net.flight[i];
    var net' := Received(net, i, order);
    assert GoodPacket(net, p);
    var o := net.origins[p.msg.id];
    WalkGrows(net.crossed, net'.crossed, p.msg.id, o.at, DEFAULT_TTL - p.msg.ttl, p.src);
    assert Link(p.msg.id, p.src, p.dst) in net'.crossed;
  }

  lemma ReceiveKeeps(net: Net, s: Step)
    requires Inv(net) && Enabled(net, s) && s.Receive?
    ensures Inv(Apply(net, s))
  {
    hide GoodPacket, GoodAcceptance, GoodDelivery, GoodNodes;
    var p := net.flight[s.i];
    var net' := Apply(net, s);
    ReceiveExtends(net, s.i, s.order);
    if p.dst in net.nodes {
      var n := net.nodes[p.dst];
      var out := Outbox(n, p.msg, p.src, net.now, s.order);
      forall q | q in out ensures GoodPacket(net', q) {
        PassedOn(net, s.i, s.order, q);
      }
      LinksReal(net', out);
      if Accepts(n, p.msg) { AcceptedGood(net, s.i, s.order); }
    }
    InvExtends(net, net');
  }

  lemma BeatKeeps(net: Net, s: Step)
    requires Inv(net) && Enabled(net, s) && s.Beat?
    ensures Inv(Apply(net, s))
  {
    hide Walk, LinksOf, GoodAcceptance, GoodDelivery, GoodNodes, Extends, Copies, NotOwnPeer;
    var net' := Apply(net, s);
    var n := net.nodes[s.at];
    GoodNodeAt(net.nodes, s.at);
    forall p | p in Copies(n.peers, s.order, n.addr, Heartbeat(n.id)) ensures GoodPacket(net', p) {
      InCopies(n.peers, s.order, n.addr, Heartbeat(n.id), p);
      NotAtOwnAddress(n, p.dst);
    }
    LinksReal(net', Copies(n.peers, s.order, n.addr, Heartbeat(n.id)));
    EvictedIs(n, net.now);
    GoodNodesUpdate(net.nodes, s.at, Evicted(n, net.now));
    ExtendsUpdate(net, net', s.at, Evicted(n, net.now));
    InvExtends(net, net');
  }

  lemma NotAtOwnAddress(n: Node, dst: Addr)
    requires NotOwnPeer(n)
    ensures (exists q :: q in n.peers && n.peers[q].addr == dst) ==> dst != n.addr
  {}

  lemma EvictedIs(n: Node, now: int)
    ensures var m := Evicted(n, now);
            m.id == n.id && m.addr == n.addr && m.incoming == n.incoming && (NotOwnPeer(n) ==> NotOwnPeer(m))
            && (forall id :: id in m.seen ==> id in n.seen)
  {}

  lemma JoinedGood(net: Net, s: Step)
    requires Inv(net) && Enabled(net, s) && s.Join?
    ensures GoodPacket(Apply(net, s), Packet(net.nodes[s.at].addr, s.dst, Hello(net.nodes[s.at].id)))
  {}

  lemma OtherKeeps(net: Net, s: Step)
    requires Inv(net) && Enabled(net, s) && !s.Receive? && !s.Broadcast? && !s.Beat?
    ensures Inv(Apply(net, s))
  {
    hide Walk, GoodAcceptance, GoodDelivery, GoodPacket;
    if s.Join? {
      JoinedGood(net, s);
      LinksReal(Apply(net, s), [Packet(net.nodes[s.at].addr, s.dst, Hello(net.nodes[s.at].id))]);
    }
    InvExtends(net, Apply(net, s));
  }

  lemma StepKeeps(net: Net, s: Step)
    requires Inv(net) && Enabled(net, s)
    ensures Inv(Apply(net, s))
  {
    hide Inv, Apply, Enabled;
    if s.Broadcast? { BroadcastKeeps(net, s); }
    else if s.Receive? { ReceiveKeeps(net, s); }
    else if s.Beat? { BeatKeeps(net, s); }
    else { OtherKeeps(net, s); }
  }

  /** Every run keeps: no node in its own peer table; every share an unaltered copy of a broadcast with
      its hops accounted for; every acceptance away from the origin and within four links of it; every
      delivery a real share of another node. Losses, reordering, expiry and eviction included. */
  lemma {:induction false} RunsKeepInv(net: Net, steps: seq<Step>)
    requires Initial(net) && Possible(net, steps)
    ensures Inv(Exec(net, steps))
  {
    hide Inv, Apply, Enabled;
    if steps == [] {
      InitialInv(net);
    } else {
      var n := |steps| - 1;
      RunsKeepInv(net, steps[..n]);
      var m := Exec(net, steps[..n]);
      StepKeeps(m, steps[n]);
    }
  }

  lemma InitialInv(net: Net)
    requires Initial(net)
    ensures Inv(net)
  {}

  /** In a run, accepting a message always hands the broadcast results, under the origin's name, to the
      node's consumer, unless its queue is full. */
  lemma AcceptanceDelivers(net: Net, i: nat, order: seq<NodeId>)
    requires Inv(net) && Enabled(net, Receive(i, order))
    requires net.flight[i].dst in net.nodes && Accepts(net.nodes[net.flight[i].dst], net.flight[i].msg)
    ensures var p := net.flight[i];
            var before, after := net.nodes[p.dst].incoming, Received(net, i, order).nodes[p.dst].incoming;
            && p.msg.id in net.origins && net.origins[p.msg.id].at in net.nodes
            && var o := net.origins[p.msg.id];
               after ==
               if |before| < INCOMING_CAPACITY then before + [ScanShare(net.nodes[o.at].id, o.results)] else before
  {
    assert GoodPacket(net, net.flight[i]);
    DeliveredIff(net.nodes[net.flight[i].dst], net.flight[i].msg, net.flight[i].src, net.now);
  }

  /** What the consumer at `at` took during a run: a channel hands out its oldest entry. */
  ghost function Consumed(net: Net, steps: seq<Step>, at: Addr): seq<ScanShare>
    requires Possible(net, steps)
  {
    if steps == [] then []
    else
      var before, s := steps[..|steps| - 1], steps[|steps| - 1];
      Consumed(net, before, at)
      + if s == Take(at) then [Exec(net, before).nodes[at].incoming[0]] else []
  }

  /** What was queued for it: the shares in messages new to the node, but for its own and those that came
      while 64 were waiting. */
  ghost function Enqueued(net: Net, steps: seq<Step>, at: Addr): seq<ScanShare>
    requires Possible(net, steps)
  {
    if steps == [] then []
    else
      var before, s := steps[..|steps| - 1], steps[|steps| - 1];
      var m := Exec(net, before);
      Enqueued(net, before, at)
      + if s.Receive? && m.flight[s.i].dst == at && at in m.nodes then EnqueuedBy(m.nodes[at], m.flight[s.i].msg)
        else []
  }

  ghost function EnqueuedBy(n: Node, m: Msg): seq<ScanShare> {
    if Accepts(n, m) && m.payload.Some? && m.payload.value.nodeId != n.id && |n.incoming| < 64
    then [m.payload.value] else []
  }

  lemma HandledQueues(n: Node, m: Msg, from: Addr, now: int)
    ensures Handled(n, m, from, now).incoming == n.incoming + EnqueuedBy(n, m)
  {}

  /** The consumer gets the shares in the order in which they were queued: what it took and what still waits
      is all of them. */
  lemma {:induction false} ConsumedInOrder(net: Net, steps: seq<Step>, at: Addr)
    requires Possible(net, steps) && at in net.nodes
    ensures var end := Exec(net, steps);
            && at in end.nodes
            && Consumed(net, steps, at) + end.nodes[at].incoming == net.nodes[at].incoming + Enqueued(net, steps, at)
  {
    if steps != [] {
      hide Enabled, Apply, EnqueuedBy;
      var before, s := steps[..|steps| - 1], steps[|steps| - 1];
      ConsumedInOrder(net, before, at);
      var m := Exec(net, before);
      StepQueues(m, s, at);
      Regroup(Consumed(net, before, at), m.nodes[at].incoming, net.nodes[at].incoming, Enqueued(net, before, at),
              if s == Take(at) then [m.nodes[at].incoming[0]] else [], Apply(m, s).nodes[at].incoming,
              if s.Receive? && m.flight[s.i].dst == at then EnqueuedBy(m.nodes[at], m.flight[s.i].msg) else []);
    }
  }

  lemma Regroup<T>(taken: seq<T>, waiting: seq<T>, first: seq<T>, queued: seq<T>, head: seq<T>, rest: seq<T>,
                   more: seq<T>)
    requires taken + waiting == first + queued && head + rest == waiting + more
    ensures (taken + head) + rest == first + (queued + more)
  {
    assert (taken + head) + rest == taken + (head + rest) == (taken + waiting) + more;
  }

  lemma StepQueues(net: Net, s: Step, at: Addr)
    requires Enabled(net, s) && at in net.nodes
    ensures var after := Apply(net, s);
            && at in after.nodes
            && (if s == Take(at) then [net.nodes[at].incoming[0]] else []) + after.nodes[at].incoming ==
               net.nodes[at].incoming
               + if s.Receive? && net.flight[s.i].dst == at then EnqueuedBy(net.nodes[at], net.flight[s.i].msg) else []
  {
    hide EnqueuedBy, Handled, Outbox;
    if s.Receive? && net.flight[s.i].dst == at {
      HandledQueues(net.nodes[at], net.flight[s.i].msg, net.flight[s.i].src, net.now);
    }
  }

  // ---- four links --------------------------------------------------------------------------

  type Topology = set<(Addr, Addr)>

  ghost predicate WalkIn(l: Topology, o: Addr, k: nat, x: Addr) {
    if k == 0 then x == o
    else exists y :: (y, x) in l && WalkIn(l, o, k - 1, y)
  }

  ghost predicate Symmetric(l: Topology) { forall a, b :: (a, b) in l ==> (b, a) in l }

  /** Every peer entry, every packet and every link used lies inside the topology. */
  ghost predicate Confined(net: Net, l: Topology) {
    && (forall a, q :: a in net.nodes && q in net.nodes[a].peers ==> (a, net.nodes[a].peers[q].addr) in l)
    && (forall p :: p in net.flight ==> (p.src, p.dst) in l)
    && (forall k :: k in net.crossed ==> (k.src, k.dst) in l)
  }

  ghost predicate JoinsInside(steps: seq<Step>, l: Topology) {
    forall i :: 0 <= i < |steps| && steps[i].Join? ==> (steps[i].at, steps[i].dst) in l
  }

  lemma ReceiveConfined(net: Net, i: nat, order: seq<NodeId>, l: Topology)
    requires GoodNodes(net.nodes) && Symmetric(l) && Confined(net, l) && Enabled(net, Receive(i, order))
    ensures Confined(Received(net, i, order), l)
  {
    var p := net.flight[i];
    assert p in net.flight;
    if p.dst in net.nodes {
      var n := net.nodes[p.dst];
      var out := Outbox(n, p.msg, p.src, net.now, order);
      var peers := Refreshed(n, p.msg, p.src, net.now).peers;
      forall q | q in out ensures (q.src, q.dst) in l {
        if p.msg.Share? { InCopies(peers, order, n.addr, p.msg.(ttl := p.msg.ttl - 1), q); }
      }
    }
  }

  lemma StepConfined(net: Net, s: Step, l: Topology)
    requires GoodNodes(net.nodes) && Symmetric(l) && Confined(net, l) && Enabled(net, s)
    requires s.Join? ==> (s.at, s.dst) in l
    ensures Confined(Apply(net, s), l)
  {
    if s.Receive? {
      ReceiveConfined(net, s.i, s.order, l);
    } else if s.Broadcast? || s.Beat? {
      var n := net.nodes[s.at];
      var msg := if s.Beat? then Heartbeat(n.id) else ShareOf(n, s.id, s.results);
      forall q | q in Copies(n.peers, s.order, n.addr, msg) ensures (q.src, q.dst) in l {
        InCopies(n.peers, s.order, n.addr, msg, q);
      }
    }
  }

  lemma {:induction false} RunConfined(net: Net, steps: seq<Step>, l: Topology)
    requires Initial(net) && Possible(net, steps)
    requires Symmetric(l) && Confined(net, l) && JoinsInside(steps, l)
    ensures Confined(Exec(net, steps), l)
  {
    hide Confined, Inv;
    if steps != [] {
      var n := |steps| - 1;
      RunConfined(net, steps[..n], l);
      RunsKeepInv(net, steps[..n]);
      InvNodes(Exec(net, steps[..n]));
      StepConfined(Exec(net, steps[..n]), steps[n], l);
    }
  }

  lemma {:induction false} WalkInside(net: Net, l: Topology, id: MsgId, o: Addr, k: nat, x: Addr)
    requires Confined(net, l) && Walk(net.crossed, id, o, k, x)
    ensures WalkIn(l, o, k, x)
  {
    if k > 0 {
      var y :| Link(id, y, x) in net.crossed && Walk(net.crossed, id, o, k - 1, y);
      assert (Link(id, y, x).src, Link(id, y, x).dst) in l;
      WalkInside(net, l, id, o, k - 1, y);
    }
  }

  /** When nodes are first told of each other only along a symmetric topology, a message is accepted
      only at nodes the topology puts within four links of the origin, never at the origin itself. */
  lemma AcceptedWithinFourLinks(net: Net, steps: seq<Step>, l: Topology, a: Acceptance)
    requires Initial(net) && Possible(net, steps)
    requires Symmetric(l) && Confined(net, l) && JoinsInside(steps, l)
    requires a in Exec(net, steps).accepts
    ensures var origins := Exec(net, steps).origins;
            && a.id in origins && a.at != origins[a.id].at
            && exists k: nat :: 1 <= k <= 4 && WalkIn(l, origins[a.id].at, k, a.at)
  {
    hide GoodNodes, Confined, Possible, WalkIn, Walk, Exec, Initial, GoodPacket, GoodDelivery, RealLink, JoinsInside;
    var end := Exec(net, steps);
    RunsKeepInv(net, steps);
    RunConfined(net, steps, l);
    assert GoodAcceptance(end, a);
    var hops: nat := DEFAULT_TTL + 1 - a.ttl;
    WalkInside(end, l, a.id, end.origins[a.id].at, hops, a.at);
  }

  // ---- joining -----------------------------------------------------------------------------

  /** A node that joins another and the one it joins come to know each other: the hello makes the other list
      it at its own address and answer with exactly one hello, and the answer makes it list the other. */
  lemma JoinIntroduces(net: Net, a: Addr, b: Addr)
    requires GoodNodes(net.nodes) && a in net.nodes && b in net.nodes && a != b
    ensures Enabled(net, Join(a, b))
    ensures var joined := Apply(net, Join(a, b));
            var n := |net.flight|;
            && |joined.flight| == n + 1 && joined.flight[n].dst == b && Enabled(joined, Receive(n, []))
            && var heard := Apply(joined, Receive(n, []));
               && |heard.flight| == n + 1 && heard.flight[..n] == net.flight
               && heard.flight[n] == Packet(b, a, Hello(net.nodes[b].id)) && Enabled(heard, Receive(n, []))
               && var answered := Apply(heard, Receive(n, []));
                  && Lists(answered, a, b) && Lists(answered, b, a)
                  && answered.nodes[a].peers[net.nodes[b].id].lastSeen == net.now
  {
    var joined := Apply(net, Join(a, b));
    var n := |net.flight|;
    var heard := Apply(joined, Receive(n, []));
    assert Without(joined.flight, n) == net.flight;
    assert Without(heard.flight, n) == net.flight;
  }

  /** `a` lists the node at `b`, at that address. */
  ghost predicate Lists(net: Net, a: Addr, b: Addr) {
    && a in net.nodes && b in net.nodes
    && net.nodes[b].id in net.nodes[a].peers && net.nodes[a].peers[net.nodes[b].id].addr == b
  }

  /** A heartbeat tells every node the sender lists, at the address it is listed at, and whoever receives it
      lists the sender afresh at its own address. */
  lemma HeartbeatRefreshes(net: Net, a: Addr, b: Addr, order: seq<NodeId>)
    requires GoodNodes(net.nodes) && a in net.nodes && b in net.nodes && Lists(net, a, b)
    requires IsOrder(order, net.nodes[a].peers.Keys)
    ensures Enabled(net, Beat(a, order))
    ensures var beat := Apply(net, Beat(a, order));
            && |beat.flight| == |net.flight| + |order| && beat.flight[..|net.flight|] == net.flight
            && exists i: nat :: |net.flight| <= i < |beat.flight|
                 && beat.flight[i] == Packet(a, b, Heartbeat(net.nodes[a].id)) && Enabled(beat, Receive(i, []))
                 && var heard := Apply(beat, Receive(i, []));
                    && Lists(heard, b, a) && heard.nodes[b].peers[net.nodes[a].id].lastSeen == net.now
                    && |heard.flight| == |beat.flight| - 1
  {
    var n := net.nodes[a];
    var q := net.nodes[b].id;
    var beat := Apply(net, Beat(a, order));
    assert q in order;
    var j :| 0 <= j < |order| && order[j] == q;
    var i: nat := |net.flight| + j;
    NotAtOwnAddress(n, b);
    assert beat.flight[i] == Packet(a, b, Heartbeat(n.id));
    HeardHeartbeat(beat, i, a, b);
    assert beat.nodes[b].id == q && beat.nodes[a].id == n.id;
  }

  lemma HeardHeartbeat(net: Net, i: nat, a: Addr, b: Addr)
    requires GoodNodes(net.nodes) && a in net.nodes && b in net.nodes && a != b
    requires i < |net.flight| && net.flight[i] == Packet(a, b, Heartbeat(net.nodes[a].id))
    ensures Enabled(net, Receive(i, []))
    ensures var heard := Apply(net, Receive(i, []));
            && Lists(heard, b, a) && heard.nodes[b].peers[net.nodes[a].id].lastSeen == net.now
            && |heard.flight| == |net.flight| - 1
  {}
}
