/** One node of the gossip mesh: its peer table, its de-duplication table and its message handlers. */
module MeshNode {
  import opened Wrappers

  type NodeId = string
  type Addr = string
  type MsgId = string

  const DEFAULT_TTL: int := 3
  const SEEN_TTL: int := 300_000_000_000
  const PEER_TTL: int := 120_000_000_000
  const INCOMING_CAPACITY: int := 64

  datatype Peer = Peer(addr: Addr, lastSeen: int)

  datatype ScanShare = ScanShare(nodeId: NodeId, results: seq<string>)

  /** A share's payload is absent when it cannot be decoded. */
  datatype Msg =
    | Hello(nodeId: NodeId)
    | Heartbeat(nodeId: NodeId)
    | Share(nodeId: NodeId, id: MsgId, ttl: int, payload: Option<ScanShare>)

  datatype Packet = Packet(src: Addr, dst: Addr, msg: Msg)

  datatype Node = Node(
    id: NodeId, addr: Addr, peers: map<NodeId, Peer>, seen: map<MsgId, int>, incoming: seq<ScanShare>)

  // ---- forwarding --------------------------------------------------------------------------

  /** The peers a message goes to: all but those at the excepted address. */
  function Targets(peers: map<NodeId, Peer>, except: Addr): set<NodeId> {
    set n | n in peers && peers[n].addr != except
  }

  /** `order` visits each of `ids` once: Go fixes no order for walking a map. */
  ghost predicate IsOrder(order: seq<NodeId>, ids: set<NodeId>) {
    && (forall n :: n in order <==> n in ids)
    && (forall i, j :: 0 <= i < j < |order| ==> order[i] != order[j])
  }

  function Copies(peers: map<NodeId, Peer>, order: seq<NodeId>, src: Addr, msg: Msg): seq<Packet>
    requires forall n :: n in order ==> n in peers
  {
    seq(|order|, i requires 0 <= i < |order| => assert order[i] in order; Packet(src, peers[order[i]].addr, msg))
  }

  lemma {:induction false} OrderSize(order: seq<NodeId>, ids: set<NodeId>)
    requires IsOrder(order, ids)
    ensures |order| == |ids|
  {
    if order == [] {
      assert ids == {};
    } else {
      var n := |order| - 1;
      assert order[n] in order;
      forall x ensures x in order[..n] <==> x in ids - {order[n]} {
        if x in ids - {order[n]} { assert x in order; }
      }
      OrderSize(order[..n], ids - {order[n]});
    }
  }

  // ---- handling a message ------------------------------------------------------------------

  function Refreshed(n: Node, m: Msg, from: Addr, now: int): Node {
    n.(peers := n.peers[m.nodeId := Peer(from, now)])
  }

  /** The node takes this share for new: it is another node's and its identifier was not seen. */
  predicate Accepts(n: Node, m: Msg) {
    m.Share? && m.nodeId != n.id && (m.id == "" || m.id !in n.seen)
  }

  function Marked(n: Node, id: MsgId, now: int): Node {
    if id == "" || id in n.seen then n else n.(seen := n.seen[id := now])
  }

  function Delivered(n: Node, payload: Option<ScanShare>): Node {
    if payload.Some? && payload.value.nodeId != n.id && |n.incoming| < INCOMING_CAPACITY
    then n.(incoming := n.incoming + [payload.value])
    else n
  }

  /** The node after `handleMsg`. */
  function Handled(n: Node, m: Msg, from: Addr, now: int): Node {
    if m.nodeId == n.id then n
    else
      var r := Refreshed(n, m, from, now);
      if Accepts(n, m) then Delivered(Marked(r, m.id, now), m.payload) else r
  }

  /** The peers `handleMsg` forwards to. */
  function ForwardsTo(n: Node, m: Msg, from: Addr, now: int): set<NodeId> {
    if Accepts(n, m) && m.ttl > 0 then Targets(Refreshed(n, m, from, now).peers, from) else {}
  }

  /** What `handleMsg` sends, given the order in which it walks the peer table. */
  function Outbox(n: Node, m: Msg, from: Addr, now: int, order: seq<NodeId>): seq<Packet>
    requires IsOrder(order, ForwardsTo(n, m, from, now))
  {
    if m.nodeId == n.id then []
    else match m
         case Hello(_) => [Packet(n.addr, from, Hello(n.id))]
         case Heartbeat(_) => []
         case Share(_, _, ttl, _) =>
           Copies(Refreshed(n, m, from, now).peers, order, n.addr, m.(ttl := ttl - 1))
  }

  /** A full delivery queue drops the local copy and nothing else. */
  lemma BackpressureKeepsForwarding(n: Node, m: Msg, from: Addr, now: int)
    ensures var room := n.(incoming := []);
            && Handled(n, m, from, now).peers == Handled(room, m, from, now).peers
            && Handled(n, m, from, now).seen == Handled(room, m, from, now).seen
            && ForwardsTo(n, m, from, now) == ForwardsTo(room, m, from, now)
            && (forall order | IsOrder(order, ForwardsTo(n, m, from, now)) ::
                  Outbox(n, m, from, now, order) == Outbox(room, m, from, now, order))
  {}

  // ---- the heartbeat tick ------------------------------------------------------------------

  function Evicted(n: Node, now: int): Node {
    n.(peers := map p | p in n.peers && now - n.peers[p].lastSeen <= PEER_TTL :: n.peers[p],
       seen := map s | s in n.seen && now - n.seen[s] <= SEEN_TTL :: n.seen[s])
  }

  /** `out` holds one packet for each peer not at the address the message came from, in some order: the
      message with one hop less, from here to that peer's address. */
  ghost predicate PassedOn(peers: map<NodeId, Peer>, order: seq<NodeId>, from: Addr, out: seq<Packet>, here: Addr,
                           msg: Msg)
    requires msg.Share?
  {
    && IsOrder(order, set n | n in peers && peers[n].addr != from)
    && |out| == |order|
    && (forall i :: 0 <= i < |out| ==>
          order[i] in peers
          && out[i] == Packet(here, peers[order[i]].addr, Share(msg.nodeId, msg.id, msg.ttl - 1, msg.payload)))
  }

  // ---- the node object ---------------------------------------------------------------------

  class Mesh {
    const nodeID: NodeId
    const addr: Addr
    var peers: map<NodeId, Peer>
    var seen: map<MsgId, int>
    var incoming: seq<ScanShare>
    var sent: seq<Packet>

    function Current(): Node
      reads this
    {
      Node(nodeID, addr, peers, seen, incoming)
    }

    constructor (id: NodeId, at: Addr)
      ensures Current() == Node(id, at, map[], map[], []) && sent == []
    {
      nodeID, addr := id, at;
      peers, seen, incoming, sent := map[], map[], [], [];
    }

    /** True when the identifier was seen before; otherwise remembers it. */
    method MarkSeen(id: MsgId, now: int) returns (already: bool)
      modifies this`seen
      ensures already <==> id in old(seen)
      ensures seen == if id in old(seen) then old(seen) else old(seen)[id := now]
    {
      if id in seen { return true; }
      seen := seen[id := now];
      return false;
    }

    /** One copy to every peer not at the excepted address. */
    method Forward(msg: Msg, except: Addr) returns (ghost order: seq<NodeId>)
      modifies this`sent
      ensures IsOrder(order, Targets(peers, except))
      ensures sent == old(sent) + Copies(peers, order, addr, msg)
    {
      order := [];
      var rest := Targets(peers, except);
      while rest != {}
        invariant rest <= Targets(peers, except)
        invariant IsOrder(order, Targets(peers, except) - rest)
        invariant sent == old(sent) + Copies(peers, order, addr, msg)
      {
        var n :| n in rest;
        sent := sent + [Packet(addr, peers[n].addr, msg)];
        ghost var more := order + [n];
        assert Copies(peers, more, addr, msg) == Copies(peers, order, addr, msg) + [Packet(addr, peers[n].addr, msg)];
        assert forall x :: x in more <==> x in Targets(peers, except) - (rest - {n});
        order, rest := more, rest - {n};
      }
    }

    method Broadcast(id: MsgId, results: seq<string>, now: int) returns (ghost order: seq<NodeId>)
      requires id != ""
      modifies this`seen, this`sent
      ensures Current() == Marked(old(Current()), id, now)
      ensures IsOrder(order, Targets(peers, ""))
      ensures sent == old(sent) +
                      Copies(peers, order, addr, Share(nodeID, id, DEFAULT_TTL, Some(ScanShare(nodeID, results))))
    {
      var _ := MarkSeen(id, now);
      order := Forward(Share(nodeID, id, DEFAULT_TTL, Some(ScanShare(nodeID, results))), "");
    }

    method HandleMsg(msg: Msg, from: Addr, now: int) returns (ghost order: seq<NodeId>)
      modifies this
      ensures Current() == Handled(old(Current()), msg, from, now)
      ensures IsOrder(order, ForwardsTo(old(Current()), msg, from, now))
      ensures sent == old(sent) + Outbox(old(Current()), msg, from, now, order)
      ensures msg.nodeId == nodeID ==> sent == old(sent) && Current() == old(Current())
      ensures msg.nodeId != nodeID ==> peers == old(peers)[msg.nodeId := Peer(from, now)]
      ensures msg.Hello? && msg.nodeId != nodeID ==> sent == old(sent) + [Packet(addr, from, Hello(nodeID))]
      ensures msg.Heartbeat? ==> sent == old(sent)
      ensures !msg.Share? ==> seen == old(seen) && incoming == old(incoming)
      ensures msg.Share? && msg.nodeId != nodeID ==>
                var isNew := msg.id == "" || msg.id !in old(seen);
                && seen == (if msg.id == "" || !isNew then old(seen) else old(seen)[msg.id := now])
                && incoming == (if isNew && msg.payload.Some? && msg.payload.value.nodeId != nodeID
                                   && |old(incoming)| < 64
                                then old(incoming) + [msg.payload.value] else old(incoming))
                && (if isNew && msg.ttl > 0 then PassedOn(peers, order, from, sent[|old(sent)|..], addr, msg)
                    else sent == old(sent))
    {
      order := [];
      if msg.nodeId == nodeID { return; }
      peers := peers[msg.nodeId := Peer(from, now)];
      match msg {
        case Hello(_) => sent := sent + [Packet(addr, from, Hello(nodeID))];
        case Heartbeat(_) =>
        case Share(_, id, ttl, payload) =>
          if id != "" {
            var already := MarkSeen(id, now);
            if already { return; }
          }
          if payload.Some? && payload.value.nodeId != nodeID && |incoming| < INCOMING_CAPACITY {
            incoming := incoming + [payload.value];
          }
          if ttl > 0 {
            order := Forward(msg.(ttl := ttl - 1), from);
            assert sent[|old(sent)|..] == Copies(peers, order, addr, msg.(ttl := ttl - 1));
            assert forall i :: 0 <= i < |order| ==> order[i] in order;
          }
      }
    }

    /** Heartbeats go out first, then stale peers and old identifiers are dropped. */
    method HeartbeatTick(now: int) returns (ghost order: seq<NodeId>)
      modifies this
      ensures Current() == Evicted(old(Current()), now)
      ensures IsOrder(order, old(peers).Keys)
      ensures sent == old(sent) + Copies(old(peers), order, addr, Heartbeat(nodeID))
      ensures forall p :: p in peers <==> p in old(peers) && now - old(peers)[p].lastSeen <= 120 * 1_000_000_000
      ensures forall id :: id in seen <==> id in old(seen) && now - old(seen)[id] <= 5 * 60 * 1_000_000_000
    {
      var rest := peers.Keys;
      order := [];
      while rest != {}
        invariant rest <= peers.Keys
        invariant IsOrder(order, peers.Keys - rest)
        invariant sent == old(sent) + Copies(peers, order, addr, Heartbeat(nodeID))
        invariant Current() == old(Current())
      {
        var n :| n in rest;
        sent := sent + [Packet(addr, peers[n].addr, Heartbeat(nodeID))];
        ghost var more := order + [n];
        assert Copies(peers, more, addr, Heartbeat(nodeID)) ==
               Copies(peers, order, addr, Heartbeat(nodeID)) + [Packet(addr, peers[n].addr, Heartbeat(nodeID))];
        assert forall x :: x in more <==> x in peers.Keys - (rest - {n});
        order, rest := more, rest - {n};
      }
      DropStalePeers(now);
      DropOldIds(now);
    }

    method DropStalePeers(now: int)
      modifies this`peers
      ensures peers == map p | p in old(peers) && now - old(peers)[p].lastSeen <= PEER_TTL :: old(peers)[p]
    {
      var was := peers;
      var rest := was.Keys;
      while rest != {}
        invariant rest <= was.Keys
        invariant peers == map p | p in was && (p in rest || now - was[p].lastSeen <= PEER_TTL) :: was[p]
      {
        var p :| p in rest;
        if now - was[p].lastSeen > PEER_TTL { peers := peers - {p}; }
        rest := rest - {p};
      }
    }

    method DropOldIds(now: int)
      modifies this`seen
      ensures seen == map s | s in old(seen) && now - old(seen)[s] <= SEEN_TTL :: old(seen)[s]
    {
      var was := seen;
      var rest := was.Keys;
      while rest != {}
        invariant rest <= was.Keys
        invariant seen == map s | s in was && (s in rest || now - was[s] <= SEEN_TTL) :: was[s]
      {
        var s :| s in rest;
        if now - was[s] > SEEN_TTL { seen := seen - {s}; }
        rest := rest - {s};
      }
    }
  }

  // ---- de-duplication over time ------------------------------------------------------------

  /** What can happen at a node; messages may be anything the network brings. */
  datatype Input =
    | Message(now: int, m: Msg, from: Addr)
    | Announce(now: int, id: MsgId)
    | Tick(now: int)

  function Next(n: Node, input: Input): Node {
    match input
    case Message(now, m, from) => Handled(n, m, from, now)
    case Announce(now, id) => Marked(n, id, now)
    case Tick(now) => Evicted(n, now)
  }

  function After(n: Node, inputs: seq<Input>): Node {
    if inputs == [] then n else Next(After(n, inputs[..|inputs| - 1]), inputs[|inputs| - 1])
  }

  ghost predicate TimeFlows(inputs: seq<Input>) {
    forall i, j :: 0 <= i < j < |inputs| ==> inputs[i].now <= inputs[j].now
  }

  /** Input `i` is the acceptance of a share with identifier `id`. */
  predicate AcceptsAt(n: Node, inputs: seq<Input>, i: nat, id: MsgId)
    requires i < |inputs|
  {
    inputs[i].Message? && inputs[i].m.Share? && inputs[i].m.id == id && Accepts(After(n, inputs[..i]), inputs[i].m)
  }

  /** Somewhere after input `i`, a tick found the identifier accepted there expired. */
  ghost predicate ExpiredSince(inputs: seq<Input>, i: nat)
    requires i < |inputs|
  {
    exists k :: i < k < |inputs| && inputs[k].Tick? && inputs[k].now - inputs[i].now > SEEN_TTL
  }

  lemma JustRemembered(n: Node, input: Input, id: MsgId)
    requires input.Message? && input.m.Share? && input.m.id == id && id != "" && Accepts(n, input.m)
    ensures id in Next(n, input).seen && Next(n, input).seen[id] == input.now
  {}

  lemma StillRemembered(n: Node, input: Input, id: MsgId, since: int)
    requires id in n.seen && n.seen[id] >= since
    ensures var t := Next(n, input);
            (id in t.seen && t.seen[id] >= since) || (input.Tick? && input.now - since > SEEN_TTL)
  {}

  lemma SameAcceptance(n: Node, inputs: seq<Input>, i: nat, id: MsgId)
    requires i < |inputs| - 1 && AcceptsAt(n, inputs, i, id)
    ensures AcceptsAt(n, inputs[..|inputs| - 1], i, id)
  {
    assert inputs[..|inputs| - 1][..i] == inputs[..i];
  }

  /** After an acceptance the identifier is remembered, at least as recently, until a tick finds it
      expired. */
  lemma {:induction false} RememberedUntilExpiry(n: Node, inputs: seq<Input>, i: nat, id: MsgId)
    requires i < |inputs| && TimeFlows(inputs) && id != "" && AcceptsAt(n, inputs, i, id)
    ensures var s := After(n, inputs).seen;
            (id in s && s[id] >= inputs[i].now) || ExpiredSince(inputs, i)
  {
    var last := |inputs| - 1;
    var before := After(n, inputs[..last]);
    if i == last {
      JustRemembered(before, inputs[last], id);
    } else {
      hide Next, AcceptsAt;
      assert inputs[..last][..i] == inputs[..i];
      SameAcceptance(n, inputs, i, id);
      RememberedUntilExpiry(n, inputs[..last], i, id);
      if id in before.seen && before.seen[id] >= inputs[i].now {
        StillRemembered(before, inputs[last], id, inputs[i].now);
        if id !in After(n, inputs).seen || After(n, inputs).seen[id] < inputs[i].now { assert ExpiredSince(inputs, i); }
      } else if k :| i < k < last && inputs[..last][k].Tick? && inputs[..last][k].now - inputs[i].now > SEEN_TTL {
        assert inputs[k] == inputs[..last][k];
        assert ExpiredSince(inputs, i);
      }
    }
  }

  /** Two acceptances of one non-empty identifier at one node are more than the remembering time
      apart, with an expiry tick between them, whatever else the node is sent. */
  lemma AcceptancesAreSpaced(n: Node, inputs: seq<Input>, i: nat, j: nat, id: MsgId)
    requires i < j < |inputs| && TimeFlows(inputs) && id != ""
    requires AcceptsAt(n, inputs, i, id) && AcceptsAt(n, inputs, j, id)
    ensures inputs[j].now - inputs[i].now > SEEN_TTL
    ensures exists k :: i < k < j && inputs[k].Tick? && inputs[k].now - inputs[i].now > SEEN_TTL
  {
    assert inputs[..j][..i] == inputs[..i];
    RememberedUntilExpiry(n, inputs[..j], i, id);
    var k :| i < k < j && inputs[..j][k].Tick? && inputs[..j][k].now - inputs[i].now > SEEN_TTL;
    assert inputs[k] == inputs[..j][k];
  }

  /** Input `i` enters the identifier into the table: an acceptance, or the node's own announcement. */
  predicate NotesAt(n: Node, inputs: seq<Input>, i: nat, id: MsgId)
    requires i < |inputs|
  {
    AcceptsAt(n, inputs, i, id) || (inputs[i].Announce? && inputs[i].id == id && id !in After(n, inputs[..i]).seen)
  }

  ghost predicate StillNoted(n: Node, inputs: seq<Input>, id: MsgId, i: int) {
    && 0 <= i < |inputs| && NotesAt(n, inputs, i, id)
    && forall k :: i < k < |inputs| && inputs[k].Tick? ==> inputs[k].now - inputs[i].now <= SEEN_TTL
  }

  lemma StillNotedStep(n: Node, inputs: seq<Input>, id: MsgId, i: int)
    requires inputs != [] && 0 <= i < |inputs| - 1
    ensures var last := inputs[|inputs| - 1];
            StillNoted(n, inputs, id, i) <==>
              StillNoted(n, inputs[..|inputs| - 1], id, i) && (last.Tick? ==> last.now - inputs[i].now <= SEEN_TTL)
  {
    var front := inputs[..|inputs| - 1];
    assert front[..i] == inputs[..i];
    assert forall k :: 0 <= k < |front| ==> front[k] == inputs[k];
  }

  /** The de-duplication table holds exactly the identifiers noted and not expired since, with the time
      they were noted. */
  lemma {:induction false} SeenTableIs(n: Node, inputs: seq<Input>, id: MsgId)
    requires n.seen == map[] && id != ""
    ensures var seen := After(n, inputs).seen;
            && After(n, inputs).id == n.id
            && (id in seen <==> exists i :: StillNoted(n, inputs, id, i))
            && (forall i :: StillNoted(n, inputs, id, i) ==> id in seen && seen[id] == inputs[i].now)
  {
    if inputs != [] {
      var last := |inputs| - 1;
      var front := inputs[..last];
      SeenTableIs(n, front, id);
      SeenStep(n, inputs, id);
    }
  }

  /** One input enters an identifier, expires it or leaves it. */
  lemma NextSeen(n: Node, input: Input, id: MsgId)
    requires id != ""
    ensures var t := Next(n, input);
            var enters := (input.Message? && input.m.Share? && input.m.id == id && Accepts(n, input.m))
                          || (input.Announce? && input.id == id && id !in n.seen);
            && t.id == n.id
            && (enters ==> id !in n.seen && id in t.seen && t.seen[id] == input.now)
            && (!enters ==>
                  (id in t.seen <==> id in n.seen && (input.Tick? ==> input.now - n.seen[id] <= SEEN_TTL))
                  && (id in t.seen ==> t.seen[id] == n.seen[id]))
  {}

  lemma SeenStep(n: Node, inputs: seq<Input>, id: MsgId)
    requires inputs != [] && id != ""
    requires var front := inputs[..|inputs| - 1];
             var seen := After(n, front).seen;
             && After(n, front).id == n.id
             && (id in seen <==> exists i :: StillNoted(n, front, id, i))
             && (forall i :: StillNoted(n, front, id, i) ==> id in seen && seen[id] == front[i].now)
    ensures var seen := After(n, inputs).seen;
            && After(n, inputs).id == n.id
            && (id in seen <==> exists i :: StillNoted(n, inputs, id, i))
            && (forall i :: StillNoted(n, inputs, id, i) ==> id in seen && seen[id] == inputs[i].now)
  {
    hide StillNoted, Next, Accepts;
    var last := |inputs| - 1;
    var front := inputs[..last];
    NotedBounds(n, inputs, id);
    NotedBounds(n, front, id);
    NextSeen(After(n, front), inputs[last], id);
    JustNoted(n, inputs, id);
    forall i | 0 <= i < last
      ensures front[i] == inputs[i]
      ensures StillNoted(n, inputs, id, i) <==>
                StillNoted(n, front, id, i) && (inputs[last].Tick? ==> inputs[last].now - inputs[i].now <= SEEN_TTL)
    {
      StillNotedStep(n, inputs, id, i);
    }
    if id in After(n, front).seen { var i :| StillNoted(n, front, id, i); }
  }

  lemma NotedBounds(n: Node, inputs: seq<Input>, id: MsgId)
    ensures forall i :: StillNoted(n, inputs, id, i) ==> 0 <= i < |inputs|
  {}

  lemma JustNoted(n: Node, inputs: seq<Input>, id: MsgId)
    requires inputs != []
    ensures StillNoted(n, inputs, id, |inputs| - 1) <==> NotesAt(n, inputs, |inputs| - 1, id)
  {}

  // ---- what is delivered -------------------------------------------------------------------

  /** The consumer is handed a share exactly when it is accepted, readable, not the node's own and the
      queue has room; nothing else ever joins the queue. */
  lemma DeliveredIff(n: Node, m: Msg, from: Addr, now: int)
    ensures var h := Handled(n, m, from, now);
            if Accepts(n, m) && m.payload.Some? && m.payload.value.nodeId != n.id && |n.incoming| < INCOMING_CAPACITY
            then h.incoming == n.incoming + [m.payload.value]
            else h.incoming == n.incoming
  {}

  // ---- the peer table over time ------------------------------------------------------------

  /** Input `i` is a message from node `q`, the last one so far, and no tick since then found it stale. */
  ghost predicate HeardLast(n: Node, inputs: seq<Input>, q: NodeId, i: int) {
    && 0 <= i < |inputs| && inputs[i].Message? && inputs[i].m.nodeId == q && q != n.id
    && (forall k :: i < k < |inputs| && inputs[k].Message? ==> inputs[k].m.nodeId != q)
    && (forall k :: i < k < |inputs| && inputs[k].Tick? ==> inputs[k].now - inputs[i].now <= PEER_TTL)
  }

  lemma HeardLastStep(n: Node, inputs: seq<Input>, q: NodeId, i: int)
    requires inputs != [] && 0 <= i < |inputs| - 1
    ensures var last := inputs[|inputs| - 1];
            HeardLast(n, inputs, q, i) <==>
              && HeardLast(n, inputs[..|inputs| - 1], q, i)
              && (last.Message? ==> last.m.nodeId != q)
              && (last.Tick? ==> last.now - inputs[i].now <= PEER_TTL)
  {
    var front := inputs[..|inputs| - 1];
    assert forall k :: 0 <= k < |front| ==> front[k] == inputs[k];
  }

  /** A node's table holds exactly the nodes it has heard from and not found stale since, each at the
      address its last message came from. */
  lemma {:induction false} PeerTableIs(n: Node, inputs: seq<Input>, q: NodeId)
    requires n.peers == map[]
    ensures var peers := After(n, inputs).peers;
            && After(n, inputs).id == n.id
            && (q in peers <==> exists i :: HeardLast(n, inputs, q, i))
            && (forall i :: HeardLast(n, inputs, q, i) ==>
                  q in peers && peers[q] == Peer(inputs[i].from, inputs[i].now))
  {
    if inputs != [] {
      var last := |inputs| - 1;
      PeerTableIs(n, inputs[..last], q);
      forall i | 0 <= i < last
        ensures HeardLast(n, inputs, q, i) <==>
                  && HeardLast(n, inputs[..last], q, i)
                  && (inputs[last].Message? ==> inputs[last].m.nodeId != q)
                  && (inputs[last].Tick? ==> inputs[last].now - inputs[i].now <= PEER_TTL)
      {
        HeardLastStep(n, inputs, q, i);
      }
      PeerStep(n, inputs, q);
    }
  }

  lemma PeerStep(n: Node, inputs: seq<Input>, q: NodeId)
    requires inputs != []
    requires var front := inputs[..|inputs| - 1];
             var peers := After(n, front).peers;
             && After(n, front).id == n.id
             && (q in peers <==> exists i :: HeardLast(n, front, q, i))
             && (forall i :: HeardLast(n, front, q, i) ==> q in peers && peers[q] == Peer(front[i].from, front[i].now))
    requires forall i :: 0 <= i < |inputs| - 1 ==>
               (HeardLast(n, inputs, q, i) <==>
                  && HeardLast(n, inputs[..|inputs| - 1], q, i)
                  && (inputs[|inputs| - 1].Message? ==> inputs[|inputs| - 1].m.nodeId != q)
                  && (inputs[|inputs| - 1].Tick? ==> inputs[|inputs| - 1].now - inputs[i].now <= PEER_TTL))
    ensures var peers := After(n, inputs).peers;
            && After(n, inputs).id == n.id
            && (q in peers <==> exists i :: HeardLast(n, inputs, q, i))
            && (forall i :: HeardLast(n, inputs, q, i) ==>
                  q in peers && peers[q] == Peer(inputs[i].from, inputs[i].now))
  {
    hide HeardLast;
    var last := |inputs| - 1;
    var front := inputs[..last];
    var before := After(n, front).peers;
    HeardBounds(n, front, q);
    HeardBounds(n, inputs, q);
    if inputs[last].Message? && inputs[last].m.nodeId == q && q != n.id {
      JustHeard(n, inputs, q);
    } else if q in before {
      var i :| HeardLast(n, front, q, i);
      assert front[i] == inputs[i];
    }
  }

  lemma HeardBounds(n: Node, inputs: seq<Input>, q: NodeId)
    ensures forall i :: HeardLast(n, inputs, q, i) ==>
              0 <= i < |inputs| && inputs[i].Message? && inputs[i].m.nodeId == q && q != n.id
  {}

  lemma JustHeard(n: Node, inputs: seq<Input>, q: NodeId)
    requires inputs != [] && inputs[|inputs| - 1].Message? && inputs[|inputs| - 1].m.nodeId == q && q != n.id
    ensures HeardLast(n, inputs, q, |inputs| - 1)
  {}

  /** Where a broadcast goes: to an address exactly when some node's last message, not found stale since,
      came from there. A share that was forwarded bears its origin's name, so it moves the origin to the
      forwarder's address, and the origin gets the next broadcast at its own address only if that node's,
      or another node's, last message came straight from there. */
  lemma BroadcastGoesTo(n: Node, inputs: seq<Input>, order: seq<NodeId>, msg: Msg, x: Addr)
    requires n.peers == map[] && x != ""
    requires IsOrder(order, Targets(After(n, inputs).peers, ""))
    ensures (exists p :: p in Copies(After(n, inputs).peers, order, n.addr, msg) && p.dst == x) <==>
              exists q, i :: HeardLast(n, inputs, q, i) && inputs[i].from == x
  {
    hide After;
    var peers := After(n, inputs).peers;
    var out := Copies(peers, order, n.addr, msg);
    if p :| p in out && p.dst == x {
      var j :| 0 <= j < |out| && out[j] == p;
      assert order[j] in order;
      PeerTableIs(n, inputs, order[j]);
    }
    if q, i :| HeardLast(n, inputs, q, i) && inputs[i].from == x {
      PeerTableIs(n, inputs, q);
      assert q in order;
      var j :| 0 <= j < |order| && order[j] == q;
      assert out[j].dst == x && out[j] in out;
    }
  }
}
