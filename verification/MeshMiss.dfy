/** Why the four-link promise needs copies to be sent in the order in which they fall due: a mesh in which
    the origin's second send is late. All copies arrive in the order in which they were sent, but the one
    that took the long way round comes first, uses up the message's hops, and leaves a node two links away
    without it. */
module MeshMiss {
  import opened Wrappers
  import opened MeshNode
  import opened MeshNet
  import opened MeshFlood
  import opened MeshCoverage
  import opened MeshSends

  const NAMES: set<Addr> := {"o", "a", "b", "c", "d", "x"}

  /** Who lists whom: o knows a and b; b, c, d, a form a detour; only a knows x. */
  function Lists(z: Addr): set<NodeId> {
    if z == "o" then {"a", "b"}
    else if z == "a" then {"x"}
    else if z == "b" then {"c"}
    else if z == "c" then {"d"}
    else if z == "d" then {"a"}
    else {}
  }

  function NodeAt(z: Addr): Node {
    Node(z, z, map q | q in Lists(z) :: Peer(q, 0), map[], [])
  }

  function Before(): Net {
    Net(map z | z in NAMES :: NodeAt(z), [], 0, map[], {}, [])
  }

  function Announcement(): Step { Broadcast("o", "m", [], ["b", "a"]) }

  function Copy(src: Addr, dst: Addr, ttl: int): Packet {
    Packet(src, dst, Share("o", "m", ttl, Some(ScanShare("o", []))))
  }

  lemma BeforeIsGood()
    ensures Inv(Before()) && Initial(Before())
  {
    hide NAMES, Lists, GoodNodes, GoodPacket, GoodAcceptance, GoodDelivery;
    BeforeNodes();
    NodesAreGood();
  }

  lemma NodesAreGood()
    ensures GoodNodes(Before().nodes)
  {
    hide Lists, Before;
    BeforeNodes();
    forall z | z in Before().nodes ensures z in NAMES && NotOwnPeer(NodeAt(z)) { NamesOf(z); ListsOthers(z); }
  }

  lemma NamesOf(z: Addr)
    ensures z in Before().nodes <==> z in NAMES
  {}

  lemma ListsOthers(z: Addr)
    ensures z !in Lists(z)
  {}

  /** The tables are as at the start, but for entries about the origin. */
  ghost predicate TablesKept(nodes: map<Addr, Node>) {
    && nodes.Keys == NAMES
    && forall z, q :: z in NAMES && q != "o" ==>
         (q in nodes[z].peers <==> q in Lists(z)) && (q in Lists(z) ==> nodes[z].peers[q].addr == q)
  }

  /** Where the message is: the copies in flight and the nodes that know it. */
  ghost predicate At(net: Net, flight: seq<Packet>, knowing: set<Addr>) {
    && net.flight == flight && net.now == 0 && TablesKept(net.nodes)
    && (forall z :: z in NAMES ==>
          net.nodes[z].id == z && net.nodes[z].addr == z && ("m" in net.nodes[z].seen <==> z in knowing))
    && (forall a :: a in net.accepts ==> a.at in knowing)
  }

  lemma KeptIsSame(net: Net)
    requires TablesKept(net.nodes)
    ensures SameTables(Before(), net, "o")
  {
    hide Lists, NAMES;
    assert forall z :: z in NAMES ==> Before().nodes[z] == NodeAt(z);
  }

  lemma BeforeKept()
    ensures TablesKept(Before().nodes)
  {
    hide Lists, NAMES;
    assert forall z :: z in NAMES ==> Before().nodes[z] == NodeAt(z);
  }

  lemma AnnouncementGoesOut()
    ensures var n := Before().nodes["o"];
            && n == NodeAt("o") && Targets(n.peers, "") == {"a", "b"} && IsOrder(["b", "a"], {"a", "b"})
            && Copies(n.peers, ["b", "a"], n.addr, ShareOf(n, "m", [])) == [Copy("o", "b", 3), Copy("o", "a", 3)]
  {
    var n := NodeAt("o");
    assert Before().nodes["o"] == n;
    assert Targets(n.peers, "") == {"a", "b"};
  }

  lemma CopiesFallDue()
    ensures Enabled(Before(), Announcement())
    ensures At(Apply(Before(), Announcement()), [Copy("o", "b", 3), Copy("o", "a", 3)], {"o"})
  {
    hide TablesKept, Copies, Targets, IsOrder, Lists, NAMES, Copy, LinksOf;
    BeforeKept();
    BeforeNodes();
    AnnouncementGoesOut();
    MarkedKept(Before().nodes, "o", "m");
  }

  lemma BeforeNodes()
    ensures "o" in NAMES && forall z :: z in NAMES ==> z in Before().nodes && Before().nodes[z] == NodeAt(z)
  {}

  lemma MarkedKept(nodes: map<Addr, Node>, at: Addr, id: MsgId)
    requires TablesKept(nodes) && at in nodes
    ensures TablesKept(nodes[at := Marked(nodes[at], id, 0)])
  {
    hide Lists, NAMES;
  }

  /** A copy that has just reached a node other than the origin, from someone it does not list. */
  ghost predicate Arriving(p: Packet) {
    && p.dst in NAMES && p.msg.Share? && p == Copy(p.src, p.dst, p.msg.ttl)
    && p.dst != "o" && p.src !in Lists(p.dst) && "o" !in Lists(p.dst)
  }

  lemma HandledKept(nodes: map<Addr, Node>, p: Packet)
    requires TablesKept(nodes) && Arriving(p) && nodes[p.dst].id == p.dst
    ensures TablesKept(nodes[p.dst := Handled(nodes[p.dst], p.msg, p.src, 0)])
  {
    hide Lists, NAMES;
  }

  /** A newly reached node passes the message to everyone it lists, if hops are left. */
  lemma PassesTo(nodes: map<Addr, Node>, p: Packet)
    requires TablesKept(nodes) && Arriving(p) && nodes[p.dst].id == p.dst && "m" !in nodes[p.dst].seen
    ensures Accepts(nodes[p.dst], p.msg)
    ensures ForwardsTo(nodes[p.dst], p.msg, p.src, 0) == if p.msg.ttl > 0 then Lists(p.dst) else {}
    ensures forall q :: q in Lists(p.dst) ==>
              q in Refreshed(nodes[p.dst], p.msg, p.src, 0).peers &&
                Refreshed(nodes[p.dst], p.msg, p.src, 0).peers[q].addr == q
  {
    hide Lists, NAMES;
  }

  /** A node hears the message for the first time and passes it to its one peer, if hops are left. */
  lemma FirstHearing(net: Net, flight: seq<Packet>, knowing: set<Addr>, i: nat, next: seq<NodeId>)
    requires At(net, flight, knowing) && i < |flight| && Arriving(flight[i])
    requires var p := flight[i];
             p.dst !in knowing && |next| <= 1 && IsOrder(next, if p.msg.ttl > 0 then Lists(p.dst) else {})
    ensures Enabled(net, Receive(i, next))
    ensures var p := flight[i];
            var out := if next == [] then [] else [Copy(p.dst, next[0], p.msg.ttl - 1)];
            At(Received(net, i, next), Without(flight, i) + out, knowing + {p.dst})
  {
    hide Lists, NAMES, TablesKept;
    var p := flight[i];
    KeysKept(net.nodes);
    var n := net.nodes[p.dst];
    PassesTo(net.nodes, p);
    HandledKept(net.nodes, p);
    var out := Outbox(n, p.msg, p.src, 0, next);
    if next != [] {
      assert next[0] in next;
      assert out == [Copy(p.dst, next[0], p.msg.ttl - 1)];
    } else {
      assert out == [];
    }
  }

  lemma KeysKept(nodes: map<Addr, Node>)
    requires TablesKept(nodes)
    ensures nodes.Keys == NAMES
  {}

  /** A node that knows the message takes another copy and sends nothing. */
  lemma HeardAgain(net: Net, flight: seq<Packet>, knowing: set<Addr>, i: nat)
    requires At(net, flight, knowing) && i < |flight| && Arriving(flight[i]) && flight[i].dst in knowing
    ensures Enabled(net, Receive(i, []))
    ensures At(Received(net, i, []), Without(flight, i), knowing)
  {
    hide Lists, NAMES, TablesKept;
    var p := flight[i];
    KeysKept(net.nodes);
    var n := net.nodes[p.dst];
    HandledKept(net.nodes, p);
    assert ForwardsTo(n, p.msg, p.src, 0) == {};
    assert Outbox(n, p.msg, p.src, 0, []) == [];
    assert Received(net, i, []).flight == Without(flight, i) + [];
  }

  // ---- the run -----------------------------------------------------------------------------

  /** The origin's copy for a, which waits while the other one goes round. */
  function Late(): Due { Due(0, false, Copy("o", "a", 3)) }

  /** The copies of the detour, and whom each makes its receiver send to. */
  function Lap(k: nat): Packet
    requires k < 4
  {
    if k == 0 then Copy("o", "b", 3) else if k == 1 then Copy("b", "c", 2)
    else if k == 2 then Copy("c", "d", 1) else Copy("d", "a", 0)
  }

  function Hop(k: nat): seq<NodeId> {
    if k == 0 then ["c"] else if k == 1 then ["d"] else if k == 2 then ["a"] else []
  }

  function Knowing(k: nat): set<Addr> {
    {"o"} + (if k >= 1 then {"b"} else {}) + (if k >= 2 then {"c"} else {})
    + (if k >= 3 then {"d"} else {}) + (if k >= 4 then {"a"} else {})
  }

  /** What is sent and what is still to be sent. */
  ghost predicate Shows(w: Wire, flight: seq<Packet>, due: seq<Due>, batches: nat, knowing: set<Addr>) {
    At(w.net, flight, knowing) && w.due == due && w.batches == batches
  }

  /** Copy `k` of the detour is on its way, or, past the last one, none. */
  ghost predicate Lapping(w: Wire, k: nat)
    requires k <= 4
  {
    Shows(w, if k < 4 then [Lap(k)] else [], [Late()], k + 1, Knowing(k))
  }

  /** What each copy meets. */
  lemma LapIs(k: nat)
    requires k < 4
    ensures Arriving(Lap(k)) && Lap(k).dst !in Knowing(k) && Lap(k).dst != "o"
    ensures |Hop(k)| <= 1 && IsOrder(Hop(k), if Lap(k).msg.ttl > 0 then Lists(Lap(k).dst) else {})
    ensures Knowing(k) + {Lap(k).dst} == Knowing(k + 1)
    ensures if k < 3 then Hop(k) != [] && Copy(Lap(k).dst, Hop(k)[0], Lap(k).msg.ttl - 1) == Lap(k + 1)
            else Hop(k) == []
  {
    hide IsOrder;
    if k < 3 { SingleOrder(Hop(k)[0], Lists(Lap(k).dst)); } else { EmptyOrder(); }
  }

  lemma SingleOrder(q: NodeId, ids: set<NodeId>)
    requires ids == {q}
    ensures IsOrder([q], ids)
  {}

  lemma EmptyOrder()
    ensures IsOrder([], {})
  {}

  /** The origin has decided whom to tell. */
  lemma AnnouncedShows()
    ensures Enabled(Before(), Announcement())
    ensures var due := [Due(0, false, Copy("o", "b", 3)), Late()];
            Shows(Announced(Before(), Announcement()), [], due, 1, {"o"})
  {
    hide At, TablesKept, Before, Copy;
    CopiesFallDue();
    var after := Apply(Before(), Announcement());
    BeforeFlight();
    AtFlight(after, [Copy("o", "b", 3), Copy("o", "a", 3)], {"o"});
    assert after.flight[0..] == after.flight && after.flight[..0] == [];
    AtWithout(after, after.flight, [], {"o"});
    assert [] + Queued(after.flight, 0, false) == [Due(0, false, Copy("o", "b", 3)), Late()];
  }

  lemma BeforeFlight()
    ensures Before().flight == []
  {}

  /** Where packets are makes no difference to what nodes know. */
  lemma AtWithout(net: Net, flight: seq<Packet>, flight': seq<Packet>, knowing: set<Addr>)
    requires At(net, flight, knowing)
    ensures At(net.(flight := flight'), flight', knowing)
  {}

  lemma SendOne(w: Wire, flight: seq<Packet>, due: seq<Due>, batches: nat, knowing: set<Addr>, k: nat)
    requires Shows(w, flight, due, batches, knowing) && k < |due|
    requires forall j :: 0 <= j < k ==> due[j].batch != due[k].batch
    ensures CanMove(w, Send(k)) && CalmMove(Before(), w, Send(k), "m", "o", true, false)
    ensures Shows(Moved(w, Send(k)), flight + [due[k].p], due[..k] + due[k + 1..], batches, knowing)
  {
    hide At;
    AtFlight(w.net, flight, knowing);
    AtWithout(w.net, flight, flight + [due[k].p], knowing);
  }

  /** Only the origin has something to send, so every other node's reader is free. */
  lemma TakeOne(w: Wire, p: Packet, due: seq<Due>, batches: nat, knowing: set<Addr>, order: seq<NodeId>,
                out: seq<Packet>, knowing': set<Addr>)
    requires Shows(w, [p], due, batches, knowing) && forall d :: d in due ==> !d.reading
    requires Enabled(w.net, Receive(0, order)) && At(Received(w.net, 0, order), out, knowing')
    ensures var m := Act(Receive(0, order));
            && CanMove(w, m) && CalmMove(Before(), w, m, "m", "o", true, false)
            && Shows(Moved(w, m), [], due + Queued(out, batches, true), batches + 1, knowing')
  {
    hide At, Enabled, Received, SameTables, Before;
    var m := Act(Receive(0, order));
    assert CanMove(w, m) by { AtFlight(w.net, [p], knowing); }
    var after := Received(w.net, 0, order);
    AtFlight(w.net, [p], knowing);
    AtFlight(after, out, knowing');
    assert after.flight[..0] == [] && after.flight[0..] == out;
    AtWithout(after, out, [], knowing');
    ActIsStep(w, Receive(0, order));
    AtSame(Moved(w, m).net, [], knowing');
    StaysSame(Moved(w, m).net, Fused(Moved(w, m)));
    assert CopiesOf(Fused(w).flight[..0], "m") == [];
  }

  lemma AtFlight(net: Net, flight: seq<Packet>, knowing: set<Addr>)
    requires At(net, flight, knowing)
    ensures net.flight == flight
  {}

  lemma AtSame(net: Net, flight: seq<Packet>, knowing: set<Addr>)
    requires At(net, flight, knowing)
    ensures SameTables(Before(), net, "o")
  {
    KeptIsSame(net);
  }

  lemma StaysSame(net: Net, net': Net)
    requires SameTables(Before(), net, "o") && net'.nodes == net.nodes
    ensures SameTables(Before(), net', "o")
  {}

  /** One node of the detour takes its copy and sends the next. */
  lemma LapTaken(w: Wire, k: nat)
    requires k < 4 && Lapping(w, k)
    ensures var m := Act(Receive(0, Hop(k)));
            && CanMove(w, m) && CalmMove(Before(), w, m, "m", "o", true, false)
            && Shows(Moved(w, m), [], [Late()] + (if k < 3 then [Due(k + 1, true, Lap(k + 1))] else []), k + 2,
                     Knowing(k + 1))
  {
    hide At, Arriving, Lists, IsOrder, Enabled, Received, Knowing, Lap, Hop, CanMove, CalmMove, Moved;
    LapIs(k);
    FirstHearing(w.net, [Lap(k)], Knowing(k), 0, Hop(k));
    var out := if k < 3 then [Lap(k + 1)] else [];
    assert Without([Lap(k)], 0) + out == out;
    TakeOne(w, Lap(k), [Late()], k + 1, Knowing(k), Hop(k), out, Knowing(k + 1));
    assert Queued(out, k + 1, true) == if k < 3 then [Due(k + 1, true, Lap(k + 1))] else [];
  }

  /** Two moves a lap, but for the last. */
  function Laps(k: nat): seq<Move>
    requires k <= 4
  {
    if k == 0 then [Send(0)]
    else if k < 4 then (Laps(k - 1) + [Act(Receive(0, Hop(k - 1)))]) + [Send(1)]
    else Laps(3) + [Act(Receive(0, Hop(3)))]
  }

  ghost predicate CalmTo(moves: seq<Move>, w: Wire)
    requires Enabled(Before(), Announcement())
  {
    var start := Announced(Before(), Announcement());
    Feasible(start, moves) && CalmRun(Before(), start, moves, "m", "o", true, false) && Run(start, moves) == w
  }

  lemma OneMore(moves: seq<Move>, w: Wire, m: Move)
    requires Enabled(Before(), Announcement()) && CalmTo(moves, w)
    requires CanMove(w, m) && CalmMove(Before(), w, m, "m", "o", true, false)
    ensures CalmTo(moves + [m], Moved(w, m))
  {
    hide CanMove, Moved, CalmMove, Announced, Enabled;
    assert (moves + [m])[..|moves|] == moves;
  }

  lemma NoMoves()
    requires Enabled(Before(), Announcement())
    ensures CalmTo([], Announced(Before(), Announcement()))
  {}

  lemma {:induction false} LapsRun(k: nat) returns (w: Wire)
    requires k <= 4
    ensures Enabled(Before(), Announcement()) && CalmTo(Laps(k), w) && Lapping(w, k)
  {
    AnnouncedShows();
    hide At, Enabled, Announced, CalmTo, CanMove, CalmMove, Moved, Before, Knowing, Hop, Lap, Copy;
    if k == 0 {
      NoMoves();
      var u := Announced(Before(), Announcement());
      var due := [Due(0, false, Copy("o", "b", 3)), Late()];
      SendOne(u, [], due, 1, {"o"}, 0);
      OneMore([], u, Send(0));
      w := Moved(u, Send(0));
      FirstLap();
      assert due[..0] + due[1..] == [Late()] && [] + [due[0].p] == [Lap(0)];
      assert [] + [Send(0)] == Laps(0);
    } else {
      var u := LapsRun(k - 1);
      LapTaken(u, k - 1);
      OneMore(Laps(k - 1), u, Act(Receive(0, Hop(k - 1))));
      w := Moved(u, Act(Receive(0, Hop(k - 1))));
      if k < 4 {
        var due := [Late()] + [Due(k, true, Lap(k))];
        SendOne(w, [], due, k + 1, Knowing(k), 1);
        OneMore(Laps(k - 1) + [Act(Receive(0, Hop(k - 1)))], w, Send(1));
        w := Moved(w, Send(1));
        assert due[..1] + due[2..] == [Late()] && [] + [due[1].p] == [Lap(k)];
      } else {
        assert [Late()] + [] == [Late()];
      }
    }
  }

  lemma FirstLap()
    ensures Lap(0) == Copy("o", "b", 3) && Knowing(0) == {"o"}
  {}

  /** The late copy is sent at last, and its receiver knows the message already. */
  lemma LateOneArrives(w: Wire)
    requires Lapping(w, 4)
    ensures CanMove(w, Send(0)) && CalmMove(Before(), w, Send(0), "m", "o", true, false)
    ensures var u, m := Moved(w, Send(0)), Act(Receive(0, []));
            && CanMove(u, m) && CalmMove(Before(), u, m, "m", "o", true, false)
            && Shows(Moved(u, m), [], [], 6, Knowing(4))
  {
    hide At, Enabled, Received, CanMove, CalmMove, Moved, Knowing, Arriving;
    var p := Late().p;
    SendOne(w, [], [Late()], 5, Knowing(4), 0);
    var u := Moved(w, Send(0));
    assert [] + [Late().p] == [p] && [Late()][..0] + [Late()][1..] == [];
    LateIs();
    HeardAgain(u.net, [p], Knowing(4), 0);
    assert Without([p], 0) == [];
    TakeOne(u, p, [], 5, Knowing(4), [], [], Knowing(4));
    assert [] + Queued([], 5, true) == [];
  }

  lemma LateIs()
    ensures Arriving(Late().p) && Late().p.dst in Knowing(4)
  {}

  lemma TwoLinksAway()
    ensures Reach(Before(), "o", "o", 2, "x")
  {
    assert Before().nodes["o"].peers["a"].addr == "a" && Before().nodes["a"].peers["x"].addr == "x";
    assert Neighbour(Before(), "o", "o", "a") && Neighbour(Before(), "o", "a", "x");
    assert Reach(Before(), "o", "o", 0, "o");
    assert Reach(Before(), "o", "o", 1, "a");
  }

  /** Losing nothing, forgetting nothing and delivering every copy in the order in which it was sent, a run
      can still leave a node two links from the origin without the message. */
  lemma ArrivalOrderIsNotEnough()
    ensures exists start: Net, b: Step, moves: seq<Move>, x: Addr ::
              && Inv(start) && b.Broadcast? && Enabled(start, b) && b.at in start.nodes && x in start.nodes
              && x != b.at
              && Feasible(Announced(start, b), moves)
              && CalmRun(start, Announced(start, b), moves, b.id, start.nodes[b.at].id, true, false)
              && Over(Run(Announced(start, b), moves), b.id)
              && Reach(start, start.nodes[b.at].id, b.at, 2, x)
              && !Took(Run(Announced(start, b), moves).net, b.id, x)
  {
    hide Inv, Enabled, Reach, At, Lists, Announced, Feasible, CalmRun, Run, Took, Over, Before;
    BeforeIsGood();
    TwoLinksAway();
    BeforeNodes();
    var moves, end := WholeRun();
    NotTold(end);
    var start, b := Before(), Announcement();
    assert start.nodes["o"].id == "o" && "x" in start.nodes;
    assert Feasible(Announced(start, b), moves);
  }

  lemma WholeRun() returns (moves: seq<Move>, end: Wire)
    ensures Enabled(Before(), Announcement()) && CalmTo(moves, end) && Shows(end, [], [], 6, Knowing(4))
  {
    hide Enabled, CalmMove, CanMove, Moved, At, Announced, CalmTo, Laps, Knowing, Before;
    var w := LapsRun(4);
    LateOneArrives(w);
    OneMore(Laps(4), w, Send(0));
    var u := Moved(w, Send(0));
    OneMore(Laps(4) + [Send(0)], u, Act(Receive(0, [])));
    moves, end := Laps(4) + [Send(0)] + [Act(Receive(0, []))], Moved(u, Act(Receive(0, [])));
  }

  lemma NotTold(end: Wire)
    requires Shows(end, [], [], 6, Knowing(4))
    ensures !Took(end.net, "m", "x") && Over(end, "m")
  {
    hide TablesKept;
    assert Fused(end).flight == [];
    assert "x" !in Knowing(4);
  }
}
