/** Flooding ends: a broadcast gives rise to a bounded number of copies, even when nodes forget. */
module MeshFlood {
  import opened MeshNode
  import opened MeshNet

  predicate IsCopy(p: Packet, id: MsgId) { p.msg.Share? && p.msg.id == id }

  /** The copies of one message among the packets, in order. */
  function CopiesOf(flight: seq<Packet>, id: MsgId): seq<Packet> {
    if flight == [] then []
    else CopiesOf(flight[..|flight| - 1], id)
         + (if IsCopy(flight[|flight| - 1], id) then [flight[|flight| - 1]] else [])
  }

  lemma {:induction false} CopiesAppend(a: seq<Packet>, b: seq<Packet>, id: MsgId)
    ensures CopiesOf(a + b, id) == CopiesOf(a, id) + CopiesOf(b, id)
  {
    if b == [] {
      assert a + b == a;
    } else {
      var n := |b| - 1;
      assert (a + b)[..|a + b| - 1] == a + b[..n];
      CopiesAppend(a, b[..n], id);
    }
  }

  lemma {:induction false} CopiesMember(f: seq<Packet>, id: MsgId, p: Packet)
    ensures p in CopiesOf(f, id) <==> p in f && IsCopy(p, id)
  {
    if f != [] {
      CopiesMember(f[..|f| - 1], id, p);
      assert f == f[..|f| - 1] + [f[|f| - 1]];
    }
  }

  lemma {:induction false} AllOrNone(f: seq<Packet>, id: MsgId, copies: bool)
    requires forall p :: p in f ==> (IsCopy(p, id) <==> copies)
    ensures CopiesOf(f, id) == if copies then f else []
  {
    if f != [] {
      var n := |f| - 1;
      assert f[n] in f && f == f[..n] + [f[n]];
      AllOrNone(f[..n], id, copies);
    }
  }

  /** Taking one packet out: either another message's, or the copy at this place among the copies. */
  lemma CopiesWithout(f: seq<Packet>, i: nat, id: MsgId)
    requires i < |f|
    ensures var q := CopiesOf(f, id);
            var k := |CopiesOf(f[..i], id)|;
            if IsCopy(f[i], id) then k < |q| && q[k] == f[i] && CopiesOf(Without(f, i), id) == Without(q, k)
            else CopiesOf(Without(f, i), id) == q
  {
    assert f == (f[..i] + [f[i]]) + f[i + 1..];
    CopiesAppend(f[..i] + [f[i]], f[i + 1..], id);
    CopiesAppend(f[..i], [f[i]], id);
    CopiesAppend(f[..i], f[i + 1..], id);
    assert CopiesOf([f[i]], id) == if IsCopy(f[i], id) then [f[i]] else [] by {
      assert [f[i]][..0] == [];
    }
  }

  // ---- how a step changes the copies of one message ----------------------------------------

  /** The step takes a copy of the message out of the network. */
  ghost predicate Takes(net: Net, s: Step, id: MsgId)
    requires Enabled(net, s)
  {
    (s.Receive? || s.Lose?) && IsCopy(net.flight[s.i], id)
  }

  /** The copies of the message the step puts into the network. */
  ghost function Puts(net: Net, s: Step, id: MsgId): seq<Packet>
    requires Enabled(net, s)
  {
    if s.Broadcast? && s.id == id then
      var n := net.nodes[s.at];
      Copies(n.peers, s.order, n.addr, ShareOf(n, id, s.results))
    else if s.Receive? && IsCopy(net.flight[s.i], id) && net.flight[s.i].dst in net.nodes then
      var p := net.flight[s.i];
      Outbox(net.nodes[p.dst], p.msg, p.src, net.now, s.order)
    else []
  }

  lemma OutboxCopies(n: Node, m: Msg, from: Addr, now: int, order: seq<NodeId>, id: MsgId)
    requires IsOrder(order, ForwardsTo(n, m, from, now))
    ensures var out := Outbox(n, m, from, now, order);
            CopiesOf(out, id) == if m.Share? && m.id == id then out else []
  {
    var out := Outbox(n, m, from, now, order);
    forall p | p in out ensures IsCopy(p, id) <==> m.Share? && m.id == id {
      if m.Share? && m.nodeId != n.id {
        InCopies(Refreshed(n, m, from, now).peers, order, n.addr, m.(ttl := m.ttl - 1), p);
      }
    }
    AllOrNone(out, id, m.Share? && m.id == id);
  }

  lemma CopiesCopies(peers: map<NodeId, Peer>, order: seq<NodeId>, src: Addr, msg: Msg, id: MsgId)
    requires forall n :: n in order ==> n in peers
    ensures var out := Copies(peers, order, src, msg);
            CopiesOf(out, id) == if msg.Share? && msg.id == id then out else []
  {
    var out := Copies(peers, order, src, msg);
    forall p | p in out ensures p.msg == msg { InCopies(peers, order, src, msg, p); }
    AllOrNone(out, id, msg.Share? && msg.id == id);
  }

  /** Copies leave the network one at a time and new ones join at the end. */
  lemma StepCopies(net: Net, s: Step, id: MsgId)
    requires Enabled(net, s)
    ensures var q := CopiesOf(net.flight, id);
            var q' := CopiesOf(Apply(net, s).flight, id);
            if Takes(net, s, id) then
              var k := |CopiesOf(net.flight[..s.i], id)|;
              k < |q| && q[k] == net.flight[s.i] && q' == Without(q, k) + Puts(net, s, id)
            else q' == q + Puts(net, s, id)
  {
    hide Outbox, Copies, Without, Handled, Marked, Evicted, LinksOf;
    match s {
      case Broadcast(at, bid, results, order) =>
        var n := net.nodes[at];
        var out := Copies(n.peers, order, n.addr, ShareOf(n, bid, results));
        CopiesCopies(n.peers, order, n.addr, ShareOf(n, bid, results), id);
        CopiesAppend(net.flight, out, id);
      case Receive(i, order) =>
        CopiesWithout(net.flight, i, id);
        var p := net.flight[i];
        if p.dst in net.nodes {
          var out := Outbox(net.nodes[p.dst], p.msg, p.src, net.now, order);
          OutboxCopies(net.nodes[p.dst], p.msg, p.src, net.now, order, id);
          CopiesAppend(Without(net.flight, i), out, id);
        }
      case Lose(i) => CopiesWithout(net.flight, i, id);
      case Beat(at, order) =>
        var n := net.nodes[at];
        CopiesCopies(n.peers, order, n.addr, Heartbeat(n.id), id);
        CopiesAppend(net.flight, Copies(n.peers, order, n.addr, Heartbeat(n.id)), id);
      case Join(at, dst) =>
        var hello := [Packet(net.nodes[at].addr, dst, Hello(net.nodes[at].id))];
        AllOrNone(hello, id, false);
        CopiesAppend(net.flight, hello, id);
      case Take(_) =>
      case Wait(_) =>
    }
  }

  // ---- weighing copies ---------------------------------------------------------------------

  /** How many copies one copy can account for, itself included, when tables hold at most `n` peers. */
  function Weight(n: nat, ttl: int): (w: nat)
    ensures w >= 1
  {
    if ttl <= 0 then 1 else 1 + n * Weight(n, ttl - 1)
  }

  function Mass(n: nat, q: seq<Packet>): (m: nat) {
    if q == [] then 0
    else Mass(n, q[..|q| - 1]) + (if q[|q| - 1].msg.Share? then Weight(n, q[|q| - 1].msg.ttl) else 0)
  }

  lemma {:induction false} MassAppend(n: nat, a: seq<Packet>, b: seq<Packet>)
    ensures Mass(n, a + b) == Mass(n, a) + Mass(n, b)
  {
    if b == [] {
      assert a + b == a;
    } else {
      assert (a + b)[..|a + b| - 1] == a + b[..|b| - 1];
      MassAppend(n, a, b[..|b| - 1]);
    }
  }

  lemma MassWithout(n: nat, q: seq<Packet>, k: nat)
    requires k < |q| && q[k].msg.Share?
    ensures Mass(n, Without(q, k)) + Weight(n, q[k].msg.ttl) == Mass(n, q)
  {
    assert q == (q[..k] + [q[k]]) + q[k + 1..];
    MassAppend(n, q[..k] + [q[k]], q[k + 1..]);
    MassAppend(n, q[..k], [q[k]]);
    MassAppend(n, q[..k], q[k + 1..]);
    assert [q[k]][..0] == [];
  }

  lemma {:induction false} MassUniform(n: nat, q: seq<Packet>, ttl: int)
    requires forall p :: p in q ==> p.msg.Share? && p.msg.ttl == ttl
    ensures Mass(n, q) == |q| * Weight(n, ttl)
  {
    hide Weight;
    if q != [] {
      var k, w := |q| - 1, Weight(n, ttl);
      assert q[k] in q;
      MassUniform(n, q[..k], ttl);
      assert (k + 1) * w == k * w + w;
    }
  }

  lemma {:induction false} MassCounts(n: nat, q: seq<Packet>)
    requires forall p :: p in q ==> p.msg.Share?
    ensures |q| <= Mass(n, q)
  {
    if q != [] {
      assert q[|q| - 1] in q;
      MassCounts(n, q[..|q| - 1]);
    }
  }

  ghost predicate Bounded(net: Net, n: nat) {
    forall a :: a in net.nodes ==> |net.nodes[a].peers| <= n
  }

  lemma TargetsBound(peers: map<NodeId, Peer>, except: Addr, order: seq<NodeId>)
    requires IsOrder(order, Targets(peers, except))
    ensures |order| <= |peers|
  {
    OrderSize(order, Targets(peers, except));
    SubsetSize(Targets(peers, except), peers.Keys);
  }

  lemma {:induction false} SubsetSize(a: set<NodeId>, b: set<NodeId>)
    requires a <= b
    ensures |a| <= |b|
  {
    if a != {} {
      var x :| x in a;
      SubsetSize(a - {x}, b - {x});
    }
  }

  lemma TimesBound(k: nat, n: nat, w: nat)
    requires k <= n
    ensures k * w <= n * w
  {
    assert n * w == k * w + (n - k) * w;
    assert (n - k) * w >= 0;
  }

  /** What a node sends on receiving a copy weighs less than that copy. */
  lemma OutboxWeighsLess(node: Node, m: Msg, from: Addr, now: int, order: seq<NodeId>, n: nat)
    requires m.Share? && IsOrder(order, ForwardsTo(node, m, from, now))
    requires |Handled(node, m, from, now).peers| <= n
    ensures Mass(n, Outbox(node, m, from, now, order)) < Weight(n, m.ttl)
  {
    var out := Outbox(node, m, from, now, order);
    if Accepts(node, m) && m.ttl > 0 {
      var peers := Refreshed(node, m, from, now).peers;
      var msg := m.(ttl := m.ttl - 1);
      forall q | q in out ensures q.msg == msg { InCopies(peers, order, node.addr, msg, q); }
      MassUniform(n, out, msg.ttl);
      TargetsBound(peers, from, order);
      TimesBound(|order|, n, Weight(n, msg.ttl));
    } else {
      OrderSize(order, {});
      assert out == [];
    }
  }

  /** What a copy gives rise to weighs less than the copy itself. */
  lemma PutsWeighLess(net: Net, s: Step, id: MsgId, n: nat)
    requires Enabled(net, s) && Bounded(Apply(net, s), n) && Takes(net, s, id)
    ensures Mass(n, Puts(net, s, id)) < Weight(n, net.flight[s.i].msg.ttl)
  {
    hide Outbox, Mass, Weight, Handled, ForwardsTo;
    var p := net.flight[s.i];
    if s.Receive? && p.dst in net.nodes {
      assert Apply(net, s).nodes[p.dst] == Handled(net.nodes[p.dst], p.msg, p.src, net.now);
      OutboxWeighsLess(net.nodes[p.dst], p.msg, p.src, net.now, s.order, n);
    } else {
      MassUniform(n, [], p.msg.ttl);
    }
  }

  /** Every arrival or loss of a copy makes the message's copies in flight weigh strictly less. */
  lemma TakingSpends(net: Net, s: Step, id: MsgId, n: nat)
    requires Enabled(net, s) && Bounded(Apply(net, s), n) && Takes(net, s, id)
    ensures Mass(n, CopiesOf(Apply(net, s).flight, id)) < Mass(n, CopiesOf(net.flight, id))
  {
    hide Apply, Puts, Bounded;
    StepCopies(net, s, id);
    PutsWeighLess(net, s, id, n);
    var q := CopiesOf(net.flight, id);
    var k := |CopiesOf(net.flight[..s.i], id)|;
    MassWithout(n, q, k);
    MassAppend(n, Without(q, k), Puts(net, s, id));
  }

  lemma BroadcastWeighs(net: Net, s: Step, n: nat)
    requires Enabled(net, s) && Bounded(net, n) && s.Broadcast?
    ensures Mass(n, Puts(net, s, s.id)) <= n * Weight(n, DEFAULT_TTL)
  {
    var node := net.nodes[s.at];
    var msg := ShareOf(node, s.id, s.results);
    var out := Copies(node.peers, s.order, node.addr, msg);
    forall q | q in out ensures q.msg == msg { InCopies(node.peers, s.order, node.addr, msg, q); }
    MassUniform(n, out, DEFAULT_TTL);
    TargetsBound(node.peers, "", s.order);
    TimesBound(|s.order|, n, Weight(n, DEFAULT_TTL));
  }

  // ---- the bound over a run ----------------------------------------------------------------

  ghost predicate BoundedRun(net: Net, steps: seq<Step>, n: nat)
    requires Possible(net, steps)
  {
    Bounded(Exec(net, steps), n) && (steps == [] || BoundedRun(net, steps[..|steps| - 1], n))
  }

  /** How many copies of the message have arrived or been lost in the run. */
  ghost function Taken(net: Net, steps: seq<Step>, id: MsgId): nat
    requires Possible(net, steps)
  {
    if steps == [] then 0
    else
      var n := |steps| - 1;
      Taken(net, steps[..n], id) + (if Takes(Exec(net, steps[..n]), steps[n], id) then 1 else 0)
  }

  lemma OriginsGrow(net: Net, s: Step, id: MsgId)
    requires Enabled(net, s)
    ensures id in Apply(net, s).origins <==> id in net.origins || (s.Broadcast? && s.id == id)
    ensures s.Broadcast? && s.id == id ==> id !in net.origins
  {}

  lemma {:induction false} SpentAndLeft(net: Net, steps: seq<Step>, n: nat, id: MsgId)
    requires Initial(net) && Possible(net, steps) && BoundedRun(net, steps, n)
    ensures Taken(net, steps, id) + Mass(n, CopiesOf(Exec(net, steps).flight, id)) <=
            if id in Exec(net, steps).origins then n * Weight(n, DEFAULT_TTL) else 0
  {
    hide Apply, Enabled, Initial, Bounded, Weight, Takes, Puts;
    if steps == [] {
      InitialEmpty(net);
    } else {
      var k := |steps| - 1;
      SpentAndLeft(net, steps[..k], n, id);
      var m := Exec(net, steps[..k]);
      var s := steps[k];
      OriginsGrow(m, s, id);
      if Takes(m, s, id) {
        TakesKind(m, s, id);
        TakingSpends(m, s, id, n);
      } else {
        StepCopies(m, s, id);
        MassAppend(n, CopiesOf(m.flight, id), Puts(m, s, id));
        PutsKind(m, s, id);
        if s.Broadcast? && s.id == id { BroadcastWeighs(m, s, n); }
      }
    }
  }

  lemma InitialEmpty(net: Net)
    requires Initial(net)
    ensures net.flight == []
  {}

  lemma TakesKind(net: Net, s: Step, id: MsgId)
    requires Enabled(net, s) && Takes(net, s, id)
    ensures !s.Broadcast?
  {}

  lemma PutsKind(net: Net, s: Step, id: MsgId)
    requires Enabled(net, s) && !Takes(net, s, id)
    ensures Puts(net, s, id) == [] || (s.Broadcast? && s.id == id)
  {}

  /** In any run whose tables never hold more than `n` peers, all the copies a broadcast ever gives rise
      to, arrived, lost or still in flight, are at most n * (1 + n + n^2 + n^3). */
  lemma BroadcastCopiesBounded(net: Net, steps: seq<Step>, n: nat, id: MsgId)
    requires Initial(net) && Possible(net, steps) && BoundedRun(net, steps, n)
    ensures Taken(net, steps, id) + |CopiesOf(Exec(net, steps).flight, id)| <= n * Weight(n, DEFAULT_TTL)
    ensures Weight(n, DEFAULT_TTL) == 1 + n + n * n + n * n * n
  {
    var q := CopiesOf(Exec(net, steps).flight, id);
    SpentAndLeft(net, steps, n, id);
    forall p | p in q ensures p.msg.Share? { CopiesMember(Exec(net, steps).flight, id, p); }
    MassCounts(n, q);
    WeightIs(n);
    TimesBound(0, n, Weight(n, DEFAULT_TTL));
  }

  lemma WeightIs(n: nat)
    ensures Weight(n, 3) == 1 + n + n * n + n * n * n
  {
    assert Weight(n, 0) == 1;
    assert Weight(n, 1) == 1 + n;
    assert Weight(n, 2) == 1 + n * (1 + n) == 1 + n + n * n;
    assert Weight(n, 3) == 1 + n * (1 + n + n * n);
    assert n * (1 + n + n * n) == n + n * n + n * (n * n);
  }
}
