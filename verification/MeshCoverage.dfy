/** What a broadcast reaches once its last copy has arrived. */
module MeshCoverage {
  import opened MeshNode
  import opened MeshNet
  import opened MeshFlood

  // ---- the conditions ----------------------------------------------------------------------

  /** `b` is the address of a node in `a`'s table, under another name than the origin's. */
  ghost predicate Neighbour(start: Net, origin: NodeId, a: Addr, b: Addr) {
    && a in start.nodes && b in start.nodes
    && exists n :: n in start.nodes[a].peers && n != origin && start.nodes[a].peers[n].addr == b
  }

  /** Peer tables still name the same nodes at the same addresses; the origin's own entry, which every
      forwarded copy rewrites, is left out. */
  ghost predicate SameTables(start: Net, net: Net, origin: NodeId) {
    && net.nodes.Keys == start.nodes.Keys
    && forall a, n :: a in start.nodes && n != origin ==>
         && (n in net.nodes[a].peers <==> n in start.nodes[a].peers)
         && (n in start.nodes[a].peers ==> net.nodes[a].peers[n].addr == start.nodes[a].peers[n].addr)
  }

  /** A step that loses no copy of the message, expires no memory of it and keeps the tables; with
      `fifo`, the message's copies also arrive in the order in which they are on their way. */
  ghost predicate Calm(start: Net, net: Net, s: Step, id: MsgId, origin: NodeId, fifo: bool) {
    && Enabled(net, s)
    && (s.Lose? ==> !IsCopy(net.flight[s.i], id))
    && (s.Beat? && id in net.nodes[s.at].seen ==> net.now - net.nodes[s.at].seen[id] <= SEEN_TTL)
    && SameTables(start, Apply(net, s), origin)
    && (fifo && Takes(net, s, id) ==> CopiesOf(net.flight[..s.i], id) == [])
  }

  // ---- the invariant -----------------------------------------------------------------------

  ghost predicate AcceptedWith(accepts: seq<Acceptance>, id: MsgId, b: Addr, ttl: int) {
    exists a :: a in accepts && a.at == b && a.id == id && a.ttl >= ttl
  }

  ghost predicate Coming(q: seq<Packet>, b: Addr, ttl: int) {
    exists p :: p in q && p.dst == b && p.msg.Share? && p.msg.ttl >= ttl
  }

  /** `b` is the origin, or took the message with at least `ttl` hops left, or a copy with that many is
      on its way there. */
  ghost predicate Supplied(q: seq<Packet>, accepts: seq<Acceptance>, id: MsgId, o: Addr, b: Addr, ttl: int) {
    b == o || AcceptedWith(accepts, id, b, ttl) || Coming(q, b, ttl)
  }

  /** Hop counts can be relied on only when packets arrive in order. */
  function Need(fifo: bool, ttl: int): int { if fifo then ttl else 0 }

  /** In order of sending, hop counts never rise and never differ by more than one. */
  ghost predicate Ordered(q: seq<Packet>) {
    forall i, j :: 0 <= i < j < |q| ==> MaySucceed(q[i], q[j])
  }

  ghost predicate MaySucceed(p: Packet, x: Packet) {
    p.msg.Share? && x.msg.Share? && x.msg.ttl <= p.msg.ttl <= x.msg.ttl + 1
  }

  ghost predicate Cover(start: Net, id: MsgId, o: Addr, q: seq<Packet>, accepts: seq<Acceptance>, fifo: bool)
    requires o in start.nodes
  {
    var origin := start.nodes[o].id;
    && (forall p :: p in q ==> IsCopy(p, id) && p.msg.ttl >= 0)
    && (forall a :: a in accepts && a.id == id ==> a.ttl >= 0)
    && (forall b :: Neighbour(start, origin, o, b) ==> Supplied(q, accepts, id, o, b, Need(fifo, DEFAULT_TTL)))
    && (forall a, b :: a in accepts && a.id == id && a.ttl > 0 && Neighbour(start, origin, a.at, b) ==>
          Supplied(q, accepts, id, o, b, Need(fifo, a.ttl - 1)))
    && (forall p :: p in q ==> p.src == o || AcceptedWith(accepts, id, p.src, Need(fifo, p.msg.ttl + 1)))
    && (fifo ==> Ordered(q))
    && (fifo ==> forall a, p :: a in accepts && a.id == id && p in q ==> a.ttl >= p.msg.ttl)
  }

  /** A node remembers the message exactly when it is the origin or accepted it. */
  ghost predicate Known(start: Net, net: Net, id: MsgId, o: Addr) {
    && o in start.nodes && id in net.origins && net.origins[id].at == o
    && net.nodes.Keys == start.nodes.Keys
    && net.nodes[o].id == start.nodes[o].id
    && forall a :: a in net.nodes ==>
         (id in net.nodes[a].seen <==> a == o || exists acc :: acc in net.accepts && acc.at == a && acc.id == id)
  }

  ghost predicate Covering(start: Net, net: Net, id: MsgId, o: Addr, fifo: bool) {
    && id != "" && Inv(net) && Known(start, net, id, o)
    && SameTables(start, net, start.nodes[o].id)
    && Cover(start, id, o, CopiesOf(net.flight, id), net.accepts, fifo)
  }

  // ---- three ways the flood moves on -------------------------------------------------------

  /** Acceptances of other messages change nothing. */
  lemma CoverOthers(start: Net, id: MsgId, o: Addr, q: seq<Packet>, accepts: seq<Acceptance>, more: seq<Acceptance>,
                    fifo: bool)
    requires o in start.nodes && Cover(start, id, o, q, accepts, fifo)
    requires forall a :: a in more ==> a.id != id
    ensures Cover(start, id, o, q, accepts + more, fifo)
  {
    hide Neighbour, Coming, Ordered;
    forall b, t | AcceptedWith(accepts, id, b, t) ensures AcceptedWith(accepts + more, id, b, t) {
      AcceptedMore(accepts, more, id, b, t);
    }
  }

  lemma AcceptedMore(accepts: seq<Acceptance>, more: seq<Acceptance>, id: MsgId, b: Addr, t: int)
    requires AcceptedWith(accepts, id, b, t)
    ensures AcceptedWith(accepts + more, id, b, t)
  {
    var a :| a in accepts && a.at == b && a.id == id && a.ttl >= t;
    assert a in accepts + more;
  }

  lemma AcceptedLower(accepts: seq<Acceptance>, id: MsgId, b: Addr, t: int, lower: int)
    requires AcceptedWith(accepts, id, b, t) && lower <= t
    ensures AcceptedWith(accepts, id, b, lower)
  {}

  /** Taking out the copy at `k` leaves everyone supplied when its destination needs it no more. */
  lemma StillSupplied(q: seq<Packet>, k: nat, accepts: seq<Acceptance>, id: MsgId, o: Addr, fifo: bool, b: Addr, t: int)
    requires k < |q| && Supplied(q, accepts, id, o, b, t) && (fifo || t == 0)
    requires q[k].msg.Share?
    requires q[k].dst != b || b == o || AcceptedWith(accepts, id, b, Need(fifo, q[k].msg.ttl))
    ensures Supplied(Without(q, k), accepts, id, o, b, t)
  {
    if q[k].dst == b && b != o && q[k].msg.ttl >= t {
      AcceptedLower(accepts, id, b, Need(fifo, q[k].msg.ttl), t);
    } else if Coming(q, b, t) {
      var p :| p in q && p.dst == b && p.msg.Share? && p.msg.ttl >= t;
      var i :| 0 <= i < |q| && q[i] == p;
      if i != k { assert Without(q, k)[if i < k then i else i - 1] == p; }
    }
  }

  /** A copy may disappear once the node it goes to is supplied without it. */
  lemma CoverDrop(start: Net, id: MsgId, o: Addr, q: seq<Packet>, k: nat, accepts: seq<Acceptance>, fifo: bool)
    requires o in start.nodes && k < |q| && Cover(start, id, o, q, accepts, fifo)
    requires q[k].msg.Share?
    requires var b := q[k].dst;
             b !in start.nodes || b == o || AcceptedWith(accepts, id, b, Need(fifo, q[k].msg.ttl))
    ensures Cover(start, id, o, Without(q, k), accepts, fifo)
  {
    hide AcceptedWith, Coming, Supplied;
    var origin := start.nodes[o].id;
    var rest := Without(q, k);
    assert forall p :: p in rest ==> p in q;
    if fifo { OrderedWithout(q, k, rest); }
    forall b | Neighbour(start, origin, o, b) ensures Supplied(rest, accepts, id, o, b, Need(fifo, DEFAULT_TTL)) {
      StillSupplied(q, k, accepts, id, o, fifo, b, Need(fifo, DEFAULT_TTL));
    }
    forall a, b | a in accepts && a.id == id && a.ttl > 0 && Neighbour(start, origin, a.at, b)
      ensures Supplied(rest, accepts, id, o, b, Need(fifo, a.ttl - 1))
    {
      StillSupplied(q, k, accepts, id, o, fifo, b, Need(fifo, a.ttl - 1));
    }
  }

  lemma OrderedWithout(q: seq<Packet>, k: nat, r: seq<Packet>)
    requires k < |q| && r == Without(q, k) && Ordered(q)
    ensures Ordered(r)
  {
    assert forall i :: 0 <= i < |r| ==> r[i] == if i < k then q[i] else q[i + 1];
    forall i, j | 0 <= i < j < |r| ensures MaySucceed(r[i], r[j]) {
      assert MaySucceed(q[if i < k then i else i + 1], q[if j < k then j else j + 1]);
    }
  }

  /** The first copy gone and its successors, one hop lower, at the end. */
  lemma OrderedNext(q: seq<Packet>, out: seq<Packet>)
    requires q != [] && q[0].msg.Share? && Ordered(q)
    requires forall x :: x in out ==> x.msg.Share? && x.msg.ttl == q[0].msg.ttl - 1
    ensures Ordered(Without(q, 0) + out)
  {
    var r := Without(q, 0) + out;
    forall i, j | 0 <= i < j < |r| ensures MaySucceed(r[i], r[j]) {
      var m := |q| - 1;
      assert i < m ==> r[i] == q[i + 1];
      assert j < m ==> r[j] == q[j + 1];
      assert i >= m ==> r[i] in out;
      assert j >= m ==> r[j] in out;
      if i < m { assert MaySucceed(q[0], q[i + 1]); }
      if j < m { assert MaySucceed(q[i + 1], q[j + 1]); }
    }
  }

  /** What a node sends on when it accepts the copy `p`: one hop lower, to every neighbour but the
      sender. */
  ghost predicate PassesOn(start: Net, origin: NodeId, id: MsgId, p: Packet, out: seq<Packet>) {
    && p.msg.Share?
    && (forall x :: x in out ==> IsCopy(x, id) && x.src == p.dst && x.msg.ttl == p.msg.ttl - 1 && p.msg.ttl > 0)
    && (p.msg.ttl > 0 ==>
          forall b :: Neighbour(start, origin, p.dst, b) ==> b == p.src || Coming(out, b, p.msg.ttl - 1))
  }

  /** A node accepts the copy at `k` and passes it on. */
  lemma CoverAccept(start: Net, id: MsgId, o: Addr, q: seq<Packet>, k: nat, accepts: seq<Acceptance>,
                    out: seq<Packet>, fifo: bool)
    requires o in start.nodes && k < |q| && Cover(start, id, o, q, accepts, fifo)
    requires fifo ==> k == 0
    requires PassesOn(start, start.nodes[o].id, id, q[k], out)
    ensures Cover(start, id, o, Without(q, k) + out, accepts + [Acceptance(q[k].dst, id, q[k].msg.ttl)], fifo)
  {
    hide AcceptedWith, Coming, Supplied, Neighbour, Ordered;
    var origin := start.nodes[o].id;
    var p := q[k];
    assert p in q;
    var acc := Acceptance(p.dst, id, p.msg.ttl);
    var as' := accepts + [acc];
    var r := Without(q, k) + out;
    assert forall x :: x in r ==> x in q || x in out;
    AcceptedNow(as', acc);
    if fifo { OrderedNext(q, out); }
    forall b | Neighbour(start, origin, o, b) ensures Supplied(r, as', id, o, b, Need(fifo, DEFAULT_TTL)) {
      SuppliedNext(q, k, accepts, id, o, fifo, out, b, Need(fifo, DEFAULT_TTL));
    }
    forall a, b | a in as' && a.id == id && a.ttl > 0 && Neighbour(start, origin, a.at, b)
      ensures Supplied(r, as', id, o, b, Need(fifo, a.ttl - 1))
    {
      if a in accepts {
        SuppliedNext(q, k, accepts, id, o, fifo, out, b, Need(fifo, a.ttl - 1));
      } else {
        NeighbourSupplied(start, id, o, q, k, accepts, out, fifo, b);
      }
    }
    forall x | x in r ensures x.src == o || AcceptedWith(as', id, x.src, Need(fifo, x.msg.ttl + 1)) {
      if x in q && x.src != o { AcceptedMore(accepts, [acc], id, x.src, Need(fifo, x.msg.ttl + 1)); }
      if x in out { AcceptedLower(as', id, p.dst, p.msg.ttl, Need(fifo, x.msg.ttl + 1)); }
    }
    if fifo {
      forall a, x | a in as' && a.id == id && x in r ensures a.ttl >= x.msg.ttl {
        OrderedMost(q, x);
      }
    }
  }

  lemma OrderedMost(q: seq<Packet>, x: Packet)
    requires Ordered(q) && q != [] && q[0].msg.Share?
    ensures x in q ==> x.msg.Share? && x.msg.ttl <= q[0].msg.ttl
  {
    if x in q {
      var i :| 0 <= i < |q| && q[i] == x;
      assert i == 0 || MaySucceed(q[0], q[i]);
    }
  }

  lemma AcceptedNow(accepts: seq<Acceptance>, acc: Acceptance)
    requires acc in accepts
    ensures AcceptedWith(accepts, acc.id, acc.at, acc.ttl)
  {}

  lemma SuppliedNext(q: seq<Packet>, k: nat, accepts: seq<Acceptance>, id: MsgId, o: Addr, fifo: bool,
                     out: seq<Packet>, b: Addr, t: int)
    requires k < |q| && Supplied(q, accepts, id, o, b, t) && (fifo || t == 0)
    requires IsCopy(q[k], id) && q[k].msg.ttl >= 0
    ensures Supplied(Without(q, k) + out, accepts + [Acceptance(q[k].dst, id, q[k].msg.ttl)], id, o, b, t)
  {
    var acc := Acceptance(q[k].dst, id, q[k].msg.ttl);
    var as' := accepts + [acc];
    if AcceptedWith(accepts, id, b, t) { AcceptedMore(accepts, [acc], id, b, t); }
    AcceptedNow(as', acc);
    AcceptedLower(as', id, acc.at, acc.ttl, Need(fifo, acc.ttl));
    StillSupplied(q, k, as', id, o, fifo, b, t);
    ComingMore(Without(q, k), out, b, t);
  }

  lemma ComingMore(a: seq<Packet>, b: seq<Packet>, dst: Addr, t: int)
    ensures Coming(a, dst, t) || Coming(b, dst, t) ==> Coming(a + b, dst, t)
  {
    if p :| p in a && p.dst == dst && p.msg.Share? && p.msg.ttl >= t { assert p in a + b; }
    if p :| p in b && p.dst == dst && p.msg.Share? && p.msg.ttl >= t { assert p in a + b; }
  }

  lemma NeighbourSupplied(start: Net, id: MsgId, o: Addr, q: seq<Packet>, k: nat, accepts: seq<Acceptance>,
                          out: seq<Packet>, fifo: bool, b: Addr)
    requires o in start.nodes && k < |q| && Cover(start, id, o, q, accepts, fifo)
    requires PassesOn(start, start.nodes[o].id, id, q[k], out)
    requires q[k].msg.ttl > 0 && Neighbour(start, start.nodes[o].id, q[k].dst, b)
    ensures var as' := accepts + [Acceptance(q[k].dst, id, q[k].msg.ttl)];
            Supplied(Without(q, k) + out, as', id, o, b, Need(fifo, q[k].msg.ttl - 1))
  {
    hide AcceptedWith, Coming, Neighbour, Ordered;
    var p := q[k];
    assert p in q;
    var t := Need(fifo, p.msg.ttl - 1);
    if b == p.src {
      if b != o {
        AcceptedMore(accepts, [Acceptance(p.dst, id, p.msg.ttl)], id, b, Need(fifo, p.msg.ttl + 1));
        AcceptedLower(accepts + [Acceptance(p.dst, id, p.msg.ttl)], id, b, Need(fifo, p.msg.ttl + 1), t);
      }
    } else {
      ComingLower(out, b, p.msg.ttl - 1, t);
      ComingMore(Without(q, k), out, b, t);
    }
  }

  lemma ComingLower(q: seq<Packet>, b: Addr, t: int, lower: int)
    requires Coming(q, b, t) && lower <= t
    ensures Coming(q, b, lower)
  {}

  // ---- each calm step ----------------------------------------------------------------------

  /** What a step that takes no copy does to memories and acceptances of the message: nothing. */
  lemma BystanderStep(net: Net, s: Step, id: MsgId)
    requires Enabled(net, s) && id in net.origins && !Takes(net, s, id)
    requires s.Beat? && id in net.nodes[s.at].seen ==> net.now - net.nodes[s.at].seen[id] <= SEEN_TTL
    ensures var net' := Apply(net, s);
            && CopiesOf(net'.flight, id) == CopiesOf(net.flight, id)
            && net'.nodes.Keys == net.nodes.Keys
            && (forall a :: a in net.nodes ==>
                  (id in net'.nodes[a].seen <==> id in net.nodes[a].seen) && net'.nodes[a].id == net.nodes[a].id)
            && net'.accepts[..|net.accepts|] == net.accepts <= net'.accepts
            && (forall x :: x in net'.accepts[|net.accepts|..] ==> x.id != id)
            && id in net'.origins && net'.origins[id] == net.origins[id]
  {
    hide CopiesOf, Outbox, Copies, Without, LinksOf;
    StepCopies(net, s, id);
    PutsKind(net, s, id);
  }

  lemma Untouched(start: Net, net: Net, s: Step, id: MsgId, o: Addr, fifo: bool)
    requires o in start.nodes && Covering(start, net, id, o, fifo)
    requires Calm(start, net, s, id, start.nodes[o].id, fifo) && !Takes(net, s, id)
    ensures Covering(start, Apply(net, s), id, o, fifo)
  {
    hide Apply, Inv, Takes, CopiesOf, Cover, SameTables;
    var net' := Apply(net, s);
    StepKeeps(net, s);
    BystanderStep(net, s, id);
    var more := net'.accepts[|net.accepts|..];
    assert net'.accepts == net.accepts + more;
    CoverOthers(start, id, o, CopiesOf(net.flight, id), net.accepts, more, fifo);
    assert forall x: Acceptance :: x.id == id ==> (x in net'.accepts <==> x in net.accepts);
  }

  /** What receiving a copy does when the node is missing, is the origin, or knows the message. */
  lemma RepeatStep(net: Net, s: Step, id: MsgId)
    requires Enabled(net, s) && id != "" && s.Receive? && Takes(net, s, id)
    requires var p := net.flight[s.i];
             p.dst in net.nodes ==> !Accepts(net.nodes[p.dst], p.msg)
    ensures var net' := Apply(net, s);
            && Puts(net, s, id) == [] && net'.accepts == net.accepts && net'.origins == net.origins
            && net'.nodes.Keys == net.nodes.Keys
            && (forall a :: a in net.nodes ==>
                  net'.nodes[a].seen == net.nodes[a].seen && net'.nodes[a].id == net.nodes[a].id)
  {
    var p := net.flight[s.i];
    if p.dst in net.nodes {
      OrderSize(s.order, {});
    }
  }

  lemma Repeated(start: Net, net: Net, s: Step, id: MsgId, o: Addr, fifo: bool)
    requires o in start.nodes && Covering(start, net, id, o, fifo)
    requires Calm(start, net, s, id, start.nodes[o].id, fifo) && Takes(net, s, id)
    requires var p := net.flight[s.i];
             p.dst in net.nodes ==> !Accepts(net.nodes[p.dst], p.msg)
    ensures Covering(start, Apply(net, s), id, o, fifo)
  {
    hide Apply, Inv, CopiesOf, Cover, SameTables, Puts, Without;
    var p := net.flight[s.i];
    StepKeeps(net, s);
    RepeatStep(net, s, id);
    StepCopies(net, s, id);
    var q, k := CopiesOf(net.flight, id), |CopiesOf(net.flight[..s.i], id)|;
    assert Without(q, k) + [] == Without(q, k);
    if p.dst in net.nodes && p.dst != o {
      OnlyOwnIgnored(net, p, id, o);
      EarlierAccept(start, net, p, id, o, fifo);
    }
    CoverDrop(start, id, o, q, k, net.accepts, fifo);
  }

  /** Only the origin takes a copy for its own message. */
  lemma OnlyOwnIgnored(net: Net, p: Packet, id: MsgId, o: Addr)
    requires Inv(net) && p in net.flight && IsCopy(p, id) && p.dst in net.nodes
    requires id in net.origins && net.origins[id].at == o
    ensures p.msg.nodeId == net.nodes[p.dst].id <==> p.dst == o
    ensures p.msg.ttl >= 0
  {
    assert GoodPacket(net, p);
  }

  lemma EarlierAccept(start: Net, net: Net, p: Packet, id: MsgId, o: Addr, fifo: bool)
    requires o in start.nodes && Known(start, net, id, o) && id != ""
    requires Cover(start, id, o, CopiesOf(net.flight, id), net.accepts, fifo)
    requires p in net.flight && IsCopy(p, id) && p.dst in net.nodes && p.dst != o
    requires p.msg.nodeId != net.nodes[p.dst].id && !Accepts(net.nodes[p.dst], p.msg)
    ensures AcceptedWith(net.accepts, id, p.dst, Need(fifo, p.msg.ttl))
  {
    CopiesMember(net.flight, id, p);
    var acc :| acc in net.accepts && acc.at == p.dst && acc.id == id;
    assert acc.ttl >= Need(fifo, p.msg.ttl);
  }

  /** What a node that accepts a copy sends goes to every neighbour but the sender. */
  lemma AcceptorPassesOn(start: Net, net: Net, s: Step, id: MsgId, o: Addr)
    requires o in start.nodes && Known(start, net, id, o) && Inv(net) && Enabled(net, s)
    requires SameTables(start, net, start.nodes[o].id)
    requires s.Receive? && Takes(net, s, id) && net.flight[s.i].dst in net.nodes
    requires Accepts(net.nodes[net.flight[s.i].dst], net.flight[s.i].msg)
    ensures PassesOn(start, start.nodes[o].id, id, net.flight[s.i], Puts(net, s, id))
  {
    hide Walk, GoodAcceptance, GoodDelivery, RealLink, CopiesOf, LinksOf;
    var p := net.flight[s.i];
    var n := net.nodes[p.dst];
    var origin := start.nodes[o].id;
    assert GoodPacket(net, p);
    GoodNodeAt(net.nodes, p.dst);
    var peers := Refreshed(n, p.msg, p.src, net.now).peers;
    var out := Puts(net, s, id);
    if p.msg.ttl > 0 {
      var msg := p.msg.(ttl := p.msg.ttl - 1);
      forall x | x in out ensures IsCopy(x, id) && x.src == p.dst && x.msg.ttl == p.msg.ttl - 1 {
        InCopies(peers, s.order, n.addr, msg, x);
      }
      forall b | Neighbour(start, origin, p.dst, b) && b != p.src ensures Coming(out, b, p.msg.ttl - 1) {
        var m :| m in start.nodes[p.dst].peers && m != origin && start.nodes[p.dst].peers[m].addr == b;
        assert m in peers && peers[m].addr == b;
        assert m in s.order;
        var i :| 0 <= i < |s.order| && s.order[i] == m;
        assert out[i].dst == b;
      }
    } else {
      OrderSize(s.order, {});
    }
  }

  lemma AcceptStep(net: Net, s: Step, id: MsgId)
    requires Enabled(net, s) && id != "" && s.Receive? && Takes(net, s, id) && net.flight[s.i].dst in net.nodes
    requires Accepts(net.nodes[net.flight[s.i].dst], net.flight[s.i].msg)
    ensures var net' := Apply(net, s);
            var p := net.flight[s.i];
            && net'.accepts == net.accepts + [Acceptance(p.dst, id, p.msg.ttl)] && net'.origins == net.origins
            && net'.nodes.Keys == net.nodes.Keys
            && (forall a :: a in net.nodes ==>
                  && (id in net'.nodes[a].seen <==> id in net.nodes[a].seen || a == p.dst)
                  && net'.nodes[a].id == net.nodes[a].id)
  {}

  lemma Accepted(start: Net, net: Net, s: Step, id: MsgId, o: Addr, fifo: bool)
    requires o in start.nodes && Covering(start, net, id, o, fifo)
    requires Calm(start, net, s, id, start.nodes[o].id, fifo) && Takes(net, s, id)
    requires net.flight[s.i].dst in net.nodes && Accepts(net.nodes[net.flight[s.i].dst], net.flight[s.i].msg)
    ensures Covering(start, Apply(net, s), id, o, fifo)
  {
    hide Apply, Inv, CopiesOf, Cover, SameTables, Puts, Without, Accepts;
    var p := net.flight[s.i];
    StepKeeps(net, s);
    AcceptStep(net, s, id);
    StepCopies(net, s, id);
    AcceptorPassesOn(start, net, s, id, o);
    var q, k := CopiesOf(net.flight, id), |CopiesOf(net.flight[..s.i], id)|;
    CoverAccept(start, id, o, q, k, net.accepts, Puts(net, s, id), fifo);
    var acc := Acceptance(p.dst, id, p.msg.ttl);
    assert forall x :: x in Apply(net, s).accepts <==> x in net.accepts || x == acc;
  }

  lemma CalmStep(start: Net, net: Net, s: Step, id: MsgId, o: Addr, fifo: bool)
    requires o in start.nodes && Covering(start, net, id, o, fifo)
    requires Calm(start, net, s, id, start.nodes[o].id, fifo)
    ensures Covering(start, Apply(net, s), id, o, fifo)
  {
    hide Apply, Covering, Accepts;
    if !Takes(net, s, id) {
      Untouched(start, net, s, id, o, fifo);
    } else if net.flight[s.i].dst in net.nodes && Accepts(net.nodes[net.flight[s.i].dst], net.flight[s.i].msg) {
      Accepted(start, net, s, id, o, fifo);
    } else {
      Repeated(start, net, s, id, o, fifo);
    }
  }

  // ---- the broadcast -------------------------------------------------------

  /** The broadcast itself establishes the invariant. */
  lemma BroadcastCovers(start: Net, b: Step, fifo: bool)
    requires Inv(start) && b.Broadcast? && Enabled(start, b)
    ensures b.at in start.nodes && Covering(start, Apply(start, b), b.id, b.at, fifo)
  {
    hide Inv, Cover, CopiesOf, Copies, LinksOf;
    var o, id := b.at, b.id;
    var n := start.nodes[o];
    var net := Apply(start, b);
    StepKeeps(start, b);
    NoCopiesYet(start, id);
    StepCopies(start, b, id);
    var out := Copies(n.peers, b.order, n.addr, ShareOf(n, id, b.results));
    assert [] + out == out;
    OutboundCover(start, b, fifo);
  }

  lemma NoCopiesYet(net: Net, id: MsgId)
    requires Inv(net) && id !in net.origins
    ensures CopiesOf(net.flight, id) == []
    ensures forall a :: a in net.accepts ==> a.id != id
    ensures forall at :: at in net.nodes ==> id !in net.nodes[at].seen
  {
    forall p | p in net.flight ensures !IsCopy(p, id) { assert GoodPacket(net, p); }
    AllOrNone(net.flight, id, false);
    forall a | a in net.accepts ensures a.id != id { assert GoodAcceptance(net, a); }
  }

  lemma OutboundCover(start: Net, b: Step, fifo: bool)
    requires Inv(start) && b.Broadcast? && Enabled(start, b)
    ensures var n := start.nodes[b.at];
            Cover(start, b.id, b.at, Copies(n.peers, b.order, n.addr, ShareOf(n, b.id, b.results)), start.accepts, fifo)
  {
    var o, id := b.at, b.id;
    var n := start.nodes[o];
    var msg := ShareOf(n, id, b.results);
    var out := Copies(n.peers, b.order, n.addr, msg);
    NoCopiesYet(start, id);
    GoodNodeAt(start.nodes, o);
    forall p | p in out ensures p.msg == msg && p.src == o { InCopies(n.peers, b.order, n.addr, msg, p); }
    forall x | Neighbour(start, n.id, o, x) ensures Coming(out, x, DEFAULT_TTL) {
      var m :| m in n.peers && m != n.id && n.peers[m].addr == x;
      assert m in b.order;
      var i :| 0 <= i < |b.order| && b.order[i] == m;
      assert out[i].dst == x;
    }
    assert Ordered(out) by {
      forall i | 0 <= i < |out| ensures out[i].msg == msg { assert out[i] in out; }
    }
  }

  ghost predicate Took(net: Net, id: MsgId, x: Addr) {
    exists a :: a in net.accepts && a.at == x && a.id == id
  }

  lemma SuppliedAtEnd(accepts: seq<Acceptance>, id: MsgId, o: Addr)
    ensures forall x, t :: Supplied([], accepts, id, o, x, t) ==> x == o || AcceptedWith(accepts, id, x, t)
  {}

  // ---- in order of sending -----------------------------------------------------------------

  /** Following peer tables from the origin, `x` can be reached in exactly `k` links. */
  ghost predicate Reach(start: Net, origin: NodeId, o: Addr, k: nat, x: Addr) {
    if k == 0 then x == o
    else exists y :: Reach(start, origin, o, k - 1, y) && Neighbour(start, origin, y, x)
  }

  lemma {:induction false} ReachedInOrder(start: Net, end: Net, id: MsgId, o: Addr, k: nat, x: Addr)
    requires o in start.nodes && Covering(start, end, id, o, true) && CopiesOf(end.flight, id) == []
    requires k <= DEFAULT_TTL + 1 && Reach(start, start.nodes[o].id, o, k, x)
    ensures x == o || AcceptedWith(end.accepts, id, x, DEFAULT_TTL + 1 - k)
  {
    hide Neighbour, Inv, Known, SameTables;
    SuppliedAtEnd(end.accepts, id, o);
    if k > 0 {
      var origin := start.nodes[o].id;
      var y :| Reach(start, origin, o, k - 1, y) && Neighbour(start, origin, y, x);
      ReachedInOrder(start, end, id, o, k - 1, y);
      if y != o && x != o {
        var a :| a in end.accepts && a.at == y && a.id == id && a.ttl >= DEFAULT_TTL + 2 - k;
        AcceptedLower(end.accepts, id, x, a.ttl - 1, DEFAULT_TTL + 1 - k);
      } else if x != o {
        AcceptedLower(end.accepts, id, x, DEFAULT_TTL, DEFAULT_TTL + 1 - k);
      }
    }
  }

  /** The links the message crosses follow the peer tables. */
  ghost predicate Along(start: Net, net: Net, id: MsgId, origin: NodeId) {
    forall l :: l in net.crossed && l.id == id && l.dst in start.nodes ==> Neighbour(start, origin, l.src, l.dst)
  }

  lemma AcceptorAlong(start: Net, net: Net, s: Step, id: MsgId, o: Addr, l: Link)
    requires o in start.nodes && Known(start, net, id, o) && Inv(net) && Enabled(net, s)
    requires SameTables(start, net, start.nodes[o].id)
    requires s.Receive? && l in Apply(net, s).crossed && l !in net.crossed && l.id == id && l.dst in start.nodes
    ensures Neighbour(start, start.nodes[o].id, l.src, l.dst)
  {
    hide Walk, GoodAcceptance, GoodDelivery, RealLink, CopiesOf;
    var p := net.flight[s.i];
    var n := net.nodes[p.dst];
    assert GoodPacket(net, p);
    GoodNodeAt(net.nodes, p.dst);
    var out := Outbox(n, p.msg, p.src, net.now, s.order);
    var x :| x in out && x.msg.Share? && Link(x.msg.id, x.src, x.dst) == l;
    var peers := Refreshed(n, p.msg, p.src, net.now).peers;
    var i :| 0 <= i < |out| && out[i] == x;
    var m := s.order[i];
    assert m in s.order;
    assert m in peers && peers[m].addr == l.dst && peers[m].addr != p.src;
    assert m in start.nodes[p.dst].peers && m != start.nodes[o].id;
  }

  lemma StepAlong(start: Net, net: Net, s: Step, id: MsgId, o: Addr)
    requires o in start.nodes && Known(start, net, id, o) && Inv(net) && Enabled(net, s)
    requires SameTables(start, net, start.nodes[o].id)
    requires Along(start, net, id, start.nodes[o].id)
    ensures Along(start, Apply(net, s), id, start.nodes[o].id)
  {
    hide Neighbour, Known, SameTables;
    forall l | l in Apply(net, s).crossed && l !in net.crossed && l.id == id && l.dst in start.nodes
      ensures Neighbour(start, start.nodes[o].id, l.src, l.dst)
    {
      if s.Receive? {
        AcceptorAlong(start, net, s, id, o, l);
      } else {
        OnlyReceiveCrosses(start, net, s, id, o, l);
      }
    }
  }

  lemma OnlyReceiveCrosses(start: Net, net: Net, s: Step, id: MsgId, o: Addr, l: Link)
    requires Known(start, net, id, o) && Enabled(net, s) && !s.Receive?
    requires l in Apply(net, s).crossed && l !in net.crossed
    ensures l.id != id
  {
    if s.Broadcast? || s.Beat? {
      var n := net.nodes[s.at];
      var msg := if s.Beat? then Heartbeat(n.id) else ShareOf(n, s.id, s.results);
      var x :| x in Copies(n.peers, s.order, n.addr, msg) && x.msg.Share? && Link(x.msg.id, x.src, x.dst) == l;
      InCopies(n.peers, s.order, n.addr, msg, x);
    }
  }

  lemma BroadcastAlong(start: Net, b: Step)
    requires Inv(start) && b.Broadcast? && Enabled(start, b)
    ensures Along(start, Apply(start, b), b.id, start.nodes[b.at].id)
  {
    var n := start.nodes[b.at];
    var msg := ShareOf(n, b.id, b.results);
    GoodNodeAt(start.nodes, b.at);
    forall l | l in Apply(start, b).crossed && l.id == b.id && l.dst in start.nodes
      ensures Neighbour(start, n.id, l.src, l.dst)
    {
      var x :| x in Copies(n.peers, b.order, n.addr, msg) && x.msg.Share? && Link(x.msg.id, x.src, x.dst) == l;
      InCopies(n.peers, b.order, n.addr, msg, x);
    }
  }

  lemma {:induction false} WalkIsReach(start: Net, net: Net, id: MsgId, origin: NodeId, o: Addr, k: nat, x: Addr)
    requires Along(start, net, id, origin) && x in start.nodes && Walk(net.crossed, id, o, k, x)
    requires forall l :: l in net.crossed ==> l.src in start.nodes
    ensures Reach(start, origin, o, k, x)
  {
    if k > 0 {
      var y :| Link(id, y, x) in net.crossed && Walk(net.crossed, id, o, k - 1, y);
      assert Link(id, y, x).src in start.nodes;
      WalkIsReach(start, net, id, origin, o, k - 1, y);
    }
  }

  lemma TookIsReached(start: Net, end: Net, id: MsgId, o: Addr, x: Addr)
    requires Inv(end) && o in start.nodes && x in start.nodes && Took(end, id, x)
    requires end.nodes.Keys == start.nodes.Keys && id in end.origins && end.origins[id].at == o
    requires Along(start, end, id, start.nodes[o].id)
    ensures exists k: nat :: k <= 4 && Reach(start, start.nodes[o].id, o, k, x)
  {
    hide Reach, Neighbour, Walk;
    var a :| a in end.accepts && a.at == x && a.id == id;
    assert GoodAcceptance(end, a);
    assert forall l :: l in end.crossed ==> RealLink(end, l);
    var hops: nat := DEFAULT_TTL + 1 - a.ttl;
    WalkIsReach(start, end, id, start.nodes[o].id, o, hops, x);
  }

  // ---- in any order ------------------------------------------------------------------------

  /** `y` is the origin, or took the message with at least `ttl` hops left. */
  ghost predicate CameBy(accepts: seq<Acceptance>, id: MsgId, o: Addr, y: Addr, ttl: int) {
    y == o || AcceptedWith(accepts, id, y, ttl)
  }

  ghost predicate AcceptanceSourced(crossed: set<Link>, accepts: seq<Acceptance>, id: MsgId, o: Addr, a: Acceptance) {
    exists y :: Link(id, y, a.at) in crossed && CameBy(accepts, id, o, y, a.ttl + 1)
  }

  /** Every copy, and every acceptance, comes from the origin or from a node that took the message with a
      hop more. */
  ghost predicate Sourced(net: Net, id: MsgId, o: Addr) {
    && (forall p :: p in CopiesOf(net.flight, id) ==>
          IsCopy(p, id) && CameBy(net.accepts, id, o, p.src, p.msg.ttl + 1))
    && (forall a :: a in net.accepts && a.id == id ==> AcceptanceSourced(net.crossed, net.accepts, id, o, a))
  }

  lemma SourcesStay(net: Net, net': Net, id: MsgId, o: Addr)
    requires net.crossed <= net'.crossed && net.accepts <= net'.accepts
    ensures forall y, t :: CameBy(net.accepts, id, o, y, t) ==> CameBy(net'.accepts, id, o, y, t)
    ensures forall a :: AcceptanceSourced(net.crossed, net.accepts, id, o, a) ==>
                          AcceptanceSourced(net'.crossed, net'.accepts, id, o, a)
  {
    hide AcceptedWith;
    forall y, t | CameBy(net.accepts, id, o, y, t) ensures CameBy(net'.accepts, id, o, y, t) {
      if y != o {
        AcceptedMore(net.accepts, net'.accepts[|net.accepts|..], id, y, t);
        assert net'.accepts == net.accepts + net'.accepts[|net.accepts|..];
      }
    }
    forall a | AcceptanceSourced(net.crossed, net.accepts, id, o, a)
      ensures AcceptanceSourced(net'.crossed, net'.accepts, id, o, a)
    {
      var y :| Link(id, y, a.at) in net.crossed && CameBy(net.accepts, id, o, y, a.ttl + 1);
      assert Link(id, y, a.at) in net'.crossed;
    }
  }

  /** What a step adds: acceptances at the end, and links. */
  lemma StepAdds(net: Net, s: Step, id: MsgId)
    requires Enabled(net, s)
    ensures var net' := Apply(net, s);
            && net.crossed <= net'.crossed && net.accepts <= net'.accepts
            && (!Takes(net, s, id) ==> forall a :: a in net'.accepts && a.id == id ==> a in net.accepts)
  {}

  lemma StepSourced(net: Net, s: Step, id: MsgId, o: Addr)
    requires Inv(net) && Enabled(net, s) && id != "" && id in net.origins && Sourced(net, id, o)
    ensures Sourced(Apply(net, s), id, o)
  {
    hide Inv, Apply, CopiesOf, Without, AcceptedWith, CameBy, AcceptanceSourced, Accepts, Puts;
    var net' := Apply(net, s);
    StepAdds(net, s, id);
    SourcesStay(net, net', id, o);
    StepCopies(net, s, id);
    if !Takes(net, s, id) {
      PutsNothing(net, s, id);
    } else {
      var q, k := CopiesOf(net.flight, id), |CopiesOf(net.flight[..s.i], id)|;
      assert forall p :: p in Without(q, k) ==> p in q by { WithoutIn(q, k); }
      var p := net.flight[s.i];
      assert q[k] in q;
      if s.Receive? && p.dst in net.nodes && Accepts(net.nodes[p.dst], p.msg) {
        AcceptStep(net, s, id);
        AcceptSourced(net, s, id, o);
        var acc := Acceptance(p.dst, id, p.msg.ttl);
        assert forall a :: a in net'.accepts ==> a in net.accepts || a == acc;
      } else {
        TakenIdly(net, s, id);
      }
    }
  }

  lemma WithoutIn(q: seq<Packet>, k: nat)
    requires k < |q|
    ensures forall p :: p in Without(q, k) ==> p in q
  {}

  lemma PutsNothing(net: Net, s: Step, id: MsgId)
    requires Enabled(net, s) && id in net.origins && !Takes(net, s, id)
    ensures Puts(net, s, id) == []
  {}

  /** A copy lost, or received without being accepted. */
  lemma TakenIdly(net: Net, s: Step, id: MsgId)
    requires Enabled(net, s) && id != "" && Takes(net, s, id)
    requires s.Receive? && net.flight[s.i].dst in net.nodes ==>
               !Accepts(net.nodes[net.flight[s.i].dst], net.flight[s.i].msg)
    ensures Puts(net, s, id) == [] && Apply(net, s).accepts == net.accepts
  {
    hide Outbox, Accepts, ForwardsTo, LinksOf, Handled;
    if s.Receive? { RepeatStep(net, s, id); }
  }

  /** An accepted copy is the source of the acceptance, and the acceptor of the copies it passes on. */
  lemma AcceptSourced(net: Net, s: Step, id: MsgId, o: Addr)
    requires Inv(net) && Enabled(net, s) && id != "" && s.Receive? && Takes(net, s, id)
    requires var p := net.flight[s.i];
             && p.dst in net.nodes && Accepts(net.nodes[p.dst], p.msg)
             && CameBy(net.accepts, id, o, p.src, p.msg.ttl + 1)
    ensures var net' := Apply(net, s);
            var p := net.flight[s.i];
            && (forall x :: x in Puts(net, s, id) ==>
                  IsCopy(x, id) && CameBy(net'.accepts, id, o, x.src, x.msg.ttl + 1))
            && AcceptanceSourced(net'.crossed, net'.accepts, id, o, Acceptance(p.dst, id, p.msg.ttl))
  {
    hide Walk, GoodAcceptance, GoodDelivery, RealLink, CopiesOf, LinksOf, Without;
    var net' := Apply(net, s);
    var p := net.flight[s.i];
    var n := net.nodes[p.dst];
    assert GoodPacket(net, p);
    GoodNodeAt(net.nodes, p.dst);
    StepAdds(net, s, id);
    SourcesStay(net, net', id, o);
    AcceptStep(net, s, id);
    var acc := Acceptance(p.dst, id, p.msg.ttl);
    AcceptedNow(net'.accepts, acc);
    forall x | x in Puts(net, s, id) ensures IsCopy(x, id) && x.src == p.dst && x.msg.ttl + 1 == p.msg.ttl {
      InCopies(Refreshed(n, p.msg, p.src, net.now).peers, s.order, n.addr, p.msg.(ttl := p.msg.ttl - 1), x);
    }
    assert Link(id, p.src, p.dst) in net'.crossed;
  }

  lemma BroadcastSourced(start: Net, b: Step)
    requires Inv(start) && b.Broadcast? && Enabled(start, b)
    ensures Sourced(Apply(start, b), b.id, b.at)
  {
    hide Inv, CopiesOf, LinksOf;
    var n := start.nodes[b.at];
    InvNodes(start);
    GoodNodeAt(start.nodes, b.at);
    NoCopiesYet(start, b.id);
    StepCopies(start, b, b.id);
    forall p | p in CopiesOf(Apply(start, b).flight, b.id) ensures p.src == b.at {
      InCopies(n.peers, b.order, n.addr, ShareOf(n, b.id, b.results), p);
    }
  }

  /** `x` is listed by the origin, or by a node that took the message with hops to spare. */
  ghost predicate ListedBySender(start: Net, end: Net, id: MsgId, o: Addr, x: Addr)
    requires o in start.nodes
  {
    var origin := start.nodes[o].id;
    || Neighbour(start, origin, o, x)
    || exists a :: a in end.accepts && a.id == id && a.ttl > 0 && Neighbour(start, origin, a.at, x)
  }

  lemma TookIsListed(start: Net, end: Net, id: MsgId, o: Addr, x: Addr)
    requires Inv(end) && o in start.nodes && x in start.nodes && Took(end, id, x)
    requires Along(start, end, id, start.nodes[o].id) && Sourced(end, id, o)
    ensures ListedBySender(start, end, id, o, x)
  {
    hide Neighbour, CopiesOf, Walk;
    var a :| a in end.accepts && a.at == x && a.id == id;
    assert GoodAcceptance(end, a);
    assert AcceptanceSourced(end.crossed, end.accepts, id, o, a);
    var y :| Link(id, y, x) in end.crossed && CameBy(end.accepts, id, o, y, a.ttl + 1);
    var l := Link(id, y, x);
    assert Neighbour(start, start.nodes[o].id, l.src, l.dst);
  }
}
