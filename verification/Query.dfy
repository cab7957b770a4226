/** The query engine: a plan filters the open endpoints of the chosen hosts. */
module Query {
  import opened Bytes
  import opened Strings
  import opened Wrappers
  import opened Records
  import opened Buckets
  import opened TemporalStore
  import IpRange

  /** A filter clause; a clause of any other type is ignored. */
  datatype Condition =
    | PortIs(value: Text)
    | ServiceIs(value: Text)
    | BannerContains(value: Text)
    | NewlyOpen
    | Open
    | Unknown

  /** An empty `target` stands for all known hosts. */
  datatype Plan = Plan(
    conditions: seq<Condition>, target: Text,
    since: Option<Time>, until: Option<Time>)

  datatype Row = Row(e: Endpoint, state: StateRecord)

  predicate Holds(c: Condition, rec: StateRecord, port: Port) {
    match c
    case PortIs(v) => ParseUint16(v).Err? || ParseUint16(v).value == port
    case ServiceIs(v) => ToLower(rec.serviceName) == ToLower(v)
    case BannerContains(v) => Contains(ToLower(rec.banner), ToLower(v))
    case NewlyOpen => rec.open
    case Open => rec.open
    case Unknown => true
  }

  predicate Matches(rec: StateRecord, port: Port, cs: seq<Condition>) {
    forall i :: 0 <= i < |cs| ==> Holds(cs[i], rec, port)
  }

  // ---- what a plan yields ------------------------------------------------------------------

  /** The record a plan judges an endpoint by: its latest, or with a since time the last one in the
      window. */
  function Judged(hosts: Hosts, e: Endpoint, plan: Plan): Option<StateRecord> {
    if Latest(hosts, e).None? || plan.since.None? then Latest(hosts, e)
    else
      var h := HistoryBetween(hosts, e, plan.since, plan.until);
      if h == [] then None else Some(h[|h| - 1])
  }

  function RowFor(hosts: Hosts, e: Endpoint, plan: Plan): Option<Row> {
    var rec := Judged(hosts, e, plan);
    if rec.Some? && Matches(rec.value, e.port, plan.conditions) then Some(Row(e, rec.value)) else None
  }

  function RowsOf(hosts: Hosts, ip: Text, keys: seq<Key>, plan: Plan): seq<Row> {
    if keys == [] then []
    else
      var row := RowFor(hosts, Decoded(ip, keys[|keys| - 1]), plan);
      RowsOf(hosts, ip, keys[..|keys| - 1], plan) + (if row.Some? then [row.value] else [])
  }

  function Rows(hosts: Hosts, ips: seq<Text>, plan: Plan): seq<Row> {
    if ips == [] then []
    else
      var ip := ips[|ips| - 1];
      Rows(hosts, ips[..|ips| - 1], plan) + RowsOf(hosts, ip, OpenKeys(HostOf(hosts, ip)), plan)
  }

  function HostKeys(hosts: Hosts): (ips: seq<Text>)
    ensures |ips| == |hosts| && forall i :: 0 <= i < |hosts| ==> ips[i] == hosts[i].key
  {
    seq(|hosts|, i requires 0 <= i < |hosts| => hosts[i].key)
  }

  /** Reading the text of addresses, and writing it (`ip.String()`). */
  datatype Notation = Notation(net: IpRange.Net, show: IpRange.Address -> Text)

  /** Hosts whose text is no address are skipped. */
  function Addresses(nt: Notation, ips: seq<Text>): seq<Text> {
    if ips == [] then []
    else
      Addresses(nt, ips[..|ips| - 1]) + (if nt.net.ip(ips[|ips| - 1]).Some? then [ips[|ips| - 1]] else [])
  }

  function Shown(nt: Notation, list: seq<IpRange.Address>): (ips: seq<Text>)
    ensures |ips| == |list| && forall i :: 0 <= i < |list| ==> ips[i] == nt.show(list[i])
  {
    seq(|list|, i requires 0 <= i < |list| => nt.show(list[i]))
  }

  /** `ips` are the hosts a target stands for, or its error. */
  ghost predicate Resolves(hosts: Hosts, nt: Notation, target: Text, ips: Result<seq<Text>>)
    requires IpRange.Countable(nt.net, target)
  {
    if target == [] then ips == Ok(HostKeys(hosts))
    else
      exists parsed: Result<seq<IpRange.Address>> ::
        && IpRange.TargetMeans(nt.net, target, parsed)
        && ips == match parsed case Ok(list) => Ok(Shown(nt, list)) case Err => Err
  }

  /** A target stands for one list of hosts only, or for its error. */
  lemma ResolvesOne(hosts: Hosts, nt: Notation, target: Text, a: Result<seq<Text>>, b: Result<seq<Text>>)
    requires IpRange.Countable(nt.net, target)
    requires Resolves(hosts, nt, target, a) && Resolves(hosts, nt, target, b)
    ensures a == b
  {
    if target != [] {
      var p :| IpRange.TargetMeans(nt.net, target, p)
               && a == match p case Ok(list) => Ok(Shown(nt, list)) case Err => Err;
      var q :| IpRange.TargetMeans(nt.net, target, q)
               && b == match q case Ok(list) => Ok(Shown(nt, list)) case Err => Err;
      IpRange.TargetMeansOne(nt.net, target, p, q);
    }
  }

  /** The rows of a plan, given the hosts its target stands for. */
  function Answer(hosts: Hosts, nt: Notation, resolved: Result<seq<Text>>, plan: Plan): Result<seq<Row>> {
    match resolved
    case Err => Err
    case Ok(ips) => Ok(Rows(hosts, Addresses(nt, ips), plan))
  }

  // ---- the engine --------------------------------------------------------------------------

  class Engine {
    const store: Store
    const nt: Notation

    constructor (st: Store, notation: Notation)
      ensures store == st && nt == notation
    {
      store, nt := st, notation;
    }

    /** Clause by clause, stopping at the first that fails. */
    method MatchesConditions(rec: StateRecord, port: Port, cs: seq<Condition>) returns (ok: bool)
      ensures ok <==> Matches(rec, port, cs)
    {
      for i := 0 to |cs|
        invariant forall j :: 0 <= j < i ==> Holds(cs[j], rec, port)
      {
        if !Holds(cs[i], rec, port) { return false; }
      }
      return true;
    }

    method ResolveHosts(target: Text) returns (ips: Result<seq<Text>>)
      requires store.Valid() && IpRange.Sound(nt.net) && IpRange.Countable(nt.net, target)
      ensures Resolves(store.hosts, nt, target, ips)
    {
      if target == [] {
        var all := store.ListHosts();
        assert all == HostKeys(store.hosts);
        return Ok(all);
      }
      var parsed := IpRange.Parse(nt.net, target);
      ips := match parsed case Ok(list) => Ok(Shown(nt, list)) case Err => Err;
    }

    method Judge(e: Endpoint, plan: Plan) returns (rec: Option<StateRecord>)
      requires store.Valid()
      ensures rec == Judged(store.hosts, e, plan)
    {
      rec := store.ReadLatestState(e);
      if rec.Some? && plan.since.Some? {
        var history := store.ReadHistory(e, plan.since, plan.until);
        rec := if history == [] then None else Some(history[|history| - 1]);
      }
    }

    method Execute(plan: Plan) returns (r: Result<seq<Row>>)
      requires store.Valid() && IpRange.Sound(nt.net) && IpRange.Countable(nt.net, plan.target)
      ensures exists resolved ::
                && Resolves(store.hosts, nt, plan.target, resolved)
                && r == Answer(store.hosts, nt, resolved, plan)
                && (r.Ok? <==> resolved.Ok?)
                && (r.Ok? ==> r.value == Rows(store.hosts, Addresses(nt, resolved.value), plan))
    {
      hide RowsOf, OpenKeys, HostOf, HostKeys, Resolves;
      var hosts := ResolveHosts(plan.target);
      if hosts.Err? { return Err; }
      var ips := hosts.value;
      var rows := [];
      for i := 0 to |ips|
        invariant rows == Rows(store.hosts, Addresses(nt, ips[..i]), plan)
      {
        assert ips[..i + 1][..i] == ips[..i];
        ghost var before := Addresses(nt, ips[..i]);
        if nt.net.ip(ips[i]).None? {
          assert before + [] == before;
          continue;
        }
        assert (before + [ips[i]])[..|before|] == before;
        var more := ExecuteHost(ips[i], plan);
        rows := rows + more;
      }
      assert ips[..|ips|] == ips;
      return Ok(rows);
    }

    method ExecuteHost(ip: Text, plan: Plan) returns (rows: seq<Row>)
      requires store.Valid()
      ensures rows == RowsOf(store.hosts, ip, OpenKeys(HostOf(store.hosts, ip)), plan)
    {
      var keys := store.ReadOpenPorts(ip);
      rows := [];
      for j := 0 to |keys|
        invariant rows == RowsOf(store.hosts, ip, keys[..j], plan)
      {
        assert keys[..j + 1][..j] == keys[..j];
        var e := Decoded(ip, keys[j]);
        var rec := Judge(e, plan);
        var matched := false;
        if rec.Some? { matched := MatchesConditions(rec.value, e.port, plan.conditions); }
        if matched {
          rows := rows + [Row(e, rec.value)];
        }
      }
      assert keys[..|keys|] == keys;
    }
  }

  // ---- which rows come back ----------------------------------------------------------------

  lemma {:induction false} RowsOfMember(hosts: Hosts, ip: Text, keys: seq<Key>, plan: Plan, r: Row)
    ensures r in RowsOf(hosts, ip, keys, plan) <==>
            RowFor(hosts, r.e, plan) == Some(r) && exists i :: 0 <= i < |keys| && Decoded(ip, keys[i]) == r.e
  {
    hide RowFor, Decoded;
    if keys != [] {
      var n := |keys| - 1;
      RowsOfMember(hosts, ip, keys[..n], plan, r);
      RowKeepsEndpoint(hosts, Decoded(ip, keys[n]), plan);
      assert forall j :: 0 <= j < n ==> keys[..n][j] == keys[j];
    }
  }

  lemma RowKeepsEndpoint(hosts: Hosts, e: Endpoint, plan: Plan)
    ensures RowFor(hosts, e, plan).Some? ==> RowFor(hosts, e, plan).value.e == e
  {}

  lemma {:induction false} RowsMember(hosts: Hosts, ips: seq<Text>, plan: Plan, r: Row)
    requires Good(hosts) && Clean(hosts)
    ensures r in Rows(hosts, ips, plan) <==>
            r.e.ip in ips && IsOpen(hosts, r.e) && RowFor(hosts, r.e, plan) == Some(r)
  {
    hide RowFor, IsOpen, RowsOf, Good, Clean, Decoded;
    if ips != [] {
      var n := |ips| - 1;
      RowsMember(hosts, ips[..n], plan, r);
      var keys := OpenKeys(HostOf(hosts, ips[n]));
      RowsOfMember(hosts, ips[n], keys, plan, r);
      OpenKeysDecode(hosts, ips[n], keys, r.e.port, r.e.proto);
      forall i | 0 <= i < |keys| ensures Decoded(ips[n], keys[i]).ip == ips[n] { DecodedIp(ips[n], keys[i]); }
      assert r.e == Endpoint(r.e.ip, r.e.port, r.e.proto);
      assert r.e.ip in ips <==> r.e.ip in ips[..n] || r.e.ip == ips[n];
    }
  }

  lemma DecodedIp(ip: Text, key: Key)
    ensures Decoded(ip, key).ip == ip
  {}

  /** The last record of a window that is open to the right is the latest record, when that is recent
      enough; otherwise the window is empty. */
  lemma LastOfOpenWindow(hosts: Hosts, e: Endpoint, since: Option<Time>)
    requires Good(hosts) && Latest(hosts, e).Some?
    ensures var h := HistoryBetween(hosts, e, since, None);
            var latest := Latest(hosts, e).value;
            if InTime(latest.timestamp, since, None) then h != [] && h[|h| - 1] == latest else h == []
  {
    hide Window, Good;
    GoodHistory(hosts, e);
    var b := History(hosts, e);
    var latest := b[|b| - 1].value;
    var h := HistoryBetween(hosts, e, since, None);
    WindowIsTimeRange(b, RecordTime, since, None);
    assert latest == Values(b)[|b| - 1];
    if h != [] {
      var last := h[|h| - 1];
      assert last in h && last in Values(b);
      NotNewer(b, last);
      assert InTime(latest.timestamp, since, None);
      var i :| 0 <= i < |h| && h[i] == latest;
      AscendingToLast(h, i);
    } else {
      assert latest in Values(b) && latest !in h;
    }
  }

  lemma NotNewer(b: PortBucket, rec: StateRecord)
    requires GoodPorts(b) && rec in Values(b)
    ensures Unsigned(rec.timestamp) <= Unsigned(b[|b| - 1].value.timestamp)
    ensures rec.timestamp == b[|b| - 1].value.timestamp ==> rec == b[|b| - 1].value
  {
    var j :| 0 <= j < |b| && b[j].value == rec;
    TsKeyOrder(rec.timestamp, b[|b| - 1].value.timestamp);
    LessIrreflexive(TsKey(rec.timestamp));
  }

  lemma AscendingToLast(h: seq<StateRecord>, i: nat)
    requires Ascending(h, RecordTime) && i < |h|
    ensures Unsigned(h[i].timestamp) <= Unsigned(h[|h| - 1].timestamp)
  {
    assert i < |h| - 1 ==> Unsigned(RecordTime(h[i])) < Unsigned(RecordTime(h[|h| - 1]));
  }

  /** Without an until time, a plan returns exactly the open endpoints of its hosts whose latest record
      is not older than the since time and satisfies the conditions, each with that latest record. */
  lemma ExecuteReturnsOpenRecent(hosts: Hosts, ips: seq<Text>, plan: Plan, r: Row)
    requires Good(hosts) && Clean(hosts) && plan.until.None?
    ensures r in Rows(hosts, ips, plan) <==>
            && r.e.ip in ips && IsOpen(hosts, r.e) && r.state == Latest(hosts, r.e).value
            && InTime(r.state.timestamp, plan.since, None)
            && Matches(r.state, r.e.port, plan.conditions)
  {
    hide Rows, RowFor, IsOpen, Good, Clean, Matches, InTime;
    RowsMember(hosts, ips, plan, r);
    if IsOpen(hosts, r.e) { RowOfOpen(hosts, plan, r); }
  }

  lemma RowOfOpen(hosts: Hosts, plan: Plan, r: Row)
    requires Good(hosts) && plan.until.None? && IsOpen(hosts, r.e)
    ensures RowFor(hosts, r.e, plan) == Some(r) <==>
            && r.state == Latest(hosts, r.e).value && InTime(r.state.timestamp, plan.since, None)
            && Matches(r.state, r.e.port, plan.conditions)
  {
    hide Good, Matches, HistoryBetween;
    LastOfOpenWindow(hosts, r.e, plan.since);
  }

  lemma {:induction false} AddressesMember(nt: Notation, ips: seq<Text>)
    ensures forall ip :: ip in Addresses(nt, ips) <==> ip in ips && nt.net.ip(ip).Some?
    ensures (forall i, j :: 0 <= i < j < |ips| ==> ips[i] != ips[j]) ==>
              forall i, j :: 0 <= i < j < |Addresses(nt, ips)| ==>
                Addresses(nt, ips)[i] != Addresses(nt, ips)[j]
  {
    if ips != [] {
      AddressesMember(nt, ips[..|ips| - 1]);
      assert ips == ips[..|ips| - 1] + [ips[|ips| - 1]];
    }
  }

  /** A query for all hosts leaves no open endpoint out. */
  lemma AllHostsAreSearched(hosts: Hosts, e: Endpoint)
    requires Good(hosts) && IsOpen(hosts, e)
    ensures e.ip in HostKeys(hosts)
  {
    var i := Seek(hosts, e.ip);
    assert HostOf(hosts, e.ip) != [];
    assert HostKeys(hosts)[i] == e.ip;
  }

  // ---- each row once -----------------------------------------------------------------------

  ghost predicate DistinctRows(rows: seq<Row>) {
    forall i, j :: 0 <= i < j < |rows| ==> rows[i].e != rows[j].e
  }

  lemma {:induction false} RowsOfDistinct(hosts: Hosts, ip: Text, keys: seq<Key>, plan: Plan)
    requires forall i, j :: 0 <= i < j < |keys| ==> Decoded(ip, keys[i]) != Decoded(ip, keys[j])
    ensures DistinctRows(RowsOf(hosts, ip, keys, plan))
    ensures forall r :: r in RowsOf(hosts, ip, keys, plan) ==> r.e.ip == ip
  {
    hide RowFor, Decoded;
    if keys != [] {
      var n := |keys| - 1;
      RowsOfDistinct(hosts, ip, keys[..n], plan);
      RowKeepsEndpoint(hosts, Decoded(ip, keys[n]), plan);
      DecodedIp(ip, keys[n]);
      forall r | r in RowsOf(hosts, ip, keys[..n], plan) ensures r.e != Decoded(ip, keys[n]) {
        RowsOfMember(hosts, ip, keys[..n], plan, r);
      }
    }
  }

  /** Distinct hosts give every endpoint at most one row. */
  lemma {:induction false} RowsDistinct(hosts: Hosts, ips: seq<Text>, plan: Plan)
    requires Good(hosts) && Clean(hosts)
    requires forall i, j :: 0 <= i < j < |ips| ==> ips[i] != ips[j]
    ensures DistinctRows(Rows(hosts, ips, plan))
    ensures forall r :: r in Rows(hosts, ips, plan) ==> r.e.ip in ips
  {
    hide OpenKeys, HostOf, RowsOf, Decoded, Good, Clean;
    if ips != [] {
      var n := |ips| - 1;
      RowsDistinct(hosts, ips[..n], plan);
      var keys := OpenKeys(HostOf(hosts, ips[n]));
      OpenKeysDecode(hosts, ips[n], keys, 0, []);
      RowsOfDistinct(hosts, ips[n], keys, plan);
      var a, b := Rows(hosts, ips[..n], plan), RowsOf(hosts, ips[n], keys, plan);
      forall i, j | 0 <= i < |a| && 0 <= j < |b| ensures a[i].e.ip != b[j].e.ip {
        assert a[i] in a && b[j] in b;
      }
    }
  }

  // ---- the "open" and "new-port" clauses ---------------------------------------------------

  predicate AsksOpen(c: Condition) { c.NewlyOpen? || c.Open? }

  function WithoutOpen(cs: seq<Condition>): seq<Condition> {
    if cs == [] then []
    else (if AsksOpen(cs[0]) then [] else [cs[0]]) + WithoutOpen(cs[1..])
  }

  lemma MatchesCons(rec: StateRecord, port: Port, c: Condition, cs: seq<Condition>)
    ensures Matches(rec, port, [c] + cs) <==> Holds(c, rec, port) && Matches(rec, port, cs)
  {
    var all := [c] + cs;
    assert forall i :: 0 <= i < |cs| ==> all[i + 1] == cs[i];
    assert Matches(rec, port, all) ==> Holds(all[0], rec, port);
    if Matches(rec, port, all) {
      forall i | 0 <= i < |cs| ensures Holds(cs[i], rec, port) { assert Holds(all[i + 1], rec, port); }
    }
  }

  ghost predicate AnyAsksOpen(cs: seq<Condition>) { exists i :: 0 <= i < |cs| && AsksOpen(cs[i]) }

  lemma AnyAsksOpenCons(c: Condition, cs: seq<Condition>)
    ensures AnyAsksOpen([c] + cs) <==> AsksOpen(c) || AnyAsksOpen(cs)
  {
    var all := [c] + cs;
    assert all[0] == c && forall i :: 0 <= i < |cs| ==> all[i + 1] == cs[i];
    if i :| 0 <= i < |cs| && AsksOpen(cs[i]) { assert AsksOpen(all[i + 1]); }
  }

  lemma {:induction false} MatchesWithoutOpen(rec: StateRecord, port: Port, cs: seq<Condition>)
    ensures Matches(rec, port, cs) <==> Matches(rec, port, WithoutOpen(cs)) && (rec.open || !AnyAsksOpen(cs))
  {
    if cs != [] {
      hide Matches, AnyAsksOpen;
      assert cs == [cs[0]] + cs[1..];
      MatchesWithoutOpen(rec, port, cs[1..]);
      MatchesCons(rec, port, cs[0], cs[1..]);
      AnyAsksOpenCons(cs[0], cs[1..]);
      if AsksOpen(cs[0]) {
        assert WithoutOpen(cs) == WithoutOpen(cs[1..]);
      } else {
        MatchesCons(rec, port, cs[0], WithoutOpen(cs[1..]));
      }
    }
  }

  /** The last record of the plan's window satisfies the other clauses but was closed. */
  ghost predicate EndsClosed(hosts: Hosts, e: Endpoint, plan: Plan) {
    && plan.since.Some?
    && var h := HistoryBetween(hosts, e, plan.since, plan.until);
       h != [] && !h[|h| - 1].open && Matches(h[|h| - 1], e.port, WithoutOpen(plan.conditions))
  }

  /** Dropping the "open" and "new-port" clauses changes the row of an open endpoint exactly when the
      plan has such a clause and the last record between its since and until times was closed. */
  lemma OpenClausesMatterIff(hosts: Hosts, e: Endpoint, plan: Plan)
    requires IsOpen(hosts, e)
    ensures RowFor(hosts, e, plan) != RowFor(hosts, e, plan.(conditions := WithoutOpen(plan.conditions))) <==>
            AnyAsksOpen(plan.conditions) && EndsClosed(hosts, e, plan)
  {
    var rec := Judged(hosts, e, plan);
    if rec.Some? {
      MatchesWithoutOpen(rec.value, e.port, plan.conditions);
    }
  }

  lemma {:induction false} RowsOfWithoutOpen(hosts: Hosts, ip: Text, keys: seq<Key>, plan: Plan)
    requires Good(hosts) && plan.until.None?
    requires forall k :: k in keys ==> IsOpen(hosts, Decoded(ip, k))
    ensures RowsOf(hosts, ip, keys, plan.(conditions := WithoutOpen(plan.conditions))) == RowsOf(hosts, ip, keys, plan)
  {
    hide Good, IsOpen, Decoded, RowFor;
    if keys != [] {
      assert keys[|keys| - 1] in keys;
      RowWithoutOpen(hosts, Decoded(ip, keys[|keys| - 1]), plan);
      RowsOfWithoutOpen(hosts, ip, keys[..|keys| - 1], plan);
    }
  }

  lemma RowWithoutOpen(hosts: Hosts, e: Endpoint, plan: Plan)
    requires Good(hosts) && plan.until.None? && IsOpen(hosts, e)
    ensures RowFor(hosts, e, plan.(conditions := WithoutOpen(plan.conditions))) == RowFor(hosts, e, plan)
  {
    LastOfOpenWindow(hosts, e, plan.since);
    OpenClausesMatterIff(hosts, e, plan);
  }

  function RecordAt(t: Time, open: bool): StateRecord {
    StateRecord(t, open, [], [], [], [], [], None, 0)
  }

  /** An endpoint closed at time 1 and open since time 5, asked about up to time 2: the clause "open"
      drops a row that is there without it. */
  lemma OpenClauseCanMatter(e: Endpoint)
    ensures var hosts := Written(Written([], e, RecordAt(1, false)), e, RecordAt(5, true));
            var plan := Plan([Open], [], Some(0), Some(2));
            && IsOpen(hosts, e)
            && RowFor(hosts, e, plan) == None
            && RowFor(hosts, e, plan.(conditions := [])) == Some(Row(e, RecordAt(1, false)))
  {
    hide Written, History, Window, InRange;
    TwoRecords(e);
    var b: PortBucket := [Entry(TsKey(1), RecordAt(1, false)), Entry(TsKey(5), RecordAt(5, true))];
    FirstInWindow(b);
    assert AsksOpen([Open][0]);
  }

  lemma FirstInWindow(b: PortBucket)
    requires |b| == 2 && b[0].key == TsKey(1) && b[1].key == TsKey(5)
    ensures Values(Window(b, Bound(Some(0)), Bound(Some(2)))) == [b[0].value]
  {
    hide InRange;
    InTimeIsInRange(1, Some(0), Some(2));
    InTimeIsInRange(5, Some(0), Some(2));
    assert Window(b[1..], Bound(Some(0)), Bound(Some(2))) == Window(b[2..], Bound(Some(0)), Bound(Some(2)));
  }

  lemma TwoRecords(e: Endpoint)
    ensures History(Written(Written([], e, RecordAt(1, false)), e, RecordAt(5, true)), e) ==
            [Entry(TsKey(1), RecordAt(1, false)), Entry(TsKey(5), RecordAt(5, true))]
  {
    hide Written, TsKey, Less, PortKey;
    var closed, open := RecordAt(1, false), RecordAt(5, true);
    WrittenGood([], e, closed);
    HistoryWritten([], e, closed, e);
    HistoryWritten(Written([], e, closed), e, open, e);
    TsKeyOrder(1, 5);
    assert History([], e) == [];
    assert Put([], TsKey(1), closed) == [Entry(TsKey(1), closed)];
    assert Put([Entry(TsKey(1), closed)], TsKey(5), open) == [Entry(TsKey(1), closed), Entry(TsKey(5), open)];
  }

  /** Without an until time the two clauses never change the answer. */
  lemma {:induction false} OpenClausesNeverMatter(hosts: Hosts, ips: seq<Text>, plan: Plan)
    requires Good(hosts) && Clean(hosts) && plan.until.None?
    ensures Rows(hosts, ips, plan.(conditions := WithoutOpen(plan.conditions))) == Rows(hosts, ips, plan)
  {
    if ips != [] {
      var ip := ips[|ips| - 1];
      var keys := OpenKeys(HostOf(hosts, ip));
      forall k | k in keys ensures IsOpen(hosts, Decoded(ip, k)) {
        GoodHistory(hosts, Endpoint(ip, 0, []));
        OpenKeysAre(HostOf(hosts, ip), k);
        DecodedKey(ip, k);
      }
      RowsOfWithoutOpen(hosts, ip, keys, plan);
      OpenClausesNeverMatter(hosts, ips[..|ips| - 1], plan);
    }
  }
}
