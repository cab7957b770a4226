/** What the rows of a query are, clause by clause, and in which order they come. */
module QueryRows {
  import opened Bytes
  import opened Strings
  import opened Wrappers
  import opened Records
  import opened Buckets
  import opened TemporalStore
  import opened Query
  import TargetText

  // ---- the clauses -------------------------------------------------------------------------

  function With(plan: Plan, c: Condition): Plan { plan.(conditions := [c] + plan.conditions) }

  lemma ClauseFilters(hosts: Hosts, ips: seq<Text>, plan: Plan, c: Condition, r: Row)
    requires Good(hosts) && Clean(hosts)
    ensures r in Rows(hosts, ips, With(plan, c)) <==>
              r in Rows(hosts, ips, plan) && Holds(c, r.state, r.e.port)
  {
    hide Rows, Good, Clean, IsOpen, Matches, Holds;
    RowsMember(hosts, ips, plan, r);
    RowsMember(hosts, ips, With(plan, c), r);
    MatchesCons(r.state, r.e.port, c, plan.conditions);
    assert Judged(hosts, r.e, With(plan, c)) == Judged(hosts, r.e, plan);
  }

  /** A port clause leaves exactly the rows of the port its value reads as; all of them when it reads as
      none. */
  lemma PortClause(hosts: Hosts, ips: seq<Text>, plan: Plan, value: Text, r: Row)
    requires Good(hosts) && Clean(hosts)
    ensures r in Rows(hosts, ips, With(plan, PortIs(value))) <==>
              r in Rows(hosts, ips, plan) &&
              forall p: Port, k: nat :: value == Zeros(k) + Decimal(p) ==> r.e.port == p
  {
    hide Rows, Good, Clean, ParseUint16, Zeros, Decimal;
    ClauseFilters(hosts, ips, plan, PortIs(value), r);
    forall p: Port, k: nat | value == Zeros(k) + Decimal(p) ensures ParseUint16(value) == Ok(p) {
      ParseUintIff(value, p);
    }
    if ParseUint16(value).Ok? { ParseUintIff(value, ParseUint16(value).value); }
  }

  /** In particular the number itself selects its port. */
  lemma PortClauseSelects(hosts: Hosts, ips: seq<Text>, plan: Plan, p: Port, r: Row)
    requires Good(hosts) && Clean(hosts)
    ensures r in Rows(hosts, ips, With(plan, PortIs(Decimal(p)))) <==>
              r in Rows(hosts, ips, plan) && r.e.port == p
  {
    hide Rows, Good, Clean;
    ClauseFilters(hosts, ips, plan, PortIs(Decimal(p)), r);
    ParseUintOfDecimal(p);
  }

  /** A service clause leaves exactly the rows whose service has that name, whatever the case of letters. */
  lemma ServiceClause(hosts: Hosts, ips: seq<Text>, plan: Plan, value: Text, r: Row)
    requires Good(hosts) && Clean(hosts)
    ensures r in Rows(hosts, ips, With(plan, ServiceIs(value))) <==>
              r in Rows(hosts, ips, plan) && SameButCase(r.state.serviceName, value)
  {
    hide Rows, Good, Clean;
    ClauseFilters(hosts, ips, plan, ServiceIs(value), r);
    SameLowerIff(r.state.serviceName, value);
  }

  predicate FoldedAt(s: Text, sub: Text, i: int) {
    0 <= i <= |s| - |sub| && SameButCase(s[i..i + |sub|], sub)
  }

  /** `sub` stands somewhere in `s`, whatever the case of letters. */
  ghost predicate FoldedIn(s: Text, sub: Text) { exists i :: FoldedAt(s, sub, i) }

  /** A banner clause leaves exactly the rows with the value somewhere in the banner, whatever the case of
      letters. */
  lemma BannerClause(hosts: Hosts, ips: seq<Text>, plan: Plan, value: Text, r: Row)
    requires Good(hosts) && Clean(hosts)
    ensures r in Rows(hosts, ips, With(plan, BannerContains(value))) <==>
              r in Rows(hosts, ips, plan) && FoldedIn(r.state.banner, value)
  {
    hide Rows, Good, Clean, ToLower, Contains, FoldedIn;
    ClauseFilters(hosts, ips, plan, BannerContains(value), r);
    ContainsFoldedIff(r.state.banner, value);
  }

  lemma ContainsFoldedIff(s: Text, sub: Text)
    ensures Contains(ToLower(s), ToLower(sub)) <==> FoldedIn(s, sub)
  {
    hide ToLower, SameButCase, Contains;
    ContainsIff(ToLower(s), ToLower(sub));
    forall i ensures StandsAt(ToLower(s), ToLower(sub), i) <==> FoldedAt(s, sub, i) {
      if 0 <= i <= |s| - |sub| {
        LowerSlice(s, i, i + |sub|);
        SameLowerIff(s[i..i + |sub|], sub);
      }
    }
    if i :| FoldedAt(s, sub, i) { assert StandsAt(ToLower(s), ToLower(sub), i); }
  }

  lemma LowerSlice(s: Text, i: nat, j: nat)
    requires i <= j <= |s|
    ensures ToLower(s)[i..j] == ToLower(s[i..j])
  {}

  /** The clauses "open" and "new-port" leave the rows of open records; an unknown clause leaves all. */
  lemma OtherClauses(hosts: Hosts, ips: seq<Text>, plan: Plan, r: Row)
    requires Good(hosts) && Clean(hosts)
    ensures r in Rows(hosts, ips, With(plan, Open)) <==> r in Rows(hosts, ips, plan) && r.state.open
    ensures r in Rows(hosts, ips, With(plan, NewlyOpen)) <==> r in Rows(hosts, ips, plan) && r.state.open
    ensures r in Rows(hosts, ips, With(plan, Unknown)) <==> r in Rows(hosts, ips, plan)
  {
    hide Rows, Good, Clean;
    ClauseFilters(hosts, ips, plan, Open, r);
    ClauseFilters(hosts, ips, plan, NewlyOpen, r);
    ClauseFilters(hosts, ips, plan, Unknown, r);
  }

  /** Without clauses: every open endpoint of the hosts, with its latest record; with a since time, every
      open endpoint that has a record in the window, with the latest of those. */
  lemma RowsWithoutClauses(hosts: Hosts, ips: seq<Text>, plan: Plan, r: Row)
    requires Good(hosts) && Clean(hosts) && plan.conditions == []
    ensures r in Rows(hosts, ips, plan) <==>
              && r.e.ip in ips && IsOpen(hosts, r.e)
              && if plan.since.None? then Latest(hosts, r.e) == Some(r.state)
                 else LatestWithin(Values(History(hosts, r.e)), plan.since, plan.until, r.state)
  {
    hide Rows, Good, Clean, HistoryBetween, LatestWithin, History;
    RowsMember(hosts, ips, plan, r);
    if IsOpen(hosts, r.e) && plan.since.Some? {
      LastInWindow(hosts, r.e, plan.since, plan.until, r.state);
    }
  }

  /** Of the records within the bounds, `rec` is the one of greatest time. */
  ghost predicate LatestWithin(all: seq<StateRecord>, since: Option<Time>, until: Option<Time>, rec: StateRecord) {
    && rec in all && InTime(rec.timestamp, since, until)
    && forall other :: other in all && InTime(other.timestamp, since, until) ==>
                         Unsigned(other.timestamp) <= Unsigned(rec.timestamp)
  }

  lemma LastInWindow(hosts: Hosts, e: Endpoint, since: Option<Time>, until: Option<Time>, rec: StateRecord)
    requires Good(hosts) && History(hosts, e) != []
    ensures var h := HistoryBetween(hosts, e, since, until);
            (h != [] && h[|h| - 1] == rec) <==> LatestWithin(Values(History(hosts, e)), since, until, rec)
  {
    hide Window, Good, InTime, Values, GoodPorts;
    GoodHistory(hosts, e);
    Filed(History(hosts, e));
    var b := History(hosts, e);
    var h := HistoryBetween(hosts, e, since, until);
    WindowIsTimeRange(b, RecordTime, since, until);
    if h != [] {
      var last := h[|h| - 1];
      assert last in h;
      forall other | other in h ensures Unsigned(other.timestamp) <= Unsigned(last.timestamp) {
        var i :| 0 <= i < |h| && h[i] == other;
        AscendingToLast(h, i);
      }
      if LatestWithin(Values(b), since, until, rec) {
        assert rec in h;
        var i :| 0 <= i < |h| && h[i] == rec;
        AscendingStrictly(h, i);
      }
    }
  }

  lemma Filed(b: PortBucket)
    requires GoodPorts(b)
    ensures Stamped(b, RecordTime)
  {}

  lemma AscendingStrictly(h: seq<StateRecord>, i: nat)
    requires Ascending(h, RecordTime) && i < |h|
    ensures i < |h| - 1 ==> Unsigned(h[i].timestamp) < Unsigned(h[|h| - 1].timestamp)
  {
    assert i < |h| - 1 ==> Unsigned(RecordTime(h[i])) < Unsigned(RecordTime(h[|h| - 1]));
  }

  // ---- the hosts ---------------------------------------------------------------------------

  /** The hosts of a target that is not empty are the texts of the addresses it stands for, in their order;
      when it stands for none there is an error. */
  lemma ResolvesIff(hosts: Hosts, nt: Notation, target: Text, r: Result<seq<Text>>)
    requires IpRange.Sound(nt.net) && IpRange.Countable(nt.net, target) && target != []
    requires Resolves(hosts, nt, target, r)
    ensures r.Ok? <==> exists list :: TargetText.Denotes(nt.net, target, list)
    ensures forall list :: r.Ok? && TargetText.Denotes(nt.net, target, list) ==>
                             |r.value| == |list| && forall i :: 0 <= i < |list| ==> r.value[i] == nt.show(list[i])
  {
    hide IpRange.TargetMeans, TargetText.Denotes, IpRange.Countable;
    var parsed :| IpRange.TargetMeans(nt.net, target, parsed)
                  && r == match parsed case Ok(list) => Ok(Shown(nt, list)) case Err => Err;
    forall list
      ensures IpRange.TargetMeans(nt.net, target, Ok(list)) <==> TargetText.Denotes(nt.net, target, list)
      ensures parsed.Err? ==> !TargetText.Denotes(nt.net, target, list)
      ensures TargetText.Denotes(nt.net, target, list) && parsed.Ok? ==> parsed.value == list
    {
      TargetText.TargetIff(nt.net, target, list);
      if TargetText.Denotes(nt.net, target, list) { IpRange.TargetMeansOne(nt.net, target, Ok(list), parsed); }
    }
  }

  // ---- their order -------------------------------------------------------------------------

  function KeyOf(e: Endpoint): Key { PortKey(e.port, e.proto) }

  /** The hosts as given, and the ports of a host in the order of their keys. `at` says which host a row
      belongs to. */
  ghost predicate InOrder(rows: seq<Row>, ips: seq<Text>, at: seq<nat>) {
    && |at| == |rows|
    && (forall i :: 0 <= i < |rows| ==> at[i] < |ips| && rows[i].e.ip == ips[at[i]])
    && (forall i, j :: 0 <= i < j < |rows| ==>
          at[i] < at[j] || (at[i] == at[j] && Less(KeyOf(rows[i].e), KeyOf(rows[j].e))))
  }

  /** Rows of one host, by rising keys out of `keys`. */
  ghost predicate ByKey(rows: seq<Row>, ip: Text, keys: seq<Key>) {
    && (forall i :: 0 <= i < |rows| ==> rows[i].e.ip == ip && KeyOf(rows[i].e) in keys)
    && (forall i, j :: 0 <= i < j < |rows| ==> Less(KeyOf(rows[i].e), KeyOf(rows[j].e)))
  }

  lemma ByKeyAppended(front: seq<Row>, row: Row, ip: Text, keys: seq<Key>)
    requires keys != [] && ByKey(front, ip, keys[..|keys| - 1])
    requires row.e.ip == ip && KeyOf(row.e) == keys[|keys| - 1]
    requires forall i, j :: 0 <= i < j < |keys| ==> Less(keys[i], keys[j])
    ensures ByKey(front + [row], ip, keys)
  {
    hide KeyOf, Less;
    var n := |keys| - 1;
    assert keys[n] in keys;
    forall i | 0 <= i < |front| ensures Less(KeyOf(front[i].e), keys[n]) {
      var m :| 0 <= m < n && keys[..n][m] == KeyOf(front[i].e);
    }
  }

  lemma {:induction false} HostRowsInOrder(hosts: Hosts, ip: Text, keys: seq<Key>, plan: Plan)
    requires forall i :: 0 <= i < |keys| ==> KeyOf(Decoded(ip, keys[i])) == keys[i]
    requires forall i, j :: 0 <= i < j < |keys| ==> Less(keys[i], keys[j])
    ensures ByKey(RowsOf(hosts, ip, keys, plan), ip, keys)
  {
    hide RowFor, Decoded, KeyOf, Less;
    if keys != [] {
      var n := |keys| - 1;
      var e := Decoded(ip, keys[n]);
      var front := RowsOf(hosts, ip, keys[..n], plan);
      HostRowsInOrder(hosts, ip, keys[..n], plan);
      RowKeepsEndpoint(hosts, e, plan);
      DecodedIp(ip, keys[n]);
      if RowFor(hosts, e, plan).Some? {
        ByKeyAppended(front, RowFor(hosts, e, plan).value, ip, keys);
      } else {
        assert forall i :: 0 <= i < n ==> keys[..n][i] == keys[i];
        assert front + [] == front;
      }
    }
  }

  lemma {:induction false} RowsInOrder(hosts: Hosts, ips: seq<Text>, plan: Plan) returns (at: seq<nat>)
    requires Good(hosts) && Clean(hosts)
    ensures InOrder(Rows(hosts, ips, plan), ips, at)
  {
    hide Good, Clean, RowsOf, OpenKeys, HostOf, KeyOf, Less, Decoded;
    at := [];
    if ips != [] {
      var n := |ips| - 1;
      var before := RowsInOrder(hosts, ips[..n], plan);
      var keys := OpenKeys(HostOf(hosts, ips[n]));
      KeysInOrder(hosts, ips[n], keys);
      HostRowsInOrder(hosts, ips[n], keys, plan);
      var more := RowsOf(hosts, ips[n], keys, plan);
      at := before + seq(|more|, _ => n);
      OrderAppended(Rows(hosts, ips[..n], plan), more, ips, keys, before, at);
    }
  }

  /** The rows of the last host behind those of the others. */
  lemma OrderAppended(front: seq<Row>, more: seq<Row>, ips: seq<Text>, keys: seq<Key>,
                      before: seq<nat>, at: seq<nat>)
    requires ips != [] && InOrder(front, ips[..|ips| - 1], before)
    requires at == before + seq(|more|, _ => |ips| - 1)
    requires ByKey(more, ips[|ips| - 1], keys)
    ensures InOrder(front + more, ips, at)
  {
    hide KeyOf, Less;
    var rows := front + more;
    forall i | 0 <= i < |rows| ensures at[i] < |ips| && rows[i].e.ip == ips[at[i]] {
      if i < |front| { assert rows[i] == front[i] && at[i] == before[i]; }
      else { assert rows[i] == more[i - |front|]; }
    }
    forall i, j | 0 <= i < j < |rows|
      ensures at[i] < at[j] || (at[i] == at[j] && Less(KeyOf(rows[i].e), KeyOf(rows[j].e)))
    {
      if j < |front| {
        assert rows[i] == front[i] && rows[j] == front[j] && at[i] == before[i] && at[j] == before[j];
      } else if i < |front| {
        assert at[i] == before[i] < |ips| - 1;
      } else {
        assert rows[i] == more[i - |front|] && rows[j] == more[j - |front|];
      }
    }
  }

  lemma KeysInOrder(hosts: Hosts, ip: Text, keys: seq<Key>)
    requires Good(hosts) && Clean(hosts) && keys == OpenKeys(HostOf(hosts, ip))
    ensures forall i :: 0 <= i < |keys| ==> KeyOf(Decoded(ip, keys[i])) == keys[i]
    ensures forall i, j :: 0 <= i < j < |keys| ==> Less(keys[i], keys[j])
  {
    var host := HostOf(hosts, ip);
    GoodHistory(hosts, Endpoint(ip, 0, []));
    OpenKeysDistinct(host);
    forall i | 0 <= i < |keys| ensures KeyOf(Decoded(ip, keys[i])) == keys[i] {
      assert keys[i] in keys;
      OpenKeysAre(host, keys[i]);
      DecodedKey(ip, keys[i]);
    }
  }

  /** Skipping texts that are no address leaves the rest in order. `at` says where each stood. */
  lemma {:induction false} AddressesInOrder(nt: Notation, ips: seq<Text>) returns (at: seq<nat>)
    ensures var kept := Addresses(nt, ips);
            && |at| == |kept|
            && (forall i :: 0 <= i < |at| ==> at[i] < |ips| && kept[i] == ips[at[i]])
            && (forall i, j :: 0 <= i < j < |at| ==> at[i] < at[j])
            && (forall m :: 0 <= m < |ips| && nt.net.ip(ips[m]).Some? ==> m in at)
  {
    at := [];
    if ips != [] {
      var n := |ips| - 1;
      at := AddressesInOrder(nt, ips[..n]);
      if nt.net.ip(ips[n]).Some? { at := at + [n]; }
    }
  }
}
