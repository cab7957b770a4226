/** What the anomaly engine tells the outside: which alert of one observation stays in the store, and what a
    flush says about the ports it closes. */
module AnomalyEvents {
  import opened Bytes
  import opened Strings
  import opened Wrappers
  import opened Records
  import opened Buckets
  import opened TemporalStore
  import opened Anomaly
  import opened AnomalyRuns
  import opened AnomalyScans

  // ---- the alert of an observation ---------------------------------------------------------

  /** Of events of one time the last is stored, and alerts of other times stay. */
  lemma {:induction false} LastIsStored(s: State, evs: seq<Event>, at: Time, t: Time)
    requires GoodAlerts(s.alerts) && forall i :: 0 <= i < |evs| ==> evs[i].timestamp == at
    ensures GoodAlerts(DispatchedAll(s, evs).alerts)
    ensures Get(DispatchedAll(s, evs).alerts, TsKey(t)) ==
            if t == at && evs != [] then Some(evs[|evs| - 1]) else Get(s.alerts, TsKey(t))
    decreases |evs|
  {
    hide Get, Put, TsKey;
    if evs != [] {
      AlertWrittenGood(s.alerts, evs[0]);
      GetPut(s.alerts, TsKey(at), evs[0], TsKey(t));
      TsKeyOrder(at, t);
      LastIsStored(Dispatched(s, evs[0]), evs[1..], at, t);
    }
  }

  /** The drift that outranks the others: latency over certificate over version over banner. */
  function LastDrift(prev: StateRecord, curr: StateRecord): Option<(AnomalyKind, Severity)> {
    if prev.responseMs > 0 && curr.responseMs > TimesThree(prev.responseMs) then Some((LatencySpike, Low))
    else if prev.tlsFingerprint != [] && curr.tlsFingerprint != [] && prev.tlsFingerprint != curr.tlsFingerprint then
      Some((CertRotation, High))
    else if prev.version != [] && curr.version != [] && prev.version != curr.version then Some((VersionDrift, Low))
    else if prev.banner != [] && curr.banner != [] && prev.banner != curr.banner then Some((BannerDrift, Medium))
    else None
  }

  /** The alert an observation leaves in the store at its time, of all the events it sends. */
  function AlertOf(e: Endpoint, prev: Option<StateRecord>, curr: StateRecord): Option<Event> {
    if !curr.open then None
    else if prev.None? || !prev.value.open then Some(Event(curr.timestamp, e, NewPort, High, prev, curr))
    else match LastDrift(prev.value, curr)
         case Some((kind, severity)) => Some(Event(curr.timestamp, e, kind, severity, prev, curr))
         case None => None
  }

  lemma LastOfDiff(e: Endpoint, prev: Option<StateRecord>, curr: StateRecord)
    ensures var evs := Diff(e, prev, curr);
            AlertOf(e, prev, curr) == if evs == [] then None else Some(evs[|evs| - 1])
  {}

  /** For an endpoint that stays open the store keeps at the observation's time the latency spike if there is
      one, else the certificate rotation, else the version drift, else the banner drift; for one that appears
      the new-port; and if nothing is raised, or at any other time, what was there before. */
  lemma ObservationsAlert(s: State, o: Observation, t: Time)
    requires GoodAlerts(s.alerts)
    ensures var alert := AlertOf(o.e, Latest(s.hosts, o.e), o.rec);
            Get(Processed(s, o).alerts, TsKey(t)) ==
            if t == o.rec.timestamp && alert.Some? then alert else Get(s.alerts, TsKey(t))
  {
    hide Get, TsKey, GoodAlerts, AlertOf, Diff, Latest, Written;
    var prev := Latest(s.hosts, o.e);
    var evs := Diff(o.e, prev, o.rec);
    LastOfDiff(o.e, prev, o.rec);
    DiffKinds(o.e, prev, o.rec);
    LastIsStored(s.(seen := s.seen + {SeenKey(o.e)}, hosts := Written(s.hosts, o.e, o.rec)), evs,
                 o.rec.timestamp, t);
  }

  // ---- what a flush says -------------------------------------------------------------------

  /** A port-closed event for an open endpoint: what was stored last, and a record that says closed and
      nothing else. */
  ghost predicate WritesOff(hosts: Hosts, ev: Event) {
    && ev.kind == PortClosed && ev.severity == Medium
    && IsOpen(hosts, ev.endpoint) && ev.before == Latest(hosts, ev.endpoint)
    && ev.after == StateRecord(ev.after.timestamp, false, [], [], [], [], [], None, 0)
  }

  /** `evs` writes off, once each, exactly the endpoints open in `s` and not in `t`, and `t` ends with what
      they say. */
  ghost predicate Accounts(s: State, evs: seq<Event>, t: State) {
    && t.sent == s.sent + evs
    && (forall i :: 0 <= i < |evs| ==> && WritesOff(s.hosts, evs[i])
                                       && Latest(t.hosts, evs[i].endpoint) == Some(evs[i].after))
    && (forall i, j :: 0 <= i < j < |evs| ==> evs[i].endpoint != evs[j].endpoint)
    && (forall e :: (exists i :: 0 <= i < |evs| && evs[i].endpoint == e) || Latest(t.hosts, e) == Latest(s.hosts, e))
  }

  /** Each event takes two readings of the clock, the first for the record and the second for itself. */
  ghost predicate TwoReadings(s: State, clock: Clock, evs: seq<Event>, t: State) {
    && t.ticks == s.ticks + 2 * |evs|
    && forall i :: 0 <= i < |evs| ==> && evs[i].after.timestamp == clock(s.ticks + 2 * i)
                                      && evs[i].timestamp == clock(s.ticks + 2 * i + 1)
  }

  lemma AccountsNothing(s: State, clock: Clock)
    ensures Accounts(s, [], s) && TwoReadings(s, clock, [], s)
  {}

  lemma ReadingsOne(s: State, clock: Clock, e: Endpoint)
    ensures var t := ClosedEndpoint(s, clock, e);
            |t.sent| == |s.sent| + 1 && TwoReadings(s, clock, [t.sent[|s.sent|]], t)
  {
    hide Latest, Written, AlertWritten;
  }

  lemma ReadingsBoth(s: State, clock: Clock, a: seq<Event>, m: State, b: seq<Event>, t: State)
    requires TwoReadings(s, clock, a, m) && TwoReadings(m, clock, b, t)
    ensures TwoReadings(s, clock, a + b, t)
  {
    forall i | |a| <= i < |a + b|
      ensures (a + b)[i].after.timestamp == clock(s.ticks + 2 * i)
      ensures (a + b)[i].timestamp == clock(s.ticks + 2 * i + 1)
    {
      var j := i - |a|;
      assert m.ticks + 2 * j == s.ticks + 2 * i;
    }
  }

  lemma AccountsOne(s: State, clock: Clock, e: Endpoint)
    requires Good(s.hosts) && Monotone(clock) && ClockAhead(s, clock) && IsOpen(s.hosts, e)
    ensures var t := ClosedEndpoint(s, clock, e);
            |t.sent| == |s.sent| + 1 && Accounts(s, [t.sent[|s.sent|]], t)
  {
    var t := ClosedEndpoint(s, clock, e);
    var rec := ClosedRecord(clock(s.ticks));
    forall f ensures Latest(t.hosts, f) == if f == e then Some(rec) else Latest(s.hosts, f) {
      LatestWritten(s.hosts, e, rec, f);
    }
    var evs := [t.sent[|s.sent|]];
    assert evs[0].endpoint == e;
  }

  lemma AccountsBoth(s: State, a: seq<Event>, m: State, b: seq<Event>, t: State)
    requires Accounts(s, a, m) && Accounts(m, b, t)
    ensures Accounts(s, a + b, t)
  {
    hide Latest;
    var evs := a + b;
    forall j | 0 <= j < |b|
      ensures WritesOff(s.hosts, b[j])
      ensures forall i :: 0 <= i < |a| ==> a[i].endpoint != b[j].endpoint
    {
      OpenAlike(m.hosts, s.hosts, b[j].endpoint);
      forall i | 0 <= i < |a| ensures a[i].endpoint != b[j].endpoint {
        NotOpen(m.hosts, a[i].endpoint, a[i].after);
      }
    }
    forall i | 0 <= i < |a| ensures Latest(t.hosts, a[i].endpoint) == Some(a[i].after) {
      assert Latest(m.hosts, a[i].endpoint) == Some(a[i].after);
    }
    forall e ensures (exists i :: 0 <= i < |evs| && evs[i].endpoint == e) || Latest(t.hosts, e) == Latest(s.hosts, e) {
      if i :| 0 <= i < |a| && a[i].endpoint == e { assert evs[i].endpoint == e; }
      if j :| 0 <= j < |b| && b[j].endpoint == e { assert evs[|a| + j].endpoint == e; }
    }
  }

  lemma OpenAlike(a: Hosts, b: Hosts, e: Endpoint)
    ensures Latest(a, e) == Latest(b, e) ==> (IsOpen(a, e) <==> IsOpen(b, e))
  {}

  lemma NotOpen(hosts: Hosts, e: Endpoint, rec: StateRecord)
    requires Latest(hosts, e) == Some(rec) && !rec.open
    ensures !IsOpen(hosts, e)
  {}

  // ---- in which order ----------------------------------------------------------------------

  function KeyOf(e: Endpoint): Key { PortKey(e.port, e.proto) }

  ghost predicate Rising(keys: seq<Key>) { forall i, j :: 0 <= i < j < |keys| ==> Less(keys[i], keys[j]) }

  /** Events about one host, by rising keys out of `keys`. */
  ghost predicate ByKey(evs: seq<Event>, ip: Text, keys: seq<Key>) {
    && (forall i :: 0 <= i < |evs| ==> evs[i].endpoint.ip == ip && KeyOf(evs[i].endpoint) in keys)
    && (forall i, j :: 0 <= i < j < |evs| ==> Less(KeyOf(evs[i].endpoint), KeyOf(evs[j].endpoint)))
  }

  /** The hosts as listed, and the ports of a host in the order of their keys. `at` says which host an event
      belongs to. */
  ghost predicate HostByHost(evs: seq<Event>, ips: seq<Text>, at: seq<nat>) {
    && |at| == |evs|
    && (forall i :: 0 <= i < |evs| ==> at[i] < |ips| && evs[i].endpoint.ip == ips[at[i]])
    && (forall i, j :: 0 <= i < j < |evs| ==>
          at[i] < at[j] || (at[i] == at[j] && Less(KeyOf(evs[i].endpoint), KeyOf(evs[j].endpoint))))
  }

  lemma FewerKeys(evs: seq<Event>, ip: Text, keys: seq<Key>)
    requires keys != [] && ByKey(evs, ip, keys[1..])
    ensures ByKey(evs, ip, keys)
  {
    hide KeyOf, Less;
    assert forall k :: k in keys[1..] ==> k in keys;
  }

  lemma FirstKey(ev: Event, evs: seq<Event>, ip: Text, keys: seq<Key>)
    requires keys != [] && Rising(keys) && ByKey(evs, ip, keys[1..])
    requires ev.endpoint.ip == ip && KeyOf(ev.endpoint) == keys[0]
    ensures ByKey([ev] + evs, ip, keys)
  {
    hide KeyOf, Less;
    var all := [ev] + evs;
    assert forall k :: k in keys[1..] ==> k in keys;
    forall j | 0 <= j < |evs| ensures Less(keys[0], KeyOf(evs[j].endpoint)) {
      var m :| 0 <= m < |keys| - 1 && keys[1..][m] == KeyOf(evs[j].endpoint);
      assert keys[1..][m] == keys[m + 1];
    }
    forall i | 0 <= i < |all| ensures all[i].endpoint.ip == ip && KeyOf(all[i].endpoint) in keys {
      if i > 0 { assert all[i] == evs[i - 1]; }
    }
    forall i, j | 0 <= i < j < |all| ensures Less(KeyOf(all[i].endpoint), KeyOf(all[j].endpoint)) {
      assert all[j] == evs[j - 1];
      if i > 0 { assert all[i] == evs[i - 1]; }
    }
  }

  lemma HostsJoined(first: seq<Event>, rest: seq<Event>, ips: seq<Text>, keys: seq<Key>, at: seq<nat>)
    requires ips != [] && ByKey(first, ips[0], keys) && HostByHost(rest, ips[1..], at)
    ensures HostByHost(first + rest, ips,
                       seq(|first|, _ => 0) + seq(|at|, i requires 0 <= i < |at| => at[i] + 1))
  {
    hide KeyOf, Less;
    var n, evs := |first|, first + rest;
    var all := seq(|first|, _ => 0) + seq(|at|, i requires 0 <= i < |at| => at[i] + 1);
    assert forall i :: 0 <= i < n ==> evs[i] == first[i] && all[i] == 0;
    assert forall i :: n <= i < |evs| ==> evs[i] == rest[i - n] && all[i] == at[i - n] + 1;
  }

  lemma KeyOfDecoded(ip: Text, key: Key)
    requires CleanKey(key)
    ensures Decoded(ip, key).ip == ip && KeyOf(Decoded(ip, key)) == key
  {
    DecodedKey(ip, key);
  }

  lemma {:induction false} ClosedAllAccounts(s: State, clock: Clock, ip: Text, keys: seq<Key>) returns (evs: seq<Event>)
    requires Monotone(clock) && Ready(s, clock) && Rising(keys) && forall k :: k in keys ==> CleanKey(k)
    ensures Accounts(s, evs, ClosedAll(s, clock, ip, keys)) && ByKey(evs, ip, keys)
    ensures TwoReadings(s, clock, evs, ClosedAll(s, clock, ip, keys))
    decreases |keys|
  {
    hide Accounts, TwoReadings, IsOpen, ClosedEndpoint, KeyOf, Less, CleanKey, Decoded;
    evs := [];
    if keys == [] {
      AccountsNothing(s, clock);
    } else {
      var t := Closed(s, clock, ip, keys[0]);
      assert keys[0] in keys;
      ClosedIs(s, clock, ip, keys[0]);
      KeyOfDecoded(ip, keys[0]);
      var more := ClosedAllAccounts(t, clock, ip, keys[1..]);
      if t == s {
        evs := more;
        FewerKeys(more, ip, keys);
      } else {
        var d := Decoded(ip, keys[0]);
        AccountsOne(s, clock, d);
        ReadingsOne(s, clock, d);
        AboutIt(s, clock, d);
        AccountsBoth(s, [t.sent[|s.sent|]], t, more, ClosedAll(t, clock, ip, keys[1..]));
        ReadingsBoth(s, clock, [t.sent[|s.sent|]], t, more, ClosedAll(t, clock, ip, keys[1..]));
        evs := [t.sent[|s.sent|]] + more;
        FirstKey(t.sent[|s.sent|], more, ip, keys);
      }
    }
  }

  lemma AboutIt(s: State, clock: Clock, e: Endpoint)
    ensures var t := ClosedEndpoint(s, clock, e); |t.sent| > |s.sent| && t.sent[|s.sent|].endpoint == e
  {}

  lemma {:induction false} FlushSends(s: State, clock: Clock, ips: seq<Text>) returns (evs: seq<Event>, at: seq<nat>)
    requires Monotone(clock) && Ready(s, clock)
    ensures Accounts(s, evs, Flushed(s, clock, ips)) && HostByHost(evs, ips, at)
    ensures TwoReadings(s, clock, evs, Flushed(s, clock, ips))
    decreases |ips|
  {
    hide Accounts, TwoReadings, IsOpen, ClosedAll, ByKey, HostByHost, Less;
    evs, at := [], [];
    if ips == [] {
      AccountsNothing(s, clock);
      NothingInOrder(ips);
    } else {
      var keys := OpenKeys(HostOf(s.hosts, ips[0]));
      OpenKeysOfHost(s.hosts, ips[0]);
      GoodHistory(s.hosts, Endpoint(ips[0], 0, []));
      OpenKeysDistinct(HostOf(s.hosts, ips[0]));
      var m := ClosedAll(s, clock, ips[0], keys);
      ClosedAllIs(s, clock, ips[0], keys);
      var first := ClosedAllAccounts(s, clock, ips[0], keys);
      var rest, places := FlushSends(m, clock, ips[1..]);
      AccountsBoth(s, first, m, rest, Flushed(m, clock, ips[1..]));
      ReadingsBoth(s, clock, first, m, rest, Flushed(m, clock, ips[1..]));
      HostsJoined(first, rest, ips, keys, places);
      evs := first + rest;
      at := seq(|first|, _ => 0) + seq(|places|, i requires 0 <= i < |places| => places[i] + 1);
    }
  }

  lemma NothingInOrder(ips: seq<Text>)
    ensures HostByHost([], ips, [])
  {}

  /** A flush writes off, with one event each, exactly the open unseen endpoints of the listed hosts, host by
      host and by rising keys; the events carry what was last known and a bare closed record, which is what
      the store then holds, and each takes two readings of the clock. */
  lemma FlushAccounts(s: State, clock: Clock, ips: seq<Text>) returns (evs: seq<Event>, at: seq<nat>)
    requires Monotone(clock) && Ready(s, clock)
    ensures Accounts(s, evs, Flushed(s, clock, ips)) && HostByHost(evs, ips, at)
    ensures TwoReadings(s, clock, evs, Flushed(s, clock, ips))
    ensures forall e: Endpoint :: (exists i :: 0 <= i < |evs| && evs[i].endpoint == e) <==>
              IsOpen(s.hosts, e) && e.ip in ips && Unseen(s, e)
  {
    hide Accounts, TwoReadings, IsOpen, ClosedAll, Unseen, HostByHost;
    evs, at := FlushSends(s, clock, ips);
    FlushedIs(s, clock, ips);
    ClosedByEvents(s, evs, Flushed(s, clock, ips));
  }

  /** What is written off is what is no longer open. */
  lemma ClosedByEvents(s: State, evs: seq<Event>, t: State)
    requires Accounts(s, evs, t)
    ensures forall e: Endpoint :: (exists i :: 0 <= i < |evs| && evs[i].endpoint == e) <==>
              IsOpen(s.hosts, e) && !IsOpen(t.hosts, e)
  {
    hide Latest;
    forall e: Endpoint
      ensures (exists i :: 0 <= i < |evs| && evs[i].endpoint == e) <==> IsOpen(s.hosts, e) && !IsOpen(t.hosts, e)
    {
      OpenAlike(s.hosts, t.hosts, e);
      if i :| 0 <= i < |evs| && evs[i].endpoint == e { NotOpen(t.hosts, e, evs[i].after); }
    }
  }
}
