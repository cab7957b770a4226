/** The anomaly engine: each result is compared with the stored state, each finished scan closes the
    ports it did not see, and every change is recorded as an alert and sent to the sinks. */
module Anomaly {
  import opened Bytes
  import opened Strings
  import opened Wrappers
  import opened Records
  import opened Buckets
  import opened TemporalStore

  /** An enriched scan result: the endpoint and what was observed there. */
  datatype Observation = Observation(e: Endpoint, rec: StateRecord)

  /** Successive readings of `time.Now()`. */
  type Clock = nat -> Time

  /** Everything the engine reads and writes: the store, the keys seen in the running scan, the
      events each sink was sent, and how often the clock was read. */
  datatype State = State(hosts: Hosts, alerts: Alerts, seen: set<Text>, sent: seq<Event>, ticks: nat)

  // ---- what one observation means ----------------------------------------------------------

  /** Signed 64-bit multiplication by three, which is what guards the latency test. */
  function TimesThree(x: int): int { (x * 3 + TWO63) % TWO64 - TWO63 }

  predicate Changed(before: Text, after: Text) { before != [] && after != [] && before != after }

  /** The events one observation raises, given the previous record of its endpoint. */
  function Diff(e: Endpoint, prev: Option<StateRecord>, curr: StateRecord): seq<Event> {
    if curr.open && (prev.None? || !prev.value.open) then
      [Event(curr.timestamp, e, NewPort, High, prev, curr)]
    else if !curr.open || prev.None? then []
    else
      (if Changed(prev.value.banner, curr.banner)
       then [Event(curr.timestamp, e, BannerDrift, Medium, prev, curr)] else [])
      + (if Changed(prev.value.version, curr.version)
         then [Event(curr.timestamp, e, VersionDrift, Low, prev, curr)] else [])
      + (if Changed(prev.value.tlsFingerprint, curr.tlsFingerprint)
         then [Event(curr.timestamp, e, CertRotation, High, prev, curr)] else [])
      + (if prev.value.responseMs > 0 && curr.responseMs > TimesThree(prev.value.responseMs)
         then [Event(curr.timestamp, e, LatencySpike, Low, prev, curr)] else [])
  }

  predicate IsTransition(kind: AnomalyKind) { kind == NewPort || kind == PortClosed }

  function SeverityOf(kind: AnomalyKind): Severity {
    match kind
    case NewPort => High
    case CertRotation => High
    case BannerDrift => Medium
    case PortClosed => Medium
    case VersionDrift => Low
    case LatencySpike => Low
  }

  ghost predicate Raises(evs: seq<Event>, kind: AnomalyKind) { exists i :: 0 <= i < |evs| && evs[i].kind == kind }

  /** A new-port event is raised exactly when the endpoint goes from absent or closed to open, and then
      it is the only one; no observation raises port-closed; an endpoint that is not open raises nothing;
      no kind is raised twice, and every event carries both records and its kind's severity. */
  lemma DiffKinds(e: Endpoint, prev: Option<StateRecord>, curr: StateRecord)
    ensures var evs := Diff(e, prev, curr);
            var appears := curr.open && (prev.None? || !prev.value.open);
            && (appears ==> |evs| == 1 && evs[0].kind == NewPort)
            && (!appears ==> forall i :: 0 <= i < |evs| ==> !IsTransition(evs[i].kind))
            && (!curr.open ==> evs == [])
            && (forall i :: 0 <= i < |evs| ==>
                  evs[i] == Event(curr.timestamp, e, evs[i].kind, SeverityOf(evs[i].kind), prev, curr))
            && (forall i, j :: 0 <= i < j < |evs| ==> evs[i].kind != evs[j].kind)
  {}

  /** An endpoint that stays open raises a drift exactly for each known value that became another known
      value, and a latency spike exactly when a known response time more than tripled; a latency whose
      triple does not fit in 64 bits is compared with the wrapped product. */
  lemma DiffDrifts(e: Endpoint, prev: StateRecord, curr: StateRecord)
    requires prev.open && curr.open
    ensures var evs := Diff(e, Some(prev), curr);
            && (Raises(evs, BannerDrift) <==>
                  prev.banner != [] && curr.banner != [] && prev.banner != curr.banner)
            && (Raises(evs, VersionDrift) <==>
                  prev.version != [] && curr.version != [] && prev.version != curr.version)
            && (Raises(evs, CertRotation) <==>
                  prev.tlsFingerprint != [] && curr.tlsFingerprint != []
                  && prev.tlsFingerprint != curr.tlsFingerprint)
            && (0 <= prev.responseMs * 3 < TWO63 ==>
                  (Raises(evs, LatencySpike) <==> prev.responseMs > 0 && curr.responseMs > 3 * prev.responseMs))
  {
    var b, v, c, l := Changed(prev.banner, curr.banner), Changed(prev.version, curr.version),
                      Changed(prev.tlsFingerprint, curr.tlsFingerprint),
                      prev.responseMs > 0 && curr.responseMs > TimesThree(prev.responseMs);
    var evs := Diff(e, Some(prev), curr);
    if b { assert evs[0].kind == BannerDrift; }
    if v { assert evs[Ones(b)].kind == VersionDrift; }
    if c { assert evs[Ones(b) + Ones(v)].kind == CertRotation; }
    if l { assert evs[Ones(b) + Ones(v) + Ones(c)].kind == LatencySpike; }
  }

  function Rank(kind: AnomalyKind): nat {
    match kind
    case BannerDrift => 1
    case VersionDrift => 2
    case CertRotation => 3
    case LatencySpike => 4
    case _ => 0
  }

  /** Drifts come in the order banner, version, certificate, latency. */
  lemma DiffOrder(e: Endpoint, prev: Option<StateRecord>, curr: StateRecord)
    ensures var evs := Diff(e, prev, curr);
            forall i, j :: 0 <= i < j < |evs| ==> Rank(evs[i].kind) < Rank(evs[j].kind)
  {}

  function Ones(b: bool): nat { if b then 1 else 0 }

  // ---- the operations on the state ---------------------------------------------------------

  /** `ip.String() + ":" + key` */
  function HostPort(ip: Text, key: Key): Text { ip + [COLON] + key }

  function SeenKey(e: Endpoint): Text { HostPort(e.ip, PortKey(e.port, ToLower(e.proto))) }

  function Dispatched(s: State, ev: Event): State {
    s.(alerts := AlertWritten(s.alerts, ev), sent := s.sent + [ev])
  }

  function DispatchedAll(s: State, evs: seq<Event>): State
    decreases |evs|
  {
    if evs == [] then s else DispatchedAll(Dispatched(s, evs[0]), evs[1..])
  }

  function Forgotten(s: State): State { s.(seen := {}) }

  /** The second half of `Process`: `prev` is what its first half, a read, had found. */
  function Finished(s: State, o: Observation, prev: Option<StateRecord>): State {
    DispatchedAll(s.(seen := s.seen + {SeenKey(o.e)}, hosts := Written(s.hosts, o.e, o.rec)), Diff(o.e, prev, o.rec))
  }

  function Processed(s: State, o: Observation): State { Finished(s, o, Latest(s.hosts, o.e)) }

  function ClosedRecord(t: Time): StateRecord {
    StateRecord(t, false, [], [], [], [], [], None, 0)
  }

  /** One listed key at the end of a scan: unless it was seen, write a closed record and say so. */
  function Closed(s: State, clock: Clock, ip: Text, key: Key): State {
    if HostPort(ip, key) in s.seen || !IsOpen(s.hosts, Decoded(ip, key)) then s
    else ClosedEndpoint(s, clock, Decoded(ip, key))
  }

  function ClosedAfter(s: State, clock: Clock, e: Endpoint, prev: Option<StateRecord>): State {
    var rec := ClosedRecord(clock(s.ticks));
    Dispatched(s.(hosts := Written(s.hosts, e, rec), ticks := s.ticks + 2),
               Event(clock(s.ticks + 1), e, PortClosed, Medium, prev, rec))
  }

  function ClosedEndpoint(s: State, clock: Clock, e: Endpoint): State {
    ClosedAfter(s, clock, e, Latest(s.hosts, e))
  }

  function ClosedAll(s: State, clock: Clock, ip: Text, keys: seq<Key>): State
    decreases |keys|
  {
    if keys == [] then s else ClosedAll(Closed(s, clock, ip, keys[0]), clock, ip, keys[1..])
  }

  function Flushed(s: State, clock: Clock, ips: seq<Text>): State
    decreases |ips|
  {
    if ips == [] then s
    else Flushed(ClosedAll(s, clock, ips[0], OpenKeys(HostOf(s.hosts, ips[0]))), clock, ips[1..])
  }

  // ---- the engine object -------------------------------------------------------------------

  class Engine {
    const store: Store
    const clock: Clock
    var seenPorts: set<Text>
    var sinkLog: seq<Event>
    var ticks: nat

    ghost predicate Valid()
      reads store
    {
      store.Valid()
    }

    ghost function Current(): State
      reads this, store
    {
      State(store.hosts, store.alerts, seenPorts, sinkLog, ticks)
    }

    constructor (st: Store, now: Clock)
      requires st.Valid()
      ensures Valid() && store == st && clock == now
      ensures Current() == State(st.hosts, st.alerts, {}, [], 0)
    {
      store, clock := st, now;
      seenPorts, sinkLog, ticks := {}, [], 0;
    }

    method Reset()
      requires Valid()
      modifies this`seenPorts
      ensures Valid() && Current() == Forgotten(old(Current()))
    {
      seenPorts := {};
    }

    method Dispatch(ev: Event)
      requires Valid()
      modifies this`sinkLog, store`alerts
      ensures Valid() && Current() == Dispatched(old(Current()), ev)
    {
      store.WriteAlert(ev);
      sinkLog := sinkLog + [ev];
    }

    method Process(o: Observation)
      requires Valid()
      modifies this`seenPorts, this`sinkLog, store`hosts, store`alerts
      ensures Valid() && Current() == Processed(old(Current()), o)
    {
      seenPorts := seenPorts + {SeenKey(o.e)};
      var prev := store.ReadLatestState(o.e);
      store.WriteState(o.e, o.rec);
      var evs := Diff(o.e, prev, o.rec);
      for i := 0 to |evs|
        invariant Valid()
        invariant DispatchedAll(Current(), evs[i..]) == Processed(old(Current()), o)
      {
        assert evs[i..][1..] == evs[i + 1..];
        Dispatch(evs[i]);
      }
    }

    /** One pass of the loop body of `Flush`. */
    method Close(ip: Text, key: Key)
      requires Valid()
      modifies this`sinkLog, this`ticks, store`hosts, store`alerts
      ensures Valid() && Current() == Closed(old(Current()), clock, ip, key)
    {
      if HostPort(ip, key) in seenPorts { return; }
      var e := Decoded(ip, key);
      var prev := store.ReadLatestState(e);
      if prev.None? || !prev.value.open { return; }
      CloseEndpoint(e, prev);
    }

    method CloseEndpoint(e: Endpoint, prev: Option<StateRecord>)
      requires Valid() && prev == Latest(store.hosts, e)
      modifies this`sinkLog, this`ticks, store`hosts, store`alerts
      ensures Valid() && Current() == ClosedEndpoint(old(Current()), clock, e)
    {
      hide Written, AlertWritten, Latest, Good, GoodAlerts;
      var rec := ClosedRecord(clock(ticks));  // a reading of time.Now()
      ticks := ticks + 1;
      store.WriteState(e, rec);
      var alertAt := clock(ticks);
      ticks := ticks + 1;
      Dispatch(Event(alertAt, e, PortClosed, Medium, prev, rec));
    }

    method Flush(ips: seq<Text>)
      requires Valid()
      modifies this`sinkLog, this`ticks, store`hosts, store`alerts
      ensures Valid() && Current() == Flushed(old(Current()), clock, ips)
    {
      for i := 0 to |ips|
        invariant Valid()
        invariant Flushed(Current(), clock, ips[i..]) == Flushed(old(Current()), clock, ips)
      {
        assert ips[i..][1..] == ips[i + 1..];
        ghost var atHost := Current();
        var prevOpen := store.ReadOpenPorts(ips[i]);
        for j := 0 to |prevOpen|
          invariant Valid()
          invariant ClosedAll(Current(), clock, ips[i], prevOpen[j..]) == ClosedAll(atHost, clock, ips[i], prevOpen)
        {
          assert prevOpen[j..][1..] == prevOpen[j + 1..];
          Close(ips[i], prevOpen[j]);
        }
      }
    }
  }
}
