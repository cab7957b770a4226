/** Whole runs of the anomaly engine: the stream of events replays to exactly the open endpoints of
    the store, and a finished scan leaves open exactly what it saw. */
module AnomalyRuns {
  import opened Bytes
  import opened Wrappers
  import opened Records
  import opened Buckets
  import opened TemporalStore
  import opened Anomaly

  // ---- replaying the event stream ----------------------------------------------------------

  /** A consumer's view: new-port adds the endpoint, port-closed takes it away. */
  function ReplayOne(open: set<Endpoint>, ev: Event): set<Endpoint> {
    match ev.kind
    case NewPort => open + {ev.endpoint}
    case PortClosed => open - {ev.endpoint}
    case _ => open
  }

  function Replay(evs: seq<Event>): set<Endpoint> {
    if evs == [] then {} else ReplayOne(Replay(evs[..|evs| - 1]), evs[|evs| - 1])
  }

  /** The new-port and port-closed events of one endpoint, in order. */
  function Transitions(evs: seq<Event>, e: Endpoint): seq<AnomalyKind> {
    if evs == [] then []
    else
      var ev := evs[|evs| - 1];
      Transitions(evs[..|evs| - 1], e) + (if ev.endpoint == e && IsTransition(ev.kind) then [ev.kind] else [])
  }

  /** new-port, port-closed, new-port, ... */
  ghost predicate Alternates(kinds: seq<AnomalyKind>) {
    forall i :: 0 <= i < |kinds| ==> kinds[i] == if i % 2 == 0 then NewPort else PortClosed
  }

  ghost predicate Orderly(evs: seq<Event>, e: Endpoint) {
    Alternates(Transitions(evs, e)) && (e in Replay(evs) <==> |Transitions(evs, e)| % 2 == 1)
  }

  /** The replayed stream and the store agree, and every endpoint's transitions alternate. */
  ghost predicate InSync(s: State) {
    && (forall e :: e in Replay(s.sent) <==> IsOpen(s.hosts, e))
    && (forall e :: Orderly(s.sent, e))
  }

  lemma OneMoreKind(kinds: seq<AnomalyKind>, kind: AnomalyKind)
    requires Alternates(kinds)
    requires kind == if |kinds| % 2 == 0 then NewPort else PortClosed
    ensures Alternates(kinds + [kind])
  {}

  /** A new-port event for an endpoint not open so far, a port-closed event for one that is. */
  ghost predicate FitsNext(evs: seq<Event>, ev: Event) {
    && (ev.kind == NewPort ==> ev.endpoint !in Replay(evs))
    && (ev.kind == PortClosed ==> ev.endpoint in Replay(evs))
  }

  lemma OneMoreEvent(evs: seq<Event>, ev: Event, e: Endpoint)
    ensures Replay(evs + [ev]) == ReplayOne(Replay(evs), ev)
    ensures Transitions(evs + [ev], e) ==
            Transitions(evs, e) + (if ev.endpoint == e && IsTransition(ev.kind) then [ev.kind] else [])
    ensures Orderly(evs, e) && (ev.endpoint == e ==> FitsNext(evs, ev)) ==> Orderly(evs + [ev], e)
  {
    assert (evs + [ev])[..|evs|] == evs;
    if Orderly(evs, e) && ev.endpoint == e && IsTransition(ev.kind) && (ev.kind == PortClosed <==> e in Replay(evs)) {
      OneMoreKind(Transitions(evs, e), ev.kind);
    }
  }

  lemma {:induction false} TransitionsAppend(a: seq<Event>, b: seq<Event>, e: Endpoint)
    ensures Transitions(a + b, e) == Transitions(a, e) + Transitions(b, e)
  {
    if b == [] {
      assert a + b == a;
    } else {
      var n := |b| - 1;
      assert (a + b)[..|a + b| - 1] == a + b[..n];
      TransitionsAppend(a, b[..n], e);
    }
  }

  /** The endpoint's transitions alternate and leave it as the store has it. */
  ghost predicate AgreesOn(hosts: Hosts, evs: seq<Event>, e: Endpoint) {
    Alternates(Transitions(evs, e)) && (IsOpen(hosts, e) <==> |Transitions(evs, e)| % 2 == 1)
  }

  /** The last transition of an endpoint decides the replay. */
  lemma {:induction false} ReplayIsLast(evs: seq<Event>, e: Endpoint)
    ensures var kinds := Transitions(evs, e);
            e in Replay(evs) <==> kinds != [] && kinds[|kinds| - 1] == NewPort
  {
    if evs != [] { ReplayIsLast(evs[..|evs| - 1], e); }
  }

  /** Stream and store are in step when they agree on every endpoint. */
  lemma InSyncIff(s: State)
    ensures InSync(s) <==> forall e :: AgreesOn(s.hosts, s.sent, e)
  {
    hide Replay, Transitions, IsOpen;
    forall e ensures Alternates(Transitions(s.sent, e)) ==>
                       (e in Replay(s.sent) <==> |Transitions(s.sent, e)| % 2 == 1)
    {
      ReplayIsLast(s.sent, e);
    }
    if forall e :: AgreesOn(s.hosts, s.sent, e) {
      forall e ensures Orderly(s.sent, e) && (e in Replay(s.sent) <==> IsOpen(s.hosts, e)) {
        assert AgreesOn(s.hosts, s.sent, e);
      }
    }
    if InSync(s) {
      forall e ensures AgreesOn(s.hosts, s.sent, e) { assert Orderly(s.sent, e); }
    }
  }

  // ---- one observation ---------------------------------------------------------------------

  lemma {:induction false} DispatchedAllIs(s: State, evs: seq<Event>)
    ensures var t := DispatchedAll(s, evs);
            t.hosts == s.hosts && t.seen == s.seen && t.ticks == s.ticks && t.sent == s.sent + evs
    decreases |evs|
  {
    if evs != [] {
      DispatchedAllIs(Dispatched(s, evs[0]), evs[1..]);
      assert s.sent + [evs[0]] + evs[1..] == s.sent + evs;
    }
  }

  /** Events that are no transitions change neither the replay nor the order. */
  lemma {:induction false} Bystanders(evs: seq<Event>, more: seq<Event>)
    requires forall i :: 0 <= i < |more| ==> !IsTransition(more[i].kind)
    ensures Replay(evs + more) == Replay(evs)
    ensures forall e :: Transitions(evs + more, e) == Transitions(evs, e)
  {
    if more == [] {
      assert evs + more == evs;
    } else {
      var n := |more| - 1;
      Bystanders(evs, more[..n]);
      assert evs + more == (evs + more[..n]) + [more[n]];
      forall e ensures Transitions(evs + more, e) == Transitions(evs, e) {
        OneMoreEvent(evs + more[..n], more[n], e);
      }
      OneMoreEvent(evs + more[..n], more[n], more[n].endpoint);
    }
  }

  /** The observation is not older than what is stored for its endpoint. */
  ghost predicate OnTime(hosts: Hosts, o: Observation) {
    Latest(hosts, o.e).Some? ==>
      Unsigned(Latest(hosts, o.e).value.timestamp) <= Unsigned(o.rec.timestamp)
  }

  lemma FinishedIs(s: State, o: Observation, prev: Option<StateRecord>)
    requires Good(s.hosts)
    ensures var t := Finished(s, o, prev);
            && t.hosts == Written(s.hosts, o.e, o.rec) && Good(t.hosts)
            && t.seen == s.seen + {SeenKey(o.e)} && t.ticks == s.ticks
            && t.sent == s.sent + Diff(o.e, prev, o.rec)
  {
    DispatchedAllIs(s.(seen := s.seen + {SeenKey(o.e)}, hosts := Written(s.hosts, o.e, o.rec)), Diff(o.e, prev, o.rec));
    WrittenGood(s.hosts, o.e, o.rec);
  }

  lemma ProcessedIs(s: State, o: Observation)
    requires Good(s.hosts)
    ensures var t := Processed(s, o);
            && t.hosts == Written(s.hosts, o.e, o.rec) && Good(t.hosts)
            && t.seen == s.seen + {SeenKey(o.e)} && t.ticks == s.ticks
            && t.sent == s.sent + Diff(o.e, Latest(s.hosts, o.e), o.rec)
  {
    FinishedIs(s, o, Latest(s.hosts, o.e));
  }

  lemma FinishedOpen(s: State, o: Observation, prev: Option<StateRecord>)
    requires Good(s.hosts)
    ensures forall e :: IsOpen(Finished(s, o, prev).hosts, e) <==>
                        if e == o.e && OnTime(s.hosts, o) then o.rec.open else IsOpen(s.hosts, e)
  {
    FinishedIs(s, o, prev);
    forall e ensures IsOpen(Finished(s, o, prev).hosts, e) <==>
                     if e == o.e && OnTime(s.hosts, o) then o.rec.open else IsOpen(s.hosts, e)
    {
      LatestWritten(s.hosts, o.e, o.rec, e);
    }
  }

  lemma ProcessedOpen(s: State, o: Observation)
    requires Good(s.hosts)
    ensures forall e :: IsOpen(Processed(s, o).hosts, e) <==>
                        if e == o.e && OnTime(s.hosts, o) then o.rec.open else IsOpen(s.hosts, e)
  {
    FinishedOpen(s, o, Latest(s.hosts, o.e));
  }

  /** The record says the endpoint was open. */
  predicate SaysOpen(prev: Option<StateRecord>) { prev.Some? && prev.value.open }

  /** Exactly when one observation, judged against a record read some time before, leaves the event stream
      and the store in step. In time order: an open one when what was read is still true of the
      endpoint's openness, a closed one when the endpoint is not open (such a port closes without an
      event). Out of order: when it raises no new-port. */
  lemma FinishKeepsSyncIff(s: State, o: Observation, prev: Option<StateRecord>)
    requires Good(s.hosts) && InSync(s)
    ensures InSync(Finished(s, o, prev)) <==>
            if !OnTime(s.hosts, o) then !o.rec.open || SaysOpen(prev)
            else if o.rec.open then SaysOpen(prev) == IsOpen(s.hosts, o.e)
            else !IsOpen(s.hosts, o.e)
  {
    hide Written, Diff, Latest, Finished, Good;
    var t := Finished(s, o, prev);
    FinishedIs(s, o, prev);
    DiffKinds(o.e, prev, o.rec);
    FinishedOpen(s, o, prev);
    assert Orderly(s.sent, o.e);
    if o.rec.open && !SaysOpen(prev) {
      Appears(s, o, prev);
    } else {
      Bystanders(s.sent, Diff(o.e, prev, o.rec));
      forall e ensures Orderly(t.sent, e) { assert Orderly(s.sent, e); }
      assert o.e in Replay(t.sent) <==> IsOpen(s.hosts, o.e);
    }
  }

  /** A new-port event joins the replayed set, in order only if the endpoint was not open. */
  lemma Appears(s: State, o: Observation, prev: Option<StateRecord>)
    requires Good(s.hosts) && InSync(s) && o.rec.open && !SaysOpen(prev)
    ensures Replay(Finished(s, o, prev).sent) == Replay(s.sent) + {o.e}
    ensures (forall e :: Orderly(Finished(s, o, prev).sent, e)) <==> !IsOpen(s.hosts, o.e)
  {
    hide Finished, Good, IsOpen;
    var t := Finished(s, o, prev);
    var evs := Diff(o.e, prev, o.rec);
    FinishedIs(s, o, prev);
    assert t.sent == s.sent + [evs[0]];
    OutOfTurn(s.sent, evs[0]);
    forall e ensures Replay(t.sent) == Replay(s.sent) + {o.e} && (!IsOpen(s.hosts, o.e) ==> Orderly(t.sent, e)) {
      assert Orderly(s.sent, e);
      OneMoreEvent(s.sent, evs[0], e);
    }
  }

  /** A second new-port, or a second port-closed, breaks the alternation. */
  lemma OutOfTurn(evs: seq<Event>, ev: Event)
    requires Orderly(evs, ev.endpoint) && IsTransition(ev.kind)
    ensures !FitsNext(evs, ev) ==> !Orderly(evs + [ev], ev.endpoint)
  {
    OneMoreEvent(evs, ev, ev.endpoint);
    var kinds := Transitions(evs, ev.endpoint);
    assert (kinds + [ev.kind])[|kinds|] == ev.kind;
  }

  /** Exactly when one observation leaves the event stream and the store in step: an observation in
      time order must not report an open port as closed, and an out-of-order one must not reopen a
      closed port. */
  lemma ProcessKeepsSyncIff(s: State, o: Observation)
    requires Good(s.hosts) && InSync(s)
    ensures InSync(Processed(s, o)) <==>
            if OnTime(s.hosts, o) then o.rec.open || !IsOpen(s.hosts, o.e)
            else !o.rec.open || IsOpen(s.hosts, o.e)
  {
    FinishKeepsSyncIff(s, o, Latest(s.hosts, o.e));
  }

  // ---- closing what a scan did not see -----------------------------------------------------

  ghost predicate Monotone(clock: Clock) {
    forall m: nat, n: nat :: m <= n ==> Unsigned(clock(m)) <= Unsigned(clock(n))
  }

  /** No stored record is newer than what the clock will read next. */
  ghost predicate ClockAhead(s: State, clock: Clock) {
    forall e :: Latest(s.hosts, e).Some? ==>
                  Unsigned(Latest(s.hosts, e).value.timestamp) <= Unsigned(clock(s.ticks))
  }

  /** Closing an open endpoint closes it and touches no other history. */
  lemma ClosedEndpointIs(s: State, clock: Clock, e: Endpoint)
    requires Good(s.hosts) && Monotone(clock) && ClockAhead(s, clock)
    ensures var t := ClosedEndpoint(s, clock, e);
            && Good(t.hosts) && ClockAhead(t, clock) && t.seen == s.seen
            && !IsOpen(t.hosts, e)
            && (forall f :: f != e ==> History(t.hosts, f) == History(s.hosts, f))
            && (forall f :: f != e ==> (IsOpen(t.hosts, f) <==> IsOpen(s.hosts, f)))
  {
    var rec := ClosedRecord(clock(s.ticks));
    var t := ClosedEndpoint(s, clock, e);
    WrittenGood(s.hosts, e, rec);
    assert Unsigned(clock(s.ticks)) <= Unsigned(clock(s.ticks + 2));
    forall f
      ensures f != e ==> History(t.hosts, f) == History(s.hosts, f)
      ensures Latest(t.hosts, f) == if f == e then Some(rec) else Latest(s.hosts, f)
    {
      HistoryWritten(s.hosts, e, rec, f);
      LatestWritten(s.hosts, e, rec, f);
    }
  }

  lemma ClosedEndpointInSync(s: State, clock: Clock, e: Endpoint)
    requires Good(s.hosts) && Monotone(clock) && ClockAhead(s, clock)
    requires InSync(s) && IsOpen(s.hosts, e)
    ensures InSync(ClosedEndpoint(s, clock, e))
  {
    CloseKeepsSyncIff(s, clock, e, Latest(s.hosts, e));
  }

  /** Closing an endpoint keeps event stream and store in step exactly when it is still open. */
  lemma CloseKeepsSyncIff(s: State, clock: Clock, e: Endpoint, prev: Option<StateRecord>)
    requires Good(s.hosts) && Monotone(clock) && ClockAhead(s, clock) && InSync(s)
    ensures InSync(ClosedAfter(s, clock, e, prev)) <==> IsOpen(s.hosts, e)
  {
    hide IsOpen;
    ClosedEndpointIs(s, clock, e);
    var t := ClosedAfter(s, clock, e, prev);
    var ev := t.sent[|s.sent|];
    assert Orderly(s.sent, e);
    OutOfTurn(s.sent, ev);
    if IsOpen(s.hosts, e) {
      forall f ensures Replay(t.sent) == Replay(s.sent) - {e} && Orderly(t.sent, f) {
        assert Orderly(s.sent, f);
        OneMoreEvent(s.sent, ev, f);
      }
    }
  }

  /** What the flush of one host keeps, whatever keys it is given. */
  ghost predicate Steady(s: State, clock: Clock) {
    Good(s.hosts) && ClockAhead(s, clock) && InSync(s)
  }

  lemma {:induction false} ClosedAllInSync(s: State, clock: Clock, ip: Text, keys: seq<Key>)
    requires Monotone(clock) && Steady(s, clock)
    ensures Steady(ClosedAll(s, clock, ip, keys), clock)
    decreases |keys|
  {
    if keys != [] {
      var e := Decoded(ip, keys[0]);
      if HostPort(ip, keys[0]) !in s.seen && IsOpen(s.hosts, e) {
        ClosedEndpointIs(s, clock, e);
        ClosedEndpointInSync(s, clock, e);
      }
      ClosedAllInSync(Closed(s, clock, ip, keys[0]), clock, ip, keys[1..]);
    }
  }

  lemma {:induction false} FlushedInSync(s: State, clock: Clock, ips: seq<Text>)
    requires Monotone(clock) && Steady(s, clock)
    ensures Steady(Flushed(s, clock, ips), clock)
    decreases |ips|
  {
    if ips != [] {
      var keys := OpenKeys(HostOf(s.hosts, ips[0]));
      ClosedAllInSync(s, clock, ips[0], keys);
      FlushedInSync(ClosedAll(s, clock, ips[0], keys), clock, ips[1..]);
    }
  }

  // ---- runs --------------------------------------------------------------------------------

  datatype Op = Reset | Process(o: Observation) | Flush(ips: seq<Text>)

  function Applied(s: State, clock: Clock, op: Op): State {
    match op
    case Reset => Forgotten(s)
    case Process(o) => Processed(s, o)
    case Flush(ips) => Flushed(s, clock, ips)
  }

  /** What the scanner guarantees: only open results, each endpoint's times never going back. */
  ghost predicate Timely(s: State, clock: Clock, op: Op) {
    match op
    case Reset => true
    case Process(o) => o.rec.open && OnTime(s.hosts, o)
    case Flush(_) => ClockAhead(s, clock)
  }

  function Empty(): State { State([], [], {}, [], 0) }

  function Run(s: State, clock: Clock, ops: seq<Op>): State {
    if ops == [] then s else Applied(Run(s, clock, ops[..|ops| - 1]), clock, ops[|ops| - 1])
  }

  ghost predicate TimelyRun(s: State, clock: Clock, ops: seq<Op>) {
    forall i :: 0 <= i < |ops| ==> Timely(Run(s, clock, ops[..i]), clock, ops[i])
  }

  /** Over any run of resets, observations and flushes from an empty store, replaying the events sent
      gives exactly the endpoints whose latest stored record is open, and per endpoint new-port and
      port-closed strictly alternate, new-port first. */
  lemma {:induction false} EventsReplayToTheStore(clock: Clock, ops: seq<Op>)
    requires Monotone(clock) && TimelyRun(Empty(), clock, ops)
    ensures Good(Run(Empty(), clock, ops).hosts) && InSync(Run(Empty(), clock, ops))
  {
    if ops != [] {
      var n := |ops| - 1;
      forall i | 0 <= i < n ensures Timely(Run(Empty(), clock, ops[..n][..i]), clock, ops[..n][i]) {
        assert ops[..n][..i] == ops[..i];
      }
      EventsReplayToTheStore(clock, ops[..n]);
      var s := Run(Empty(), clock, ops[..n]);
      match ops[n] {
        case Reset => assert forall e :: Orderly(s.sent, e) ==> Orderly(Forgotten(s).sent, e);
        case Process(o) => ProcessKeepsSyncIff(s, o); ProcessedIs(s, o);
        case Flush(ips) => FlushedInSync(s, clock, ips);
      }
    } else {
      assert forall e :: Orderly([], e);
    }
  }

  // ---- alerts ------------------------------------------------------------------------------

  lemma {:induction false} DispatchedAlerts(s: State, evs: seq<Event>)
    requires s.alerts == AlertsWritten([], s.sent)
    ensures DispatchedAll(s, evs).alerts == AlertsWritten([], DispatchedAll(s, evs).sent)
    decreases |evs|
  {
    if evs != [] {
      assert (s.sent + [evs[0]])[..|s.sent|] == s.sent;
      DispatchedAlerts(Dispatched(s, evs[0]), evs[1..]);
    }
  }

  lemma {:induction false} ClosedAllAlerts(s: State, clock: Clock, ip: Text, keys: seq<Key>)
    requires s.alerts == AlertsWritten([], s.sent)
    ensures ClosedAll(s, clock, ip, keys).alerts == AlertsWritten([], ClosedAll(s, clock, ip, keys).sent)
    decreases |keys|
  {
    if keys != [] {
      var t := Closed(s, clock, ip, keys[0]);
      assert t.alerts == AlertsWritten([], t.sent) by {
        if t != s { assert t.sent[..|s.sent|] == s.sent; }
      }
      ClosedAllAlerts(t, clock, ip, keys[1..]);
    }
  }

  lemma {:induction false} FlushedAlerts(s: State, clock: Clock, ips: seq<Text>)
    requires s.alerts == AlertsWritten([], s.sent)
    ensures Flushed(s, clock, ips).alerts == AlertsWritten([], Flushed(s, clock, ips).sent)
    decreases |ips|
  {
    if ips != [] {
      ClosedAllAlerts(s, clock, ips[0], OpenKeys(HostOf(s.hosts, ips[0])));
      FlushedAlerts(ClosedAll(s, clock, ips[0], OpenKeys(HostOf(s.hosts, ips[0]))), clock, ips[1..]);
    }
  }

  /** Sinks are sent every event, but the store keeps an event exactly when no later event carries the
      same time: drift events raised by one observation overwrite each other. */
  lemma {:induction false} StoredAlertsAreLastOfTheirTime(clock: Clock, ops: seq<Op>, ev: Event)
    ensures var s := Run(Empty(), clock, ops);
            && s.alerts == AlertsWritten([], s.sent)
            && (Get(s.alerts, TsKey(ev.timestamp)) == Some(ev) <==>
                exists i :: 0 <= i < |s.sent| && s.sent[i] == ev && LastOfItsTime(s.sent, i))
  {
    if ops != [] {
      var n := |ops| - 1;
      StoredAlertsAreLastOfTheirTime(clock, ops[..n], ev);
      var s := Run(Empty(), clock, ops[..n]);
      match ops[n] {
        case Reset =>
        case Process(o) =>
          DispatchedAlerts(s.(seen := s.seen + {SeenKey(o.e)}, hosts := Written(s.hosts, o.e, o.rec)),
                           Diff(o.e, Latest(s.hosts, o.e), o.rec));
        case Flush(ips) => FlushedAlerts(s, clock, ips);
      }
    }
    AlertsKeepLastOfEachTime(Run(Empty(), clock, ops).sent, ev);
  }
}
