/** Runs of scans that share a store, step by step: what can go wrong, and what can seem to go right. */
module AnomalyCrossings {
  import opened Wrappers
  import opened Records
  import opened TemporalStore
  import opened Anomaly
  import opened AnomalyRuns
  import opened AnomalyRaces

  lemma OneMore(clock: Clock, steps: seq<Step>, step: Step)
    requires Possible(clock, steps) && PunctualRun(clock, steps) && Enabled(Exec(clock, steps), step)
    requires var sh := Exec(clock, steps);
             step.Commit? ==> Punctual(sh, clock, sh.pending[step.w].task)
    ensures Possible(clock, steps + [step]) && PunctualRun(clock, steps + [step])
    ensures Exec(clock, steps + [step]) == Apply(Exec(clock, steps), clock, step)
    ensures AllUpToDate(clock, steps + [step]) <==>
              AllUpToDate(clock, steps) && (step.Commit? ==> UpToDate(Exec(clock, steps), step.w))
  {
    assert (steps + [step])[..|steps|] == steps;
  }

  /** `steps` is a timely run to `sh`. */
  ghost predicate Leads(clock: Clock, steps: seq<Step>, sh: Shared) {
    Possible(clock, steps) && PunctualRun(clock, steps) && Exec(clock, steps) == sh
  }

  lemma LeadsOn(clock: Clock, steps: seq<Step>, sh: Shared, step: Step)
    requires Leads(clock, steps, sh) && Enabled(sh, step)
    requires step.Commit? ==> Punctual(sh, clock, sh.pending[step.w].task)
    ensures Leads(clock, steps + [step], Apply(sh, clock, step))
    ensures AllUpToDate(clock, steps + [step]) <==>
              AllUpToDate(clock, steps) && (step.Commit? ==> UpToDate(sh, step.w))
  {
    OneMore(clock, steps, step);
  }

  function Announcement(o: Observation): Event { Event(o.rec.timestamp, o.e, NewPort, High, None, o.rec) }

  /** One scan has written a new port. */
  function Found(o: Observation, pending: map<nat, Reading>): Shared {
    Shared(Written([], o.e, o.rec), 0, pending, [Unsent(0, Announcement(o))], [], [Announcement(o)])
  }

  lemma FoundIs(clock: Clock, o: Observation, others: map<nat, Reading>)
    requires o.rec.open && 0 !in others
    ensures var sh := Shared([], 0, others[0 := Reading(Observe(o), None)], [], [], []);
            && Punctual(sh, clock, Observe(o)) && UpToDate(sh, 0)
            && Apply(sh, clock, Commit(0)) == Found(o, others)
  {
    hide Written, Good;
    assert History([], o.e) == [];
    assert Diff(o.e, None, o.rec) == [Announcement(o)];
    assert others[0 := Reading(Observe(o), None)] - {0} == others;
  }

  lemma FoundLatest(o: Observation)
    requires o.rec.open
    ensures var h := Written([], o.e, o.rec);
            Good(h) && Latest(h, o.e) == Some(o.rec) && forall f :: f != o.e ==> Latest(h, f) == None
  {
    hide Written;
    assert Good([]);
    WrittenGood([], o.e, o.rec);
    forall f ensures Latest(Written([], o.e, o.rec), f) == if f == o.e then Some(o.rec) else None {
      LatestWritten([], o.e, o.rec, f);
    }
  }

  /** Two scans that both read a new endpoint before either writes it announce it twice. */
  lemma TwoScansCanAnnounceTwice(clock: Clock, o: Observation)
    requires o.rec.open
    ensures exists steps: seq<Step> ::
              && Possible(clock, steps) && PunctualRun(clock, steps)
              && var sh := Exec(clock, steps);
                 && sh.unsent == [] && sh.sent == [Announcement(o), Announcement(o)]
                 && !AgreesOn(sh.hosts, sh.sent, o.e)
  {
    hide Leads, Apply, Possible, PunctualRun, Exec, AgreesOn, AllUpToDate, Written;
    var sh, ev := FoundTwice(o), Announcement(o);
    LeadsToFoundTwice(clock, o);
    var steps := [Begin(0, Observe(o)), Begin(1, Observe(o)), Commit(0), Commit(1)];
    SendRest(clock, steps, sh, 0, ev, 1, ev);
    assert sh.sent + [ev] + [ev] == [ev, ev];
    OutOfStep(sh.hosts, ev, ev);
    LeadsMeans(clock, steps + [Send(0)] + [Send(0)], sh.(unsent := [], sent := [ev, ev]));
  }

  lemma LeadsMeans(clock: Clock, steps: seq<Step>, sh: Shared)
    requires Leads(clock, steps, sh)
    ensures Possible(clock, steps) && PunctualRun(clock, steps) && Exec(clock, steps) == sh
  {}

  /** Sends the event at `i`, with all before it of other scans. */
  lemma SendNext(clock: Clock, steps: seq<Step>, sh: Shared, i: nat)
    requires Leads(clock, steps, sh) && Enabled(sh, Send(i))
    ensures Leads(clock, steps + [Send(i)],
                  sh.(unsent := sh.unsent[..i] + sh.unsent[i + 1..], sent := sh.sent + [sh.unsent[i].ev]))
    ensures AllUpToDate(clock, steps + [Send(i)]) <==> AllUpToDate(clock, steps)
  {
    hide Possible, PunctualRun, Exec, AllUpToDate;
    LeadsOn(clock, steps, sh, Send(i));
  }

  /** Two scans have written the same new port. */
  function FoundTwice(o: Observation): Shared {
    var ev := Announcement(o);
    Shared(Written(Written([], o.e, o.rec), o.e, o.rec), 0, map[], [Unsent(0, ev), Unsent(1, ev)], [], [ev, ev])
  }

  lemma LeadsToFoundTwice(clock: Clock, o: Observation)
    requires o.rec.open
    ensures var steps := [Begin(0, Observe(o)), Begin(1, Observe(o)), Commit(0), Commit(1)];
            Leads(clock, steps, FoundTwice(o)) && !AllUpToDate(clock, steps)
  {
    hide Written, Latest, Good, Diff, Punctual, Possible, PunctualRun, Exec, AllUpToDate, ClockAhead, UpToDate;
    var r := Reading(Observe(o), None);
    var s1, s2 := Begin(0, Observe(o)), Begin(1, Observe(o));
    Starts(clock, o.e);
    LeadsOn(clock, [], Idle(), s1);
    LeadsOn(clock, [] + [s1], Shared([], 0, map[0 := r], [], [], []), s2);
    FoundIs(clock, o, map[1 := r]);
    LeadsOn(clock, [] + [s1] + [s2], Shared([], 0, map[1 := r][0 := r], [], [], []), Commit(0));
    SecondFound(clock, o);
    LeadsOn(clock, [] + [s1] + [s2] + [Commit(0)], Found(o, map[1 := r]), Commit(1));
    assert [] + [s1] + [s2] + [Commit(0)] + [Commit(1)] == [s1, s2, Commit(0), Commit(1)];
  }

  /** A new-port or port-closed that should not come first, or not again. */
  lemma OutOfStep(hosts: Hosts, a: Event, b: Event)
    requires a.endpoint == b.endpoint && IsTransition(a.kind) && IsTransition(b.kind)
    requires a.kind == PortClosed || b.kind == a.kind
    ensures !AgreesOn(hosts, [a, b], a.endpoint)
  {
    OneTransition(a, a.endpoint);
    OneTransition(b, a.endpoint);
    TransitionsAppend([a], [b], a.endpoint);
    assert [a] + [b] == [a, b];
    var kinds := Transitions([a, b], a.endpoint);
    assert kinds[0] == a.kind && kinds[1] == b.kind;
  }

  lemma Starts(clock: Clock, e: Endpoint)
    ensures Leads(clock, [], Idle()) && AllUpToDate(clock, []) && Latest([], e) == None
  {}

  lemma SecondFound(clock: Clock, o: Observation)
    requires o.rec.open
    ensures var sh := Found(o, map[1 := Reading(Observe(o), None)]);
            && Punctual(sh, clock, Observe(o)) && !UpToDate(sh, 1)
            && Apply(sh, clock, Commit(1)) == FoundTwice(o)
  {
    FoundLatest(o);
    assert Diff(o.e, None, o.rec) == [Announcement(o)];
  }

  function WrittenOff(clock: Clock, o: Observation): Event {
    Event(clock(1), o.e, PortClosed, Medium, Some(o.rec), ClosedRecord(clock(0)))
  }

  lemma ThenClosed(clock: Clock, o: Observation)
    requires o.rec.open && Unsigned(o.rec.timestamp) <= Unsigned(clock(0))
    ensures var sh := Found(o, map[1 := Reading(Close(o.e), Some(o.rec))]);
            var t := Apply(sh, clock, Commit(1));
            && Punctual(sh, clock, Close(o.e)) && UpToDate(sh, 1)
            && t == FoundAndClosed(clock, o)
  {
    FoundLatest(o);
  }

  /** Every write can be up to date and the stream still end wrong: one scan writes a port as open, another
      closes it and says so, and only then the first one sends its news. */
  lemma SendsCanCross(clock: Clock, o: Observation)
    requires o.rec.open && Unsigned(o.rec.timestamp) <= Unsigned(clock(0))
    ensures exists steps: seq<Step> ::
              && Possible(clock, steps) && PunctualRun(clock, steps) && AllUpToDate(clock, steps)
              && var sh := Exec(clock, steps);
                 && sh.unsent == [] && sh.sent == [WrittenOff(clock, o), Announcement(o)]
                 && !AgreesOn(sh.hosts, sh.sent, o.e)
  {
    hide Leads, Apply, Possible, PunctualRun, Exec, AgreesOn, AllUpToDate, Written;
    var sh, a, b := FoundAndClosed(clock, o), Announcement(o), WrittenOff(clock, o);
    LeadsToFoundAndClosed(clock, o);
    var steps := [Begin(0, Observe(o)), Commit(0), Begin(1, Close(o.e)), Commit(1)];
    SendNext(clock, steps, sh, 1);
    var sh' := sh.(unsent := [Unsent(0, a)], sent := [b]);
    assert sh.unsent[..1] + sh.unsent[2..] == sh'.unsent && sh'.unsent[..0] + sh'.unsent[1..] == [];
    assert sh.sent + [b] == sh'.sent && sh'.sent + [a] == [b, a];
    SendNext(clock, steps + [Send(1)], sh', 0);
    OutOfStep(sh.hosts, b, a);
    LeadsMeans(clock, steps + [Send(1)] + [Send(0)], sh.(unsent := [], sent := [b, a]));
  }

  /** One scan has written a new port, another has closed it. */
  function FoundAndClosed(clock: Clock, o: Observation): Shared {
    var a, b := Announcement(o), WrittenOff(clock, o);
    Shared(Written(Written([], o.e, o.rec), o.e, ClosedRecord(clock(0))), 2, map[],
           [Unsent(0, a), Unsent(1, b)], [], [a, b])
  }

  lemma LeadsToFoundAndClosed(clock: Clock, o: Observation)
    requires o.rec.open && Unsigned(o.rec.timestamp) <= Unsigned(clock(0))
    ensures var steps := [Begin(0, Observe(o)), Commit(0), Begin(1, Close(o.e)), Commit(1)];
            Leads(clock, steps, FoundAndClosed(clock, o)) && AllUpToDate(clock, steps)
  {
    hide Written, Latest, Good, Diff, Punctual, Possible, PunctualRun, Exec, AllUpToDate, ClockAhead, UpToDate, IsOpen;
    var s1, s3 := Begin(0, Observe(o)), Begin(1, Close(o.e));
    Starts(clock, o.e);
    LeadsOn(clock, [], Idle(), s1);
    FoundIs(clock, o, map[]);
    FoundLatest(o);
    LeadsOn(clock, [] + [s1], Shared([], 0, map[0 := Reading(Observe(o), None)], [], [], []), Commit(0));
    OpenNow(o);
    LeadsOn(clock, [] + [s1] + [Commit(0)], Found(o, map[]), s3);
    ThenClosed(clock, o);
    LeadsOn(clock, [] + [s1] + [Commit(0)] + [s3], Found(o, map[1 := Reading(Close(o.e), Some(o.rec))]), Commit(1));
    assert [] + [s1] + [Commit(0)] + [s3] + [Commit(1)] == [s1, Commit(0), s3, Commit(1)];
  }

  lemma OpenNow(o: Observation)
    requires Latest(Written([], o.e, o.rec), o.e) == Some(o.rec) && o.rec.open
    ensures IsOpen(Written([], o.e, o.rec), o.e)
  {}

  // ---- two wrongs --------------------------------------------------------------------------

  function WrittenOffAgain(clock: Clock, o: Observation): Event {
    Event(clock(3), o.e, PortClosed, Medium, Some(o.rec), ClosedRecord(clock(2)))
  }

  function ClosedOnce(clock: Clock, o: Observation): Hosts {
    Written(FoundTwice(o).hosts, o.e, ClosedRecord(clock(0)))
  }

  /** The new port was written twice; then two scans that had both read it as open have written it off. */
  function FoundAndClosedTwice(clock: Clock, o: Observation): Shared {
    var a, b, c := Announcement(o), WrittenOff(clock, o), WrittenOffAgain(clock, o);
    Shared(Written(ClosedOnce(clock, o), o.e, ClosedRecord(clock(2))), 4, map[],
           [Unsent(0, a), Unsent(1, a), Unsent(2, b), Unsent(3, c)], [], [a, a, b, c])
  }

  /** Between the two closing writes. */
  function FoundTwiceClosedOnce(clock: Clock, o: Observation): Shared {
    var a, b := Announcement(o), WrittenOff(clock, o);
    Shared(ClosedOnce(clock, o), 2, map[3 := Reading(Close(o.e), Some(o.rec))],
           [Unsent(0, a), Unsent(1, a), Unsent(2, b)], [], [a, a, b])
  }

  lemma TwiceOpen(clock: Clock, o: Observation)
    requires o.rec.open && Monotone(clock) && Unsigned(o.rec.timestamp) <= Unsigned(clock(0))
    ensures var h := FoundTwice(o).hosts;
            && Good(h) && Latest(h, o.e) == Some(o.rec) && (forall f :: f != o.e ==> Latest(h, f) == None)
  {
    hide Written, Latest, Good, Diff;
    FoundLatest(o);
    var h := Written([], o.e, o.rec);
    WrittenGood(h, o.e, o.rec);
    forall f ensures Latest(Written(h, o.e, o.rec), f) == if f == o.e then Some(o.rec) else None {
      LatestWritten(h, o.e, o.rec, f);
    }
  }

  lemma OnceClosed(clock: Clock, o: Observation)
    requires o.rec.open && Monotone(clock) && Unsigned(o.rec.timestamp) <= Unsigned(clock(0))
    ensures var h, rec := ClosedOnce(clock, o), ClosedRecord(clock(0));
            && Good(h) && Latest(h, o.e) == Some(rec) && (forall f :: f != o.e ==> Latest(h, f) == None)
  {
    hide Written, Latest, Good, FoundTwice;
    TwiceOpen(clock, o);
    var h, rec := FoundTwice(o).hosts, ClosedRecord(clock(0));
    WrittenGood(h, o.e, rec);
    forall f ensures Latest(Written(h, o.e, rec), f) == if f == o.e then Some(rec) else None {
      LatestWritten(h, o.e, rec, f);
    }
  }

  lemma EndsClosed(clock: Clock, o: Observation)
    requires o.rec.open && Monotone(clock) && Unsigned(o.rec.timestamp) <= Unsigned(clock(0))
    ensures !IsOpen(FoundAndClosedTwice(clock, o).hosts, o.e)
  {
    hide Written, Latest, Good, ClosedOnce;
    OnceClosed(clock, o);
    LatestWritten(ClosedOnce(clock, o), o.e, ClosedRecord(clock(2)), o.e);
    assert Unsigned(clock(0)) <= Unsigned(clock(2));
  }

  function Opening(o: Observation): seq<Step> {
    [Begin(0, Observe(o)), Begin(1, Observe(o)), Commit(0), Commit(1)]
  }

  function Closing(e: Endpoint): seq<Step> { [Begin(2, Close(e)), Begin(3, Close(e)), Commit(2), Commit(3)] }

  lemma LeadsToClosedTwice(clock: Clock, o: Observation)
    requires o.rec.open && Monotone(clock) && Unsigned(o.rec.timestamp) <= Unsigned(clock(0))
    ensures var steps := Opening(o) + Closing(o.e);
            Leads(clock, steps, FoundAndClosedTwice(clock, o)) && !AllUpToDate(clock, steps)
  {
    hide Written, Latest, Good, Leads, AllUpToDate, Announcement, WrittenOff, WrittenOffAgain;
    var a, e, r := Opening(o), o.e, Reading(Close(o.e), Some(o.rec));
    var sh := FoundTwice(o);
    LeadsToFoundTwice(clock, o);
    TwiceOpen(clock, o);
    LeadsOn(clock, a, sh, Begin(2, Close(e)));
    LeadsOn(clock, a + [Begin(2, Close(e))], sh.(pending := map[2 := r]), Begin(3, Close(e)));
    var sh2 := sh.(pending := map[2 := r][3 := r]);
    FirstCloses(clock, o);
    LeadsOn(clock, a + [Begin(2, Close(e))] + [Begin(3, Close(e))], sh2, Commit(2));
    SecondCloses(clock, o);
    LeadsOn(clock, a + [Begin(2, Close(e))] + [Begin(3, Close(e))] + [Commit(2)],
            FoundTwiceClosedOnce(clock, o), Commit(3));
    assert a + [Begin(2, Close(e))] + [Begin(3, Close(e))] + [Commit(2)] + [Commit(3)] == a + Closing(e);
  }

  lemma FirstCloses(clock: Clock, o: Observation)
    requires o.rec.open && Monotone(clock) && Unsigned(o.rec.timestamp) <= Unsigned(clock(0))
    ensures var r := Reading(Close(o.e), Some(o.rec));
            var sh := FoundTwice(o).(pending := map[2 := r][3 := r]);
            && Punctual(sh, clock, Close(o.e))
            && Apply(sh, clock, Commit(2)) == FoundTwiceClosedOnce(clock, o)
  {
    hide Written, Latest, Good;
    TwiceOpen(clock, o);
  }

  lemma SecondCloses(clock: Clock, o: Observation)
    requires o.rec.open && Monotone(clock) && Unsigned(o.rec.timestamp) <= Unsigned(clock(0))
    ensures var sh := FoundTwiceClosedOnce(clock, o);
            && Punctual(sh, clock, Close(o.e))
            && Apply(sh, clock, Commit(3)) == FoundAndClosedTwice(clock, o)
  {
    hide Written, Latest, Good, ClosedOnce;
    OnceClosed(clock, o);
    assert Unsigned(clock(0)) <= Unsigned(clock(2));
  }

  /** Of four events of four scans the first and the third are sent. */
  lemma SendTwo(clock: Clock, steps: seq<Step>, sh: Shared, a: Event, b: Event, c: Event, d: Event)
    requires Leads(clock, steps, sh) && sh.sent == []
    requires sh.unsent == [Unsent(0, a), Unsent(1, b), Unsent(2, c), Unsent(3, d)]
    ensures var more := steps + [Send(0)] + [Send(1)];
            && Leads(clock, more, sh.(unsent := [Unsent(1, b), Unsent(3, d)], sent := [a, c]))
            && (AllUpToDate(clock, more) <==> AllUpToDate(clock, steps))
  {
    hide Leads, AllUpToDate;
    SendNext(clock, steps, sh, 0);
    var sh' := sh.(unsent := [Unsent(1, b), Unsent(2, c), Unsent(3, d)], sent := [a]);
    assert sh.unsent[..0] + sh.unsent[1..] == sh'.unsent && sh.sent + [a] == sh'.sent;
    SendNext(clock, steps + [Send(0)], sh', 1);
    assert sh'.unsent[..1] + sh'.unsent[2..] == [Unsent(1, b), Unsent(3, d)] && sh'.sent + [c] == [a, c];
  }

  /** The last two events are sent. */
  lemma SendRest(clock: Clock, steps: seq<Step>, sh: Shared, v: nat, a: Event, w: nat, b: Event)
    requires Leads(clock, steps, sh) && sh.unsent == [Unsent(v, a), Unsent(w, b)]
    ensures var more := steps + [Send(0)] + [Send(0)];
            && Leads(clock, more, sh.(unsent := [], sent := sh.sent + [a] + [b]))
            && (AllUpToDate(clock, more) <==> AllUpToDate(clock, steps))
  {
    hide Leads, AllUpToDate;
    SendNext(clock, steps, sh, 0);
    var sh' := sh.(unsent := [Unsent(w, b)], sent := sh.sent + [a]);
    assert sh.unsent[..0] + sh.unsent[1..] == sh'.unsent;
    SendNext(clock, steps + [Send(0)], sh', 0);
    assert sh'.unsent[..0] + sh'.unsent[1..] == [];
  }

  /** Stale writes can cancel out: a stale new-port and a stale port-closed, sent in between the true ones,
      leave a stream that alternates and agrees with the store. That stream and store agree once all is
      sent does not tell that every write was up to date. */
  lemma StaleWritesCanCancel(clock: Clock, o: Observation)
    requires o.rec.open && Monotone(clock) && Unsigned(o.rec.timestamp) <= Unsigned(clock(0))
    ensures exists steps: seq<Step> ::
              && Possible(clock, steps) && PunctualRun(clock, steps) && !AllUpToDate(clock, steps)
              && var sh := Exec(clock, steps); sh.unsent == [] && AgreesOn(sh.hosts, sh.sent, o.e)
  {
    hide Leads, Apply, Possible, PunctualRun, Exec, AgreesOn, AllUpToDate, Written, IsOpen, Opening, Closing;
    var sh := FoundAndClosedTwice(clock, o);
    var a, b, c := Announcement(o), WrittenOff(clock, o), WrittenOffAgain(clock, o);
    var steps := Opening(o) + Closing(o.e);
    LeadsToClosedTwice(clock, o);
    SendTwo(clock, steps, sh, a, a, b, c);
    var sh' := sh.(unsent := [Unsent(1, a), Unsent(3, c)], sent := [a, b]);
    SendRest(clock, steps + [Send(0)] + [Send(1)], sh', 1, a, 3, c);
    assert sh'.sent + [a] + [c] == [a, b, a, c];
    LeadsMeans(clock, steps + [Send(0)] + [Send(1)] + [Send(0)] + [Send(0)], sh.(unsent := [], sent := [a, b, a, c]));
    EndsClosed(clock, o);
    TwoRounds(sh.hosts, a, b, a, c);
  }

  lemma TwoRounds(hosts: Hosts, a: Event, b: Event, c: Event, d: Event)
    requires a.kind == NewPort && b.kind == PortClosed && c.kind == NewPort && d.kind == PortClosed
    requires a.endpoint == b.endpoint == c.endpoint == d.endpoint && !IsOpen(hosts, a.endpoint)
    ensures AgreesOn(hosts, [a, b, c, d], a.endpoint)
  {
    hide IsOpen, Transitions;
    var e := a.endpoint;
    OneTransition(a, e);
    OneTransition(b, e);
    OneTransition(c, e);
    OneTransition(d, e);
    TransitionsAppend([a], [b], e);
    TransitionsAppend([c], [d], e);
    TransitionsAppend([a] + [b], [c] + [d], e);
    assert [a, b, c, d] == ([a] + [b]) + ([c] + [d]);
    assert Transitions([a, b, c, d], e) == [NewPort, PortClosed, NewPort, PortClosed];
  }
}
