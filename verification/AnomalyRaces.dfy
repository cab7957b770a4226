/** Scans of one user that run at the same time share the store but not the anomaly engine. For each
    endpoint a scan reads the stored record, writes the new one and sends the events, with no lock held in
    between. `sent` is what one sink is sent. */
module AnomalyRaces {
  import opened Wrappers
  import opened Records
  import opened TemporalStore
  import opened Anomaly
  import opened AnomalyRuns

  /** What a scan does to one endpoint: process a result, or close what it did not see. */
  datatype Task = Observe(o: Observation) | Close(e: Endpoint)

  /** A task past its read, with the record it found. */
  datatype Reading = Reading(task: Task, prev: Option<StateRecord>)

  /** An event whose write is done, still to be sent by scan `w`. */
  datatype Unsent = Unsent(w: nat, ev: Event)

  /** The store, how often the clock was read, the scans between a read and its write, the events still to
      be sent in the order of their writes, those sent, and, for the record, all of them in the order of
      their writes. */
  datatype Shared = Shared(
    hosts: Hosts, ticks: nat, pending: map<nat, Reading>, unsent: seq<Unsent>, sent: seq<Event>,
    written: seq<Event>)

  datatype Step = Begin(w: nat, task: Task) | Commit(w: nat) | Send(i: nat)

  function EndpointOf(task: Task): Endpoint {
    match task
    case Observe(o) => o.e
    case Close(e) => e
  }

  /** A scan deals with one endpoint at a time and sends its events in order; a flush goes on to write only
      when it read that the port is open. */
  predicate Enabled(sh: Shared, step: Step) {
    match step
    case Begin(w, task) =>
      && w !in sh.pending && (forall i :: 0 <= i < |sh.unsent| ==> sh.unsent[i].w != w)
      && (task.Close? ==> IsOpen(sh.hosts, task.e))
    case Commit(w) => w in sh.pending
    case Send(i) => i < |sh.unsent| && forall j :: 0 <= j < i ==> sh.unsent[j].w != sh.unsent[i].w
  }

  function RecordOf(task: Task, clock: Clock, ticks: nat): StateRecord {
    match task
    case Observe(o) => o.rec
    case Close(_) => ClosedRecord(clock(ticks))
  }

  function TicksOf(task: Task): nat { if task.Close? then 2 else 0 }

  /** The events of a write, judged by what was read before. */
  function EventsOf(r: Reading, clock: Clock, ticks: nat): seq<Event> {
    match r.task
    case Observe(o) => Diff(o.e, r.prev, o.rec)
    case Close(e) => [Event(clock(ticks + 1), e, PortClosed, Medium, r.prev, ClosedRecord(clock(ticks)))]
  }

  function By(w: nat, evs: seq<Event>): seq<Unsent> {
    seq(|evs|, i requires 0 <= i < |evs| => Unsent(w, evs[i]))
  }

  function EventsIn(us: seq<Unsent>): seq<Event> {
    seq(|us|, i requires 0 <= i < |us| => us[i].ev)
  }

  function Apply(sh: Shared, clock: Clock, step: Step): Shared
    requires Enabled(sh, step)
  {
    match step
    case Begin(w, task) => sh.(pending := sh.pending[w := Reading(task, Latest(sh.hosts, EndpointOf(task)))])
    case Commit(w) =>
      var r := sh.pending[w];
      var evs := EventsOf(r, clock, sh.ticks);
      Shared(Written(sh.hosts, EndpointOf(r.task), RecordOf(r.task, clock, sh.ticks)), sh.ticks + TicksOf(r.task),
             sh.pending - {w}, sh.unsent + By(w, evs), sh.sent, sh.written + evs)
    case Send(i) =>
      sh.(unsent := sh.unsent[..i] + sh.unsent[i + 1..], sent := sh.sent + [sh.unsent[i].ev])
  }

  function Idle(): Shared { Shared([], 0, map[], [], [], []) }

  ghost predicate Possible(clock: Clock, steps: seq<Step>)
    decreases |steps|, 0
  {
    steps == [] ||
    var n := |steps| - 1;
    Possible(clock, steps[..n]) && Enabled(Exec(clock, steps[..n]), steps[n])
  }

  ghost function Exec(clock: Clock, steps: seq<Step>): Shared
    requires Possible(clock, steps)
    decreases |steps|, 1
  {
    if steps == [] then Idle()
    else Apply(Exec(clock, steps[..|steps| - 1]), clock, steps[|steps| - 1])
  }

  // ---- one write ---------------------------------------------------------------------------

  /** The shared store beside a list of events, as one engine's state. */
  function View(sh: Shared, evs: seq<Event>): State { State(sh.hosts, [], {}, evs, sh.ticks) }

  /** What was read of the endpoint's openness is still true. */
  ghost predicate UpToDate(sh: Shared, w: nat)
    requires w in sh.pending
  {
    SaysOpen(sh.pending[w].prev) <==> IsOpen(sh.hosts, EndpointOf(sh.pending[w].task))
  }

  /** The scanner's side: only open results, and no endpoint's times going back at the write. */
  ghost predicate Punctual(sh: Shared, clock: Clock, task: Task) {
    match task
    case Observe(o) => o.rec.open && OnTime(sh.hosts, o)
    case Close(_) => ClockAhead(View(sh, []), clock)
  }

  ghost predicate Sane(sh: Shared) {
    Good(sh.hosts) && forall w :: w in sh.pending && sh.pending[w].task.Close? ==> SaysOpen(sh.pending[w].prev)
  }

  /** A write with its events is the second half of what one engine does. */
  lemma CommitIs(sh: Shared, clock: Clock, w: nat, evs: seq<Event>)
    requires Good(sh.hosts) && w in sh.pending
    ensures var r := sh.pending[w];
            var t := View(Apply(sh, clock, Commit(w)), evs + EventsOf(r, clock, sh.ticks));
            var u := match r.task
                     case Observe(o) => Finished(View(sh, evs), o, r.prev)
                     case Close(e) => ClosedAfter(View(sh, evs), clock, e, r.prev);
            t.hosts == u.hosts && t.sent == u.sent && t.ticks == u.ticks
  {
    hide Good, Written, Diff, Finished;
    match sh.pending[w].task {
      case Observe(o) => FinishedIs(View(sh, evs), o, sh.pending[w].prev);
      case Close(_) =>
    }
  }

  /** A read, a write and the sends with nothing in between are what one engine alone does. */
  lemma UndisturbedIsSequential(sh: Shared, clock: Clock, w: nat, task: Task)
    requires Good(sh.hosts) && Enabled(sh, Begin(w, task))
    ensures var t := Apply(Apply(sh, clock, Begin(w, task)), clock, Commit(w));
            var s := match task
                     case Observe(o) => Processed(View(sh, sh.written), o)
                     case Close(e) => ClosedEndpoint(View(sh, sh.written), clock, e);
            t.hosts == s.hosts && t.written == s.sent && t.ticks == s.ticks
  {
    CommitIs(Apply(sh, clock, Begin(w, task)), clock, w, sh.written);
  }

  lemma CommitOpens(sh: Shared, clock: Clock, w: nat)
    requires Sane(sh) && Monotone(clock) && w in sh.pending && Punctual(sh, clock, sh.pending[w].task)
    ensures var t := Apply(sh, clock, Commit(w));
            var e := EndpointOf(sh.pending[w].task);
            && Sane(t)
            && (IsOpen(t.hosts, e) <==> sh.pending[w].task.Observe?)
            && (forall f :: f != e ==> (IsOpen(t.hosts, f) <==> IsOpen(sh.hosts, f)))
  {
    hide Good, IsOpen;
    CommitIs(sh, clock, w, []);
    match sh.pending[w].task {
      case Observe(o) =>
        FinishedIs(View(sh, []), o, sh.pending[w].prev);
        FinishedOpen(View(sh, []), o, sh.pending[w].prev);
      case Close(e) => ClosedEndpointIs(View(sh, []), clock, e);
    }
  }

  lemma SameSync(s: State, t: State)
    requires s.hosts == t.hosts && s.sent == t.sent
    ensures InSync(s) <==> InSync(t)
  {}

  /** With events listed in the order of their writes, a write keeps them in step with the store exactly
      when its reading is up to date. */
  lemma WriteKeepsSyncIff(sh: Shared, clock: Clock, w: nat, evs: seq<Event>)
    requires Sane(sh) && Monotone(clock) && InSync(View(sh, evs))
    requires w in sh.pending && Punctual(sh, clock, sh.pending[w].task)
    ensures InSync(View(Apply(sh, clock, Commit(w)), evs + EventsOf(sh.pending[w], clock, sh.ticks)))
            <==> UpToDate(sh, w)
  {
    hide InSync, IsOpen, Good;
    var r := sh.pending[w];
    var t := View(Apply(sh, clock, Commit(w)), evs + EventsOf(r, clock, sh.ticks));
    CommitIs(sh, clock, w, evs);
    match r.task {
      case Observe(o) =>
        FinishKeepsSyncIff(View(sh, evs), o, r.prev);
        SameSync(t, Finished(View(sh, evs), o, r.prev));
      case Close(e) =>
        AheadIgnoresEvents(sh, clock, evs);
        CloseKeepsSyncIff(View(sh, evs), clock, e, r.prev);
        SameSync(t, ClosedAfter(View(sh, evs), clock, e, r.prev));
    }
  }

  lemma AheadIgnoresEvents(sh: Shared, clock: Clock, evs: seq<Event>)
    requires ClockAhead(View(sh, []), clock)
    ensures ClockAhead(View(sh, evs), clock)
  {}

  // ---- one send ----------------------------------------------------------------------------

  /** Everything sent, then everything still to be sent in the order of the writes. */
  function Completed(sh: Shared): seq<Event> { sh.sent + EventsIn(sh.unsent) }

  /** Sending the rest in the order of the writes would bring the stream in step with the store. */
  ghost predicate OnCourse(sh: Shared) { InSync(View(sh, Completed(sh))) }

  predicate IsTransitionOf(ev: Event, e: Endpoint) { IsTransition(ev.kind) && ev.endpoint == e }

  /** No earlier write's new-port or port-closed of the same endpoint is still to be sent. */
  ghost predicate InTurn(sh: Shared, i: nat)
    requires i < |sh.unsent|
  {
    IsTransition(sh.unsent[i].ev.kind) ==>
      forall j :: 0 <= j < i ==> !IsTransitionOf(sh.unsent[j].ev, sh.unsent[i].ev.endpoint)
  }

  lemma {:induction false} NoTransitionsIff(us: seq<Unsent>, e: Endpoint)
    ensures Transitions(EventsIn(us), e) == [] <==> forall j :: 0 <= j < |us| ==> !IsTransitionOf(us[j].ev, e)
  {
    if us != [] {
      var n := |us| - 1;
      assert EventsIn(us)[..n] == EventsIn(us[..n]);
      NoTransitionsIff(us[..n], e);
    }
  }

  /** The transitions of one endpoint before and after an event is sent out of the middle. */
  lemma SendMoves(sh: Shared, i: nat, e: Endpoint)
    requires i < |sh.unsent|
    ensures var before, after := EventsIn(sh.unsent[..i]), EventsIn(sh.unsent[i + 1..]);
            var ev := sh.unsent[i].ev;
            var sh' := sh.(unsent := sh.unsent[..i] + sh.unsent[i + 1..], sent := sh.sent + [ev]);
            var own := if IsTransitionOf(ev, e) then [ev.kind] else [];
            var s, a, b := Transitions(sh.sent, e), Transitions(before, e), Transitions(after, e);
            && Transitions(Completed(sh), e) == s + (a + (own + b))
            && Transitions(Completed(sh'), e) == s + (own + (a + b))
  {
    hide Transitions;
    var before, after := EventsIn(sh.unsent[..i]), EventsIn(sh.unsent[i + 1..]);
    var ev := sh.unsent[i].ev;
    var sh' := sh.(unsent := sh.unsent[..i] + sh.unsent[i + 1..], sent := sh.sent + [ev]);
    assert Completed(sh) == sh.sent + (before + ([ev] + after));
    assert Completed(sh') == sh.sent + ([ev] + (before + after));
    OneTransition(ev, e);
    TransitionsAppend(sh.sent, before + ([ev] + after), e);
    TransitionsAppend(before, [ev] + after, e);
    TransitionsAppend([ev], after, e);
    TransitionsAppend(sh.sent, [ev] + (before + after), e);
    TransitionsAppend([ev], before + after, e);
    TransitionsAppend(before, after, e);
  }

  lemma OneTransition(ev: Event, e: Endpoint)
    ensures Transitions([ev], e) == if IsTransitionOf(ev, e) then [ev.kind] else []
  {
    assert [ev][..0] == [];
  }

  /** A transition moved past another one of its endpoint breaks the alternation. */
  lemma MovedAhead(s: seq<AnomalyKind>, a: seq<AnomalyKind>, k: AnomalyKind, b: seq<AnomalyKind>)
    requires a != [] && Alternates(s + (a + ([k] + b)))
    ensures !Alternates(s + ([k] + (a + b)))
  {
    var before, after := s + (a + ([k] + b)), s + ([k] + (a + b));
    assert before[|s|] == a[0] && after[|s|] == k && after[|s| + 1] == a[0];
  }

  /** A send keeps the run on course exactly when it is in turn. */
  lemma SendKeepsCourseIff(sh: Shared, clock: Clock, i: nat)
    requires OnCourse(sh) && Enabled(sh, Send(i))
    ensures OnCourse(Apply(sh, clock, Send(i))) <==> InTurn(sh, i)
  {
    hide InSync, Transitions, IsOpen, Alternates, Completed;
    var sh' := Apply(sh, clock, Send(i));
    var ev := sh.unsent[i].ev;
    InSyncIff(View(sh, Completed(sh)));
    InSyncIff(View(sh', Completed(sh')));
    forall e | !IsTransitionOf(ev, e) || InTurn(sh, i)
      ensures AgreesOn(sh'.hosts, Completed(sh'), e)
    {
      assert AgreesOn(sh.hosts, Completed(sh), e);
      SendMoves(sh, i, e);
      NoTransitionsIff(sh.unsent[..i], e);
      Unmoved(Transitions(EventsIn(sh.unsent[..i]), e), if IsTransitionOf(ev, e) then [ev.kind] else [],
              Transitions(EventsIn(sh.unsent[i + 1..]), e));
    }
    if !InTurn(sh, i) {
      var e := ev.endpoint;
      assert AgreesOn(sh.hosts, Completed(sh), e);
      SendMoves(sh, i, e);
      NoTransitionsIff(sh.unsent[..i], e);
      MovedAhead(Transitions(sh.sent, e), Transitions(EventsIn(sh.unsent[..i]), e), ev.kind,
                 Transitions(EventsIn(sh.unsent[i + 1..]), e));
      assert !AgreesOn(sh'.hosts, Completed(sh'), e);
    }
  }

  lemma Unmoved(a: seq<AnomalyKind>, own: seq<AnomalyKind>, b: seq<AnomalyKind>)
    requires a == [] || own == []
    ensures own + (a + b) == a + (own + b)
  {}

  // ---- whole runs --------------------------------------------------------------------------

  ghost predicate PunctualRun(clock: Clock, steps: seq<Step>)
    requires Possible(clock, steps)
  {
    steps == [] ||
    var n := |steps| - 1;
    && PunctualRun(clock, steps[..n])
    && var sh := Exec(clock, steps[..n]);
       steps[n].Commit? ==> Punctual(sh, clock, sh.pending[steps[n].w].task)
  }

  /** Every write so far was up to date when it was made. */
  ghost predicate AllUpToDate(clock: Clock, steps: seq<Step>)
    requires Possible(clock, steps)
  {
    steps == [] ||
    var n := |steps| - 1;
    && AllUpToDate(clock, steps[..n])
    && (steps[n].Commit? ==> UpToDate(Exec(clock, steps[..n]), steps[n].w))
  }

  /** Every send so far was in turn when it was made. */
  ghost predicate AllInTurn(clock: Clock, steps: seq<Step>)
    requires Possible(clock, steps)
  {
    steps == [] ||
    var n := |steps| - 1;
    && AllInTurn(clock, steps[..n])
    && (steps[n].Send? ==> InTurn(Exec(clock, steps[..n]), steps[n].i))
  }

  ghost predicate AlwaysOnCourse(clock: Clock, steps: seq<Step>)
    requires Possible(clock, steps)
  {
    OnCourse(Exec(clock, steps)) && (steps == [] || AlwaysOnCourse(clock, steps[..|steps| - 1]))
  }

  lemma {:induction false} RunsStaySane(clock: Clock, steps: seq<Step>)
    requires Monotone(clock) && Possible(clock, steps) && PunctualRun(clock, steps)
    ensures Sane(Exec(clock, steps))
  {
    if steps != [] {
      hide Good, IsOpen, Punctual;
      var n := |steps| - 1;
      RunsStaySane(clock, steps[..n]);
      var sh := Exec(clock, steps[..n]);
      match steps[n] {
        case Begin(_, task) => BeginSays(sh, task);
        case Commit(w) => CommitOpens(sh, clock, w);
        case Send(_) =>
      }
    }
  }

  lemma BeginSays(sh: Shared, task: Task)
    ensures SaysOpen(Latest(sh.hosts, EndpointOf(task))) <==> IsOpen(sh.hosts, EndpointOf(task))
  {}

  lemma CommitCompletes(sh: Shared, clock: Clock, w: nat)
    requires w in sh.pending
    ensures var t, evs := Apply(sh, clock, Commit(w)), EventsOf(sh.pending[w], clock, sh.ticks);
            Completed(t) == Completed(sh) + evs && t.written == sh.written + evs
  {
    hide EventsOf, Written, RecordOf;
    var evs := EventsOf(sh.pending[w], clock, sh.ticks);
    assert EventsIn(sh.unsent + By(w, evs)) == EventsIn(sh.unsent) + evs;
  }

  lemma StepKeepsCourseIff(sh: Shared, clock: Clock, step: Step)
    requires Sane(sh) && Monotone(clock) && OnCourse(sh) && Enabled(sh, step)
    requires step.Commit? ==> Punctual(sh, clock, sh.pending[step.w].task)
    ensures OnCourse(Apply(sh, clock, step)) <==>
              (step.Commit? ==> UpToDate(sh, step.w)) && (step.Send? ==> InTurn(sh, step.i))
  {
    hide InSync, Sane, Punctual, UpToDate, InTurn;
    match step {
      case Begin(_, _) =>
        SameSync(View(sh, Completed(sh)), View(Apply(sh, clock, step), Completed(Apply(sh, clock, step))));
      case Commit(w) =>
        CommitCompletes(sh, clock, w);
        WriteKeepsSyncIff(sh, clock, w, Completed(sh));
      case Send(i) => SendKeepsCourseIff(sh, clock, i);
    }
  }

  /** However many scans interleave: after every step, sending the rest in the order of the writes would
      make the stream replay to the open endpoints, with new-port and port-closed alternating, exactly
      when every write found the openness it had read and every new-port and port-closed was sent after
      those its endpoint's earlier writes called for. */
  lemma {:induction false} RacesKeepSyncIff(clock: Clock, steps: seq<Step>)
    requires Monotone(clock) && Possible(clock, steps) && PunctualRun(clock, steps)
    ensures AlwaysOnCourse(clock, steps) <==> AllUpToDate(clock, steps) && AllInTurn(clock, steps)
  {
    if steps == [] {
      StartsInSync();
    } else {
      hide OnCourse, Sane, Punctual, UpToDate, InTurn, Enabled, Apply;
      var n := |steps| - 1;
      RacesKeepSyncIff(clock, steps[..n]);
      RunsStaySane(clock, steps[..n]);
      if AlwaysOnCourse(clock, steps[..n]) {
        NowOnCourse(clock, steps[..n]);
        StepKeepsCourseIff(Exec(clock, steps[..n]), clock, steps[n]);
      }
    }
  }

  lemma NowOnCourse(clock: Clock, steps: seq<Step>)
    requires Possible(clock, steps)
    ensures AlwaysOnCourse(clock, steps) ==> OnCourse(Exec(clock, steps))
  {}

  lemma StartsInSync()
    ensures OnCourse(Idle()) && InSync(View(Idle(), []))
  {
    assert Completed(Idle()) == [];
    assert forall e :: Orderly([], e);
  }

  // ---- when everything about an endpoint has been sent -------------------------------------

  ghost predicate Quiet(sh: Shared, e: Endpoint) {
    forall j :: 0 <= j < |sh.unsent| ==> !IsTransitionOf(sh.unsent[j].ev, e)
  }

  /** On course, the stream agrees with the store on every endpoint none of whose transitions is still to
      be sent. */
  lemma QuietAgrees(sh: Shared, e: Endpoint)
    requires OnCourse(sh) && Quiet(sh, e)
    ensures AgreesOn(sh.hosts, sh.sent, e)
  {
    hide InSync, Transitions, IsOpen, Alternates;
    InSyncIff(View(sh, Completed(sh)));
    assert AgreesOn(sh.hosts, Completed(sh), e);
    TransitionsAppend(sh.sent, EventsIn(sh.unsent), e);
    NoTransitionsIff(sh.unsent, e);
    assert Transitions(sh.sent, e) + [] == Transitions(sh.sent, e);
  }

  /** Events listed in the order of their writes stay in step when every write is up to date. */
  lemma {:induction false} WrittenInSync(clock: Clock, steps: seq<Step>)
    requires Monotone(clock) && Possible(clock, steps) && PunctualRun(clock, steps) && AllUpToDate(clock, steps)
    ensures InSync(View(Exec(clock, steps), Exec(clock, steps).written))
  {
    if steps == [] {
      StartsInSync();
    } else {
      hide InSync, Sane, Punctual, UpToDate;
      var n := |steps| - 1;
      WrittenInSync(clock, steps[..n]);
      RunsStaySane(clock, steps[..n]);
      var sh := Exec(clock, steps[..n]);
      if steps[n].Commit? {
        WriteKeepsSyncIff(sh, clock, steps[n].w, sh.written);
      } else {
        SameSync(View(sh, sh.written), View(Exec(clock, steps), Exec(clock, steps).written));
      }
    }
  }

  /** No transition is lost or made up on the way from the write to the sink. */
  lemma {:induction false} SentAndUnsent(clock: Clock, steps: seq<Step>, e: Endpoint)
    requires Possible(clock, steps)
    ensures var sh := Exec(clock, steps);
            |Transitions(sh.written, e)| == |Transitions(Completed(sh), e)|
  {
    hide Transitions, Completed, EventsOf, Written, RecordOf, Latest, IsOpen;
    if steps == [] {
      StartsEmpty();
    } else {
      var n := |steps| - 1;
      SentAndUnsent(clock, steps[..n], e);
      var sh := Exec(clock, steps[..n]);
      match steps[n] {
        case Begin(_, _) => SameCompleted(sh, Exec(clock, steps));
        case Commit(w) =>
          var evs := EventsOf(sh.pending[w], clock, sh.ticks);
          CommitCompletes(sh, clock, w);
          TransitionsAppend(Completed(sh), evs, e);
          TransitionsAppend(sh.written, evs, e);
        case Send(i) => SendMoves(sh, i, e);
      }
    }
  }

  lemma StartsEmpty()
    ensures Completed(Idle()) == Idle().written
  {}

  lemma SameCompleted(sh: Shared, sh': Shared)
    requires sh'.sent == sh.sent && sh'.unsent == sh.unsent
    ensures Completed(sh') == Completed(sh)
  {}

  /** When every write was up to date: once nothing about an endpoint is left to be sent, the stream
      alternates on it and leaves it as the store has it exactly when its new-ports and port-closeds were
      sent in the order of their writes. */
  lemma SentInOrderIff(clock: Clock, steps: seq<Step>, e: Endpoint)
    requires Monotone(clock) && Possible(clock, steps) && PunctualRun(clock, steps) && AllUpToDate(clock, steps)
    requires Quiet(Exec(clock, steps), e)
    ensures var sh := Exec(clock, steps);
            AgreesOn(sh.hosts, sh.sent, e) <==> Transitions(sh.sent, e) == Transitions(sh.written, e)
  {
    hide InSync, Transitions, IsOpen, Possible, Exec;
    var sh := Exec(clock, steps);
    WrittenInSync(clock, steps);
    InSyncIff(View(sh, sh.written));
    assert AgreesOn(sh.hosts, sh.written, e);
    SentAndUnsent(clock, steps, e);
    TransitionsAppend(sh.sent, EventsIn(sh.unsent), e);
    NoTransitionsIff(sh.unsent, e);
  }

  // ---- one scan at a time for each endpoint ------------------------------------------------

  /** The endpoint is another scan's business: read and not yet written, or written and not yet sent. */
  ghost predicate Busy(sh: Shared, e: Endpoint) {
    || (exists v :: v in sh.pending && EndpointOf(sh.pending[v].task) == e)
    || (exists j :: 0 <= j < |sh.unsent| && sh.unsent[j].ev.endpoint == e)
  }

  /** No scan reads an endpoint before the last one has sent its events. */
  ghost predicate Exclusive(clock: Clock, steps: seq<Step>)
    requires Possible(clock, steps)
  {
    steps == [] ||
    var n := |steps| - 1;
    && Exclusive(clock, steps[..n])
    && (steps[n].Begin? ==> !Busy(Exec(clock, steps[..n]), EndpointOf(steps[n].task)))
  }

  ghost predicate Settled(sh: Shared) {
    && (forall w :: w in sh.pending ==> UpToDate(sh, w))
    && (forall v, w :: v in sh.pending && w in sh.pending && v != w ==>
          EndpointOf(sh.pending[v].task) != EndpointOf(sh.pending[w].task))
    && (forall v, j :: v in sh.pending && 0 <= j < |sh.unsent| ==>
          EndpointOf(sh.pending[v].task) != sh.unsent[j].ev.endpoint)
    && (forall j, k :: 0 <= j < k < |sh.unsent| && sh.unsent[j].ev.endpoint == sh.unsent[k].ev.endpoint ==>
          sh.unsent[j].w == sh.unsent[k].w)
  }

  lemma BeginSettled(sh: Shared, clock: Clock, w: nat, task: Task)
    requires Settled(sh) && Enabled(sh, Begin(w, task)) && !Busy(sh, EndpointOf(task))
    ensures Settled(Apply(sh, clock, Begin(w, task)))
  {
    hide IsOpen, EndpointOf, SaysOpen, Latest;
    BeginSays(sh, task);
    var t := Apply(sh, clock, Begin(w, task));
    forall v | v in t.pending ensures UpToDate(t, v) {
      if v != w { assert UpToDate(sh, v); }
    }
  }

  lemma EventsAbout(r: Reading, clock: Clock, ticks: nat)
    ensures forall ev :: ev in EventsOf(r, clock, ticks) ==> ev.endpoint == EndpointOf(r.task)
  {}

  lemma CommitSettled(sh: Shared, clock: Clock, w: nat)
    requires Settled(sh) && Sane(sh) && Monotone(clock) && w in sh.pending
    requires Punctual(sh, clock, sh.pending[w].task)
    ensures Settled(Apply(sh, clock, Commit(w)))
  {
    hide IsOpen, EndpointOf, SaysOpen, EventsOf, Sane, Punctual, Written, RecordOf;
    CommitOpens(sh, clock, w);
    var t := Apply(sh, clock, Commit(w));
    var evs := EventsOf(sh.pending[w], clock, sh.ticks);
    EventsAbout(sh.pending[w], clock, sh.ticks);
    assert forall j :: |sh.unsent| <= j < |t.unsent| ==> t.unsent[j].ev in evs && t.unsent[j].w == w;
    forall v | v in t.pending ensures UpToDate(t, v) { assert UpToDate(sh, v); }
  }

  lemma SendSettled(sh: Shared, clock: Clock, i: nat)
    requires Settled(sh) && Enabled(sh, Send(i))
    ensures Settled(Apply(sh, clock, Send(i))) && InTurn(sh, i)
  {
    hide IsOpen, EndpointOf, SaysOpen;
    var t := Apply(sh, clock, Send(i));
    assert forall j :: 0 <= j < |t.unsent| ==> t.unsent[j] == sh.unsent[if j < i then j else j + 1];
    forall v | v in t.pending ensures UpToDate(t, v) { assert UpToDate(sh, v); }
  }

  /** If scans take turns on every endpoint, from the read to the last send, the stream agrees with the
      store on every endpoint nobody is busy with. */
  lemma {:induction false} TakingTurnsKeepsSync(clock: Clock, steps: seq<Step>)
    requires Monotone(clock) && Possible(clock, steps) && PunctualRun(clock, steps) && Exclusive(clock, steps)
    ensures Settled(Exec(clock, steps)) && AllUpToDate(clock, steps) && AllInTurn(clock, steps)
    ensures forall e :: Quiet(Exec(clock, steps), e) ==> AgreesOn(Exec(clock, steps).hosts, Exec(clock, steps).sent, e)
  {
    hide OnCourse, Settled, Punctual, EndpointOf, Sane, Apply, AgreesOn, Quiet, InTurn, Busy;
    if steps == [] {
      IdleSettled();
    } else {
      var n := |steps| - 1;
      TakingTurnsKeepsSync(clock, steps[..n]);
      RunsStaySane(clock, steps[..n]);
      var sh := Exec(clock, steps[..n]);
      match steps[n] {
        case Begin(w, task) => BeginSettled(sh, clock, w, task);
        case Commit(w) => SettledUpToDate(sh, w); CommitSettled(sh, clock, w);
        case Send(i) => SendSettled(sh, clock, i);
      }
    }
    RacesKeepSyncIff(clock, steps);
    NowOnCourse(clock, steps);
    forall e | Quiet(Exec(clock, steps), e)
      ensures AgreesOn(Exec(clock, steps).hosts, Exec(clock, steps).sent, e)
    {
      QuietAgrees(Exec(clock, steps), e);
    }
  }

  lemma IdleSettled()
    ensures Settled(Idle())
  {}

  lemma SettledUpToDate(sh: Shared, w: nat)
    requires Settled(sh) && w in sh.pending
    ensures UpToDate(sh, w)
  {}
}
