/** The TCP scanner's worker pool: a feeder, a fixed number of workers, two bounded channels, a consumer
    and cancellation, interleaved in any way. */
module ScanPool {
  import opened Bytes
  import opened Strings

  datatype Job = Job(ip: Text, port: Port)

  datatype Probe = Probe(job: Job, open: bool)

  datatype Feeder = Feeding | Waiting | Finished

  /** Where a worker stands: waiting for a job, about to look at the context, dialling, offering an open
      result, or returned. */
  datatype Worker = Idle | Checking(job: Job) | Dialling(job: Job) | Offering(job: Job) | Exited

  /** The pool. `fed` jobs of `todo` have been handed out; `jobs` and `results` are the buffered
      channels with the number of times each was closed; the rest is what happened so far: the probes
      made, the results consumed, and, after cancellation, the jobs never probed and the open results
      never delivered; and the jobs workers took and the results they sent, in order. */
  datatype Pool = Pool(
    concurrency: nat, todo: seq<Job>, fed: nat, feeder: Feeder,
    jobs: seq<Job>, jobsCloses: nat, workers: seq<Worker>,
    results: seq<Job>, resultsCloses: nat, cancelled: bool,
    probes: seq<Probe>, delivered: seq<Job>, skipped: seq<Job>, dropped: seq<Job>,
    taken: seq<Job>, sent: seq<Job>)

  const DEFAULT_CONCURRENCY: nat := 2000

  /** `NewTCP` replaces a non-positive concurrency. */
  function Concurrency(configured: int): (c: nat)
    ensures c > 0
  {
    if configured <= 0 then DEFAULT_CONCURRENCY else configured
  }

  /** All ports of one host before the next host. */
  function Pairs(ips: seq<Text>, ports: seq<Port>): seq<Job> {
    if ips == [] then []
    else Pairs(ips[..|ips| - 1], ports) + seq(|ports|, i requires 0 <= i < |ports| => Job(ips[|ips| - 1], ports[i]))
  }

  function Start(configured: int, ips: seq<Text>, ports: seq<Port>): Pool {
    var c := Concurrency(configured);
    Pool(c, Pairs(ips, ports), 0, Feeding, [], 0, seq(c, _ => Idle), [], 0, false, [], [], [], [], [], [])
  }

  datatype Step =
    | Cancel
    | Feed
    | FeedStop
    | FeedClose
    | Finish
    | Take(w: nat)
    | RangeEnds(w: nat)
    | Check(w: nat)
    | Dial(w: nat, open: bool)
    | Send(w: nat)
    | GiveUp(w: nat)
    | Consume

  predicate Enabled(p: Pool, s: Step) {
    match s
    case Cancel => !p.cancelled
    case Feed => p.feeder.Feeding? && p.fed < |p.todo| && |p.jobs| < 2 * p.concurrency
    case FeedStop => p.feeder.Feeding? && p.fed < |p.todo| && p.cancelled
    case FeedClose => p.feeder.Feeding? && p.fed == |p.todo|
    case Finish => p.feeder.Waiting? && forall w :: 0 <= w < |p.workers| ==> p.workers[w].Exited?
    case Take(w) => w < |p.workers| && p.workers[w].Idle? && p.jobs != []
    case RangeEnds(w) => w < |p.workers| && p.workers[w].Idle? && p.jobs == [] && p.jobsCloses > 0
    case Check(w) => w < |p.workers| && p.workers[w].Checking?
    case Dial(w, _) => w < |p.workers| && p.workers[w].Dialling?
    case Send(w) => w < |p.workers| && p.workers[w].Offering? && |p.results| < p.concurrency
    case GiveUp(w) => w < |p.workers| && p.workers[w].Offering? && p.cancelled
    case Consume => p.results != []
  }

  function With(p: Pool, w: nat, state: Worker): Pool
    requires w < |p.workers|
  {
    p.(workers := p.workers[w := state])
  }

  function Apply(p: Pool, s: Step): Pool
    requires Enabled(p, s)
  {
    match s
    case Cancel => p.(cancelled := true)
    case Feed => p.(jobs := p.jobs + [p.todo[p.fed]], fed := p.fed + 1)
    case FeedStop => p.(feeder := Waiting, jobsCloses := p.jobsCloses + 1)
    case FeedClose => p.(feeder := Waiting, jobsCloses := p.jobsCloses + 1)
    case Finish => p.(feeder := Finished, resultsCloses := p.resultsCloses + 1)
    case Take(w) => With(p, w, Checking(p.jobs[0])).(jobs := p.jobs[1..], taken := p.taken + [p.jobs[0]])
    case RangeEnds(w) => With(p, w, Exited)
    case Check(w) =>
      var job := p.workers[w].job;
      if p.cancelled then With(p, w, Exited).(skipped := p.skipped + [job]) else With(p, w, Dialling(job))
    case Dial(w, open) =>
      var job := p.workers[w].job;
      With(p, w, if open then Offering(job) else Idle).(probes := p.probes + [Probe(job, open)])
    case Send(w) =>
      var job := p.workers[w].job;
      With(p, w, Idle).(results := p.results + [job], sent := p.sent + [job])
    case GiveUp(w) => With(p, w, Exited).(dropped := p.dropped + [p.workers[w].job])
    case Consume => p.(results := p.results[1..], delivered := p.delivered + [p.results[0]])
  }

  ghost predicate Possible(p: Pool, steps: seq<Step>)
    decreases |steps|, 0
  {
    steps == [] ||
    (Possible(p, steps[..|steps| - 1]) && Enabled(Exec(p, steps[..|steps| - 1]), steps[|steps| - 1]))
  }

  ghost function Exec(p: Pool, steps: seq<Step>): Pool
    requires Possible(p, steps)
    decreases |steps|, 1
  {
    if steps == [] then p else Apply(Exec(p, steps[..|steps| - 1]), steps[|steps| - 1])
  }

  // ---- where the jobs are ------------------------------------------------------------------

  function One(b: bool): nat { if b then 1 else 0 }

  /** How often `j` occurs. */
  function Occurs(js: seq<Job>, j: Job): nat {
    if js == [] then 0 else Occurs(js[..|js| - 1], j) + One(js[|js| - 1] == j)
  }

  predicate IsUnprobed(w: Worker, j: Job) { (w.Checking? || w.Dialling?) && w.job == j }

  predicate IsOffered(w: Worker, j: Job) { w.Offering? && w.job == j }

  function Unprobed(ws: seq<Worker>, j: Job): nat {
    if ws == [] then 0 else Unprobed(ws[..|ws| - 1], j) + One(IsUnprobed(ws[|ws| - 1], j))
  }

  function Offered(ws: seq<Worker>, j: Job): nat {
    if ws == [] then 0 else Offered(ws[..|ws| - 1], j) + One(IsOffered(ws[|ws| - 1], j))
  }

  /** How often `j` was probed, and how often it was found open. */
  function Probed(ps: seq<Probe>, j: Job): nat {
    if ps == [] then 0 else Probed(ps[..|ps| - 1], j) + One(ps[|ps| - 1].job == j)
  }

  function FoundOpen(ps: seq<Probe>, j: Job): nat {
    if ps == [] then 0 else FoundOpen(ps[..|ps| - 1], j) + One(ps[|ps| - 1].job == j && ps[|ps| - 1].open)
  }

  lemma OccursSnoc(js: seq<Job>, x: Job, j: Job)
    ensures Occurs(js + [x], j) == Occurs(js, j) + One(x == j)
  {
    assert (js + [x])[..|js|] == js;
  }

  lemma {:induction false} OccursAppend(a: seq<Job>, b: seq<Job>, j: Job)
    ensures Occurs(a + b, j) == Occurs(a, j) + Occurs(b, j)
  {
    if b == [] {
      assert a + b == a;
    } else {
      assert (a + b)[..|a + b| - 1] == a + b[..|b| - 1];
      OccursAppend(a, b[..|b| - 1], j);
    }
  }

  lemma OccursTail(js: seq<Job>, j: Job)
    requires js != []
    ensures Occurs(js, j) == One(js[0] == j) + Occurs(js[1..], j)
  {
    assert js == [js[0]] + js[1..];
    OccursAppend([js[0]], js[1..], j);
    assert [js[0]][..0] == [];
  }

  lemma {:induction false} OccursIsMultiset(js: seq<Job>, j: Job)
    ensures multiset(js)[j] == Occurs(js, j)
  {
    if js != [] {
      OccursIsMultiset(js[..|js| - 1], j);
      assert js == js[..|js| - 1] + [js[|js| - 1]];
    }
  }

  lemma {:induction false} WorkersUpdate(ws: seq<Worker>, i: nat, w: Worker, j: Job)
    requires i < |ws|
    ensures Unprobed(ws[i := w], j) + One(IsUnprobed(ws[i], j)) == Unprobed(ws, j) + One(IsUnprobed(w, j))
    ensures Offered(ws[i := w], j) + One(IsOffered(ws[i], j)) == Offered(ws, j) + One(IsOffered(w, j))
  {
    var n := |ws| - 1;
    if i == n {
      assert ws[i := w][..n] == ws[..n];
    } else {
      assert ws[i := w][..n] == ws[..n][i := w];
      WorkersUpdate(ws[..n], i, w, j);
    }
  }

  lemma {:induction false} NoneHeld(ws: seq<Worker>, j: Job)
    requires forall i :: 0 <= i < |ws| ==> ws[i].Idle? || ws[i].Exited?
    ensures Unprobed(ws, j) == 0 && Offered(ws, j) == 0
  {
    if ws != [] { NoneHeld(ws[..|ws| - 1], j); }
  }

  // ---- invariant ---------------------------------------------------------------------------

  /** Every copy of `j` handed out is in exactly one place, and so is every open result for it. */
  ghost predicate ConservedAt(p: Pool, j: Job)
    requires p.fed <= |p.todo|
  {
    && Occurs(p.todo[..p.fed], j) ==
       Occurs(p.jobs, j) + Unprobed(p.workers, j) + Probed(p.probes, j) + Occurs(p.skipped, j)
    && FoundOpen(p.probes, j) ==
       Offered(p.workers, j) + Occurs(p.results, j) + Occurs(p.delivered, j) + Occurs(p.dropped, j)
  }

  ghost predicate Conserved(p: Pool) {
    && p.fed <= |p.todo|
    && (forall j :: ConservedAt(p, j))
    && (p.skipped != [] || p.dropped != [] ==> p.cancelled)
  }

  /** Channels are closed once, by their owner, and no worker returns early without cancellation. */
  ghost predicate Protocol(p: Pool) {
    && p.concurrency > 0 && |p.workers| == p.concurrency
    && |p.jobs| <= 2 * p.concurrency && |p.results| <= p.concurrency
    && p.jobsCloses == (if p.feeder.Feeding? then 0 else 1)
    && p.resultsCloses == (if p.feeder.Finished? then 1 else 0)
    && (p.feeder.Finished? ==> forall w :: 0 <= w < |p.workers| ==> p.workers[w].Exited?)
    && (!p.feeder.Feeding? ==> p.fed == |p.todo| || p.cancelled)
    && (forall w :: 0 <= w < |p.workers| && p.workers[w].Exited? ==> p.cancelled || (p.jobsCloses > 0 && p.jobs == []))
  }

  ghost predicate Inv(p: Pool) { Conserved(p) && Protocol(p) }

  lemma ChannelStepConserves(p: Pool, s: Step, j: Job)
    requires p.fed <= |p.todo| && ConservedAt(p, j) && Enabled(p, s)
    requires s.Feed? || s.Consume? || s.Cancel? || s.FeedStop? || s.FeedClose? || s.Finish?
    ensures ConservedAt(Apply(p, s), j)
  {
    hide Occurs, Unprobed, Offered, Probed, FoundOpen;
    if s.Feed? {
      assert p.todo[..p.fed + 1] == p.todo[..p.fed] + [p.todo[p.fed]];
      OccursSnoc(p.todo[..p.fed], p.todo[p.fed], j);
      OccursSnoc(p.jobs, p.todo[p.fed], j);
    } else if s.Consume? {
      OccursTail(p.results, j);
      OccursSnoc(p.delivered, p.results[0], j);
    }
  }

  lemma TakingStepConserves(p: Pool, s: Step, j: Job)
    requires p.fed <= |p.todo| && ConservedAt(p, j) && Enabled(p, s)
    requires s.Take? || s.RangeEnds? || s.Check?
    ensures ConservedAt(Apply(p, s), j)
  {
    hide Occurs, Unprobed, Offered, Probed, FoundOpen;
    WorkersUpdate(p.workers, s.w, Apply(p, s).workers[s.w], j);
    if s.Take? { OccursTail(p.jobs, j); }
    if s.Check? { OccursSnoc(p.skipped, p.workers[s.w].job, j); }
  }

  lemma ResultStepConserves(p: Pool, s: Step, j: Job)
    requires p.fed <= |p.todo| && ConservedAt(p, j) && Enabled(p, s)
    requires s.Dial? || s.Send? || s.GiveUp?
    ensures ConservedAt(Apply(p, s), j)
  {
    hide Occurs, Unprobed, Offered, Probed, FoundOpen;
    var job := p.workers[s.w].job;
    WorkersUpdate(p.workers, s.w, Apply(p, s).workers[s.w], j);
    if s.Dial? { ProbesSnoc(p.probes, Probe(job, s.open), j); }
    if s.Send? { OccursSnoc(p.results, job, j); }
    if s.GiveUp? { OccursSnoc(p.dropped, job, j); }
  }

  lemma ProbesSnoc(ps: seq<Probe>, x: Probe, j: Job)
    ensures Probed(ps + [x], j) == Probed(ps, j) + One(x.job == j)
    ensures FoundOpen(ps + [x], j) == FoundOpen(ps, j) + One(x.job == j && x.open)
  {
    assert (ps + [x])[..|ps|] == ps;
  }

  lemma StepProtocol(p: Pool, s: Step)
    requires Protocol(p) && p.fed <= |p.todo| && Enabled(p, s)
    ensures Protocol(Apply(p, s))
  {}

  lemma StepKeeps(p: Pool, s: Step)
    requires Inv(p) && Enabled(p, s)
    ensures Inv(Apply(p, s))
  {
    hide Protocol, ConservedAt;
    StepProtocol(p, s);
    forall j ensures ConservedAt(Apply(p, s), j) {
      assert ConservedAt(p, j);
      if s.Take? || s.RangeEnds? || s.Check? {
        TakingStepConserves(p, s, j);
      } else if s.Dial? || s.Send? || s.GiveUp? {
        ResultStepConserves(p, s, j);
      } else {
        ChannelStepConserves(p, s, j);
      }
    }
  }

  lemma {:induction false} RunsKeepInv(configured: int, ips: seq<Text>, ports: seq<Port>, steps: seq<Step>)
    requires Possible(Start(configured, ips, ports), steps)
    ensures Inv(Exec(Start(configured, ips, ports), steps))
    ensures Exec(Start(configured, ips, ports), steps).todo == Pairs(ips, ports)
  {
    hide Inv, Enabled;
    if steps == [] {
      StartInv(configured, ips, ports);
    } else {
      RunsKeepInv(configured, ips, ports, steps[..|steps| - 1]);
      StepKeeps(Exec(Start(configured, ips, ports), steps[..|steps| - 1]), steps[|steps| - 1]);
    }
  }

  lemma StartInv(configured: int, ips: seq<Text>, ports: seq<Port>)
    ensures Inv(Start(configured, ips, ports))
  {
    forall j ensures ConservedAt(Start(configured, ips, ports), j) {
      NoneHeld(Start(configured, ips, ports).workers, j);
    }
  }

  // ---- order -------------------------------------------------------------------------------

  /** Job `k` of host `m` stands at its place: the list goes through the hosts as given, and through all
      ports of a host as given before the next. */
  lemma {:induction false} PairAt(ips: seq<Text>, ports: seq<Port>, m: nat, k: nat)
    requires m < |ips| && k < |ports|
    ensures |Pairs(ips, ports)| == |ips| * |ports|
    ensures m * |ports| + k < |Pairs(ips, ports)| && Pairs(ips, ports)[m * |ports| + k] == Job(ips[m], ports[k])
  {
    var n := |ips| - 1;
    PairsSize(ips, ports);
    PairsSize(ips[..n], ports);
    if m == n {
      assert Pairs(ips, ports)[n * |ports| + k] == Job(ips[n], ports[k]);
    } else {
      PairAt(ips[..n], ports, m, k);
      assert Pairs(ips, ports)[m * |ports| + k] == Pairs(ips[..n], ports)[m * |ports| + k];
    }
  }

  lemma {:induction false} PairsSize(ips: seq<Text>, ports: seq<Port>)
    ensures |Pairs(ips, ports)| == |ips| * |ports|
  {
    if ips != [] {
      PairsSize(ips[..|ips| - 1], ports);
      assert |ips| * |ports| == (|ips| - 1) * |ports| + |ports|;
    }
  }

  /** Both channels are first in, first out: the jobs workers took, in order, and those waiting are the first
      jobs of the list; the results consumed, in order, and those waiting are the results sent. */
  lemma {:induction false} ChannelsKeepOrder(configured: int, ips: seq<Text>, ports: seq<Port>, steps: seq<Step>)
    requires Possible(Start(configured, ips, ports), steps)
    ensures var p := Exec(Start(configured, ips, ports), steps);
            && p.fed <= |Pairs(ips, ports)| && p.taken + p.jobs == Pairs(ips, ports)[..p.fed]
            && p.delivered + p.results == p.sent
  {
    hide Pairs, Concurrency;
    if steps != [] {
      var n := |steps| - 1;
      ChannelsKeepOrder(configured, ips, ports, steps[..n]);
      RunsKeepInv(configured, ips, ports, steps[..n]);
      var p := Exec(Start(configured, ips, ports), steps[..n]);
      StepKeepsOrder(p, steps[n]);
    }
  }

  lemma StepKeepsOrder(p: Pool, s: Step)
    requires p.fed <= |p.todo| && p.taken + p.jobs == p.todo[..p.fed] && p.delivered + p.results == p.sent
    requires Enabled(p, s)
    ensures var q := Apply(p, s);
            && q.todo == p.todo && q.fed <= |q.todo| && q.taken + q.jobs == q.todo[..q.fed]
            && q.delivered + q.results == q.sent
  {
    match s {
      case Feed =>
        assert p.taken + (p.jobs + [p.todo[p.fed]]) == (p.taken + p.jobs) + [p.todo[p.fed]];
      case Take(_) =>
        assert (p.taken + [p.jobs[0]]) + p.jobs[1..] == p.taken + p.jobs;
      case Send(w) =>
        assert p.delivered + (p.results + [p.workers[w].job]) == (p.delivered + p.results) + [p.workers[w].job];
      case Consume =>
        assert (p.delivered + [p.results[0]]) + p.results[1..] == p.delivered + p.results;
      case _ =>
    }
  }

  /** What was taken up is always the first part of the list: whatever a scan leaves out comes later there. */
  lemma TakenInOrder(configured: int, ips: seq<Text>, ports: seq<Port>, steps: seq<Step>)
    requires Possible(Start(configured, ips, ports), steps)
    ensures Exec(Start(configured, ips, ports), steps).taken <= Pairs(ips, ports)
  {
    hide Possible, Exec, Pairs;
    ChannelsKeepOrder(configured, ips, ports, steps);
    var p := Exec(Start(configured, ips, ports), steps);
    assert p.taken <= p.taken + p.jobs <= Pairs(ips, ports);
  }

  /** There are as many workers as configured, 2000 when nothing positive is; and the channels hold two jobs
      and one result a worker: the feeder waits exactly when that many jobs wait, a worker with an open
      result when that many results do. */
  lemma CapacitiesAre(configured: int, ips: seq<Text>, ports: seq<Port>, steps: seq<Step>, w: nat)
    requires Possible(Start(configured, ips, ports), steps)
    ensures var p := Exec(Start(configured, ips, ports), steps);
            var c := if configured > 0 then configured else 2000;
            && |p.workers| == c
            && (p.feeder.Feeding? && p.fed < |p.todo| ==> (!Enabled(p, Feed) <==> |p.jobs| == 2 * c))
            && (w < c && p.workers[w].Offering? ==> (!Enabled(p, Send(w)) <==> |p.results| == c))
  {
    RunsKeepInv(configured, ips, ports, steps);
    SameConcurrency(configured, ips, ports, steps);
  }

  lemma {:induction false} SameConcurrency(configured: int, ips: seq<Text>, ports: seq<Port>, steps: seq<Step>)
    requires Possible(Start(configured, ips, ports), steps)
    ensures Exec(Start(configured, ips, ports), steps).concurrency == Concurrency(configured)
  {
    if steps != [] { SameConcurrency(configured, ips, ports, steps[..|steps| - 1]); }
  }

  // ---- after cancellation ------------------------------------------------------------------

  function Diallers(ws: seq<Worker>): nat {
    if ws == [] then 0 else Diallers(ws[..|ws| - 1]) + One(ws[|ws| - 1].Dialling?)
  }

  lemma {:induction false} DiallersUpdate(ws: seq<Worker>, i: nat, w: Worker)
    requires i < |ws|
    ensures Diallers(ws[i := w]) + One(ws[i].Dialling?) == Diallers(ws) + One(w.Dialling?)
    ensures Diallers(ws) <= |ws|
  {
    var n := |ws| - 1;
    if i == n {
      assert ws[i := w][..n] == ws[..n];
      DiallersBound(ws[..n]);
    } else {
      assert ws[i := w][..n] == ws[..n][i := w];
      DiallersUpdate(ws[..n], i, w);
    }
  }

  lemma {:induction false} DiallersBound(ws: seq<Worker>)
    ensures Diallers(ws) <= |ws|
  {
    if ws != [] { DiallersBound(ws[..|ws| - 1]); }
  }

  function Gone(ws: seq<Worker>): nat {
    if ws == [] then 0 else Gone(ws[..|ws| - 1]) + One(ws[|ws| - 1].Exited?)
  }

  lemma {:induction false} GoneUpdate(ws: seq<Worker>, i: nat, w: Worker)
    requires i < |ws|
    ensures Gone(ws[i := w]) + One(ws[i].Exited?) == Gone(ws) + One(w.Exited?)
  {
    var n := |ws| - 1;
    if i == n {
      assert ws[i := w][..n] == ws[..n];
    } else {
      assert ws[i := w][..n] == ws[..n][i := w];
      GoneUpdate(ws[..n], i, w);
    }
  }

  lemma {:induction false} GoneBound(ws: seq<Worker>)
    ensures Gone(ws) <= |ws|
  {
    if ws != [] { GoneBound(ws[..|ws| - 1]); }
  }

  lemma {:induction false} LossesExit(p: Pool, steps: seq<Step>)
    requires Possible(p, steps) && p.dropped == [] && p.skipped == []
    ensures var q := Exec(p, steps); |q.workers| == |p.workers| && |q.dropped| + |q.skipped| <= Gone(q.workers)
  {
    if steps != [] {
      hide Gone;
      var n := |steps| - 1;
      LossesExit(p, steps[..n]);
      var m, s := Exec(p, steps[..n]), steps[n];
      if s.Take? || s.RangeEnds? || s.Check? || s.Dial? || s.Send? || s.GiveUp? {
        GoneUpdate(m.workers, s.w, Apply(m, s).workers[s.w]);
      }
    }
  }

  /** Of the jobs and results workers have taken on, cancellation loses at most one a worker: who loses one is
      gone. */
  lemma LostAtMostOneEach(configured: int, ips: seq<Text>, ports: seq<Port>, steps: seq<Step>)
    requires Possible(Start(configured, ips, ports), steps)
    ensures var q := Exec(Start(configured, ips, ports), steps);
            |q.dropped| + |q.skipped| <= if configured > 0 then configured else 2000
  {
    LossesExit(Start(configured, ips, ports), steps);
    GoneBound(Exec(Start(configured, ips, ports), steps).workers);
  }

  /** Once cancelled, a scan starts no further probe: only those under way end, at most one a worker. */
  lemma {:induction false} CancelledStartsNothing(p: Pool, steps: seq<Step>)
    requires p.cancelled && Possible(p, steps)
    ensures var q := Exec(p, steps);
            && q.cancelled && |q.workers| == |p.workers|
            && |q.probes| + Diallers(q.workers) == |p.probes| + Diallers(p.workers)
            && |q.probes| <= |p.probes| + |p.workers|
  {
    DiallersBound(p.workers);
    if steps != [] {
      hide Diallers;
      var n := |steps| - 1;
      CancelledStartsNothing(p, steps[..n]);
      var m, s := Exec(p, steps[..n]), steps[n];
      if s.Take? || s.RangeEnds? || s.Check? || s.Dial? || s.Send? || s.GiveUp? {
        DiallersUpdate(m.workers, s.w, Apply(m, s).workers[s.w]);
      }
    }
  }

  // ---- closing -----------------------------------------------------------------------------

  /** No send reaches a closed channel and no channel is closed twice; once the pool has finished, each
      channel has been closed exactly once. */
  lemma ClosedOnceAndNeverSentAfter(configured: int, ips: seq<Text>, ports: seq<Port>, steps: seq<Step>, s: Step)
    requires Possible(Start(configured, ips, ports), steps)
    requires Enabled(Exec(Start(configured, ips, ports), steps), s)
    ensures var p := Exec(Start(configured, ips, ports), steps);
            && (s.Feed? || s.FeedStop? || s.FeedClose? ==> p.jobsCloses == 0)
            && (s.Send? || s.Finish? ==> p.resultsCloses == 0)
            && (p.feeder.Finished? ==> p.jobsCloses == 1 && p.resultsCloses == 1)
  {
    RunsKeepInv(configured, ips, ports, steps);
  }

  // ---- nobody gets stuck -------------------------------------------------------------------

  ghost predicate IsProgress(p: Pool, s: Step, alone: bool) {
    Enabled(p, s) && !s.Cancel? && (alone ==> !s.Consume?)
  }

  lemma WorkerCanMove(p: Pool, w: nat)
    requires Protocol(p) && w < |p.workers| && !p.workers[w].Exited?
    requires p.jobs != [] || p.jobsCloses > 0
    ensures exists s :: IsProgress(p, s, p.cancelled)
  {
    var s := match p.workers[w]
      case Idle => if p.jobs != [] then Take(w) else RangeEnds(w)
      case Checking(_) => Check(w)
      case Dialling(_) => Dial(w, false)
      case Offering(_) => if p.cancelled then GiveUp(w) else if |p.results| < p.concurrency then Send(w) else Consume
      case Exited => Consume;
    assert IsProgress(p, s, p.cancelled);
  }

  /** Until the pool has finished some goroutine can move, given a consumer that keeps draining; after
      cancellation it can move even if nobody drains. */
  lemma NobodyIsStuck(configured: int, ips: seq<Text>, ports: seq<Port>, steps: seq<Step>)
    requires Possible(Start(configured, ips, ports), steps)
    requires !Exec(Start(configured, ips, ports), steps).feeder.Finished?
    ensures var p := Exec(Start(configured, ips, ports), steps);
            exists s :: IsProgress(p, s, p.cancelled)
  {
    var p := Exec(Start(configured, ips, ports), steps);
    RunsKeepInv(configured, ips, ports, steps);
    if p.feeder.Feeding? {
      if p.fed == |p.todo| {
        assert IsProgress(p, FeedClose, p.cancelled);
      } else if p.cancelled {
        assert IsProgress(p, FeedStop, p.cancelled);
      } else if |p.jobs| < 2 * p.concurrency {
        assert IsProgress(p, Feed, p.cancelled);
      } else {
        WorkerCanMove(p, 0);
      }
    } else if w :| 0 <= w < |p.workers| && !p.workers[w].Exited? {
      WorkerCanMove(p, w);
    } else {
      assert IsProgress(p, Finish, p.cancelled);
    }
  }

  // ---- every run ends ----------------------------------------------------------------------

  function Effort(w: Worker): nat {
    match w
    case Idle => 1
    case Checking(_) => 5
    case Dialling(_) => 4
    case Offering(_) => 3
    case Exited => 0
  }

  function Efforts(ws: seq<Worker>): nat {
    if ws == [] then 0 else Efforts(ws[..|ws| - 1]) + Effort(ws[|ws| - 1])
  }

  /** What is still to be done, with every step counted at least once. */
  function Remaining(p: Pool): int {
    6 * (|p.todo| - p.fed) + 5 * |p.jobs| + Efforts(p.workers) + |p.results|
    + (if p.feeder.Feeding? then 2 else if p.feeder.Waiting? then 1 else 0)
    + (if p.cancelled then 0 else 1)
  }

  lemma {:induction false} EffortsUpdate(ws: seq<Worker>, i: nat, w: Worker)
    requires i < |ws|
    ensures Efforts(ws[i := w]) + Effort(ws[i]) == Efforts(ws) + Effort(w)
  {
    var n := |ws| - 1;
    if i == n {
      assert ws[i := w][..n] == ws[..n];
    } else {
      assert ws[i := w][..n] == ws[..n][i := w];
      EffortsUpdate(ws[..n], i, w);
    }
  }

  lemma {:induction false} EffortsAtStart(ws: seq<Worker>)
    requires forall i :: 0 <= i < |ws| ==> ws[i].Idle?
    ensures Efforts(ws) == |ws|
  {
    if ws != [] { EffortsAtStart(ws[..|ws| - 1]); }
  }

  lemma EveryStepCounts(p: Pool, s: Step)
    requires Enabled(p, s)
    ensures Remaining(Apply(p, s)) < Remaining(p)
  {
    if s.Take? || s.RangeEnds? || s.Check? || s.Dial? || s.Send? || s.GiveUp? {
      EffortsUpdate(p.workers, s.w, Apply(p, s).workers[s.w]);
    }
  }

  lemma {:induction false} StepsAndRemaining(p: Pool, steps: seq<Step>)
    requires Possible(p, steps)
    ensures |steps| + Remaining(Exec(p, steps)) <= Remaining(p)
  {
    if steps != [] {
      StepsAndRemaining(p, steps[..|steps| - 1]);
      EveryStepCounts(Exec(p, steps[..|steps| - 1]), steps[|steps| - 1]);
    }
  }

  /** No schedule runs longer than six steps a job, one a worker and three more: with someone always able
      to move, every run finishes. */
  lemma EveryRunEnds(configured: int, ips: seq<Text>, ports: seq<Port>, steps: seq<Step>)
    requires Possible(Start(configured, ips, ports), steps)
    ensures |steps| <= 6 * |Pairs(ips, ports)| + Concurrency(configured) + 3
  {
    var p := Start(configured, ips, ports);
    StepsAndRemaining(p, steps);
    RunsKeepInv(configured, ips, ports, steps);
    EffortsAtStart(p.workers);
  }

  // ---- what the consumer gets --------------------------------------------------------------

  /** When the pool has finished and the results are drained: without cancellation every pair was probed
      as often as it is listed and delivered as often as it was found open; with cancellation nothing was
      probed that is not listed, or delivered that was not found open. */
  lemma FinishedPoolDelivers(configured: int, ips: seq<Text>, ports: seq<Port>, steps: seq<Step>, j: Job)
    requires Possible(Start(configured, ips, ports), steps)
    requires var p := Exec(Start(configured, ips, ports), steps); p.feeder.Finished? && p.results == []
    ensures var p := Exec(Start(configured, ips, ports), steps);
            var listed := multiset(Pairs(ips, ports))[j];
            var got := multiset(p.delivered)[j];
            if p.cancelled then Probed(p.probes, j) <= listed && got <= FoundOpen(p.probes, j) <= Probed(p.probes, j)
            else Probed(p.probes, j) == listed && got == FoundOpen(p.probes, j)
  {
    hide Possible, Exec;
    var p := Exec(Start(configured, ips, ports), steps);
    RunsKeepInv(configured, ips, ports, steps);
    assert ConservedAt(p, j);
    NoneHeld(p.workers, j);
    FoundAmongProbed(p.probes, j);
    assert p.todo == p.todo[..p.fed] + p.todo[p.fed..];
    OccursAppend(p.todo[..p.fed], p.todo[p.fed..], j);
    OccursIsMultiset(p.todo, j);
    OccursIsMultiset(p.delivered, j);
    if !p.cancelled { assert p.todo[..p.fed] == p.todo; }
  }

  lemma {:induction false} FoundAmongProbed(ps: seq<Probe>, j: Job)
    ensures FoundOpen(ps, j) <= Probed(ps, j)
  {
    if ps != [] { FoundAmongProbed(ps[..|ps| - 1], j); }
  }

  function Filter(jobs: seq<Job>, open: Job -> bool): seq<Job> {
    if jobs == [] then []
    else Filter(jobs[..|jobs| - 1], open) + (if open(jobs[|jobs| - 1]) then [jobs[|jobs| - 1]] else [])
  }

  lemma {:induction false} FilterCounts(jobs: seq<Job>, open: Job -> bool, j: Job)
    ensures multiset(Filter(jobs, open))[j] == if open(j) then multiset(jobs)[j] else 0
  {
    if jobs != [] {
      FilterCounts(jobs[..|jobs| - 1], open, j);
      assert jobs == jobs[..|jobs| - 1] + [jobs[|jobs| - 1]];
    }
  }

  lemma {:induction false} FoundCounts(ps: seq<Probe>, open: Job -> bool, j: Job)
    requires forall i :: 0 <= i < |ps| ==> (ps[i].open <==> open(ps[i].job))
    ensures FoundOpen(ps, j) == if open(j) then Probed(ps, j) else 0
  {
    if ps != [] { FoundCounts(ps[..|ps| - 1], open, j); }
  }

  /** When probes report the truth, an uncancelled scan delivers exactly the open pairs. */
  lemma UncancelledScanIsExact(configured: int, ips: seq<Text>, ports: seq<Port>, steps: seq<Step>, open: Job -> bool)
    requires Possible(Start(configured, ips, ports), steps)
    requires var p := Exec(Start(configured, ips, ports), steps);
             && p.feeder.Finished? && p.results == [] && !p.cancelled
             && forall i :: 0 <= i < |p.probes| ==> (p.probes[i].open <==> open(p.probes[i].job))
    ensures multiset(Exec(Start(configured, ips, ports), steps).delivered) == multiset(Filter(Pairs(ips, ports), open))
  {
    var p := Exec(Start(configured, ips, ports), steps);
    forall j ensures multiset(p.delivered)[j] == multiset(Filter(Pairs(ips, ports), open))[j] {
      FinishedPoolDelivers(configured, ips, ports, steps, j);
      FilterCounts(Pairs(ips, ports), open, j);
      FoundCounts(p.probes, open, j);
    }
  }

  /** With distinct hosts and distinct ports every pair is listed once. */
  lemma {:induction false} PairsAreDistinct(ips: seq<Text>, ports: seq<Port>, j: Job)
    requires forall a, b :: 0 <= a < b < |ips| ==> ips[a] != ips[b]
    requires forall a, b :: 0 <= a < b < |ports| ==> ports[a] != ports[b]
    ensures multiset(Pairs(ips, ports))[j] == if j.ip in ips && j.port in ports then 1 else 0
  {
    if ips != [] {
      var n := |ips| - 1;
      PairsAreDistinct(ips[..n], ports, j);
      HostPairs(ips[n], ports, |ports|, j);
      var row := seq(|ports|, i requires 0 <= i < |ports| => Job(ips[n], ports[i]));
      assert row[..|ports|] == row;
      assert ports[..|ports|] == ports;
      assert j.ip in ips <==> j.ip in ips[..n] || j.ip == ips[n];
    }
  }

  lemma {:induction false} HostPairs(ip: Text, ports: seq<Port>, k: nat, j: Job)
    requires k <= |ports|
    requires forall a, b :: 0 <= a < b < |ports| ==> ports[a] != ports[b]
    ensures var row := seq(|ports|, i requires 0 <= i < |ports| => Job(ip, ports[i]));
            multiset(row[..k])[j] == if j.ip == ip && j.port in ports[..k] then 1 else 0
  {
    if k > 0 {
      HostPairs(ip, ports, k - 1, j);
      var row := seq(|ports|, i requires 0 <= i < |ports| => Job(ip, ports[i]));
      assert row[..k] == row[..k - 1] + [row[k - 1]];
      assert ports[..k] == ports[..k - 1] + [ports[k - 1]];
    }
  }
}
