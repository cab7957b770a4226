/** A whole scan job: what the worker pool delivers goes through the anomaly engine, then the target
    hosts are flushed, whether the scan was cancelled or not. */
module ScanJob {
  import opened Bytes
  import opened Strings
  import opened Records
  import opened TemporalStore
  import opened Anomaly
  import opened AnomalyRuns
  import opened AnomalyScans
  import opened ScanPool

  const TCP: Text := [116, 99, 112]

  function EndpointOf(j: Job): Endpoint { Endpoint(j.ip, j.port, TCP) }

  /** One open result for each job delivered, in the order of delivery. */
  ghost predicate Reports(delivered: seq<Job>, os: seq<Observation>) {
    |os| == |delivered| && forall i :: 0 <= i < |os| ==> os[i].e == EndpointOf(delivered[i]) && os[i].rec.open
  }

  /** The pool has shut down and its results are drained. */
  predicate Over(p: Pool) { p.feeder.Finished? && p.results == [] }

  function AfterScan(s: State, clock: Clock, os: seq<Observation>, ips: seq<Text>): State {
    Flushed(ProcessedAll(Forgotten(s), os), clock, ips)
  }

  /** A store in order, hosts without a slash, and times that do not go back. */
  ghost predicate Ordinary(s: State, clock: Clock, os: seq<Observation>, ips: seq<Text>) {
    && Good(s.hosts) && Clean(s.hosts) && Monotone(clock)
    && ScanResults(Forgotten(s), os)
    && (forall ip :: ip in ips ==> SLASH !in ip)
    && ClockAhead(ProcessedAll(Forgotten(s), os), clock)
  }

  lemma TcpIsLower()
    ensures IsLower(TCP)
  {
    assert ToLower(TCP) == TCP;
  }

  /** After the job an endpoint of a target host is open exactly when the pool delivered it. */
  lemma OpenIffDelivered(s: State, clock: Clock, delivered: seq<Job>, os: seq<Observation>, ips: seq<Text>)
    requires Ordinary(s, clock, os, ips) && Reports(delivered, os)
    ensures forall e: Endpoint :: e.ip in ips ==>
              (IsOpen(AfterScan(s, clock, os, ips).hosts, e) <==>
                 e.proto == [116, 99, 112] && Job(e.ip, e.port) in delivered)
  {
    hide IsOpen, Flushed, Good, Clean, ScanResults, ClockAhead, ProcessedAll, IsLower, Remembers;
    TcpIsLower();
    ScanLeavesOpenWhatItSaw(s, clock, os, ips);
    forall e: Endpoint ensures SawEndpoint(os, e) <==> e.proto == TCP && Job(e.ip, e.port) in delivered {
      if SawEndpoint(os, e) {
        var i :| 0 <= i < |os| && os[i].e == e;
        assert delivered[i] == Job(e.ip, e.port);
      }
      if e.proto == TCP && Job(e.ip, e.port) in delivered {
        var i :| 0 <= i < |delivered| && delivered[i] == Job(e.ip, e.port);
        assert os[i].e == e;
      }
    }
  }

  /** The store says of every target host exactly what is true of it. */
  ghost predicate Right(hosts: Hosts, ips: seq<Text>, open: Job -> bool) {
    forall e: Endpoint :: e.ip in ips ==> (IsOpen(hosts, e) <==> e.proto == TCP && open(Job(e.ip, e.port)))
  }

  /** More of the job's results were found than lost. */
  ghost predicate GotThrough(p: Pool, j: Job) { FoundOpen(p.probes, j) > Occurs(p.dropped, j) }

  lemma DeliveredIff(configured: int, ips: seq<Text>, ports: seq<Port>, steps: seq<Step>, j: Job)
    requires Possible(Start(configured, ips, ports), steps) && Over(Exec(Start(configured, ips, ports), steps))
    ensures var p := Exec(Start(configured, ips, ports), steps);
            j in p.delivered <==> GotThrough(p, j)
  {
    hide Possible, Exec;
    var p := Exec(Start(configured, ips, ports), steps);
    RunsKeepInv(configured, ips, ports, steps);
    assert ConservedAt(p, j);
    NoneHeld(p.workers, j);
    OccursIsMultiset(p.delivered, j);
  }

  lemma {:induction false} FoundIsProbed(ps: seq<Probe>, j: Job)
    ensures FoundOpen(ps, j) > 0 ==> exists i :: 0 <= i < |ps| && ps[i] == Probe(j, true)
  {
    if ps != [] {
      FoundIsProbed(ps[..|ps| - 1], j);
    }
  }

  /** Cancelled or not: when only open ports answer a probe, the job leaves the truth about its target
      hosts in the store exactly when a result got through for every port that is open there, listed
      or not. Any other open port is closed by the flush. */
  lemma StoreIsRightIff(configured: int, ports: seq<Port>, steps: seq<Step>, open: Job -> bool,
                        s: State, clock: Clock, os: seq<Observation>, ips: seq<Text>)
    requires Possible(Start(configured, ips, ports), steps) && Over(Exec(Start(configured, ips, ports), steps))
    requires var p := Exec(Start(configured, ips, ports), steps);
             && (forall i :: 0 <= i < |p.probes| && p.probes[i].open ==> open(p.probes[i].job))
             && Reports(p.delivered, os)
    requires Ordinary(s, clock, os, ips)
    ensures Right(AfterScan(s, clock, os, ips).hosts, ips, open) <==>
              forall j: Job :: j.ip in ips && open(j) ==> GotThrough(Exec(Start(configured, ips, ports), steps), j)
  {
    hide Possible, Exec, Over, Ordinary, AfterScan, IsOpen, GotThrough;
    var p := Exec(Start(configured, ips, ports), steps);
    var hosts := AfterScan(s, clock, os, ips).hosts;
    OpenIffDelivered(s, clock, p.delivered, os, ips);
    forall j: Job ensures j in p.delivered <==> GotThrough(p, j) { DeliveredIff(configured, ips, ports, steps, j); }
    forall j: Job | j in p.delivered ensures open(j) { ThroughIsOpen(p, j); }
    if Right(hosts, ips, open) {
      forall j: Job | j.ip in ips && open(j) ensures GotThrough(p, j) { assert IsOpen(hosts, EndpointOf(j)); }
    }
  }

  lemma ThroughIsOpen(p: Pool, j: Job)
    requires GotThrough(p, j)
    ensures exists i :: 0 <= i < |p.probes| && p.probes[i] == Probe(j, true)
  {
    FoundIsProbed(p.probes, j);
  }

  lemma {:induction false} PairsMember(ips: seq<Text>, ports: seq<Port>, j: Job)
    ensures j in Pairs(ips, ports) <==> j.ip in ips && j.port in ports
  {
    if ips != [] {
      var n := |ips| - 1;
      PairsMember(ips[..n], ports, j);
      var row := seq(|ports|, i requires 0 <= i < |ports| => Job(ips[n], ports[i]));
      if j.port in ports && j.ip == ips[n] {
        var i :| 0 <= i < |ports| && ports[i] == j.port;
        assert row[i] == j;
      }
      assert j.ip in ips <==> j.ip in ips[..n] || j.ip == ips[n];
    }
  }

  /** A job that is not cancelled, with truthful probes, leaves the truth exactly when no open port of a
      target host is missing from the port list. */
  lemma UncancelledIsRightIff(configured: int, ports: seq<Port>, steps: seq<Step>, open: Job -> bool,
                              s: State, clock: Clock, os: seq<Observation>, ips: seq<Text>)
    requires Possible(Start(configured, ips, ports), steps) && Over(Exec(Start(configured, ips, ports), steps))
    requires var p := Exec(Start(configured, ips, ports), steps);
             && !p.cancelled
             && (forall i :: 0 <= i < |p.probes| ==> (p.probes[i].open <==> open(p.probes[i].job)))
             && Reports(p.delivered, os)
    requires Ordinary(s, clock, os, ips)
    ensures Right(AfterScan(s, clock, os, ips).hosts, ips, open) <==>
              forall j: Job :: j.ip in ips && open(j) ==> j.port in ports
  {
    hide Possible, Exec, Over, Ordinary, AfterScan, Reports, Right;
    var p := Exec(Start(configured, ips, ports), steps);
    StoreIsRightIff(configured, ports, steps, open, s, clock, os, ips);
    forall j: Job | open(j) ensures GotThrough(p, j) <==> j.ip in ips && j.port in ports {
      ListedGetsThrough(configured, ips, ports, steps, open, j);
    }
  }

  lemma ListedGetsThrough(configured: int, ips: seq<Text>, ports: seq<Port>, steps: seq<Step>,
                          open: Job -> bool, j: Job)
    requires Possible(Start(configured, ips, ports), steps) && Over(Exec(Start(configured, ips, ports), steps))
    requires var p := Exec(Start(configured, ips, ports), steps);
             !p.cancelled && forall i :: 0 <= i < |p.probes| ==> (p.probes[i].open <==> open(p.probes[i].job))
    requires open(j)
    ensures GotThrough(Exec(Start(configured, ips, ports), steps), j) <==> j.ip in ips && j.port in ports
  {
    hide Possible, Exec;
    var p := Exec(Start(configured, ips, ports), steps);
    FinishedPoolDelivers(configured, ips, ports, steps, j);
    DeliveredIff(configured, ips, ports, steps, j);
    FoundCounts(p.probes, open, j);
    PairsMember(ips, ports, j);
  }

  /** A scan that is cancelled before anything is handed out. */
  function CancelledRun(): seq<Step> { [Cancel, FeedStop, RangeEnds(0), Finish] }

  lemma CancelledSteps(p: Pool)
    requires p.todo != [] && p.fed == 0 && p.feeder.Feeding? && p.workers == [Idle] && !p.cancelled
    requires p.jobs == [] && p.jobsCloses == 0
    ensures var a := p.(cancelled := true);
            var b := a.(feeder := Waiting, jobsCloses := 1);
            var c := b.(workers := [Exited]);
            && Enabled(p, Cancel) && Apply(p, Cancel) == a
            && Enabled(a, FeedStop) && Apply(a, FeedStop) == b
            && Enabled(b, RangeEnds(0)) && Apply(b, RangeEnds(0)) == c
            && Enabled(c, Finish) && Apply(c, Finish) == c.(feeder := Finished, resultsCloses := p.resultsCloses + 1)
  {
    assert [Idle][0 := Exited] == [Exited];
  }

  lemma StartsIdle(ips: seq<Text>, ports: seq<Port>)
    requires ips != [] && ports != []
    ensures var p := Start(1, ips, ports);
            p.todo != [] && p.fed == 0 && p.workers == [Idle] && p.jobs == [] && p.results == [] && p.delivered == []
  {
    PairsMember(ips, ports, Job(ips[0], ports[0]));
  }

  lemma CancelledRunEnds(ips: seq<Text>, ports: seq<Port>)
    requires ips != [] && ports != []
    ensures var p := Start(1, ips, ports);
            && Possible(p, CancelledRun()) && Over(Exec(p, CancelledRun()))
            && Exec(p, CancelledRun()).delivered == []
  {
    hide Possible, Exec, Enabled, Apply;
    var p := Start(1, ips, ports);
    StartsIdle(ips, ports);
    CancelledSteps(p);
    NothingRun(p);
    var a := p.(cancelled := true);
    var b := a.(feeder := Waiting, jobsCloses := 1);
    OneMore(p, [], p, Cancel);
    OneMore(p, [] + [Cancel], a, FeedStop);
    OneMore(p, [] + [Cancel] + [FeedStop], b, RangeEnds(0));
    OneMore(p, [] + [Cancel] + [FeedStop] + [RangeEnds(0)], b.(workers := [Exited]), Finish);
    assert [] + [Cancel] + [FeedStop] + [RangeEnds(0)] + [Finish] == CancelledRun();
  }

  lemma NothingRun(p: Pool)
    ensures Possible(p, []) && Exec(p, []) == p
  {}

  lemma OneMore(p: Pool, steps: seq<Step>, q: Pool, step: Step)
    requires Possible(p, steps) && Exec(p, steps) == q && Enabled(q, step)
    ensures Possible(p, steps + [step]) && Exec(p, steps + [step]) == Apply(q, step)
  {
    assert (steps + [step])[..|steps|] == steps;
  }

  /** A scan can be cancelled before it delivers anything. The flush then closes every endpoint of the target
      hosts, and the store is right only if none of them has an open port. */
  lemma CancelledAtOnce(ports: seq<Port>, open: Job -> bool, s: State, clock: Clock, ips: seq<Text>)
    requires ips != [] && ports != [] && Ordinary(s, clock, [], ips)
    ensures exists steps :: Possible(Start(1, ips, ports), steps) && Over(Exec(Start(1, ips, ports), steps))
                            && Reports(Exec(Start(1, ips, ports), steps).delivered, [])
    ensures forall e: Endpoint :: e.ip in ips ==> !IsOpen(AfterScan(s, clock, [], ips).hosts, e)
    ensures Right(AfterScan(s, clock, [], ips).hosts, ips, open) <==> forall j: Job :: j.ip in ips ==> !open(j)
  {
    hide Possible, Exec, Over, Ordinary, AfterScan, IsOpen, CancelledRun;
    CancelledRunEnds(ips, ports);
    OpenIffDelivered(s, clock, [], [], ips);
    var hosts := AfterScan(s, clock, [], ips).hosts;
    if Right(hosts, ips, open) {
      forall j: Job | j.ip in ips ensures !open(j) { assert !IsOpen(hosts, EndpointOf(j)); }
    }
  }
}
