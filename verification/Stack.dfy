/** Store, anomaly engine and query engine together: what a query lists is what the event stream says. */
module Stack {
  import opened Bytes
  import opened Strings
  import opened Wrappers
  import opened Buckets
  import opened TemporalStore
  import opened Anomaly
  import opened AnomalyRuns
  import opened AnomalyScans
  import IpRange
  import Query

  /** What is scanned is an address, under a protocol without whitespace. */
  ghost predicate CleanRun(nt: Query.Notation, ops: seq<Op>) {
    forall i :: 0 <= i < |ops| && ops[i].Process? ==> NoSpace(ops[i].o.e.proto) && nt.net.ip(ops[i].o.e.ip).Some?
  }

  lemma {:induction false} RunsStayClean(clock: Clock, nt: Query.Notation, ops: seq<Op>)
    requires Monotone(clock) && TimelyRun(Empty(), clock, ops) && CleanRun(nt, ops)
    ensures var s := Run(Empty(), clock, ops);
            Clean(s.hosts) && forall e :: IsOpen(s.hosts, e) ==> nt.net.ip(e.ip).Some?
  {
    hide IsOpen, Processed, Flushed, Clean, Good;
    if ops == [] {
      NothingStored();
    } else {
      var n := |ops| - 1;
      assert forall i :: 0 <= i < n ==> ops[..n][..i] == ops[..i];
      RunsStayClean(clock, nt, ops[..n]);
      EventsReplayToTheStore(clock, ops[..n]);
      var s := Run(Empty(), clock, ops[..n]);
      match ops[n] {
        case Reset =>
        case Process(o) =>
          ProcessedIs(s, o);
          ProcessedOpen(s, o);
          WrittenClean(s.hosts, o.e, o.rec);
        case Flush(ips) => FlushedIs(s, clock, ips);
      }
    }
  }

  lemma NothingStored()
    ensures Clean([]) && forall e :: !IsOpen([], e)
  {
    assert forall ip: Text, k: Key :: Get(HostOf([], ip), k) == None;
  }

  /** The query for everything. */
  function Everything(): Query.Plan { Query.Plan([], [], None, None) }

  /** After any timely run of scans, an unrestricted query lists exactly the endpoints that replaying the
      events leaves open, each with its latest record, and each once. */
  lemma QueryAgreesWithEvents(clock: Clock, nt: Query.Notation, ops: seq<Op>)
    requires Monotone(clock) && TimelyRun(Empty(), clock, ops) && CleanRun(nt, ops)
    ensures IpRange.Countable(nt.net, Everything().target)
    ensures var s := Run(Empty(), clock, ops);
            Query.Resolves(s.hosts, nt, Everything().target, Ok(Query.HostKeys(s.hosts)))
    ensures var s := Run(Empty(), clock, ops);
            var answer := Query.Answer(s.hosts, nt, Ok(Query.HostKeys(s.hosts)), Everything());
            && answer.Ok? && Query.DistinctRows(answer.value)
            && (forall r :: r in answer.value <==> r.e in Replay(s.sent) && Latest(s.hosts, r.e) == Some(r.state))
  {
    var s := Run(Empty(), clock, ops);
    var all := Query.HostKeys(s.hosts);
    var ips := Query.Addresses(nt, all);
    RunsStayClean(clock, nt, ops);
    EventsReplayToTheStore(clock, ops);
    forall i, j | 0 <= i < j < |all| ensures all[i] != all[j] {
      LessAsymmetric(s.hosts[i].key, s.hosts[j].key);
    }
    Query.AddressesMember(nt, all);
    Query.RowsDistinct(s.hosts, ips, Everything());
    forall r ensures r in Query.Rows(s.hosts, ips, Everything()) <==>
                     r.e in Replay(s.sent) && Latest(s.hosts, r.e) == Some(r.state)
    {
      Query.ExecuteReturnsOpenRecent(s.hosts, ips, Everything(), r);
      if IsOpen(s.hosts, r.e) { Query.AllHostsAreSearched(s.hosts, r.e); }
    }
  }
}
