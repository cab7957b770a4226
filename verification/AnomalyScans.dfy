/** One complete scan: after the flush, a scanned host has open exactly what this scan saw. */
module AnomalyScans {
  import opened Bytes
  import opened Strings
  import opened Records
  import opened Buckets
  import opened TemporalStore
  import opened Anomaly
  import opened AnomalyRuns

  // ---- seen keys name endpoints ------------------------------------------------------------

  lemma HostPortShorter(ip: Text, p: Port, s: Text, ip': Text, q: Port, t: Text)
    requires SLASH !in ip' && |ip| < |ip'|
    ensures HostPort(ip, PortKey(p, s)) != HostPort(ip', PortKey(q, t))
  {
    var k := HostPort(ip, PortKey(p, s));
    var d := Decimal(p);
    assert k == ip + [COLON] + (d + [SLASH] + s);
    assert forall i :: 0 <= i < |d| ==> k[|ip| + 1 + i] == d[i];
    assert k[|ip| + 1 + |d|] == SLASH;
    var k' := HostPort(ip', PortKey(q, t));
    var at := |ip| + 1 + |d|;
    if at < |ip'| {
      assert k'[at] == ip'[at];
    } else {
      assert k'[|ip'|] == COLON;
      assert |ip'| < at ==> k[|ip'|] == d[|ip'| - |ip| - 1];
    }
  }

  /** Port 80 over TCP on the host `h` is remembered as h:80/tcp. */
  lemma KeyOfSeenPort80()
    ensures SeenKey(Endpoint([104], 80, [84, 67, 80])) == [104, 58, 56, 48, 47, 116, 99, 112]
  {
    assert ToLower([84, 67, 80]) == [116, 99, 112];
    KeyOfPort80();
  }

  /** The text `ip:port/proto` names one endpoint, because addresses hold no slash. */
  lemma HostPortInjective(ip: Text, p: Port, s: Text, ip': Text, q: Port, t: Text)
    requires SLASH !in ip && SLASH !in ip'
    ensures HostPort(ip, PortKey(p, s)) == HostPort(ip', PortKey(q, t)) <==> ip == ip' && p == q && s == t
  {
    var k := HostPort(ip, PortKey(p, s));
    if k == HostPort(ip', PortKey(q, t)) {
      if |ip| < |ip'| { HostPortShorter(ip, p, s, ip', q, t); }
      if |ip'| < |ip| { HostPortShorter(ip', q, t, ip, p, s); }
      assert ip == k[..|ip|] == ip';
      assert PortKey(p, s) == k[|ip| + 1..] == PortKey(q, t);
      PortKeyInjective(p, s, q, t);
    }
  }

  // ---- flushing one host -------------------------------------------------------------------

  ghost predicate Unseen(s: State, e: Endpoint) {
    HostPort(e.ip, PortKey(e.port, e.proto)) !in s.seen
  }

  ghost predicate Ready(s: State, clock: Clock) {
    Good(s.hosts) && Clean(s.hosts) && ClockAhead(s, clock)
  }

  /** Flushing listed keys of one host closes exactly the open, unseen endpoints they name. */
  lemma {:induction false} ClosedAllIs(s: State, clock: Clock, ip: Text, keys: seq<Key>)
    requires Monotone(clock) && Ready(s, clock)
    requires forall k :: k in keys ==> CleanKey(k)
    ensures var t := ClosedAll(s, clock, ip, keys);
            && Ready(t, clock) && t.seen == s.seen
            && (forall e: Endpoint :: IsOpen(t.hosts, e) <==>
                  IsOpen(s.hosts, e) && !(e.ip == ip && PortKey(e.port, e.proto) in keys && Unseen(s, e)))
            && (forall e: Endpoint :: e.ip != ip ==> History(t.hosts, e) == History(s.hosts, e))
    decreases |keys|
  {
    hide Good, ClockAhead, IsOpen, History, PortKey, HostPort;
    if keys != [] {
      var t := Closed(s, clock, ip, keys[0]);
      ClosedIs(s, clock, ip, keys[0]);
      ClosedAllIs(t, clock, ip, keys[1..]);
      assert forall k :: k in keys <==> k == keys[0] || k in keys[1..];
    }
  }

  lemma ClosedIs(s: State, clock: Clock, ip: Text, key: Key)
    requires Monotone(clock) && Ready(s, clock) && CleanKey(key)
    ensures var t := Closed(s, clock, ip, key);
            && Ready(t, clock) && t.seen == s.seen
            && (forall e: Endpoint :: IsOpen(t.hosts, e) <==>
                  IsOpen(s.hosts, e) && !(e.ip == ip && PortKey(e.port, e.proto) == key && Unseen(s, e)))
            && (forall e: Endpoint :: e.ip != ip ==> History(t.hosts, e) == History(s.hosts, e))
  {
    hide Good, IsOpen, History, PortKey, HostPort, Written, ScanPortKey;
    var d := Decoded(ip, key);
    DecodedKey(ip, key);
    forall e: Endpoint | e.ip == ip && PortKey(e.port, e.proto) == key ensures e == d {
      PortKeyInjective(e.port, e.proto, d.port, d.proto);
    }
    if HostPort(ip, key) !in s.seen && IsOpen(s.hosts, d) {
      ClosedEndpointIs(s, clock, d);
      WrittenClean(s.hosts, d, ClosedRecord(clock(s.ticks)));
    }
  }

  /** Flushing a list of hosts closes exactly the open endpoints of those hosts that were not seen,
      and leaves every other host's history alone. */
  lemma {:induction false} FlushedIs(s: State, clock: Clock, ips: seq<Text>)
    requires Monotone(clock) && Ready(s, clock)
    ensures var t := Flushed(s, clock, ips);
            && Ready(t, clock) && t.seen == s.seen
            && (forall e: Endpoint :: IsOpen(t.hosts, e) <==> IsOpen(s.hosts, e) && !(e.ip in ips && Unseen(s, e)))
            && (forall e: Endpoint :: e.ip !in ips ==> History(t.hosts, e) == History(s.hosts, e))
    decreases |ips|
  {
    if ips != [] {
      var keys := OpenKeys(HostOf(s.hosts, ips[0]));
      OpenKeysOfHost(s.hosts, ips[0]);
      ClosedAllIs(s, clock, ips[0], keys);
      FlushedIs(ClosedAll(s, clock, ips[0], keys), clock, ips[1..]);
      FlushedHeadTail(s, clock, ips);
    }
  }

  lemma OpenKeysOfHost(hosts: Hosts, ip: Text)
    requires Good(hosts) && Clean(hosts)
    ensures var keys := OpenKeys(HostOf(hosts, ip));
            && (forall k :: k in keys ==> CleanKey(k))
            && (forall e: Endpoint :: e.ip == ip ==> (PortKey(e.port, e.proto) in keys <==> IsOpen(hosts, e)))
  {
    var host := HostOf(hosts, ip);
    GoodHistory(hosts, Endpoint(ip, 0, []));
    var keys := OpenKeys(host);
    forall k | k in keys ensures CleanKey(k) {
      OpenKeysAre(host, k);
    }
    forall e: Endpoint | e.ip == ip ensures PortKey(e.port, e.proto) in keys <==> IsOpen(hosts, e) {
      OpenKeysAre(host, PortKey(e.port, e.proto));
    }
  }

  /** Puts the effect on the first host and on the rest together. */
  lemma FlushedHeadTail(s: State, clock: Clock, ips: seq<Text>)
    requires ips != [] && Good(s.hosts) && Clean(s.hosts)
    requires var m := ClosedAll(s, clock, ips[0], OpenKeys(HostOf(s.hosts, ips[0])));
             var t := Flushed(m, clock, ips[1..]);
             && m.seen == s.seen
             && (forall e: Endpoint :: IsOpen(m.hosts, e) <==>
                   IsOpen(s.hosts, e) &&
                   !(e.ip == ips[0] && PortKey(e.port, e.proto) in OpenKeys(HostOf(s.hosts, ips[0])) && Unseen(s, e)))
             && (forall e: Endpoint :: e.ip != ips[0] ==> History(m.hosts, e) == History(s.hosts, e))
             && (forall e: Endpoint :: IsOpen(t.hosts, e) <==>
                   IsOpen(m.hosts, e) && !(e.ip in ips[1..] && Unseen(m, e)))
             && (forall e: Endpoint :: e.ip !in ips[1..] ==> History(t.hosts, e) == History(m.hosts, e))
    ensures var t := Flushed(s, clock, ips);
            && (forall e: Endpoint :: IsOpen(t.hosts, e) <==> IsOpen(s.hosts, e) && !(e.ip in ips && Unseen(s, e)))
            && (forall e: Endpoint :: e.ip !in ips ==> History(t.hosts, e) == History(s.hosts, e))
  {
    hide Good, Clean, IsOpen, History, PortKey, OpenKeys, HostOf, HostPort, ClosedAll;
    OpenKeysOfHost(s.hosts, ips[0]);
    assert forall ip :: ip in ips <==> ip == ips[0] || ip in ips[1..];
  }

  // ---- a second flush ----------------------------------------------------------------------

  lemma {:induction false} NothingToClose(s: State, clock: Clock, ip: Text, keys: seq<Key>)
    requires forall i :: 0 <= i < |keys| ==> HostPort(ip, keys[i]) in s.seen
    ensures ClosedAll(s, clock, ip, keys) == s
    decreases |keys|
  {
    if keys != [] {
      assert HostPort(ip, keys[0]) in s.seen;
      NothingToClose(s, clock, ip, keys[1..]);
    }
  }

  /** Once the open endpoints of the listed hosts have all been seen, flushing does nothing at all. */
  lemma {:induction false} FlushedSettled(s: State, clock: Clock, ips: seq<Text>)
    requires Good(s.hosts) && Clean(s.hosts)
    requires forall e: Endpoint :: e.ip in ips && IsOpen(s.hosts, e) ==> !Unseen(s, e)
    ensures Flushed(s, clock, ips) == s
    decreases |ips|
  {
    if ips != [] {
      var ip := ips[0];
      var keys := OpenKeys(HostOf(s.hosts, ip));
      OpenKeysOfHost(s.hosts, ip);
      forall i | 0 <= i < |keys| ensures HostPort(ip, keys[i]) in s.seen {
        DecodedKey(ip, keys[i]);
        assert IsOpen(s.hosts, Decoded(ip, keys[i]));
      }
      NothingToClose(s, clock, ip, keys);
      FlushedSettled(s, clock, ips[1..]);
    }
  }

  lemma {:induction false} FlushedAppend(s: State, clock: Clock, ips: seq<Text>, more: seq<Text>)
    ensures Flushed(s, clock, ips + more) == Flushed(Flushed(s, clock, ips), clock, more)
    decreases |ips|
  {
    if ips == [] {
      assert ips + more == more;
    } else {
      assert (ips + more)[1..] == ips[1..] + more;
      FlushedAppend(ClosedAll(s, clock, ips[0], OpenKeys(HostOf(s.hosts, ips[0]))), clock, ips[1..], more);
    }
  }

  /** Flushing hosts again, in the same call or in a second one, changes nothing and sends nothing. */
  lemma FlushAgain(s: State, clock: Clock, ips: seq<Text>, again: seq<Text>)
    requires Monotone(clock) && Ready(s, clock)
    requires forall ip :: ip in again ==> ip in ips
    ensures Flushed(Flushed(s, clock, ips), clock, again) == Flushed(s, clock, ips)
    ensures Flushed(s, clock, ips + again) == Flushed(s, clock, ips)
  {
    FlushedIs(s, clock, ips);
    FlushedSettled(Flushed(s, clock, ips), clock, again);
    FlushedAppend(s, clock, ips, again);
  }

  // ---- a whole scan ------------------------------------------------------------------------

  function ProcessedAll(s: State, os: seq<Observation>): State {
    if os == [] then s
    else Processed(ProcessedAll(s, os[..|os| - 1]), os[|os| - 1])
  }

  /** The results of one scan: open, never older than what is stored, protocols without whitespace,
      addresses without a slash. */
  ghost predicate ScanResults(s: State, os: seq<Observation>) {
    forall i :: 0 <= i < |os| ==>
      && os[i].rec.open && OnTime(ProcessedAll(s, os[..i]).hosts, os[i])
      && NoSpace(os[i].e.proto) && SLASH !in os[i].e.ip
  }

  /** The scan saw the endpoint, as far as the seen key tells: the protocol is remembered in lower case. */
  ghost predicate Remembers(os: seq<Observation>, e: Endpoint) {
    exists i :: 0 <= i < |os| && os[i].e.(proto := ToLower(os[i].e.proto)) == e
  }

  ghost predicate SawEndpoint(os: seq<Observation>, e: Endpoint) {
    exists i :: 0 <= i < |os| && os[i].e == e
  }

  lemma NothingSeen(s: State)
    requires s.seen == {}
    ensures forall e :: !SawEndpoint([], e) && !Remembers([], e) && Unseen(s, e)
  {}

  lemma SawOneMore(os: seq<Observation>)
    requires os != []
    ensures var o := os[|os| - 1].e;
            && (forall e :: SawEndpoint(os, e) <==> SawEndpoint(os[..|os| - 1], e) || e == o)
            && (forall e :: Remembers(os, e) <==> Remembers(os[..|os| - 1], e) || e == o.(proto := ToLower(o.proto)))
  {
    hide ToLower;
    var n := |os| - 1;
    assert forall i :: 0 <= i < n ==> os[..n][i] == os[i];
    forall e
      ensures SawEndpoint(os, e) <==> SawEndpoint(os[..n], e) || e == os[n].e
      ensures Remembers(os, e) <==> Remembers(os[..n], e) || e == os[n].e.(proto := ToLower(os[n].e.proto))
    {
      if SawEndpoint(os[..n], e) {
        var i :| 0 <= i < n && os[..n][i].e == e;
        assert os[i].e == e;
      }
      if i :| 0 <= i < |os| && os[i].e == e && i < n { assert os[..n][i].e == e; }
      if Remembers(os[..n], e) {
        var i :| 0 <= i < n && os[..n][i].e.(proto := ToLower(os[..n][i].e.proto)) == e;
        assert os[i].e.(proto := ToLower(os[i].e.proto)) == e;
      }
      if i :| 0 <= i < |os| && os[i].e.(proto := ToLower(os[i].e.proto)) == e && i < n {
        assert os[..n][i].e.(proto := ToLower(os[..n][i].e.proto)) == e;
      }
    }
  }

  lemma {:induction false} ProcessedAllIs(s: State, os: seq<Observation>)
    requires Good(s.hosts) && Clean(s.hosts) && s.seen == {} && ScanResults(s, os)
    ensures var t := ProcessedAll(s, os);
            && Good(t.hosts) && Clean(t.hosts)
            && (forall e: Endpoint :: IsOpen(t.hosts, e) <==> IsOpen(s.hosts, e) || SawEndpoint(os, e))
            && (forall e: Endpoint :: SLASH !in e.ip ==> (Unseen(t, e) <==> !Remembers(os, e)))
  {
    hide Good, Clean, IsOpen, Written, OnTime, Processed, HostPort, PortKey, Diff, SawEndpoint, Remembers, ToLower;
    if os == [] {
      NothingSeen(s);
    } else {
      var n := |os| - 1;
      var o := os[n];
      assert forall i :: 0 <= i < n ==> os[..n][..i] == os[..i];
      ProcessedAllIs(s, os[..n]);
      var m := ProcessedAll(s, os[..n]);
      ProcessedIs(m, o);
      ProcessedOpen(m, o);
      WrittenClean(m.hosts, o.e, o.rec);
      SawOneMore(os);
      var lower := o.e.(proto := ToLower(o.e.proto));
      forall e: Endpoint | SLASH !in e.ip ensures Unseen(ProcessedAll(s, os), e) <==> Unseen(m, e) && e != lower {
        HostPortInjective(e.ip, e.port, e.proto, lower.ip, lower.port, lower.proto);
      }
    }
  }

  lemma LowerRemembered(os: seq<Observation>)
    requires forall i :: 0 <= i < |os| ==> IsLower(os[i].e.proto)
    ensures forall e :: Remembers(os, e) <==> SawEndpoint(os, e)
  {
    hide ToLower;
    forall e ensures Remembers(os, e) <==> SawEndpoint(os, e) {
      if i :| 0 <= i < |os| && os[i].e.(proto := ToLower(os[i].e.proto)) == e {
        assert IsLower(os[i].e.proto);
        assert os[i].e == e;
      }
      if i :| 0 <= i < |os| && os[i].e == e {
        assert IsLower(os[i].e.proto);
        assert os[i].e.(proto := ToLower(os[i].e.proto)) == e;
      }
    }
  }

  /** After a reset, any open results and a flush of `ips`: an endpoint of a flushed host is open exactly
      when it was before, or this scan saw it, and the scan remembers it under its lower-cased protocol. With
      protocols in lower case that is: exactly when this scan saw it. The flush leaves every other host as it
      was; and flushing any of those hosts once more would do nothing. */
  lemma ScanLeavesOpenWhatItSaw(s: State, clock: Clock, os: seq<Observation>, ips: seq<Text>)
    requires Good(s.hosts) && Clean(s.hosts) && Monotone(clock)
    requires ScanResults(Forgotten(s), os)
    requires forall ip :: ip in ips ==> SLASH !in ip
    requires ClockAhead(ProcessedAll(Forgotten(s), os), clock)
    ensures var m := ProcessedAll(Forgotten(s), os);
            var t := Flushed(m, clock, ips);
            && (forall e: Endpoint :: e.ip in ips ==>
                  (IsOpen(t.hosts, e) <==> (IsOpen(s.hosts, e) || SawEndpoint(os, e)) && Remembers(os, e)))
            && (forall e: Endpoint :: e.ip !in ips ==> History(t.hosts, e) == History(m.hosts, e))
            && (forall e: Endpoint :: e.ip !in ips ==>
                  (IsOpen(t.hosts, e) <==> IsOpen(s.hosts, e) || SawEndpoint(os, e)))
            && Flushed(t, clock, ips) == t
    ensures (forall i :: 0 <= i < |os| ==> IsLower(os[i].e.proto)) ==>
              var t := Flushed(ProcessedAll(Forgotten(s), os), clock, ips);
              forall e: Endpoint :: e.ip in ips ==> (IsOpen(t.hosts, e) <==> SawEndpoint(os, e))
  {
    hide Good, Clean, IsOpen, History, Flushed, ClockAhead, SawEndpoint, Remembers, IsLower, ScanResults;
    var m := ProcessedAll(Forgotten(s), os);
    ProcessedAllIs(Forgotten(s), os);
    FlushedIs(m, clock, ips);
    FlushAgain(m, clock, ips, ips);
    if forall i :: 0 <= i < |os| ==> IsLower(os[i].e.proto) { LowerRemembered(os); }
  }
}
