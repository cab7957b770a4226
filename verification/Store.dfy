/** The temporal store: nested buckets hosts/{ip}/{port/proto}/{timestamp} and a bucket of alerts. */
module TemporalStore {
  import opened Bytes
  import opened Strings
  import opened Wrappers
  import opened Records
  import opened Buckets

  type PortBucket = Bucket<StateRecord>
  type HostBucket = Bucket<PortBucket>
  type Hosts = Bucket<HostBucket>

  // ---- timestamp keys ----------------------------------------------------------------------

  /** `uint64(t.UnixNano())` */
  function Unsigned(t: Time): (u: nat)
    ensures u < TWO64
  {
    if t < 0 then t + TWO64 else t
  }

  /** Eight bytes, most significant first. */
  function TsKey(t: Time): Key { Encode(Unsigned(t), 8) }

  lemma TsKeyValue(t: Time)
    ensures Value(TsKey(t)) == Unsigned(t)
  {
    assert Pow256(8) == TWO64 by {
      assert Pow256(4) == 0x1_0000_0000;
      assert Pow256(8) == 0x1_0000_0000 * Pow256(4);
    }
    EncodeValue(Unsigned(t), 8);
  }

  /** Key order is the order of the unsigned times, so it is time order exactly for two times on
      the same side of 1970; distinct times always get distinct keys. */
  lemma TsKeyOrder(s: Time, t: Time)
    ensures Less(TsKey(s), TsKey(t)) <==> Unsigned(s) < Unsigned(t)
    ensures (Less(TsKey(s), TsKey(t)) <==> s < t) <==> (s == t || (s < 0 <==> t < 0))
    ensures TsKey(s) == TsKey(t) <==> s == t
  {
    TsKeyValue(s);
    TsKeyValue(t);
    LessIsNumeric(TsKey(s), TsKey(t));
  }

  // ---- the nested buckets ------------------------------------------------------------------

  function HostOf(hosts: Hosts, ip: Text): HostBucket {
    match Get(hosts, ip) case Some(h) => h case None => []
  }

  function PortsOf(host: HostBucket, key: Key): PortBucket {
    match Get(host, key) case Some(p) => p case None => []
  }

  /** The stored history of one endpoint, oldest first; empty when nothing is stored. */
  function History(hosts: Hosts, e: Endpoint): PortBucket {
    PortsOf(HostOf(hosts, e.ip), PortKey(e.port, e.proto))
  }

  function Written(hosts: Hosts, e: Endpoint, rec: StateRecord): Hosts {
    var key := PortKey(e.port, e.proto);
    var ports := Put(PortsOf(HostOf(hosts, e.ip), key), TsKey(rec.timestamp), rec);
    Put(hosts, e.ip, Put(HostOf(hosts, e.ip), key, ports))
  }

  function Latest(hosts: Hosts, e: Endpoint): Option<StateRecord> { Last(History(hosts, e)) }

  predicate IsOpen(hosts: Hosts, e: Endpoint) {
    Latest(hosts, e).Some? && Latest(hosts, e).value.open
  }

  /** The keys of `host`, in order, whose latest record is open. */
  function OpenKeys(host: HostBucket): seq<Key> {
    if host == [] then []
    else
      var rest := OpenKeys(host[1..]);
      var last := Last(host[0].value);
      if last.Some? && last.value.open then [host[0].key] + rest else rest
  }

  // ---- invariant ---------------------------------------------------------------------------

  ghost predicate GoodPorts(p: PortBucket) {
    p != [] && Stamped(p, RecordTime)
  }

  ghost predicate IsPortKey(key: Key) {
    exists port: Port, proto: Text :: key == PortKey(port, proto)
  }

  ghost predicate GoodHost(h: HostBucket) {
    Sorted(h) && h != [] && forall i :: 0 <= i < |h| ==> GoodPorts(h[i].value) && IsPortKey(h[i].key)
  }

  /** Every level is ordered, no bucket is empty, and every record is filed under its own time. */
  ghost predicate Good(hosts: Hosts) {
    Sorted(hosts) && forall i :: 0 <= i < |hosts| ==> GoodHost(hosts[i].value)
  }

  lemma GoodHistory(hosts: Hosts, e: Endpoint)
    requires Good(hosts)
    ensures HostOf(hosts, e.ip) == [] || GoodHost(HostOf(hosts, e.ip))
    ensures History(hosts, e) == [] || GoodPorts(History(hosts, e))
  {}

  lemma WrittenGood(hosts: Hosts, e: Endpoint, rec: StateRecord)
    requires Good(hosts)
    ensures Good(Written(hosts, e, rec))
  {
    GoodHistory(hosts, e);
    var key := PortKey(e.port, e.proto);
    var p := History(hosts, e);
    var p' := Put(p, TsKey(rec.timestamp), rec);
    PutSorted(p, TsKey(rec.timestamp), rec);
    assert GoodPorts(p') by {
      forall j | 0 <= j < |p'| ensures p'[j].key == TsKey(p'[j].value.timestamp) {
        PutEntries(p, TsKey(rec.timestamp), rec, j);
      }
    }
    var h := HostOf(hosts, e.ip);
    var h' := Put(h, key, p');
    PutSorted(h, key, p');
    assert GoodHost(h') by {
      forall j | 0 <= j < |h'| ensures GoodPorts(h'[j].value) && IsPortKey(h'[j].key) {
        PutEntries(h, key, p', j);
      }
    }
    PutSorted(hosts, e.ip, h');
    var w := Written(hosts, e, rec);
    forall j | 0 <= j < |w| ensures GoodHost(w[j].value) {
      PutEntries(hosts, e.ip, h', j);
    }
  }

  /** A write changes the history of its own endpoint and of no other. */
  lemma HistoryWritten(hosts: Hosts, e: Endpoint, rec: StateRecord, f: Endpoint)
    requires Good(hosts)
    ensures History(Written(hosts, e, rec), f) ==
            if f == e then Put(History(hosts, e), TsKey(rec.timestamp), rec) else History(hosts, f)
  {
    GoodHistory(hosts, e);
    var key := PortKey(e.port, e.proto);
    var p' := Put(History(hosts, e), TsKey(rec.timestamp), rec);
    var h' := Put(HostOf(hosts, e.ip), key, p');
    GetPut(hosts, e.ip, h', f.ip);
    GetPut(HostOf(hosts, e.ip), key, p', PortKey(f.port, f.proto));
    if f.ip == e.ip && PortKey(f.port, f.proto) == key {
      PortKeyInjective(e.port, e.proto, f.port, f.proto);
    }
  }

  /** The latest record after a write: the one just written, unless a later one is stored. */
  lemma LatestWritten(hosts: Hosts, e: Endpoint, rec: StateRecord, f: Endpoint)
    requires Good(hosts)
    ensures Latest(Written(hosts, e, rec), f) ==
            if f != e then Latest(hosts, f)
            else if Latest(hosts, e).Some?
                    && Unsigned(rec.timestamp) < Unsigned(Latest(hosts, e).value.timestamp)
            then Latest(hosts, e)
            else Some(rec)
  {
    HistoryWritten(hosts, e, rec, f);
    GoodHistory(hosts, e);
    var p := History(hosts, e);
    LastPut(p, TsKey(rec.timestamp), rec);
    if p != [] {
      TsKeyOrder(rec.timestamp, p[|p| - 1].value.timestamp);
    }
  }

  // ---- sequences of writes -----------------------------------------------------------------

  datatype Write = Write(e: Endpoint, rec: StateRecord)

  function WriteAll(hosts: Hosts, ws: seq<Write>): Hosts {
    if ws == [] then hosts
    else Written(WriteAll(hosts, ws[..|ws| - 1]), ws[|ws| - 1].e, ws[|ws| - 1].rec)
  }

  /** `ws[i]` is the last write to `e` at the greatest time written to `e`. */
  ghost predicate Newest(ws: seq<Write>, e: Endpoint, i: nat) {
    i < |ws| && ws[i].e == e &&
    forall j :: 0 <= j < |ws| && ws[j].e == e ==>
                  && Unsigned(ws[j].rec.timestamp) <= Unsigned(ws[i].rec.timestamp)
                  && (ws[j].rec.timestamp == ws[i].rec.timestamp ==> j <= i)
  }

  lemma {:induction false} WriteAllGood(ws: seq<Write>)
    ensures Good(WriteAll([], ws))
  {
    if ws != [] {
      WriteAllGood(ws[..|ws| - 1]);
      WrittenGood(WriteAll([], ws[..|ws| - 1]), ws[|ws| - 1].e, ws[|ws| - 1].rec);
    }
  }

  /** `latest` is what the writes `ws` leave as the newest record of `e`. */
  ghost predicate NewestIs(ws: seq<Write>, e: Endpoint, latest: Option<StateRecord>) {
    match latest
    case None => forall i :: 0 <= i < |ws| ==> ws[i].e != e
    case Some(rec) => exists i: nat :: Newest(ws, e, i) && ws[i].rec == rec
  }

  /** How one write changes the latest record of `e`. */
  function Superseded(latest: Option<StateRecord>, w: Write, e: Endpoint): Option<StateRecord> {
    if w.e != e || (latest.Some? && Unsigned(w.rec.timestamp) < Unsigned(latest.value.timestamp))
    then latest else Some(w.rec)
  }

  lemma NewestStep(ws: seq<Write>, e: Endpoint, latest: Option<StateRecord>)
    requires ws != [] && NewestIs(ws[..|ws| - 1], e, latest)
    ensures NewestIs(ws, e, Superseded(latest, ws[|ws| - 1], e))
  {
    var n := |ws| - 1;
    var w := ws[n];
    assert forall j :: 0 <= j < n ==> ws[j] == ws[..n][j];
    if latest.Some? {
      var i: nat :| Newest(ws[..n], e, i) && ws[..n][i].rec == latest.value;
      assert Newest(ws, e, i) || Newest(ws, e, n);
    } else if w.e == e {
      assert Newest(ws, e, n);
    }
  }

  /** After any writes into an empty store, the latest record of an endpoint is its newest write,
      and there is none exactly when the endpoint was never written. */
  lemma {:induction false} LatestIsNewestWrite(ws: seq<Write>, e: Endpoint)
    ensures NewestIs(ws, e, Latest(WriteAll([], ws), e))
  {
    if ws != [] {
      var n := |ws| - 1;
      var before := WriteAll([], ws[..n]);
      WriteAllGood(ws[..n]);
      LatestIsNewestWrite(ws[..n], e);
      LatestWritten(before, ws[n].e, ws[n].rec, e);
      NewestStep(ws, e, Latest(before, e));
    }
  }

  // ---- open ports --------------------------------------------------------------------------

  lemma {:induction false} OpenKeysAre(host: HostBucket, k: Key)
    requires Sorted(host)
    ensures k in OpenKeys(host) <==>
            Get(host, k).Some? && Last(Get(host, k).value).Some? && Last(Get(host, k).value).value.open
  {
    if host != [] {
      assert forall j :: 0 <= j < |host[1..]| ==> host[1..][j] == host[j + 1];
      OpenKeysAre(host[1..], k);
      if host[0].key == k {
        GetIsMember(host, k, 0);
      } else if Get(host[1..], k).Some? {
        GetIsMember(host, k, Seek(host[1..], k) + 1);
      } else if Get(host, k).Some? {
        var i := Seek(host, k);
        GetIsMember(host[1..], k, i - 1);
      }
    }
  }

  lemma {:induction false} OpenKeysDistinct(host: HostBucket)
    requires Sorted(host)
    ensures forall i, j :: 0 <= i < j < |OpenKeys(host)| ==> Less(OpenKeys(host)[i], OpenKeys(host)[j])
    ensures forall k :: k in OpenKeys(host) ==> HasKey(host, k)
  {
    if host != [] {
      var rest := host[1..];
      assert forall j :: 0 <= j < |rest| ==> rest[j] == host[j + 1];
      OpenKeysDistinct(rest);
      assert HasKey(host, host[0].key);
      forall k | k in OpenKeys(rest) ensures HasKey(host, k) && Less(host[0].key, k) {
        var i :| 0 <= i < |rest| && rest[i].key == k;
        assert host[i + 1].key == k;
      }
    }
  }

  /** Every protocol in the store is free of whitespace. */
  ghost predicate CleanKey(key: Key) {
    exists port: Port, proto: Text :: NoSpace(proto) && key == PortKey(port, proto)
  }

  ghost predicate Clean(hosts: Hosts) {
    forall ip: Text, k: Key :: Get(HostOf(hosts, ip), k).Some? ==> CleanKey(k)
  }

  function Decoded(ip: Text, key: Key): Endpoint {
    Endpoint(ip, ScanPortKey(key).0, ScanPortKey(key).1)
  }

  lemma WrittenClean(hosts: Hosts, e: Endpoint, rec: StateRecord)
    requires Good(hosts) && Clean(hosts) && NoSpace(e.proto)
    ensures Clean(Written(hosts, e, rec))
  {
    GoodHistory(hosts, e);
    var key := PortKey(e.port, e.proto);
    var p' := Put(History(hosts, e), TsKey(rec.timestamp), rec);
    var h' := Put(HostOf(hosts, e.ip), key, p');
    assert CleanKey(key);
    forall ip: Text, k: Key | Get(HostOf(Written(hosts, e, rec), ip), k).Some? ensures CleanKey(k) {
      GetPut(hosts, e.ip, h', ip);
      GetPut(HostOf(hosts, e.ip), key, p', k);
      if ip == e.ip {
        assert HostOf(Written(hosts, e, rec), ip) == h';
        assert k == key || Get(HostOf(hosts, ip), k).Some?;
      } else {
        assert Get(HostOf(hosts, ip), k).Some?;
      }
    }
  }

  /** Decoding a clean key names the endpoint whose history is filed under it. */
  lemma DecodedKey(ip: Text, k: Key)
    requires CleanKey(k)
    ensures PortKey(Decoded(ip, k).port, Decoded(ip, k).proto) == k
    ensures NoSpace(Decoded(ip, k).proto)
  {
    var port: Port, proto: Text :| NoSpace(proto) && k == PortKey(port, proto);
    ScanPortKeyRoundTrip(port, proto);
  }

  /** Decoding the listed keys gives exactly the endpoints of the host whose latest record is open,
      each once. */
  lemma OpenKeysDecode(hosts: Hosts, ip: Text, keys: seq<Key>, port: Port, proto: Text)
    requires Good(hosts) && Clean(hosts) && keys == OpenKeys(HostOf(hosts, ip))
    ensures forall i, j :: 0 <= i < j < |keys| ==> Decoded(ip, keys[i]) != Decoded(ip, keys[j])
    ensures (exists i :: 0 <= i < |keys| && Decoded(ip, keys[i]) == Endpoint(ip, port, proto))
            <==> IsOpen(hosts, Endpoint(ip, port, proto))
  {
    var e := Endpoint(ip, port, proto);
    GoodHistory(hosts, e);
    var host := HostOf(hosts, ip);
    OpenKeysDistinct(host);
    forall i | 0 <= i < |keys|
      ensures CleanKey(keys[i]) && PortKey(Decoded(ip, keys[i]).port, Decoded(ip, keys[i]).proto) == keys[i]
    {
      OpenKeysAre(host, keys[i]);
      DecodedKey(ip, keys[i]);
    }
    forall i, j | 0 <= i < j < |keys| ensures Decoded(ip, keys[i]) != Decoded(ip, keys[j]) {
      LessAsymmetric(keys[i], keys[j]);
    }
    OpenKeysAre(host, PortKey(port, proto));
    if IsOpen(hosts, e) {
      assert PortKey(port, proto) in keys;
      var i :| 0 <= i < |keys| && keys[i] == PortKey(port, proto);
      PortKeyInjective(port, proto, Decoded(ip, keys[i]).port, Decoded(ip, keys[i]).proto);
    }
  }

  // ---- time windows ------------------------------------------------------------------------

  function Bound(t: Option<Time>): Option<Key> {
    if t.Some? then Some(TsKey(t.value)) else None
  }

  /** The time is within the bounds; an absent bound is Go's zero time and does not restrict. */
  predicate InTime(t: Time, since: Option<Time>, until: Option<Time>) {
    && (since.Some? ==> Unsigned(since.value) <= Unsigned(t))
    && (until.Some? ==> Unsigned(t) <= Unsigned(until.value))
  }

  /** What `ReadHistory` returns. */
  function HistoryBetween(hosts: Hosts, e: Endpoint, since: Option<Time>, until: Option<Time>): seq<StateRecord> {
    Values(Window(History(hosts, e), Bound(since), Bound(until)))
  }

  lemma InTimeIsInRange(t: Time, since: Option<Time>, until: Option<Time>)
    ensures InRange(TsKey(t), Bound(since), Bound(until)) <==> InTime(t, since, until)
  {
    if since.Some? { TsKeyOrder(t, since.value); }
    if until.Some? { TsKeyOrder(until.value, t); }
  }

  /** Every entry is filed under the key of its own time. */
  ghost predicate Stamped<V(!new)>(b: Bucket<V>, stamp: V -> Time) {
    Sorted(b) && forall i :: 0 <= i < |b| ==> b[i].key == TsKey(stamp(b[i].value))
  }

  ghost predicate Ascending<V(!new)>(vs: seq<V>, stamp: V -> Time) {
    forall i, j :: 0 <= i < j < |vs| ==> Unsigned(stamp(vs[i])) < Unsigned(stamp(vs[j]))
  }

  /** A window read by time holds exactly the entries whose time lies within the bounds, in strictly
      ascending time. */
  lemma WindowIsTimeRange<V(!new)>(b: Bucket<V>, stamp: V -> Time, since: Option<Time>, until: Option<Time>)
    requires Stamped(b, stamp)
    ensures var vs := Values(Window(b, Bound(since), Bound(until)));
            && (forall v :: v in vs <==> v in Values(b) && InTime(stamp(v), since, until))
            && Ascending(vs, stamp)
  {
    var w := Window(b, Bound(since), Bound(until));
    var vs := Values(w);
    WindowSorted(b, Bound(since), Bound(until));
    forall i | 0 <= i < |w|
      ensures w[i] in b && w[i].key == TsKey(stamp(w[i].value))
      ensures InTime(stamp(w[i].value), since, until)
    {
      WindowMember(b, Bound(since), Bound(until), w[i]);
      InTimeIsInRange(stamp(w[i].value), since, until);
    }
    forall i, j | 0 <= i < j < |vs| ensures Unsigned(stamp(vs[i])) < Unsigned(stamp(vs[j])) {
      TsKeyOrder(stamp(vs[i]), stamp(vs[j]));
      assert Less(w[i].key, w[j].key);
    }
    forall i | 0 <= i < |b| && InTime(stamp(b[i].value), since, until) ensures b[i].value in vs {
      InTimeIsInRange(stamp(b[i].value), since, until);
      WindowMember(b, Bound(since), Bound(until), b[i]);
      var j :| 0 <= j < |w| && w[j] == b[i];
      assert vs[j] == b[i].value;
    }
    forall v | v in vs ensures InTime(stamp(v), since, until) && v in Values(b) {
      var i :| 0 <= i < |vs| && vs[i] == v;
      var j :| 0 <= j < |b| && b[j] == w[i];
      assert Values(b)[j] == v;
    }
  }

  /** Reading up to `mid` and then from the next nanosecond is reading the whole window. */
  lemma TimeWindowsJoin<V(!new)>(b: Bucket<V>, stamp: V -> Time, since: Option<Time>, mid: Time, next: Time,
                          until: Option<Time>)
    requires Stamped(b, stamp)
    requires Unsigned(next) == Unsigned(mid) + 1
    requires since.Some? ==> Unsigned(since.value) <= Unsigned(next)
    requires until.Some? ==> Unsigned(mid) <= Unsigned(until.value)
    ensures Values(Window(b, Bound(since), Bound(until))) ==
            Values(Window(b, Bound(since), Bound(Some(mid)))) + Values(Window(b, Bound(Some(next)), Bound(until)))
  {
    forall i | 0 <= i < |b| ensures Less(TsKey(mid), b[i].key) <==> !Less(b[i].key, TsKey(next)) {
      TsKeyOrder(mid, stamp(b[i].value));
      TsKeyOrder(stamp(b[i].value), next);
    }
    if since.Some? { TsKeyOrder(next, since.value); }
    if until.Some? { TsKeyOrder(until.value, mid); }
    WindowsJoin(b, Bound(since), TsKey(mid), TsKey(next), Bound(until));
  }

  function RecordTime(rec: StateRecord): Time { rec.timestamp }

  function EventTime(ev: Event): Time { ev.timestamp }

  // ---- alerts ------------------------------------------------------------------------------

  type Alerts = Bucket<Event>

  ghost predicate GoodAlerts(b: Alerts) {
    Stamped(b, EventTime)
  }

  function AlertWritten(alerts: Alerts, ev: Event): Alerts { Put(alerts, TsKey(ev.timestamp), ev) }

  function AlertsWritten(alerts: Alerts, evs: seq<Event>): Alerts {
    if evs == [] then alerts
    else AlertWritten(AlertsWritten(alerts, evs[..|evs| - 1]), evs[|evs| - 1])
  }

  lemma AlertWrittenGood(alerts: Alerts, ev: Event)
    requires GoodAlerts(alerts)
    ensures GoodAlerts(AlertWritten(alerts, ev))
  {
    var k := TsKey(ev.timestamp);
    PutSorted(alerts, k, ev);
    forall j | 0 <= j < |Put(alerts, k, ev)|
      ensures Put(alerts, k, ev)[j].key == TsKey(Put(alerts, k, ev)[j].value.timestamp)
    {
      PutEntries(alerts, k, ev, j);
    }
  }

  /** `evs[i]` is the last event of its time. */
  predicate LastOfItsTime(evs: seq<Event>, i: int)
    requires 0 <= i < |evs|
  {
    forall j :: i < j < |evs| ==> evs[j].timestamp != evs[i].timestamp
  }

  /** `ev` is among the events, as the last of its time. */
  ghost predicate KeptOf(evs: seq<Event>, ev: Event) {
    exists i :: 0 <= i < |evs| && evs[i] == ev && LastOfItsTime(evs, i)
  }

  /** The last event is kept, and of the others those of other times. */
  lemma KeptStep(evs: seq<Event>, ev: Event)
    requires evs != []
    ensures var n := |evs| - 1;
            KeptOf(evs, ev) <==> ev == evs[n] || (KeptOf(evs[..n], ev) && ev.timestamp != evs[n].timestamp)
  {
    var n := |evs| - 1;
    assert forall j :: 0 <= j < n ==> evs[..n][j] == evs[j];
    if ev == evs[n] { assert LastOfItsTime(evs, n); }
    if KeptOf(evs[..n], ev) && ev.timestamp != evs[n].timestamp {
      var i :| 0 <= i < n && evs[..n][i] == ev && LastOfItsTime(evs[..n], i);
      assert LastOfItsTime(evs, i);
    }
    if KeptOf(evs, ev) && ev != evs[n] {
      var i :| 0 <= i < |evs| && evs[i] == ev && LastOfItsTime(evs, i);
      assert evs[..n][i] == ev && LastOfItsTime(evs[..n], i);
    }
  }

  /** Alerts are keyed by time alone: what is kept of a sequence of events is, for each time, the
      last event of that time. */
  lemma {:induction false} AlertsKeepLastOfEachTime(evs: seq<Event>, ev: Event)
    ensures GoodAlerts(AlertsWritten([], evs))
    ensures Get(AlertsWritten([], evs), TsKey(ev.timestamp)) == Some(ev) <==>
            exists i :: 0 <= i < |evs| && evs[i] == ev && LastOfItsTime(evs, i)
  {
    assert KeptOf(evs, ev) <==> exists i :: 0 <= i < |evs| && evs[i] == ev && LastOfItsTime(evs, i);
    if evs == [] {
      assert Get<Event>([], TsKey(ev.timestamp)) == None;
    } else {
      hide Put, Get, TsKey, KeptOf, LastOfItsTime;
      var n := |evs| - 1;
      var before := AlertsWritten([], evs[..n]);
      AlertsKeepLastOfEachTime(evs[..n], ev);
      KeptMeans(evs[..n], ev);
      AlertWrittenGood(before, evs[n]);
      GetPut(before, TsKey(evs[n].timestamp), evs[n], TsKey(ev.timestamp));
      TsKeyOrder(evs[n].timestamp, ev.timestamp);
      KeptStep(evs, ev);
    }
  }

  lemma KeptMeans(evs: seq<Event>, ev: Event)
    ensures KeptOf(evs, ev) <==> exists i :: 0 <= i < |evs| && evs[i] == ev && LastOfItsTime(evs, i)
  {}

  // ---- the store itself --------------------------------------------------------------------

  class Store {
    var hosts: Hosts
    var alerts: Alerts
    var meta: Bucket<Text>

    ghost predicate Valid()
      reads this
    {
      Good(hosts) && GoodAlerts(alerts) && Sorted(meta)
    }

    constructor Open()
      ensures Valid() && hosts == [] && alerts == [] && meta == []
    {
      hosts, alerts, meta := [], [], [];
    }

    /** One nested put; every other endpoint keeps its history. */
    method WriteState(e: Endpoint, rec: StateRecord)
      requires Valid()
      modifies this`hosts
      ensures Valid() && hosts == Written(old(hosts), e, rec)
      ensures History(hosts, e) == Put(History(old(hosts), e), TsKey(rec.timestamp), rec)
      ensures forall f :: f != e ==> History(hosts, f) == History(old(hosts), f)
    {
      WrittenGood(hosts, e, rec);
      forall f ensures History(Written(hosts, e, rec), f) ==
                       if f == e then Put(History(hosts, e), TsKey(rec.timestamp), rec) else History(hosts, f)
      {
        HistoryWritten(hosts, e, rec, f);
      }
      var key := PortKey(e.port, e.proto);
      var hostBucket := HostOf(hosts, e.ip);
      var portBucket := PortsOf(hostBucket, key);
      portBucket := Put(portBucket, TsKey(rec.timestamp), rec);
      hosts := Put(hosts, e.ip, Put(hostBucket, key, portBucket));
    }

    /** The record with the greatest stored time, if any. */
    method ReadLatestState(e: Endpoint) returns (rec: Option<StateRecord>)
      requires Valid()
      ensures rec == Latest(hosts, e)
      ensures rec.None? <==> History(hosts, e) == []
      ensures rec.Some? ==> forall r :: r in Values(History(hosts, e)) ==>
                                          Unsigned(r.timestamp) <= Unsigned(rec.value.timestamp)
    {
      var h := History(hosts, e);
      GoodHistory(hosts, e);
      rec := Last(h);
      forall r | r in Values(h) ensures Unsigned(r.timestamp) <= Unsigned(rec.value.timestamp) {
        var i :| 0 <= i < |h| && h[i].value == r;
        TsKeyOrder(h[i].value.timestamp, rec.value.timestamp);
      }
    }

    /** The bucket's `ForEach`, keeping the keys whose last record is open. */
    method ReadOpenPorts(ip: Text) returns (ports: seq<Key>)
      requires Valid()
      ensures ports == OpenKeys(HostOf(hosts, ip))
    {
      var host := HostOf(hosts, ip);
      ports := [];
      for i := 0 to |host|
        invariant ports + OpenKeys(host[i..]) == OpenKeys(host)
      {
        assert host[i..][1..] == host[i + 1..];
        var last := Last(host[i].value);
        if last.Some? && last.value.open {
          ports := ports + [host[i].key];
        }
      }
    }

    method ListHosts() returns (ips: seq<Text>)
      requires Valid()
      ensures |ips| == |hosts| && forall i :: 0 <= i < |hosts| ==> ips[i] == hosts[i].key
    {
      ips := seq(|hosts|, i requires 0 <= i < |hosts| reads this => hosts[i].key);
    }

    method ReadHistory(e: Endpoint, since: Option<Time>, until: Option<Time>) returns (recs: seq<StateRecord>)
      requires Valid()
      ensures recs == HistoryBetween(hosts, e, since, until)
      ensures Ascending(recs, RecordTime)
      ensures forall rec :: rec in recs <==>
                              rec in Values(History(hosts, e)) && InTime(rec.timestamp, since, until)
    {
      GoodHistory(hosts, e);
      WindowIsTimeRange(History(hosts, e), RecordTime, since, until);
      recs := Scan(History(hosts, e), Bound(since), Bound(until));
    }

    method WriteAlert(ev: Event)
      requires Valid()
      modifies this`alerts
      ensures Valid() && alerts == AlertWritten(old(alerts), ev)
      ensures forall t: Time :: Get(alerts, TsKey(t)) ==
                                if t == ev.timestamp then Some(ev) else Get(old(alerts), TsKey(t))
    {
      AlertWrittenGood(alerts, ev);
      forall t: Time ensures Get(AlertWritten(alerts, ev), TsKey(t)) ==
                             if t == ev.timestamp then Some(ev) else Get(alerts, TsKey(t))
      {
        GetPut(alerts, TsKey(ev.timestamp), ev, TsKey(t));
        TsKeyOrder(t, ev.timestamp);
      }
      alerts := Put(alerts, TsKey(ev.timestamp), ev);
    }

    method ReadAlerts(since: Option<Time>, until: Option<Time>) returns (evs: seq<Event>)
      requires Valid()
      ensures evs == Values(Window(alerts, Bound(since), Bound(until)))
      ensures Ascending(evs, EventTime)
      ensures forall ev :: ev in evs <==> ev in Values(alerts) && InTime(ev.timestamp, since, until)
    {
      WindowIsTimeRange(alerts, EventTime, since, until);
      evs := Scan(alerts, Bound(since), Bound(until));
    }

    method SetMeta(key: Text, value: Text)
      requires Valid()
      modifies this`meta
      ensures Valid() && forall k :: Get(meta, k) == if k == key then Some(value) else Get(old(meta), k)
    {
      PutSorted(meta, key, value);
      forall k ensures Get(Put(meta, key, value), k) == if k == key then Some(value) else Get(meta, k) {
        GetPut(meta, key, value, k);
      }
      meta := Put(meta, key, value);
    }
  }
}
