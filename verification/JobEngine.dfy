/** The job engine: background scans, their status, and the lossy fan-out of results to subscribers. */
module JobEngine {
  import opened Bytes
  import opened Strings
  import opened Wrappers
  import IpRange

  type JobId = string
  type ChanId = nat
  type Item = string

  const CHANNEL_CAPACITY: nat := 100
  const KEEP: int := 3_600_000_000_000

  datatype Status = Running | Completed

  /** `hosts` and `ports` are how many of each the scan is to cover. */
  datatype Job = Job(userId: string, startedAt: int, status: Status, results: nat, hosts: nat, ports: nat)

  /** A subscriber's channel: what waits in it, how often it was closed, what its reader has taken and
      how many results were dropped because it was full. */
  datatype Chan = Chan(buf: seq<Item>, closes: nat, got: seq<Item>, dropped: nat)

  /** The engine's maps and channels. `panicked` records a lookup of a missing job, a send on a closed
      channel or a second close: each would stop the program. */
  datatype Core = Core(
    jobs: map<JobId, Job>, subscribers: map<JobId, seq<ChanId>>, chans: map<ChanId, Chan>, panicked: bool)

  function SubscribersOf(c: Core, id: JobId): seq<ChanId> {
    if id in c.subscribers then c.subscribers[id] else []
  }

  // ---- the operations ----------------------------------------------------------------------

  function Started(c: Core, id: JobId, userId: string, now: int, hosts: nat, ports: nat): Core {
    c.(jobs := c.jobs[id := Job(userId, now, Running, 0, hosts, ports)])
  }

  function Subscribed(c: Core, id: JobId, ch: ChanId): Core {
    c.(chans := c.chans[ch := Chan([], 0, [], 0)], subscribers := c.subscribers[id := SubscribersOf(c, id) + [ch]])
  }

  /** A send that does not wait: dropped when the channel is full. */
  function Offered(c: Core, ch: ChanId, item: Item): Core {
    if ch !in c.chans || c.chans[ch].closes > 0 then c.(panicked := true)
    else
      var k := c.chans[ch];
      if |k.buf| < CHANNEL_CAPACITY then c.(chans := c.chans[ch := k.(buf := k.buf + [item])])
      else c.(chans := c.chans[ch := k.(dropped := k.dropped + 1)])
  }

  function OfferedAll(c: Core, chs: seq<ChanId>, item: Item): Core {
    if chs == [] then c else Offered(OfferedAll(c, chs[..|chs| - 1], item), chs[|chs| - 1], item)
  }

  function Published(c: Core, id: JobId, item: Item): Core {
    if id !in c.jobs then c.(panicked := true)
    else
      var counted := c.(jobs := c.jobs[id := c.jobs[id].(results := c.jobs[id].results + 1)]);
      OfferedAll(counted, SubscribersOf(c, id), item)
  }

  function Closed(c: Core, ch: ChanId): Core {
    if ch !in c.chans || c.chans[ch].closes > 0 then c.(panicked := true)
    else c.(chans := c.chans[ch := c.chans[ch].(closes := c.chans[ch].closes + 1)])
  }

  function ClosedAll(c: Core, chs: seq<ChanId>): Core {
    if chs == [] then c else Closed(ClosedAll(c, chs[..|chs| - 1]), chs[|chs| - 1])
  }

  function CleanedUp(c: Core, id: JobId): Core {
    if id !in c.jobs then c.(panicked := true)
    else
      var d := ClosedAll(c.(jobs := c.jobs[id := c.jobs[id].(status := Completed)]), SubscribersOf(c, id));
      d.(subscribers := d.subscribers - {id})
  }

  predicate Stale(job: Job, now: int) { job.status != Running && job.startedAt < now - KEEP }

  function Evicted(c: Core, now: int): Core {
    c.(jobs := map id | id in c.jobs && !Stale(c.jobs[id], now) :: c.jobs[id])
  }

  function Received(c: Core, ch: ChanId): Core
    requires ch in c.chans && c.chans[ch].buf != []
  {
    var k := c.chans[ch];
    c.(chans := c.chans[ch := k.(buf := k.buf[1..], got := k.got + [k.buf[0]])])
  }

  // ---- the engine object -------------------------------------------------------------------

  class Engine {
    var jobs: map<JobId, Job>
    var subscribers: map<JobId, seq<ChanId>>
    var chans: map<ChanId, Chan>
    var panicked: bool
    var nextChan: ChanId

    function Current(): Core
      reads this
    {
      Core(jobs, subscribers, chans, panicked)
    }

    ghost predicate Valid()
      reads this
    {
      forall ch :: ch in chans ==> ch < nextChan
    }

    constructor ()
      ensures Valid() && Current() == Core(map[], map[], map[], false)
    {
      jobs, subscribers, chans, panicked, nextChan := map[], map[], map[], false, 0;
    }

    /** Starts a job for every address and port the request stands for; a request whose target or ports
        cannot be parsed leaves the engine as it was. */
    method StartScan(net: IpRange.Net, target: Text, portSpec: Text, id: JobId, userId: string, now: int)
      returns (job: Result<Job>, ghost ips: Result<seq<IpRange.Address>>)
      requires Valid() && IpRange.Sound(net) && IpRange.Countable(net, target)
      modifies this`jobs
      ensures Valid() && IpRange.TargetMeans(net, target, ips)
      ensures job.Ok? <==> ips.Ok? && IpRange.PortsIn(portSpec).Ok?
      ensures job.Err? ==> Current() == old(Current())
      ensures job.Ok? ==>
                var hosts, ports := |ips.value|, |IpRange.PortsIn(portSpec).value|;
                && job.value == Job(userId, now, Running, 0, hosts, ports)
                && hosts > 0 && ports > 0
                && Current() == Started(old(Current()), id, userId, now, hosts, ports)
                && jobs == old(jobs)[id := job.value]
    {
      var addresses := IpRange.Parse(net, target);
      ips := addresses;
      if addresses.Err? { return Err, ips; }
      var list := IpRange.ParsePorts(portSpec);
      if list.Err? { return Err, ips; }
      IpRange.DedupIs(IpRange.AllPorts(Split(portSpec, COMMA)).value);
      job := Ok(Job(userId, now, Running, 0, |addresses.value|, |list.value|));
      jobs := jobs[id := job.value];
    }

    method Subscribe(id: JobId) returns (ch: ChanId)
      requires Valid()
      modifies this`subscribers, this`chans, this`nextChan
      ensures Valid() && ch !in old(chans) && Current() == Subscribed(old(Current()), id, ch)
      ensures subscribers ==
              old(subscribers)[id := (if id in old(subscribers) then old(subscribers)[id] else []) + [ch]]
    {
      ch := nextChan;
      nextChan := nextChan + 1;
      chans := chans[ch := Chan([], 0, [], 0)];
      subscribers := subscribers[id := SubscribersOf(Current(), id) + [ch]];
    }

    /** A send with a default case. */
    method Offer(ch: ChanId, item: Item)
      requires Valid()
      modifies this`chans, this`panicked
      ensures Valid() && Current() == Offered(old(Current()), ch, item)
    {
      if ch !in chans || chans[ch].closes > 0 {
        panicked := true;
      } else if |chans[ch].buf| < CHANNEL_CAPACITY {
        chans := chans[ch := chans[ch].(buf := chans[ch].buf + [item])];
      } else {
        chans := chans[ch := chans[ch].(dropped := chans[ch].dropped + 1)];
      }
    }

    method Publish(id: JobId, item: Item)
      requires Valid()
      modifies this`jobs, this`chans, this`panicked
      ensures Valid() && Current() == Published(old(Current()), id, item)
    {
      if id !in jobs { panicked := true; return; }
      jobs := jobs[id := jobs[id].(results := jobs[id].results + 1)];
      ghost var start := Current();
      var subs := SubscribersOf(Current(), id);
      for i := 0 to |subs|
        invariant Valid()
        invariant Current() == OfferedAll(start, subs[..i], item)
      {
        assert subs[..i + 1][..i] == subs[..i];
        Offer(subs[i], item);
      }
      assert subs[..|subs|] == subs;
    }

    method Close(ch: ChanId)
      requires Valid()
      modifies this`chans, this`panicked
      ensures Valid() && Current() == Closed(old(Current()), ch)
    {
      if ch !in chans || chans[ch].closes > 0 {
        panicked := true;
      } else {
        chans := chans[ch := chans[ch].(closes := chans[ch].closes + 1)];
      }
    }

    /** The deferred end of a scan. */
    method CleanUp(id: JobId)
      requires Valid()
      modifies this`jobs, this`chans, this`panicked, this`subscribers
      ensures Valid() && Current() == CleanedUp(old(Current()), id)
      ensures id in old(jobs) ==> jobs == old(jobs)[id := old(jobs)[id].(status := Completed)]
      ensures id in old(jobs) ==> subscribers == old(subscribers) - {id}
    {
      if id !in jobs { panicked := true; return; }
      if jobs[id].status == Running {
        jobs := jobs[id := jobs[id].(status := Completed)];
      }
      assert jobs == old(jobs)[id := old(jobs)[id].(status := Completed)];
      ghost var start := Current();
      var subs := SubscribersOf(Current(), id);
      for i := 0 to |subs|
        invariant Valid()
        invariant Current() == ClosedAll(start, subs[..i])
        invariant subscribers == old(subscribers) && jobs == start.jobs
      {
        assert subs[..i + 1][..i] == subs[..i];
        Close(subs[i]);
      }
      assert subs[..|subs|] == subs;
      subscribers := subscribers - {id};
    }

    method EvictOld(now: int)
      requires Valid()
      modifies this`jobs
      ensures Valid() && Current() == Evicted(old(Current()), now)
      ensures forall id :: id in jobs <==>
                id in old(jobs) &&
                (old(jobs)[id].status == Running || old(jobs)[id].startedAt >= now - 60 * 60 * 1_000_000_000)
      ensures forall id :: id in jobs ==> jobs[id] == old(jobs)[id]
    {
      var was := jobs;
      var rest := was.Keys;
      while rest != {}
        invariant rest <= was.Keys
        invariant jobs == map id | id in was && (id in rest || !Stale(was[id], now)) :: was[id]
      {
        var id :| id in rest;
        if Stale(was[id], now) { jobs := jobs - {id}; }
        rest := rest - {id};
      }
    }

    method Receive(ch: ChanId) returns (item: Item)
      requires Valid() && ch in chans && chans[ch].buf != []
      modifies this`chans
      ensures Valid() && item == old(chans)[ch].buf[0] && Current() == Received(old(Current()), ch)
    {
      item := chans[ch].buf[0];
      chans := chans[ch := chans[ch].(buf := chans[ch].buf[1..], got := chans[ch].got + [item])];
    }
  }
}
