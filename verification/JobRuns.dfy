/** Whole runs of the job engine: lookups never miss, channels are closed once and never written
    afterwards, and every subscriber sees an in-order part of what was published. */
module JobRuns {
  import opened JobEngine

  /** Which job a channel follows, how much had been published by then, and whether the job's clean-up
      was still to come. */
  datatype Note = Note(job: JobId, since: nat, early: bool)

  /** The engine with its scan goroutines: launched, past their first lookup, or done; everything each
      job published; and a note for each channel. */
  datatype Run = Run(
    core: Core, used: set<JobId>, launched: set<JobId>, running: set<JobId>, done: set<JobId>,
    published: map<JobId, seq<Item>>, notes: map<ChanId, Note>)

  datatype Step =
    | Start(id: JobId, userId: string, now: int, hosts: nat, ports: nat)
    | Begin(id: JobId)
    | Subscribe(id: JobId, ch: ChanId)
    | Publish(id: JobId, item: Item)
    | CleanUp(id: JobId)
    | Evict(now: int)
    | Receive(ch: ChanId)

  function PublishedBy(r: Run, id: JobId): seq<Item> {
    if id in r.published then r.published[id] else []
  }

  function Fresh(): Run {
    Run(Core(map[], map[], map[], false), {}, {}, {}, {}, map[], map[])
  }

  /** Identifiers are never reused; a goroutine acts only while it runs. */
  predicate Enabled(r: Run, s: Step) {
    match s
    case Start(id, _, _, _, _) => id !in r.used
    case Begin(id) => id in r.launched
    case Subscribe(_, ch) => ch !in r.core.chans
    case Publish(id, _) => id in r.running
    case CleanUp(id) => id in r.running
    case Evict(_) => true
    case Receive(ch) => ch in r.core.chans && r.core.chans[ch].buf != []
  }

  function Apply(r: Run, s: Step): Run
    requires Enabled(r, s)
  {
    match s
    case Start(id, userId, now, hosts, ports) =>
      r.(core := Started(r.core, id, userId, now, hosts, ports), used := r.used + {id}, launched := r.launched + {id})
    case Begin(id) =>
      // runScan looks its job up first and returns when it is missing.
      if id in r.core.jobs then r.(launched := r.launched - {id}, running := r.running + {id})
      else r.(launched := r.launched - {id})
    case Subscribe(id, ch) =>
      r.(core := Subscribed(r.core, id, ch),
         notes := r.notes[ch := Note(id, |PublishedBy(r, id)|, id !in r.done)])
    case Publish(id, item) =>
      r.(core := Published(r.core, id, item), published := r.published[id := PublishedBy(r, id) + [item]])
    case CleanUp(id) =>
      r.(core := CleanedUp(r.core, id), running := r.running - {id}, done := r.done + {id})
    case Evict(now) => r.(core := Evicted(r.core, now))
    case Receive(ch) => r.(core := Received(r.core, ch))
  }

  ghost predicate Possible(steps: seq<Step>)
    decreases |steps|, 0
  {
    steps == [] ||
    (Possible(steps[..|steps| - 1]) && Enabled(Exec(steps[..|steps| - 1]), steps[|steps| - 1]))
  }

  ghost function Exec(steps: seq<Step>): Run
    requires Possible(steps)
    decreases |steps|, 1
  {
    if steps == [] then Fresh() else Apply(Exec(steps[..|steps| - 1]), steps[|steps| - 1])
  }

  // ---- subsequences ------------------------------------------------------------------------

  /** `a` is `b` with some elements left out. */
  ghost predicate IsSubsequence(a: seq<Item>, b: seq<Item>) {
    a == [] ||
    (b != [] &&
     (IsSubsequence(a, b[..|b| - 1]) ||
      (a[|a| - 1] == b[|b| - 1] && IsSubsequence(a[..|a| - 1], b[..|b| - 1]))))
  }

  lemma SubsequenceSnoc(a: seq<Item>, b: seq<Item>, x: Item)
    requires IsSubsequence(a, b)
    ensures IsSubsequence(a, b + [x])
    ensures IsSubsequence(a + [x], b + [x])
  {
    assert (b + [x])[..|b|] == b;
    assert (a + [x])[..|a|] == a;
  }

  // ---- sending to and closing many channels ------------------------------------------------

  function OfferedTo(k: Chan, item: Item): Chan {
    if |k.buf| < CHANNEL_CAPACITY then k.(buf := k.buf + [item]) else k.(dropped := k.dropped + 1)
  }

  ghost predicate Distinct(chs: seq<ChanId>) { forall i, j :: 0 <= i < j < |chs| ==> chs[i] != chs[j] }

  ghost predicate AllOpen(c: Core, chs: seq<ChanId>) {
    forall ch :: ch in chs ==> ch in c.chans && c.chans[ch].closes == 0
  }

  lemma {:induction false} OfferedAllIs(c: Core, chs: seq<ChanId>, item: Item)
    requires Distinct(chs) && AllOpen(c, chs)
    ensures var d := OfferedAll(c, chs, item);
            && d.jobs == c.jobs && d.subscribers == c.subscribers && d.panicked == c.panicked
            && d.chans.Keys == c.chans.Keys
            && (forall ch :: ch in c.chans ==>
                  d.chans[ch] == if ch in chs then OfferedTo(c.chans[ch], item) else c.chans[ch])
  {
    if chs != [] {
      var n := |chs| - 1;
      assert chs == chs[..n] + [chs[n]];
      assert chs[n] in chs;
      OfferedAllIs(c, chs[..n], item);
      assert chs[n] !in chs[..n];
    }
  }

  lemma {:induction false} ClosedAllIs(c: Core, chs: seq<ChanId>)
    requires Distinct(chs) && AllOpen(c, chs)
    ensures var d := ClosedAll(c, chs);
            && d.jobs == c.jobs && d.subscribers == c.subscribers && d.panicked == c.panicked
            && d.chans.Keys == c.chans.Keys
            && (forall ch :: ch in c.chans ==>
                  d.chans[ch] == if ch in chs then c.chans[ch].(closes := 1) else c.chans[ch])
  {
    if chs != [] {
      var n := |chs| - 1;
      assert chs == chs[..n] + [chs[n]];
      assert chs[n] in chs;
      ClosedAllIs(c, chs[..n]);
      assert chs[n] !in chs[..n];
    }
  }

  // ---- invariant ---------------------------------------------------------------------------

  /** A scan that is under way has a job, marked running; every other job is not running; nothing has
      gone wrong. */
  ghost predicate JobsGood(r: Run) {
    && !r.core.panicked
    && r.launched <= r.used && r.running <= r.used && r.done <= r.used
    && r.launched !! r.running && r.launched !! r.done && r.running !! r.done
    && r.core.jobs.Keys <= r.used
    && (forall id :: id in r.launched || id in r.running <==> id in r.core.jobs && r.core.jobs[id].status == Running)
    && (forall id :: id in r.launched ==> PublishedBy(r, id) == [])
    && (forall id :: id in r.core.jobs ==> r.core.jobs[id].results == |PublishedBy(r, id)|)
    && r.published.Keys <= r.running + r.done
  }

  /** What has come through a channel is an in-order part of what its job published since: taken, waiting
      and dropped account for all of it. */
  ghost predicate Lossy(k: Chan, offered: seq<Item>) {
    && |k.buf| <= CHANNEL_CAPACITY
    && IsSubsequence(k.got + k.buf, offered)
    && |k.got| + |k.buf| + k.dropped == |offered|
  }

  ghost predicate ChanGood(r: Run, ch: ChanId)
    requires ch in r.core.chans && ch in r.notes
  {
    var k, n := r.core.chans[ch], r.notes[ch];
    && n.since <= |PublishedBy(r, n.job)|
    && Lossy(k, PublishedBy(r, n.job)[n.since..])
    && (!n.early ==> n.job in r.done)
    && k.closes == (if n.early && n.job in r.done then 1 else 0)
    && (k.closes == 0 ==> ch in SubscribersOf(r.core, n.job))
  }

  ghost predicate SubsGood(r: Run, id: JobId)
    requires r.notes.Keys == r.core.chans.Keys
  {
    var chs := SubscribersOf(r.core, id);
    && Distinct(chs) && AllOpen(r.core, chs)
    && forall ch :: ch in chs ==> r.notes[ch].job == id
  }

  ghost predicate Inv(r: Run) {
    && JobsGood(r)
    && r.notes.Keys == r.core.chans.Keys
    && (forall ch :: ch in r.core.chans ==> ChanGood(r, ch))
    && (forall id :: SubsGood(r, id))
  }

  /** What the fan-out of one result leaves behind. */
  lemma PublishedIs(r: Run, id: JobId, item: Item)
    requires Inv(r) && Enabled(r, Publish(id, item))
    ensures var c, d := r.core, Apply(r, Publish(id, item)).core;
            && id in c.jobs && c.jobs[id].status == Running
            && d.jobs == c.jobs[id := c.jobs[id].(results := c.jobs[id].results + 1)]
            && d.subscribers == c.subscribers && d.panicked == c.panicked && d.chans.Keys == c.chans.Keys
            && (forall ch :: ch in c.chans ==>
                  d.chans[ch] == if ch in SubscribersOf(c, id) then OfferedTo(c.chans[ch], item) else c.chans[ch])
  {
    hide ChanGood;
    assert SubsGood(r, id);
    OfferedAllIs(r.core.(jobs := r.core.jobs[id := r.core.jobs[id].(results := r.core.jobs[id].results + 1)]),
                 SubscribersOf(r.core, id), item);
  }

  /** What the clean-up of one scan leaves behind. */
  lemma CleanedUpIs(r: Run, id: JobId)
    requires Inv(r) && Enabled(r, CleanUp(id))
    ensures var c, d := r.core, Apply(r, CleanUp(id)).core;
            && id in c.jobs && c.jobs[id].status == Running
            && d.jobs == c.jobs[id := c.jobs[id].(status := Completed)]
            && d.subscribers == c.subscribers - {id} && d.panicked == c.panicked && d.chans.Keys == c.chans.Keys
            && (forall ch :: ch in c.chans ==>
                  d.chans[ch] == if ch in SubscribersOf(c, id) then c.chans[ch].(closes := 1) else c.chans[ch])
  {
    hide ChanGood;
    assert SubsGood(r, id);
    ClosedAllIs(r.core.(jobs := r.core.jobs[id := r.core.jobs[id].(status := Completed)]), SubscribersOf(r.core, id));
  }

  lemma JobsKeptByPublish(r: Run, id: JobId, item: Item)
    requires Inv(r) && Enabled(r, Publish(id, item))
    ensures JobsGood(Apply(r, Publish(id, item)))
  {
    hide ChanGood, SubsGood, Published;
    PublishedIs(r, id, item);
  }

  lemma JobsKeptByCleanUp(r: Run, id: JobId)
    requires Inv(r) && Enabled(r, CleanUp(id))
    ensures JobsGood(Apply(r, CleanUp(id)))
  {
    hide ChanGood, SubsGood, CleanedUp;
    CleanedUpIs(r, id);
  }

  lemma JobsKeptOtherwise(r: Run, s: Step)
    requires JobsGood(r) && Enabled(r, s) && !s.Publish? && !s.CleanUp?
    ensures JobsGood(Apply(r, s))
  {
    hide Published, CleanedUp, SubscribersOf;
  }

  lemma JobsKept(r: Run, s: Step)
    requires Inv(r) && Enabled(r, s)
    ensures JobsGood(Apply(r, s))
  {
    hide JobsGood, ChanGood, SubsGood, Apply, Enabled;
    match s {
      case Publish(id, item) => JobsKeptByPublish(r, id, item);
      case CleanUp(id) => JobsKeptByCleanUp(r, id);
      case _ => JobsKeptOtherwise(r, s);
    }
  }

  lemma ChanKeptByScan(r: Run, s: Step, ch: ChanId)
    requires Inv(r) && Enabled(r, s) && ch in r.core.chans && (s.Publish? || s.CleanUp?)
    ensures ch in Apply(r, s).core.chans && ch in Apply(r, s).notes
    ensures ChanGood(Apply(r, s), ch)
  {
    hide Lossy, SubsGood, Published, CleanedUp;
    assert ChanGood(r, ch);
    var k, n := r.core.chans[ch], r.notes[ch];
    SubscriberIff(r, s.id, ch);
    if s.Publish? {
      PublishedIs(r, s.id, s.item);
      if n.job == s.id { OfferedLossy(k, PublishedBy(r, s.id), n.since, s.item); }
    } else {
      CleanedUpIs(r, s.id);
      if n.job == s.id { LossyIgnoresClosing(k, PublishedBy(r, s.id)[n.since..]); }
    }
  }

  /** One channel across one step. */
  lemma ChanKept(r: Run, s: Step, ch: ChanId)
    requires Inv(r) && Enabled(r, s) && ch in r.core.chans
    ensures ch in Apply(r, s).core.chans && ch in Apply(r, s).notes
    ensures ChanGood(Apply(r, s), ch)
  {
    hide Lossy, SubsGood, Published, CleanedUp;
    if s.Publish? || s.CleanUp? {
      ChanKeptByScan(r, s, ch);
    } else {
      assert ChanGood(r, ch);
      if s.Receive? && s.ch == ch {
        TakenLossy(r.core.chans[ch], PublishedBy(r, r.notes[ch].job)[r.notes[ch].since..]);
      }
    }
  }

  /** While a scan runs, its subscribers are exactly the channels that follow it. */
  lemma SubscriberIff(r: Run, id: JobId, ch: ChanId)
    requires Inv(r) && id in r.running && ch in r.core.chans
    ensures ch in SubscribersOf(r.core, id) <==> r.notes[ch].job == id
  {
    hide Lossy;
    assert ChanGood(r, ch) && SubsGood(r, id);
  }

  lemma OfferedLossy(k: Chan, before: seq<Item>, since: nat, item: Item)
    requires since <= |before| && Lossy(k, before[since..])
    ensures Lossy(OfferedTo(k, item), (before + [item])[since..])
  {
    assert (before + [item])[since..] == before[since..] + [item];
    SubsequenceSnoc(k.got + k.buf, before[since..], item);
    assert k.got + (k.buf + [item]) == (k.got + k.buf) + [item];
  }

  lemma LossyIgnoresClosing(k: Chan, offered: seq<Item>)
    requires Lossy(k, offered)
    ensures Lossy(k.(closes := 1), offered)
  {}

  lemma TakenLossy(k: Chan, offered: seq<Item>)
    requires Lossy(k, offered) && k.buf != []
    ensures Lossy(k.(buf := k.buf[1..], got := k.got + [k.buf[0]]), offered)
  {
    assert (k.got + [k.buf[0]]) + k.buf[1..] == k.got + k.buf;
  }

  lemma NewChanGood(r: Run, id: JobId, ch: ChanId)
    requires Inv(r) && Enabled(r, Subscribe(id, ch))
    ensures ChanGood(Apply(r, Subscribe(id, ch)), ch)
  {
    assert PublishedBy(r, id)[|PublishedBy(r, id)|..] == [];
  }

  /** One job's list of subscribers across one step. */
  lemma SubsKept(r: Run, s: Step, x: JobId)
    requires Inv(r) && Enabled(r, s) && Apply(r, s).notes.Keys == Apply(r, s).core.chans.Keys
    ensures SubsGood(Apply(r, s), x)
  {
    hide Lossy, Published, CleanedUp, ChanGood;
    assert SubsGood(r, x);
    if s.Publish? {
      PublishedIs(r, s.id, s.item);
    } else if s.CleanUp? {
      CleanedUpIs(r, s.id);
      assert SubsGood(r, s.id);
    }
  }

  lemma NotesKept(r: Run, s: Step)
    requires Inv(r) && Enabled(r, s)
    ensures var r' := Apply(r, s);
            && r'.notes.Keys == r'.core.chans.Keys
            && r'.core.chans.Keys == r.core.chans.Keys + (if s.Subscribe? then {s.ch} else {})
  {
    hide ChanGood, SubsGood, Published, CleanedUp;
    match s {
      case Publish(id, item) => PublishedIs(r, id, item);
      case CleanUp(id) => CleanedUpIs(r, id);
      case _ =>
    }
  }

  lemma StepKeeps(r: Run, s: Step)
    requires Inv(r) && Enabled(r, s)
    ensures Inv(Apply(r, s))
  {
    hide Apply, Enabled, JobsGood, ChanGood, SubsGood;
    JobsKept(r, s);
    NotesKept(r, s);
    forall ch | ch in Apply(r, s).core.chans ensures ChanGood(Apply(r, s), ch) {
      if ch in r.core.chans { ChanKept(r, s, ch); } else { NewChanGood(r, s.id, s.ch); }
    }
    forall x ensures SubsGood(Apply(r, s), x) { SubsKept(r, s, x); }
  }

  lemma {:induction false} RunsKeepInv(steps: seq<Step>)
    requires Possible(steps)
    ensures Inv(Exec(steps))
  {
    hide Inv, Enabled, Apply;
    if steps == [] {
      FreshInv();
    } else {
      var n := |steps| - 1;
      RunsKeepInv(steps[..n]);
      StepKeeps(Exec(steps[..n]), steps[n]);
    }
  }

  lemma FreshInv()
    ensures Inv(Fresh())
  {}

  // ---- what this means ---------------------------------------------------------------------

  /** A scan that is under way always finds its job, still marked running and with its results counted:
      eviction never takes it; and no send or close ever hits a closed channel. */
  lemma RunningJobsAreKept(steps: seq<Step>, id: JobId)
    requires Possible(steps)
    ensures !Exec(steps).core.panicked
    ensures var r := Exec(steps);
            id in r.launched || id in r.running ==>
              id in r.core.jobs && r.core.jobs[id].status == Running && r.core.jobs[id].results == |PublishedBy(r, id)|
  {
    RunsKeepInv(steps);
  }

  /** A channel subscribed before its job's clean-up is closed exactly once by it; one subscribed later
      never is. */
  lemma ClosedExactlyOnce(steps: seq<Step>, ch: ChanId)
    requires Possible(steps) && ch in Exec(steps).core.chans
    ensures var r := Exec(steps);
            && ch in r.notes
            && r.core.chans[ch].closes == if r.notes[ch].early && r.notes[ch].job in r.done then 1 else 0
  {
    RunsKeepInv(steps);
    assert ChanGood(Exec(steps), ch);
  }

  /** What a subscriber has taken or still has waiting is an in-order subsequence of what was published
      since it subscribed, and taken + waiting + dropped is all of it. */
  lemma SubscribersSeeAnOrderedPart(steps: seq<Step>, ch: ChanId)
    requires Possible(steps) && ch in Exec(steps).core.chans
    ensures var r := Exec(steps);
            && ch in r.notes && r.notes[ch].since <= |PublishedBy(r, r.notes[ch].job)|
            && var offered := PublishedBy(r, r.notes[ch].job)[r.notes[ch].since..];
               var k := r.core.chans[ch];
               && IsSubsequence(k.got + k.buf, offered)
               && |k.got| + |k.buf| + k.dropped == |offered|
               && (k.dropped == 0 ==> k.got + k.buf == offered)
  {
    RunsKeepInv(steps);
    var r := Exec(steps);
    assert ChanGood(r, ch);
    var offered := PublishedBy(r, r.notes[ch].job)[r.notes[ch].since..];
    var k := r.core.chans[ch];
    if k.dropped == 0 { FullSubsequence(k.got + k.buf, offered); }
  }

  /** What is done for one job leaves every other job's status, count and subscribers alone, and what
      their channels hold. */
  lemma ScansDoNotMix(steps: seq<Step>, s: Step, other: JobId)
    requires Possible(steps) && Enabled(Exec(steps), s)
    requires s.Start? || s.Begin? || s.Subscribe? || s.Publish? || s.CleanUp?
    requires s.id != other
    ensures var c, d := Exec(steps).core, Apply(Exec(steps), s).core;
            && (other in d.jobs <==> other in c.jobs)
            && (other in c.jobs ==> d.jobs[other] == c.jobs[other])
            && SubscribersOf(d, other) == SubscribersOf(c, other)
            && (forall ch :: ch in SubscribersOf(c, other) ==>
                  ch in c.chans && ch in d.chans && d.chans[ch] == c.chans[ch])
  {
    hide ChanGood, Published, CleanedUp;
    var r := Exec(steps);
    RunsKeepInv(steps);
    assert SubsGood(r, other);
    match s {
      case Publish(id, item) => PublishedIs(r, id, item); assert SubsGood(r, id);
      case CleanUp(id) => CleanedUpIs(r, id); assert SubsGood(r, id);
      case _ =>
    }
  }

  /** A result published by a scan reaches every channel that follows it, but for those in which a hundred
      results wait: these alone drop it. */
  lemma DroppedExactlyWhenFull(steps: seq<Step>, id: JobId, item: Item, ch: ChanId)
    requires Possible(steps) && Enabled(Exec(steps), Publish(id, item))
    requires ch in Exec(steps).core.chans && ch in Exec(steps).notes && Exec(steps).notes[ch].job == id
    ensures var d := Apply(Exec(steps), Publish(id, item)).core;
            var k := Exec(steps).core.chans[ch];
            && ch in d.chans && |k.buf| <= 100
            && d.chans[ch] == if |k.buf| == 100 then k.(dropped := k.dropped + 1) else k.(buf := k.buf + [item])
  {
    var r := Exec(steps);
    RunsKeepInv(steps);
    assert ChanGood(r, ch);
    SubscriberIff(r, id, ch);
    PublishedIs(r, id, item);
  }

  lemma {:induction false} FullSubsequence(a: seq<Item>, b: seq<Item>)
    requires IsSubsequence(a, b) && |a| == |b|
    ensures a == b
  {
    if a != [] {
      var n := |a| - 1;
      if IsSubsequence(a, b[..n]) { SubsequenceShorter(a, b[..n]); }
      FullSubsequence(a[..n], b[..n]);
      assert a == a[..n] + [a[n]] && b == b[..n] + [b[n]];
    }
  }

  lemma {:induction false} SubsequenceShorter(a: seq<Item>, b: seq<Item>)
    requires IsSubsequence(a, b)
    ensures |a| <= |b|
  {
    if a != [] {
      var n := |b| - 1;
      if IsSubsequence(a, b[..n]) { SubsequenceShorter(a, b[..n]); }
      else { SubsequenceShorter(a[..|a| - 1], b[..n]); }
    }
  }
}
