/** The free plan's rolling scan quota, with requests in flight at the same time. */
module Quota {
  import opened Wrappers

  const WINDOW: int := 30 * 24 * 3_600_000_000_000
  const LIMIT: nat := 5

  /** How many of the times satisfy `p`. */
  function Count(times: seq<int>, p: int -> bool): nat {
    if times == [] then 0
    else Count(times[..|times| - 1], p) + (if p(times[|times| - 1]) then 1 else 0)
  }

  /** The positions at which one of them stands. */
  ghost function At(times: seq<int>, p: int -> bool): set<int> { set i | 0 <= i < |times| && p(times[i]) }

  lemma AtLast(times: seq<int>, p: int -> bool)
    requires times != []
    ensures var n := |times| - 1;
            && n !in At(times[..n], p)
            && At(times, p) == At(times[..n], p) + if p(times[n]) then {n} else {}
  {
    var n := |times| - 1;
    assert forall i :: 0 <= i < n ==> times[..n][i] == times[i];
  }

  lemma {:induction false} CountIsSize(times: seq<int>, p: int -> bool)
    ensures Count(times, p) == |At(times, p)|
  {
    if times != [] {
      hide At;
      CountIsSize(times[..|times| - 1], p);
      AtLast(times, p);
    }
  }

  function Since(t: int): int -> bool { x => x >= t }

  function UpTo(t: int): int -> bool { x => x <= t }

  function Within(from: int, to: int): int -> bool { x => from <= x <= to }

  /** `SELECT COUNT(*) ... created_at >= since` */
  function CountSince(logs: seq<int>, since: int): nat { Count(logs, Since(since)) }

  // ---- the middleware ----------------------------------------------------------------------

  datatype Plan = Free | Pro

  datatype Decision = PassThrough | Unauthorized | Expired | CheckFailed | LimitReached | Proceed

  /** One user's rows. `usage` holds the times of the logged scans. */
  class UsageDb {
    var usage: seq<int>
    var plan: Plan
    var periodEnd: Option<int>

    constructor ()
      ensures usage == [] && plan == Free && periodEnd == None
    {
      usage, plan, periodEnd := [], Free, None;
    }

    /** Everything before the handler runs. Nothing is gated without a database, and only starting a scan
        with one; a subscription that lapsed, or cannot be read, is downgraded and refused; a free plan is
        refused once five scans fall in the last thirty days, or when they cannot be counted. */
    method Admit(connected: bool, isPost: bool, userId: string, claimed: Option<Plan>, readable: bool, now: int)
      returns (d: Decision)
      modifies this`plan, this`periodEnd
      ensures usage == old(usage)
      ensures d.PassThrough? <==> !connected || !isPost
      ensures d.Unauthorized? <==> connected && isPost && userId == ""
      ensures var gated := connected && isPost && userId != "";
              && (d.Expired? <==> gated && claimed == Some(Pro)
                                  && (!readable || old(periodEnd).None? || old(periodEnd).value < now))
              && (d.CheckFailed? <==> gated && claimed != Some(Pro) && !readable)
              && (d.LimitReached? <==> gated && claimed != Some(Pro) && readable
                                       && Count(usage, t => t >= now - 30 * 24 * 60 * 60 * 1_000_000_000) >= 5)
      ensures d.Expired? ==> plan == Free && periodEnd == None
      ensures !d.Expired? ==> plan == old(plan) && periodEnd == old(periodEnd)
    {
      if !connected || !isPost { return PassThrough; }
      if userId == "" { return Unauthorized; }
      if claimed == Some(Pro) {
        if !readable || periodEnd.None? || now > periodEnd.value {
          plan, periodEnd := Free, None;
          return Expired;
        }
        return Proceed;
      }
      if !readable { return CheckFailed; }
      if CountSince(usage, now - WINDOW) >= LIMIT { return LimitReached; }
      return Proceed;
    }

    /** After the handler: a success is logged at the time it finished, and the handler's error, which
        keeps the log as it is, is passed on. */
    method Complete(failed: bool, status: int, now: int) returns (error: bool)
      modifies this`usage
      ensures error == failed
      ensures usage == if !failed && status < 400 then old(usage) + [now] else old(usage)
    {
      if !failed && status < 400 { usage := usage + [now]; }
      return failed;
    }

    /** The second writer: the job engine's usage logger, at the end of a scan. */
    method LogScan(now: int)
      modifies this`usage
      ensures usage == old(usage) + [now]
    {
      usage := usage + [now];
    }
  }

  // ---- one free user's requests ------------------------------------------------------------

  /** The clock, the rows of successful requests and those of scans that ended, and for each request past
      its check when that check was made. */
  datatype Run = Run(now: int, starts: seq<int>, ends: seq<int>, inFlight: seq<int>)

  /** `Ended` is the row of a scan that has run to its end, where the usage logger is wired to write one; a
      scan may end before the request that started it is logged. */
  datatype Step = Wait(dt: nat) | Admitted | Finish(i: nat, success: bool) | Ended

  function RowsSince(r: Run, since: int): nat { CountSince(r.starts, since) + CountSince(r.ends, since) }

  predicate Enabled(r: Run, s: Step) {
    match s
    case Wait(_) => true
    case Admitted => RowsSince(r, r.now - WINDOW) < LIMIT
    case Finish(i, _) => i < |r.inFlight|
    case Ended => |r.ends| < |r.starts| + |r.inFlight|
  }

  function Apply(r: Run, s: Step): Run
    requires Enabled(r, s)
  {
    match s
    case Wait(dt) => r.(now := r.now + dt)
    case Admitted => r.(inFlight := r.inFlight + [r.now])
    case Finish(i, success) =>
      r.(inFlight := r.inFlight[..i] + r.inFlight[i + 1..],
         starts := if success then r.starts + [r.now] else r.starts)
    case Ended => r.(ends := r.ends + [r.now])
  }

  ghost predicate Possible(r: Run, steps: seq<Step>, k: nat)
    decreases |steps|, 0
  {
    if steps == [] then |r.inFlight| <= k
    else
      && Possible(r, steps[..|steps| - 1], k)
      && Enabled(Exec(r, steps[..|steps| - 1], k), steps[|steps| - 1])
      && |Apply(Exec(r, steps[..|steps| - 1], k), steps[|steps| - 1]).inFlight| <= k
  }

  /** A run in which at most `k` requests are ever in flight. */
  ghost function Exec(r: Run, steps: seq<Step>, k: nat): Run
    requires Possible(r, steps, k)
    decreases |steps|, 1
  {
    if steps == [] then r else Apply(Exec(r, steps[..|steps| - 1], k), steps[|steps| - 1])
  }

  lemma CountSnoc(a: seq<int>, t: int, p: int -> bool)
    ensures Count(a + [t], p) == Count(a, p) + if p(t) then 1 else 0
  {
    assert (a + [t])[..|a|] == a;
  }

  lemma {:induction false} CountAppend(a: seq<int>, b: seq<int>, p: int -> bool)
    ensures Count(a + b, p) == Count(a, p) + Count(b, p)
  {
    if b == [] {
      assert a + b == a;
    } else {
      assert (a + b)[..|a + b| - 1] == a + b[..|b| - 1];
      CountAppend(a, b[..|b| - 1], p);
    }
  }

  lemma CountWithout(a: seq<int>, i: nat, p: int -> bool)
    requires i < |a|
    ensures Count(a[..i] + a[i + 1..], p) + (if p(a[i]) then 1 else 0) == Count(a, p)
  {
    hide Count;
    assert a == (a[..i] + [a[i]]) + a[i + 1..];
    CountAppend(a[..i] + [a[i]], a[i + 1..], p);
    CountSnoc(a[..i], a[i], p);
    CountAppend(a[..i], a[i + 1..], p);
  }

  lemma {:induction false} CountImplies(a: seq<int>, p: int -> bool, q: int -> bool)
    requires forall t :: p(t) ==> q(t)
    ensures Count(a, p) <= Count(a, q) <= |a|
  {
    if a != [] { CountImplies(a[..|a| - 1], p, q); }
  }

  // ---- the steps are the middleware's ------------------------------------------------------

  lemma {:induction false} CountPermuted(a: seq<int>, b: seq<int>, p: int -> bool)
    requires multiset(a) == multiset(b)
    ensures Count(a, p) == Count(b, p)
  {
    if a == [] {
      assert |multiset(b)| == |b| == 0;
    } else {
      hide Count;
      var n := |a| - 1;
      Without(a, n);
      assert a[n] in multiset(a) && a[n] in multiset(b);
      var i :| 0 <= i < |b| && b[i] == a[n];
      Without(b, i);
      assert a[..n] + a[n + 1..] == a[..n];
      CountPermuted(a[..n], b[..i] + b[i + 1..], p);
      CountWithout(a, n, p);
      CountWithout(b, i, p);
    }
  }

  lemma Without(a: seq<int>, i: nat)
    requires i < |a|
    ensures multiset(a[..i] + a[i + 1..]) == multiset(a) - multiset{a[i]}
  {
    assert a == (a[..i] + [a[i]]) + a[i + 1..];
  }

  /** The rows of the run are those of the log, in whatever order the two writers wrote them. */
  ghost predicate Logs(usage: seq<int>, r: Run) { multiset(usage) == multiset(r.starts + r.ends) }

  /** A free user's request passes the check exactly when the run can take the step. */
  method AdmitIsStep(db: UsageDb, ghost r: Run, userId: string, now: int) returns (d: Decision)
    requires Logs(db.usage, r) && r.now == now && userId != ""
    modifies db
    ensures d == if Enabled(r, Admitted) then Proceed else LimitReached
    ensures Logs(db.usage, if d == Proceed then Apply(r, Admitted) else r)
  {
    hide Count;
    d := db.Admit(true, true, userId, Some(Free), true, now);
    CountPermuted(db.usage, r.starts + r.ends, Since(now - WINDOW));
    CountAppend(r.starts, r.ends, Since(now - WINDOW));
    CountAlike(db.usage, Since(now - WINDOW), t => t >= now - 30 * 24 * 60 * 60 * 1_000_000_000);
  }

  lemma {:induction false} CountAlike(a: seq<int>, p: int -> bool, q: int -> bool)
    requires forall t :: p(t) <==> q(t)
    ensures Count(a, p) == Count(a, q)
  {
    if a != [] { CountAlike(a[..|a| - 1], p, q); }
  }

  /** What its end leaves in the log is the step's row. */
  method CompleteIsStep(db: UsageDb, ghost r: Run, i: nat, failed: bool, status: int, now: int) returns (error: bool)
    requires Logs(db.usage, r) && r.now == now && i < |r.inFlight|
    modifies db
    ensures Logs(db.usage, Apply(r, Finish(i, !failed && status < 400)))
  {
    error := db.Complete(failed, status, now);
    assert r.starts + [now] + r.ends == r.starts + ([now] + r.ends);
  }

  method LogScanIsStep(db: UsageDb, ghost r: Run, now: int)
    requires Logs(db.usage, r) && r.now == now && Enabled(r, Ended)
    modifies db
    ensures Logs(db.usage, Apply(r, Ended))
  {
    db.LogScan(now);
    assert r.starts + (r.ends + [now]) == (r.starts + r.ends) + [now];
  }

  // ---- the bound ---------------------------------------------------------------------------

  /** Scans logged in the window from `s` on, and requests in flight that were checked before it ends,
      together never exceed four plus the number that may be in flight. */
  ghost predicate InBudget(r: Run, k: nat, s: int) {
    Count(r.starts, Within(s, s + WINDOW)) + Count(r.inFlight, UpTo(s + WINDOW)) <= LIMIT - 1 + k
  }

  ghost predicate CheckedInThePast(r: Run) { forall i :: 0 <= i < |r.inFlight| ==> r.inFlight[i] <= r.now }

  lemma AdmittedKeeps(r: Run, k: nat, s: int)
    requires InBudget(r, k, s) && Enabled(r, Admitted) && |r.inFlight| < k
    ensures InBudget(Apply(r, Admitted), k, s)
  {
    CountSnoc(r.inFlight, r.now, UpTo(s + WINDOW));
    if r.now <= s + WINDOW {
      CountImplies(r.starts, Within(s, s + WINDOW), Since(r.now - WINDOW));
      CountImplies(r.inFlight, UpTo(s + WINDOW), UpTo(s + WINDOW));
    }
  }

  lemma FinishKeeps(r: Run, k: nat, s: int, i: nat, success: bool)
    requires InBudget(r, k, s) && i < |r.inFlight| && CheckedInThePast(r)
    ensures InBudget(Apply(r, Finish(i, success)), k, s)
  {
    CountWithout(r.inFlight, i, UpTo(s + WINDOW));
    CountSnoc(r.starts, r.now, Within(s, s + WINDOW));
  }

  function Fresh(now: int): Run { Run(now, [], [], []) }

  lemma {:induction false} RunsStayInBudget(start: int, steps: seq<Step>, k: nat, s: int)
    requires Possible(Fresh(start), steps, k)
    ensures InBudget(Exec(Fresh(start), steps, k), k, s)
    ensures CheckedInThePast(Exec(Fresh(start), steps, k))
  {
    hide InBudget, Count;
    if steps == [] {
      FreshInBudget(start, k, s);
    } else {
      var n := |steps| - 1;
      RunsStayInBudget(start, steps[..n], k, s);
      var r := Exec(Fresh(start), steps[..n], k);
      match steps[n] {
        case Wait(dt) => SameBudget(r, Apply(r, Wait(dt)), k, s);
        case Admitted => AdmittedKeeps(r, k, s);
        case Finish(i, success) => FinishKeeps(r, k, s, i, success);
        case Ended => SameBudget(r, Apply(r, Ended), k, s);
      }
    }
  }

  lemma FreshInBudget(start: int, k: nat, s: int)
    ensures InBudget(Fresh(start), k, s)
  {}

  lemma SameBudget(r: Run, r': Run, k: nat, s: int)
    requires InBudget(r, k, s) && r'.starts == r.starts && r'.inFlight == r.inFlight
    ensures InBudget(r', k, s)
  {}

  /** For a user always on the free plan with at most `k` requests in flight at once, no thirty-day window
      ever holds more than 4 + k successful scans: five when requests come one at a time. Rows of scans that
      ended can only lower the number. */
  lemma WindowHoldsAtMostFourPlusK(start: int, steps: seq<Step>, k: nat, s: int)
    requires Possible(Fresh(start), steps, k)
    ensures Count(Exec(Fresh(start), steps, k).starts, Within(s, s + 30 * 24 * 60 * 60 * 1_000_000_000)) <= 4 + k
  {
    RunsStayInBudget(start, steps, k, s);
  }

  // ---- the bound is exact ------------------------------------------------------------------

  function Repeat(n: nat): seq<int> { seq(n, _ => 0) }

  function Times(n: nat, s: Step): seq<Step> { seq(n, _ => s) }

  lemma {:induction false} CountAllZero(n: nat, p: int -> bool)
    ensures Count(Repeat(n), p) == if p(0) then n else 0
  {
    if n > 0 {
      assert Repeat(n) == Repeat(n - 1) + [0];
      CountSnoc(Repeat(n - 1), 0, p);
      CountAllZero(n - 1, p);
    }
  }

  lemma RepeatSize(n: nat)
    ensures |Repeat(n)| == n
  {}

  /** Four scans one after the other. */
  function Serial(n: nat): seq<Step> {
    if n == 0 then [] else (Serial(n - 1) + [Admitted]) + [Finish(0, true)]
  }

  lemma Snoc(r: Run, steps: seq<Step>, s: Step, k: nat)
    requires Possible(r, steps, k) && Enabled(Exec(r, steps, k), s) && |Apply(Exec(r, steps, k), s).inFlight| <= k
    ensures Possible(r, steps + [s], k) && Exec(r, steps + [s], k) == Apply(Exec(r, steps, k), s)
  {
    assert (steps + [s])[..|steps|] == steps;
  }

  lemma AdmitOne(n: nat, m: nat)
    requires n <= 4
    ensures var r := Run(0, Repeat(n), [], Repeat(m));
            Enabled(r, Admitted) && Apply(r, Admitted) == Run(0, Repeat(n), [], Repeat(m + 1))
  {
    CountAllZero(n, Since(0 - WINDOW));
    assert Repeat(m) + [0] == Repeat(m + 1);
  }

  lemma FinishOne(n: nat, m: nat)
    ensures var r := Run(0, Repeat(n), [], Repeat(m + 1));
            Enabled(r, Finish(0, true)) && Apply(r, Finish(0, true)) == Run(0, Repeat(n + 1), [], Repeat(m))
  {
    var w := Repeat(m + 1);
    assert w[..0] + w[1..] == Repeat(m);
    assert Repeat(n) + [0] == Repeat(n + 1);
  }

  lemma OneServed(steps: seq<Step>, n: nat, k: nat)
    requires n < 4 && k >= 1 && Possible(Fresh(0), steps, k)
    requires Exec(Fresh(0), steps, k) == Run(0, Repeat(n), [], Repeat(0))
    ensures var more := (steps + [Admitted]) + [Finish(0, true)];
            Possible(Fresh(0), more, k) && Exec(Fresh(0), more, k) == Run(0, Repeat(n + 1), [], Repeat(0))
  {
    hide Apply, Enabled, Possible, Exec, Repeat;
    RepeatSize(0);
    RepeatSize(1);
    AdmitOne(n, 0);
    Snoc(Fresh(0), steps, Admitted, k);
    FinishOne(n, 0);
    Snoc(Fresh(0), steps + [Admitted], Finish(0, true), k);
  }

  lemma {:induction false} SerialRun(n: nat, k: nat)
    requires n <= 4 && k >= 1
    ensures Possible(Fresh(0), Serial(n), k) && Exec(Fresh(0), Serial(n), k) == Run(0, Repeat(n), [], Repeat(0))
  {
    if n == 0 {
      assert Repeat(0) == [];
    } else {
      hide Possible, Exec, Repeat;
      SerialRun(n - 1, k);
      OneServed(Serial(n - 1), n - 1, k);
    }
  }

  lemma {:induction false} BurstAdmits(m: nat, k: nat)
    requires m <= k && k >= 1
    ensures var steps := Serial(4) + Times(m, Admitted);
            Possible(Fresh(0), steps, k) && Exec(Fresh(0), steps, k) == Run(0, Repeat(4), [], Repeat(m))
  {
    hide Apply, Enabled, Possible, Exec, Serial;
    if m == 0 {
      SerialRun(4, k);
      assert Serial(4) + Times(0, Admitted) == Serial(4);
    } else {
      BurstAdmits(m - 1, k);
      AdmitOne(4, m - 1);
      Snoc(Fresh(0), Serial(4) + Times(m - 1, Admitted), Admitted, k);
      assert Serial(4) + Times(m, Admitted) == (Serial(4) + Times(m - 1, Admitted)) + [Admitted];
    }
  }

  lemma {:induction false} BurstFinishes(m: nat, k: nat)
    requires m <= k && k >= 1
    ensures var steps := (Serial(4) + Times(k, Admitted)) + Times(m, Finish(0, true));
            Possible(Fresh(0), steps, k) && Exec(Fresh(0), steps, k) == Run(0, Repeat(4 + m), [], Repeat(k - m))
  {
    hide Apply, Enabled, Possible, Exec, Serial;
    var first := Serial(4) + Times(k, Admitted);
    if m == 0 {
      BurstAdmits(k, k);
      assert first + Times(0, Finish(0, true)) == first;
    } else {
      BurstFinishes(m - 1, k);
      FinishOne(3 + m, k - m);
      Snoc(Fresh(0), first + Times(m - 1, Finish(0, true)), Finish(0, true), k);
      assert first + Times(m, Finish(0, true)) == (first + Times(m - 1, Finish(0, true))) + [Finish(0, true)];
    }
  }

  /** The bound is reached: `k` requests that pass the check together after four scans all succeed. */
  lemma FourPlusKIsReached(k: nat)
    requires k >= 1
    ensures exists steps :: Possible(Fresh(0), steps, k)
                            && Count(Exec(Fresh(0), steps, k).starts,
                                     Within(0, 30 * 24 * 60 * 60 * 1_000_000_000)) == 4 + k
  {
    BurstFinishes(k, k);
    CountAllZero(4 + k, Within(0, WINDOW));
    var steps := (Serial(4) + Times(k, Admitted)) + Times(k, Finish(0, true));
    assert Possible(Fresh(0), steps, k);
  }

  // ---- a user who waits for each scan to end -----------------------------------------------

  /** Every scan so far has logged its end, and nothing is in flight. */
  predicate Settled(r: Run) { r.inFlight == [] && |r.ends| == |r.starts| }

  /** With the logger wired and no scan cut short: the next request comes only when the last scan is over. */
  ghost predicate Waits(r: Run, steps: seq<Step>, k: nat)
    requires Possible(r, steps, k)
  {
    steps == [] ||
    var n := |steps| - 1;
    Waits(r, steps[..n], k) && (steps[n].Admitted? ==> Settled(Exec(r, steps[..n], k)))
  }

  ghost predicate UpToNow(times: seq<int>, now: int) {
    && (forall i, j :: 0 <= i < j < |times| ==> times[i] <= times[j])
    && (forall i :: 0 <= i < |times| ==> times[i] <= now)
  }

  /** Rounds do not overlap, and the third scan before one that passed its check had left the window. */
  ghost predicate InRounds(r: Run) {
    && UpToNow(r.starts, r.now) && UpToNow(r.ends, r.now)
    && |r.inFlight| <= 1 && |r.starts| + |r.inFlight| <= |r.ends| + 1
    && (forall i :: 0 < i < |r.ends| && i <= |r.starts| ==> r.starts[i - 1] <= r.ends[i])
    && (|r.starts| < |r.ends| ==> |r.ends| == |r.starts| + 1)
    && (forall i :: 0 <= i && i + 3 < |r.starts| ==> r.starts[i + 3] - r.starts[i] > WINDOW)
    && (|r.inFlight| == 1 ==> r.inFlight[0] <= r.now)
    && (|r.inFlight| == 1 && |r.starts| >= 3 ==> r.starts[|r.starts| - 3] < r.inFlight[0] - WINDOW)
  }

  lemma {:induction false} CountLast(times: seq<int>, m: nat, p: int -> bool)
    requires m <= |times| && forall i :: |times| - m <= i < |times| ==> p(times[i])
    ensures Count(times, p) >= m
  {
    if m > 0 { CountLast(times[..|times| - 1], m - 1, p); }
  }

  /** With three scans and their ends in the window there is no room for another. */
  lemma ThirdHasLeft(r: Run)
    requires UpToNow(r.starts, r.now) && UpToNow(r.ends, r.now) && Settled(r) && |r.starts| >= 3
    requires forall i :: 0 < i < |r.ends| && i <= |r.starts| ==> r.starts[i - 1] <= r.ends[i]
    requires Enabled(r, Admitted)
    ensures r.starts[|r.starts| - 3] < r.now - WINDOW
  {
    hide Count;
    var n := |r.starts|;
    if r.starts[n - 3] >= r.now - WINDOW {
      CountLast(r.starts, 3, Since(r.now - WINDOW));
      CountLast(r.ends, 2, Since(r.now - WINDOW));
    }
  }

  lemma AdmittedInRounds(r: Run)
    requires InRounds(r) && Enabled(r, Admitted) && Settled(r)
    ensures InRounds(Apply(r, Admitted))
  {
    hide RowsSince;
    if |r.starts| >= 3 { ThirdHasLeft(r); }
  }

  lemma FinishInRounds(r: Run, i: nat, success: bool)
    requires InRounds(r) && Enabled(r, Finish(i, success))
    ensures InRounds(Apply(r, Finish(i, success)))
  {
    hide RowsSince;
    assert i == 0 && r.inFlight[..0] + r.inFlight[1..] == [];
  }

  lemma EndedInRounds(r: Run)
    requires InRounds(r) && Enabled(r, Ended)
    ensures InRounds(Apply(r, Ended))
  {
    hide RowsSince;
  }

  lemma WaitInRounds(r: Run, dt: nat)
    requires InRounds(r)
    ensures InRounds(r.(now := r.now + dt))
  {}

  lemma StepInRounds(r: Run, s: Step)
    requires InRounds(r) && Enabled(r, s) && (s.Admitted? ==> Settled(r))
    ensures InRounds(Apply(r, s))
  {
    hide InRounds, RowsSince;
    match s {
      case Wait(dt) => WaitInRounds(r, dt);
      case Admitted => AdmittedInRounds(r);
      case Finish(i, success) => FinishInRounds(r, i, success);
      case Ended => EndedInRounds(r);
    }
  }

  lemma {:induction false} WaitingRunsInRounds(start: int, steps: seq<Step>, k: nat)
    requires Possible(Fresh(start), steps, k) && Waits(Fresh(start), steps, k)
    ensures InRounds(Exec(Fresh(start), steps, k))
  {
    if steps != [] {
      hide InRounds, Settled, Enabled, Apply;
      var n := |steps| - 1;
      WaitingRunsInRounds(start, steps[..n], k);
      StepInRounds(Exec(Fresh(start), steps[..n], k), steps[n]);
    } else {
      FreshInRounds(start);
    }
  }

  lemma FreshInRounds(start: int)
    ensures InRounds(Fresh(start))
  {}

  /** A free user who waits for each scan to end pays for it twice: of any four scans in a row the last comes
      more than thirty days after the first, so no thirty-day window holds more than three. */
  lemma WaitingUserGetsThree(start: int, steps: seq<Step>, k: nat, i: nat)
    requires Possible(Fresh(start), steps, k) && Waits(Fresh(start), steps, k)
    requires i + 3 < |Exec(Fresh(start), steps, k).starts|
    ensures var starts := Exec(Fresh(start), steps, k).starts;
            && starts[i + 3] - starts[i] > 30 * 24 * 60 * 60 * 1_000_000_000
            && forall j :: i <= j < |starts| ==> starts[i] <= starts[j]
  {
    WaitingRunsInRounds(start, steps, k);
  }

  /** One scan from the request to its end. */
  function Rounds(n: nat): seq<Step> {
    if n == 0 then [] else ((Rounds(n - 1) + [Admitted]) + [Finish(0, true)]) + [Ended]
  }

  lemma OneRound(n: nat)
    requires n < 3
    ensures var r := Run(0, Repeat(n), Repeat(n), []);
            && Enabled(r, Admitted) && Settled(r)
            && Apply(r, Admitted) == Run(0, Repeat(n), Repeat(n), [0])
    ensures var r := Run(0, Repeat(n), Repeat(n), [0]);
            Enabled(r, Finish(0, true)) && Apply(r, Finish(0, true)) == Run(0, Repeat(n + 1), Repeat(n), [])
    ensures var r := Run(0, Repeat(n + 1), Repeat(n), []);
            Enabled(r, Ended) && Apply(r, Ended) == Run(0, Repeat(n + 1), Repeat(n + 1), [])
  {
    CountAllZero(n, Since(0 - WINDOW));
    assert Repeat(n) + [0] == Repeat(n + 1);
  }

  lemma SnocWaits(r: Run, steps: seq<Step>, s: Step, k: nat)
    requires Possible(r, steps, k) && Waits(r, steps, k) && Enabled(Exec(r, steps, k), s)
    requires |Apply(Exec(r, steps, k), s).inFlight| <= k && (s.Admitted? ==> Settled(Exec(r, steps, k)))
    ensures Possible(r, steps + [s], k) && Waits(r, steps + [s], k)
    ensures Exec(r, steps + [s], k) == Apply(Exec(r, steps, k), s)
  {
    assert (steps + [s])[..|steps|] == steps;
  }

  /** Three are reached. */
  lemma {:induction false} ThreeAreReached(n: nat)
    requires n <= 3
    ensures Possible(Fresh(0), Rounds(n), 1) && Waits(Fresh(0), Rounds(n), 1)
    ensures Exec(Fresh(0), Rounds(n), 1) == Run(0, Repeat(n), Repeat(n), [])
  {
    assert Repeat(0) == [];
    if n > 0 {
      hide Apply, Enabled, Possible, Exec, Waits, Settled, Repeat;
      ThreeAreReached(n - 1);
      OneRound(n - 1);
      SnocWaits(Fresh(0), Rounds(n - 1), Admitted, 1);
      SnocWaits(Fresh(0), Rounds(n - 1) + [Admitted], Finish(0, true), 1);
      SnocWaits(Fresh(0), (Rounds(n - 1) + [Admitted]) + [Finish(0, true)], Ended, 1);
    }
  }
}
