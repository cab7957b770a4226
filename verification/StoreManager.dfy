/** One store handle per user, opened on demand under double-checked locking. */
module StoreManager {
  import opened Wrappers

  type User = string
  type Handle = nat

  // ---- the manager object ------------------------------------------------------------------

  class Manager {
    var stores: map<User, Handle>
    var next: Handle
    var open: set<Handle>

    /** The handles open are exactly those in the map, each under one user. */
    ghost predicate Valid()
      reads this
    {
      && (forall u :: u in stores ==> stores[u] < next)
      && (forall u, v :: u in stores && v in stores && stores[u] == stores[v] ==> u == v)
      && open == stores.Values
    }

    constructor ()
      ensures Valid() && stores == map[]
    {
      stores, next, open := map[], 0, {};
    }

    /** `opens` says whether opening the file would succeed. */
    method GetStore(user: User, opens: bool) returns (r: Result<Handle>)
      requires Valid()
      modifies this
      ensures Valid()
      ensures r.Err? <==> user == "" || (user !in old(stores) && !opens)
      ensures r.Ok? ==> user in stores && r.value == stores[user] && r.value in open
      ensures user in old(stores) || r.Err? ==> stores == old(stores)
      ensures r.Ok? ==> stores == old(stores)[user := r.value]
      ensures open == old(open) + (if r.Ok? then {r.value} else {})
    {
      if user == "" { return Err; }
      if user in stores { return Ok(stores[user]); }
      if !opens { return Err; }
      open := open + {next};
      ghost var was := stores;
      stores := stores[user := next];
      assert stores.Values == was.Values + {next} by {
        assert forall u :: u in was ==> u in stores && stores[u] == was[u];
        assert stores[user] == next;
      }
      r := Ok(next);
      next := next + 1;
    }

    /** Closes every open handle, in whatever order the map is walked, and empties the map. */
    method CloseAll()
      requires Valid()
      modifies this`stores, this`open
      ensures Valid() && stores == map[] && open == {}
    {
      var rest := stores.Keys;
      while rest != {}
        invariant rest <= stores.Keys && stores == old(stores)
        invariant open == set u | u in rest :: stores[u]
      {
        var u :| u in rest;
        var others := rest - {u};
        open := open - {stores[u]};
        assert rest == others + {u};
        rest := others;
      }
      stores := map[];
    }
  }

  // ---- concurrent calls --------------------------------------------------------------------

  /** A call is before its first look, past a miss and waiting for the lock, or over. A handle comes with
      the number of `CloseAll` calls before it was handed out. */
  datatype Phase = Looking | Missed | Got(handle: Handle, epoch: nat) | Failed

  datatype Call = Call(user: User, phase: Phase)

  datatype Opening = Opening(user: User, handle: Handle, epoch: nat)

  /** The map, the next handle, the handles not closed since they were opened, all calls, every
      successful open, and the number of `CloseAll`s. */
  datatype State = State(
    stores: map<User, Handle>, next: Handle, open: set<Handle>, calls: seq<Call>, openings: seq<Opening>, epoch: nat)

  datatype Step =
    | Enter(user: User)
    | Look(i: nat)
    | Locked(i: nat, opens: bool)
    | CloseAll

  predicate Enabled(s: State, step: Step) {
    match step
    case Enter(_) => true
    case Look(i) => i < |s.calls| && s.calls[i].phase.Looking?
    case Locked(i, _) => i < |s.calls| && s.calls[i].phase.Missed?
    case CloseAll => true
  }

  function With(s: State, i: nat, phase: Phase): State
    requires i < |s.calls|
  {
    s.(calls := s.calls[i := s.calls[i].(phase := phase)])
  }

  function Apply(s: State, step: Step): State
    requires Enabled(s, step)
  {
    match step
    case Enter(user) => s.(calls := s.calls + [Call(user, if user == "" then Failed else Looking)])
    case Look(i) =>
      var u := s.calls[i].user;
      With(s, i, if u in s.stores then Got(s.stores[u], s.epoch) else Missed)
    case Locked(i, opens) =>
      var u := s.calls[i].user;
      if u in s.stores then With(s, i, Got(s.stores[u], s.epoch))
      else if !opens then With(s, i, Failed)
      else With(s, i, Got(s.next, s.epoch)).(
        stores := s.stores[u := s.next], next := s.next + 1, open := s.open + {s.next},
        openings := s.openings + [Opening(u, s.next, s.epoch)])
    case CloseAll => s.(stores := map[], open := s.open - s.stores.Values, epoch := s.epoch + 1)
  }

  ghost predicate Possible(steps: seq<Step>)
    decreases |steps|, 0
  {
    steps == [] ||
    (Possible(steps[..|steps| - 1]) && Enabled(Exec(steps[..|steps| - 1]), steps[|steps| - 1]))
  }

  ghost function Exec(steps: seq<Step>): State
    requires Possible(steps)
    decreases |steps|, 1
  {
    if steps == [] then State(map[], 0, {}, [], [], 0)
    else Apply(Exec(steps[..|steps| - 1]), steps[|steps| - 1])
  }

  /** Handles are handed out once; the map holds exactly what was opened since the last `CloseAll`; every
      handle a call got was opened for its user in that epoch; and no user is opened twice in an epoch. */
  ghost predicate Inv(s: State) {
    && (forall i :: 0 <= i < |s.openings| ==> s.openings[i].handle < s.next && s.openings[i].epoch <= s.epoch)
    && (forall i, j :: 0 <= i < j < |s.openings| ==> s.openings[i].handle != s.openings[j].handle)
    && (forall i, j :: 0 <= i < j < |s.openings| ==>
          !(s.openings[i].user == s.openings[j].user && s.openings[i].epoch == s.openings[j].epoch))
    && (forall u :: u in s.stores ==> Opening(u, s.stores[u], s.epoch) in s.openings)
    && (forall o :: o in s.openings && o.epoch == s.epoch ==> o.user in s.stores)
    && (forall i :: 0 <= i < |s.calls| ==> CallGood(s.calls[i], s.openings))
  }

  /** Every handle a call got was opened for its user in its epoch. */
  ghost predicate CallGood(c: Call, openings: seq<Opening>) {
    c.phase.Got? ==> Opening(c.user, c.phase.handle, c.phase.epoch) in openings
  }

  /** A step that only touches calls keeps the invariant when the new calls are good. */
  lemma CallsKeep(s: State, t: State)
    requires Inv(s) && t == s.(calls := t.calls)
    requires forall i :: 0 <= i < |t.calls| ==> t.calls[i] in s.calls || CallGood(t.calls[i], s.openings)
    ensures Inv(t)
  {
    forall i | 0 <= i < |t.calls| ensures CallGood(t.calls[i], t.openings) {
      if t.calls[i] in s.calls {
        var j :| 0 <= j < |s.calls| && s.calls[j] == t.calls[i];
      }
    }
  }

  /** The first open of a user in an epoch. */
  lemma OpenKeeps(s: State, i: nat)
    requires Inv(s) && Enabled(s, Locked(i, true)) && s.calls[i].user !in s.stores
    ensures Inv(Apply(s, Locked(i, true)))
  {
    var t := Apply(s, Locked(i, true));
    var u := s.calls[i].user;
    var o := Opening(u, s.next, s.epoch);
    assert t.openings == s.openings + [o];
    assert forall x :: x in t.openings <==> x in s.openings || x == o;
    forall j | 0 <= j < |s.openings| ensures !(s.openings[j].user == u && s.openings[j].epoch == s.epoch) {
      assert s.openings[j] in s.openings;
    }
    forall j | 0 <= j < |t.calls| ensures CallGood(t.calls[j], t.openings) {
      if j != i { assert CallGood(s.calls[j], s.openings); }
    }
  }

  lemma CloseAllKeeps(s: State)
    requires Inv(s)
    ensures Inv(Apply(s, CloseAll))
  {
    var t := Apply(s, CloseAll);
    forall i | 0 <= i < |t.calls| ensures CallGood(t.calls[i], t.openings) { assert CallGood(s.calls[i], s.openings); }
    forall o | o in t.openings ensures o.epoch != t.epoch {
      var i :| 0 <= i < |s.openings| && s.openings[i] == o;
    }
  }

  lemma StepKeeps(s: State, step: Step)
    requires Inv(s) && Enabled(s, step)
    ensures Inv(Apply(s, step))
  {
    hide Inv;
    match step {
      case Locked(i, opens) =>
        if s.calls[i].user !in s.stores && opens { OpenKeeps(s, i); }
        else { MapHitGood(s, i); CallsKeep(s, Apply(s, step)); }
      case CloseAll => CloseAllKeeps(s);
      case Look(i) => MapHitGood(s, i); CallsKeep(s, Apply(s, step));
      case Enter(_) => CallsKeep(s, Apply(s, step));
    }
  }

  lemma MapHitGood(s: State, i: nat)
    requires Inv(s) && i < |s.calls|
    ensures var u := s.calls[i].user;
            u in s.stores ==> CallGood(Call(u, Got(s.stores[u], s.epoch)), s.openings)
  {}

  lemma {:induction false} RunsKeepInv(steps: seq<Step>)
    requires Possible(steps)
    ensures Inv(Exec(steps))
  {
    hide Inv, Apply, Enabled;
    if steps == [] {
      EmptyInv();
    } else {
      RunsKeepInv(steps[..|steps| - 1]);
      StepKeeps(Exec(steps[..|steps| - 1]), steps[|steps| - 1]);
    }
  }

  lemma EmptyInv()
    ensures Inv(State(map[], 0, {}, [], [], 0))
  {}

  /** A call that goes through on its own does what `GetStore` does: no handle without a user, the user's
      handle if there is one, else a new one, unless the file cannot be opened. */
  lemma AloneIsGetStore(s: State, user: User, opens: bool)
    ensures var i := |s.calls|;
            var a := Apply(s, Enter(user));
            && a == s.(calls := a.calls) && |a.calls| == i + 1 && a.calls[..i] == s.calls && a.calls[i].user == user
            && (user == "" ==> a.calls[i].phase == Failed)
            && (user != "" ==>
                  && Enabled(a, Look(i))
                  && var b := Apply(a, Look(i));
                     && b == s.(calls := b.calls)
                     && (user in s.stores ==> b.calls == s.calls + [Call(user, Got(s.stores[user], s.epoch))])
                     && (user !in s.stores ==>
                           && Enabled(b, Locked(i, opens))
                           && var c := Apply(b, Locked(i, opens));
                              && c.stores == (if opens then s.stores[user := s.next] else s.stores)
                              && c.open == s.open + (if opens then {s.next} else {})
                              && c.calls == s.calls + [Call(user, if opens then Got(s.next, s.epoch) else Failed)]))
  {}

  /** In company it differs in one thing: the handle may have been put there between the two looks, and then
      it is taken, whether the file could be opened or not. */
  lemma SecondLook(s: State, i: nat, opens: bool)
    requires Enabled(s, Locked(i, opens)) && s.calls[i].user in s.stores
    ensures Apply(s, Locked(i, opens)) ==
            s.(calls := s.calls[i := Call(s.calls[i].user, Got(s.stores[s.calls[i].user], s.epoch))])
  {}

  /** However calls interleave: between two `CloseAll`s a user's file is opened at most once, all callers
      who got a handle for that user got the same one, and no two users share a handle. */
  lemma OneHandlePerUser(steps: seq<Step>, i: nat, j: nat)
    requires Possible(steps)
    requires var s := Exec(steps);
             && i < |s.calls| && j < |s.calls| && s.calls[i].phase.Got? && s.calls[j].phase.Got?
             && s.calls[i].phase.epoch == s.calls[j].phase.epoch
    ensures var s := Exec(steps);
            s.calls[i].phase.handle == s.calls[j].phase.handle <==> s.calls[i].user == s.calls[j].user
  {
    RunsKeepInv(steps);
    var s := Exec(steps);
    assert CallGood(s.calls[i], s.openings) && CallGood(s.calls[j], s.openings);
  }

  lemma {:induction false} MappedAreOpen(steps: seq<Step>)
    requires Possible(steps)
    ensures Exec(steps).open == Exec(steps).stores.Values
  {
    if steps != [] {
      hide Possible;
      var n := |steps| - 1;
      MappedAreOpen(steps[..n]);
      var s, t := Exec(steps[..n]), Exec(steps);
      if t.stores != s.stores && steps[n].Locked? {
        var u := s.calls[steps[n].i].user;
        assert t.stores[u] == s.next;
        assert forall v :: v in s.stores ==> v in t.stores && t.stores[v] == s.stores[v];
        assert t.stores.Values == s.stores.Values + {s.next};
      }
    }
  }

  /** A handle a caller got is still open exactly when no `CloseAll` has come since: one that comes while a
      scan runs closes the store under it. */
  lemma HandleIsOpenIff(steps: seq<Step>, i: nat)
    requires Possible(steps) && i < |Exec(steps).calls| && Exec(steps).calls[i].phase.Got?
    ensures var s := Exec(steps);
            s.calls[i].phase.handle in s.open <==> s.calls[i].phase.epoch == s.epoch
  {
    hide Possible, Exec;
    RunsKeepInv(steps);
    MappedAreOpen(steps);
    var s := Exec(steps);
    var c := s.calls[i];
    assert CallGood(c, s.openings);
    if c.phase.handle in s.open {
      var u :| u in s.stores && s.stores[u] == c.phase.handle;
      assert Opening(u, s.stores[u], s.epoch) in s.openings;
    }
    if c.phase.epoch == s.epoch {
      assert c.user in s.stores;
      assert Opening(c.user, s.stores[c.user], s.epoch) in s.openings;
    }
  }

  lemma OpenedOncePerEpoch(steps: seq<Step>, i: nat, j: nat)
    requires Possible(steps) && i < j < |Exec(steps).openings|
    ensures var os := Exec(steps).openings;
            os[i].handle != os[j].handle && (os[i].user != os[j].user || os[i].epoch != os[j].epoch)
  {
    RunsKeepInv(steps);
  }

  lemma MapIsInjective(steps: seq<Step>, u: User, v: User)
    requires Possible(steps) && u in Exec(steps).stores && v in Exec(steps).stores
    ensures Exec(steps).stores[u] == Exec(steps).stores[v] ==> u == v
  {
    RunsKeepInv(steps);
  }
}
