/** A bbolt bucket: entries in strictly ascending key order, read through a cursor. */
module Buckets {
  import opened Bytes
  import opened Wrappers

  type Key = seq<byte>

  datatype Entry<+V> = Entry(key: Key, value: V)

  type Bucket<+V> = seq<Entry<V>>

  ghost predicate Sorted<V>(b: Bucket<V>) {
    forall i, j :: 0 <= i < j < |b| ==> Less(b[i].key, b[j].key)
  }

  /** Where `Cursor.Seek(k)` lands: the first entry whose key is not before `k`. */
  function Seek<V>(b: Bucket<V>, k: Key): (i: nat)
    ensures i <= |b|
    ensures forall j :: 0 <= j < i ==> Less(b[j].key, k)
    ensures i < |b| ==> !Less(b[i].key, k)
  {
    if b == [] || !Less(b[0].key, k) then 0 else 1 + Seek(b[1..], k)
  }

  /** `Bucket.Put`: replaces the value under an existing key, otherwise inserts in order. */
  function Put<V>(b: Bucket<V>, k: Key, v: V): Bucket<V> {
    var i := Seek(b, k);
    if i < |b| && b[i].key == k then b[i := Entry(k, v)]
    else b[..i] + [Entry(k, v)] + b[i..]
  }

  /** `Bucket.Get` and `Bucket.Bucket` */
  function Get<V>(b: Bucket<V>, k: Key): Option<V> {
    var i := Seek(b, k);
    if i < |b| && b[i].key == k then Some(b[i].value) else None
  }

  /** `Cursor.Last` */
  function Last<V>(b: Bucket<V>): Option<V> {
    if b == [] then None else Some(b[|b| - 1].value)
  }

  ghost predicate HasKey<V>(b: Bucket<V>, k: Key) { exists i :: 0 <= i < |b| && b[i].key == k }

  // ---- lemmas ------------------------------------------------------------------------------

  /** Everything from the seek position on is at or after the key. */
  lemma SeekSplits<V>(b: Bucket<V>, k: Key)
    requires Sorted(b)
    ensures forall j :: Seek(b, k) <= j < |b| ==> !Less(b[j].key, k)
    ensures forall j :: Seek(b, k) < j < |b| ==> Less(k, b[j].key)
  {
    var i := Seek(b, k);
    if i < |b| {
      LessTotal(b[i].key, k);
      forall j | i < j < |b| ensures Less(k, b[j].key) && !Less(b[j].key, k) {
        assert Less(b[i].key, b[j].key);
        if Less(k, b[i].key) { LessTransitive(k, b[i].key, b[j].key); }
        LessAsymmetric(k, b[j].key);
      }
    }
  }

  lemma GetIsMember<V>(b: Bucket<V>, k: Key, i: nat)
    requires Sorted(b) && i < |b| && b[i].key == k
    ensures Get(b, k) == Some(b[i].value)
  {
    SeekSplits(b, k);
    LessIrreflexive(k);
  }

  lemma PutSorted<V>(b: Bucket<V>, k: Key, v: V)
    requires Sorted(b)
    ensures Sorted(Put(b, k, v))
  {
    hide Less;
    var i := Seek(b, k);
    SeekSplits(b, k);
    if i < |b| { LessTotal(b[i].key, k); }
  }

  /** Where each entry of the updated bucket comes from. */
  lemma PutEntries<V>(b: Bucket<V>, k: Key, v: V, j: nat)
    requires j < |Put(b, k, v)|
    ensures Put(b, k, v)[j] == Entry(k, v) || Put(b, k, v)[j] in b
  {}

  /** A put is visible under its own key and under no other. */
  lemma GetPut<V>(b: Bucket<V>, k: Key, v: V, k': Key)
    requires Sorted(b)
    ensures Get(Put(b, k, v), k') == if k' == k then Some(v) else Get(b, k')
  {
    hide Less;
    var c := Put(b, k, v);
    var i := Seek(b, k);
    PutSorted(b, k, v);
    assert c[i] == Entry(k, v);
    if k' == k {
      GetIsMember(c, k, i);
    } else {
      var i' := Seek(b, k');
      if i' < |b| && b[i'].key == k' {
        var j := if |c| == |b| || i' < i then i' else i' + 1;
        assert c[j] == b[i'];
        GetIsMember(c, k', j);
      } else {
        var j := Seek(c, k');
        if j < |c| && c[j].key == k' {
          var m := if |c| == |b| || j < i then j else j - 1;
          assert b[m] == c[j];
          GetIsMember(b, k', m);
        }
      }
    }
  }

  /** The cursor's last entry after a put. */
  lemma LastPut<V>(b: Bucket<V>, k: Key, v: V)
    requires Sorted(b)
    ensures Last(Put(b, k, v)) ==
            if b != [] && Less(k, b[|b| - 1].key) then Last(b) else Some(v)
  {
    hide Less;
    SeekSplits(b, k);
    var i, n, c := Seek(b, k), |b| - 1, Put(b, k, v);
    if i == |b| {
      assert c[|c| - 1] == Entry(k, v);
      if b != [] { LessAsymmetric(b[n].key, k); }
    } else if b[i].key == k {
      assert c[n] == if i == n then Entry(k, v) else b[n];
      LessIrreflexive(k);
    } else {
      assert c[|b|] == b[n];
      LessTotal(b[i].key, k);
    }
  }

  // ---- range scans -------------------------------------------------------------------------

  /** `k` is neither before `lo` nor after `hi`; an absent bound does not restrict. */
  predicate InRange(k: Key, lo: Option<Key>, hi: Option<Key>) {
    && (lo.Some? ==> !Less(k, lo.value))
    && (hi.Some? ==> !Less(hi.value, k))
  }

  /** The entries of `b` whose keys lie in the range, in order. */
  function Window<V>(b: Bucket<V>, lo: Option<Key>, hi: Option<Key>): Bucket<V> {
    if b == [] then []
    else (if InRange(b[0].key, lo, hi) then [b[0]] else []) + Window(b[1..], lo, hi)
  }

  /** Entries below the range contribute nothing. */
  lemma {:induction false} WindowSkips<V>(b: Bucket<V>, i: nat, lo: Option<Key>, hi: Option<Key>)
    requires i <= |b| && forall j :: 0 <= j < i ==> !InRange(b[j].key, lo, hi)
    ensures Window(b, lo, hi) == Window(b[i..], lo, hi)
  {
    if i > 0 {
      WindowSkips(b[1..], i - 1, lo, hi);
      assert b[1..][i - 1..] == b[i..];
    }
  }

  lemma WindowEmpty<V>(b: Bucket<V>, lo: Option<Key>, hi: Option<Key>)
    requires forall j :: 0 <= j < |b| ==> !InRange(b[j].key, lo, hi)
    ensures Window(b, lo, hi) == []
  {
    WindowSkips(b, |b|, lo, hi);
  }

  lemma {:induction false} WindowMember<V>(b: Bucket<V>, lo: Option<Key>, hi: Option<Key>, x: Entry<V>)
    ensures x in Window(b, lo, hi) <==> x in b && InRange(x.key, lo, hi)
  {
    if b != [] {
      WindowMember(b[1..], lo, hi, x);
      assert b == [b[0]] + b[1..];
    }
  }

  lemma {:induction false} WindowSorted<V>(b: Bucket<V>, lo: Option<Key>, hi: Option<Key>)
    requires Sorted(b)
    ensures Sorted(Window(b, lo, hi))
  {
    if b != [] {
      assert forall j :: 0 <= j < |b[1..]| ==> b[1..][j] == b[j + 1];
      WindowSorted(b[1..], lo, hi);
      var rest := Window(b[1..], lo, hi);
      forall i | 0 <= i < |rest| ensures Less(b[0].key, rest[i].key) {
        WindowMember(b[1..], lo, hi, rest[i]);
      }
    }
  }

  /** Two ranges that meet between `mid` and `next`, with no key in between, join. */
  lemma {:induction false} WindowsJoin<V>(b: Bucket<V>, lo: Option<Key>, mid: Key, next: Key, hi: Option<Key>)
    requires Sorted(b)
    requires lo.Some? ==> !Less(next, lo.value)
    requires hi.Some? ==> !Less(hi.value, mid)
    requires forall i :: 0 <= i < |b| ==> (Less(mid, b[i].key) <==> !Less(b[i].key, next))
    ensures Window(b, lo, hi) == Window(b, lo, Some(mid)) + Window(b, Some(next), hi)
  {
    hide Less, InRange;
    if b != [] {
      if Less(mid, b[0].key) {
        AllAbove(b, lo, mid, next);
        WindowLowBound(b, lo, Some(next), hi);
      } else {
        assert forall j :: 0 <= j < |b[1..]| ==> b[1..][j] == b[j + 1];
        WindowsJoin(b[1..], lo, mid, next, hi);
        JoinBelow(b, lo, mid, next, hi);
      }
    }
  }

  /** An entry below the cut joins both sides alike. */
  lemma JoinBelow<V>(b: Bucket<V>, lo: Option<Key>, mid: Key, next: Key, hi: Option<Key>)
    requires b != [] && !Less(mid, b[0].key) && Less(b[0].key, next)
    requires hi.Some? ==> !Less(hi.value, mid)
    requires Window(b[1..], lo, hi) == Window(b[1..], lo, Some(mid)) + Window(b[1..], Some(next), hi)
    ensures Window(b, lo, hi) == Window(b, lo, Some(mid)) + Window(b, Some(next), hi)
  {
    hide Less, InRange, Window;
    BelowTheCut(b[0].key, lo, mid, next, hi);
    WindowFirst(b, lo, hi);
    WindowFirst(b, lo, Some(mid));
    WindowFirst(b, Some(next), hi);
  }

  lemma WindowFirst<V>(b: Bucket<V>, lo: Option<Key>, hi: Option<Key>)
    requires b != []
    ensures InRange(b[0].key, lo, hi) ==> Window(b, lo, hi) == [b[0]] + Window(b[1..], lo, hi)
    ensures !InRange(b[0].key, lo, hi) ==> Window(b, lo, hi) == Window(b[1..], lo, hi)
  {}

  lemma BelowTheCut(k: Key, lo: Option<Key>, mid: Key, next: Key, hi: Option<Key>)
    requires !Less(mid, k) && Less(k, next) && (hi.Some? ==> !Less(hi.value, mid))
    ensures InRange(k, lo, hi) <==> InRange(k, lo, Some(mid))
    ensures !InRange(k, Some(next), hi)
  {
    if hi.Some? { NotAboveBoth(k, mid, hi.value); }
  }

  lemma NotAboveBoth(k: Key, mid: Key, hi: Key)
    requires !Less(mid, k) && !Less(hi, mid)
    ensures !Less(hi, k)
  {
    LessTotal(hi, mid);
    if Less(hi, k) && Less(mid, hi) { LessTransitive(mid, hi, k); }
  }

  /** Once one key lies above the cut, the lower range is exhausted and the upper one has begun. */
  lemma AllAbove<V>(b: Bucket<V>, lo: Option<Key>, mid: Key, next: Key)
    requires Sorted(b) && b != [] && Less(mid, b[0].key)
    requires lo.Some? ==> !Less(next, lo.value)
    requires forall i :: 0 <= i < |b| ==> (Less(mid, b[i].key) <==> !Less(b[i].key, next))
    ensures Window(b, lo, Some(mid)) == []
    ensures forall i :: 0 <= i < |b| ==> InRange(b[i].key, lo, None) && InRange(b[i].key, Some(next), None)
  {
    forall j | 0 <= j < |b|
      ensures !InRange(b[j].key, lo, Some(mid))
      ensures InRange(b[j].key, lo, None) && InRange(b[j].key, Some(next), None)
    {
      if j > 0 { LessTransitive(mid, b[0].key, b[j].key); }
      if lo.Some? && Less(b[j].key, lo.value) {
        LessTotal(next, b[j].key);
        if Less(next, b[j].key) { LessTransitive(next, b[j].key, lo.value); }
      }
    }
    WindowEmpty(b, lo, Some(mid));
  }

  /** Lower bounds that exclude no entry are interchangeable. */
  lemma {:induction false} WindowLowBound<V>(b: Bucket<V>, lo: Option<Key>, lo': Option<Key>, hi: Option<Key>)
    requires forall i :: 0 <= i < |b| ==> InRange(b[i].key, lo, None) && InRange(b[i].key, lo', None)
    ensures Window(b, lo, hi) == Window(b, lo', hi)
  {
    if b != [] {
      assert InRange(b[0].key, lo, None) && InRange(b[0].key, lo', None);
      assert forall j :: 0 <= j < |b[1..]| ==> b[1..][j] == b[j + 1];
      WindowLowBound(b[1..], lo, lo', hi);
    }
  }

  function Values<V>(b: Bucket<V>): seq<V> { seq(|b|, i requires 0 <= i < |b| => b[i].value) }

  /** When the keys in range are exactly those from `i` up to `j`, the window is that slice. */
  lemma WindowIsSlice<V>(b: Bucket<V>, i: nat, j: nat, lo: Option<Key>, hi: Option<Key>)
    requires i <= j <= |b|
    requires forall m :: 0 <= m < |b| ==> (InRange(b[m].key, lo, hi) <==> i <= m < j)
    ensures Window(b, lo, hi) == b[i..j]
  {
    hide Less;
    WindowSkips(b, i, lo, hi);
    var c := b[i..];
    assert forall m :: 0 <= m < |c| ==> c[m] == b[i + m];
    WindowTakes(c, j - i, lo, hi);
    assert c[..j - i] == b[i..j];
  }

  lemma {:induction false} WindowTakes<V>(b: Bucket<V>, n: nat, lo: Option<Key>, hi: Option<Key>)
    requires n <= |b|
    requires forall m :: 0 <= m < |b| ==> (InRange(b[m].key, lo, hi) <==> m < n)
    ensures Window(b, lo, hi) == b[..n]
  {
    hide Less;
    if n == 0 {
      WindowEmpty(b, lo, hi);
    } else {
      var c := b[1..];
      assert forall m :: 0 <= m < |c| ==> c[m] == b[m + 1];
      WindowTakes(c, n - 1, lo, hi);
      assert InRange(b[0].key, lo, hi);
      assert [b[0]] + c[..n - 1] == b[..n];
    }
  }

  /** The cursor loop of `ReadHistory` and `ReadAlerts`: seek, then step until past the end key. */
  method Scan<V>(b: Bucket<V>, lo: Option<Key>, hi: Option<Key>) returns (vs: seq<V>)
    requires Sorted(b)
    ensures vs == Values(Window(b, lo, hi))
  {
    var start := if lo.Some? then Seek(b, lo.value) else 0;
    if lo.Some? { SeekSplits(b, lo.value); }
    assert forall j :: 0 <= j < |b| ==> (InRange(b[j].key, lo, None) <==> start <= j);
    var i := start;
    vs := [];
    while i < |b| && !(hi.Some? && Less(hi.value, b[i].key))
      invariant start <= i <= |b|
      invariant forall j :: start <= j < i ==> InRange(b[j].key, lo, hi)
      invariant vs == Values(b[start..i])
    {
      vs := vs + [b[i].value];
      i := i + 1;
    }
    if i < |b| { AllPast(b, i, hi.value); }
    WindowIsSlice(b, start, i, lo, hi);
  }

  lemma AllPast<V>(b: Bucket<V>, i: nat, end: Key)
    requires Sorted(b) && i < |b| && Less(end, b[i].key)
    ensures forall j :: i <= j < |b| ==> Less(end, b[j].key)
  {
    forall j | i < j < |b| ensures Less(end, b[j].key) {
      LessTransitive(end, b[i].key, b[j].key);
    }
  }
}
