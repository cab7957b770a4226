/** Ordering ports by score: the in-place insertion sort that decides what is scanned first. */
module PortOrder {
  import opened Strings
  import opened Wrappers
  import opened Osint

  datatype Item = Item(port: Port, score: real, idx: nat)

  function ScoreOf(scores: Scores, p: Port): real { if p in scores then scores[p] else 0.0 }

  /** Higher score first, then earlier position. */
  predicate Before(a: Item, b: Item) {
    a.score > b.score || (a.score == b.score && a.idx < b.idx)
  }

  function ItemAt(ports: seq<Port>, scores: Scores, i: nat): Item
    requires i < |ports|
  {
    Item(ports[i], ScoreOf(scores, ports[i]), i)
  }

  /** Every item still carries the port and the score of its own position, and positions differ. */
  ghost predicate Faithful(items: seq<Item>, ports: seq<Port>, scores: Scores) {
    && |items| == |ports|
    && (forall i :: 0 <= i < |items| ==> items[i].idx < |ports| && items[i] == ItemAt(ports, scores, items[i].idx))
    && (forall i, j :: 0 <= i < j < |items| ==> items[i].idx != items[j].idx)
  }

  ghost predicate Ascending(items: seq<Item>) {
    forall i, j :: 0 <= i < j < |items| ==> Before(items[i], items[j])
  }

  /** `items` lists each position of `ports` once, best first, ties in their original order. */
  ghost predicate IsRanking(items: seq<Item>, ports: seq<Port>, scores: Scores) {
    Faithful(items, ports, scores) && Ascending(items)
  }

  function PortsOf(items: seq<Item>): seq<Port> {
    seq(|items|, i requires 0 <= i < |items| => items[i].port)
  }

  // ---- the ranking is unique and a permutation ---------------------------------------------

  function Indices(items: seq<Item>): set<int> { set i | 0 <= i < |items| :: items[i].idx }

  function Below(n: nat): (s: set<int>)
    ensures forall i :: i in s <==> 0 <= i < n
  {
    if n == 0 then {} else Below(n - 1) + {n - 1}
  }

  lemma {:induction false} BelowSize(n: nat)
    ensures |Below(n)| == n
  {
    if n > 0 { BelowSize(n - 1); }
  }

  lemma {:induction false} IndicesSize(items: seq<Item>)
    requires forall i, j :: 0 <= i < j < |items| ==> items[i].idx != items[j].idx
    ensures |Indices(items)| == |items|
  {
    if items == [] {
      assert Indices(items) == {};
    } else {
      var n := |items| - 1;
      IndicesSize(items[..n]);
      assert Indices(items) == Indices(items[..n]) + {items[n].idx};
      assert items[n].idx !in Indices(items[..n]);
    }
  }

  lemma SameSizeSubset(a: set<int>, b: set<int>)
    requires a <= b && |a| == |b|
    ensures a == b
  {
    assert b == a + (b - a) && a !! b - a;
    assert |b - a| == 0;
  }

  /** No position is missing from a faithful list. */
  lemma EveryPositionListed(items: seq<Item>, ports: seq<Port>, scores: Scores, k: nat)
    requires Faithful(items, ports, scores) && k < |ports|
    ensures exists i :: 0 <= i < |items| && items[i].idx == k
  {
    IndicesSize(items);
    BelowSize(|ports|);
    SameSizeSubset(Indices(items), Below(|ports|));
    assert k in Below(|ports|);
  }

  lemma OneOf(a: seq<Item>, b: seq<Item>, ports: seq<Port>, scores: Scores, i: nat)
    requires IsRanking(a, ports, scores) && IsRanking(b, ports, scores)
    requires i < |a| && a[..i] == b[..i]
    ensures a[i] == b[i]
  {
    if a[i] != b[i] {
      ComesLater(a, b, ports, scores, i);
      ComesLater(b, a, ports, scores, i);
    }
  }

  /** Past an equal prefix, an item the other list does not have next comes later there. */
  lemma ComesLater(a: seq<Item>, b: seq<Item>, ports: seq<Port>, scores: Scores, i: nat)
    requires IsRanking(a, ports, scores) && IsRanking(b, ports, scores)
    requires i < |a| && a[..i] == b[..i] && a[i] != b[i]
    ensures Before(b[i], a[i])
  {
    forall m | 0 <= m < i ensures a[m] == b[m] { assert a[..i][m] == b[..i][m]; }
    EveryPositionListed(b, ports, scores, a[i].idx);
    var j :| 0 <= j < |b| && b[j].idx == a[i].idx;
    assert b[j] == a[i];
  }

  /** There is only one ranking. */
  lemma {:induction false} RankingIsUnique(a: seq<Item>, b: seq<Item>, ports: seq<Port>, scores: Scores, n: nat)
    requires IsRanking(a, ports, scores) && IsRanking(b, ports, scores) && n <= |ports|
    ensures a[..n] == b[..n]
  {
    if n > 0 {
      RankingIsUnique(a, b, ports, scores, n - 1);
      OneOf(a, b, ports, scores, n - 1);
      assert a[..n] == a[..n - 1] + [a[n - 1]] && b[..n] == b[..n - 1] + [b[n - 1]];
    }
  }

  // ---- the sort ----------------------------------------------------------------------------

  lemma SwapFaithful(s: seq<Item>, j: nat, ports: seq<Port>, scores: Scores)
    requires 0 < j < |s| && Faithful(s, ports, scores)
    ensures Faithful(s[j := s[j - 1]][j - 1 := s[j]], ports, scores)
    ensures multiset(PortsOf(s[j := s[j - 1]][j - 1 := s[j]])) == multiset(PortsOf(s))
  {
    var t := s[j := s[j - 1]][j - 1 := s[j]];
    assert PortsOf(t) == PortsOf(s)[j := s[j - 1].port][j - 1 := s[j].port];
  }

  method Swap(a: array<Item>, j: nat, ghost ports: seq<Port>, ghost scores: Scores)
    requires 0 < j < a.Length && Faithful(a[..], ports, scores)
    modifies a
    ensures a[..] == old(a[..])[j := old(a[j - 1])][j - 1 := old(a[j])]
    ensures Faithful(a[..], ports, scores)
    ensures multiset(PortsOf(a[..])) == multiset(PortsOf(old(a[..])))
  {
    SwapFaithful(a[..], j, ports, scores);
    a[j], a[j - 1] := a[j - 1], a[j];
  }

  /** The first `i + 1` items are in order, but for the one at `j` still moving down. */
  ghost predicate Settled(s: seq<Item>, i: nat, j: nat)
    requires i < |s|
  {
    forall m, n :: 0 <= m < n <= i && n != j ==> Before(s[m], s[n])
  }

  /** Moves item `i` down to its place among the first `i`. */
  method Insert(a: array<Item>, i: nat, ghost ports: seq<Port>, ghost scores: Scores)
    requires 0 < i < a.Length && Faithful(a[..], ports, scores) && Ascending(a[..i])
    modifies a
    ensures Faithful(a[..], ports, scores) && Ascending(a[..i + 1])
    ensures multiset(PortsOf(a[..])) == multiset(PortsOf(old(a[..])))
  {
    var j := i;
    assert Settled(a[..], i, j) by {
      forall m, n | 0 <= m < n < i ensures Before(a[m], a[n]) { assert Before(a[..i][m], a[..i][n]); }
    }
    while j > 0
      invariant 0 <= j <= i
      invariant Faithful(a[..], ports, scores) && Settled(a[..], i, j)
      invariant multiset(PortsOf(a[..])) == multiset(PortsOf(old(a[..])))
    {
      if Before(a[j], a[j - 1]) {
        ghost var s := a[..];
        Swap(a, j, ports, scores);
        MovedDown(s, a[..], i, j);
        j := j - 1;
      } else {
        InPlace(a[..], i, j, ports, scores);
        return;
      }
    }
    ghost var p := a[..i + 1];
    forall m, n | 0 <= m < n < |p| ensures Before(p[m], p[n]) { assert Before(a[..][m], a[..][n]); }
  }

  lemma MovedDown(s: seq<Item>, t: seq<Item>, i: nat, j: nat)
    requires 0 < j <= i < |s| && Settled(s, i, j) && Before(s[j], s[j - 1])
    requires t == s[j := s[j - 1]][j - 1 := s[j]]
    ensures Settled(t, i, j - 1)
  {
    forall m, n | 0 <= m < n <= i && n != j - 1 ensures Before(t[m], t[n]) {
      var m', n' := if m == j then j - 1 else if m == j - 1 then j else m, if n == j then j - 1 else n;
      assert t[m] == s[m'] && t[n] == s[n'];
      if n == j && m == j - 1 {
      } else if m == j - 1 {
        assert Before(s[j - 1], s[n]);
      } else {
        assert Before(s[m'], s[n']);
      }
    }
  }

  lemma InPlace(s: seq<Item>, i: nat, j: nat, ports: seq<Port>, scores: Scores)
    requires 0 < j <= i < |s| && Settled(s, i, j) && Faithful(s, ports, scores) && !Before(s[j], s[j - 1])
    ensures Ascending(s[..i + 1])
  {
    var p := s[..i + 1];
    forall m, n | 0 <= m < n < |p| ensures Before(p[m], p[n]) {
      assert Before(s[j - 1], s[j]) by { assert s[j - 1].idx != s[j].idx; }
      if n != j {
        assert Before(s[m], s[n]);
      } else if m < j - 1 {
        assert Before(s[m], s[j - 1]);
      }
    }
  }

  /** What an order by profile means for the ports themselves: of two ports with scores the one with the
      higher score comes first; a port with a positive score comes before every port without a score, and
      one with a negative score after them; ports with no score or a score of zero, like ports of
      the same score, keep the order in which they were given. */
  ghost predicate Favours(r: seq<Port>, ranking: seq<Item>, ports: seq<Port>, scores: Scores) {
    && |ranking| == |r| == |ports|
    && (forall i :: 0 <= i < |r| ==> ranking[i].idx < |ports| && ports[ranking[i].idx] == r[i])
    && (forall i, j :: 0 <= i < j < |r| ==>
          && (r[i] in scores && r[j] in scores ==> scores[r[i]] >= scores[r[j]])
          && (r[j] in scores && scores[r[j]] > 0.0 ==> r[i] in scores)
          && (r[i] in scores && scores[r[i]] < 0.0 ==> r[j] in scores)
          && ((r[i] in scores ==> scores[r[i]] == 0.0) && (r[j] in scores ==> scores[r[j]] == 0.0) ==>
                ranking[i].idx < ranking[j].idx)
          && (r[i] in scores && r[j] in scores && scores[r[i]] == scores[r[j]] ==> ranking[i].idx < ranking[j].idx))
  }

  lemma RankingFavours(items: seq<Item>, ports: seq<Port>, scores: Scores)
    requires IsRanking(items, ports, scores)
    ensures Favours(PortsOf(items), items, ports, scores)
  {
    forall i, j | 0 <= i < j < |items| ensures Before(items[i], items[j]) {}
  }

  /** Without scores the list itself; otherwise the ports of the one ranking there is. */
  method PrioritisePorts(ports: seq<Port>, profile: Option<Scores>) returns (r: seq<Port>, ghost ranking: seq<Item>)
    ensures profile.None? || |profile.value| == 0 ==> r == ports
    ensures profile.Some? && |profile.value| != 0 ==> IsRanking(ranking, ports, profile.value) && r == PortsOf(ranking)
    ensures multiset(r) == multiset(ports)
    ensures profile.Some? && |profile.value| != 0 ==> Favours(r, ranking, ports, profile.value)
  {
    ranking := [];
    if profile.None? || |profile.value| == 0 { return ports, []; }
    var scores := profile.value;
    var a := new Item[|ports|](i requires 0 <= i < |ports| => ItemAt(ports, scores, i));
    AsGiven(a[..], ports, scores);
    Sort(a, ports, scores);
    ranking := a[..];
    r := PortsOf(a[..]);
    RankingFavours(ranking, ports, scores);
  }

  method Sort(a: array<Item>, ghost ports: seq<Port>, ghost scores: Scores)
    requires Faithful(a[..], ports, scores)
    modifies a
    ensures IsRanking(a[..], ports, scores)
    ensures multiset(PortsOf(a[..])) == multiset(PortsOf(old(a[..])))
  {
    hide Faithful, Before, PortsOf;
    var i := 1;
    while i < a.Length
      invariant 1 <= i
      invariant Faithful(a[..], ports, scores) && Ascending(a[..if i <= a.Length then i else a.Length])
      invariant multiset(PortsOf(a[..])) == multiset(PortsOf(old(a[..])))
    {
      Insert(a, i, ports, scores);
      i := i + 1;
    }
    assert a[..a.Length] == a[..];
  }

  lemma AsGiven(items: seq<Item>, ports: seq<Port>, scores: Scores)
    requires |items| == |ports| && forall i :: 0 <= i < |items| ==> items[i] == ItemAt(ports, scores, i)
    ensures Faithful(items, ports, scores) && PortsOf(items) == ports
  {}

  // ---- what the order means ----------------------------------------------------------------

  /** Scores never rise along a ranking, and ports of equal score keep the order they were given in. */
  lemma RankingMeans(items: seq<Item>, ports: seq<Port>, scores: Scores, i: nat, j: nat)
    requires IsRanking(items, ports, scores) && i < j < |items|
    ensures ScoreOf(scores, items[i].port) >= ScoreOf(scores, items[j].port)
    ensures ScoreOf(scores, items[i].port) == ScoreOf(scores, items[j].port) ==> items[i].idx < items[j].idx
    ensures ports[items[i].idx] == items[i].port && ports[items[j].idx] == items[j].port
  {
    assert Before(items[i], items[j]);
  }

  /** Any two calls on the same input agree. */
  lemma OneOrder(a: seq<Item>, b: seq<Item>, ports: seq<Port>, scores: Scores)
    requires IsRanking(a, ports, scores) && IsRanking(b, ports, scores)
    ensures PortsOf(a) == PortsOf(b)
  {
    RankingIsUnique(a, b, ports, scores, |ports|);
    assert a[..|ports|] == a && b[..|ports|] == b;
  }
}
