/** How targets and port lists are written: what each part of one stands for, blanks included, and when one is
    refused. */
module TargetText {
  import opened Bytes
  import opened Strings
  import opened Wrappers
  import opened IpRange

  // ---- blanks ------------------------------------------------------------------------------

  /** A text that begins and ends with something other than a blank. */
  predicate IsWord(t: Text) { t != [] && !IsSpace(t[0]) && !IsSpace(t[|t| - 1]) }

  lemma {:induction false} TrimBehind(d: Text, y: Text)
    requires IsWord(d) && IsBlank(y)
    ensures TrimSpace(d + y) == d
  {
    if y == [] {
      assert d + y == d;
    } else {
      var n := |y| - 1;
      TrimBehind(d, y[..n]);
      assert (d + y)[..|d + y| - 1] == d + y[..n];
      assert (d + y)[0] == d[0] && (d + y)[|d + y| - 1] == y[n];
    }
  }

  lemma {:induction false} TrimInFront(x: Text, s: Text)
    requires IsBlank(x)
    ensures TrimSpace(x + s) == TrimSpace(s)
  {
    if x == [] {
      assert x + s == s;
    } else {
      TrimInFront(x[1..], s);
      assert (x + s)[1..] == x[1..] + s && (x + s)[0] == x[0];
    }
  }

  /** What stands between blanks, and has none at its own ends, is what trimming leaves. */
  lemma TrimmedIs(s: Text, x: Text, t: Text, y: Text)
    requires Between(s, x, t, y) && (t == [] || IsWord(t))
    ensures TrimSpace(s) == t
  {
    TrimInFront(x, t + y);
    if t == [] {
      assert t + y == y && y + [] == y;
      TrimInFront(y, []);
    } else {
      TrimBehind(t, y);
    }
  }

  /** Every text has such a middle. */
  lemma Trimmed(s: Text) returns (x: Text, y: Text)
    ensures Between(s, x, TrimSpace(s), y) && (TrimSpace(s) == [] || IsWord(TrimSpace(s)))
    ensures TrimSpace(s) == [] <==> IsBlank(s)
  {
    hide TrimSpace;
    x, y := TrimIs(s);
    var t := TrimSpace(s);
    if t != [] {
      OneBlank(t[0]);
      OneBlank(t[|t| - 1]);
      assert s[|x|] == t[0];
    }
  }

  /** Blanks at the outer ends make no difference to what stands before and behind a dash. */
  lemma TrimSides(s: Text, x: Text, y: Text)
    requires IsBlank(x) && IsBlank(y)
    ensures TrimSpace(x + s) == TrimSpace(s) && TrimSpace(s + y) == TrimSpace(s)
  {
    hide TrimSpace, IsSpace;
    TrimInFront(x, s);
    var a, b := Trimmed(s);
    assert s + y == a + (TrimSpace(s) + (b + y));
    TrimmedIs(s + y, a, TrimSpace(s), b + y);
  }

  lemma NoDash(x: Text)
    requires IsBlank(x)
    ensures DASH !in x
  {}

  lemma NotBlank(t: Text)
    requires 45 in t
    ensures !IsBlank(t)
  {}

  /** The first dash stands at `i`. */
  predicate DashAt(t: Text, i: int) { 0 <= i < |t| && t[i] == 45 && 45 !in t[..i] }

  lemma FirstDash(t: Text)
    ensures 45 in t <==> IndexOf(t, DASH) < |t|
    ensures forall i :: DashAt(t, i) <==> 45 in t && i == IndexOf(t, DASH)
  {
    hide IndexOf;
    var j := IndexOf(t, DASH);
    if j == |t| { assert t[..j] == t; }
    assert forall i :: 0 <= i < j ==> t[..j][i] == t[i];
    assert forall i :: j < i <= |t| ==> t[..i][j] == t[j];
  }

  /** The first dash of a trimmed text is that of the text. */
  lemma DashInside(part: Text, x: Text, t: Text, y: Text)
    requires Between(part, x, t, y)
    ensures 45 in t <==> 45 in part
    ensures 45 in t ==>
              var i, j := IndexOf(t, DASH), IndexOf(part, DASH);
              && i < |t| && j == |x| + i && part[..j] == x + t[..i] && part[j + 1..] == t[i + 1..] + y
  {
    hide IndexOf, IsBlank;
    NoDash(x);
    NoDash(y);
    FirstDash(t);
    if 45 in t {
      var i := IndexOf(t, DASH);
      assert part[..|x| + i] == x + t[..i];
      assert DashAt(part, |x| + i);
      FirstDash(part);
    }
  }

  // ---- ports -------------------------------------------------------------------------------

  /** `t` is `p` in decimal, perhaps with zeros before it and blanks around it. */
  ghost predicate Reads(t: Text, p: Port) { exists x, k, y :: Between(t, x, Zeros(k) + Decimal(p), y) }

  lemma ReadsIff(t: Text, p: Port)
    ensures Reads(t, p) <==> ParseUint16(TrimSpace(t)) == Ok(p)
    ensures Reads(t, p) ==> 45 !in t && !IsBlank(t)
  {
    hide TrimSpace, ParseUint16, Zeros, Decimal;
    var x, y := Trimmed(t);
    ParseUintIff(TrimSpace(t), p);
    if k :| TrimSpace(t) == Zeros(k) + Decimal(p) {}
    if x', k, y' :| Between(t, x', Zeros(k) + Decimal(p), y') {
      NumeralIsWord(k, p);
      TrimmedIs(t, x', Zeros(k) + Decimal(p), y');
    }
  }

  lemma NumeralIsWord(k: nat, p: Port)
    ensures var d := Zeros(k) + Decimal(p); IsWord(d) && 45 !in d
  {
    hide Decimal;
    ZerosAddNothing(k, p);
    var d := Zeros(k) + Decimal(p);
    forall i | 0 <= i < |d| ensures d[i] != 45 && !IsSpace(d[i]) { assert IsDigit(d[i]); }
  }

  /** A part of a port list says nothing when it is blank; else it is one number, or two with a dash between
      them, which stand for every port from the first to the second, both included. */
  ghost predicate Says(part: Text, ports: seq<Port>) {
    || (ports == [] && IsBlank(part))
    || (|ports| == 1 && Reads(part, ports[0]))
    || (ports != [] && Counts(ports)
        && exists i :: DashAt(part, i) && Reads(part[..i], ports[0]) && Reads(part[i + 1..], ports[|ports| - 1]))
  }

  /** What a part is read as is what it says; other parts are refused. */
  lemma PartSays(part: Text, ports: seq<Port>)
    ensures PartPorts(part) == Ok(ports) <==> Says(part, ports)
  {
    hide TrimSpace, IndexOf, ParseUint16, Reads, IsBlank, IsSpace;
    var x, y := Trimmed(part);
    var t := TrimSpace(part);
    DashInside(part, x, t, y);
    FirstDash(part);
    if 45 in part {
      DashedPartSays(part, x, t, y, ports);
    } else {
      FirstDash(t);
      if ports != [] {
        ReadsIff(part, ports[0]);
        assert |ports| == 1 ==> ports == [ports[0]];
      }
    }
  }

  ghost predicate Counts(ports: seq<Port>) { forall i :: 0 <= i < |ports| ==> ports[i] == ports[0] + i }

  lemma UpToIs(lo: Port, hi: Port, ports: seq<Port>)
    ensures lo <= hi && ports == UpTo(lo, hi) <==>
              ports != [] && ports[0] == lo && ports[|ports| - 1] == hi && Counts(ports)
  {}

  lemma DashedPartSays(part: Text, x: Text, t: Text, y: Text, ports: seq<Port>)
    requires Between(part, x, t, y) && t == TrimSpace(part) && 45 in part
    ensures PartPorts(part) == Ok(ports) <==> Says(part, ports)
  {
    hide TrimSpace, IndexOf, ParseUint16, Reads, IsSpace, IsBlank, UpTo, Counts;
    DashInside(part, x, t, y);
    FirstDash(part);
    var i, j := IndexOf(t, DASH), IndexOf(part, DASH);
    var lo', hi' := ParseUint16(TrimSpace(t[..i])), ParseUint16(TrimSpace(t[i + 1..]));
    if lo'.Ok? && hi'.Ok? { UpToIs(lo'.value, hi'.value, ports); }
    TrimSides(t[..i], x, y);
    TrimSides(t[i + 1..], x, y);
    NotBlank(part);
    if ports != [] {
      ReadsIff(part, ports[0]);
      ReadsIff(part[..j], ports[0]);
      ReadsIff(part[j + 1..], ports[|ports| - 1]);
    }
  }

  ghost predicate AllSay(parts: seq<Text>, lists: seq<seq<Port>>) {
    |lists| == |parts| && forall i :: 0 <= i < |parts| ==> Says(parts[i], lists[i])
  }

  function Flat<T>(lists: seq<seq<T>>): seq<T> {
    if lists == [] then [] else Flat(lists[..|lists| - 1]) + lists[|lists| - 1]
  }

  lemma {:induction false} AllPortsSay(parts: seq<Text>, lists: seq<seq<Port>>)
    requires AllSay(parts, lists)
    ensures AllPorts(parts) == Ok(Flat(lists))
  {
    hide PartPorts, Says;
    if parts != [] {
      var n := |parts| - 1;
      AllPortsSay(parts[..n], lists[..n]);
      PartSays(parts[n], lists[n]);
    }
  }

  lemma {:induction false} AllPortsRead(parts: seq<Text>) returns (lists: seq<seq<Port>>)
    requires AllPorts(parts).Ok?
    ensures AllSay(parts, lists)
  {
    hide PartPorts, Says;
    lists := [];
    if parts != [] {
      var n := |parts| - 1;
      lists := AllPortsRead(parts[..n]);
      PartSays(parts[n], PartPorts(parts[n]).value);
      lists := lists + [PartPorts(parts[n]).value];
    }
  }

  /** A specification is accepted exactly when every part between its commas says something or is blank and
      some port is named; then it stands for the ports said, without the repetitions. */
  lemma PortListIff(spec: Text)
    ensures PortsIn(spec).Ok? <==> exists lists :: AllSay(Split(spec, 44), lists) && Flat(lists) != []
    ensures forall lists :: AllSay(Split(spec, 44), lists) && Flat(lists) != [] ==>
                              PortsIn(spec) == Ok(Dedup(Flat(lists)))
  {
    hide Says, Split, Flat;
    var parts := Split(spec, COMMA);
    forall lists: seq<seq<Port>> | AllSay(parts, lists) ensures AllPorts(parts) == Ok(Flat(lists)) {
      AllPortsSay(parts, lists);
    }
    if PortsIn(spec).Ok? {
      var lists := AllPortsRead(parts);
      AllPortsSay(parts, lists);
      assert AllSay(Split(spec, 44), lists) && Flat(lists) != [];
    }
  }

  // ---- addresses ---------------------------------------------------------------------------

  /** `t` is an IPv4 address, perhaps with blanks around it. */
  ghost predicate IsV4(net: Net, t: Text, a: Address) {
    exists x, w, y :: Between(t, x, w, y) && (w == [] || IsWord(w))
                      && net.ip(w).Some? && To4(net.ip(w).value) == Some(a)
  }

  lemma IsV4Iff(net: Net, t: Text, a: Address)
    ensures IsV4(net, t, a) <==> ParsedV4(net, TrimSpace(t)) == Some(a)
  {
    hide TrimSpace, IsWord, To4;
    var x, y := Trimmed(t);
    if x', w, y' :| Between(t, x', w, y') && (w == [] || IsWord(w))
                    && net.ip(w).Some? && To4(net.ip(w).value) == Some(a) {
      TrimmedIs(t, x', w, y');
    }
  }

  /** The addresses from `first` to `last`; none when the range runs backwards. */
  ghost predicate Spans(list: seq<Address>, first: Address, last: Address) {
    && (Value(last) < Value(first) ==> list == [])
    && (Value(first) <= Value(last) ==>
          && Value(last) - Value(first) < 65536 && Value(last) != 0xFFFF_FFFF
          && |list| == Value(last) - Value(first) + 1
          && forall i :: 0 <= i < |list| ==> |list[i]| == 4 && Value(list[i]) == Value(first) + i)
  }

  /** Two IPv4 addresses with a dash between them. */
  ghost predicate Ends(net: Net, t: Text, first: Address, last: Address) {
    exists i :: DashAt(t, i) && IsV4(net, t[..i], first) && IsV4(net, t[i + 1..], last)
  }

  lemma EndsIff(net: Net, t: Text, first: Address, last: Address)
    requires 45 in t
    ensures var i := IndexOf(t, DASH);
            && i < |t|
            && (Ends(net, t, first, last) <==> && ParsedV4(net, TrimSpace(t[..i])) == Some(first)
                                               && ParsedV4(net, TrimSpace(t[i + 1..])) == Some(last))
  {
    hide IsV4, ParsedV4, TrimSpace, IndexOf, DashAt;
    FirstDash(t);
    var i := IndexOf(t, DASH);
    IsV4Iff(net, t[..i], first);
    IsV4Iff(net, t[i + 1..], last);
  }

  /** What a part of a target stands for, without the blanks around it: a network when there is a slash, a
      range of IPv4 addresses when there is a dash and no slash, and otherwise one address, which is four
      bytes long when it can be. */
  ghost predicate WordStands(net: Net, t: Text, list: seq<Address>)
    requires Sound(net)
  {
    if 47 in t then net.cidr(t).Some? && HostsOf(list, net.cidr(t).value.0, net.cidr(t).value.1)
    else if 45 in t then exists first, last :: Ends(net, t, first, last) && Spans(list, first, last)
    else
      && net.ip(t).Some? && |list| == 1
      && list[0] == if To4(net.ip(t).value).Some? then To4(net.ip(t).value).value else net.ip(t).value
  }

  /** A blank part stands for nothing. */
  ghost predicate Stands(net: Net, part: Text, list: seq<Address>)
    requires Sound(net)
  {
    || (IsBlank(part) && list == [])
    || exists x, t, y :: Between(part, x, t, y) && IsWord(t) && WordStands(net, t, list)
  }

  lemma RangeStands(net: Net, part: Text, list: seq<Address>)
    requires Sound(net) && TrimSpace(part) != [] && 47 !in TrimSpace(part) && 45 in TrimSpace(part)
    ensures PartMeans(PartOf(net, part), Ok(list)) <==> WordStands(net, TrimSpace(part), list)
  {
    hide IsV4, To4, TrimSpace, IndexOf, Ends, Value;
    var t := TrimSpace(part);
    var i := IndexOf(t, DASH);
    FirstDash(t);
    forall first, last
      ensures Ends(net, t, first, last) <==> && ParsedV4(net, TrimSpace(t[..i])) == Some(first)
                                             && ParsedV4(net, TrimSpace(t[i + 1..])) == Some(last)
    {
      EndsIff(net, t, first, last);
    }
    assert Pow256(4) == 0x1_0000_0000;
  }

  lemma OthersStand(net: Net, part: Text, list: seq<Address>)
    requires Sound(net) && Wellformed(PartOf(net, part))
    requires TrimSpace(part) != [] && (47 in TrimSpace(part) || 45 !in TrimSpace(part))
    ensures PartMeans(PartOf(net, part), Ok(list)) <==> WordStands(net, TrimSpace(part), list)
  {
    hide To4, TrimSpace, HostsOf;
    assert |list| == 1 ==> list == [list[0]];
  }

  lemma PartStands(net: Net, part: Text, list: seq<Address>)
    requires Sound(net) && Wellformed(PartOf(net, part))
    ensures PartMeans(PartOf(net, part), Ok(list)) <==> Stands(net, part, list)
  {
    hide TrimSpace, Between, IsBlank, WordStands;
    var x, y := Trimmed(part);
    var t := TrimSpace(part);
    forall x', t', y' | Between(part, x', t', y') && IsWord(t') ensures t' == t { TrimmedIs(part, x', t', y'); }
    if t != [] {
      hide PartOf, PartMeans;
      if 47 !in t && 45 in t { RangeStands(net, part, list); } else { OthersStand(net, part, list); }
    }
  }

  ghost predicate AllStand(net: Net, parts: seq<Text>, lists: seq<seq<Address>>)
    requires Sound(net)
  {
    |lists| == |parts| && forall i :: 0 <= i < |parts| ==> Stands(net, parts[i], lists[i])
  }

  lemma {:induction false} FlatIsConcat(lists: seq<seq<Address>>)
    ensures Flat(lists) == Concat(lists)
  {
    if lists != [] { FlatIsConcat(lists[..|lists| - 1]); }
  }

  /** The addresses of the parts between the commas, one part after the other; there must be some. */
  ghost predicate Denotes(net: Net, target: Text, ips: seq<Address>)
    requires Sound(net)
  {
    ips != [] && exists lists :: AllStand(net, Split(target, 44), lists) && ips == Flat(lists)
  }

  /** A target stands for addresses exactly when every part between its commas does or is blank and some
      address is left; then it stands for those of its parts, one part after the other. It is refused
      otherwise. */
  lemma TargetIff(net: Net, target: Text, ips: seq<Address>)
    requires Sound(net) && Countable(net, target)
    ensures TargetMeans(net, target, Ok(ips)) <==> Denotes(net, target, ips)
    ensures TargetMeans(net, target, Err) ==> !Denotes(net, target, ips)
  {
    hide PartOf, PartMeans, Wellformed, Split, Flat, Stands, Concat;
    var texts := Split(target, COMMA);
    forall i, list | 0 <= i < |texts|
      ensures PartMeans(PartOf(net, texts[i]), Ok(list)) <==> Stands(net, texts[i], list)
    {
      assert texts[i] in texts;
      PartStands(net, texts[i], list);
    }
    if lists :| Meant(net, texts, lists) && ips == Concat(lists) {
      FlatIsConcat(lists);
      assert AllStand(net, texts, lists);
    }
    if lists :| AllStand(net, texts, lists) && ips == Flat(lists) {
      FlatIsConcat(lists);
      assert Meant(net, texts, lists);
      if ips != [] && TargetMeans(net, target, Err) { TargetMeansOne(net, target, Ok(ips), Err); }
    }
  }
}
