/** Address arithmetic on byte arrays: counting through ranges and CIDR blocks, and port lists. */
module IpRange {
  import opened Bytes
  import opened Strings
  import opened Wrappers

  type Address = seq<byte>

  const MAX_HOSTS: nat := 65536

  /** The twelve bytes before an IPv4 address written in sixteen. */
  const V4_IN_V6: Address := [0, 0, 0, 0, 0, 0, 0, 0, 0, 0, 255, 255]

  // ---- counting ----------------------------------------------------------------------------

  /** The address after `s`, wrapping at the top. */
  function Next(s: Address): (t: Address)
    ensures |t| == |s|
  {
    if s == [] then []
    else if s[|s| - 1] == 255 then Next(s[..|s| - 1]) + [0]
    else s[..|s| - 1] + [s[|s| - 1] + 1]
  }

  lemma {:induction false} NextValue(s: Address)
    ensures Value(Next(s)) == if Value(s) + 1 == Pow256(|s|) then 0 else Value(s) + 1
  {
    if s != [] {
      var n := |s| - 1;
      assert s == s[..n] + [s[n]];
      ValueSnoc(s[..n], s[n]);
      ValueBound(s[..n]);
      if s[n] == 255 {
        NextValue(s[..n]);
        ValueSnoc(Next(s[..n]), 0);
      } else {
        ValueSnoc(s[..n], s[n] + 1);
      }
    }
  }

  /** The bytes of `cur` from `n` on are those of the next address after `s`, if the carry gets there. */
  ghost predicate CarriedTo(s: Address, cur: Address, n: nat) {
    |cur| == |s| && n <= |s| && cur[..n] == s[..n] && Next(s[..n]) + cur[n..] == Next(s)
  }

  lemma CarryStarts(s: Address)
    ensures CarriedTo(s, s, |s|)
  {
    assert s[..|s|] == s && s[|s|..] == [];
  }

  lemma CarryOn(s: Address, cur: Address, n: nat)
    requires 0 < n && CarriedTo(s, cur, n) && cur[n - 1] == 255
    ensures CarriedTo(s, cur[n - 1 := 0], n - 1)
  {
    hide Next;
    NextDigit(s, n - 1, cur[n..]);
    assert cur[n - 1] == cur[..n][n - 1] == s[n - 1];
    var cur' := cur[n - 1 := 0];
    assert cur'[n - 1..] == [0] + cur[n..];
    assert cur'[..n - 1] == cur[..n][..n - 1] == s[..n - 1];
  }

  lemma CarryEnds(s: Address, cur: Address, n: nat)
    requires 0 < n && CarriedTo(s, cur, n) && cur[n - 1] != 255
    ensures cur[n - 1 := cur[n - 1] + 1] == Next(s)
  {
    hide Next;
    NextDigit(s, n - 1, cur[n..]);
    assert cur[n - 1] == cur[..n][n - 1] == s[n - 1];
    assert cur[..n - 1] == cur[..n][..n - 1] == s[..n - 1];
    assert cur[n - 1 := cur[n - 1] + 1] == cur[..n - 1] + ([cur[n - 1] + 1] + cur[n..]);
  }

  lemma CarryOver(s: Address, cur: Address)
    requires CarriedTo(s, cur, 0)
    ensures cur == Next(s)
  {
    assert s[..0] == [] && cur[0..] == cur;
    assert [] + cur == cur;
  }

  /** What the byte at `i` does to the address, with `tail` behind it done. */
  lemma NextDigit(s: Address, i: nat, tail: seq<byte>)
    requires i < |s|
    ensures Next(s[..i + 1]) + tail ==
            if s[i] == 255 then Next(s[..i]) + ([0] + tail) else s[..i] + ([s[i] + 1] + tail)
  {
    assert s[..i + 1][..i] == s[..i] && s[..i + 1][i] == s[i];
  }

  /** Byte by byte from the right, carrying while a byte wraps to zero. */
  method IncrementIP(ip: array<byte>)
    modifies ip
    ensures ip[..] == Next(old(ip[..]))
  {
    hide CarriedTo, Next;
    ghost var s := ip[..];
    var i := ip.Length - 1;
    CarryStarts(s);
    while i >= 0
      invariant -1 <= i < ip.Length
      invariant CarriedTo(s, ip[..], i + 1)
    {
      ghost var cur := ip[..];
      if ip[i] == 255 {
        CarryOn(s, cur, i + 1);
        ip[i] := 0;
        assert ip[..] == cur[i := 0];
      } else {
        CarryEnds(s, cur, i + 1);
        ip[i] := ip[i] + 1;
        assert ip[..] == cur[i := cur[i] + 1];
        return;
      }
      i := i - 1;
    }
    CarryOver(s, ip[..]);
  }

  /** `after`: the first differing byte decides. */
  method After(a: Address, b: Address) returns (r: bool)
    requires |a| == |b|
    ensures r <==> Value(a) > Value(b)
  {
    LessIsNumeric(b, a);
    for i := 0 to |a|
      invariant Less(b[i..], a[i..]) <==> Less(b, a)
    {
      assert a[i..][1..] == a[i + 1..] && b[i..][1..] == b[i + 1..];
      if a[i] > b[i] { return true; }
      if a[i] < b[i] { return false; }
    }
    return false;
  }

  // ---- ranges ------------------------------------------------------------------------------

  /** `count` addresses of `width` bytes from number `first` on. */
  ghost predicate Consecutive(list: seq<Address>, first: nat, count: nat, width: nat) {
    |list| == count && forall i :: 0 <= i < count ==> |list[i]| == width && Value(list[i]) == first + i
  }

  /** Such a list is the only one. */
  lemma ConsecutiveIsUnique(a: seq<Address>, b: seq<Address>, first: nat, count: nat, width: nat)
    requires Consecutive(a, first, count, width) && Consecutive(b, first, count, width)
    ensures a == b
  {
    forall i | 0 <= i < count ensures a[i] == b[i] { ValueInjective(a[i], b[i]); }
  }

  /** A range read from two parsed IPv4 addresses. It succeeds exactly when both were valid and the range
      is empty, or holds at most 65536 addresses and does not end at the very last address (where the
      counter wraps and the size limit is what stops it); then it lists the addresses in order. */
  method ParseRange(start: Option<Address>, end: Option<Address>) returns (r: Result<seq<Address>>)
    requires start.Some? ==> |start.value| == 4
    requires end.Some? ==> |end.value| == 4
    ensures r.Ok? <==>
              && start.Some? && end.Some?
              && (Value(start.value) > Value(end.value) ||
                  (Value(end.value) - Value(start.value) < 65536 && Value(end.value) + 1 != Pow256(4)))
    ensures r.Ok? ==>
              var size := Value(end.value) - Value(start.value) + 1;
              Consecutive(r.value, Value(start.value), if size < 0 then 0 else size, 4)
  {
    if start.None? || end.None? { return Err; }
    var first, last := start.value, end.value;
    ValueBound(first);
    ValueBound(last);
    var addr := new byte[4](i requires 0 <= i < 4 => first[i]);
    assert addr[..] == first;
    var ips := [];
    var beyond := After(addr[..], last);
    ghost var endless := Value(last) + 1 == Pow256(4);
    while !beyond
      invariant |ips| <= MAX_HOSTS
      invariant beyond <==> Value(addr[..]) > Value(last)
      invariant !endless ==> Consecutive(ips, Value(first), |ips|, 4) && Value(addr[..]) == Value(first) + |ips|
      invariant !endless && ips != [] ==> Value(first) + |ips| <= Value(last) + 1
      decreases MAX_HOSTS - |ips|
    {
      ips := ips + [addr[..]];
      if |ips| > MAX_HOSTS { return Err; }
      NextValue(addr[..]);
      IncrementIP(addr);
      ValueBound(addr[..]);
      beyond := After(addr[..], last);
    }
    ValueBound(addr[..]);
    return Ok(ips);
  }

  // ---- CIDR blocks -------------------------------------------------------------------------

  function Pow2(n: nat): (p: nat)
    ensures p > 0
  {
    if n == 0 then 1 else 2 * Pow2(n - 1)
  }

  lemma ModAtMost(x: nat, d: nat)
    requires d > 0
    ensures 0 <= x % d <= x
  {
    assert x == x / d * d + x % d;
    MulMonotone(0, x / d, d);
  }

  /** `b & m` for the mask byte `m` whose top `k` bits are set. */
  function MaskByte(b: byte, k: nat): byte
    requires k <= 8
  {
    ModAtMost(b as nat, Pow2(8 - k));
    (b as int - b as int % Pow2(8 - k)) as byte
  }

  function Min(a: nat, b: nat): nat { if a < b then a else b }

  /** `ip.Mask(net.CIDRMask(ones, 8 * len(ip)))`, byte by byte. */
  function Masked(s: Address, ones: nat): (m: Address)
    ensures |m| == |s|
  {
    if s == [] then []
    else [MaskByte(s[0], Min(ones, 8))] + Masked(s[1..], if ones < 8 then 0 else ones - 8)
  }

  /** `net.IP.To4`: the four bytes of an IPv4 address, also when it is written in sixteen. */
  function To4(ip: Address): Option<Address> {
    if |ip| == 4 then Some(ip)
    else if |ip| == 16 && ip[..12] == V4_IN_V6 then Some(ip[12..])
    else None
  }

  function Short(ip: Address): Address { match To4(ip) case Some(a) => a case None => ip }

  /** `ipNet.Contains(addr)` for the network with masked address `base`: both addresses are shortened to
      four bytes where they can be, and addresses of different length never match. */
  predicate InNetwork(base: Address, ones: nat, addr: Address) {
    var number, x := Short(base), Short(addr);
    var bits := if |number| == |base| then ones else if ones < 96 then 0 else ones - 96;
    |x| == |number| && Masked(x, bits) == Masked(number, bits)
  }

  lemma {:induction false} Pow2Add(a: nat, b: nat)
    ensures Pow2(a + b) == Pow2(a) * Pow2(b)
  {
    if a > 0 {
      Pow2Add(a - 1, b);
      assert Pow2(a) * Pow2(b) == 2 * (Pow2(a - 1) * Pow2(b));
    }
  }

  lemma {:induction false} Pow256IsPow2(n: nat)
    ensures Pow256(n) == Pow2(8 * n)
  {
    if n > 0 {
      Pow256IsPow2(n - 1);
      Pow2Add(8, 8 * (n - 1));
      assert Pow2(8) == 256;
    }
  }

  /** The remainder of x modulo d, pinned down by a quotient. */
  lemma RemainderIs(x: nat, d: nat, q: nat, r: nat)
    requires d > 0 && x == q * d + r && r < d
    ensures x % d == r
  {
    assert (x / d + 1) * d == x / d * d + d && (q + 1) * d == q * d + d;
    if x / d < q {
      MulMonotone(x / d + 1, q, d);
    } else if q < x / d {
      MulMonotone(q + 1, x / d, d);
    }
  }

  /** Masking clears the host part: the value drops to the nearest multiple of the block size. */
  lemma {:induction false} MaskedValue(s: Address, ones: nat)
    requires ones <= 8 * |s|
    ensures Value(Masked(s, ones)) == Value(s) - Value(s) % Pow2(8 * |s| - ones)
  {
    if s != [] {
      if ones >= 8 {
        MaskedValue(s[1..], ones - 8);
        MaskedWhole(s, ones);
      } else {
        MaskedPart(s, ones);
      }
    }
  }

  /** A leading byte the mask keeps. */
  lemma MaskedWhole(s: Address, ones: nat)
    requires s != [] && 8 <= ones <= 8 * |s|
    requires var t := s[1..]; Value(Masked(t, ones - 8)) == Value(t) - Value(t) % Pow2(8 * |t| - (ones - 8))
    ensures Value(Masked(s, ones)) == Value(s) - Value(s) % Pow2(8 * |s| - ones)
  {
    hide Pow2, Pow256;
    var t := s[1..];
    var b := Pow2(8 * |t| - (ones - 8));
    Pow256IsPow2(|t|);
    Pow2Add(ones - 8, 8 * |t| - (ones - 8));
    WholeByte(s[0]);
    assert Masked(s, ones)[1..] == Masked(t, ones - 8);
    HighPart(s[0] as nat, Pow2(ones - 8), b, Value(t));
  }

  lemma {:induction false} MaskedAway(s: Address)
    ensures Value(Masked(s, 0)) == 0
  {
    if s != [] {
      MaskedAway(s[1..]);
      assert Masked(s, 0)[1..] == Masked(s[1..], 0);
      assert Pow2(8) == 256;
      assert MaskByte(s[0], 0) == 0;
    }
  }

  /** A leading byte the mask cuts, or clears. */
  lemma MaskedPart(s: Address, ones: nat)
    requires s != [] && ones < 8
    ensures Value(Masked(s, ones)) == Value(s) - Value(s) % Pow2(8 * |s| - ones)
  {
    hide Pow2, Pow256, Value, MaskByte, Masked;
    var h, p, v, c := s[0] as nat, Pow256(|s| - 1), Value(s[1..]), Pow2(8 - ones);
    ValueHead(s);
    ValueBound(s[1..]);
    MaskedPartValue(s, ones);
    BlockSize(|s|, ones);
    LowMasked(h, c, p, v);
  }

  lemma BlockSize(n: nat, ones: nat)
    requires n > 0 && ones < 8
    ensures Pow2(8 * n - ones) == Pow2(8 - ones) * Pow256(n - 1)
  {
    Pow256IsPow2(n - 1);
    Pow2Add(8 - ones, 8 * (n - 1));
  }

  lemma MaskedPartValue(s: Address, ones: nat)
    requires s != [] && ones < 8
    ensures Value(Masked(s, ones)) == (s[0] as nat - s[0] as nat % Pow2(8 - ones)) * Pow256(|s| - 1)
  {
    hide Value, Pow256, Pow2;
    var m := Masked(s, ones);
    assert m[1..] == Masked(s[1..], 0);
    MaskedAway(s[1..]);
    ValueHead(m);
  }

  lemma ValueHead(s: Address)
    requires s != []
    ensures Value(s) == s[0] as nat * Pow256(|s| - 1) + Value(s[1..])
  {}

  lemma LowMasked(h: nat, c: nat, p: nat, v: nat)
    requires c > 0 && v < p
    ensures (h - h % c) * p == (h * p + v) - (h * p + v) % (c * p)
  {
    LowPart(h, c, p, v);
    ModAtMost(h, c);
    MulDistributes(h, h % c, p);
  }

  lemma WholeByte(b: byte)
    ensures MaskByte(b, 8) == b
  {
    assert Pow2(0) == 1;
  }

  lemma AllLow(v: nat, p: nat)
    requires v < p
    ensures v % p == v
  {}

  lemma MulDistributes(h: nat, l: nat, p: nat)
    requires l <= h
    ensures (h - l) * p == h * p - l * p
  {}

  lemma HighPart(h: nat, k: nat, b: nat, v: nat)
    requires b > 0
    ensures (h * (k * b) + v) % b == v % b
  {
    assert h * (k * b) == (h * k) * b;
    assert v == v / b * b + v % b;
    assert (h * k + v / b) * b == (h * k) * b + v / b * b;
    RemainderIs(h * (k * b) + v, b, h * k + v / b, v % b);
  }

  lemma LowPart(h: nat, c: nat, p: nat, v: nat)
    requires c > 0 && v < p
    ensures (h * p + v) % (c * p) == (h % c) * p + v
  {
    var q, l := h / c, h % c;
    assert h == q * c + l;
    assert h * p == q * (c * p) + l * p;
    MulMonotone(l + 1, c, p);
    assert (l + 1) * p == l * p + p;
    RemainderIs(h * p + v, c * p, q, l * p + v);
  }

  /** Two addresses with the same network part, one of them the first of its block. */
  lemma SameNetworkPart(first: Address, ones: nat, addr: Address)
    requires |addr| == |first| && ones <= 8 * |first| && Value(first) % Pow2(8 * |first| - ones) == 0
    ensures Masked(addr, ones) == Masked(first, ones) <==>
            Value(first) <= Value(addr) < Value(first) + Pow2(8 * |first| - ones)
  {
    hide Masked, Pow2, Value;
    MaskedValue(first, ones);
    MaskedValue(addr, ones);
    SameBlock(Value(first), Value(addr), Pow2(8 * |first| - ones));
    if Value(Masked(addr, ones)) == Value(Masked(first, ones)) {
      ValueInjective(Masked(addr, ones), Masked(first, ones));
    }
  }

  lemma SameBlock(x: nat, y: nat, b: nat)
    requires b > 0
    ensures x - x % b == y - y % b <==> x - x % b <= y < x - x % b + b
  {
    assert x - x % b == x / b * b;
    if x - x % b <= y < x - x % b + b {
      RemainderIs(y, b, x / b, y - x / b * b);
    }
  }

  // ---- where a network lies ----------------------------------------------------------------

  /** The first number of the network, and how many addresses its prefix leaves. */
  function First(ip: Address, ones: nat): nat { Value(Masked(ip, ones)) }

  function Size(ip: Address, ones: nat): (n: nat)
    requires ones <= 8 * |ip|
    ensures n > 0
  {
    Pow2(8 * |ip| - ones)
  }

  /** `addr` is one of the addresses the prefix leaves. */
  predicate InBlock(ip: Address, ones: nat, addr: Address)
    requires ones <= 8 * |ip|
  {
    First(ip, ones) <= Value(addr) < First(ip, ones) + Size(ip, ones)
  }

  /** Every block starts at a multiple of its size and ends at the top or below. */
  lemma BlockFits(ip: Address, ones: nat)
    requires ones <= 8 * |ip|
    ensures First(ip, ones) % Size(ip, ones) == 0
    ensures First(ip, ones) + Size(ip, ones) <= Pow256(|ip|)
    ensures ones > 0 ==> Size(ip, ones) < Pow256(|ip|)
    ensures ones == 0 ==> First(ip, ones) == 0 && Size(ip, ones) == Pow256(|ip|)
  {
    hide Masked, Value;
    var b, k := Pow2(8 * |ip| - ones), Pow2(ones);
    Pow256IsPow2(|ip|);
    Pow2Add(ones, 8 * |ip| - ones);
    MaskedValue(ip, ones);
    ValueBound(ip);
    FitsBelow(Value(ip), b, k);
    if ones == 0 { AllLow(Value(ip), b); }
  }

  lemma FitsBelow(v: nat, b: nat, k: nat)
    requires b > 0 && k > 0 && v < k * b
    ensures (v - v % b) % b == 0
    ensures v - v % b + b <= k * b
    ensures k >= 2 ==> b < k * b
  {
    var q := v / b;
    assert v == q * b + v % b;
    RemainderIs(v - v % b, b, q, 0);
    assert (q + 1) * b == q * b + b;
    if q >= k { MulMonotone(k, q, b); } else { MulMonotone(q + 1, k, b); }
    if k >= 2 { MulMonotone(2, k, b); }
  }

  // ---- IPv4 addresses among the sixteen-byte ones ------------------------------------------

  const FOUR_BYTES: nat := 0x1_0000_0000

  /** The number of `::ffff:0:0`. */
  const V4_START: nat := 65535 * FOUR_BYTES

  lemma {:induction false} ValueAppend(a: Address, b: Address)
    ensures Value(a + b) == Value(a) * Pow256(|b|) + Value(b)
  {
    if b == [] {
      assert a + b == a;
    } else {
      var n := |b| - 1;
      ValueAppend(a, b[..n]);
      ValueSnoc(a + b[..n], b[n]);
      ValueSnoc(b[..n], b[n]);
      assert a + b == (a + b[..n]) + [b[n]] && b == b[..n] + [b[n]];
      Carry(Value(a), Pow256(n), Value(b[..n]));
    }
  }

  lemma Carry(a: nat, p: nat, v: nat)
    ensures (a * p + v) * 256 == a * (256 * p) + v * 256
  {}

  lemma PrefixValue()
    ensures Value(V4_IN_V6) == 65535 && Pow256(4) == FOUR_BYTES
  {
    var zeros: Address := seq(10, _ => 0);
    assert V4_IN_V6 == (zeros + [255]) + [255];
    ZerosValue(10);
    ValueSnoc(zeros, 255);
    ValueSnoc(zeros + [255], 255);
  }

  lemma {:induction false} ZerosValue(n: nat)
    ensures Value(seq(n, _ => 0)) == 0
  {
    if n > 0 {
      var zeros: Address := seq(n, _ => 0);
      assert zeros[1..] == seq(n - 1, _ => 0);
      ZerosValue(n - 1);
    }
  }

  /** The IPv4 addresses are one interval of the sixteen-byte numbers. */
  lemma MappedIff(addr: Address)
    requires |addr| == 16
    ensures To4(addr).Some? <==> V4_START <= Value(addr) < V4_START + FOUR_BYTES
    ensures To4(addr).Some? ==> Value(addr) == V4_START + Value(addr[12..])
  {
    hide Value, Pow256;
    var high, low := addr[..12], addr[12..];
    assert addr == high + low;
    ValueAppend(high, low);
    ValueBound(low);
    PrefixValue();
    if Value(high) == 65535 { ValueInjective(high, V4_IN_V6); }
  }

  /** A network that starts at an IPv4 address lies among them. */
  lemma MappedNetwork(ip: Address, ones: nat)
    requires |ip| == 16 && ones <= 128 && To4(Masked(ip, ones)).Some?
    ensures ones >= 96 && Size(ip, ones) == Pow2(128 - ones)
    ensures Masked(ip, ones)[12..] == Masked(ip[12..], ones - 96)
  {
    hide Masked, Value, Pow256;
    BlockFits(ip, ones);
    MappedIff(Masked(ip, ones));
    if ones < 96 {
      Pow256IsPow2(4);
      PrefixValue();
      Pow2Add(96 - ones, 32);
      OddBase(First(ip, ones), 96 - ones);
    }
    MaskedDrop(ip, ones, 12);
  }

  /** No network larger than the interval starts in it: 65535 is odd. */
  lemma OddBase(first: nat, j: nat)
    requires j > 0 && V4_START <= first < V4_START + FOUR_BYTES
    ensures first % (Pow2(j) * FOUR_BYTES) != 0
  {
    if first % (Pow2(j) * FOUR_BYTES) == 0 { IsEven(first, j); }
  }

  lemma IsEven(first: nat, j: nat)
    requires j > 0 && first % (Pow2(j) * FOUR_BYTES) == 0
    ensures first % (2 * FOUR_BYTES) == 0
  {
    var h, d := Pow2(j - 1), Pow2(j) * FOUR_BYTES;
    var q := first / d;
    assert first == q * d;
    Regroup(q, h, FOUR_BYTES);
    RemainderIs(first, 2 * FOUR_BYTES, q * h, 0);
  }

  lemma Regroup(q: nat, h: nat, f: nat)
    ensures q * (2 * h * f) == (q * h) * (2 * f)
  {}

  lemma {:induction false} MaskedDrop(s: Address, ones: nat, k: nat)
    requires k <= |s| && 8 * k <= ones
    ensures Masked(s, ones)[k..] == Masked(s[k..], ones - 8 * k)
  {
    if k > 0 {
      MaskedDrop(s[1..], ones - 8, k - 1);
      assert Masked(s, ones)[1..] == Masked(s[1..], ones - 8);
      assert Masked(s, ones)[k..] == Masked(s, ones)[1..][k - 1..] && s[k..] == s[1..][k - 1..];
    } else {
      assert s[0..] == s;
    }
  }

  // ---- what a network contains -------------------------------------------------------------

  predicate IsWidth(n: nat) { n == 4 || n == 16 }

  /** A network contains the addresses of its block, but no IPv4 address unless it starts at one. */
  lemma NetworkIs(ip: Address, ones: nat, addr: Address)
    requires IsWidth(|ip|) && |addr| == |ip| && ones <= 8 * |ip|
    ensures var base := Masked(ip, ones);
            InNetwork(base, ones, addr) <==> InBlock(ip, ones, addr) && (To4(base).Some? || To4(addr).None?)
  {
    hide Masked, Value, Pow2, Pow256;
    var base := Masked(ip, ones);
    BlockFits(ip, ones);
    if |ip| == 16 && To4(base).Some? {
      MappedContains(ip, ones, addr);
    } else if |ip| == 4 || To4(addr).None? {
      SameNetworkPart(base, ones, addr);
    }
  }

  lemma MappedContains(ip: Address, ones: nat, addr: Address)
    requires |ip| == 16 && |addr| == 16 && ones <= 128 && To4(Masked(ip, ones)).Some?
    ensures InNetwork(Masked(ip, ones), ones, addr) <==> InBlock(ip, ones, addr)
  {
    hide Masked, Value, Pow2;
    var base := Masked(ip, ones);
    MappedNetwork(ip, ones);
    MappedIff(base);
    MappedIff(addr);
    BlockFits(ip[12..], ones - 96);
    PrefixValue();
    if To4(addr).Some? {
      SameNetworkPart(base[12..], ones - 96, addr[12..]);
    }
  }

  // ---- how far the counting loop gets ------------------------------------------------------

  /** How many addresses are counted before the network is left: the whole block, unless a block that
      starts before the IPv4 addresses runs into them. */
  function Reached(ip: Address, ones: nat): nat
    requires ones <= 8 * |ip|
  {
    if |ip| == 16 && First(ip, ones) < V4_START < First(ip, ones) + Size(ip, ones) then V4_START - First(ip, ones)
    else Size(ip, ones)
  }

  ghost predicate Endless(ip: Address, ones: nat) { |ip| == 4 && ones == 0 }

  /** The counter after `n` rounds is in the network exactly while `n` is less than that. */
  lemma CountedWhile(ip: Address, ones: nat, addr: Address, n: nat)
    requires IsWidth(|ip|) && |addr| == |ip| && ones <= 8 * |ip| && !Endless(ip, ones) && n <= Reached(ip, ones)
    requires Value(addr) == if First(ip, ones) + n == Pow256(|ip|) then 0 else First(ip, ones) + n
    ensures InNetwork(Masked(ip, ones), ones, addr) <==> n < Reached(ip, ones)
  {
    hide Masked, Value, Pow2, Pow256, InNetwork, To4;
    NetworkIs(ip, ones, addr);
    if |ip| == 4 { Shortest(Masked(ip, ones)); }
    BlockFits(ip, ones);
    if |ip| == 16 {
      MappedIff(addr);
      MappedIff(Masked(ip, ones));
      V4Fits();
    }
  }

  lemma Shortest(ip: Address)
    requires |ip| == 4
    ensures To4(ip) == Some(ip)
  {}

  lemma V4Fits()
    ensures V4_START + FOUR_BYTES <= Pow256(16)
  {
    Pow256IsPow2(16);
    Pow256IsPow2(6);
    Pow2Add(48, 80);
    PrefixValue();
    assert Pow256(6) == 65536 * Pow256(4);
  }

  /** The address `n` places after `s`. */
  function Nth(s: Address, n: nat): (t: Address)
    ensures |t| == |s|
  {
    if n == 0 then s else Next(Nth(s, n - 1))
  }

  lemma {:induction false} NthValue(s: Address, n: nat)
    requires Value(s) + n <= Pow256(|s|)
    ensures Value(Nth(s, n)) == if Value(s) + n == Pow256(|s|) then 0 else Value(s) + n
  {
    if n > 0 {
      NthValue(s, n - 1);
      NextValue(Nth(s, n - 1));
    } else {
      ValueBound(s);
    }
  }

  /** The counting loop comes to an end exactly when the block is not the whole of IPv4. */
  lemma LoopEndsIff(ip: Address, ones: nat)
    requires IsWidth(|ip|) && ones <= 8 * |ip|
    ensures (exists n: nat :: !InNetwork(Masked(ip, ones), ones, Nth(Masked(ip, ones), n))) <==> !Endless(ip, ones)
  {
    hide Masked, Value, Pow2, InNetwork, Nth;
    var base := Masked(ip, ones);
    BlockFits(ip, ones);
    if Endless(ip, ones) {
      forall n: nat ensures InNetwork(base, ones, Nth(base, n)) {
        NetworkIs(ip, ones, Nth(base, n));
        ValueBound(Nth(base, n));
        assert To4(base).Some?;
      }
    } else {
      var n := Reached(ip, ones);
      NthValue(base, n);
      CountedWhile(ip, ones, Nth(base, n), n);
    }
  }

  /** The loop lists the whole block exactly when the block starts at an IPv4 address or holds none. */
  lemma WholeBlockIff(ip: Address, ones: nat)
    requires IsWidth(|ip|) && ones <= 8 * |ip|
    ensures Reached(ip, ones) == Size(ip, ones) <==>
              To4(Masked(ip, ones)).Some? || (forall a :: |a| == |ip| && InBlock(ip, ones, a) ==> To4(a).None?)
  {
    hide Masked, Value, Pow2;
    var base := Masked(ip, ones);
    if |ip| == 16 {
      MappedIff(base);
      if First(ip, ones) < V4_START < First(ip, ones) + Size(ip, ones) {
        var a := Encode(V4_START, 16);
        V4Fits();
        EncodeValue(V4_START, 16);
        MappedIff(a);
        assert InBlock(ip, ones, a);
      } else {
        forall a | |a| == 16 && InBlock(ip, ones, a) ensures To4(base).Some? || To4(a).None? { MappedIff(a); }
      }
    }
  }

  /** `::fffe:0:0/95` is such a block: half of its addresses are IPv4 addresses, and they are left out. */
  lemma CutShort()
    ensures var ip: Address := [0, 0, 0, 0, 0, 0, 0, 0, 0, 0, 255, 254, 0, 0, 0, 0];
            2 * Reached(ip, 95) == Size(ip, 95)
  {
    hide Value, Masked, Pow2;
    var ip: Address := [0, 0, 0, 0, 0, 0, 0, 0, 0, 0, 255, 254, 0, 0, 0, 0];
    CutShortValue(ip);
    TwoTimes();
    MaskedValue(ip, 95);
  }

  lemma TwoTimes()
    ensures Pow2(33) == 2 * FOUR_BYTES
  {
    PrefixValue();
    Pow256IsPow2(4);
  }

  lemma CutShortValue(ip: Address)
    requires ip == [0, 0, 0, 0, 0, 0, 0, 0, 0, 0, 255, 254, 0, 0, 0, 0]
    ensures Value(ip) == 65534 * FOUR_BYTES
  {
    hide Value, Pow256;
    var zeros: Address := seq(10, _ => 0);
    var high: Address := zeros + [255] + [254];
    var low: Address := seq(4, _ => 0);
    assert ip == high + low;
    ZerosValue(10);
    ZerosValue(4);
    ValueSnoc(zeros, 255);
    ValueSnoc(zeros + [255], 254);
    ValueAppend(high, low);
    PrefixValue();
  }

  /** The hosts of a network: for an IPv4 prefix below 31 without the first and the last address. */
  ghost predicate HostsOf(list: seq<Address>, ip: Address, ones: nat)
    requires ones <= 8 * |ip|
  {
    var first, count := First(ip, ones), Reached(ip, ones);
    if |ip| == 4 && ones < 31 && count > 2 then Consecutive(list, first + 1, count - 2, |ip|)
    else Consecutive(list, first, count, |ip|)
  }

  /** From the parsed address and prefix length. The loop counts from the network address until it leaves
      the network. */
  method ParseCIDR(ip: Address, ones: nat) returns (ips: seq<Address>)
    requires IsWidth(|ip|) && ones <= 8 * |ip| && !Endless(ip, ones)
    ensures HostsOf(ips, ip, ones)
    ensures |ip| == 4 && ones == 32 ==> |ips| == 1 && Value(ips[0]) == First(ip, ones)
    ensures |ip| == 4 && ones == 31 ==>
              |ips| == 2 && Value(ips[0]) == First(ip, ones) && Value(ips[1]) == First(ip, ones) + 1
    ensures |ip| == 4 && ones <= 30 ==>
              && |ips| == Size(ip, ones) - 2 && |ips| >= 2 && Value(ips[0]) == First(ip, ones) + 1
              && Value(ips[|ips| - 1]) == First(ip, ones) + Size(ip, ones) - 2
  {
    hide Masked, Value, Next, Pow256, Pow2, InNetwork, Reached;
    var base := Masked(ip, ones);
    ghost var first, count := First(ip, ones), Reached(ip, ones);
    ReachedFits(ip, ones);
    var addr := new byte[|base|](i requires 0 <= i < |base| => base[i]);
    assert addr[..] == base;
    CountedWhile(ip, ones, base, 0);
    ips := [];
    while InNetwork(base, ones, addr[..])
      invariant |ips| <= count && Consecutive(ips, first, |ips|, |ip|)
      invariant Value(addr[..]) == if first + |ips| == Pow256(|ip|) then 0 else first + |ips|
      invariant InNetwork(base, ones, addr[..]) <==> |ips| < count
      decreases count - |ips|
    {
      ips := ips + [addr[..]];
      NextValue(addr[..]);
      IncrementIP(addr);
      CountedWhile(ip, ones, addr[..], |ips|);
    }
    if |ip| == 4 && ones < 31 && |ips| > 2 {
      ips := ips[1..|ips| - 1];
    }
    CountsOfV4(ip, ones);
  }

  /** How many addresses an IPv4 network has. */
  lemma CountsOfV4(ip: Address, ones: nat)
    requires ones <= 8 * |ip|
    ensures |ip| == 4 ==> Reached(ip, ones) == Size(ip, ones) && (ones == 32 ==> Size(ip, ones) == 1)
    ensures |ip| == 4 ==> (ones == 31 ==> Size(ip, ones) == 2) && (ones <= 30 ==> Size(ip, ones) >= 4)
  {
    if |ip| == 4 && ones <= 30 {
      Pow2Add(2, 30 - ones);
      assert Pow2(2) == 4;
    }
    assert Pow2(0) == 1 && Pow2(1) == 2;
  }

  lemma ReachedFits(ip: Address, ones: nat)
    requires ones <= 8 * |ip|
    ensures Reached(ip, ones) > 0 && First(ip, ones) + Reached(ip, ones) <= Pow256(|ip|)
    ensures First(ip, ones) < Pow256(|ip|)
  {
    hide First, Size, Pow256;
    BlockFits(ip, ones);
  }

  // ---- target lists ------------------------------------------------------------------------

  /** `net.ParseIP`, whose addresses are sixteen bytes long, and `net.ParseCIDR`. */
  datatype Net = Net(ip: Text -> Option<Address>, cidr: Text -> Option<(Address, nat)>)

  ghost predicate Sound(net: Net) {
    && (forall t :: net.ip(t).Some? ==> |net.ip(t).value| == 16)
    && (forall t :: net.cidr(t).Some? ==>
          IsWidth(|net.cidr(t).value.0|) && net.cidr(t).value.1 <= 8 * |net.cidr(t).value.0|)
  }

  /** One part of a target and the outcome of parsing the addresses in it. */
  datatype Part =
    | Blank
    | Single(ip: Option<Address>)
    | Cidr(net: Option<(Address, nat)>)
    | Range(start: Option<Address>, end: Option<Address>)

  function ParsedV4(net: Net, t: Text): Option<Address> {
    match net.ip(t) case Some(a) => To4(a) case None => None
  }

  /** A slash makes a network, a dash without a slash a range. */
  function PartOf(net: Net, text: Text): Part {
    var t := TrimSpace(text);
    if t == [] then Blank
    else if SLASH in t then Cidr(net.cidr(t))
    else if DASH in t then
      var i := IndexOf(t, DASH);
      Range(ParsedV4(net, TrimSpace(t[..i])), ParsedV4(net, TrimSpace(t[i + 1..])))
    else Single(match net.ip(t) case Some(a) => Some(Short(a)) case None => None)
  }

  ghost predicate Wellformed(p: Part) {
    match p
    case Blank => true
    case Single(_) => true
    case Cidr(net) =>
      net.Some? ==>
        IsWidth(|net.value.0|) && net.value.1 <= 8 * |net.value.0| && !Endless(net.value.0, net.value.1)
    case Range(s, e) => (s.Some? ==> |s.value| == 4) && (e.Some? ==> |e.value| == 4)
  }

  /** `r` is what one part stands for. */
  ghost predicate PartMeans(p: Part, r: Result<seq<Address>>)
    requires Wellformed(p)
  {
    match p
    case Blank => r == Ok([])
    case Single(ip) => r == (match ip case Some(a) => Ok([a]) case None => Err)
    case Cidr(net) => if net.Some? then r.Ok? && HostsOf(r.value, net.value.0, net.value.1) else r.Err?
    case Range(s, e) =>
      if s.None? || e.None? then r.Err?
      else
        var size := Value(e.value) - Value(s.value) + 1;
        if size <= 0 then r == Ok([])
        else if size <= MAX_HOSTS && Value(e.value) + 1 != Pow256(4) then
          r.Ok? && Consecutive(r.value, Value(s.value), size, 4)
        else r.Err?
  }

  method ParsePart(p: Part) returns (r: Result<seq<Address>>)
    requires Wellformed(p)
    ensures PartMeans(p, r)
  {
    match p {
      case Blank => r := Ok([]);
      case Single(ip) => r := match ip case Some(a) => Ok([a]) case None => Err;
      case Cidr(net) =>
        if net.None? { return Err; }
        var ips := ParseCIDR(net.value.0, net.value.1);
        r := Ok(ips);
      case Range(s, e) => r := ParseRange(s, e);
    }
  }

  function Concat(lists: seq<seq<Address>>): seq<Address> {
    if lists == [] then [] else Concat(lists[..|lists| - 1]) + lists[|lists| - 1]
  }

  /** The parts of a target; only a network that is all of IPv4 is excluded, since it is counted for ever. */
  ghost predicate Countable(net: Net, target: Text) {
    forall text :: text in Split(target, COMMA) ==> Wellformed(PartOf(net, text))
  }

  /** That is all it takes: every other target is countable. */
  lemma CountableIff(net: Net, target: Text)
    requires Sound(net)
    ensures Countable(net, target) <==>
              forall text :: text in Split(target, COMMA) && PartOf(net, text).Cidr? && PartOf(net, text).net.Some? ==>
                var (ip, ones) := PartOf(net, text).net.value; !Endless(ip, ones)
  {
    forall text ensures var p := PartOf(net, text);
                        Wellformed(p) || (p.Cidr? && p.net.Some? && Endless(p.net.value.0, p.net.value.1))
    {}
  }

  /** Each list is what the part at its place stands for. */
  ghost predicate Meant(net: Net, texts: seq<Text>, lists: seq<seq<Address>>)
    requires forall text :: text in texts ==> Wellformed(PartOf(net, text))
  {
    |lists| == |texts| && forall i :: 0 <= i < |texts| ==> PartMeans(PartOf(net, texts[i]), Ok(lists[i]))
  }

  /** `r` is what a target stands for: it fails as a whole when any part fails or no address is left;
      otherwise it lists the addresses of its parts one part after the other. */
  ghost predicate TargetMeans(net: Net, target: Text, r: Result<seq<Address>>)
    requires Countable(net, target)
  {
    var texts := Split(target, COMMA);
    match r
    case Ok(ips) => ips != [] && exists lists :: Meant(net, texts, lists) && ips == Concat(lists)
    case Err =>
      || (exists text :: text in texts && PartMeans(PartOf(net, text), Err))
      || (exists lists :: Meant(net, texts, lists) && Concat(lists) == [])
  }

  method Parse(net: Net, target: Text) returns (r: Result<seq<Address>>)
    requires Sound(net) && Countable(net, target)
    ensures TargetMeans(net, target, r)
  {
    hide PartOf, PartMeans, Wellformed;
    var result := [];
    ghost var lists := [];
    var texts := Split(target, COMMA);
    for i := 0 to |texts|
      invariant |lists| == i && forall j :: 0 <= j < i ==> PartMeans(PartOf(net, texts[j]), Ok(lists[j]))
      invariant result == Concat(lists)
    {
      assert texts[i] in texts;
      var ips := ParsePart(PartOf(net, texts[i]));
      if ips.Err? { return Err; }
      result := result + ips.value;
      assert (lists + [ips.value])[..i] == lists;
      lists := lists + [ips.value];
    }
    assert Meant(net, texts, lists);
    r := if result == [] then Err else Ok(result);
  }

  lemma PartMeansOne(p: Part, a: Result<seq<Address>>, b: Result<seq<Address>>)
    requires Wellformed(p) && PartMeans(p, a) && PartMeans(p, b)
    ensures a == b
  {
    match p {
      case Cidr(Some((ip, ones))) =>
        var first, count := First(ip, ones), Reached(ip, ones);
        if |ip| == 4 && ones < 31 && count > 2 {
          ConsecutiveIsUnique(a.value, b.value, first + 1, count - 2, |ip|);
        } else {
          ConsecutiveIsUnique(a.value, b.value, first, count, |ip|);
        }
      case Range(Some(s), Some(e)) =>
        if a.Ok? && Value(e) >= Value(s) {
          ConsecutiveIsUnique(a.value, b.value, Value(s), Value(e) - Value(s) + 1, 4);
        }
      case _ =>
    }
  }

  /** A target stands for one outcome only. */
  lemma TargetMeansOne(net: Net, target: Text, a: Result<seq<Address>>, b: Result<seq<Address>>)
    requires Countable(net, target) && TargetMeans(net, target, a) && TargetMeans(net, target, b)
    ensures a == b
  {
    hide PartOf, PartMeans, Wellformed;
    var texts := Split(target, COMMA);
    forall la, lb | Meant(net, texts, la) && Meant(net, texts, lb) ensures la == lb {
      forall i | 0 <= i < |texts| ensures la[i] == lb[i] {
        assert texts[i] in texts;
        PartMeansOne(PartOf(net, texts[i]), Ok(la[i]), Ok(lb[i]));
      }
    }
    forall la, text | Meant(net, texts, la) && text in texts ensures !PartMeans(PartOf(net, text), Err) {
      var i :| 0 <= i < |texts| && texts[i] == text;
      if PartMeans(PartOf(net, text), Err) { PartMeansOne(PartOf(net, text), Ok(la[i]), Err); }
    }
  }

  // ---- port lists --------------------------------------------------------------------------

  function UpTo(lo: Port, hi: Port): seq<Port>
    requires lo <= hi + 1
  {
    seq(hi - lo + 1, i requires 0 <= i < hi - lo + 1 => lo + i)
  }

  /** The ports one part of a specification stands for; nothing for a blank part. */
  function PartPorts(part: Text): Result<seq<Port>> {
    var t := TrimSpace(part);
    if t == [] then Ok([])
    else
      var i := IndexOf(t, DASH);
      if i == |t| then
        match ParseUint16(t) case Ok(p) => Ok([p]) case Err => Err
      else
        var lo, hi := ParseUint16(TrimSpace(t[..i])), ParseUint16(TrimSpace(t[i + 1..]));
        if lo.Err? || hi.Err? || lo.value > hi.value then Err else Ok(UpTo(lo.value, hi.value))
  }

  /** First occurrences only. */
  function Dedup(ps: seq<Port>): seq<Port> {
    if ps == [] then []
    else
      var rest := Dedup(ps[..|ps| - 1]);
      if ps[|ps| - 1] in rest then rest else rest + [ps[|ps| - 1]]
  }

  /** All ports of the parts in order, or an error when one part is bad. */
  function AllPorts(parts: seq<Text>): Result<seq<Port>> {
    if parts == [] then Ok([])
    else
      var rest, last := AllPorts(parts[..|parts| - 1]), PartPorts(parts[|parts| - 1]);
      if rest.Err? || last.Err? then Err else Ok(rest.value + last.value)
  }

  lemma {:induction false} AllPortsFails(parts: seq<Text>, i: nat)
    requires i <= |parts| && AllPorts(parts[..i]).Err?
    ensures AllPorts(parts).Err?
    decreases |parts| - i
  {
    if i < |parts| {
      assert parts[..i + 1][..i] == parts[..i];
      AllPortsFails(parts, i + 1);
    } else {
      assert parts[..i] == parts;
    }
  }

  lemma DedupSnoc(ps: seq<Port>, p: Port)
    ensures Dedup(ps + [p]) == if p in Dedup(ps) then Dedup(ps) else Dedup(ps) + [p]
  {
    assert (ps + [p])[..|ps|] == ps;
  }

  /** Deduplication keeps exactly the values of the list, each once. */
  lemma {:induction false} DedupIs(ps: seq<Port>)
    ensures Dedup(ps) == [] <==> ps == []
    ensures forall p :: p in Dedup(ps) <==> p in ps
    ensures forall i, j :: 0 <= i < j < |Dedup(ps)| ==> Dedup(ps)[i] != Dedup(ps)[j]
  {
    if ps != [] {
      DedupIs(ps[..|ps| - 1]);
      assert ps == ps[..|ps| - 1] + [ps[|ps| - 1]];
    }
  }

  /** Deduplicating more of a list only adds at the end, so first occurrences keep their order. */
  lemma {:induction false} DedupExtends(ps: seq<Port>, more: seq<Port>)
    ensures Dedup(ps) <= Dedup(ps + more)
  {
    if more == [] {
      assert ps + more == ps;
    } else {
      var n := |more| - 1;
      DedupExtends(ps, more[..n]);
      assert ps + more == (ps + more[..n]) + [more[n]];
      DedupSnoc(ps + more[..n], more[n]);
    }
  }

  /** The ports seen so far, with their membership map. */
  method AddPorts(seen: set<Port>, ports: seq<Port>, more: seq<Port>, ghost before: seq<Port>)
    returns (seen': set<Port>, ports': seq<Port>)
    requires ports == Dedup(before) && forall p :: p in seen <==> p in ports
    ensures ports' == Dedup(before + more) && forall p :: p in seen' <==> p in ports'
  {
    seen', ports' := seen, ports;
    assert before + [] == before;
    for i := 0 to |more|
      invariant ports' == Dedup(before + more[..i])
      invariant forall p :: p in seen' <==> p in ports'
    {
      assert before + more[..i + 1] == (before + more[..i]) + [more[i]];
      DedupSnoc(before + more[..i], more[i]);
      if more[i] !in seen' {
        seen', ports' := seen' + {more[i]}, ports' + [more[i]];
      }
    }
    assert more[..|more|] == more;
  }

  /** What a specification stands for: an error when a part is malformed, a range runs backwards or no port
      is named; otherwise each port it names once, in order of first mention. */
  function PortsIn(spec: Text): Result<seq<Port>> {
    var all := AllPorts(Split(spec, COMMA));
    if all.Err? || all.value == [] then Err else Ok(Dedup(all.value))
  }

  method ParsePorts(spec: Text) returns (r: Result<seq<Port>>)
    ensures r == PortsIn(spec)
    ensures r.Ok? ==> forall i, j :: 0 <= i < j < |r.value| ==> r.value[i] != r.value[j]
    ensures r.Ok? ==> forall p :: p in r.value <==> p in AllPorts(Split(spec, COMMA)).value
  {
    hide PartPorts, Split, Dedup;
    var seen: set<Port>, ports := {}, [];
    DedupIs([]);
    ghost var all := [];
    var parts := Split(spec, COMMA);
    for i := 0 to |parts|
      invariant AllPorts(parts[..i]) == Ok(all)
      invariant ports == Dedup(all) && forall p :: p in seen <==> p in ports
    {
      assert parts[..i + 1][..i] == parts[..i];
      var more := PartPorts(parts[i]);
      if more.Err? {
        AllPortsFails(parts, i + 1);
        return Err;
      }
      seen, ports := AddPorts(seen, ports, more.value, all);
      all := all + more.value;
    }
    assert parts[..|parts|] == parts;
    DedupIs(all);
    if ports == [] { return Err; }
    return Ok(ports);
  }

  // ---- writing a port list and reading it back ---------------------------------------------

  /** The ports in decimal, separated by commas. */
  function Joined(ports: seq<Port>): Text {
    if ports == [] then []
    else if |ports| == 1 then Decimal(ports[0])
    else Decimal(ports[0]) + ([COMMA] + Joined(ports[1..]))
  }

  function Decimals(ports: seq<Port>): seq<Text> {
    seq(|ports|, i requires 0 <= i < |ports| => Decimal(ports[i]))
  }

  lemma {:induction false} IndexOfPast(d: Text, sep: byte, rest: Text)
    requires sep !in d
    ensures IndexOf(d + ([sep] + rest), sep) == |d|
    ensures IndexOf(d, sep) == |d|
  {
    if d == [] {
      assert d + ([sep] + rest) == [sep] + rest;
    } else {
      assert (d + ([sep] + rest))[1..] == d[1..] + ([sep] + rest);
      IndexOfPast(d[1..], sep, rest);
    }
  }

  lemma SplitCons(d: Text, rest: Text)
    requires COMMA !in d
    ensures Split(d + ([COMMA] + rest), COMMA) == [d] + Split(rest, COMMA)
    ensures Split(d, COMMA) == [d]
  {
    var s := d + ([COMMA] + rest);
    IndexOfPast(d, COMMA, rest);
    assert s[..|d|] == d && s[|d| + 1..] == rest;
  }

  lemma {:induction false} SplitJoined(ports: seq<Port>)
    requires ports != []
    ensures Split(Joined(ports), COMMA) == Decimals(ports)
  {
    hide Split, Decimal;
    SplitCons(Decimal(ports[0]), if |ports| == 1 then [] else Joined(ports[1..]));
    if |ports| > 1 {
      SplitJoined(ports[1..]);
      assert Decimals(ports) == [Decimal(ports[0])] + Decimals(ports[1..]);
    }
  }

  lemma DecimalIsPart(p: Port)
    ensures PartPorts(Decimal(p)) == Ok([p])
  {
    var d := Decimal(p);
    assert IsDigit(d[0]) && IsDigit(d[|d| - 1]);
    assert TrimSpace(d) == d;
    IndexOfPast(d, DASH, []);
    ParseUintOfDecimal(p);
  }

  lemma {:induction false} AllPortsOfDecimals(ports: seq<Port>)
    ensures AllPorts(Decimals(ports)) == Ok(ports)
  {
    if ports != [] {
      var n := |ports| - 1;
      assert Decimals(ports)[..n] == Decimals(ports[..n]);
      AllPortsOfDecimals(ports[..n]);
      DecimalIsPart(ports[n]);
      assert ports == ports[..n] + [ports[n]];
    }
  }

  /** Writing out a list of ports and parsing it gives the list back without its repetitions. */
  lemma PortListRoundTrip(ports: seq<Port>)
    requires ports != []
    ensures PortsIn(Joined(ports)) == Ok(Dedup(ports))
    ensures (forall i, j :: 0 <= i < j < |ports| ==> ports[i] != ports[j]) ==> PortsIn(Joined(ports)) == Ok(ports)
  {
    SplitJoined(ports);
    AllPortsOfDecimals(ports);
    if forall i, j :: 0 <= i < j < |ports| ==> ports[i] != ports[j] { NothingToDrop(ports); }
  }

  lemma {:induction false} NothingToDrop(ports: seq<Port>)
    requires forall i, j :: 0 <= i < j < |ports| ==> ports[i] != ports[j]
    ensures Dedup(ports) == ports
  {
    if ports != [] {
      var n := |ports| - 1;
      NothingToDrop(ports[..n]);
      assert ports == ports[..n] + [ports[n]];
    }
  }
}
