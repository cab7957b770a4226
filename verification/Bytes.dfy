/** Byte strings as Go sees them: the order of `bytes.Compare` and the big-endian
    number a byte string denotes. */
module Bytes {

  newtype byte = x: int | 0 <= x < 256

  /** A Go string: any sequence of bytes. */
  type Text = seq<byte>

  /** `a` sorts strictly before `b`, byte by byte, a proper prefix first. */
  predicate Less(a: seq<byte>, b: seq<byte>) {
    b != [] && (a == [] || a[0] < b[0] || (a[0] == b[0] && Less(a[1..], b[1..])))
  }

  lemma LessIrreflexive(a: seq<byte>)
    ensures !Less(a, a)
  {}

  lemma {:induction false} LessTransitive(a: seq<byte>, b: seq<byte>, c: seq<byte>)
    requires Less(a, b) && Less(b, c)
    ensures Less(a, c)
  {
    if a != [] && a[0] == b[0] && b[0] == c[0] {
      LessTransitive(a[1..], b[1..], c[1..]);
    }
  }

  lemma LessAsymmetric(a: seq<byte>, b: seq<byte>)
    requires Less(a, b)
    ensures !Less(b, a) && a != b
  {
    if Less(b, a) {
      LessTransitive(a, b, a);
    }
    LessIrreflexive(a);
  }

  lemma {:induction false} LessTotal(a: seq<byte>, b: seq<byte>)
    ensures Less(a, b) || a == b || Less(b, a)
  {
    if a != [] && b != [] && a[0] == b[0] {
      LessTotal(a[1..], b[1..]);
      assert a == [a[0]] + a[1..] && b == [b[0]] + b[1..];
    }
  }

  /** At `i` the texts differ for the first time, and `a` has the smaller byte. */
  predicate SmallerAt(a: seq<byte>, b: seq<byte>, i: int) {
    0 <= i < |a| && i < |b| && a[..i] == b[..i] && a[i] < b[i]
  }

  lemma SmallerInTail(a: seq<byte>, b: seq<byte>, i: int)
    requires a != [] && b != [] && a[0] == b[0] && i > 0
    ensures SmallerAt(a, b, i) <==> SmallerAt(a[1..], b[1..], i - 1)
  {
    if i < |a| && i < |b| {
      var c, d := a[1..][..i - 1], b[1..][..i - 1];
      assert a[..i] == [a[0]] + c && b[..i] == [a[0]] + d;
      assert a[..i][1..] == c && b[..i][1..] == d;
    }
  }

  lemma SmallerPastHead(a: seq<byte>, b: seq<byte>, i: int)
    requires a != [] && b != [] && a[0] != b[0] && i > 0
    ensures !SmallerAt(a, b, i)
  {
    if i < |a| && i < |b| {
      var c, d := a[..i], b[..i];
      assert c[0] == a[0] && d[0] == b[0];
    }
  }

  /** What sorting first means: being a proper prefix, or the smaller byte at the first difference. */
  lemma {:induction false} LessIff(a: seq<byte>, b: seq<byte>)
    ensures Less(a, b) <==> a < b || exists i :: SmallerAt(a, b, i)
  {
    if a != [] && b != [] {
      assert a[..0] == b[..0];
      if a[0] == b[0] {
        LessIff(a[1..], b[1..]);
        assert a == [a[0]] + a[1..] && b == [a[0]] + b[1..];
        if i :| SmallerAt(a, b, i) { SmallerInTail(a, b, i); }
        if i :| SmallerAt(a[1..], b[1..], i) { SmallerInTail(a, b, i + 1); }
      } else {
        assert a[0] < b[0] <==> SmallerAt(a, b, 0);
        forall i | i > 0 ensures !SmallerAt(a, b, i) { SmallerPastHead(a, b, i); }
      }
    }
  }

  function Pow256(n: nat): (p: nat)
    ensures p > 0
  {
    if n == 0 then 1 else 256 * Pow256(n - 1)
  }

  /** The number a byte string denotes, most significant byte first. */
  function Value(s: seq<byte>): nat {
    if s == [] then 0 else s[0] as nat * Pow256(|s| - 1) + Value(s[1..])
  }

  lemma {:induction false} ValueBound(s: seq<byte>)
    ensures Value(s) < Pow256(|s|)
  {
    if s != [] {
      ValueBound(s[1..]);
      DigitGap(s[0] as nat, 256, Pow256(|s| - 1), Value(s[1..]), 0);
    }
  }

  lemma {:induction false} MulMonotone(x: nat, y: nat, p: nat)
    requires x <= y
    ensures x * p <= y * p
  {
    if p > 0 {
      MulMonotone(x, y, p - 1);
      assert x * p == x * (p - 1) + x && y * p == y * (p - 1) + y;
    }
  }

  /** A larger leading digit outweighs anything below it. */
  lemma DigitGap(d: nat, e: nat, p: nat, low: nat, low': nat)
    requires d < e && low < p
    ensures d * p + low < e * p + low'
  {
    MulMonotone(d + 1, e, p);
    assert (d + 1) * p == d * p + p;
  }

  lemma {:induction false} ValueSnoc(s: seq<byte>, b: byte)
    ensures Value(s + [b]) == Value(s) * 256 + b as nat
  {
    if s == [] {
      assert s + [b] == [b];
    } else {
      ValueSnoc(s[1..], b);
      assert (s + [b])[1..] == s[1..] + [b];
      assert (s + [b])[0] == s[0];
      assert s[0] as nat * (256 * Pow256(|s| - 1)) == 256 * (s[0] as nat * Pow256(|s| - 1));
    }
  }

  /** On byte strings of one length, byte order is numeric order. */
  lemma {:induction false} LessIsNumeric(a: seq<byte>, b: seq<byte>)
    requires |a| == |b|
    ensures Less(a, b) <==> Value(a) < Value(b)
  {
    if a != [] {
      var p := Pow256(|a| - 1);
      ValueBound(a[1..]);
      ValueBound(b[1..]);
      LessIsNumeric(a[1..], b[1..]);
      if a[0] < b[0] {
        DigitGap(a[0] as nat, b[0] as nat, p, Value(a[1..]), Value(b[1..]));
      } else if b[0] < a[0] {
        DigitGap(b[0] as nat, a[0] as nat, p, Value(b[1..]), Value(a[1..]));
      }
    }
  }

  lemma ValueInjective(a: seq<byte>, b: seq<byte>)
    requires |a| == |b| && Value(a) == Value(b)
    ensures a == b
  {
    LessTotal(a, b);
    LessIsNumeric(a, b);
    LessIsNumeric(b, a);
  }

  /** The low `len` bytes of `n`, most significant first: `binary.BigEndian.PutUint64` for len 8. */
  function Encode(n: nat, len: nat): (s: seq<byte>)
    ensures |s| == len
  {
    if len == 0 then [] else Encode(n / 256, len - 1) + [(n % 256) as byte]
  }

  lemma {:induction false} EncodeValue(n: nat, len: nat)
    requires n < Pow256(len)
    ensures Value(Encode(n, len)) == n
  {
    if len > 0 {
      EncodeValue(n / 256, len - 1);
      ValueSnoc(Encode(n / 256, len - 1), (n % 256) as byte);
    }
  }
}
