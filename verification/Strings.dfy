/** The pieces of Go's `strings`, `strconv` and `fmt` the repository leans on, over ASCII text. */
module Strings {
  import opened Bytes
  import opened Wrappers

  const SLASH: byte := 47
  const COMMA: byte := 44
  const DASH: byte := 45
  const COLON: byte := 58
  const NEWLINE: byte := 10

  type Port = p: int | 0 <= p < 65536

  predicate IsDigit(b: byte) { 48 <= b <= 57 }

  predicate IsSpace(b: byte) { 9 <= b <= 13 || b == 32 }

  ghost predicate NoSpace(s: Text) { forall i :: 0 <= i < |s| ==> !IsSpace(s[i]) }

  ghost predicate AllDigits(s: Text) { forall i :: 0 <= i < |s| ==> IsDigit(s[i]) }

  // ---- decimal numbers ---------------------------------------------------------------------

  /** `%d` of a natural number. */
  function Decimal(n: nat): (s: Text)
    ensures s != [] && AllDigits(s)
    ensures |s| == 1 ==> s[0] as int == 48 + n
    ensures |s| > 1 ==> s[0] != 48
  {
    if n < 10 then [(48 + n) as byte] else Decimal(n / 10) + [(48 + n % 10) as byte]
  }

  /** The number a run of digits denotes. */
  function DigitsValue(s: Text): nat
    requires AllDigits(s)
  {
    if s == [] then 0 else DigitsValue(s[..|s| - 1]) * 10 + (s[|s| - 1] - 48) as nat
  }

  lemma {:induction false} DecimalValue(n: nat)
    ensures DigitsValue(Decimal(n)) == n
  {
    if n >= 10 {
      DecimalValue(n / 10);
      assert Decimal(n)[..|Decimal(n)| - 1] == Decimal(n / 10);
    }
  }

  /** How many leading bytes of `s` are digits. */
  function DigitRun(s: Text): (n: nat)
    ensures n <= |s| && AllDigits(s[..n])
    ensures n < |s| ==> !IsDigit(s[n])
  {
    if s == [] || !IsDigit(s[0]) then 0 else
      var m := DigitRun(s[1..]);
      assert s[..1 + m] == [s[0]] + s[1..][..m];
      1 + m
  }

  /** `strconv.ParseUint(s, 10, 16)`. */
  function ParseUint16(s: Text): Result<Port> {
    if s == [] || DigitRun(s) != |s| then Err
    else
      assert s[..|s|] == s;
      if DigitsValue(s) < 65536 then Ok(DigitsValue(s)) else Err
  }

  lemma ParseUintOfDecimal(p: Port)
    ensures ParseUint16(Decimal(p)) == Ok(p)
  {
    DecimalValue(p);
  }

  function Zeros(k: nat): (s: Text)
    ensures AllDigits(s)
  {
    seq(k, _ => 48)
  }

  /** Every run of digits is some zeros and then the decimal of its value. */
  lemma {:induction false} DigitsAre(s: Text) returns (k: nat)
    requires s != [] && AllDigits(s)
    ensures s == Zeros(k) + Decimal(DigitsValue(s))
  {
    var n := |s| - 1;
    var t, d := s[..n], s[n];
    assert s == t + [d];
    if n == 0 {
      k := 0;
      assert DigitsValue(t) == 0;
    } else {
      k := DigitsAre(t);
      if DigitsValue(t) == 0 {
        k := k + 1;
        assert t == Zeros(k);
      } else {
        assert Decimal(DigitsValue(s)) == Decimal(DigitsValue(t)) + [d];
      }
    }
  }

  lemma {:induction false} ZerosAddNothing(k: nat, p: nat)
    ensures AllDigits(Zeros(k) + Decimal(p)) && DigitsValue(Zeros(k) + Decimal(p)) == p
  {
    var s := Zeros(k) + Decimal(p);
    if p >= 10 {
      ZerosAddNothing(k, p / 10);
      assert s[..|s| - 1] == Zeros(k) + Decimal(p / 10);
    } else {
      ZerosAreZero(k);
      assert s[..|s| - 1] == Zeros(k);
    }
  }

  lemma {:induction false} ZerosAreZero(k: nat)
    ensures DigitsValue(Zeros(k)) == 0
  {
    if k > 0 {
      ZerosAreZero(k - 1);
      assert Zeros(k)[..k - 1] == Zeros(k - 1);
    }
  }

  /** A text reads as a port exactly when it is that port in decimal, behind any number of zeros. */
  lemma ParseUintIff(s: Text, p: Port)
    ensures ParseUint16(s) == Ok(p) <==> exists k :: s == Zeros(k) + Decimal(p)
  {
    if ParseUint16(s) == Ok(p) {
      assert s[..|s|] == s;
      var k := DigitsAre(s);
    }
    if k :| s == Zeros(k) + Decimal(p) { ZerosAddNothing(k, p); }
  }

  // ---- port keys ---------------------------------------------------------------------------

  /** `fmt.Sprintf("%d/%s", port, proto)`. */
  function PortKey(port: Port, proto: Text): Text {
    Decimal(port) + [SLASH] + proto
  }

  /** `fmt` skips blanks before an operand and gives up at a newline. */
  function SkipSpace(s: Text): Option<Text> {
    if s == [] then Some([])
    else if s[0] == NEWLINE then None
    else if IsSpace(s[0]) then SkipSpace(s[1..])
    else Some(s)
  }

  /** The longest prefix without whitespace. */
  function Token(s: Text): (t: Text)
    ensures NoSpace(t)
  {
    if s == [] || IsSpace(s[0]) then [] else [s[0]] + Token(s[1..])
  }

  /** `fmt.Sscanf(s, "%d/%s", &port, &proto)` with its error ignored: operands that were not
      reached keep their zero value. */
  function ScanPortKey(s: Text): (Port, Text) {
    match SkipSpace(s)
    case None => (0, [])
    case Some(t) =>
      var n := DigitRun(t);
      if n == 0 || DigitsValue(t[..n]) >= 65536 then (0, [])
      else
        var port := DigitsValue(t[..n]);
        if n == |t| || t[n] != SLASH then (port, [])
        else match SkipSpace(t[n + 1..])
             case None => (port, [])
             case Some(u) => (port, Token(u))
  }

  lemma {:induction false} TokenAll(s: Text)
    requires NoSpace(s)
    ensures Token(s) == s
  {
    if s != [] {
      assert !IsSpace(s[0]);
      TokenAll(s[1..]);
    }
  }

  /** Appending a non-digit ends the run of digits. */
  lemma {:induction false} DigitRunStops(d: Text, rest: Text)
    requires AllDigits(d) && rest != [] && !IsDigit(rest[0])
    ensures DigitRun(d + rest) == |d|
  {
    if d == [] {
      assert d + rest == rest;
    } else {
      assert (d + rest)[1..] == d[1..] + rest;
      DigitRunStops(d[1..], rest);
    }
  }

  /** Scanning a port key gives back the port, and gives back the protocol exactly when that
      protocol holds no whitespace. */
  lemma ScanPortKeyRoundTrip(port: Port, proto: Text)
    ensures ScanPortKey(PortKey(port, proto)).0 == port
    ensures ScanPortKey(PortKey(port, proto)).1 == proto <==> NoSpace(proto)
  {
    KeyScans(port, proto);
    if NoSpace(proto) {
      if proto != [] { assert !IsSpace(proto[0]); }
      TokenAll(proto);
    }
  }

  lemma {:induction false} SkipBlanks(x: Text, s: Text)
    requires forall i :: 0 <= i < |x| ==> x[i] == 32 || x[i] == 9 || 11 <= x[i] <= 13
    ensures SkipSpace(x + s) == SkipSpace(s)
  {
    if x == [] {
      assert x + s == s;
    } else {
      SkipBlanks(x[1..], s);
      assert (x + s)[0] == x[0] && (x + s)[1..] == x[1..] + s;
    }
  }

  lemma {:induction false} TokenStops(w: Text, rest: Text)
    requires NoSpace(w) && (rest == [] || IsSpace(rest[0]))
    ensures Token(w + rest) == w
  {
    if w == [] {
      assert w + rest == rest;
    } else {
      assert (w + rest)[0] == w[0] && (w + rest)[1..] == w[1..] + rest && !IsSpace(w[0]);
      TokenStops(w[1..], rest);
    }
  }

  /** Of a protocol with whitespace the first word is scanned, or nothing when a newline comes before it. */
  lemma ScannedProtocol(port: Port, x: Text, w: Text, rest: Text)
    requires forall i :: 0 <= i < |x| ==> x[i] == 32 || x[i] == 9 || 11 <= x[i] <= 13
    requires NoSpace(w) && (rest == [] || rest[0] == 32 || 9 <= rest[0] <= 13)
    ensures w != [] ==> ScanPortKey(PortKey(port, x + (w + rest))).1 == w
    ensures w == [] && rest != [] && rest[0] == 10 ==> ScanPortKey(PortKey(port, x + (w + rest))).1 == []
  {
    hide Decimal, SkipSpace, Token, DigitRun;
    var proto := x + (w + rest);
    KeyScans(port, proto);
    SkipBlanks(x, w + rest);
    if w != [] {
      TokenStops(w, rest);
      assert !IsSpace(w[0]) && (w + rest)[0] == w[0];
      NothingToSkip(w + rest);
    } else {
      assert w + rest == rest;
      NothingToSkip(rest);
    }
  }

  lemma NothingToSkip(s: Text)
    ensures s != [] && !IsSpace(s[0]) ==> SkipSpace(s) == Some(s)
    ensures s != [] && s[0] == 10 ==> SkipSpace(s) == None
  {}

  lemma KeyScans(port: Port, proto: Text)
    ensures ScanPortKey(PortKey(port, proto)) ==
            (match SkipSpace(proto) case None => (port, []) case Some(u) => (port, Token(u)))
  {
    var d := Decimal(port);
    var k := PortKey(port, proto);
    assert k == d + ([SLASH] + proto);
    DigitRunStops(d, [SLASH] + proto);
    assert IsDigit(k[0]) by { assert k[0] == d[0]; }
    assert SkipSpace(k) == Some(k);
    assert k[..|d|] == d && k[|d|] == SLASH && k[|d| + 1..] == proto;
    DecimalValue(port);
  }

  lemma PortKeyInjective(p: Port, s: Text, q: Port, t: Text)
    requires PortKey(p, s) == PortKey(q, t)
    ensures p == q && s == t
  {
    var k := PortKey(p, s);
    assert k == Decimal(p) + ([SLASH] + s) == Decimal(q) + ([SLASH] + t);
    DigitRunStops(Decimal(p), [SLASH] + s);
    DigitRunStops(Decimal(q), [SLASH] + t);
    assert Decimal(p) == k[..|Decimal(p)|] == Decimal(q);
    assert s == k[|Decimal(p)| + 1..] == t;
    DecimalValue(p);
    DecimalValue(q);
  }

  // ---- case and substrings -----------------------------------------------------------------

  function LowerByte(b: byte): byte { if 65 <= b <= 90 then b + 32 else b }

  /** `strings.ToLower` */
  function ToLower(s: Text): (t: Text)
    ensures |t| == |s| && forall i :: 0 <= i < |s| ==> t[i] == LowerByte(s[i])
  {
    seq(|s|, i requires 0 <= i < |s| => LowerByte(s[i]))
  }

  ghost predicate IsLower(s: Text) { ToLower(s) == s }

  /** `strings.Contains` */
  predicate Contains(s: Text, sub: Text) {
    sub <= s || (s != [] && Contains(s[1..], sub))
  }

  /** `strings.TrimSpace` */
  function TrimSpace(s: Text): Text {
    if s == [] then []
    else if IsSpace(s[0]) then TrimSpace(s[1..])
    else if IsSpace(s[|s| - 1]) then TrimSpace(s[..|s| - 1])
    else s
  }

  /** Index of the first `sep`, or |s| when there is none. */
  function IndexOf(s: Text, sep: byte): (i: nat)
    ensures i <= |s| && sep !in s[..i]
    ensures i < |s| ==> s[i] == sep
  {
    if s == [] || s[0] == sep then 0 else
      var j := IndexOf(s[1..], sep);
      assert s[..1 + j] == [s[0]] + s[1..][..j];
      1 + j
  }

  /** `strings.Split` on a one-byte separator. */
  function Split(s: Text, sep: byte): (parts: seq<Text>)
    ensures parts != []
    decreases |s|
  {
    var i := IndexOf(s, sep);
    if i == |s| then [s] else [s[..i]] + Split(s[i + 1..], sep)
  }

  // ---- what these amount to, on bytes ------------------------------------------------------

  /** The same byte, or the same letter in the other case. */
  predicate SameLetter(a: byte, b: byte) {
    a == b || (65 <= a <= 90 && b == a + 32) || (65 <= b <= 90 && a == b + 32)
  }

  predicate SameButCase(s: Text, t: Text) {
    |s| == |t| && forall i :: 0 <= i < |s| ==> SameLetter(s[i], t[i])
  }

  /** Lower-casing identifies texts that differ in the case of letters only. */
  lemma SameLowerIff(s: Text, t: Text)
    ensures ToLower(s) == ToLower(t) <==> SameButCase(s, t)
  {
    if ToLower(s) == ToLower(t) {
      forall i | 0 <= i < |s| ensures SameLetter(s[i], t[i]) { assert ToLower(s)[i] == ToLower(t)[i]; }
    }
  }

  predicate StandsAt(s: Text, sub: Text, i: int) {
    0 <= i <= |s| - |sub| && s[i..i + |sub|] == sub
  }

  /** `sub` stands somewhere in `s`. */
  predicate StandsIn(s: Text, sub: Text) { exists i :: 0 <= i <= |s| && StandsAt(s, sub, i) }

  lemma StandsInTail(s: Text, sub: Text, i: int)
    requires s != [] && i > 0
    ensures StandsAt(s, sub, i) <==> StandsAt(s[1..], sub, i - 1)
  {
    if i <= |s| - |sub| { assert s[1..][i - 1..i - 1 + |sub|] == s[i..i + |sub|]; }
  }

  lemma {:induction false} ContainsIff(s: Text, sub: Text)
    ensures Contains(s, sub) <==> StandsIn(s, sub)
  {
    if |sub| <= |s| { assert s[0..0 + |sub|] == s[..|sub|]; }
    assert sub <= s <==> StandsAt(s, sub, 0);
    if s != [] {
      ContainsIff(s[1..], sub);
      if i :| 0 < i <= |s| && StandsAt(s, sub, i) { StandsInTail(s, sub, i); }
      if i :| 0 <= i <= |s| - 1 && StandsAt(s[1..], sub, i) { StandsInTail(s, sub, i + 1); }
    }
  }

  /** Only spaces, tabs, newlines, vertical tabs, form feeds and carriage returns. */
  predicate IsBlank(s: Text) { forall i :: 0 <= i < |s| ==> s[i] == 32 || 9 <= s[i] <= 13 }

  /** `t` is what is left of `s` between the blanks `a` and `b`. */
  predicate Between(s: Text, a: Text, t: Text, b: Text) {
    s == a + (t + b) && IsBlank(a) && IsBlank(b)
  }

  lemma BlankInFront(s: Text, a: Text, t: Text, b: Text)
    requires s != [] && IsBlank([s[0]]) && Between(s[1..], a, t, b)
    ensures Between(s, [s[0]] + a, t, b)
  {
    assert s == [s[0]] + s[1..] == ([s[0]] + a) + (t + b);
    assert [s[0]][0] == s[0];
  }

  lemma BlankBehind(s: Text, a: Text, t: Text, b: Text)
    requires s != [] && IsBlank([s[|s| - 1]]) && Between(s[..|s| - 1], a, t, b)
    ensures Between(s, a, t, b + [s[|s| - 1]])
  {
    var x := s[|s| - 1];
    assert s == s[..|s| - 1] + [x] == a + (t + (b + [x]));
    assert [x][0] == x;
  }

  lemma OneBlank(x: byte)
    ensures IsBlank([x]) <==> IsSpace(x)
  {
    assert [x][0] == x;
  }

  /** Trimming takes blanks off both ends, and leaves none there. */
  lemma {:induction false} TrimIs(s: Text) returns (a: Text, b: Text)
    ensures var t := TrimSpace(s);
            Between(s, a, t, b) && (t != [] ==> !IsBlank([t[0]]) && !IsBlank([t[|t| - 1]]))
  {
    hide Between, IsBlank, IsSpace;
    a, b := [], [];
    if s == [] {
      NoBlanks(s);
    } else {
      OneBlank(s[0]);
      OneBlank(s[|s| - 1]);
      if IsSpace(s[0]) {
        a, b := TrimIs(s[1..]);
        BlankInFront(s, a, TrimSpace(s[1..]), b);
        a := [s[0]] + a;
      } else if IsSpace(s[|s| - 1]) {
        a, b := TrimIs(s[..|s| - 1]);
        BlankBehind(s, a, TrimSpace(s[..|s| - 1]), b);
        b := b + [s[|s| - 1]];
      } else {
        NoBlanks(s);
      }
    }
  }

  lemma NoBlanks(s: Text)
    ensures Between(s, [], s, [])
  {
    assert [] + (s + []) == s;
  }

  /** The parts put together again, with the separator between them. */
  function Joining(parts: seq<Text>, sep: byte): Text
    requires parts != []
  {
    if |parts| == 1 then parts[0] else parts[0] + [sep] + Joining(parts[1..], sep)
  }

  /** Splitting takes a text apart at every separator. */
  lemma {:induction false} SplitIs(s: Text, sep: byte)
    ensures Joining(Split(s, sep), sep) == s
    ensures forall part :: part in Split(s, sep) ==> sep !in part
    decreases |s|
  {
    var i := IndexOf(s, sep);
    if i < |s| {
      SplitIs(s[i + 1..], sep);
      assert s == s[..i] + [sep] + s[i + 1..];
      assert Split(s, sep)[1..] == Split(s[i + 1..], sep);
    } else {
      assert s[..|s|] == s;
    }
  }

  /** 80/tcp as the store's key. */
  lemma KeyOfPort80()
    ensures PortKey(80, [116, 99, 112]) == [56, 48, 47, 116, 99, 112]
  {
    assert Decimal(80) == Decimal(8) + [48];
  }
}
