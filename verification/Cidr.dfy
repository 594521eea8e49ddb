/** IP addresses and CIDR blocks: any spelling parsed once to bytes and a family, and only bytes compared. */
module Cidr {
  import opened Wrappers

  type Str = string

  /** 4 bytes (family 4) or 16 bytes (family 6). */
  datatype Ip = Ip(family: nat, bytes: seq<int>)

  datatype Block = Block(family: nat, bytes: seq<int>, prefix: nat)

  predicate Bytes(b: seq<int>, n: nat)
  {
    |b| == n && forall i :: 0 <= i < n ==> 0 <= b[i] < 256
  }

  predicate IpOk(ip: Ip)
  {
    (ip.family == 4 && Bytes(ip.bytes, 4)) || (ip.family == 6 && Bytes(ip.bytes, 16))
  }

  predicate BlockOk(b: Block)
  {
    (b.family == 4 && Bytes(b.bytes, 4) && b.prefix <= 32) || (b.family == 6 && Bytes(b.bytes, 16) && b.prefix <= 128)
  }

  // ---------------------------------------------------------------- digits

  predicate HexDigit(c: char)
  {
    '0' <= c <= '9' || 'a' <= c <= 'f'
  }

  function DigitValue(c: char): (v: nat)
    ensures v < 16
  {
    if '0' <= c <= '9' then c as int - '0' as int else if 'a' <= c <= 'f' then 10 + (c as int - 'a' as int) else 0
  }

  function Digit(v: nat): (c: char)
    requires v < 16
    ensures HexDigit(c) && DigitValue(c) == v && (v < 10 ==> '0' <= c <= '9')
  {
    if v < 10 then '0' + v as char else 'a' + (v - 10) as char
  }

  /** The value a string of digits names in a base. */
  function Value(s: Str, base: nat): nat
  {
    if s == [] then 0 else Value(s[..|s| - 1], base) * base + DigitValue(s[|s| - 1])
  }

  /** `x.toString(base)`: no leading zero, lower case. */
  function Numeral(x: nat, base: nat): (s: Str)
    requires 2 <= base <= 16
    decreases x
  {
    if x < base then [Digit(x)] else Numeral(x / base, base) + [Digit(x % base)]
  }

  predicate DigitsOf(s: Str, base: nat)
  {
    forall i :: 0 <= i < |s| ==> HexDigit(s[i]) && (base <= 10 ==> '0' <= s[i] <= '9')
  }

  lemma ValueSnoc(s: Str, c: char, base: nat)
    ensures Value(s + [c], base) == Value(s, base) * base + DigitValue(c)
  {
    assert (s + [c])[..|s|] == s;
  }

  lemma NumeralSnoc(x: nat, base: nat)
    requires 2 <= base <= 16 && x >= base
    ensures Numeral(x, base) == Numeral(x / base, base) + [Digit(x % base)]
  {
  }

  lemma OneDigit(x: nat, base: nat)
    requires 2 <= base <= 16 && x < base
    ensures var s := Numeral(x, base); Value(s, base) == x && |s| == 1 && DigitsOf(s, base) && (x > 0 ==> s[0] != '0')
  {
    assert [Digit(x)] == [] + [Digit(x)];
    ValueSnoc([], Digit(x), base);
  }

  lemma DigitsSnoc(s: Str, v: nat, base: nat)
    requires DigitsOf(s, base) && v < base <= 16
    ensures DigitsOf(s + [Digit(v)], base) && DigitValue(Digit(v)) == v
  {
  }

  lemma {:induction false} NumeralRoundTrip(x: nat, base: nat)
    requires 2 <= base <= 16
    ensures var s := Numeral(x, base);
            Value(s, base) == x && |s| >= 1 && DigitsOf(s, base) && (x > 0 ==> s[0] != '0')
    decreases x
  {
    if x < base {
      OneDigit(x, base);
    } else {
      hide *;
      Quotient(x, base);
      NumeralSnoc(x, base);
      var p := Numeral(x / base, base);
      NumeralRoundTrip(x / base, base);
      ValueSnoc(p, Digit(x % base), base);
      DigitsSnoc(p, x % base, base);
      assert (p + [Digit(x % base)])[0] == p[0];
    }
  }

  lemma Quotient(x: nat, base: nat)
    requires base >= 2 && x >= base
    ensures x / base * base + x % base == x && 0 < x / base < x && 0 <= x % base < base
  {
    assert x == base * (x / base) + x % base;
  }

  lemma HexLength(x: nat)
    requires x < 65536
    ensures |Numeral(x, 16)| <= 4
  {
    assert Power16(1) == 16 && Power16(2) == 256 && Power16(3) == 4096 && Power16(4) == 65536;
    HexShorter(x, 3);
  }

  /** Each sixteenfold is one digit. */
  lemma {:induction false} HexShorter(x: nat, n: nat)
    requires x < Power16(n + 1)
    ensures |Numeral(x, 16)| <= n + 1
    decreases n
  {
    if x >= 16 {
      assert n > 0;
      HexShorter(x / 16, n - 1);
    }
  }

  function Power16(n: nat): nat
  {
    if n == 0 then 1 else 16 * Power16(n - 1)
  }

  lemma {:induction false} ValueBound(s: Str)
    requires |s| <= 4
    ensures Value(s, 16) < 65536 && (|s| <= 3 ==> Value(s, 16) < 4096) && (|s| <= 2 ==> Value(s, 16) < 256) && (|s| <= 1 ==> Value(s, 16) < 16)
  {
    if s != [] { ValueBound(s[..|s| - 1]); }
  }

  // ---------------------------------------------------------------- splitting and joining

  /** Where `c` first stands in `s`, or its length. */
  function Find(s: Str, c: char): (k: nat)
    ensures k <= |s| && c !in s[..k] && (k < |s| ==> s[k] == c)
  {
    if s == [] || s[0] == c then 0
    else
      var k := Find(s[1..], c);
      assert s[..k + 1] == [s[0]] + s[1..][..k];
      k + 1
  }

  /** `s.split(c)` on one character. */
  function Split(s: Str, c: char): seq<Str>
    decreases |s|
  {
    var k := Find(s, c);
    if k == |s| then [s] else [s[..k]] + Split(s[k + 1..], c)
  }

  function Join(parts: seq<Str>, c: char): Str
  {
    if parts == [] then "" else if |parts| == 1 then parts[0] else parts[0] + [c] + Join(parts[1..], c)
  }

  lemma {:induction false} FindIs(a: Str, c: char, rest: Str)
    requires c !in a && (rest == [] || rest[0] == c)
    ensures Find(a + rest, c) == |a|
  {
    if a == [] {
      assert a + rest == rest;
    } else {
      assert a[0] in a && (a + rest)[1..] == a[1..] + rest;
      FindIs(a[1..], c, rest);
    }
  }

  /** Splitting what was joined gives the parts back, when none holds the separator. */
  lemma {:induction false} SplitJoin(parts: seq<Str>, c: char)
    requires parts != [] && forall p :: p in parts ==> c !in p
    ensures Split(Join(parts, c), c) == parts
  {
    assert parts[0] in parts;
    if |parts| == 1 {
      FindIs(parts[0], c, []);
      assert parts[0] + [] == parts[0] && parts == [parts[0]];
    } else {
      var rest := Join(parts[1..], c);
      SplitJoin(parts[1..], c);
      FindIs(parts[0], c, [c] + rest);
      assert parts[0] + [c] + rest == parts[0] + ([c] + rest);
      assert (parts[0] + [c] + rest)[|parts[0]| + 1..] == rest && (parts[0] + [c] + rest)[..|parts[0]|] == parts[0];
      assert parts == [parts[0]] + parts[1..];
    }
  }

  predicate DoubleAt(s: Str, k: int)
  {
    0 <= k && k + 1 < |s| && s[k] == ':' && s[k + 1] == ':'
  }

  /** Where "::" first stands in `s`, or its length. */
  function FindDouble(s: Str): (k: nat)
    ensures k <= |s| && (k < |s| ==> DoubleAt(s, k)) && forall j :: 0 <= j < k ==> !DoubleAt(s, j)
  {
    if |s| < 2 then |s|
    else if s[0] == ':' && s[1] == ':' then 0
    else
      var k := FindDouble(s[1..]);
      assert forall j :: 1 <= j < k + 1 ==> (DoubleAt(s, j) <==> DoubleAt(s[1..], j - 1));
      k + 1
  }

  /** `s.split("::")`. */
  function SplitDouble(s: Str): seq<Str>
    decreases |s|
  {
    var k := FindDouble(s);
    if k == |s| then [s] else [s[..k]] + SplitDouble(s[k + 2..])
  }

  // ---------------------------------------------------------------- parsing

  predicate Octet(p: Str)
  {
    1 <= |p| <= 3 && (forall i :: 0 <= i < |p| ==> '0' <= p[i] <= '9') && (|p| > 1 ==> p[0] != '0') && Value(p, 10) <= 255
  }

  /** Node's `net.isIPv4`: four decimal octets with no leading zero. */
  predicate IsIpv4(s: Str)
  {
    var p := Split(s, '.');
    |p| == 4 && forall i :: 0 <= i < 4 ==> Octet(p[i])
  }

  function Dotted(s: Str): (b: seq<int>)
    ensures IsIpv4(s) ==> Bytes(b, 4)
  {
    var p := Split(s, '.');
    seq(|p|, i requires 0 <= i < |p| => Value(p[i], 10))
  }

  function LowerChar(c: char): char
  {
    if 'A' <= c <= 'Z' then 'a' + (c - 'A') else c
  }

  function Lower(s: Str): (r: Str)
    ensures |r| == |s| && forall i :: 0 <= i < |s| ==> r[i] == LowerChar(s[i])
  {
    if s == [] then [] else Lower(s[..|s| - 1]) + [LowerChar(s[|s| - 1])]
  }

  /** The position after the last colon. */
  function AfterLastColon(s: Str): (k: nat)
    ensures k <= |s|
  {
    if s == [] then 0 else if s[|s| - 1] == ':' then |s| else AfterLastColon(s[..|s| - 1])
  }

  function Groups(h: Str): seq<Str>
  {
    if h == "" then [] else Split(h, ':')
  }

  predicate Group(g: Str)
  {
    1 <= |g| <= 4 && forall i :: 0 <= i < |g| ==> HexDigit(g[i])
  }

  function Zeros(n: nat): (r: seq<Str>)
    ensures |r| == n && forall i :: 0 <= i < n ==> r[i] == "0"
  {
    seq(n, _ => "0")
  }

  predicate EightGroups(all: seq<Str>)
  {
    |all| == 8 && forall i :: 0 <= i < 8 ==> Group(all[i])
  }

  /** The eight groups a literal without a dotted tail spells; the "::" of one literal stands for the missing ones. */
  function AllGroups(text: Str): (r: Option<seq<Str>>)
    ensures r.Some? ==> EightGroups(r.value)
  {
    var halves := SplitDouble(text);
    if |halves| > 2 then None
    else
      var head := Groups(halves[0]);
      var rest := if |halves| == 2 then Groups(halves[1]) else [];
      if |halves| == 2 && |head| + |rest| > 8 then None
      else if |halves| == 1 && |head| != 8 then None
      else
        var fill := if |halves| == 2 then 8 - |head| - |rest| else 0;
        var all := head + Zeros(fill) + rest;
        if EightGroups(all) then Some(all) else None
  }

  /** Two bytes a group, high byte first. */
  function GroupBytes(all: seq<Str>): (b: seq<int>)
    requires |all| == 8
    ensures |b| == 16 && forall i :: 0 <= i < 8 ==> b[2 * i] == Value(all[i], 16) / 256 && b[2 * i + 1] == Value(all[i], 16) % 256
  {
    seq(16, i requires 0 <= i < 16 => if i % 2 == 0 then Value(all[i / 2], 16) / 256 else Value(all[i / 2], 16) % 256)
  }

  lemma GroupBytesOk(all: seq<Str>)
    requires EightGroups(all)
    ensures Bytes(GroupBytes(all), 16)
  {
    hide Value;
    var b := GroupBytes(all);
    forall i | 0 <= i < 16 ensures 0 <= b[i] < 256
    {
      assert Group(all[i / 2]);
      ValueBound(all[i / 2]);
      assert b[2 * (i / 2)] == Value(all[i / 2], 16) / 256 && b[2 * (i / 2) + 1] == Value(all[i / 2], 16) % 256;
    }
  }

  /** `ipv6Bytes`: the 16 bytes of a literal, with or without an embedded dotted tail. */
  function Parse6(s: Str): Option<seq<int>>
  {
    var lower := Lower(s);
    var k := AfterLastColon(lower);
    if '.' in lower then
      if !IsIpv4(lower[k..]) then None
      else
        var all := AllGroups(lower[..k] + "0:0");
        if all == None then None else Some(GroupBytes(all.value)[..12] + Dotted(lower[k..]))
    else
      var all := AllGroups(lower);
      if all == None then None else Some(GroupBytes(all.value))
  }

  lemma Parse6Ok(s: Str)
    ensures Parse6(s).Some? ==> Bytes(Parse6(s).value, 16)
  {
    hide AllGroups, IsIpv4, GroupBytes, Dotted;
    var lower := Lower(s);
    var k := AfterLastColon(lower);
    var all := if '.' in lower then AllGroups(lower[..k] + "0:0") else AllGroups(lower);
    if all.Some? { GroupBytesOk(all.value); }
  }

  method FillGroups(out: array<int>, all: seq<Str>)
    requires out.Length == 16 && |all| == 8
    modifies out
    ensures out[..] == GroupBytes(all)
  {
    hide *;
    ghost var b := GroupBytes(all);
    for i := 0 to 8
      invariant forall j :: 0 <= j < 2 * i ==> out[j] == b[j]
    {
      var v := Value(all[i], 16);
      assert b[2 * i] == v / 256 && b[2 * i + 1] == v % 256;
      out[2 * i] := v / 256;
      out[2 * i + 1] := v % 256;
    }
  }

  method SetTail(out: array<int>, tail: seq<int>)
    requires out.Length == 16 && |tail| == 4
    modifies out
    ensures out[..] == old(out[..12]) + tail
  {
    for i := 0 to 4
      invariant out[..12] == old(out[..12]) && forall j :: 0 <= j < i ==> out[12 + j] == tail[j]
    {
      out[12 + i] := tail[i];
    }
    assert out[12..] == tail;
    assert out[..] == out[..12] + out[12..];
  }

  /** `ipv6Bytes` as it writes its buffer: two bytes a group, then a dotted tail over the last four. */
  method Ipv6Bytes(s: Str) returns (ok: bool, out: array<int>)
    ensures fresh(out) && ok == Parse6(s).Some? && (ok ==> out[..] == Parse6(s).value)
  {
    hide AllGroups, IsIpv4, Dotted, GroupBytes, EightGroups;
    out := new int[16];
    var lower := Lower(s);
    var k := AfterLastColon(lower);
    if '.' in lower {
      if !IsIpv4(lower[k..]) { return false, out; }
      var all := AllGroups(lower[..k] + "0:0");
      if all == None { return false, out; }
      EightGroupsLong(all.value);
      FillGroups(out, all.value);
      assert Bytes(Dotted(lower[k..]), 4);
      SetTail(out, Dotted(lower[k..]));
      assert out[..12] == GroupBytes(all.value)[..12];
    } else {
      var all := AllGroups(lower);
      if all == None { return false, out; }
      EightGroupsLong(all.value);
      FillGroups(out, all.value);
    }
    return true, out;
  }

  lemma EightGroupsLong(all: seq<Str>)
    requires EightGroups(all)
    ensures |all| == 8
  {
  }

  /** Node's `net.isIPv6`, as the literals of section 2.2 of RFC 4291: a "::" stands for at least one group. */
  predicate IsIpv6(s: Str)
  {
    var lower := Lower(s);
    var text := if '.' in lower then lower[..AfterLastColon(lower)] + "0:0" else lower;
    var halves := SplitDouble(text);
    Parse6(s).Some? && (|halves| == 2 ==> |Groups(halves[0])| + |Groups(halves[1])| <= 7)
  }

  predicate IsMapped(b: seq<int>)
    requires |b| == 16
  {
    (forall i :: 0 <= i < 10 ==> b[i] == 0) && b[10] == 0xff && b[11] == 0xff
  }

  /** The deprecated IPv4-compatible range other than :: and ::1. */
  predicate IsCompatible(b: seq<int>)
    requires |b| == 16
  {
    (forall i :: 0 <= i < 12 ==> b[i] == 0) && !(b[12] == 0 && b[13] == 0 && b[14] == 0 && (b[15] == 0 || b[15] == 1))
  }

  datatype Raw = Raw(v4: bool, bytes: seq<int>)

  function RawBytes(s: Str): (r: Option<Raw>)
    ensures r.Some? ==> Bytes(r.value.bytes, if r.value.v4 then 4 else 16)
  {
    Parse6Ok(s);
    if '%' in s then None
    else if IsIpv4(s) then Some(Raw(true, Dotted(s)))
    else if !IsIpv6(s) then None
    else if Parse6(s).Some? then Some(Raw(false, Parse6(s).value)) else None
  }

  /** One address literal, any spelling, to its canonical bytes and family. */
  function CanonicalIp(s: Str): (r: Option<Ip>)
    ensures r.Some? ==> Canonical(r.value)
  {
    var raw := RawBytes(s);
    if raw == None then None
    else if raw.value.v4 then Some(Ip(4, raw.value.bytes))
    else if IsMapped(raw.value.bytes) then Some(Ip(4, raw.value.bytes[12..]))
    else if IsCompatible(raw.value.bytes) then None
    else Some(Ip(6, raw.value.bytes))
  }

  /** The addresses a parse can give. */
  predicate Canonical(ip: Ip)
  {
    IpOk(ip) && (ip.family == 6 ==> !IsMapped(ip.bytes) && !IsCompatible(ip.bytes))
  }

  // ---------------------------------------------------------------- blocks

  /** What `trim` takes off: the white space and line ends of ECMA-262, sections 12.2 and 12.3. */
  predicate Space(c: char)
  {
    c in {' ', '\t', '\n', '\r', '\U{0b}', '\U{0c}', '\U{a0}', '\U{1680}', '\U{2028}', '\U{2029}', '\U{202f}', '\U{205f}', '\U{3000}', '\U{feff}'} ||
    '\U{2000}' <= c <= '\U{200a}'
  }

  function TrimStart(s: Str): Str
  {
    if s != [] && Space(s[0]) then TrimStart(s[1..]) else s
  }

  function TrimEnd(s: Str): Str
  {
    if s != [] && Space(s[|s| - 1]) then TrimEnd(s[..|s| - 1]) else s
  }

  function Trim(s: Str): Str
  {
    TrimEnd(TrimStart(s))
  }

  /** Operator-typed text to the literal it names: trimmed, one bracket pair off. */
  function Loosen(input: Str): Str
  {
    var s := Trim(input);
    if s != [] && s[0] == '[' && s[|s| - 1] == ']' then (if |s| >= 2 then s[1..|s| - 1] else "") else s
  }

  predicate PrefixText(p: Str)
  {
    1 <= |p| <= 3 && forall i :: 0 <= i < |p| ==> '0' <= p[i] <= '9'
  }

  /** The literal a block's text holds, and its prefix, before it is taken as IPv4 or refused. */
  function BlockText(input: Str): (r: Option<(Raw, nat)>)
    ensures r.Some? ==> Bytes(r.value.0.bytes, if r.value.0.v4 then 4 else 16) && r.value.1 <= if r.value.0.v4 then 32 else 128
  {
    var s := Trim(input);
    if s == [] then None
    else
      var slash := Find(s, '/');
      var addr := Loosen(s[..slash]);
      var pre := if slash < |s| then Some(s[slash + 1..]) else None;
      if pre.Some? && !PrefixText(pre.value) then None
      else
        var raw := RawBytes(addr);
        if raw == None then None
        else
          var most := if raw.value.v4 then 32 else 128;
          var prefix := if pre.Some? then Value(pre.value, 10) else most;
          if prefix > most then None else Some((raw.value, prefix))
  }

  /** One block, "addr" or "addr/prefix". A genuine mapped block is an IPv4 block. */
  function CanonicalCidr(input: Str): (r: Option<Block>)
    ensures r.Some? ==> BlockOk(r.value) && (r.value.family == 6 ==> !IsCompatible(r.value.bytes))
  {
    var t := BlockText(input);
    if t == None then None
    else
      var raw, prefix := t.value.0, t.value.1;
      if raw.v4 then Some(Block(4, raw.bytes, prefix))
      else if IsMapped(raw.bytes) && prefix >= 96 then Some(Block(4, raw.bytes[12..], prefix - 96))
      else if IsCompatible(raw.bytes) then None
      else Some(Block(6, raw.bytes, prefix))
  }

  // ---------------------------------------------------------------- containment, bit by bit

  function Pow2(n: nat): (p: nat)
    ensures p >= 1
  {
    if n == 0 then 1 else 2 * Pow2(n - 1)
  }

  /** The `j`-th bit of a byte, the highest first. */
  function Bit(x: int, j: nat): int
    requires j < 8
  {
    x / Pow2(7 - j) % 2
  }

  function BitOf(b: seq<int>, i: nat): int
    requires i < 8 * |b|
  {
    Bit(b[i / 8], i % 8)
  }

  /** Inside a block: the same family, and the first `prefix` bits agree. */
  predicate Contains(block: Block, ip: Ip)
    requires BlockOk(block) && IpOk(ip)
  {
    block.family == ip.family && forall i :: 0 <= i < block.prefix ==> BitOf(block.bytes, i) == BitOf(ip.bytes, i)
  }

  /** `x & (0xff << (8 - bits))` on a byte. */
  function Masked(x: int, bits: nat): int
    requires bits <= 8
  {
    x - x % Pow2(8 - bits)
  }

  function Top(x: int, bits: nat): int
    requires bits <= 8
  {
    x / Pow2(8 - bits)
  }

  lemma Powers()
    ensures Pow2(0) == 1 && Pow2(1) == 2 && Pow2(2) == 4 && Pow2(3) == 8 && Pow2(4) == 16
    ensures Pow2(5) == 32 && Pow2(6) == 64 && Pow2(7) == 128 && Pow2(8) == 256
  {
    assert Pow2(4) == 16;
    assert Pow2(6) == 64;
  }

  lemma Multiples(d: int, m: int)
    requires m > 0
    ensures (d >= 1 ==> d * m >= m) && (d <= -1 ==> d * m <= -m)
  {
  }

  lemma DivUnique(x: int, m: int, q: int)
    requires m > 0 && q * m <= x < q * m + m
    ensures x / m == q
  {
    var d := x / m - q;
    assert x == m * (x / m) + x % m;
    assert d * m == m * (x / m) - q * m;
    Multiples(d, m);
  }

  lemma Halves(x: int, m: int)
    requires m > 0 && x >= 0
    ensures x / m == 2 * (x / (2 * m)) + x / m % 2
  {
    var q, r := x / (2 * m), x % (2 * m);
    assert x == 2 * m * q + r;
    assert 2 * m * q == (2 * q) * m && (2 * q + 1) * m == (2 * q) * m + m;
    if r < m { DivUnique(x, m, 2 * q); } else { DivUnique(x, m, 2 * q + 1); }
  }

  lemma TopStep(x: int, b: nat)
    requires 0 <= x < 256 && b < 8
    ensures Top(x, b + 1) == 2 * Top(x, b) + Bit(x, b) && 0 <= Bit(x, b) <= 1
  {
    Halves(x, Pow2(7 - b));
  }

  lemma TopNone(x: int)
    requires 0 <= x < 256
    ensures Top(x, 0) == 0
  {
    Powers();
  }

  lemma {:induction false} TopAgrees(x: int, y: int, bits: nat)
    requires 0 <= x < 256 && 0 <= y < 256 && bits <= 8
    ensures Top(x, bits) == Top(y, bits) <==> forall j :: 0 <= j < bits ==> Bit(x, j) == Bit(y, j)
  {
    if bits == 0 {
      hide *;
      TopNone(x);
      TopNone(y);
    } else {
      hide *;
      TopAgrees(x, y, bits - 1);
      TopStep(x, bits - 1);
      TopStep(y, bits - 1);
    }
  }

  lemma MaskAgrees(x: int, y: int, bits: nat)
    requires 0 <= x < 256 && 0 <= y < 256 && bits <= 8
    ensures Masked(x, bits) == Masked(y, bits) <==> forall j :: 0 <= j < bits ==> Bit(x, j) == Bit(y, j)
  {
    TopAgrees(x, y, bits);
    MaskedTop(x, bits);
    MaskedTop(y, bits);
    hide *;
    assert Top(x, bits) == Top(y, bits) ==> Masked(x, bits) == Masked(y, bits);
  }

  lemma MaskedTop(x: int, bits: nat)
    requires 0 <= x < 256 && bits <= 8
    ensures Masked(x, bits) == Top(x, bits) * Pow2(8 - bits) && Masked(x, bits) / Pow2(8 - bits) == Top(x, bits)
  {
    Rounded(x, Pow2(8 - bits));
  }

  lemma Rounded(x: int, m: int)
    requires m > 0 && x >= 0
    ensures x - x % m == x / m * m && (x - x % m) / m == x / m
  {
    assert x == m * (x / m) + x % m;
    DivUnique(x - x % m, m, x / m);
  }

  /** The bits of the first `i` whole bytes, then the first of the next. */
  lemma BitsByByte(x: seq<int>, y: seq<int>, i: nat, bits: nat)
    requires |x| == |y| && bits <= 8 && i < |x|
    requires (forall k :: 0 <= k < 8 * i ==> BitOf(x, k) == BitOf(y, k))
    ensures (forall k :: 0 <= k < 8 * i + bits ==> BitOf(x, k) == BitOf(y, k)) <==> forall j :: 0 <= j < bits ==> Bit(x[i], j) == Bit(y[i], j)
  {
    hide Bit;
    forall j | 0 <= j < bits ensures BitOf(x, 8 * i + j) == Bit(x[i], j) && BitOf(y, 8 * i + j) == Bit(y[i], j)
    {
      assert (8 * i + j) / 8 == i && (8 * i + j) % 8 == j;
    }
    forall k | 8 * i <= k < 8 * i + bits ensures BitOf(x, k) == Bit(x[i], k - 8 * i) && BitOf(y, k) == Bit(y[i], k - 8 * i)
    {
      assert k / 8 == i && k % 8 == k - 8 * i;
    }
  }

  /** `cidrContains`: byte by byte under a mask. */
  method CidrContains(block: Block, ip: Ip) returns (inside: bool)
    requires BlockOk(block) && IpOk(ip)
    ensures inside <==> Contains(block, ip)
  {
    if block.family != ip.family { return false; }
    hide BitOf, Bit, Masked;
    var bits, i := block.prefix as int, 0;
    while bits > 0
      invariant 0 <= i && block.prefix == 8 * i + bits && bits > -8 && (bits > 0 ==> i < |block.bytes|)
      invariant forall k :: 0 <= k < 8 * i && k < block.prefix ==> BitOf(block.bytes, k) == BitOf(ip.bytes, k)
      decreases bits
    {
      var m := if bits >= 8 then 8 else bits;
      MaskAgrees(block.bytes[i], ip.bytes[i], m);
      BitsByByte(block.bytes, ip.bytes, i, m);
      if Masked(block.bytes[i], m) != Masked(ip.bytes[i], m) { return false; }
      i, bits := i + 1, bits - 8;
    }
    return true;
  }

  /** The 128-bit form of an IPv4 address (section 2.5.5.2 of RFC 4291). */
  function MappedBytes(b: seq<int>): (r: seq<int>)
    requires Bytes(b, 4)
    ensures Bytes(r, 16) && IsMapped(r) && r[12..] == b
  {
    [0, 0, 0, 0, 0, 0, 0, 0, 0, 0, 0xff, 0xff] + b
  }

  /** The bits of a mapped block of prefix 96 or more are those of the IPv4 block of prefix less 96. */
  lemma MappedBits(b: seq<int>, prefix: nat, ip: seq<int>)
    requires Bytes(b, 16) && IsMapped(b) && 96 <= prefix <= 128 && Bytes(ip, 4)
    ensures Contains(Block(4, b[12..], prefix - 96), Ip(4, ip)) <==> Contains(Block(6, b, prefix), Ip(6, MappedBytes(ip)))
  {
    hide Bit;
    var m := MappedBytes(ip);
    forall i | 0 <= i < 96 ensures BitOf(b, i) == BitOf(m, i) { assert b[i / 8] == m[i / 8]; }
    forall i | 0 <= i < 32 ensures BitOf(b, 96 + i) == BitOf(b[12..], i) && BitOf(m, 96 + i) == BitOf(ip, i)
    {
      assert (96 + i) / 8 == 12 + i / 8 && (96 + i) % 8 == i % 8;
    }
    if Contains(Block(6, b, prefix), Ip(6, m)) {
      forall i | 0 <= i < prefix - 96 ensures BitOf(b[12..], i) == BitOf(ip, i) { assert BitOf(b, 96 + i) == BitOf(m, 96 + i); }
    }
    if Contains(Block(4, b[12..], prefix - 96), Ip(4, ip)) {
      forall i | 96 <= i < prefix ensures BitOf(b, i) == BitOf(m, i) { assert BitOf(b[12..], i - 96) == BitOf(ip, i - 96); }
    }
  }

  /** The 128-bit form of an address. */
  function Wide(ip: Ip): (r: seq<int>)
    requires IpOk(ip)
    ensures Bytes(r, 16)
  {
    if ip.family == 4 then MappedBytes(ip.bytes) else ip.bytes
  }

  /** A byte is its bits. */
  lemma ByteIsBits(x: int, y: int)
    requires 0 <= x < 256 && 0 <= y < 256 && forall j :: 0 <= j < 8 ==> Bit(x, j) == Bit(y, j)
    ensures x == y
  {
    MaskAgrees(x, y, 8);
    Powers();
    hide Bit, Pow2;
  }

  /** What agrees with a mapped address in 96 bits is mapped. */
  lemma MappedPrefix(b: seq<int>, c: seq<int>)
    requires Bytes(b, 16) && Bytes(c, 16) && IsMapped(b) && forall i :: 0 <= i < 96 ==> BitOf(b, i) == BitOf(c, i)
    ensures IsMapped(c)
  {
    hide Bit;
    forall i | 0 <= i < 12 ensures b[i] == c[i]
    {
      forall j | 0 <= j < 8 ensures Bit(b[i], j) == Bit(c[i], j)
      {
        assert (8 * i + j) / 8 == i && (8 * i + j) % 8 == j;
        assert BitOf(b, 8 * i + j) == BitOf(c, 8 * i + j);
      }
      ByteIsBits(b[i], c[i]);
    }
  }

  /**
    * A text that names a mapped block of prefix 96 or more is taken for an IPv4 block, and of all the addresses a
    * parse can give it contains exactly those whose 128-bit form lies in the block as written.
    */
  lemma MappedBlock(input: Str, b: seq<int>, prefix: nat, ip: Ip)
    requires BlockText(input) == Some((Raw(false, b), prefix)) && IsMapped(b) && prefix >= 96 && Canonical(ip)
    ensures var r := CanonicalCidr(input);
            r.Some? && r.value.family == 4 && (Contains(r.value, ip) <==> Contains(Block(6, b, prefix), Ip(6, Wide(ip))))
  {
    hide BlockText, BitOf, IsMapped, IsCompatible;
    if ip.family == 4 {
      MappedBits(b, prefix, ip.bytes);
    } else if Contains(Block(6, b, prefix), Ip(6, ip.bytes)) {
      MappedPrefix(b, ip.bytes);
    }
  }
}
