/** The one text form of a canonical address, and its way back. */
module CidrFormat {
  import opened Cidr
  import opened Wrappers

  function GroupsOf(b: seq<int>): (g: seq<nat>)
    requires Bytes(b, 16)
    ensures |g| == 8 && forall i :: 0 <= i < 8 ==> g[i] < 65536 && g[i] / 256 == b[2 * i] && g[i] % 256 == b[2 * i + 1]
  {
    seq(8, i requires 0 <= i < 8 => b[2 * i] * 256 + b[2 * i + 1])
  }

  function Hexes(g: seq<nat>): (h: seq<Str>)
    ensures |h| == |g| && forall i :: 0 <= i < |g| ==> h[i] == Numeral(g[i], 16)
  {
    seq(|g|, i requires 0 <= i < |g| => Numeral(g[i], 16))
  }

  /** `n` zero groups from `i` on. */
  predicate ZeroRun(g: seq<nat>, i: int, n: int)
  {
    0 <= i && 0 <= n && i + n <= |g| && forall k :: i <= k < i + n ==> g[k] == 0
  }

  /**
    * Which groups "::" stands for (section 4.2 of RFC 5952): the longest run of at least two zero groups,
    * the first of them where several are as long; none (-1) where there is no such run.
    */
  ghost predicate IsBest(g: seq<nat>, best: int, len: int)
  {
    (best < 0 ==> best == -1 && len == 1) && (best >= 0 ==> len >= 2 && ZeroRun(g, best, len)) &&
    forall i, n :: ZeroRun(g, i, n) && n >= 1 ==> n <= len && (n == len && n >= 2 ==> best <= i)
  }

  function FormatGroups(g: seq<nat>, best: int, len: int): Str
    requires best >= 0 ==> 0 <= len && best + len <= |g|
  {
    if best < 0 then Join(Hexes(g), ':') else Join(Hexes(g)[..best], ':') + "::" + Join(Hexes(g)[best + len..], ':')
  }

  function Decimals(b: seq<int>): (d: seq<Str>)
    requires Bytes(b, 4)
    ensures |d| == 4 && forall i :: 0 <= i < 4 ==> d[i] == Numeral(b[i], 10)
  {
    seq(4, i requires 0 <= i < 4 => Numeral(b[i], 10))
  }

  /** `s` is the text of the address `ip`. */
  ghost predicate IsFormat(ip: Ip, s: Str)
    requires IpOk(ip)
  {
    if ip.family == 4 then s == Join(Decimals(ip.bytes), '.')
    else exists best, len :: IsBest(GroupsOf(ip.bytes), best, len) && s == FormatGroups(GroupsOf(ip.bytes), best, len)
  }

  lemma BestUnique(g: seq<nat>, b1: int, l1: int, b2: int, l2: int)
    requires IsBest(g, b1, l1) && IsBest(g, b2, l2)
    ensures b1 == b2 && l1 == l2
  {
    if b1 >= 0 { assert ZeroRun(g, b1, l1); }
    if b2 >= 0 { assert ZeroRun(g, b2, l2); }
  }

  /** An address has one text. */
  lemma FormatUnique(ip: Ip, s: Str, t: Str)
    requires IpOk(ip) && IsFormat(ip, s) && IsFormat(ip, t)
    ensures s == t
  {
    if ip.family == 6 {
      var g := GroupsOf(ip.bytes);
      var b1, l1 :| IsBest(g, b1, l1) && s == FormatGroups(g, b1, l1);
      var b2, l2 :| IsBest(g, b2, l2) && t == FormatGroups(g, b2, l2);
      BestUnique(g, b1, l1, b2, l2);
    }
  }

  /** No run among the first `i` groups, which no run crosses, is longer than the best so far. */
  ghost predicate BestSoFar(g: seq<nat>, i: int, best: int, len: int)
  {
    0 <= i <= |g| && (best < 0 ==> best == -1 && len == 1) && (best >= 0 ==> len >= 2 && ZeroRun(g, best, len) && best + len <= i) &&
    (0 < i < |g| && g[i] == 0 ==> g[i - 1] != 0) &&
    forall j, n :: ZeroRun(g, j, n) && n >= 1 && j + n <= i ==> n <= len && (n == len && n >= 2 ==> best <= j)
  }

  /** `formatIp`: scan for the longest run of zero groups, then join. */
  method FormatIp(ip: Ip) returns (s: Str)
    requires IpOk(ip)
    ensures IsFormat(ip, s)
  {
    if ip.family == 4 { return Join(Decimals(ip.bytes), '.'); }
    var g := GroupsOf(ip.bytes);
    var best, bestLen, i := -1, 1, 0;
    while i < 8
      invariant BestSoFar(g, i, best, bestLen)
      decreases 8 - i
    {
      if g[i] != 0 {
        SkipOne(g, i, best, bestLen);
        i := i + 1;
      } else {
        var j := i;
        while j < 8 && g[j] == 0
          invariant i <= j <= 8 && ZeroRun(g, i, j - i)
        {
          j := j + 1;
        }
        SkipRun(g, i, j, best, bestLen);
        if j - i > bestLen { best, bestLen := i, j - i; }
        i := j;
      }
    }
    assert IsBest(g, best, bestLen);
    s := FormatGroups(g, best, bestLen);
  }

  lemma InRun(g: seq<nat>, i: int, n: int, k: int)
    requires ZeroRun(g, i, n)
    ensures i <= k < i + n ==> g[k] == 0
  {
  }

  lemma SkipOne(g: seq<nat>, i: int, best: int, len: int)
    requires BestSoFar(g, i, best, len) && i < |g| && g[i] != 0
    ensures BestSoFar(g, i + 1, best, len)
  {
    forall j, n | ZeroRun(g, j, n) && n >= 1 && j + n <= i + 1 ensures j + n <= i
    {
      InRun(g, j, n, i);
    }
  }

  lemma SkipRun(g: seq<nat>, i: int, j: int, best: int, len: int)
    requires BestSoFar(g, i, best, len) && i < j <= |g| && ZeroRun(g, i, j - i) && (j < |g| ==> g[j] != 0)
    ensures if j - i > len then BestSoFar(g, j, i, j - i) else BestSoFar(g, j, best, len)
  {
    assert g[i] == 0;
    forall k, n | ZeroRun(g, k, n) && n >= 1 && k + n <= j
      ensures k + n <= i || (k >= i && n <= j - i)
    {
      InRun(g, k, n, i - 1);
    }
  }

  // ---------------------------------------------------------------- the way back

  predicate Plain(p: Str)
  {
    p != "" && forall i :: 0 <= i < |p| ==> HexDigit(p[i])
  }

  predicate AllPlain(parts: seq<Str>)
  {
    forall i :: 0 <= i < |parts| ==> Plain(parts[i])
  }

  predicate TextChar(c: char)
  {
    HexDigit(c) || c == ':'
  }

  predicate TextChars(s: Str)
  {
    forall i :: 0 <= i < |s| ==> TextChar(s[i])
  }

  ghost predicate NoDouble(s: Str)
  {
    (forall j :: !DoubleAt(s, j)) && (s != "" ==> s[0] != ':' && s[|s| - 1] != ':')
  }

  lemma {:induction false} JoinPlain(parts: seq<Str>)
    requires AllPlain(parts)
    ensures var s := Join(parts, ':');
            NoDouble(s) && TextChars(s) && (parts != [] ==> s != "") && (parts == [] ==> s == "")
  {
    if |parts| > 1 {
      var rest := Join(parts[1..], ':');
      JoinPlain(parts[1..]);
      var s := parts[0] + [':'] + rest;
      assert Plain(parts[0]);
      forall j ensures !DoubleAt(s, j)
      {
        assert DoubleAt(s, j) && j > |parts[0]| ==> DoubleAt(rest, j - |parts[0]| - 1);
      }
    }
  }

  lemma GroupsJoin(parts: seq<Str>)
    requires AllPlain(parts)
    ensures Groups(Join(parts, ':')) == parts
  {
    JoinPlain(parts);
    if parts != [] {
      forall p | p in parts ensures ':' !in p
      {
        var i :| 0 <= i < |parts| && parts[i] == p;
        assert Plain(parts[i]);
      }
      SplitJoin(parts, ':');
    }
  }

  lemma OnePiece(s: Str)
    requires NoDouble(s)
    ensures SplitDouble(s) == [s]
  {
  }

  lemma TwoPieces(a: Str, b: Str)
    requires NoDouble(a) && NoDouble(b)
    ensures SplitDouble(a + "::" + b) == [a, b]
  {
    var s := a + "::" + b;
    var k := FindDouble(s);
    assert DoubleAt(s, |a|);
    assert DoubleAt(s, k) && k + 1 < |a| ==> DoubleAt(a, k);
    assert s[..|a|] == a && s[|a| + 2..] == b;
    OnePiece(b);
  }

  lemma HexesPlain(g: seq<nat>)
    requires |g| == 8 && forall i :: 0 <= i < 8 ==> g[i] < 65536
    ensures AllPlain(Hexes(g)) && EightGroups(Hexes(g)) && forall i :: 0 <= i < 8 ==> Value(Hexes(g)[i], 16) == g[i] && (g[i] == 0 ==> Hexes(g)[i] == "0")
  {
    forall i | 0 <= i < 8
      ensures Plain(Hexes(g)[i]) && Group(Hexes(g)[i]) && Value(Hexes(g)[i], 16) == g[i] && (g[i] == 0 ==> Hexes(g)[i] == "0")
    {
      NumeralRoundTrip(g[i], 16);
      HexLength(g[i]);
    }
  }

  lemma AllGroupsOne(s: Str, h: seq<Str>)
    requires SplitDouble(s) == [s] && Groups(s) == h && EightGroups(h)
    ensures AllGroups(s) == Some(h)
  {
    hide Groups, SplitDouble, EightGroups;
    assert |h| == 8 by { EightLong(h); }
    assert h + Zeros(0) + [] == h;
  }

  lemma AllGroupsTwo(s: Str, x: Str, y: Str, a: seq<Str>, b: seq<Str>, h: seq<Str>)
    requires SplitDouble(s) == [x, y] && Groups(x) == a && Groups(y) == b && EightGroups(h) && |a| + |b| <= 8
    requires a + Zeros(8 - |a| - |b|) + b == h
    ensures AllGroups(s) == Some(h)
  {
    hide Groups, SplitDouble, EightGroups, Zeros;
  }

  lemma EightLong(h: seq<Str>)
    requires EightGroups(h)
    ensures |h| == 8
  {
  }

  /** Text that splits into these groups, "::" standing for at least one of them. */
  predicate SplitsInto(s: Str, h: seq<Str>)
  {
    AllGroups(s) == Some(h) && TextChars(s) &&
    (|SplitDouble(s)| == 2 ==> |Groups(SplitDouble(s)[0])| + |Groups(SplitDouble(s)[1])| <= 7)
  }

  lemma WholeText(h: seq<Str>)
    requires AllPlain(h) && EightGroups(h)
    ensures SplitsInto(Join(h, ':'), h)
  {
    hide AllGroups, Groups, SplitDouble, EightGroups, AllPlain, NoDouble, Join, TextChars;
    JoinPlain(h);
    OnePiece(Join(h, ':'));
    GroupsJoin(h);
    AllGroupsOne(Join(h, ':'), h);
  }

  lemma TextConcat(x: Str, y: Str)
    requires TextChars(x) && TextChars(y)
    ensures TextChars(x + "::" + y)
  {
  }

  lemma ShortText(a: seq<Str>, b: seq<Str>, h: seq<Str>)
    requires AllPlain(a) && AllPlain(b) && EightGroups(h) && |a| + |b| <= 7 && a + Zeros(8 - |a| - |b|) + b == h
    ensures SplitsInto(Join(a, ':') + "::" + Join(b, ':'), h)
  {
    hide AllGroups, Groups, SplitDouble, EightGroups, AllPlain, NoDouble, Join, TextChars, Zeros;
    JoinPlain(a);
    JoinPlain(b);
    var x, y := Join(a, ':'), Join(b, ':');
    TextConcat(x, y);
    TwoPieces(x, y);
    GroupsJoin(a);
    GroupsJoin(b);
    AllGroupsTwo(x + "::" + y, x, y, a, b, h);
  }

  /** The text splits back into the very groups it was made of. */
  lemma FormatGroupsBack(g: seq<nat>, best: int, len: int)
    requires |g| == 8 && (forall i :: 0 <= i < 8 ==> g[i] < 65536) && IsBest(g, best, len)
    ensures SplitsInto(FormatGroups(g, best, len), Hexes(g))
  {
    HexesPlain(g);
    var h := Hexes(g);
    if best < 0 {
      hide SplitsInto, IsBest, Hexes, AllPlain, EightGroups, Join;
      WholeText(h);
    } else {
      BestRun(g, best, len);
      var a, b := h[..best], h[best + len..];
      assert AllPlain(a) && AllPlain(b);
      assert a + Zeros(len) + b == h;
      hide SplitsInto, IsBest, Hexes, AllPlain, EightGroups, Join, Zeros;
      ShortText(a, b, h);
    }
  }

  lemma BestRun(g: seq<nat>, best: int, len: int)
    requires IsBest(g, best, len) && best >= 0
    ensures len >= 2 && ZeroRun(g, best, len)
  {
  }

  lemma {:induction false} LowerSame(s: Str)
    requires TextChars(s)
    ensures Lower(s) == s
  {
  }

  lemma NoDot(s: Str)
    requires TextChars(s)
    ensures '.' !in s && '%' !in s && !IsIpv4(s)
  {
    FindIs(s, '.', []);
    assert s + [] == s;
  }

  lemma BytesBack(b: seq<int>)
    requires Bytes(b, 16)
    ensures GroupBytes(Hexes(GroupsOf(b))) == b
  {
    var g := GroupsOf(b);
    HexesPlain(g);
    var h := Hexes(g);
    var c := GroupBytes(h);
    hide *;
    forall i | 0 <= i < 8 ensures c[2 * i] == b[2 * i] && c[2 * i + 1] == b[2 * i + 1]
    {
      assert c[2 * i] == Value(h[i], 16) / 256;
    }
    forall i | 0 <= i < 16 ensures c[i] == b[i]
    {
      var j := i / 2;
      assert i == 2 * j || i == 2 * j + 1;
    }
    assert |b| == 16 by { SixteenLong(b); }
  }

  lemma SixteenLong(b: seq<int>)
    requires Bytes(b, 16)
    ensures |b| == 16
  {
  }

  lemma DecimalLength(x: nat)
    requires x < 256
    ensures |Numeral(x, 10)| <= 3 && (|Numeral(x, 10)| > 1 ==> x > 0)
  {
    if x >= 10 {
      NumeralSnoc(x, 10);
      if x / 10 >= 10 { NumeralSnoc(x / 10, 10); }
    }
  }

  lemma DecimalsBack(b: seq<int>)
    requires Bytes(b, 4)
    ensures var s := Join(Decimals(b), '.'); IsIpv4(s) && Dotted(s) == b && '%' !in s
  {
    var d := Decimals(b);
    forall i | 0 <= i < 4 ensures Octet(d[i]) && Value(d[i], 10) == b[i] && '.' !in d[i] && '%' !in d[i]
    {
      NumeralRoundTrip(b[i], 10);
      DecimalLength(b[i]);
    }
    hide Value, Numeral, Octet;
    assert forall p :: p in d ==> '.' !in p;
    SplitJoin(d, '.');
    JoinFree(d);
  }

  lemma {:induction false} JoinFree(parts: seq<Str>)
    requires forall p :: p in parts ==> '%' !in p
    ensures '%' !in Join(parts, '.')
  {
    if parts != [] {
      assert parts[0] in parts;
      JoinFree(parts[1..]);
    }
  }

  /** Printing then parsing an address that a parse can give is the identity. */
  lemma FormatRoundTrip(ip: Ip, s: Str)
    requires Canonical(ip) && IsFormat(ip, s)
    ensures CanonicalIp(s) == Some(ip)
  {
    if ip.family == 4 {
      DecimalsBack(ip.bytes);
    } else {
      var g := GroupsOf(ip.bytes);
      var best, len :| IsBest(g, best, len) && s == FormatGroups(g, best, len);
      FormatGroupsBack(g, best, len);
      BytesBack(ip.bytes);
      SplitsParse(s, Hexes(g));
      hide *;
      CanonicalSix(s, ip);
    }
  }

  lemma SplitsParse(s: Str, h: seq<Str>)
    requires SplitsInto(s, h) && |h| == 8
    ensures '%' !in s && !IsIpv4(s) && IsIpv6(s) && Parse6(s) == Some(GroupBytes(h))
  {
    LowerSame(s);
    NoDot(s);
    hide AllGroups, SplitDouble, Groups, GroupBytes, TextChars, IsIpv4, Lower;
  }

  lemma CanonicalSix(s: Str, ip: Ip)
    requires Canonical(ip) && ip.family == 6 && '%' !in s && !IsIpv4(s) && IsIpv6(s) && Parse6(s) == Some(ip.bytes)
    ensures CanonicalIp(s) == Some(ip)
  {
    hide IsIpv4, IsIpv6, Parse6;
  }

  /** So two spellings name one address exactly when they are both printed the same. */
  lemma SameAddressSameText(a: Str, b: Str, s: Str, t: Str)
    requires CanonicalIp(a).Some? && CanonicalIp(b).Some? && IsFormat(CanonicalIp(a).value, s) && IsFormat(CanonicalIp(b).value, t)
    ensures CanonicalIp(a) == CanonicalIp(b) <==> s == t
  {
    FormatRoundTrip(CanonicalIp(a).value, s);
    FormatRoundTrip(CanonicalIp(b).value, t);
    if CanonicalIp(a) == CanonicalIp(b) { FormatUnique(CanonicalIp(a).value, s, t); }
  }
}
