/** What texts mean as addresses and blocks. */
module CidrText {
  // The grammar of the literals, both ways, and then of a block's text: white space, one bracket pair, a literal, and
  // perhaps a slash and a prefix.

  import opened Cidr
  import opened CidrFormat
  import opened Wrappers

  // ---------------------------------------------------------------- joining back what was split

  lemma {:induction false} JoinSplit(s: Str, c: char)
    ensures Split(s, c) != [] && Join(Split(s, c), c) == s
    ensures forall p :: p in Split(s, c) ==> c !in p
    decreases |s|
  {
    var k := Find(s, c);
    if k < |s| {
      JoinSplit(s[k + 1..], c);
      var rest := Split(s[k + 1..], c);
      assert ([s[..k]] + rest)[1..] == rest;
      assert s == s[..k] + [c] + s[k + 1..];
    } else {
      assert s[..k] == s;
    }
  }

  lemma {:induction false} JoinChars(parts: seq<Str>, c: char, x: char)
    requires x in Join(parts, c) && x != c
    ensures exists p :: p in parts && x in p
  {
    if |parts| == 1 {
      assert parts[0] in parts;
    } else if |parts| > 1 {
      if x in parts[0] {
        assert parts[0] in parts;
      } else {
        assert x in Join(parts[1..], c);
        JoinChars(parts[1..], c, x);
      }
    }
  }

  // ---------------------------------------------------------------- an IPv4 literal

  /** Decimal digits without a leading zero are the numeral of their value. */
  lemma {:induction false} NumeralOf(p: Str)
    requires p != "" && (forall i :: 0 <= i < |p| ==> '0' <= p[i] <= '9') && (|p| > 1 ==> p[0] != '0')
    ensures Numeral(Value(p, 10), 10) == p
    ensures |p| > 1 ==> Value(p, 10) >= 10
    ensures |p| == 1 ==> Value(p, 10) == DigitValue(p[0]) && (p[0] != '0' ==> Value(p, 10) >= 1)
  {
    var q, c := p[..|p| - 1], p[|p| - 1];
    DigitBack(c);
    LastDigit(q, c);
    assert p == q + [c];
    if q != "" {
      NumeralOf(q);
      assert p[0] == q[0];
      assert Value(q, 10) >= 1;
    }
    hide Value, Numeral;
  }

  /** One more digit. */
  lemma LastDigit(q: Str, c: char)
    requires '0' <= c <= '9'
    ensures Value(q + [c], 10) == Value(q, 10) * 10 + DigitValue(c)
    ensures Value(q, 10) >= 1 ==> Numeral(Value(q + [c], 10), 10) == Numeral(Value(q, 10), 10) + [c]
    ensures q == "" ==> Value(q, 10) == 0 && Numeral(Value(q + [c], 10), 10) == [c]
  {
    ValueSnoc(q, c, 10);
    DigitBack(c);
    assert q == "" ==> Value(q, 10) == 0;
    assert [c] == [] + [c];
    hide Value;
    var v, d := Value(q, 10), DigitValue(c);
    TenfoldBack(v, d);
    if v >= 1 {
      NumeralSnoc(v * 10 + d, 10);
      hide *;
    } else {
      assert Numeral(d, 10) == [Digit(d)];
    }
  }

  lemma TenfoldBack(v: nat, d: nat)
    requires d < 10
    ensures (v * 10 + d) / 10 == v && (v * 10 + d) % 10 == d
  {
  }

  lemma DigitBack(c: char)
    requires '0' <= c <= '9'
    ensures DigitValue(c) < 10 && Digit(DigitValue(c)) == c
  {
  }

  /** An octet's text is the numeral of a byte. */
  lemma OctetExactly(p: Str)
    ensures Octet(p) <==> Value(p, 10) < 256 && p == Numeral(Value(p, 10), 10)
  {
    if Octet(p) { NumeralOf(p); }
    if Value(p, 10) < 256 && p == Numeral(Value(p, 10), 10) {
      NumeralRoundTrip(Value(p, 10), 10);
      DecimalLength(Value(p, 10));
      hide Numeral, Value;
    }
  }

  lemma FourText(s: Str)
    requires IsIpv4(s)
    ensures Bytes(Dotted(s), 4) && s == Join(Decimals(Dotted(s)), '.')
  {
    JoinSplit(s, '.');
    var o := Split(s, '.');
    forall i | 0 <= i < 4 ensures o[i] == Decimals(Dotted(s))[i] { OctetExactly(o[i]); }
    hide Value, Numeral, Octet;
    assert o == Decimals(Dotted(s));
  }

  /** The IPv4 literals: four bytes in decimal, joined by dots, and nothing else. */
  lemma FourExactly(s: Str, b: seq<int>)
    ensures RawBytes(s) == Some(Raw(true, b)) <==> Bytes(b, 4) && s == Join(Decimals(b), '.')
  {
    if Bytes(b, 4) && s == Join(Decimals(b), '.') { DecimalsBack(b); }
    if IsIpv4(s) { FourText(s); }
    hide Value, Numeral, Octet, IsIpv6, Parse6, Join, Decimals, Dotted, IsIpv4;
  }

  // ---------------------------------------------------------------- an IPv6 literal

  /** Groups of one to four hexadecimal digits. */
  ghost predicate AllGroup(g: seq<Str>)
  {
    forall i :: 0 <= i < |g| ==> Hex(g[i])
  }

  predicate Hex(g: Str)
  {
    1 <= |g| <= 4 && forall i :: 0 <= i < |g| ==> '0' <= g[i] <= '9' || 'a' <= g[i] <= 'f'
  }

  /** Eight groups joined by colons, or fewer about one "::" that stands for the zero groups left out. */
  ghost predicate GroupsSpell(s: Str, h: seq<Str>)
  {
    (|h| == 8 && AllGroup(h) && s == Join(h, ':')) || exists a, b :: Shortened(s, a, b, h)
  }

  ghost predicate Shortened(s: Str, a: seq<Str>, b: seq<Str>, h: seq<Str>)
  {
    |a| + |b| <= 7 && AllGroup(a) && AllGroup(b) && s == Join(a, ':') + "::" + Join(b, ':') && h == a + Zeros(8 - |a| - |b|) + b
  }

  lemma AllGroupPlain(g: seq<Str>)
    requires AllGroup(g)
    ensures AllPlain(g) && forall i :: 0 <= i < |g| ==> Group(g[i])
  {
    forall i | 0 <= i < |g| ensures Plain(g[i]) && Group(g[i]) { assert Hex(g[i]); }
  }

  lemma ShortenedEight(a: seq<Str>, b: seq<Str>, h: seq<Str>)
    requires |a| + |b| <= 7 && AllGroup(a) && AllGroup(b) && h == a + Zeros(8 - |a| - |b|) + b
    ensures EightGroups(h)
  {
    var z := Zeros(8 - |a| - |b|);
    assert Group("0");
    AllGroupPlain(a);
    AllGroupPlain(b);
    forall i | 0 <= i < 8 ensures Group(h[i])
    {
      assert h[i] == if i < |a| then a[i] else if i < 8 - |b| then z[i - |a|] else b[i - (8 - |b|)];
    }
  }

  lemma {:induction false} JoinSplitDouble(s: Str)
    ensures SplitDouble(s) != []
    ensures |SplitDouble(s)| == 1 ==> SplitDouble(s)[0] == s
    ensures |SplitDouble(s)| == 2 ==> s == SplitDouble(s)[0] + "::" + SplitDouble(s)[1]
    decreases |s|
  {
    var k := FindDouble(s);
    if k < |s| {
      JoinSplitDouble(s[k + 2..]);
      assert s == s[..k] + "::" + s[k + 2..];
    }
  }

  lemma JoinGroups(h: Str)
    ensures Join(Groups(h), ':') == h
  {
    if h != "" { JoinSplit(h, ':'); }
  }

  /** What the parse takes of a text: eight groups, a "::" standing for at least one. */
  predicate Taken(s: Str, h: seq<Str>)
  {
    AllGroups(s) == Some(h) && (|SplitDouble(s)| == 2 ==> |Groups(SplitDouble(s)[0])| + |Groups(SplitDouble(s)[1])| <= 7)
  }

  /** The parse takes eight groups of a text exactly when it spells them. */
  lemma TakenExactly(s: Str, h: seq<Str>)
    ensures Taken(s, h) <==> GroupsSpell(s, h)
    ensures Taken(s, h) ==> TextChars(s)
  {
    if GroupsSpell(s, h) {
      SpellTaken(s, h);
    }
    if Taken(s, h) {
      SpelledBack(s, h);
      SpellTaken(s, h);
    }
    hide SplitsInto, GroupsSpell, Taken;
  }

  lemma SpellTaken(s: Str, h: seq<Str>)
    requires GroupsSpell(s, h)
    ensures Taken(s, h) && TextChars(s)
  {
    if |h| == 8 && AllGroup(h) && s == Join(h, ':') {
      AllGroupPlain(h);
      assert EightGroups(h);
      WholeText(h);
    } else {
      var a, b :| Shortened(s, a, b, h);
      AllGroupPlain(a);
      AllGroupPlain(b);
      ShortenedEight(a, b, h);
      hide Join, Zeros, EightGroups, AllGroup, AllPlain, AllGroups, SplitDouble, Groups, TextChars;
      ShortText(a, b, h);
    }
  }

  lemma SpelledBack(s: Str, h: seq<Str>)
    requires Taken(s, h)
    ensures GroupsSpell(s, h)
  {
    JoinSplitDouble(s);
    var halves := SplitDouble(s);
    JoinGroups(halves[0]);
    hide Join, Groups, SplitDouble;
    if |halves| == 1 {
      assert h == Groups(s) by { assert Groups(s) + Zeros(0) + [] == Groups(s); }
      assert AllGroup(h) by { forall i | 0 <= i < |h| ensures Hex(h[i]) { assert Group(h[i]); } }
    } else {
      JoinGroups(halves[1]);
      var a, b := Groups(halves[0]), Groups(halves[1]);
      assert h == a + Zeros(8 - |a| - |b|) + b;
      assert AllGroup(a) by { forall i | 0 <= i < |a| ensures Hex(a[i]) { assert h[i] == a[i] && Group(h[i]); } }
      assert AllGroup(b) by { forall i | 0 <= i < |b| ensures Hex(b[i]) { assert h[8 - |b| + i] == b[i] && Group(h[8 - |b| + i]); } }
      assert Shortened(s, a, b, h);
    }
  }

  /** The text, in lower case, spells the eight groups of these bytes. */
  ghost predicate SpellsGroups(l: Str, b: seq<int>)
  {
    exists h :: GroupsSpell(l, h) && |h| == 8 && b == GroupBytes(h)
  }

  /** The text ends in an IPv4 literal after a colon, which stands for the last two groups and gives the last four bytes. */
  ghost predicate SpellsTail(l: Str, u: Str, d: seq<int>, b: seq<int>)
  {
    u != "" && u[|u| - 1] == ':' && Bytes(d, 4) && l == u + Join(Decimals(d), '.') &&
    exists h :: GroupsSpell(u + "0:0", h) && |h| == 8 && b == GroupBytes(h)[..12] + d
  }

  ghost predicate SpellsSix(s: Str, b: seq<int>)
  {
    SpellsGroups(Lower(s), b) || exists u, d :: SpellsTail(Lower(s), u, d, b)
  }

  lemma {:induction false} AfterLast(u: Str, v: Str)
    requires u != "" && u[|u| - 1] == ':' && ':' !in v
    ensures AfterLastColon(u + v) == |u|
  {
    if v == "" {
      assert u + v == u;
    } else {
      assert (u + v)[..|u + v| - 1] == u + v[..|v| - 1];
      AfterLast(u, v[..|v| - 1]);
    }
  }

  lemma {:induction false} LastColon(s: Str)
    ensures ':' !in s[AfterLastColon(s)..]
    ensures AfterLastColon(s) > 0 ==> s[AfterLastColon(s) - 1] == ':'
  {
    if s != "" && s[|s| - 1] != ':' {
      var p := s[..|s| - 1];
      LastColon(p);
      var k := AfterLastColon(p);
      assert s[k..] == p[k..] + [s[|s| - 1]];
    }
  }

  predicate Dot4(c: char)
  {
    '0' <= c <= '9' || c == '.'
  }

  /** A dotted text has four parts: so three dots, and no other character than digits. */
  lemma DecimalsChars(d: seq<int>, x: char)
    requires Bytes(d, 4)
    ensures var t := Join(Decimals(d), '.'); '.' in t && t != "" && (x in t ==> Dot4(x))
  {
    var o := Decimals(d);
    forall i | 0 <= i < 4 ensures forall k :: 0 <= k < |o[i]| ==> '0' <= o[i][k] <= '9' { NumeralRoundTrip(d[i], 10); }
    hide Numeral, Value;
    if x in Join(o, '.') && x != '.' { JoinChars(o, '.', x); }
    assert Join(o, '.') == o[0] + ['.'] + Join(o[1..], '.');
    assert (o[0] + ['.'] + Join(o[1..], '.'))[|o[0]|] == '.';
  }

  /** A character that has no case is in a text exactly when it is in its lower case. */
  lemma {:induction false} LowerKeeps(s: Str, c: char)
    requires !('A' <= c <= 'Z') && !('a' <= c <= 'z')
    ensures c in s <==> c in Lower(s)
  {
    if c in s {
      var i :| 0 <= i < |s| && s[i] == c;
      assert Lower(s)[i] == c;
    }
    if c in Lower(s) {
      var i :| 0 <= i < |s| && Lower(s)[i] == c;
      assert s[i] == c;
    }
  }

  /** An IPv4 literal holds no colon. */
  lemma FourHasNoColon(s: Str)
    requires IsIpv4(s)
    ensures ':' !in s && '%' !in s
  {
    JoinSplit(s, '.');
    var o := Split(s, '.');
    forall x | x in s && x != '.' ensures '0' <= x <= '9'
    {
      JoinChars(o, '.', x);
      var p :| p in o && x in p;
      var i :| 0 <= i < |o| && o[i] == p;
      assert Octet(o[i]);
    }
    hide Value, Octet, Split, Join;
  }

  lemma GroupsParse(s: Str, h: seq<Str>)
    requires GroupsSpell(Lower(s), h) && |h| == 8
    ensures '%' !in s && !IsIpv4(s) && IsIpv6(s) && Parse6(s) == Some(GroupBytes(h))
  {
    var l := Lower(s);
    TakenExactly(l, h);
    NoDot(l);
    LowerKeeps(s, '%');
    LowerKeeps(s, '.');
    FourHasDot(s);
    hide AllGroups, SplitDouble, Groups, GroupBytes, TextChars, IsIpv4, Lower, GroupsSpell;
  }

  lemma FourHasDot(s: Str)
    ensures IsIpv4(s) ==> '.' in s
  {
    if '.' !in s {
      FindIs(s, '.', []);
      assert s + [] == s;
    }
  }

  /** The parse of a literal with a dotted tail, in its parts. */
  lemma TailParts(s: Str, b: seq<int>)
    ensures var l := Lower(s);
            var k := AfterLastColon(l);
            '.' in l ==> (Parse6(s) == Some(b) <==>
              IsIpv4(l[k..]) && AllGroups(l[..k] + "0:0").Some? && b == GroupBytes(AllGroups(l[..k] + "0:0").value)[..12] + Dotted(l[k..]))
  {
    hide AllGroups, GroupBytes, IsIpv4, Dotted, Lower, AfterLastColon;
  }

  lemma TailSix(s: Str, h: seq<Str>)
    requires var l := Lower(s); '.' in l && Parse6(s).Some? && Taken(l[..AfterLastColon(l)] + "0:0", h)
    ensures IsIpv6(s)
  {
    hide AllGroups, Parse6, IsIpv4, Lower, AfterLastColon, SplitDouble, Groups;
  }

  lemma TailText(s: Str, u: Str, d: seq<int>)
    requires u != "" && u[|u| - 1] == ':' && Bytes(d, 4) && Lower(s) == u + Join(Decimals(d), '.')
    ensures var l := Lower(s); '.' in l && AfterLastColon(l) == |u| && l[..|u|] == u && l[|u|..] == Join(Decimals(d), '.')
    ensures '%' !in u ==> '%' !in s
    ensures !IsIpv4(s)
  {
    var v := Join(Decimals(d), '.');
    forall c { DecimalsChars(d, c); }
    hide Join, Decimals, Lower;
    AfterLast(u, v);
    LowerKeeps(s, '%');
    LowerKeeps(s, ':');
    if IsIpv4(s) { FourHasNoColon(s); }
    hide IsIpv4;
  }

  lemma NoPercent(u: Str)
    requires TextChars(u + "0:0")
    ensures '%' !in u
  {
    forall i | 0 <= i < |u| ensures u[i] != '%' { assert (u + "0:0")[i] == u[i] && TextChar((u + "0:0")[i]); }
  }

  lemma TailParse(s: Str, u: Str, d: seq<int>, h: seq<Str>)
    requires u != "" && u[|u| - 1] == ':' && Bytes(d, 4) && Lower(s) == u + Join(Decimals(d), '.') && GroupsSpell(u + "0:0", h) && |h| == 8
    ensures '%' !in s && !IsIpv4(s) && IsIpv6(s) && Parse6(s) == Some(GroupBytes(h)[..12] + d)
  {
    TakenExactly(u + "0:0", h);
    DecimalsBack(d);
    TailText(s, u, d);
    NoPercent(u);
    assert AllGroups(u + "0:0") == Some(h);
    hide *;
    TailParts(s, GroupBytes(h)[..12] + d);
    TailSix(s, h);
  }

  /** The IPv6 literals, in any case: eight groups or fewer about one "::", the last two perhaps as an IPv4 literal, and nothing else. */
  lemma SixExactly(s: Str, b: seq<int>)
    ensures RawBytes(s) == Some(Raw(false, b)) <==> SpellsSix(s, b)
  {
    if SpellsGroups(Lower(s), b) {
      var h :| GroupsSpell(Lower(s), h) && |h| == 8 && b == GroupBytes(h);
      GroupsParse(s, h);
      hide *;
    } else if SpellsSix(s, b) {
      var u, d :| SpellsTail(Lower(s), u, d, b);
      var h :| GroupsSpell(u + "0:0", h) && |h| == 8 && b == GroupBytes(h)[..12] + d;
      TailParse(s, u, d, h);
      hide *;
    }
    if RawBytes(s) == Some(Raw(false, b)) { ParsedSpells(s, b); }
    RawSix(s, b);
    hide *;
  }

  lemma RawSix(s: Str, b: seq<int>)
    ensures RawBytes(s) == Some(Raw(false, b)) <==> '%' !in s && !IsIpv4(s) && IsIpv6(s) && Parse6(s) == Some(b)
  {
    hide IsIpv4, IsIpv6, Parse6;
  }

  lemma Cut(l: Str, k: nat)
    requires k <= |l|
    ensures l == l[..k] + l[k..] && (k > 0 ==> l[..k] != "" && l[..k][|l[..k]| - 1] == l[k - 1]) && (l[..k] != "" ==> k > 0)
  {
  }

  lemma TailTaken(s: Str, h: seq<Str>)
    requires var l := Lower(s); '.' in l && IsIpv6(s) && AllGroups(l[..AfterLastColon(l)] + "0:0") == Some(h)
    ensures Taken(Lower(s)[..AfterLastColon(Lower(s))] + "0:0", h)
  {
    hide AllGroups, Parse6, IsIpv4, Lower, AfterLastColon, SplitDouble, Groups;
  }

  lemma ParsedTail(s: Str, b: seq<int>)
    requires Parse6(s) == Some(b) && IsIpv6(s) && '.' in Lower(s)
    ensures var l := Lower(s); var k := AfterLastColon(l); SpellsTail(l, l[..k], Dotted(l[k..]), b)
  {
    var l := Lower(s);
    var k := AfterLastColon(l);
    var u, v := l[..k], l[k..];
    hide *;
    LastColon(l);
    Cut(l, k);
    TailParts(s, b);
    TailTaken(s, AllGroups(u + "0:0").value);
    TailedBack(l, u, v, AllGroups(u + "0:0").value);
  }

  lemma TailedBack(l: Str, u: Str, v: Str, h: seq<Str>)
    requires Taken(u + "0:0", h) && EightGroups(h) && IsIpv4(v) && l == u + v && (u != "" ==> u[|u| - 1] == ':')
    ensures |h| == 8 && SpellsTail(l, u, Dotted(v), GroupBytes(h)[..12] + Dotted(v))
  {
    EightLong(h);
    TakenExactly(u + "0:0", h);
    FourText(v);
    if u == "" {
      assert u + "0:0" == "0:0";
      TooFew(h);
    }
    hide *;
    Tailed(l, u, Dotted(v), h);
  }

  lemma Tailed(l: Str, u: Str, d: seq<int>, h: seq<Str>)
    requires u != "" && u[|u| - 1] == ':' && Bytes(d, 4) && l == u + Join(Decimals(d), '.') && GroupsSpell(u + "0:0", h) && |h| == 8
    ensures SpellsTail(l, u, d, GroupBytes(h)[..12] + d)
  {
    hide GroupsSpell, GroupBytes, Join, Decimals;
  }

  lemma ParsedGroups(s: Str, b: seq<int>)
    requires Parse6(s) == Some(b) && IsIpv6(s) && '.' !in Lower(s)
    ensures SpellsGroups(Lower(s), b)
  {
    hide AllGroups, SplitDouble, Groups, GroupBytes, Lower, GroupsSpell, AfterLastColon, IsIpv4;
    var l := Lower(s);
    var h := AllGroups(l).value;
    TakenExactly(l, h);
    EightLong(h);
  }

  lemma ParsedSpells(s: Str, b: seq<int>)
    requires RawBytes(s) == Some(Raw(false, b))
    ensures SpellsSix(s, b)
  {
    RawSix(s, b);
    if '.' in Lower(s) { ParsedTail(s, b); } else { ParsedGroups(s, b); }
    hide RawBytes, SpellsGroups, SpellsTail, Lower, IsIpv4, IsIpv6, Parse6;
  }

  /** Two groups are not eight. */
  lemma TooFew(h: seq<Str>)
    ensures !GroupsSpell("0:0", h)
  {
    if GroupsSpell("0:0", h) { SpellTaken("0:0", h); }
    assert forall j :: !DoubleAt("0:0", j);
    assert SplitDouble("0:0") == ["0:0"];
    assert Find("0:0", ':') == 1;
    assert Split("0:0", ':')[0] == "0";
    assert "0:0"[2..] == "0";
    assert Find("0", ':') == 1;
    assert Split("0", ':') == ["0"];
    assert |Groups("0:0")| == 2;
  }

  // ---------------------------------------------------------------- what surrounds a literal

  predicate AllSpace(w: Str)
  {
    forall i :: 0 <= i < |w| ==> Space(w[i])
  }

  /** No white space, slash or bracket. */
  predicate NoMarks(t: Str)
  {
    forall i :: 0 <= i < |t| ==> !Space(t[i]) && t[i] !in {'/', '[', ']'}
  }

  predicate Bare(t: Str)
  {
    t != "" ==> !Space(t[0]) && !Space(t[|t| - 1])
  }

  lemma {:induction false} StartTrimmed(w: Str, t: Str)
    requires AllSpace(w) && (t != "" ==> !Space(t[0]))
    ensures TrimStart(w + t) == t
  {
    if w == "" {
      assert w + t == t;
    } else {
      assert (w + t)[1..] == w[1..] + t;
      StartTrimmed(w[1..], t);
    }
  }

  lemma {:induction false} EndTrimmed(t: Str, w: Str)
    requires AllSpace(w) && (t != "" ==> !Space(t[|t| - 1]))
    ensures TrimEnd(t + w) == t
  {
    if w == "" {
      assert t + w == t;
    } else {
      assert (t + w)[..|t + w| - 1] == t + w[..|w| - 1];
      EndTrimmed(t, w[..|w| - 1]);
    }
  }

  lemma Trimmed(v: Str, t: Str, w: Str)
    requires AllSpace(v) && AllSpace(w) && Bare(t)
    ensures Trim(v + t + w) == t
  {
    if t == "" {
      assert v + t + w == (v + w) + "";
      StartTrimmed(v + w, "");
      EndTrimmed("", "");
    } else {
      assert v + t + w == v + (t + w);
      StartTrimmed(v, t + w);
      EndTrimmed(t, w);
    }
  }

  lemma {:induction false} TrimStartForm(s: Str) returns (v: Str)
    ensures AllSpace(v) && s == v + TrimStart(s) && (TrimStart(s) != "" ==> !Space(TrimStart(s)[0]))
  {
    v := "";
    if s != "" && Space(s[0]) {
      v := TrimStartForm(s[1..]);
      v := [s[0]] + v;
    }
  }

  lemma {:induction false} TrimEndForm(s: Str) returns (w: Str)
    ensures AllSpace(w) && s == TrimEnd(s) + w && (TrimEnd(s) != "" ==> !Space(TrimEnd(s)[|TrimEnd(s)| - 1]))
  {
    w := "";
    if s != "" && Space(s[|s| - 1]) {
      w := TrimEndForm(s[..|s| - 1]);
      w := w + [s[|s| - 1]];
    }
  }

  /** What is trimmed off is white space, and none is left at the ends. */
  lemma TrimForm(s: Str) returns (v: Str, w: Str)
    ensures AllSpace(v) && AllSpace(w) && s == v + Trim(s) + w && Bare(Trim(s))
  {
    v := TrimStartForm(s);
    w := TrimEndForm(TrimStart(s));
    assert Trim(s) != "" ==> Trim(s)[0] == TrimStart(s)[0];
    hide TrimStart, TrimEnd;
  }

  /** The literal in this text: alone or in one bracket pair, with any white space around. */
  ghost predicate Holds(text: Str, t: Str)
  {
    exists v, w :: AllSpace(v) && AllSpace(w) && (text == v + t + w || text == v + ("[" + t + "]") + w)
  }

  lemma LoosenHeld(text: Str, t: Str)
    requires Holds(text, t) && NoMarks(t)
    ensures Loosen(text) == t
  {
    var v, w :| AllSpace(v) && AllSpace(w) && (text == v + t + w || text == v + ("[" + t + "]") + w);
    if text == v + t + w { Trimmed(v, t, w); } else { Trimmed(v, "[" + t + "]", w); }
    hide Trim;
  }

  lemma LoosenForm(text: Str)
    ensures Holds(text, Loosen(text))
  {
    var v, w := TrimForm(text);
    hide Trim;
    var s := Trim(text);
    if s != "" && s[0] == '[' && s[|s| - 1] == ']' { assert s == "[" + Loosen(text) + "]"; }
  }

  /** What `BlockText` gives for a literal and perhaps the text of a prefix. */
  function BlockRead(t: Str, pre: Option<Str>): Option<(Raw, nat)>
  {
    var raw := RawBytes(t);
    if raw == None || (pre.Some? && !PrefixText(pre.value)) then None
    else
      var most := if raw.value.v4 then 32 else 128;
      var prefix := if pre.Some? then Value(pre.value, 10) else most;
      if prefix > most then None else Some((raw.value, prefix))
  }

  /** The text of a block: a literal, or a literal, a slash and a prefix, with white space around each but before the prefix. */
  ghost predicate Spells(input: Str, t: Str, pre: Option<Str>)
  {
    if pre.None? then Holds(input, t)
    else (pre.value != "" ==> !Space(pre.value[|pre.value| - 1])) &&
         exists x, w :: Holds(x, t) && AllSpace(w) && input == x + "/" + pre.value + w
  }

  lemma EmptyLiteral()
    ensures RawBytes("") == None
  {
    assert Find("", '.') == 0;
    assert Split("", '.') == [""];
    assert Lower("") == "";
    assert SplitDouble("") == [""];
    assert Groups("") == [];
    assert AllGroups("") == None;
  }

  lemma NoSlash(text: Str, t: Str)
    requires Holds(text, t) && NoMarks(t)
    ensures '/' !in text
  {
  }

  lemma BareText(input: Str)
    requires '/' !in Trim(input)
    ensures BlockText(input) == BlockRead(Loosen(Trim(input)), None)
  {
    var s := Trim(input);
    EmptyLiteral();
    assert s == "" ==> Loosen(s) == "";
    FindIs(s, '/', "");
    assert s + "" == s && s[..|s|] == s;
    hide RawBytes, Value, Trim, Loosen, Find;
  }

  lemma SlashText(input: Str, y: Str, p: Str)
    requires Trim(input) == y + "/" + p && '/' !in y
    ensures BlockText(input) == BlockRead(Loosen(y), Some(p))
  {
    var s := Trim(input);
    FindIs(y, '/', "/" + p);
    assert y + ("/" + p) == s && s[..|y|] == y && s[|y| + 1..] == p;
    hide RawBytes, Value, Trim, Loosen, Find;
  }

  lemma HeldText(input: Str, t: Str)
    requires Holds(input, t) && NoMarks(t)
    ensures BlockText(input) == BlockRead(t, None)
  {
    var v, w := TrimForm(input);
    NoSlash(input, t);
    var s := Trim(input);
    assert '/' !in s by { forall c | c in s ensures c in input {} }
    LoosenHeld(input, t);
    Trimmed("", s, "");
    assert "" + s + "" == s;
    assert Loosen(s) == Loosen(input) by { hide Trim; }
    hide *;
    BareText(input);
  }

  lemma PrefixedText(input: Str, t: Str, p: Str)
    requires Spells(input, t, Some(p)) && NoMarks(t)
    ensures BlockText(input) == BlockRead(t, Some(p))
  {
    var x, w :| Holds(x, t) && AllSpace(w) && input == x + "/" + p + w;
    var y := TrimmedPrefix(input, x, p, w);
    NoSlash(x, t);
    LoosenHeld(x, t);
    assert '/' !in y by { forall c | c in y ensures c in x {} }
    hide *;
    SlashText(input, y, p);
  }

  lemma TrimmedPrefix(input: Str, x: Str, p: Str, w: Str) returns (y: Str)
    requires AllSpace(w) && (p != "" ==> !Space(p[|p| - 1])) && input == x + "/" + p + w
    ensures Trim(input) == y + "/" + p && Loosen(y) == Loosen(x) && forall c :: c in y ==> c in x
  {
    var v := TrimStartForm(x);
    y := TrimStart(x);
    hide TrimStart, TrimEnd;
    var s := y + "/" + p;
    assert input == v + s + w;
    assert s[|s| - 1] == if p == "" then '/' else p[|p| - 1];
    assert s[0] == if y == "" then '/' else y[0];
    hide Trim;
    Trimmed(v, s, w);
    TrimmedAgain(x);
  }

  lemma TrimmedAgain(x: Str)
    ensures Trim(TrimStart(x)) == Trim(x)
  {
    var v := TrimStartForm(x);
    StartTrimmed("", TrimStart(x));
    assert "" + TrimStart(x) == TrimStart(x);
  }

  // ---------------------------------------------------------------- what a literal means

  /** The dotted text of four bytes. */
  ghost predicate FourLiteral(s: Str)
  {
    exists b :: Bytes(b, 4) && s == Join(Decimals(b), '.')
  }

  /** In the deprecated range ::/96, where only :: and ::1 are addresses. */
  predicate Deprecated(b: seq<int>)
    requires |b| == 16
  {
    b[..12] == [0, 0, 0, 0, 0, 0, 0, 0, 0, 0, 0, 0] && b[12..] != [0, 0, 0, 0] && b[12..] != [0, 0, 0, 1]
  }

  lemma DeprecatedIs(b: seq<int>)
    requires |b| == 16
    ensures IsCompatible(b) <==> Deprecated(b)
    ensures IsMapped(b) <==> b == MappedText(b[12..])
  {
    var z := [0, 0, 0, 0, 0, 0, 0, 0, 0, 0, 0, 0];
    if b[..12] == z { forall i | 0 <= i < 12 ensures b[i] == 0 { assert b[i] == b[..12][i] == z[i]; } }
    if forall i :: 0 <= i < 12 ==> b[i] == 0 { assert b[..12] == z; }
    var t := b[12..];
    assert t[0] == b[12] && t[1] == b[13] && t[2] == b[14] && t[3] == b[15];
    assert b[12] == 0 && b[13] == 0 && b[14] == 0 && b[15] == 0 <==> t == [0, 0, 0, 0];
    assert b[12] == 0 && b[13] == 0 && b[14] == 0 && b[15] == 1 <==> t == [0, 0, 0, 1];
    MappedIs(b);
  }

  function MappedText(d: seq<int>): seq<int>
  {
    [0, 0, 0, 0, 0, 0, 0, 0, 0, 0, 255, 255] + d
  }

  lemma MappedIs(b: seq<int>)
    requires |b| == 16
    ensures IsMapped(b) <==> b == MappedText(b[12..])
  {
    var m := MappedText(b[12..]);
    if b == m { forall i | 0 <= i < 10 ensures b[i] == 0 { assert b[i] == m[i]; } }
  }

  /**
    * Which texts name an address: for an IPv4 address its dotted text, or any IPv6 spelling of its mapped form; for an
    * IPv6 address any spelling of its bytes, unless they are mapped or deprecated. No other text names one.
    */
  lemma IpExactly(s: Str, ip: Ip)
    ensures CanonicalIp(s) == Some(ip) <==>
            (ip.family == 4 && Bytes(ip.bytes, 4) && (s == Join(Decimals(ip.bytes), '.') || SpellsSix(s, MappedText(ip.bytes)))) ||
            (ip.family == 6 && Bytes(ip.bytes, 16) && SpellsSix(s, ip.bytes) && !Deprecated(ip.bytes) && ip.bytes != MappedText(ip.bytes[12..]))
  {
    var raw := RawBytes(s);
    FourExactly(s, ip.bytes);
    SixExactly(s, ip.bytes);
    SixExactly(s, MappedText(ip.bytes));
    if raw.Some? {
      if raw.value.v4 { FourExactly(s, raw.value.bytes); } else {
        SixExactly(s, raw.value.bytes);
        DeprecatedIs(raw.value.bytes);
      }
    }
    if |ip.bytes| == 4 { DeprecatedIs(MappedText(ip.bytes)); }
    hide RawBytes, SpellsSix, IsMapped, IsCompatible, Deprecated, Join, Decimals;
  }

  lemma FourMarks(t: Str, b: seq<int>)
    requires Bytes(b, 4) && t == Join(Decimals(b), '.')
    ensures NoMarks(t) && FourLiteral(t)
  {
    forall i | 0 <= i < |t| ensures !Space(t[i]) && t[i] !in {'/', '[', ']'} { DecimalsChars(b, t[i]); }
    hide Join, Decimals, Space;
  }

  lemma SixMarks(t: Str, b: seq<int>)
    requires SpellsSix(t, b)
    ensures NoMarks(t)
  {
    hide SpellsSix, Lower;
    forall i | 0 <= i < |t| ensures !Space(t[i]) && t[i] !in {'/', '[', ']'}
    {
      if Space(t[i]) || t[i] in {'/', '[', ']'} {
        LowerKeeps(t, t[i]);
        SixChars(t, b, t[i]);
      }
    }
  }

  /** An accepted literal holds nothing that could surround it. */
  lemma LiteralMarks(t: Str)
    requires RawBytes(t).Some?
    ensures NoMarks(t) && (RawBytes(t).value.v4 <==> FourLiteral(t))
  {
    var raw := RawBytes(t).value;
    if raw.v4 {
      FourExactly(t, raw.bytes);
      FourMarks(t, raw.bytes);
    } else {
      SixExactly(t, raw.bytes);
      SixMarks(t, raw.bytes);
    }
    hide RawBytes, Join, Decimals, SpellsSix, NoMarks;
    forall b | Bytes(b, 4) && t == Join(Decimals(b), '.') ensures raw.v4 { FourExactly(t, b); }
  }

  lemma SixChars(t: Str, b: seq<int>, c: char)
    requires SpellsSix(t, b) && !TextChar(c) && !Dot4(c)
    ensures c !in Lower(t)
  {
    var l := Lower(t);
    if SpellsGroups(l, b) {
      var h :| GroupsSpell(l, h) && |h| == 8 && b == GroupBytes(h);
      TakenExactly(l, h);
    } else {
      var u, d :| SpellsTail(l, u, d, b);
      var h :| GroupsSpell(u + "0:0", h) && |h| == 8 && b == GroupBytes(h)[..12] + d;
      TakenExactly(u + "0:0", h);
      DecimalsChars(d, c);
      forall i | 0 <= i < |u| ensures TextChar(u[i]) { assert (u + "0:0")[i] == u[i]; }
      hide GroupsSpell, Taken, Join, Decimals, Lower;
    }
  }

  // ---------------------------------------------------------------- what a block's text means

  predicate Agree(b: seq<int>, c: seq<int>, n: nat)
    requires |b| == |c| && n <= 8 * |b|
  {
    forall i :: 0 <= i < n ==> BitOf(b, i) == BitOf(c, i)
  }

  lemma AllAgree(b: seq<int>, c: seq<int>, m: nat)
    requires Bytes(b, m) && Bytes(c, m) && Agree(b, c, 8 * m)
    ensures b == c
  {
    hide Bit;
    forall i | 0 <= i < m ensures b[i] == c[i]
    {
      forall j | 0 <= j < 8 ensures Bit(b[i], j) == Bit(c[i], j)
      {
        assert (8 * i + j) / 8 == i && (8 * i + j) % 8 == j;
        assert BitOf(b, 8 * i + j) == BitOf(c, 8 * i + j);
      }
      ByteIsBits(b[i], c[i]);
    }
  }

  /** What `CanonicalCidr` makes of what was read. */
  lemma BlockMade(input: Str, t: Str, pre: Option<Str>)
    requires BlockText(input) == BlockRead(t, pre)
    ensures CanonicalCidr(input) == None <==> CanonicalIp(t) == None || BlockRead(t, pre) == None
  {
    hide RawBytes, BlockText, BlockRead;
    assert BlockRead(t, pre).Some? ==> RawBytes(t) == Some(BlockRead(t, pre).value.0) by { Read(t, pre); }
    Read(t, pre);
    if RawBytes(t).Some? && !RawBytes(t).value.v4 { DeprecatedIs(RawBytes(t).value.bytes); }
  }

  lemma Read(t: Str, pre: Option<Str>)
    ensures BlockRead(t, pre).Some? ==> RawBytes(t) == Some(BlockRead(t, pre).value.0)
    ensures BlockRead(t, None).Some? <==> RawBytes(t).Some?
  {
    hide RawBytes, Value;
  }

  /** A bare literal, with white space and one bracket pair around it or not, is the block of that address alone; any other is refused. */
  lemma BareBlock(input: Str, t: Str, j: Ip)
    requires Holds(input, t) && NoMarks(t) && Canonical(j)
    ensures CanonicalCidr(input).Some? <==> CanonicalIp(t).Some?
    ensures CanonicalCidr(input).Some? ==> (Contains(CanonicalCidr(input).value, j) <==> j == CanonicalIp(t).value)
  {
    HeldText(input, t);
    BlockMade(input, t, None);
    Read(t, None);
    if CanonicalCidr(input).Some? {
      WholeBlock(input, t);
      var b := CanonicalCidr(input).value;
      if Contains(b, j) { AllAgree(b.bytes, j.bytes, |b.bytes|); }
    }
    hide CanonicalCidr, CanonicalIp, BlockText, BlockRead, BitOf, IsMapped, IsCompatible, Holds, NoMarks;
  }

  lemma WholeBlock(input: Str, t: Str)
    requires BlockText(input) == BlockRead(t, None) && CanonicalCidr(input).Some? && CanonicalIp(t).Some?
    ensures var b, ip := CanonicalCidr(input).value, CanonicalIp(t).value; b == Block(ip.family, ip.bytes, 8 * |ip.bytes|)
  {
    hide RawBytes, BlockText, IsMapped, IsCompatible;
  }

  /**
    * A literal, a slash and a prefix. It is refused exactly when the literal is, or the prefix is not one to three
    * digits or more than 32 after an IPv4 literal, 128 after an IPv6 one. Otherwise, of the addresses a parse can give,
    * it contains exactly those of the family whose first bits agree; where the literal spells a mapped address, those
    * IPv4 addresses whose mapped form does once the prefix covers the marker, and no IPv4 address before that.
    */
  lemma PrefixedBlock(input: Str, t: Str, p: Str, j: Ip)
    requires Spells(input, t, Some(p)) && NoMarks(t) && Canonical(j)
    ensures CanonicalCidr(input) == None <==>
            CanonicalIp(t) == None || !(1 <= |p| <= 3 && forall i :: 0 <= i < |p| ==> '0' <= p[i] <= '9') ||
            Value(p, 10) > if FourLiteral(t) then 32 else 128
    ensures CanonicalCidr(input).Some? ==>
            var b, ip, n := CanonicalCidr(input).value, CanonicalIp(t).value, Value(p, 10);
            Contains(b, j) <==>
              if FourLiteral(t) then ip.family == 4 && n <= 32 && j.family == 4 && Agree(ip.bytes, j.bytes, n)
              else n <= 128 && Agree(Wide(ip), Wide(j), n) && (j.family == 4 ==> ip.family == 4 && n >= 96)
  {
    PrefixedText(input, t, p);
    BlockMade(input, t, Some(p));
    if RawBytes(t).Some? { LiteralMarks(t); }
    PrefixRead(t, p);
    if CanonicalCidr(input).Some? { PrefixMeans(input, t, p, j); }
    hide CanonicalCidr, CanonicalIp, BlockText, BlockRead, RawBytes, BitOf, IsMapped, IsCompatible, Spells, NoMarks, FourLiteral, Value, Agree, Wide;
  }

  lemma PrefixRead(t: Str, p: Str)
    ensures BlockRead(t, Some(p)) == None <==>
            RawBytes(t) == None || !(1 <= |p| <= 3 && forall i :: 0 <= i < |p| ==> '0' <= p[i] <= '9') ||
            Value(p, 10) > if RawBytes(t).value.v4 then 32 else 128
    ensures RawBytes(t) == None ==> CanonicalIp(t) == None
  {
    hide RawBytes, Value;
  }

  lemma PrefixMeans(input: Str, t: Str, p: Str, j: Ip)
    requires BlockText(input) == BlockRead(t, Some(p)) && CanonicalCidr(input).Some? && CanonicalIp(t).Some? && RawBytes(t).Some? && Canonical(j)
    ensures var b, ip, n := CanonicalCidr(input).value, CanonicalIp(t).value, Value(p, 10);
            Contains(b, j) <==>
              if RawBytes(t).value.v4 then ip.family == 4 && n <= 32 && j.family == 4 && Agree(ip.bytes, j.bytes, n)
              else n <= 128 && Agree(Wide(ip), Wide(j), n) && (j.family == 4 ==> ip.family == 4 && n >= 96)
  {
    hide RawBytes, BlockText, Value, IsCompatible, BitOf;
    var raw, n := RawBytes(t).value, Value(p, 10);
    if !raw.v4 && IsMapped(raw.bytes) {
      MappedIs(raw.bytes);
      if n >= 96 {
        MappedAgree(raw.bytes, n, j);
      }
    }
  }

  lemma MappedAgree(b: seq<int>, n: nat, j: Ip)
    requires Bytes(b, 16) && IsMapped(b) && 96 <= n <= 128 && Canonical(j)
    ensures Contains(Block(4, b[12..], n - 96), j) <==> Agree(b, Wide(j), n)
    ensures j.family == 6 ==> !Agree(b, Wide(j), n)
  {
    if j.family == 4 {
      MappedBits(b, n, j.bytes);
    } else if Agree(b, j.bytes, n) {
      MappedPrefix(b, j.bytes);
    }
    hide BitOf, IsMapped, IsCompatible;
  }

  /** Every text that is taken for a block is of that form. */
  lemma BlockSpelled(input: Str)
    requires CanonicalCidr(input).Some?
    ensures exists t, pre :: Spells(input, t, pre) && NoMarks(t) && CanonicalIp(t).Some?
  {
    var v, w := TrimForm(input);
    var s := Trim(input);
    var k := Find(s, '/');
    var x := s[..k];
    var t := Loosen(x);
    LiteralTaken(input);
    LiteralMarks(t);
    LoosenForm(x);
    hide *;
    if k < |s| {
      var p := s[k + 1..];
      HoldsMore(v, x, "", t);
      assert v + x + "" == v + x;
      Slashed(input, v, s, k, w);
      SpelledSlash(input, v + x, p, w, t);
      assert Spells(input, t, Some(p));
    } else {
      assert x == s;
      HoldsMore(v, x, w, t);
      SpelledBare(input, t);
      assert Spells(input, t, None);
    }
  }

  lemma LiteralTaken(input: Str)
    requires CanonicalCidr(input).Some?
    ensures var s := Trim(input); var t := Loosen(s[..Find(s, '/')]); RawBytes(t).Some? && CanonicalIp(t).Some?
  {
    hide RawBytes, Trim, Loosen, Find, IsMapped, IsCompatible, Value;
    var raw := RawBytes(Loosen(Trim(input)[..Find(Trim(input), '/')]));
    if raw.Some? && !raw.value.v4 { DeprecatedIs(raw.value.bytes); }
  }

  lemma Slashed(input: Str, v: Str, s: Str, k: nat, w: Str)
    requires input == v + s + w && k < |s| && s[k] == '/' && Bare(s)
    ensures input == (v + s[..k]) + "/" + s[k + 1..] + w && (s[k + 1..] != "" ==> !Space(s[k + 1..][|s[k + 1..]| - 1]))
  {
    assert s == s[..k] + "/" + s[k + 1..];
  }

  lemma SpelledSlash(input: Str, x: Str, p: Str, w: Str, t: Str)
    requires Holds(x, t) && AllSpace(w) && input == x + "/" + p + w && (p != "" ==> !Space(p[|p| - 1]))
    ensures Spells(input, t, Some(p))
  {
    hide Holds, AllSpace, Space;
  }

  lemma SpelledBare(input: Str, t: Str)
    requires Holds(input, t)
    ensures Spells(input, t, None)
  {
  }

  lemma HoldsMore(v: Str, x: Str, w: Str, t: Str)
    requires AllSpace(v) && AllSpace(w) && Holds(x, t)
    ensures Holds(v + x + w, t)
  {
    var a, b :| AllSpace(a) && AllSpace(b) && (x == a + t + b || x == a + ("[" + t + "]") + b);
    SpacesAdd(v, a);
    SpacesAdd(b, w);
    hide AllSpace;
    if x == a + t + b { Regroup(v, a, t, b, w); } else { Regroup(v, a, "[" + t + "]", b, w); }
  }

  lemma SpacesAdd(v: Str, w: Str)
    requires AllSpace(v) && AllSpace(w)
    ensures AllSpace(v + w)
  {
  }

  lemma Regroup(v: Str, a: Str, t: Str, b: Str, w: Str)
    ensures v + (a + t + b) + w == (v + a) + t + (b + w)
  {
  }
}
