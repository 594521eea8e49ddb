/** The parser's loops, and the archives it must accept: what a ustar writer makes comes back byte for byte. */
module BackupTarFormat {
  import opened BackupTar

  // ---------------------------------------------------------------- the loops

  /** The two header checksums, in one pass. */
  method HeaderSums(h: Buffer) returns (unsigned: int, signed: int)
    requires |h| == BLOCK
    ensures unsigned == UnsignedSum(h, BLOCK) && signed == SignedSum(h, BLOCK)
  {
    unsigned, signed := 0, 0;
    for i := 0 to BLOCK
      invariant unsigned == UnsignedSum(h, i) && signed == SignedSum(h, i)
    {
      var b := SummedAt(h, i);
      unsigned, signed := unsigned + b, signed + if b > 127 then b - 256 else b;
    }
  }

  method CheckPaxRecords(body: Buffer) returns (r: Result<()>)
    ensures r == CheckPaxFrom(body, 0)
  {
    hide PaxRecordAt;
    var i := 0;
    while i < |body|
      invariant 0 <= i <= |body| && CheckPaxFrom(body, i) == CheckPaxFrom(body, 0)
      decreases |body| - i
    {
      var record := PaxRecordAt(body, i);
      if record.Refused? { return Refused(record.why); }
      i := record.value;
    }
    return Ok(());
  }

  /** `extractBackupTar`: one member a turn, until the zero trailer or a refusal. */
  method ExtractBackupTar(tar: Buffer) returns (r: Result<Met>)
    requires IsBytes(tar)
    ensures r == Extract(tar)
  {
    hide ParseHeader, CheckPaxFrom, RoundUp, AllZero, IsDouble, IsBytes;
    var at, pax := 0, false;
    var extracted: seq<Member>, skipped: seq<Str>, doubles: set<Str> := [], [], {};
    while true
      invariant 0 <= at && Walk(tar, at, Met(pax, extracted, skipped, doubles)) == Extract(tar)
      decreases |tar| - at
    {
      if at + BLOCK > |tar| { return Refused(Truncated); }
      var h := tar[at..at + BLOCK];
      if AllZero(h) {
        if pax { return Refused(PaxAtEnd); }
        if at + 2 * BLOCK > |tar| || !AllZero(tar[at + BLOCK..at + 2 * BLOCK]) { return Refused(OneZeroBlock); }
        if !AllZero(tar[at + 2 * BLOCK..]) { return Refused(DataAfterEnd); }
        return Ok(Met(pax, extracted, skipped, doubles));
      }
      Part(tar, at);
      var parsed := ParseHeader(h);
      if parsed.Refused? { return Refused(parsed.why); }
      var hdr := parsed.value;
      var dataAt := at + BLOCK;
      if dataAt + hdr.size > |tar| { return Refused(Truncated); }
      var data := tar[dataAt..dataAt + hdr.size];
      ghost var met := MeetMember(Met(pax, extracted, skipped, doubles), hdr, data);
      TurnIs(tar, at, Met(pax, extracted, skipped, doubles), hdr, data, met);
      var pax', extracted', skipped', doubles' := pax, extracted, skipped, doubles;
      if hdr.flag == 'x' as int {
        if pax { return Refused(TwoPax); }
        if hdr.size > MAX_SKIPPED_BYTES { return Refused(PaxTooLarge); }
        var checked := CheckPaxRecords(data);
        if checked.Refused? { return Refused(checked.why); }
        pax' := true;
      } else if hdr.flag != 0x30 {
        return Refused(NotRegular);
      } else if IsDouble(hdr.name) {
        if pax { return Refused(PaxBeforeDouble); }
        if hdr.name in doubles { return Refused(Duplicate); }
        if hdr.size > MAX_SKIPPED_BYTES { return Refused(DoubleTooLarge); }
        doubles', skipped' := doubles + {hdr.name}, skipped + [hdr.name];
      } else {
        if hdr.name !in EXPECTED { return Refused(NotExpected); }
        if hdr.name in NamesOf(extracted) { return Refused(Duplicate); }
        if hdr.size > CapOf(hdr.name) { return Refused(OverCap); }
        if pax { skipped' := skipped + ["pax header for " + hdr.name]; }
        pax', extracted' := false, extracted + [Member(hdr.name, data)];
      }
      assert met == Ok(Met(pax', extracted', skipped', doubles'));
      pax, extracted, skipped, doubles := pax', extracted', skipped', doubles';
      at := dataAt + RoundUp(hdr.size);
    }
  }

  lemma Part(tar: Buffer, at: nat)
    requires IsBytes(tar) && at + BLOCK <= |tar|
    ensures IsBytes(tar[at..at + BLOCK])
  {
  }

  lemma TurnIs(tar: Buffer, at: nat, m: Met, hdr: Header, data: Buffer, met: Result<Met>)
    requires IsBytes(tar) && at + BLOCK + hdr.size <= |tar| && !AllZero(tar[at..at + BLOCK])
    requires ParseHeader(tar[at..at + BLOCK]) == Ok(hdr) && data == tar[at + BLOCK..at + BLOCK + hdr.size] && met == MeetMember(m, hdr, data)
    ensures Walk(tar, at, m) == if met.Refused? then Refused(met.why) else Walk(tar, at + BLOCK + RoundUp(hdr.size), met.value)
  {
    hide ParseHeader, MeetMember, RoundUp, AllZero, IsBytes;
  }

  // ---------------------------------------------------------------- a ustar archive

  function Pow8(n: nat): nat
  {
    if n == 0 then 1 else 8 * Pow8(n - 1)
  }

  /** `v` in `n` octal digits. */
  function OctalDigits(v: nat, n: nat): (t: Buffer)
    ensures |t| == n && Octal(t)
  {
    if n == 0 then [] else OctalDigits(v / 8, n - 1) + [0x30 + v % 8]
  }

  lemma {:induction false} OctalBack(v: nat, n: nat)
    requires v < Pow8(n)
    ensures OctalValue(OctalDigits(v, n)) == v
  {
    if n > 0 {
      OctalBack(v / 8, n - 1);
      var t := OctalDigits(v, n);
      assert t[..n - 1] == OctalDigits(v / 8, n - 1);
    }
  }

  function Zeros(n: nat): (b: Buffer)
    ensures |b| == n && AllZero(b) && IsBytes(b)
  {
    seq(n, _ => 0)
  }

  predicate FlatName(name: Str)
  {
    |name| < 100 && forall i :: 0 <= i < |name| ==> 0 < name[i] as int < 256
  }

  /** The fields of a header the reader does not look at: mode and owners, times, link, names and devices, filler. */
  datatype Meta = Meta(owners: Buffer, mtime: Buffer, link: Buffer, who: Buffer, filler: Buffer)

  predicate MetaOk(m: Meta)
  {
    |m.owners| == 24 && |m.mtime| == 12 && |m.link| == 100 && |m.who| == 80 && |m.filler| == 12 &&
    IsBytes(m.owners) && IsBytes(m.mtime) && IsBytes(m.link) && IsBytes(m.who) && IsBytes(m.filler)
  }

  function NameField(name: Str): (f: Buffer)
    requires FlatName(name)
    ensures |f| == 100 && IsBytes(f)
  {
    Ascii(name) + Zeros(100 - |name|)
  }

  /** A regular member's ustar header with this text in its checksum field. */
  function HeaderWith(name: Str, size: nat, m: Meta, sum: Buffer): (h: Buffer)
    requires FlatName(name) && MetaOk(m) && |sum| == 8 && IsBytes(sum)
    ensures |h| == BLOCK
  {
    NameField(name) + m.owners + (OctalDigits(size, 11) + [0]) + m.mtime + sum + [0x30] + m.link + POSIX_MAGIC + m.who + Zeros(155) + m.filler
  }

  const BLANK_SUM: Buffer := [0x20, 0x20, 0x20, 0x20, 0x20, 0x20, 0x20, 0x20]

  function SumField(sum: nat): (f: Buffer)
    ensures |f| == 8 && IsBytes(f)
  {
    OctalDigits(sum, 6) + [0, 0x20]
  }

  lemma OctalIsBytes(t: Buffer)
    requires Octal(t)
    ensures IsBytes(t)
  {
  }

  lemma HeaderBytes(name: Str, size: nat, m: Meta, sum: Buffer)
    requires FlatName(name) && MetaOk(m) && |sum| == 8 && IsBytes(sum)
    ensures IsBytes(HeaderWith(name, size, m, sum))
  {
    OctalIsBytes(OctalDigits(size, 11));
    ConcatBytes(NameField(name), m.owners);
    var a := NameField(name) + m.owners;
    ConcatBytes(a, OctalDigits(size, 11) + [0]);
    var b := a + (OctalDigits(size, 11) + [0]);
    ConcatBytes(b, m.mtime);
    ConcatBytes(b + m.mtime, sum);
    var c := b + m.mtime + sum;
    ConcatBytes(c, [0x30]);
    ConcatBytes(c + [0x30], m.link);
    var d := c + [0x30] + m.link;
    ConcatBytes(d, POSIX_MAGIC);
    ConcatBytes(d + POSIX_MAGIC, m.who);
    ConcatBytes(d + POSIX_MAGIC + m.who, Zeros(155));
    ConcatBytes(d + POSIX_MAGIC + m.who + Zeros(155), m.filler);
  }

  lemma ConcatBytes(x: Buffer, y: Buffer)
    requires IsBytes(x) && IsBytes(y)
    ensures IsBytes(x + y)
  {
  }

  /** A member's header as a ustar writer makes it: the checksum is the sum with its own field blank. */
  function UstarHeader(name: Str, size: nat, m: Meta): (h: Buffer)
    requires FlatName(name) && MetaOk(m)
    ensures |h| == BLOCK
  {
    HeaderBytes(name, size, m, BLANK_SUM);
    SumAtLeastZero(HeaderWith(name, size, m, BLANK_SUM), BLOCK);
    HeaderWith(name, size, m, SumField(UnsignedSum(HeaderWith(name, size, m, BLANK_SUM), BLOCK)))
  }

  lemma {:induction false} SumAtLeastZero(h: Buffer, n: nat)
    requires n <= |h| && IsBytes(h)
    ensures 0 <= UnsignedSum(h, n) <= 255 * n
  {
    if n > 0 { SumAtLeastZero(h, n - 1); }
  }

  lemma {:induction false} SumAgrees(g: Buffer, h: Buffer, n: nat)
    requires |g| == |h| && n <= |g| && forall i :: 0 <= i < n ==> SummedAt(g, i) == SummedAt(h, i)
    ensures UnsignedSum(g, n) == UnsignedSum(h, n)
  {
    if n > 0 { SumAgrees(g, h, n - 1); }
  }

  // ---------------------------------------------------------------- reading a field back

  lemma FieldBack(t: Buffer, tail: Buffer)
    requires t != [] && Octal(t) && (forall i :: 0 <= i < |tail| ==> tail[i] == 0 || tail[i] == 0x20)
    ensures FieldText(t + tail) == t
  {
    TrailingOff(t, tail);
  }

  lemma {:induction false} TrailingOff(t: Buffer, tail: Buffer)
    requires t != [] && Octal(t) && (forall i :: 0 <= i < |tail| ==> tail[i] == 0 || tail[i] == 0x20)
    ensures DropTrailing(t + tail) == t
    decreases |tail|
  {
    if tail == [] {
      assert t + tail == t;
    } else {
      assert (t + tail)[..|t + tail| - 1] == t + tail[..|tail| - 1];
      TrailingOff(t, tail[..|tail| - 1]);
    }
  }

  lemma {:induction false} ZeroAfter(f: Buffer, rest: Buffer)
    requires 0 !in f && (rest == [] || rest[0] == 0)
    ensures FirstZero(f + rest) == |f|
  {
    if f == [] {
      assert f + rest == rest;
    } else {
      assert f[0] in f && (f + rest)[1..] == f[1..] + rest;
      ZeroAfter(f[1..], rest);
    }
  }

  lemma NameBack(name: Str)
    requires FlatName(name)
    ensures var f := NameField(name); Latin1(f[..FirstZero(f)]) == name
  {
    assert 0 !in Ascii(name);
    ZeroAfter(Ascii(name), Zeros(100 - |name|));
    assert NameField(name)[..|name|] == Ascii(name);
  }

  /** Where each field of a header stands. */
  lemma HeaderFields(name: Str, size: nat, m: Meta, sum: Buffer)
    requires FlatName(name) && MetaOk(m) && |sum| == 8 && IsBytes(sum)
    ensures var h := HeaderWith(name, size, m, sum);
            h[..100] == NameField(name) && h[124..136] == OctalDigits(size, 11) + [0] && h[148..156] == sum && h[156] == 0x30 &&
            h[257..265] == POSIX_MAGIC && h[345..500] == Zeros(155)
  {
  }

  lemma SumsSame(name: Str, size: nat, m: Meta, s1: Buffer, s2: Buffer)
    requires FlatName(name) && MetaOk(m) && |s1| == 8 && IsBytes(s1) && |s2| == 8 && IsBytes(s2)
    ensures UnsignedSum(HeaderWith(name, size, m, s1), BLOCK) == UnsignedSum(HeaderWith(name, size, m, s2), BLOCK)
  {
    var g, h := HeaderWith(name, size, m, s1), HeaderWith(name, size, m, s2);
    forall i | 0 <= i < BLOCK ensures SummedAt(g, i) == SummedAt(h, i) { }
    SumAgrees(g, h, BLOCK);
  }

  /** The parser reads a ustar writer's header as what was written. */
  lemma HeaderBack(name: Str, size: nat, m: Meta)
    requires FlatName(name) && MetaOk(m) && size < Pow8(11)
    ensures var h := UstarHeader(name, size, m); IsBytes(h) && !AllZero(h) && ParseHeader(h) == Ok(Header(name, 0x30, size))
  {
    var blank := HeaderWith(name, size, m, BLANK_SUM);
    HeaderBytes(name, size, m, BLANK_SUM);
    SumAtLeastZero(blank, BLOCK);
    var total := UnsignedSum(blank, BLOCK);
    var sum := SumField(total);
    var h := UstarHeader(name, size, m);
    HeaderBytes(name, size, m, sum);
    HeaderFields(name, size, m, sum);
    SumsSame(name, size, m, sum, BLANK_SUM);
    assert Pow8(6) == 262_144;
    OctalBack(total, 6);
    FieldBack(OctalDigits(total, 6), [0, 0x20]);
    OctalBack(size, 11);
    FieldBack(OctalDigits(size, 11), [0]);
    NameBack(name);
    hide HeaderWith, NameField, OctalDigits, OctalValue, FieldText, UnsignedSum, SignedSum, Pow8, Latin1, FirstZero;
    assert h[156] == 0x30;
  }

  // ---------------------------------------------------------------- the round trip

  /** A member as a writer lays it down: its header's free fields, and the bytes that fill its last block. */
  datatype Entry = Entry(member: Member, meta: Meta, pad: Buffer)

  predicate EntryOk(e: Entry)
  {
    e.member.name in EXPECTED && IsBytes(e.member.data) && |e.member.data| <= CapOf(e.member.name) && MetaOk(e.meta) &&
    IsBytes(e.pad) && |e.member.data| + |e.pad| == RoundUp(|e.member.data|)
  }

  lemma ExpectedFlat(name: Str)
    requires name in EXPECTED
    ensures FlatName(name) && !IsDouble(name)
  {
  }

  function EntryBytes(e: Entry): Buffer
    requires EntryOk(e)
  {
    ExpectedFlat(e.member.name);
    UstarHeader(e.member.name, |e.member.data|, e.meta) + e.member.data + e.pad
  }

  /** The members one behind another, then two zero blocks and any number of zero bytes. */
  function Archive(es: seq<Entry>, extra: nat): Buffer
    requires forall e :: e in es ==> EntryOk(e)
  {
    if es == [] then Zeros(2 * BLOCK + extra) else EntryBytes(es[0]) + Archive(es[1..], extra)
  }

  function MembersOf(es: seq<Entry>): seq<Member>
  {
    seq(|es|, i requires 0 <= i < |es| => es[i].member)
  }

  predicate DistinctEntries(es: seq<Entry>)
  {
    forall i, j :: 0 <= i < j < |es| ==> es[i].member.name != es[j].member.name
  }

  lemma {:induction false} ArchiveIsBytes(es: seq<Entry>, extra: nat)
    requires forall e :: e in es ==> EntryOk(e)
    ensures IsBytes(Archive(es, extra))
  {
    if es != [] {
      var e := es[0];
      assert e in es && EntryOk(e);
      ExpectedFlat(e.member.name);
      SizeFits(e);
      HeaderBack(e.member.name, |e.member.data|, e.meta);
      ArchiveIsBytes(es[1..], extra);
      hide EntryOk, UstarHeader, ParseHeader, Archive;
      ConcatBytes(UstarHeader(e.member.name, |e.member.data|, e.meta), e.member.data);
    }
  }

  lemma SizeFits(e: Entry)
    requires EntryOk(e)
    ensures |e.member.data| < Pow8(11)
  {
    assert Pow8(5) == 32_768 && Pow8(11) == 8_589_934_592;
  }

  lemma MeetEntry(m: Met, e: Entry)
    requires EntryOk(e) && !m.pax && e.member.name !in NamesOf(m.members)
    ensures MeetMember(m, Header(e.member.name, 0x30, |e.member.data|), e.member.data) == Ok(m.(members := m.members + [e.member]))
  {
    hide UstarHeader;
  }

  /** An entry's bytes: a header block that reads back, its data and its padding. */
  ghost predicate Laid(e: Entry, h: Buffer, bytes: Buffer)
  {
    bytes == h + e.member.data + e.pad && |h| == BLOCK && IsBytes(h) && !AllZero(h) &&
    ParseHeader(h) == Ok(Header(e.member.name, 0x30, |e.member.data|)) && |e.member.data| + |e.pad| == RoundUp(|e.member.data|)
  }

  lemma EntryLaid(e: Entry) returns (h: Buffer)
    requires EntryOk(e)
    ensures Laid(e, h, EntryBytes(e))
  {
    ExpectedFlat(e.member.name);
    SizeFits(e);
    h := UstarHeader(e.member.name, |e.member.data|, e.meta);
    hide UstarHeader, ParseHeader, AllZero, IsBytes;
    HeaderBack(e.member.name, |e.member.data|, e.meta);
  }

  lemma SlicesLaid(tar: Buffer, at: nat, e: Entry, h: Buffer, bytes: Buffer, rest: Buffer)
    requires at <= |tar| && Laid(e, h, bytes) && tar[at..] == bytes + rest
    ensures var size := |e.member.data|;
            at + BLOCK + RoundUp(size) <= |tar| && tar[at..at + BLOCK] == h && tar[at + BLOCK..at + BLOCK + size] == e.member.data &&
            tar[at + BLOCK + RoundUp(size)..] == rest && size <= RoundUp(size) &&
            IsBytes(h) && |h| == BLOCK && !AllZero(h) && ParseHeader(h) == Ok(Header(e.member.name, 0x30, size))
  {
    hide AllZero, ParseHeader, RoundUp, IsBytes;
    EntrySlices(tar, at, h, e.member.data, e.pad, rest);
  }

  /** One entry where it stands: the turn there meets its member. */
  lemma TurnAtEntry(tar: Buffer, at: nat, e: Entry, rest: Buffer, m: Met)
    requires IsBytes(tar) && EntryOk(e) && at <= |tar| && tar[at..] == EntryBytes(e) + rest
    requires !m.pax && e.member.name !in NamesOf(m.members)
    ensures at + BLOCK + RoundUp(|e.member.data|) <= |tar| && tar[at + BLOCK + RoundUp(|e.member.data|)..] == rest
    ensures Walk(tar, at, m) == Walk(tar, at + BLOCK + RoundUp(|e.member.data|), m.(members := m.members + [e.member]))
  {
    hide *;
    var h := EntryLaid(e);
    SlicesLaid(tar, at, e, h, EntryBytes(e), rest);
    MeetEntry(m, e);
    TurnIs(tar, at, m, Header(e.member.name, 0x30, |e.member.data|), e.member.data, Ok(m.(members := m.members + [e.member])));
  }

  lemma EntrySlices(tar: Buffer, at: nat, h: Buffer, data: Buffer, pad: Buffer, rest: Buffer)
    requires at <= |tar| && tar[at..] == h + data + pad + rest && |h| == BLOCK
    ensures at + BLOCK + |data| + |pad| <= |tar|
    ensures tar[at..at + BLOCK] == h && tar[at + BLOCK..at + BLOCK + |data|] == data && tar[at + BLOCK + |data| + |pad|..] == rest
  {
    var t := tar[at..];
    assert |t| == |tar| - at;
    assert tar[at..at + BLOCK] == t[..BLOCK];
    assert tar[at + BLOCK..at + BLOCK + |data|] == t[BLOCK..BLOCK + |data|];
    assert tar[at + BLOCK + |data| + |pad|..] == t[BLOCK + |data| + |pad|..];
  }

  lemma ArchiveEnd(tar: Buffer, at: nat, extra: nat, m: Met)
    requires IsBytes(tar) && at <= |tar| && tar[at..] == Zeros(2 * BLOCK + extra) && !m.pax
    ensures Walk(tar, at, m) == Ok(m)
  {
    var t := tar[at..];
    assert tar[at..at + BLOCK] == t[..BLOCK];
    assert tar[at + BLOCK..at + 2 * BLOCK] == t[BLOCK..2 * BLOCK];
    assert tar[at + 2 * BLOCK..] == t[2 * BLOCK..];
  }

  lemma {:induction false} WalkArchive(tar: Buffer, at: nat, es: seq<Entry>, extra: nat, m: Met)
    requires IsBytes(tar) && at <= |tar| && (forall e :: e in es ==> EntryOk(e)) && tar[at..] == Archive(es, extra)
    requires !m.pax && DistinctEntries(es) && forall e :: e in es ==> e.member.name !in NamesOf(m.members)
    ensures Walk(tar, at, m) == Ok(m.(members := m.members + MembersOf(es)))
    decreases |es|
  {
    hide EntryOk, EntryBytes, Walk, IsBytes, RoundUp, NamesOf;
    if es == [] {
      ArchiveEnd(tar, at, extra, m);
      assert m.members + MembersOf([]) == m.members;
    } else {
      var e, rest := es[0], es[1..];
      var n := m.(members := m.members + [e.member]);
      RestDistinct(es, m.members);
      MembersFirst(es, m.members);
      hide DistinctEntries, MembersOf;
      TurnAtEntry(tar, at, e, Archive(rest, extra), m);
      hide Archive;
      WalkArchive(tar, at + BLOCK + RoundUp(|e.member.data|), rest, extra, n);
    }
  }

  /** What follows the first entry is as distinct, and from what has been met with it. */
  lemma RestDistinct(es: seq<Entry>, met: seq<Member>)
    requires es != [] && (forall e :: e in es ==> EntryOk(e)) && DistinctEntries(es) && forall e :: e in es ==> e.member.name !in NamesOf(met)
    ensures es[0] in es && (forall e :: e in es[1..] ==> EntryOk(e)) && DistinctEntries(es[1..])
    ensures forall e :: e in es[1..] ==> e.member.name !in NamesOf(met + [es[0].member])
  {
    hide EntryOk;
    forall x | x in es[1..] ensures x.member.name !in NamesOf(met + [es[0].member])
    {
      var i :| 0 <= i < |es[1..]| && es[1..][i] == x;
      assert es[i + 1] == x && es[0].member.name != es[i + 1].member.name;
    }
  }

  lemma MembersFirst(es: seq<Entry>, met: seq<Member>)
    requires es != []
    ensures met + [es[0].member] + MembersOf(es[1..]) == met + MembersOf(es)
  {
    assert [es[0].member] + MembersOf(es[1..]) == MembersOf(es);
  }

  /**
    * The round trip: any distinct expected members within their caps, laid down as a ustar writer does,
    * whatever the writer put in the fields and padding the format leaves free, come back exactly.
    */
  lemma ArchiveRoundTrip(es: seq<Entry>, extra: nat)
    requires (forall e :: e in es ==> EntryOk(e)) && DistinctEntries(es)
    ensures IsBytes(Archive(es, extra)) && Extract(Archive(es, extra)) == Ok(Met(false, MembersOf(es), [], {}))
  {
    hide Archive, EntryOk, Walk;
    var tar := Archive(es, extra);
    ArchiveIsBytes(es, extra);
    assert tar[0..] == tar;
    WalkArchive(tar, 0, es, extra, NOTHING_MET);
    assert [] + MembersOf(es) == MembersOf(es);
  }
}
