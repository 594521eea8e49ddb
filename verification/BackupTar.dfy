/** The backup archive's one parser. */
module BackupTar {
  // It decides and extracts: only the expected regular members, and nothing in the file that is not a header, a
  // member's data, its padding or the zero trailer.

  type Str = string
  type Buffer = seq<int>

  const BLOCK: nat := 512
  const MAX_DECOMPRESSED_BYTES: nat := 0x1_0000_0000
  const MAX_JSON_BYTES: nat := 1_048_576
  const MAX_SKIPPED_BYTES: nat := 65_536
  const MAX_SAFE_INTEGER: nat := 0x1f_ffff_ffff_ffff

  const EXPECTED := {"relay.db", "manifest.json", "config.json"}

  function CapOf(name: Str): nat
  {
    if name == "relay.db" then MAX_DECOMPRESSED_BYTES else MAX_JSON_BYTES
  }

  datatype Refusal =
    | NegativeSize | SizeTooLarge | SizeNotOctal | MalformedChecksum | ChecksumMismatch | NotUstar | NamePrefix
    | PaxLength | PaxRecord | PaxNoKey | PaxKey | PaxAtEnd | TwoPax | PaxTooLarge | PaxBeforeDouble
    | Truncated | OneZeroBlock | DataAfterEnd | NotRegular | Duplicate | DoubleTooLarge | NotExpected | OverCap

  datatype Result<+T> = Ok(value: T) | Refused(why: Refusal)

  /** Every element a byte. */
  predicate IsBytes(b: Buffer)
  {
    forall i :: 0 <= i < |b| ==> 0 <= b[i] < 256
  }

  // ---------------------------------------------------------------- header fields

  function DropTrailing(f: Buffer): Buffer
  {
    if f != [] && (f[|f| - 1] == 0 || f[|f| - 1] == 0x20) then DropTrailing(f[..|f| - 1]) else f
  }

  function DropLeading(f: Buffer): Buffer
  {
    if f != [] && f[0] == 0x20 then DropLeading(f[1..]) else f
  }

  /** A numeric field's text: trailing NULs and spaces off, then leading spaces. */
  function FieldText(f: Buffer): Buffer
  {
    DropLeading(DropTrailing(f))
  }

  predicate Octal(t: Buffer)
  {
    forall i :: 0 <= i < |t| ==> 0x30 <= t[i] <= 0x37
  }

  function OctalValue(t: Buffer): (v: nat)
    requires Octal(t)
  {
    if t == [] then 0 else OctalValue(t[..|t| - 1]) * 8 + (t[|t| - 1] - 0x30)
  }

  function Base256(f: Buffer): (v: nat)
    requires IsBytes(f)
  {
    if f == [] then 0 else Base256(f[..|f| - 1]) * 256 + f[|f| - 1]
  }

  /** `parseSize`: octal text, or positive base-256 when the top bit is set. */
  function ParseSize(f: Buffer): Result<nat>
    requires |f| == 12 && IsBytes(f)
  {
    if f[0] >= 0x80 then
      if f[0] == 0xff then Refused(NegativeSize)
      else
        var v := Base256([f[0] - 0x80] + f[1..]);
        if v > MAX_SAFE_INTEGER then Refused(SizeTooLarge) else Ok(v)
    else if !Octal(FieldText(f)) then Refused(SizeNotOctal)
    else Ok(OctalValue(FieldText(f)))
  }

  /** One header byte as the checksum counts it: the checksum field itself as spaces. */
  function SummedAt(h: Buffer, i: nat): int
    requires i < |h|
  {
    if 148 <= i < 156 then 0x20 else h[i]
  }

  function UnsignedSum(h: Buffer, n: nat): int
    requires n <= |h|
  {
    if n == 0 then 0 else UnsignedSum(h, n - 1) + SummedAt(h, n - 1)
  }

  function SignedSum(h: Buffer, n: nat): int
    requires n <= |h|
  {
    if n == 0 then 0
    else
      var b := SummedAt(h, n - 1);
      SignedSum(h, n - 1) + if b > 127 then b - 256 else b
  }

  const POSIX_MAGIC: Buffer := [0x75, 0x73, 0x74, 0x61, 0x72, 0, 0x30, 0x30]
  const GNU_MAGIC: Buffer := [0x75, 0x73, 0x74, 0x61, 0x72, 0x20, 0x20, 0]

  function FirstZero(f: Buffer): (k: nat)
    ensures k <= |f| && 0 !in f[..k] && (k < |f| ==> f[k] == 0)
  {
    if f == [] || f[0] == 0 then 0
    else
      var k := FirstZero(f[1..]);
      assert f[..k + 1] == [f[0]] + f[1..][..k];
      k + 1
  }

  function Latin1(f: Buffer): (s: Str)
    requires IsBytes(f)
    ensures |s| == |f| && forall i :: 0 <= i < |f| ==> s[i] as int == f[i]
  {
    seq(|f|, i requires 0 <= i < |f| => f[i] as char)
  }

  datatype Header = Header(name: Str, flag: int, size: nat)

  predicate AllZero(b: Buffer)
  {
    forall i :: 0 <= i < |b| ==> b[i] == 0
  }

  /** `parseHeader`: checksum, magic, prefix, then name, type and size. */
  function ParseHeader(h: Buffer): Result<Header>
    requires |h| == BLOCK && IsBytes(h)
  {
    var stored := FieldText(h[148..156]);
    if stored == [] || !Octal(stored) then Refused(MalformedChecksum)
    else if OctalValue(stored) != UnsignedSum(h, BLOCK) && OctalValue(stored) != SignedSum(h, BLOCK) then Refused(ChecksumMismatch)
    else if h[257..265] != POSIX_MAGIC && h[257..265] != GNU_MAGIC then Refused(NotUstar)
    else if h[257..265] == POSIX_MAGIC && !AllZero(h[345..500]) then Refused(NamePrefix)
    else
      var size := ParseSize(h[124..136]);
      if size.Refused? then Refused(size.why)
      else Ok(Header(Latin1(h[..100][..FirstZero(h[..100])]), if h[156] == 0 then 0x30 else h[156], size.value))
  }

  // ---------------------------------------------------------------- pax records

  function FindByte(b: Buffer, x: int): (k: nat)
    ensures k <= |b| && x !in b[..k] && (k < |b| ==> b[k] == x)
  {
    if b == [] || b[0] == x then 0
    else
      var k := FindByte(b[1..], x);
      assert b[..k + 1] == [b[0]] + b[1..][..k];
      k + 1
  }

  predicate Decimal(t: Buffer)
  {
    t != [] && 0x31 <= t[0] <= 0x39 && forall i :: 0 <= i < |t| ==> 0x30 <= t[i] <= 0x39
  }

  function DecimalValue(t: Buffer): (v: nat)
    requires forall i :: 0 <= i < |t| ==> 0x30 <= t[i] <= 0x39
  {
    if t == [] then 0 else DecimalValue(t[..|t| - 1]) * 10 + (t[|t| - 1] - 0x30)
  }

  function Ascii(s: Str): Buffer
  {
    seq(|s|, i requires 0 <= i < |s| => s[i] as int)
  }

  /** The closed set of pax keys: three times, and extended attributes with a name. */
  predicate PaxKeyOk(key: Buffer)
  {
    key in {Ascii("mtime"), Ascii("atime"), Ascii("ctime")} ||
    (Ascii("SCHILY.xattr.") < key) || (Ascii("LIBARCHIVE.xattr.") < key)
  }

  /** One record from `i`: where it ends, or why it is refused. */
  function PaxRecordAt(body: Buffer, i: nat): (r: Result<nat>)
    requires i < |body|
    ensures r.Ok? ==> i < r.value <= |body|
  {
    var sp := FindByte(body[i..], 0x20);
    var text := if sp < |body| - i then body[i..][..sp] else [];
    if !Decimal(text) then Refused(PaxLength)
    else
      var end := i + DecimalValue(text);
      if end > |body| || end == i || body[end - 1] != 0x0a then Refused(PaxRecord)
      else if end - 1 < i + sp + 1 then Refused(PaxNoKey)
      else
        var record := body[i + sp + 1..end - 1];
        var eq := FindByte(record, 0x3d);
        if eq == |record| || eq == 0 then Refused(PaxNoKey)
        else if !PaxKeyOk(record[..eq]) then Refused(PaxKey)
        else Ok(end)
  }

  /** `checkPaxRecords` from position `i` on. */
  function CheckPaxFrom(body: Buffer, i: nat): Result<()>
    requires i <= |body|
    decreases |body| - i
  {
    if i == |body| then Ok(())
    else
      var r := PaxRecordAt(body, i);
      if r.Refused? then Refused(r.why) else CheckPaxFrom(body, r.value)
  }

  // ---------------------------------------------------------------- the walk

  datatype Member = Member(name: Str, data: Buffer)

  /** What the walk has met: a pax header waiting for its member, the members, what was skipped, the AppleDoubles. */
  datatype Met = Met(pax: bool, members: seq<Member>, skipped: seq<Str>, doubles: set<Str>)

  const NOTHING_MET := Met(false, [], [], {})

  function NamesOf(ms: seq<Member>): set<Str>
  {
    set m | m in ms :: m.name
  }

  function RoundUp(n: nat): (r: nat)
    ensures r >= n && r < n + BLOCK && r % BLOCK == 0
  {
    (n + BLOCK - 1) / BLOCK * BLOCK
  }

  predicate IsDouble(name: Str)
  {
    |name| >= 2 && name[..2] == "._" && name[2..] in EXPECTED
  }

  /** One member: what the walk knows after it, or why the archive is refused. */
  function MeetMember(m: Met, hdr: Header, data: Buffer): Result<Met>
    requires |data| == hdr.size
  {
    if hdr.flag == 'x' as int then
      if m.pax then Refused(TwoPax)
      else if hdr.size > MAX_SKIPPED_BYTES then Refused(PaxTooLarge)
      else if CheckPaxFrom(data, 0).Refused? then Refused(CheckPaxFrom(data, 0).why)
      else Ok(m.(pax := true))
    else if hdr.flag != 0x30 then Refused(NotRegular)
    else if IsDouble(hdr.name) then
      if m.pax then Refused(PaxBeforeDouble)
      else if hdr.name in m.doubles then Refused(Duplicate)
      else if hdr.size > MAX_SKIPPED_BYTES then Refused(DoubleTooLarge)
      else Ok(m.(doubles := m.doubles + {hdr.name}, skipped := m.skipped + [hdr.name]))
    else if hdr.name !in EXPECTED then Refused(NotExpected)
    else if hdr.name in NamesOf(m.members) then Refused(Duplicate)
    else if hdr.size > CapOf(hdr.name) then Refused(OverCap)
    else Ok(Met(false, m.members + [Member(hdr.name, data)],
                if m.pax then m.skipped + ["pax header for " + hdr.name] else m.skipped, m.doubles))
  }

  /** One member where it stands: its header's offset, the header, and its data. */
  datatype Piece = Piece(at: nat, hdr: Header, data: Buffer)

  function EndOf(p: Piece): nat
  {
    p.at + BLOCK + RoundUp(p.hdr.size)
  }

  /** A header block of the file that parses as this piece's, and its data right behind it. */
  predicate PieceAt(tar: Buffer, p: Piece)
    requires IsBytes(tar)
  {
    p.at + BLOCK + p.hdr.size <= |tar| && ParseHeader(tar[p.at..p.at + BLOCK]) == Ok(p.hdr) &&
    p.data == tar[p.at + BLOCK..p.at + BLOCK + p.hdr.size]
  }

  datatype Stop = Done | More(piece: Piece, met: Met)

  /** One turn of the walk at offset `at`: the end of the archive, or one member more. */
  function Turn(tar: Buffer, at: nat, m: Met): (r: Result<Stop>)
    requires IsBytes(tar)
    ensures r.Ok? && r.value.More? ==> r.value.piece.at == at && at + BLOCK <= |tar|
  {
    if at + BLOCK > |tar| then Refused(Truncated)
    else
      var h := tar[at..at + BLOCK];
      if AllZero(h) then
        if m.pax then Refused(PaxAtEnd)
        else if at + 2 * BLOCK > |tar| || !AllZero(tar[at + BLOCK..at + 2 * BLOCK]) then Refused(OneZeroBlock)
        else if !AllZero(tar[at + 2 * BLOCK..]) then Refused(DataAfterEnd)
        else Ok(Done)
      else
        var hdr := ParseHeader(h);
        if hdr.Refused? then Refused(hdr.why)
        else
          var dataAt := at + BLOCK;
          if dataAt + hdr.value.size > |tar| then Refused(Truncated)
          else
            var data := tar[dataAt..dataAt + hdr.value.size];
            var next := MeetMember(m, hdr.value, data);
            if next.Refused? then Refused(next.why) else Ok(More(Piece(at, hdr.value, data), next.value))
  }

  lemma TurnMeans(tar: Buffer, at: nat, m: Met)
    requires IsBytes(tar)
    ensures var r := Turn(tar, at, m);
            r.Ok? && r.value.More? ==>
              var p := r.value.piece; p.at == at && PieceAt(tar, p) && |p.data| == p.hdr.size && MeetMember(m, p.hdr, p.data) == Ok(r.value.met)
  {
    hide ParseHeader, MeetMember, AllZero, IsBytes;
  }

  /** The walk from offset `at`. */
  function Walk(tar: Buffer, at: nat, m: Met): Result<Met>
    requires IsBytes(tar)
    decreases if at <= |tar| then |tar| - at else 0
  {
    var turn := Turn(tar, at, m);
    if turn.Refused? then Refused(turn.why)
    else if turn.value.Done? then Ok(m)
    else Walk(tar, EndOf(turn.value.piece), turn.value.met)
  }

  /** `extractBackupTar`: the members written, and what was skipped. */
  function Extract(tar: Buffer): Result<Met>
    requires IsBytes(tar)
  {
    Walk(tar, 0, NOTHING_MET)
  }

  // ---------------------------------------------------------------- an accepted file is tiled

  /** The members an accepted walk meets, in file order. */
  function Pieces(tar: Buffer, at: nat, m: Met): seq<Piece>
    requires IsBytes(tar)
    decreases if at <= |tar| then |tar| - at else 0
  {
    var turn := Turn(tar, at, m);
    if turn.Refused? || turn.value.Done? then [] else [turn.value.piece] + Pieces(tar, EndOf(turn.value.piece), turn.value.met)
  }

  /** The pieces stand one behind the other from `at` to `end`, with no gap and no overlap. */
  predicate Tiles(tar: Buffer, ps: seq<Piece>, at: nat, end: nat)
    requires IsBytes(tar)
  {
    if ps == [] then at == end
    else ps[0].at == at && PieceAt(tar, ps[0]) && Tiles(tar, ps[1..], EndOf(ps[0]), end)
  }

  predicate IsPax(p: Piece)
  {
    p.hdr.flag == 'x' as int
  }

  predicate IsWanted(p: Piece)
  {
    p.hdr.flag == 0x30 && p.hdr.name in EXPECTED
  }

  /** What each piece may be: a wanted member, an AppleDouble of one, or a pax header right before a wanted member. */
  predicate KindAt(ps: seq<Piece>, i: nat)
    requires i < |ps|
  {
    IsWanted(ps[i]) || (ps[i].hdr.flag == 0x30 && IsDouble(ps[i].hdr.name)) || (IsPax(ps[i]) && i + 1 < |ps| && IsWanted(ps[i + 1]))
  }

  predicate Kinds(ps: seq<Piece>)
  {
    forall i :: 0 <= i < |ps| ==> KindAt(ps, i)
  }

  /** The wanted members among the pieces. */
  function Wanted(ps: seq<Piece>): seq<Member>
  {
    if ps == [] then []
    else if IsWanted(ps[0]) then [Member(ps[0].hdr.name, ps[0].data)] + Wanted(ps[1..])
    else Wanted(ps[1..])
  }

  predicate DistinctNames(ms: seq<Member>)
  {
    forall i, j :: 0 <= i < j < |ms| ==> ms[i].name != ms[j].name
  }

  /** What an accepted file is made of. */
  ghost predicate Accounted(tar: Buffer, ps: seq<Piece>, at: nat, pax: bool)
    requires IsBytes(tar)
  {
    (exists end: nat :: Tiles(tar, ps, at, end) && end + 2 * BLOCK <= |tar| && AllZero(tar[end..])) &&
    Kinds(ps) && (pax ==> ps != [] && IsWanted(ps[0]))
  }

  lemma MeetKind(m: Met, hdr: Header, data: Buffer)
    requires |data| == hdr.size && MeetMember(m, hdr, data).Ok?
    ensures var n, p := MeetMember(m, hdr, data).value, Piece(0, hdr, data);
            (IsPax(p) ==> !m.pax && n.pax && n.members == m.members) &&
            (!IsPax(p) ==> !n.pax && hdr.flag == 0x30) &&
            (!IsPax(p) && !IsWanted(p) ==> IsDouble(hdr.name) && !m.pax && n.members == m.members) &&
            (IsWanted(p) ==> n.members == m.members + [Member(hdr.name, data)] && hdr.name !in NamesOf(m.members) && hdr.size <= CapOf(hdr.name))
  {
    if hdr.name in EXPECTED { assert hdr.name[0] != '.'; }
  }

  lemma NamesSnoc(ms: seq<Member>, x: Member)
    requires DistinctNames(ms) && x.name !in NamesOf(ms)
    ensures DistinctNames(ms + [x])
  {
    forall i | 0 <= i < |ms| ensures ms[i].name != x.name { assert ms[i] in ms; }
  }

  /**
    * Every byte of an accepted file is accounted for: headers, data and padding to whole blocks stand one
    * behind another from the start, then two zero blocks and nothing but zeros to the end. The members
    * extracted are exactly the wanted ones of these, with the file's own bytes, and no name twice.
    */
  lemma {:induction false} WalkTiles(tar: Buffer, at: nat, m: Met)
    requires IsBytes(tar) && Walk(tar, at, m).Ok? && DistinctNames(m.members)
    ensures var ps, r := Pieces(tar, at, m), Walk(tar, at, m).value;
            Accounted(tar, ps, at, m.pax) && r.members == m.members + Wanted(ps) && DistinctNames(r.members)
    decreases |tar| - at
  {
    var turn := Turn(tar, at, m).value;
    hide Turn, ParseHeader, RoundUp, MeetMember, IsDouble, Accounted, Wanted;
    if turn.Done? {
      DoneTiles(tar, at, m);
    } else {
      var p, n := turn.piece, turn.met;
      TurnMeans(tar, at, m);
      MeetKind(m, p.hdr, p.data);
      MeetsOne(m, p, n);
      WalkTiles(tar, EndOf(p), n);
      var rest := Pieces(tar, EndOf(p), n);
      TilesMore(tar, p, rest, m.pax, n.pax);
      WantedMore(p, rest, m.members, n.members);
    }
  }

  lemma DoneTiles(tar: Buffer, at: nat, m: Met)
    requires IsBytes(tar) && Turn(tar, at, m) == Ok(Done)
    ensures Accounted(tar, [], at, m.pax) && m.members + Wanted([]) == m.members
  {
    DoneMeans(tar, at, m);
    hide ParseHeader, RoundUp, Turn;
    ZeroTrailer(tar, at);
    assert Tiles(tar, [], at, at);
  }

  lemma MeetsOne(m: Met, p: Piece, n: Met)
    requires DistinctNames(m.members)
    requires IsWanted(p) ==> n.members == m.members + [Member(p.hdr.name, p.data)] && p.hdr.name !in NamesOf(m.members)
    requires !IsWanted(p) ==> n.members == m.members
    ensures DistinctNames(n.members)
  {
    if IsWanted(p) { NamesSnoc(m.members, Member(p.hdr.name, p.data)); }
  }

  lemma WantedMore(p: Piece, rest: seq<Piece>, ms: seq<Member>, ns: seq<Member>)
    requires ns == if IsWanted(p) then ms + [Member(p.hdr.name, p.data)] else ms
    ensures ns + Wanted(rest) == ms + Wanted([p] + rest)
  {
    assert ([p] + rest)[1..] == rest;
  }

  lemma DoneMeans(tar: Buffer, at: nat, m: Met)
    requires IsBytes(tar) && Turn(tar, at, m) == Ok(Done)
    ensures !m.pax && at + 2 * BLOCK <= |tar| && AllZero(tar[at..at + BLOCK])
    ensures AllZero(tar[at + BLOCK..at + 2 * BLOCK]) && AllZero(tar[at + 2 * BLOCK..])
  {
    hide AllZero, ParseHeader, MeetMember;
  }

  lemma ZeroTrailer(tar: Buffer, at: nat)
    requires IsBytes(tar) && at + 2 * BLOCK <= |tar| && AllZero(tar[at..at + BLOCK])
    requires AllZero(tar[at + BLOCK..at + 2 * BLOCK]) && AllZero(tar[at + 2 * BLOCK..])
    ensures AllZero(tar[at..])
  {
    assert tar[at..] == tar[at..at + BLOCK] + tar[at + BLOCK..at + 2 * BLOCK] + tar[at + 2 * BLOCK..];
  }

  lemma TilesMore(tar: Buffer, p: Piece, rest: seq<Piece>, pax: bool, nextPax: bool)
    requires IsBytes(tar) && PieceAt(tar, p) && Accounted(tar, rest, EndOf(p), nextPax)
    requires (IsPax(p) ==> nextPax && !pax) && (!IsPax(p) && !IsWanted(p) ==> p.hdr.flag == 0x30 && IsDouble(p.hdr.name) && !pax)
    ensures Accounted(tar, [p] + rest, p.at, pax)
  {
    hide IsDouble, ParseHeader, AllZero;
    var ps := [p] + rest;
    assert ps[1..] == rest;
    var end: nat :| Tiles(tar, rest, EndOf(p), end) && end + 2 * BLOCK <= |tar| && AllZero(tar[end..]);
    assert Tiles(tar, ps, p.at, end);
    hide Tiles, PieceAt;
    forall i | 0 <= i < |ps| ensures KindAt(ps, i)
    {
      if i == 0 {
        if IsPax(p) { assert ps[1] == rest[0]; }
      } else {
        assert KindAt(rest, i - 1);
        assert i < |rest| ==> ps[i + 1] == rest[i];
      }
    }
  }

  lemma ExtractTiles(tar: Buffer)
    requires IsBytes(tar) && Extract(tar).Ok?
    ensures var ps, r := Pieces(tar, 0, NOTHING_MET), Extract(tar).value;
            Accounted(tar, ps, 0, false) && r.members == Wanted(ps) && DistinctNames(r.members)
  {
    hide Walk, Pieces, Accounted, Wanted;
    WalkTiles(tar, 0, NOTHING_MET);
    assert [] + Wanted(Pieces(tar, 0, NOTHING_MET)) == Wanted(Pieces(tar, 0, NOTHING_MET));
  }
}
