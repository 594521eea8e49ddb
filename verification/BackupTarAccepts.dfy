/** Exactly which files are accepted. */
module BackupTarAccepts {
  // What a header says, what a pax header may hold, and the files made of such members and a zero trailer: each told
  // of the bytes, both ways.

  import opened BackupTar
  import opened BackupTarFormat

  // ---------------------------------------------------------------- the checksum

  function Total(b: Buffer): int
  {
    if b == [] then 0 else Total(b[..|b| - 1]) + b[|b| - 1]
  }

  function Signed(b: Buffer): int
  {
    if b == [] then 0 else Signed(b[..|b| - 1]) + if b[|b| - 1] >= 128 then b[|b| - 1] - 256 else b[|b| - 1]
  }

  lemma {:induction false} TotalAdds(a: Buffer, b: Buffer)
    ensures Total(a + b) == Total(a) + Total(b) && Signed(a + b) == Signed(a) + Signed(b)
  {
    if b == [] {
      assert a + b == a;
    } else {
      assert (a + b)[..|a + b| - 1] == a + b[..|b| - 1];
      TotalAdds(a, b[..|b| - 1]);
    }
  }

  /** A header with eight spaces in its checksum field. */
  function Blanked(h: Buffer): (b: Buffer)
    requires |h| == BLOCK
    ensures |b| == BLOCK
  {
    h[..148] + [0x20, 0x20, 0x20, 0x20, 0x20, 0x20, 0x20, 0x20] + h[156..]
  }

  lemma {:induction false} SumsTo(h: Buffer, n: nat)
    requires |h| == BLOCK && n <= BLOCK
    ensures UnsignedSum(h, n) == Total(Blanked(h)[..n]) && SignedSum(h, n) == Signed(Blanked(h)[..n])
  {
    if n > 0 {
      SumsTo(h, n - 1);
      var b := Blanked(h)[..n];
      assert b[..n - 1] == Blanked(h)[..n - 1];
      assert b[n - 1] == SummedAt(h, n - 1);
    }
  }

  /** The checksums are the sums of the bytes, plain or as signed bytes, with the field blank. */
  lemma SumsExactly(h: Buffer)
    requires |h| == BLOCK
    ensures UnsignedSum(h, BLOCK) == Total(Blanked(h)) && SignedSum(h, BLOCK) == Signed(Blanked(h))
  {
    SumsTo(h, BLOCK);
    assert Blanked(h)[..BLOCK] == Blanked(h);
  }

  // ---------------------------------------------------------------- a header field

  predicate Spaces(a: Buffer)
  {
    forall i :: 0 <= i < |a| ==> a[i] == 0x20
  }

  predicate Fill(a: Buffer)
  {
    forall i :: 0 <= i < |a| ==> a[i] == 0 || a[i] == 0x20
  }

  ghost predicate Padded(f: Buffer, t: Buffer, a: Buffer, b: Buffer)
  {
    f == a + t + b && Spaces(a) && Fill(b)
  }

  /** The field holds these octal digits, spaces before and NULs or spaces after. */
  ghost predicate Holds(f: Buffer, t: Buffer)
  {
    Octal(t) && exists a, b :: Padded(f, t, a, b)
  }

  lemma {:induction false} TrailingForm(f: Buffer) returns (b: Buffer)
    ensures Fill(b) && f == DropTrailing(f) + b
  {
    b := [];
    if f != [] && (f[|f| - 1] == 0 || f[|f| - 1] == 0x20) {
      b := TrailingForm(f[..|f| - 1]);
      b := b + [f[|f| - 1]];
    }
  }

  lemma {:induction false} LeadingForm(f: Buffer) returns (a: Buffer)
    ensures Spaces(a) && f == a + DropLeading(f)
  {
    a := [];
    if f != [] && f[0] == 0x20 {
      a := LeadingForm(f[1..]);
      a := [f[0]] + a;
    }
  }

  lemma {:induction false} AllDropped(f: Buffer)
    requires Fill(f)
    ensures DropTrailing(f) == []
  {
    if f != [] { AllDropped(f[..|f| - 1]); }
  }

  lemma {:induction false} LeadingOff(a: Buffer, t: Buffer)
    requires Spaces(a) && Octal(t)
    ensures DropLeading(a + t) == t
  {
    if a == [] {
      assert a + t == t;
    } else {
      assert (a + t)[1..] == a[1..] + t;
      LeadingOff(a[1..], t);
    }
  }

  lemma {:induction false} FillOff(t: Buffer, b: Buffer)
    requires t != [] && t[|t| - 1] != 0 && t[|t| - 1] != 0x20 && Fill(b)
    ensures DropTrailing(t + b) == t
    decreases |b|
  {
    if b == [] {
      assert t + b == t;
    } else {
      assert (t + b)[..|t + b| - 1] == t + b[..|b| - 1];
      FillOff(t, b[..|b| - 1]);
    }
  }

  /** A field has at most one such text, which is what the parser reads. */
  lemma FieldExactly(f: Buffer, t: Buffer)
    ensures Holds(f, t) <==> Octal(FieldText(f)) && t == FieldText(f)
  {
    if Holds(f, t) {
      var a, b :| Padded(f, t, a, b);
      if t == [] {
        AllDropped(f);
      } else {
        assert (a + t)[|a + t| - 1] == t[|t| - 1];
        FillOff(a + t, b);
        LeadingOff(a, t);
      }
    }
    if Octal(FieldText(f)) && t == FieldText(f) {
      var b := TrailingForm(f);
      var a := LeadingForm(DropTrailing(f));
      assert Padded(f, t, a, b);
    }
    hide DropTrailing, DropLeading;
  }

  function Base256Digits(v: nat, n: nat): (t: Buffer)
    ensures |t| == n && IsBytes(t)
  {
    if n == 0 then [] else Base256Digits(v / 256, n - 1) + [v % 256]
  }

  /** A base-256 field is its value's digits. */
  lemma {:induction false} Base256Back(f: Buffer)
    requires IsBytes(f)
    ensures Base256Digits(Base256(f), |f|) == f
  {
    if f != [] {
      var p, x := f[..|f| - 1], f[|f| - 1];
      Base256Back(p);
      Shifted(Base256(p), x);
      assert f == p + [x];
    }
  }

  lemma Shifted(v: nat, x: nat)
    requires x < 256
    ensures (v * 256 + x) / 256 == v && (v * 256 + x) % 256 == x
  {
  }

  /** The size field says `size`: octal text, or the value's digits in base 256 under a marker bit, none negative or past what a number holds exactly. */
  ghost predicate SizeSays(f: Buffer, size: nat)
    requires |f| == 12 && IsBytes(f)
  {
    if f[0] < 128 then exists t :: Holds(f, t) && OctalValue(t) == size
    else f[0] != 255 && size <= 9_007_199_254_740_991 && Base256Digits(size, 12) == [f[0] - 128] + f[1..]
  }

  lemma {:induction false} Base256Digital(v: nat, n: nat)
    requires v < Pow256(n)
    ensures Base256(Base256Digits(v, n)) == v
  {
    if n > 0 {
      Base256Digital(v / 256, n - 1);
      assert Base256Digits(v, n)[..n - 1] == Base256Digits(v / 256, n - 1);
    }
  }

  function Pow256(n: nat): nat
  {
    if n == 0 then 1 else 256 * Pow256(n - 1)
  }

  lemma SizeExactly(f: Buffer, size: nat)
    requires |f| == 12 && IsBytes(f)
    ensures ParseSize(f) == Ok(size) <==> SizeSays(f, size)
  {
    if f[0] >= 0x80 {
      var g := [f[0] - 0x80] + f[1..];
      Base256Back(g);
      if size <= MAX_SAFE_INTEGER {
        assert Pow256(4) == 0x1_0000_0000;
        assert Pow256(8) == 0x1_0000_0000_0000_0000;
        assert Pow256(12) > MAX_SAFE_INTEGER;
        Base256Digital(size, 12);
      }
    } else {
      FieldExactly(f, FieldText(f));
      forall t | Holds(f, t) ensures t == FieldText(f) { FieldExactly(f, t); }
    }
    hide FieldText, Base256, Base256Digits, OctalValue, Holds;
  }

  // ---------------------------------------------------------------- a header

  /** The stored checksum, some octal digits, is one of the two sums. */
  ghost predicate ChecksumSays(h: Buffer)
    requires |h| == BLOCK
  {
    exists t :: Holds(h[148..156], t) && t != [] && (OctalValue(t) == Total(Blanked(h)) || OctalValue(t) == Signed(Blanked(h)))
  }

  /** The bytes before the first NUL of the first hundred. */
  predicate NameSays(h: Buffer, name: Str)
    requires |h| == BLOCK
  {
    |name| <= 100 && (forall i :: 0 <= i < |name| ==> h[i] != 0 && name[i] as int == h[i]) && (|name| < 100 ==> h[|name|] == 0)
  }

  predicate MagicSays(h: Buffer)
    requires |h| == BLOCK
  {
    (h[257..265] == Ascii("ustar") + [0] + Ascii("00") && forall i :: 345 <= i < 500 ==> h[i] == 0) || h[257..265] == Ascii("ustar  ") + [0]
  }

  /** A header of this name, type and size. */
  ghost predicate HeaderSays(h: Buffer, hdr: Header)
    requires |h| == BLOCK && IsBytes(h)
  {
    ChecksumSays(h) && MagicSays(h) && NameSays(h, hdr.name) && hdr.flag == (if h[156] == 0 then 0x30 else h[156]) && SizeSays(h[124..136], hdr.size)
  }

  lemma ChecksumExactly(h: Buffer)
    requires |h| == BLOCK
    ensures ChecksumSays(h) <==>
            var t := FieldText(h[148..156]); t != [] && Octal(t) && (OctalValue(t) == UnsignedSum(h, BLOCK) || OctalValue(t) == SignedSum(h, BLOCK))
  {
    SumsExactly(h);
    var f := h[148..156];
    FieldExactly(f, FieldText(f));
    forall t | Holds(f, t) ensures t == FieldText(f) { FieldExactly(f, t); }
    hide FieldText, OctalValue, Holds, UnsignedSum, SignedSum, Total, Signed, Blanked;
  }

  lemma MagicExactly(h: Buffer)
    requires |h| == BLOCK
    ensures MagicSays(h) <==> (h[257..265] == POSIX_MAGIC && AllZero(h[345..500])) || h[257..265] == GNU_MAGIC
  {
    assert Ascii("ustar") + [0] + Ascii("00") == [0x75, 0x73, 0x74, 0x61, 0x72, 0, 0x30, 0x30];
    assert Ascii("ustar  ") + [0] == [0x75, 0x73, 0x74, 0x61, 0x72, 0x20, 0x20, 0];
    var z := h[345..500];
    assert (forall i :: 345 <= i < 500 ==> h[i] == 0) <==> AllZero(z) by {
      if AllZero(z) { forall i | 345 <= i < 500 ensures h[i] == 0 { assert z[i - 345] == 0; } }
    }
  }

  lemma NameExactly(h: Buffer, name: Str)
    requires |h| == BLOCK && IsBytes(h)
    ensures IsBytes(h[..100][..FirstZero(h[..100])])
    ensures NameSays(h, name) <==> name == Latin1(h[..100][..FirstZero(h[..100])])
  {
    var f := h[..100];
    var k := FirstZero(f);
    assert forall i :: 0 <= i < k ==> f[i] != 0 by { forall i | 0 <= i < k ensures f[i] != 0 { assert f[i] in f[..k]; } }
    hide FirstZero;
    var l := Latin1(f[..k]);
    if NameSays(h, name) {
      assert forall i :: 0 <= i < 100 ==> f[i] == h[i];
      assert name == l by { forall i | 0 <= i < k ensures name[i] == l[i] { assert name[i] as int == l[i] as int; } }
    }
  }

  /** The parser reads a header exactly as it says, and refuses every block that is none. */
  lemma HeaderExactly(h: Buffer, hdr: Header)
    requires |h| == BLOCK && IsBytes(h)
    ensures ParseHeader(h) == Ok(hdr) <==> HeaderSays(h, hdr)
  {
    ChecksumExactly(h);
    MagicExactly(h);
    NameExactly(h, hdr.name);
    SizeExactly(h[124..136], hdr.size);
    hide FieldText, OctalValue, UnsignedSum, SignedSum, ChecksumSays, MagicSays, NameSays, SizeSays, ParseSize, Latin1, FirstZero, AllZero, Octal;
  }

  // ---------------------------------------------------------------- a pax header

  predicate Digits(t: Buffer)
  {
    forall i :: 0 <= i < |t| ==> 0x30 <= t[i] <= 0x39
  }

  /** A time, or an extended attribute with a name. */
  ghost predicate Key(k: Buffer)
  {
    k == Ascii("mtime") || k == Ascii("atime") || k == Ascii("ctime") ||
    exists name :: name != [] && (k == Ascii("SCHILY.xattr.") + name || k == Ascii("LIBARCHIVE.xattr.") + name)
  }

  /** A record, `length key=value` and a newline: its length in decimal is that of the whole record. */
  ghost predicate RecordOf(rec: Buffer, len: Buffer, key: Buffer, value: Buffer)
  {
    rec == len + [0x20] + key + [0x3d] + value + [0x0a] && len != [] && Digits(len) && len[0] != 0x30 && DecimalValue(len) == |rec| &&
    0x3d !in key && Key(key)
  }

  ghost predicate Record(rec: Buffer)
  {
    exists len, key, value :: RecordOf(rec, len, key, value)
  }

  lemma KeyExactly(k: Buffer)
    ensures Key(k) <==> PaxKeyOk(k)
  {
    var s, l := Ascii("SCHILY.xattr."), Ascii("LIBARCHIVE.xattr.");
    hide Ascii;
    if s < k { assert k == s + k[|s|..]; }
    if l < k { assert k == l + k[|l|..]; }
  }

  lemma KeyNotEmpty(k: Buffer)
    requires Key(k)
    ensures k != []
  {
  }

  lemma {:induction false} FoundAt(a: Buffer, x: int, rest: Buffer)
    requires x !in a && (rest == [] || rest[0] == x)
    ensures FindByte(a + rest, x) == |a|
  {
    if a == [] {
      assert a + rest == rest;
    } else {
      assert a[0] in a && (a + rest)[1..] == a[1..] + rest;
      FoundAt(a[1..], x, rest);
    }
  }

  /** The one way to read a record: up to its first space, and up to the first equals sign after that. */
  predicate Reads(r: Buffer)
  {
    var sp := FindByte(r, 0x20);
    sp + 1 < |r| && Decimal(r[..sp]) && DecimalValue(r[..sp]) == |r| && r[|r| - 1] == 0x0a && ReadsKey(r[sp + 1..|r| - 1])
  }

  predicate ReadsKey(record: Buffer)
  {
    var eq := FindByte(record, 0x3d);
    0 < eq < |record| && PaxKeyOk(record[..eq])
  }

  lemma FoundInPart(b: Buffer, n: nat, x: int)
    requires n <= |b|
    ensures FindByte(b[..n], x) == if FindByte(b, x) < n then FindByte(b, x) else n
  {
    var k := FindByte(b, x);
    if k < n {
      assert b[..n] == b[..k] + b[k..n];
      FoundAt(b[..k], x, b[k..n]);
    } else {
      assert b[..k][..n] == b[..n];
      FoundAt(b[..n], x, []);
      assert b[..n] + [] == b[..n];
    }
  }

  lemma SameText(body: Buffer, i: nat, end: nat, sp: nat)
    requires i < end <= |body| && sp + 1 < end - i
    ensures body[i..end][..sp] == body[i..][..sp] && body[i..end][sp + 1..end - i - 1] == body[i + sp + 1..end - 1]
  {
    var x, y := body[i..end][..sp], body[i..][..sp];
    forall k | 0 <= k < |x| ensures x[k] == y[k] {}
    var u, v := body[i..end][sp + 1..end - i - 1], body[i + sp + 1..end - 1];
    forall k | 0 <= k < |u| ensures u[k] == v[k] {}
  }

  /** Its length's text, its whole length, its last byte, and what stands between. */
  predicate Shaped(text: Buffer, whole: nat, last: int, record: Buffer)
  {
    Decimal(text) && DecimalValue(text) == whole && last == 0x0a && ReadsKey(record)
  }

  lemma RecordAtMeans(body: Buffer, i: nat, end: nat)
    requires i < end <= |body|
    ensures PaxRecordAt(body, i) == Ok(end) <==>
            var sp := FindByte(body[i..], 0x20);
            i + sp + 1 < end && Shaped(body[i..][..sp], end - i, body[end - 1], body[i + sp + 1..end - 1])
  {
    hide PaxKeyOk, FindByte, DecimalValue;
  }

  lemma ReadsMeans(r: Buffer, sp: nat)
    requires sp == FindByte(r, 0x20)
    ensures Reads(r) <==> sp + 1 < |r| && Shaped(r[..sp], |r|, r[|r| - 1], r[sp + 1..|r| - 1])
  {
    hide ReadsKey, FindByte, DecimalValue, Decimal;
  }

  lemma RecordReads(body: Buffer, i: nat, end: nat)
    requires i < end <= |body|
    ensures PaxRecordAt(body, i) == Ok(end) <==> Reads(body[i..end])
  {
    hide *;
    var r, sp := body[i..end], FindByte(body[i..], 0x20);
    assert body[i..][..end - i] == r;
    FoundInPart(body[i..], end - i, 0x20);
    if sp + 1 < |r| { ShortLength(body, i, end); } else { LongLength(body, i, end); }
  }

  lemma ShortLength(body: Buffer, i: nat, end: nat)
    requires i < end <= |body| && FindByte(body[i..end], 0x20) == FindByte(body[i..], 0x20) && FindByte(body[i..], 0x20) + 1 < end - i
    ensures PaxRecordAt(body, i) == Ok(end) <==> Reads(body[i..end])
  {
    hide *;
    var r, sp := body[i..end], FindByte(body[i..], 0x20);
    var text, record := r[..sp], r[sp + 1..|r| - 1];
    assert PaxRecordAt(body, i) == Ok(end) <==> Shaped(text, end - i, body[end - 1], record) by {
      SameText(body, i, end, sp);
      RecordAtMeans(body, i, end);
    }
    assert Reads(r) <==> Shaped(text, end - i, body[end - 1], record) by { ReadsMeans(r, sp); }
  }

  lemma LongLength(body: Buffer, i: nat, end: nat)
    requires i < end <= |body| && FindByte(body[i..end], 0x20) + 1 >= end - i && FindByte(body[i..], 0x20) + 1 >= end - i
    ensures PaxRecordAt(body, i) != Ok(end) && !Reads(body[i..end])
  {
    RecordAtMeans(body, i, end);
    ReadsMeans(body[i..end], FindByte(body[i..end], 0x20));
    hide *;
  }

  lemma RecordExactly(body: Buffer, i: nat, end: nat)
    requires i < end <= |body|
    ensures PaxRecordAt(body, i) == Ok(end) <==> Record(body[i..end])
  {
    var r := body[i..end];
    RecordReads(body, i, end);
    if Reads(r) { ReadIsRecord(r); }
    if Record(r) { RecordIsRead(r); }
    hide PaxRecordAt, Reads, Record;
  }

  lemma ReadIsRecord(r: Buffer)
    requires Reads(r)
    ensures Record(r)
  {
    var sp := FindByte(r, 0x20);
    var record := r[sp + 1..|r| - 1];
    var eq := FindByte(record, 0x3d);
    var len, key, value := r[..sp], record[..eq], record[eq + 1..];
    KeyExactly(key);
    Rejoined(r, sp, eq);
    hide PaxKeyOk, FindByte, DecimalValue, Key;
    assert RecordOf(r, len, key, value);
  }

  lemma Rejoined(r: Buffer, sp: nat, eq: nat)
    requires sp + 1 < |r| && r[sp] == 0x20 && r[|r| - 1] == 0x0a && eq < |r| - sp - 2 && r[sp + 1..|r| - 1][eq] == 0x3d
    ensures var record := r[sp + 1..|r| - 1]; r == r[..sp] + [0x20] + record[..eq] + [0x3d] + record[eq + 1..] + [0x0a]
  {
    var record := r[sp + 1..|r| - 1];
    assert record == record[..eq] + [0x3d] + record[eq + 1..];
    assert r == r[..sp] + [0x20] + record + [0x0a];
  }

  lemma RecordIsRead(r: Buffer)
    requires Record(r)
    ensures Reads(r)
  {
    var len, key, value :| RecordOf(r, len, key, value);
    KeyExactly(key);
    KeyNotEmpty(key);
    Parted(r, len, key, value);
    FoundAt(len, 0x20, [0x20] + (key + [0x3d] + value) + [0x0a]);
    FoundAt(key, 0x3d, [0x3d] + value);
    hide PaxKeyOk, FindByte, DecimalValue, Key;
  }

  lemma Parted(r: Buffer, len: Buffer, key: Buffer, value: Buffer)
    requires r == len + [0x20] + key + [0x3d] + value + [0x0a]
    ensures var record := key + [0x3d] + value;
            r == len + ([0x20] + record + [0x0a]) && r[..|len|] == len && r[|len| + 1..|r| - 1] == record &&
            record[..|key|] == key && record == key + ([0x3d] + value) && r[|r| - 1] == 0x0a
  {
  }

  function Concat(recs: seq<Buffer>): Buffer
  {
    if recs == [] then [] else recs[0] + Concat(recs[1..])
  }

  /** Nothing but records. */
  ghost predicate RecordsOnly(body: Buffer)
  {
    exists recs :: body == Concat(recs) && forall r :: r in recs ==> Record(r)
  }

  lemma RecordsMore(rec: Buffer, rest: Buffer)
    requires Record(rec) && RecordsOnly(rest)
    ensures RecordsOnly(rec + rest)
  {
    var recs :| rest == Concat(recs) && forall r :: r in recs ==> Record(r);
    var all := [rec] + recs;
    assert all[1..] == recs;
    hide Record;
    assert rec + rest == Concat(all) && forall r :: r in all ==> Record(r);
  }

  /** A pax header passes the check exactly when it is nothing but records. */
  lemma {:induction false} PaxExactly(body: Buffer, i: nat)
    requires i <= |body|
    ensures CheckPaxFrom(body, i).Ok? <==> RecordsOnly(body[i..])
    decreases |body| - i
  {
    if i == |body| {
      assert body[i..] == Concat([]);
    } else {
      var p := PaxRecordAt(body, i);
      if p.Ok? {
        PaxExactly(body, p.value);
        OneRecordMore(body, i, p.value);
      }
      if RecordsOnly(body[i..]) { FirstRecord(body, i); }
      hide PaxRecordAt, RecordsOnly;
    }
  }

  lemma OneRecordMore(body: Buffer, i: nat, end: nat)
    requires i < end <= |body| && PaxRecordAt(body, i) == Ok(end)
    ensures RecordsOnly(body[end..]) ==> RecordsOnly(body[i..])
  {
    hide *;
    RecordExactly(body, i, end);
    var rec, rest := body[i..end], body[end..];
    assert body[i..] == rec + rest;
    if RecordsOnly(rest) { RecordsMore(rec, rest); }
  }

  lemma RecordsFirst(b: Buffer) returns (rec: Buffer, rest: Buffer)
    requires b != [] && RecordsOnly(b)
    ensures b == rec + rest && rec != [] && Record(rec) && RecordsOnly(rest)
  {
    var recs :| b == Concat(recs) && forall r :: r in recs ==> Record(r);
    rec, rest := recs[0], Concat(recs[1..]);
    assert rec in recs && Record(rec);
    assert rec != [] by { var len, key, value :| RecordOf(rec, len, key, value); }
    hide Record;
    assert forall r :: r in recs[1..] ==> r in recs;
  }

  lemma FirstRecord(body: Buffer, i: nat)
    requires i < |body| && RecordsOnly(body[i..])
    ensures PaxRecordAt(body, i).Ok? && RecordsOnly(body[PaxRecordAt(body, i).value..])
  {
    hide *;
    var rec, rest := RecordsFirst(body[i..]);
    var end := i + |rec|;
    Cut(body, i, rec, rest);
    RecordExactly(body, i, end);
  }

  lemma Cut(body: Buffer, i: nat, rec: Buffer, rest: Buffer)
    requires i < |body| && body[i..] == rec + rest && rec != []
    ensures i < i + |rec| <= |body| && body[i..i + |rec|] == rec && body[i + |rec|..] == rest
  {
    var b, end := body[i..], i + |rec|;
    assert |b| == |rec| + |rest|;
    assert body[i..end] == b[..|rec|] && body[end..] == b[|rec|..];
  }

  // ---------------------------------------------------------------- the whole file

  /** The piece stands here: a header block that says it, its data right behind, and room for that. */
  ghost predicate Stands(tar: Buffer, p: Piece)
    requires IsBytes(tar)
  {
    p.at + 512 + p.hdr.size <= |tar| && HeaderSays(Block(tar, p.at), p.hdr) && p.data == tar[p.at + 512..p.at + 512 + p.hdr.size]
  }

  function Block(tar: Buffer, at: nat): (h: Buffer)
    requires IsBytes(tar) && at + 512 <= |tar|
    ensures |h| == BLOCK && IsBytes(h)
  {
    tar[at..at + 512]
  }

  /** One behind another from `at`, each on the next whole block. */
  ghost predicate InRow(tar: Buffer, ps: seq<Piece>, at: nat, end: nat)
    requires IsBytes(tar)
  {
    if ps == [] then at == end
    else ps[0].at == at && Stands(tar, ps[0]) && InRow(tar, ps[1..], Next(ps[0]), end)
  }

  /** The next whole block behind a piece. */
  function Next(p: Piece): nat
  {
    p.at + 512 + (p.hdr.size + 511) / 512 * 512
  }

  predicate Trailer(tar: Buffer, end: nat)
  {
    end + 1024 <= |tar| && forall i :: end <= i < |tar| ==> tar[i] == 0
  }

  predicate AMember(p: Piece)
  {
    p.hdr.flag == 0x30 && p.hdr.name in {"relay.db", "manifest.json", "config.json"}
  }

  predicate ADouble(p: Piece)
  {
    p.hdr.flag == 0x30 && p.hdr.name in {"._relay.db", "._manifest.json", "._config.json"}
  }

  predicate APax(p: Piece)
  {
    p.hdr.flag == 'x' as int
  }

  /** What one piece may be, told of itself: a member within its cap, or a small AppleDouble or pax header of nothing but records. */
  ghost predicate Fine(p: Piece)
  {
    (AMember(p) && p.hdr.size <= (if p.hdr.name == "relay.db" then 4_294_967_296 else 1_048_576)) ||
    (ADouble(p) && p.hdr.size <= 65_536) || (APax(p) && p.hdr.size <= 65_536 && RecordsOnly(p.data))
  }

  /** Each piece is fine, a member stands right behind each pax header, and no name but a pax header's comes twice. */
  ghost predicate Allowed(ps: seq<Piece>)
  {
    (forall i :: 0 <= i < |ps| ==> Fine(ps[i])) &&
    (forall i :: 0 <= i < |ps| && APax(ps[i]) ==> i + 1 < |ps| && AMember(ps[i + 1])) &&
    (forall i, j :: 0 <= i < j < |ps| && !APax(ps[i]) && !APax(ps[j]) ==> ps[i].hdr.name != ps[j].hdr.name)
  }

  function MembersIn(ps: seq<Piece>): seq<Member>
  {
    if ps == [] then []
    else MembersIn(ps[..|ps| - 1]) + if AMember(ps[|ps| - 1]) then [Member(ps[|ps| - 1].hdr.name, ps[|ps| - 1].data)] else []
  }

  /** What is reported skipped: each AppleDouble, and each pax header by the member behind it, as the walk comes to that. */
  function SkippedIn(ps: seq<Piece>): seq<Str>
  {
    if ps == [] then []
    else
      var n := |ps| - 1;
      SkippedIn(ps[..n]) +
      if ADouble(ps[n]) then [ps[n].hdr.name]
      else if AMember(ps[n]) && n > 0 && APax(ps[n - 1]) then ["pax header for " + ps[n].hdr.name] else []
  }

  /** What the walk knows after these pieces. */
  ghost predicate Knows(m: Met, ps: seq<Piece>)
  {
    (m.pax <==> ps != [] && APax(ps[|ps| - 1])) && m.members == MembersIn(ps) && m.skipped == SkippedIn(ps) &&
    (forall x :: x in NamesOf(m.members) <==> exists i :: 0 <= i < |ps| && AMember(ps[i]) && ps[i].hdr.name == x) &&
    (forall x :: x in m.doubles <==> exists i :: 0 <= i < |ps| && ADouble(ps[i]) && ps[i].hdr.name == x)
  }

  /** The pieces so far, a pax header at their end still waiting for its member. */
  ghost predicate SoFar(ps: seq<Piece>)
  {
    (forall i :: 0 <= i < |ps| ==> Fine(ps[i])) &&
    (forall i :: 0 <= i < |ps| - 1 && APax(ps[i]) ==> AMember(ps[i + 1])) &&
    (forall i, j :: 0 <= i < j < |ps| && !APax(ps[i]) && !APax(ps[j]) ==> ps[i].hdr.name != ps[j].hdr.name)
  }

  lemma DoubleIs(p: Piece)
    ensures ADouble(p) <==> p.hdr.flag == 0x30 && IsDouble(p.hdr.name)
    ensures AMember(p) ==> !IsDouble(p.hdr.name) && !ADouble(p) && !APax(p)
    ensures ADouble(p) ==> !APax(p)
  {
    var n := p.hdr.name;
    if IsDouble(n) { assert n == "._" + n[2..]; }
    assert "._" + "relay.db" == "._relay.db" && "._" + "manifest.json" == "._manifest.json" && "._" + "config.json" == "._config.json";
    assert "._relay.db"[2..] == "relay.db" && "._manifest.json"[2..] == "manifest.json" && "._config.json"[2..] == "config.json";
    assert "._relay.db"[..2] == "._" && "._manifest.json"[..2] == "._" && "._config.json"[..2] == "._";
    assert "relay.db"[0] == 'r' && "manifest.json"[0] == 'm' && "config.json"[0] == 'c';
  }

  /** The walk takes a piece exactly when it and those before may stand so. */
  lemma TakesExactly(m: Met, ps: seq<Piece>, p: Piece)
    requires Knows(m, ps) && SoFar(ps) && |p.data| == p.hdr.size
    ensures MeetMember(m, p.hdr, p.data).Ok? <==> SoFar(ps + [p])
    ensures MeetMember(m, p.hdr, p.data).Ok? ==> Knows(MeetMember(m, p.hdr, p.data).value, ps + [p])
  {
    hide AMember, ADouble, APax, MembersIn, SkippedIn, NamesOf, Fine, MeetMember;
    SoFarMore(ps, p);
    MeetsFine(m, p);
    assert forall i :: 0 <= i < |ps| ==> Fine(ps[i]);
    hide SoFar;
    if Fine(p) { NewName(m, ps, p); }
    if MeetMember(m, p.hdr, p.data).Ok? { KnowsMore(m, ps, p); }
  }

  lemma SoFarMore(ps: seq<Piece>, p: Piece)
    requires SoFar(ps)
    ensures SoFar(ps + [p]) <==>
            Fine(p) && (ps != [] && APax(ps[|ps| - 1]) ==> AMember(p)) &&
            (!APax(p) ==> forall i :: 0 <= i < |ps| && !APax(ps[i]) ==> ps[i].hdr.name != p.hdr.name)
  {
    hide Fine, AMember, APax;
    var qs := ps + [p];
    var n := |ps|;
    assert qs[n] == p && forall i :: 0 <= i < n ==> qs[i] == ps[i];
  }

  /** What the walk asks of a piece: that it is fine, is a member after a pax header, and has a new name. */
  lemma MeetsFine(m: Met, p: Piece)
    requires |p.data| == p.hdr.size
    ensures MeetMember(m, p.hdr, p.data).Ok? <==>
            Fine(p) && (m.pax ==> AMember(p)) && (AMember(p) ==> p.hdr.name !in NamesOf(m.members)) && (ADouble(p) ==> p.hdr.name !in m.doubles)
    ensures MeetMember(m, p.hdr, p.data).Ok? ==>
            var n := MeetMember(m, p.hdr, p.data).value;
            n.pax == APax(p) && n.members == m.members + (if AMember(p) then [Member(p.hdr.name, p.data)] else []) &&
            n.doubles == m.doubles + (if ADouble(p) then {p.hdr.name} else {}) &&
            n.skipped == m.skipped + if ADouble(p) then [p.hdr.name] else if AMember(p) && m.pax then ["pax header for " + p.hdr.name] else []
  {
    DoubleIs(p);
    assert p.data[0..] == p.data;
    PaxExactly(p.data, 0);
    hide IsDouble, RecordsOnly, CheckPaxFrom;
    assert p.hdr.name in EXPECTED <==> p.hdr.name in {"relay.db", "manifest.json", "config.json"};
  }

  /** No piece before has the name exactly when the walk does not know it. */
  lemma NewName(m: Met, ps: seq<Piece>, p: Piece)
    requires Knows(m, ps) && Fine(p) && forall i :: 0 <= i < |ps| ==> Fine(ps[i])
    ensures (!APax(p) ==> forall i :: 0 <= i < |ps| && !APax(ps[i]) ==> ps[i].hdr.name != p.hdr.name) <==>
            (AMember(p) ==> p.hdr.name !in NamesOf(m.members)) && (ADouble(p) ==> p.hdr.name !in m.doubles)
  {
    DoubleIs(p);
    forall i | 0 <= i < |ps| ensures AMember(ps[i]) || ADouble(ps[i]) || APax(ps[i]) { DoubleIs(ps[i]); }
    hide IsDouble, RecordsOnly, MembersIn, SkippedIn, NamesOf;
    NamesApart();
  }

  lemma KnowsMore(m: Met, ps: seq<Piece>, p: Piece)
    requires Knows(m, ps) && |p.data| == p.hdr.size && MeetMember(m, p.hdr, p.data).Ok?
    ensures Knows(MeetMember(m, p.hdr, p.data).value, ps + [p])
  {
    MeetsFine(m, p);
    DoubleIs(p);
    var n, qs := MeetMember(m, p.hdr, p.data).value, ps + [p];
    assert qs[..|ps|] == ps && qs[|ps|] == p;
    hide IsDouble, Fine, MeetMember;
    ListsMore(ps, p);
    hide MembersIn, SkippedIn, AMember, ADouble, APax;
    forall x ensures x in NamesOf(n.members) <==> exists i :: 0 <= i < |qs| && AMember(qs[i]) && qs[i].hdr.name == x
    {
      NamesMore(m.members, Member(p.hdr.name, p.data), x);
      ExistsMore(ps, p, x);
    }
    forall x ensures x in n.doubles <==> exists i :: 0 <= i < |qs| && ADouble(qs[i]) && qs[i].hdr.name == x
    {
      ExistsMore(ps, p, x);
    }
  }

  lemma NamesMore(ms: seq<Member>, e: Member, x: Str)
    ensures x in NamesOf(ms + [e]) <==> x in NamesOf(ms) || x == e.name
  {
    assert e in ms + [e];
  }

  lemma ExistsMore(ps: seq<Piece>, p: Piece, x: Str)
    ensures var qs := ps + [p];
            ((exists i :: 0 <= i < |qs| && AMember(qs[i]) && qs[i].hdr.name == x) <==>
             (exists i :: 0 <= i < |ps| && AMember(ps[i]) && ps[i].hdr.name == x) || (AMember(p) && p.hdr.name == x)) &&
            ((exists i :: 0 <= i < |qs| && ADouble(qs[i]) && qs[i].hdr.name == x) <==>
             (exists i :: 0 <= i < |ps| && ADouble(ps[i]) && ps[i].hdr.name == x) || (ADouble(p) && p.hdr.name == x))
  {
    hide AMember, ADouble;
    var qs := ps + [p];
    assert qs[|ps|] == p;
    forall i | 0 <= i < |ps| ensures qs[i] == ps[i] {}
  }

  lemma ListsMore(ps: seq<Piece>, p: Piece)
    ensures MembersIn(ps + [p]) == MembersIn(ps) + if AMember(p) then [Member(p.hdr.name, p.data)] else []
    ensures SkippedIn(ps + [p]) == SkippedIn(ps) + if ADouble(p) then [p.hdr.name]
              else if AMember(p) && ps != [] && APax(ps[|ps| - 1]) then ["pax header for " + p.hdr.name] else []
  {
    assert (ps + [p])[..|ps|] == ps;
  }

  lemma NamesApart()
    ensures {"relay.db", "manifest.json", "config.json"} !! {"._relay.db", "._manifest.json", "._config.json"}
  {
    assert "relay.db"[0] == 'r' && "manifest.json"[0] == 'm' && "config.json"[0] == 'c';
    assert "._relay.db"[0] == '.' && "._manifest.json"[0] == '.' && "._config.json"[0] == '.';
  }

  // ---------------------------------------------------------------- the walk accepts exactly these

  ghost predicate Whole(tar: Buffer, qs: seq<Piece>, ps: seq<Piece>, at: nat, end: nat)
    requires IsBytes(tar)
  {
    InRow(tar, ps, at, end) && Trailer(tar, end) && Allowed(qs + ps)
  }

  lemma AllowedStart(qs: seq<Piece>, ps: seq<Piece>)
    requires Allowed(qs + ps)
    ensures SoFar(qs)
  {
    hide Fine, APax, AMember;
    var xs := qs + ps;
    forall i | 0 <= i < |qs| ensures xs[i] == qs[i] {}
  }

  lemma AllowedEnd(qs: seq<Piece>)
    ensures Allowed(qs) <==> SoFar(qs) && !(qs != [] && APax(qs[|qs| - 1]))
  {
    hide Fine, APax, AMember;
  }

  lemma KnownOnce(m: Met, n: Met, ps: seq<Piece>)
    requires Knows(m, ps) && Knows(n, ps)
    ensures m == n
  {
    assert m.doubles == n.doubles;
    hide MembersIn, SkippedIn, NamesOf, AMember, ADouble, APax;
  }

  /** A block of zeros is no header. */
  lemma ZerosSayNothing(h: Buffer, hdr: Header)
    requires |h| == BLOCK && IsBytes(h) && AllZero(h)
    ensures !HeaderSays(h, hdr)
  {
    MagicExactly(h);
    assert h[257..265][0] == h[257];
    hide ChecksumSays, NameSays, SizeSays, MagicSays;
  }

  lemma TrailerIs(tar: Buffer, at: nat)
    requires IsBytes(tar)
    ensures Trailer(tar, at) <==> at + 2 * BLOCK <= |tar| && AllZero(tar[at..at + BLOCK]) && AllZero(tar[at + BLOCK..at + 2 * BLOCK]) && AllZero(tar[at + 2 * BLOCK..])
  {
    if at + 2 * BLOCK <= |tar| {
      var t := tar[at..];
      assert forall i :: at <= i < |tar| ==> tar[i] == t[i - at];
      if AllZero(tar[at..at + BLOCK]) && AllZero(tar[at + BLOCK..at + 2 * BLOCK]) && AllZero(tar[at + 2 * BLOCK..]) { ZeroTrailer(tar, at); }
    }
  }

  /** The turn ends the archive exactly at the trailer, with no pax header waiting. */
  lemma DoneExactly(tar: Buffer, at: nat, m: Met)
    requires IsBytes(tar)
    ensures Turn(tar, at, m) == Ok(Done) <==> Trailer(tar, at) && !m.pax
  {
    TrailerIs(tar, at);
    hide AllZero, ParseHeader, MeetMember, Trailer, IsBytes;
  }

  /** The turn meets a member exactly where one stands that the walk takes. */
  lemma MoreExactly(tar: Buffer, at: nat, m: Met, p: Piece, n: Met)
    requires IsBytes(tar)
    ensures Turn(tar, at, m) == Ok(More(p, n)) <==>
            p.at == at && Stands(tar, p) && |p.data| == p.hdr.size && MeetMember(m, p.hdr, p.data) == Ok(n)
  {
    hide Turn, HeaderSays, MeetMember, AllZero, ParseHeader, IsBytes, Block;
    if at + BLOCK <= |tar| {
      HeaderExactly(Block(tar, at), p.hdr);
      if AllZero(Block(tar, at)) { ZerosSayNothing(Block(tar, at), p.hdr); }
      TurnHeader(tar, at, m, p, n);
    } else {
      TurnShort(tar, at, m);
    }
  }

  lemma TurnHeader(tar: Buffer, at: nat, m: Met, p: Piece, n: Met)
    requires IsBytes(tar) && at + BLOCK <= |tar|
    ensures Turn(tar, at, m) == Ok(More(p, n)) <==>
            p.at == at && !AllZero(Block(tar, at)) && ParseHeader(Block(tar, at)) == Ok(p.hdr) && at + BLOCK + p.hdr.size <= |tar| &&
            p.data == tar[at + BLOCK..at + BLOCK + p.hdr.size] && MeetMember(m, p.hdr, p.data) == Ok(n)
  {
    hide ParseHeader, MeetMember, AllZero, IsBytes;
  }

  lemma TurnShort(tar: Buffer, at: nat, m: Met)
    requires IsBytes(tar) && at + BLOCK > |tar|
    ensures Turn(tar, at, m).Refused?
  {
  }

  lemma NextIs(p: Piece)
    ensures EndOf(p) == Next(p)
  {
  }

  lemma WalkTurn(tar: Buffer, at: nat, m: Met)
    requires IsBytes(tar)
    ensures var turn := Turn(tar, at, m);
            Walk(tar, at, m) == if turn.Refused? then Refused(turn.why)
                                else if turn.value.Done? then Ok(m) else Walk(tar, EndOf(turn.value.piece), turn.value.met)
  {
    hide Turn, EndOf;
  }

  lemma RowHead(tar: Buffer, p: Piece, ps: seq<Piece>, at: nat, end: nat)
    requires IsBytes(tar)
    ensures InRow(tar, [p] + ps, at, end) <==> p.at == at && Stands(tar, p) && InRow(tar, ps, EndOf(p), end)
  {
    NextIs(p);
    assert ([p] + ps)[1..] == ps;
    hide Stands, EndOf, Next;
  }

  /** From any point of the walk, with what it knows of the pieces before: what it then accepts, and what it reports. */
  lemma {:induction false} WalkExactly(tar: Buffer, at: nat, m: Met, qs: seq<Piece>, r: Met)
    requires IsBytes(tar) && Knows(m, qs) && SoFar(qs)
    ensures Walk(tar, at, m) == Ok(r) <==> exists ps, end :: Whole(tar, qs, ps, at, end) && Knows(r, qs + ps)
    decreases if at <= |tar| then |tar| - at else 0
  {
    hide Turn, Knows, SoFar, Allowed, InRow, Trailer, Stands, MeetMember, Walk;
    var turn := Turn(tar, at, m);
    WalkTurn(tar, at, m);
    if turn.Ok? && turn.value.More? {
      var p, n := turn.value.piece, turn.value.met;
      MoreExactly(tar, at, m, p, n);
      TakesExactly(m, qs, p);
      NextIs(p);
      WalkExactly(tar, EndOf(p), n, qs + [p], r);
      if Walk(tar, at, m) == Ok(r) {
        var ps, end :| Whole(tar, qs + [p], ps, EndOf(p), end) && Knows(r, qs + [p] + ps);
        RowHead(tar, p, ps, at, end);
        assert qs + [p] + ps == qs + ([p] + ps);
        assert Whole(tar, qs, [p] + ps, at, end) && Knows(r, qs + ([p] + ps));
      }
    }
    if turn == Ok(Done) && Walk(tar, at, m) == Ok(r) { EndsHere(tar, at, m, qs); }
    forall ps, end | Whole(tar, qs, ps, at, end) && Knows(r, qs + ps) ensures Walk(tar, at, m) == Ok(r)
    {
      if ps == [] {
        StopsHere(tar, at, m, qs, end, r);
      } else {
        GoesOn(tar, at, m, qs, ps, end);
        var p, rest := ps[0], ps[1..];
        assert qs + ps == qs + [p] + rest && ps == [p] + rest;
        RowHead(tar, p, rest, at, end);
        assert Whole(tar, qs + [p], rest, EndOf(p), end);
      }
    }
  }

  lemma EndsHere(tar: Buffer, at: nat, m: Met, qs: seq<Piece>)
    requires IsBytes(tar) && Knows(m, qs) && SoFar(qs) && Turn(tar, at, m) == Ok(Done)
    ensures Whole(tar, qs, [], at, at) && Knows(m, qs + [])
  {
    DoneExactly(tar, at, m);
    AllowedEnd(qs);
    assert qs + [] == qs;
    hide Turn, SoFar, Allowed, Trailer, APax, MembersIn, SkippedIn, NamesOf;
  }

  lemma StopsHere(tar: Buffer, at: nat, m: Met, qs: seq<Piece>, end: nat, r: Met)
    requires IsBytes(tar) && Knows(m, qs) && Whole(tar, qs, [], at, end) && Knows(r, qs + [])
    ensures Walk(tar, at, m) == Ok(r)
  {
    assert qs + [] == qs;
    AllowedEnd(qs);
    DoneExactly(tar, at, m);
    KnownOnce(m, r, qs);
    hide Turn, SoFar, Allowed, Trailer, APax, MembersIn, SkippedIn, NamesOf;
    WalkTurn(tar, at, m);
  }

  lemma GoesOn(tar: Buffer, at: nat, m: Met, qs: seq<Piece>, ps: seq<Piece>, end: nat)
    requires IsBytes(tar) && Knows(m, qs) && SoFar(qs) && ps != [] && Whole(tar, qs, ps, at, end)
    ensures var t := Turn(tar, at, m); t.Ok? && t.value.More? && t.value.piece == ps[0]
  {
    var p, rest := ps[0], ps[1..];
    assert qs + ps == (qs + [p]) + rest;
    AllowedStart(qs + [p], rest);
    assert Stands(tar, p) && p.at == at;
    assert |p.data| == p.hdr.size by { hide HeaderSays; }
    TakesExactly(m, qs, p);
    hide Turn, SoFar, Allowed, Trailer, Knows, InRow, Stands, MeetMember;
    MoreExactly(tar, at, m, p, MeetMember(m, p.hdr, p.data).value);
  }

  /**
    * The parser accepts exactly the files that are members, AppleDoubles and pax headers one behind another, as they
    * may stand, and a trailer of two zero blocks or more; and gives the members' names and bytes, and the names of
    * what it skipped, in the order they stand.
    */
  lemma ExtractExactly(tar: Buffer, r: Met)
    requires IsBytes(tar)
    ensures Extract(tar) == Ok(r) <==>
            exists ps, end :: InRow(tar, ps, 0, end) && Trailer(tar, end) && Allowed(ps) && Knows(r, ps)
  {
    NothingKnown();
    hide *;
    WalkExactly(tar, 0, NOTHING_MET, [], r);
    ExtractIs(tar);
    if Extract(tar) == Ok(r) {
      var ps, end :| Whole(tar, [], ps, 0, end) && Knows(r, [] + ps);
      FromNothing(tar, ps, end);
      assert InRow(tar, ps, 0, end) && Trailer(tar, end) && Allowed(ps) && Knows(r, ps);
    }
    forall ps, end | InRow(tar, ps, 0, end) && Trailer(tar, end) && Allowed(ps) && Knows(r, ps) ensures Extract(tar) == Ok(r)
    {
      FromNothing(tar, ps, end);
      assert Whole(tar, [], ps, 0, end) && Knows(r, [] + ps);
    }
  }

  lemma NothingKnown()
    ensures Knows(NOTHING_MET, []) && SoFar([])
  {
  }

  lemma ExtractIs(tar: Buffer)
    requires IsBytes(tar)
    ensures Extract(tar) == Walk(tar, 0, NOTHING_MET)
  {
  }

  lemma FromNothing(tar: Buffer, ps: seq<Piece>, end: nat)
    requires IsBytes(tar)
    ensures [] + ps == ps && (Whole(tar, [], ps, 0, end) <==> InRow(tar, ps, 0, end) && Trailer(tar, end) && Allowed(ps))
  {
    hide InRow, Trailer, Allowed;
    assert [] + ps == ps;
  }
}
