/**
  * The log as bytes: one serialised record a line. A crash may cut the file anywhere; opening it again
  * recovers exactly the records whose whole line was written.
  */
module DoorbellBytes {
  import opened Canon
  import opened DoorbellLog
  import opened DoorbellLedger
  import opened DoorbellPlan
  import opened DoorbellKeep
  import opened DoorbellAdmit
  import opened DoorbellSchema
  import opened Wrappers

  newtype Byte = x: int | 0 <= x < 256

  const NEWLINE: Byte := 0x0a

  /** How a record is written as one line's bytes, and what a line is read as (None: not a valid record). */
  datatype Codec = Codec(text: Rec -> seq<Byte>, parse: seq<Byte> -> Option<Rec>)

  /** A serialised record holds no newline and reads back as itself; a line that is read is a valid record. */
  ghost predicate Faithful(codec: Codec)
  {
    (forall r :: RecordOk(r) ==> NEWLINE !in codec.text(r) && codec.parse(codec.text(r)) == Some(r)) &&
    forall line :: codec.parse(line).Some? ==> RecordOk(codec.parse(line).value)
  }

  function LineOf(codec: Codec, r: Rec): seq<Byte>
  {
    codec.text(r) + [NEWLINE]
  }

  /** The bytes of a log of these records. */
  function Encode(codec: Codec, recs: seq<Rec>): seq<Byte>
  {
    if recs == [] then [] else Encode(codec, recs[..|recs| - 1]) + LineOf(codec, recs[|recs| - 1])
  }

  /** Where the first line ends, or the length when no line is complete. */
  function LineEnd(bytes: seq<Byte>): (k: nat)
    ensures k <= |bytes| && NEWLINE !in bytes[..k] && (k < |bytes| ==> bytes[k] == NEWLINE)
  {
    if bytes == [] || bytes[0] == NEWLINE then 0
    else
      var k := LineEnd(bytes[1..]);
      assert bytes[..k + 1] == [bytes[0]] + bytes[1..][..k];
      k + 1
  }

  /** The complete lines, without their newlines. */
  function LinesOf(bytes: seq<Byte>): seq<seq<Byte>>
    decreases |bytes|
  {
    var k := LineEnd(bytes);
    if k == |bytes| then [] else [bytes[..k]] + LinesOf(bytes[k + 1..])
  }

  /** The bytes up to the last newline: what is left once an unterminated tail is cut. */
  function Terminated(bytes: seq<Byte>): (r: seq<Byte>)
    ensures r <= bytes && (r != [] ==> r[|r| - 1] == NEWLINE)
  {
    if bytes == [] || bytes[|bytes| - 1] == NEWLINE then bytes else Terminated(bytes[..|bytes| - 1])
  }

  /** Every complete line must be a valid record: one that is not makes the whole log untrusted. */
  function ParseLines(codec: Codec, lines: seq<seq<Byte>>): Option<seq<Rec>>
  {
    if lines == [] then Some([])
    else
      var p, r := ParseLines(codec, lines[..|lines| - 1]), codec.parse(lines[|lines| - 1]);
      if p.Some? && r.Some? then Some(p.value + [r.value]) else None
  }

  predicate AllValid(recs: seq<Rec>)
  {
    forall r :: r in recs ==> RecordOk(r)
  }

  // ---------------------------------------------------------------- what a cut log holds

  lemma {:induction false} LineEndIs(a: seq<Byte>, rest: seq<Byte>)
    requires NEWLINE !in a && (rest == [] || rest[0] == NEWLINE)
    ensures LineEnd(a + rest) == |a|
  {
    if a != [] {
      assert a[0] in a && (a + rest)[0] == a[0];
      LineEndIs(a[1..], rest);
      assert (a + rest)[1..] == a[1..] + rest;
    }
  }

  /** One whole line first: the rest is read on its own. */
  lemma FirstLine(a: seq<Byte>, rest: seq<Byte>)
    requires NEWLINE !in a
    ensures LinesOf(a + [NEWLINE] + rest) == [a] + LinesOf(rest)
  {
    LineEndIs(a, [NEWLINE] + rest);
    assert a + [NEWLINE] + rest == a + ([NEWLINE] + rest);
    assert (a + [NEWLINE] + rest)[|a| + 1..] == rest;
    assert (a + [NEWLINE] + rest)[..|a|] == a;
  }

  lemma NoLine(a: seq<Byte>)
    requires NEWLINE !in a
    ensures LinesOf(a) == [] && Terminated(a) == []
  {
    LineEndIs(a, []);
    assert a + [] == a;
    NoTail(a);
  }

  lemma {:induction false} NoTail(a: seq<Byte>)
    requires NEWLINE !in a
    ensures Terminated(a) == []
  {
    if a != [] {
      assert a[|a| - 1] in a;
      NoTail(a[..|a| - 1]);
    }
  }

  lemma {:induction false} TerminatedAfter(head: seq<Byte>, rest: seq<Byte>)
    requires head != [] && head[|head| - 1] == NEWLINE
    ensures Terminated(head + rest) == head + Terminated(rest)
    decreases |rest|
  {
    if rest == [] {
      assert head + rest == head;
    } else if rest[|rest| - 1] != NEWLINE {
      assert (head + rest)[..|head + rest| - 1] == head + rest[..|rest| - 1];
      TerminatedAfter(head, rest[..|rest| - 1]);
    }
  }

  lemma ParseSnoc(codec: Codec, lines: seq<seq<Byte>>, line: seq<Byte>)
    ensures var p, r := ParseLines(codec, lines), codec.parse(line);
            ParseLines(codec, lines + [line]) == if p.Some? && r.Some? then Some(p.value + [r.value]) else None
  {
    assert (lines + [line])[..|lines|] == lines;
  }

  lemma EncodeSnoc(codec: Codec, recs: seq<Rec>, r: Rec)
    ensures Encode(codec, recs + [r]) == Encode(codec, recs) + LineOf(codec, r)
  {
    assert (recs + [r])[..|recs|] == recs;
  }

  lemma Assoc<T>(x: seq<T>, y: seq<T>, z: seq<T>)
    ensures (x + y) + z == x + (y + z)
  {
  }

  lemma CutFirst<T>(x: seq<T>, y: seq<T>, z: seq<T>, m: nat)
    requires m <= |x| + |y|
    ensures (x + (y + z))[..m] == if m <= |x| then x[..m] else x + y[..m - |x|]
    ensures m == |x| ==> (x + (y + z))[..m] == x + y[..0]
  {
  }

  lemma SplitFirst(head: seq<Byte>) returns (a: seq<Byte>, tail: seq<Byte>)
    requires head != [] && head[|head| - 1] == NEWLINE
    ensures head == a + [NEWLINE] + tail && NEWLINE !in a && (tail == [] || tail[|tail| - 1] == NEWLINE)
  {
    var k := LineEnd(head);
    assert head[|head| - 1] in head;
    assert head[..|head|] == head;
    a, tail := head[..k], head[k + 1..];
  }

  lemma {:induction false} EncodeConcat(codec: Codec, x: seq<Rec>, y: seq<Rec>)
    ensures Encode(codec, x + y) == Encode(codec, x) + Encode(codec, y)
    decreases |y|
  {
    hide LineOf;
    if y == [] {
      assert x + y == x && Encode(codec, x) + [] == Encode(codec, x);
    } else {
      var z, r := y[..|y| - 1], y[|y| - 1];
      EncodeConcat(codec, x, z);
      assert x + y == (x + z) + [r] && y == z + [r];
      EncodeSnoc(codec, x + z, r);
      Assoc(Encode(codec, x), Encode(codec, z), LineOf(codec, r));
    }
  }

  /** Terminated bytes first: their lines, then the lines of the rest. */
  lemma {:induction false} LinesConcat(head: seq<Byte>, rest: seq<Byte>)
    requires head == [] || head[|head| - 1] == NEWLINE
    ensures LinesOf(head + rest) == LinesOf(head) + LinesOf(rest)
    decreases |head|
  {
    if head == [] {
      assert head + rest == rest;
      NoLine([]);
    } else {
      hide LinesOf;
      var a, tail := SplitFirst(head);
      LinesConcat(tail, rest);
      FirstLine(a, tail + rest);
      FirstLine(a, tail);
      Assoc(a + [NEWLINE], tail, rest);
      Assoc([a], LinesOf(tail), LinesOf(rest));
    }
  }

  lemma OneLine(a: seq<Byte>)
    requires NEWLINE !in a
    ensures LinesOf(a + [NEWLINE]) == [a] && Terminated(a + [NEWLINE]) == a + [NEWLINE]
  {
    FirstLine(a, []);
    NoLine([]);
    assert a + [NEWLINE] + [] == a + [NEWLINE];
  }

  lemma {:induction false} EncodeEnds(codec: Codec, recs: seq<Rec>)
    ensures recs != [] ==> Encode(codec, recs) != [] && Encode(codec, recs)[|Encode(codec, recs)| - 1] == NEWLINE
  {
  }

  /** How many records have their whole line within the first `m` bytes. */
  function WholeLines(codec: Codec, recs: seq<Rec>, m: nat): (k: nat)
    ensures k <= |recs| && |Encode(codec, recs[..k])| <= m
    ensures k < |recs| ==> m < |Encode(codec, recs[..k + 1])|
  {
    if m >= |Encode(codec, recs)| then
      assert recs[..|recs|] == recs;
      |recs|
    else
      var p := recs[..|recs| - 1];
      var k := WholeLines(codec, p, m);
      assert p[..k] == recs[..k] && (k < |p| ==> p[..k + 1] == recs[..k + 1]) && (k == |p| ==> recs[..k + 1] == recs);
      k
  }

  /** What a cut of a log reads as: these records, and these bytes once the tail is cut. */
  ghost predicate ReadsAs(codec: Codec, bytes: seq<Byte>, recs: seq<Rec>)
  {
    ParseLines(codec, LinesOf(bytes)) == Some(recs) && Terminated(bytes) == Encode(codec, recs)
  }

  /** Whole lines, then part of one. */
  lemma WholeThenPart(codec: Codec, recs: seq<Rec>, part: seq<Byte>)
    requires ReadsAs(codec, Encode(codec, recs), recs) && NEWLINE !in part
    ensures ReadsAs(codec, Encode(codec, recs) + part, recs)
  {
    hide ParseLines, Encode, LinesOf, Terminated;
    var head := Encode(codec, recs);
    EncodeEnds(codec, recs);
    NoLine(part);
    if recs == [] { EncodeNone(codec); }
    LinesConcat(head, part);
    assert LinesOf(head) + [] == LinesOf(head);
    if head != [] { TerminatedAfter(head, part); } else { assert head + part == part; }
    assert head + [] == head;
  }

  lemma EncodeNone(codec: Codec)
    ensures Encode(codec, []) == [] && ReadsAs(codec, [], [])
  {
  }

  /** Whole lines, then one more. */
  lemma WholeThenOne(codec: Codec, recs: seq<Rec>, r: Rec)
    requires ReadsAs(codec, Encode(codec, recs), recs) && Faithful(codec) && RecordOk(r)
    ensures ReadsAs(codec, Encode(codec, recs + [r]), recs + [r])
  {
    assert NEWLINE !in codec.text(r) && codec.parse(codec.text(r)) == Some(r);
    hide ParseLines, Encode, LinesOf, Terminated, Faithful, RecordOk;
    var head, line := Encode(codec, recs), codec.text(r);
    EncodeSnoc(codec, recs, r);
    EncodeEnds(codec, recs);
    OneLine(line);
    if recs == [] { EncodeNone(codec); }
    LinesConcat(head, line + [NEWLINE]);
    ParseSnoc(codec, LinesOf(head), line);
    if head != [] { TerminatedAfter(head, line + [NEWLINE]); } else { assert head + (line + [NEWLINE]) == line + [NEWLINE]; }
  }

  lemma {:induction false} WholeReads(codec: Codec, recs: seq<Rec>)
    requires Faithful(codec) && AllValid(recs)
    ensures ReadsAs(codec, Encode(codec, recs), recs)
  {
    hide Faithful, ReadsAs, Encode, RecordOk;
    if recs == [] {
      EncodeNone(codec);
    } else {
      var p, r := recs[..|recs| - 1], recs[|recs| - 1];
      assert recs == p + [r] && r in recs;
      WholeReads(codec, p);
      WholeThenOne(codec, p, r);
    }
  }

  /**
    * Cut a log of valid records at any byte: its complete lines are exactly the records whose whole line is
    * there, and what is left once the tail is cut is exactly those records' bytes.
    */
  lemma {:induction false} CutAnywhere(codec: Codec, recs: seq<Rec>, m: nat)
    requires Faithful(codec) && AllValid(recs) && m <= |Encode(codec, recs)|
    ensures ReadsAs(codec, Encode(codec, recs)[..m], recs[..WholeLines(codec, recs, m)])
  {
    if m == |Encode(codec, recs)| {
      WholeReads(codec, recs);
      assert Encode(codec, recs)[..m] == Encode(codec, recs) && recs[..|recs|] == recs;
    } else {
      CutShort(codec, recs, m);
    }
  }

  lemma {:induction false} CutShort(codec: Codec, recs: seq<Rec>, m: nat)
    requires Faithful(codec) && AllValid(recs) && m < |Encode(codec, recs)|
    ensures ReadsAs(codec, Encode(codec, recs)[..m], recs[..WholeLines(codec, recs, m)])
  {
    var p, r := recs[..|recs| - 1], recs[|recs| - 1];
    assert recs == p + [r] && r in recs && RecordOk(r);
    assert NEWLINE !in codec.text(r);
    WholeShort(codec, recs, m);
    EncodeSnoc(codec, p, r);
    var head, line, k := Encode(codec, p), codec.text(r), WholeLines(codec, p, m);
    hide Faithful, ReadsAs, RecordOk, Encode, WholeLines, AllValid;
    assert AllValid(p) by { ValidPart(recs); }
    if m < |head| {
      CutShort(codec, p, m);
      CutFirst(head, line, [NEWLINE], m);
    } else {
      WholeReads(codec, p);
      WholeThenPart(codec, p, line[..m - |head|]);
      CutFirst(head, line, [NEWLINE], m);
      AllOfIt(codec, p, m);
    }
  }

  lemma ValidPart(recs: seq<Rec>)
    requires AllValid(recs) && recs != []
    ensures AllValid(recs[..|recs| - 1])
  {
  }

  lemma WholeShort(codec: Codec, recs: seq<Rec>, m: nat)
    requires m < |Encode(codec, recs)|
    ensures recs != [] && var p := recs[..|recs| - 1]; recs[..WholeLines(codec, recs, m)] == p[..WholeLines(codec, p, m)]
  {
    hide LineOf;
  }

  lemma AllOfIt(codec: Codec, recs: seq<Rec>, m: nat)
    requires |Encode(codec, recs)| <= m
    ensures recs[..WholeLines(codec, recs, m)] == recs
  {
    hide LineOf;
  }
}
