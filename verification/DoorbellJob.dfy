/** The job at work on its log. */
module DoorbellJob {
  // Opening it, writing ahead and folding each record, and the state a crash at any byte leaves for the next start.

  import opened Canon
  import opened DoorbellLog
  import opened DoorbellLedger
  import opened DoorbellPlan
  import opened DoorbellKeep
  import opened DoorbellAdmit
  import opened DoorbellSchema
  import opened DoorbellFold
  import opened DoorbellBytes
  import opened Wrappers

  // ---------------------------------------------------------------- the state kept in memory

  /** Everything the job keeps between cycles. */
  class LogState {
    var rung: set<(Str, Str)>
    var ringWalls: map<Str, seq<int>>
    var lastHeaderWall: Option<int>
    var budgetExhausted: set<Str>
    var boardOpen: map<Str, BoardRec>
    var tornTail: bool
    var records: seq<Rec>

    constructor ()
      ensures Model() == EMPTY_LOG && records == [] && !tornTail
    {
      rung, ringWalls, lastHeaderWall, budgetExhausted, boardOpen, tornTail, records := {}, map[], None, {}, map[], false, [];
    }

    function Model(): LogModel
      reads this
    {
      LogModel(rung, ringWalls, lastHeaderWall, budgetExhausted, boardOpen)
    }

    /** The one reducer: the state moves as the log's own replay does. */
    method FoldRecord(r: Rec)
      modifies this
      ensures Model() == ReduceRecord(old(Model()), r) && records == old(records) + [r] && tornTail == old(tornTail)
    {
      records := records + [r];
      match r
      case Intent(i) =>
        ghost var was := rung;
        for k := 0 to |i.ids|
          invariant Model() == old(Model()).(rung := rung) && records == old(records) + [r] && tornTail == old(tornTail)
          invariant rung == was + (set id | id in i.ids[..k] :: (i.session, id))
        {
          assert i.ids[..k + 1] == i.ids[..k] + [i.ids[k]];
          rung := rung + {(i.session, i.ids[k])};
        }
        assert i.ids[..|i.ids|] == i.ids;
        var walls := if i.agent in ringWalls then ringWalls[i.agent] else [];
        ringWalls := ringWalls[i.agent := walls + [i.at]];
      case Header(at, _) => lastHeaderWall := Some(at);
      case Budget(g) =>
        if g.exhausted { budgetExhausted := budgetExhausted + {g.agent}; } else { budgetExhausted := budgetExhausted - {g.agent}; }
      case Board(b) =>
        if b.isOpen {
          boardOpen := boardOpen[b.agent := b];
        } else if b.agent in boardOpen && boardOpen[b.agent].id == b.id {
          boardOpen := boardOpen - {b.agent};
        }
      case _ =>
    }
  }

  // ---------------------------------------------------------------- the file

  datatype Written = Appended | RecordRefused | WriteFailed

  datatype OpenOutcome = Opened(recovered: nat) | Refused

  /** The log's file. What a write call returns, and whether the final sync succeeds, is the system's choice. */
  class LogFile {
    var bytes: seq<Byte>

    constructor (contents: seq<Byte>)
      ensures bytes == contents
    {
      bytes := contents;
    }

    /**
      * Write-ahead: the whole line, a short write continued, no progress an error. `io` is what each write
      * call returns; a call beyond its end is one the job did not live to make. Refused records write
      * nothing, and a write that did not complete leaves some first part of the line.
      */
    method AppendRecord(codec: Codec, r: Rec, io: seq<int>, synced: bool) returns (res: Written)
      modifies this
      ensures |old(bytes)| <= |bytes| <= |old(bytes)| + |LineOf(codec, r)|
      ensures bytes == old(bytes) + LineOf(codec, r)[..|bytes| - |old(bytes)|]
      ensures res == RecordRefused <==> !RecordOk(r)
      ensures res == RecordRefused ==> bytes == old(bytes)
      ensures res == Appended ==> bytes == old(bytes) + LineOf(codec, r)
    {
      if !RecordOk(r) { return RecordRefused; }
      hide RecordOk;
      var buf := LineOf(codec, r);
      var off, call := 0, 0;
      while off < |buf|
        invariant 0 <= off <= |buf| && bytes == old(bytes) + buf[..off]
        decreases |buf| - off
      {
        if call >= |io| || io[call] <= 0 { return WriteFailed; }
        var n := if io[call] <= |buf| - off then io[call] else |buf| - off;
        assert buf[..off + n] == buf[..off] + buf[off..off + n];
        bytes := bytes + buf[off..off + n];
        off, call := off + n, call + 1;
      }
      assert buf[..|buf|] == buf;
      return if synced then Appended else WriteFailed;
    }

    /**
      * Open the log: every complete line must be a valid record, else it is refused untouched; then an
      * unterminated tail is cut. The state is rebuilt from the same read.
      */
    method OpenLog(codec: Codec) returns (out: OpenOutcome, state: LogState)
      modifies this
      ensures fresh(state)
      ensures match ParseLines(codec, LinesOf(old(bytes)))
              case None => out == Refused && bytes == old(bytes)
              case Some(recs) =>
                out == Opened(|old(bytes)| - |Terminated(old(bytes))|) && bytes == Terminated(old(bytes)) &&
                state.records == recs && state.Model() == Replay(recs) && !state.tornTail
    {
      var lines := LinesOf(bytes);
      state := new LogState();
      for k := 0 to |lines|
        invariant bytes == old(bytes) && fresh(state) && !state.tornTail
        invariant ParseLines(codec, lines[..k]) == Some(state.records) && state.Model() == Replay(state.records)
      {
        assert lines[..k + 1] == lines[..k] + [lines[k]];
        ParseSnoc(codec, lines[..k], lines[k]);
        var r := codec.parse(lines[k]);
        if r == None {
          ParseStops(codec, lines, k + 1);
          return Refused, state;
        }
        ReplayAppend(state.records, r.value);
        state.FoldRecord(r.value);
      }
      assert lines[..|lines|] == lines;
      var keep := Terminated(bytes);
      var recovered := |bytes| - |keep|;
      bytes := keep;
      return Opened(recovered), state;
    }
  }

  /** One line that is not a valid record makes the log untrusted, whatever follows. */
  lemma {:induction false} ParseStops(codec: Codec, lines: seq<seq<Byte>>, m: nat)
    requires m <= |lines| && ParseLines(codec, lines[..m]) == None
    ensures ParseLines(codec, lines) == None
    decreases |lines|
  {
    if m < |lines| {
      assert lines[..|lines| - 1][..m] == lines[..m];
      ParseStops(codec, lines[..|lines| - 1], m);
    } else {
      assert lines[..m] == lines;
    }
  }

  // ---------------------------------------------------------------- the running job

  /** A write's schedule: what each write call returns, and whether the sync succeeds. */
  datatype Io = Io(calls: seq<int>, synced: bool)

  /** What the last failed write left behind: some first part of a record's line. */
  ghost predicate PartOf(codec: Codec, part: seq<Byte>, recs: seq<Rec>, k: nat)
  {
    part == [] || (k < |recs| && part <= LineOf(codec, recs[k]))
  }

  class Job {
    const file: LogFile
    const state: LogState
    var ringMono: map<Str, seq<int>>
    var intentMono: map<Str, int>

    constructor (f: LogFile, s: LogState)
      ensures file == f && state == s && ringMono == map[] && intentMono == map[]
    {
      file, state, ringMono, intentMono := f, s, map[], map[];
    }

    /** What the next cycle reads of the job, the world being as in `base`. */
    function AsInput(base: Input): Input
      reads this, state
    {
      base.(log := state.records, rung := state.rung, exhausted := state.budgetExhausted, boardOpen := state.boardOpen,
            ringMono := ringMono, mono := intentMono)
    }

    /** The write path for one record: durable first, then the one reducer moves the state. */
    method Write(codec: Codec, r: Rec, io: Io, ghost base: Input) returns (res: Written)
      modifies this, file, state
      ensures |old(file.bytes)| <= |file.bytes| && old(file.bytes) <= file.bytes
      ensures res == Appended ==> file.bytes == old(file.bytes) + LineOf(codec, r) && AsInput(base) == FoldOne(old(AsInput(base)), r)
      ensures res != Appended ==> AsInput(base) == old(AsInput(base)) && file.bytes[|old(file.bytes)|..] <= LineOf(codec, r)
      ensures res == RecordRefused ==> !RecordOk(r)
    {
      hide RecordOk;
      res := file.AppendRecord(codec, r, io.calls, io.synced);
      assert file.bytes[|old(file.bytes)|..] == LineOf(codec, r)[..|file.bytes| - |old(file.bytes)|];
      if res == Appended {
        state.FoldRecord(r);
        if r.Intent? {
          var times := if r.i.agent in ringMono then ringMono[r.i.agent] else [];
          ringMono := ringMono[r.i.agent := times + [r.i.mono]];
          intentMono := intentMono[r.i.id := r.i.mono];
        }
      }
    }

    /**
      * A plan's records in order, stopping at the first that is not durably written. Memory holds exactly the
      * records written; the file holds their lines, and after a failure at most a part of the next.
      */
    method WriteAll(codec: Codec, recs: seq<Rec>, io: nat -> Io, ghost base: Input) returns (done: nat, res: Written)
      modifies this, file, state
      ensures done <= |recs| && (res == Appended <==> done == |recs|)
      ensures AsInput(base) == Fold(old(AsInput(base)), recs[..done])
      ensures exists part :: PartOf(codec, part, recs, done) && file.bytes == old(file.bytes) + Encode(codec, recs[..done]) + part
      ensures res == Appended ==> file.bytes == old(file.bytes) + Encode(codec, recs)
    {
      hide LineOf, FoldOne, PartOf, RecordOk;
      done, res := 0, Appended;
      NothingWritten(codec, recs);
      assert old(file.bytes) + [] == old(file.bytes);
      while done < |recs|
        invariant 0 <= done <= |recs| && res == Appended
        invariant AsInput(base) == Fold(old(AsInput(base)), recs[..done])
        invariant file.bytes == old(file.bytes) + Encode(codec, recs[..done])
      {
        ghost var was := file.bytes;
        assert recs[..done + 1] == recs[..done] + [recs[done]];
        EncodeSnoc(codec, recs[..done], recs[done]);
        FoldSnoc(old(AsInput(base)), recs[..done], recs[done]);
        res := Write(codec, recs[done], io(done), base);
        if res != Appended {
          PartLeft(codec, file.bytes[|was|..], recs, done);
          assert file.bytes == was + file.bytes[|was|..];
          return;
        }
        Assoc(old(file.bytes), Encode(codec, recs[..done]), LineOf(codec, recs[done]));
        done := done + 1;
      }
      assert recs[..|recs|] == recs;
      NoPart(codec, recs);
      assert file.bytes + [] == file.bytes;
    }

    lemma NothingWritten(codec: Codec, recs: seq<Rec>)
      ensures Encode(codec, recs[..0]) == [] && forall inp: Input :: Fold(inp, recs[..0]) == inp
    {
    }

    lemma NoPart(codec: Codec, recs: seq<Rec>)
      ensures PartOf(codec, [], recs, |recs|)
    {
    }

    lemma PartLeft(codec: Codec, part: seq<Byte>, recs: seq<Rec>, k: nat)
      requires k < |recs| && part <= LineOf(codec, recs[k])
      ensures PartOf(codec, part, recs, k)
    {
    }

    lemma FoldSnoc(inp: Input, recs: seq<Rec>, r: Rec)
      ensures Fold(inp, recs + [r]) == FoldOne(Fold(inp, recs), r)
    {
      hide FoldOne;
      assert (recs + [r])[..|recs|] == recs;
    }
  }

  // ---------------------------------------------------------------- crash and restart

  /** A part of a line that is not the whole of it holds no newline. */
  lemma PartHasNoNewline(codec: Codec, part: seq<Byte>, r: Rec)
    requires Faithful(codec) && RecordOk(r) && part <= LineOf(codec, r) && part != LineOf(codec, r)
    ensures NEWLINE !in part
  {
    hide RecordOk;
    var line := codec.text(r);
    assert NEWLINE !in line;
    assert part == LineOf(codec, r)[..|part|] == line[..|part|];
  }

  /** A whole log and part of one more line: the line counts when all of it is there. */
  lemma LogThenPart(codec: Codec, all: seq<Rec>, r: Rec, part: seq<Byte>)
    requires Faithful(codec) && AllValid(all) && RecordOk(r) && part <= LineOf(codec, r)
    ensures ReadsAs(codec, Encode(codec, all) + part, if part == LineOf(codec, r) then all + [r] else all)
  {
    if part != LineOf(codec, r) && part != [] { PartHasNoNewline(codec, part, r); }
    hide Encode, Faithful, RecordOk, ReadsAs;
    WholeReads(codec, all);
    if part == LineOf(codec, r) {
      WholeThenOne(codec, all, r);
      EncodeSnoc(codec, all, r);
    } else {
      WholeThenPart(codec, all, part);
    }
  }

  lemma ValidAt(before: seq<Rec>, recs: seq<Rec>, done: nat)
    requires AllValid(before) && AllValid(recs) && done <= |recs|
    ensures AllValid(before + recs[..done]) && (done < |recs| ==> RecordOk(recs[done]) && before + recs[..done] + [recs[done]] == before + recs[..done + 1])
  {
    hide RecordOk;
    if done < |recs| {
      assert recs[done] in recs;
      assert recs[..done + 1] == recs[..done] + [recs[done]];
    }
  }

  lemma PartMeans(codec: Codec, part: seq<Byte>, recs: seq<Rec>, done: nat)
    requires done <= |recs| && PartOf(codec, part, recs, done)
    ensures if done < |recs| then part <= LineOf(codec, recs[done]) else part == []
  {
  }

  /**
    * A crash at any byte of a run of appends: opening the log again reads exactly the records whose whole
    * line is in the file, which are those durably written and at most the one being written; what is left
    * is their lines and nothing more.
    */
  lemma CrashRecovers(codec: Codec, before: seq<Rec>, recs: seq<Rec>, done: nat, part: seq<Byte>)
    requires Faithful(codec) && AllValid(before) && AllValid(recs) && done <= |recs| && PartOf(codec, part, recs, done)
    ensures var bytes := Encode(codec, before) + Encode(codec, recs[..done]) + part;
            var k := if done < |recs| && part == LineOf(codec, recs[done]) then done + 1 else done;
            ReadsAs(codec, bytes, before + recs[..k])
  {
    hide *;
    ValidAt(before, recs, done);
    PartMeans(codec, part, recs, done);
    EncodeConcat(codec, before, recs[..done]);
    if done < |recs| {
      LogThenPart(codec, before + recs[..done], recs[done], part);
    } else {
      WholeReads(codec, before + recs[..done]);
      assert Encode(codec, before + recs[..done]) + [] == Encode(codec, before + recs[..done]);
    }
  }

  /** Every previous lifetime's intent, placed once on this lifetime's clock. */
  method PlaceIntents(records: seq<Rec>, lastHeader: Option<int>, startWall: int) returns (mono: map<Str, int>)
    requires forall j, k :: 0 <= j < k < |records| && records[j].Intent? && records[k].Intent? ==> records[j].i.id != records[k].i.id
    ensures forall r :: r in records && r.Intent? ==> r.i.id in mono && mono[r.i.id] == PlaceRing(r.i.at, lastHeader, startWall)
  {
    mono := map[];
    for k := 0 to |records|
      invariant forall j :: 0 <= j < k && records[j].Intent? ==>
                  records[j].i.id in mono && mono[records[j].i.id] == PlaceRing(records[j].i.at, lastHeader, startWall)
    {
      if records[k].Intent? { mono := mono[records[k].i.id := PlaceRing(records[k].i.at, lastHeader, startWall)]; }
    }
  }
}
