/** Intents the tailer never yields. */
module DoorbellTailLost {
  // Runs in which a compaction replaces a log the tailer has not opened, dropping a judged ring an hour old.

  import opened Canon
  import opened DoorbellLog
  import opened DoorbellPlan
  import opened DoorbellAdmit
  import opened DoorbellKeep
  import opened DoorbellCompaction
  import opened DoorbellBudget
  import DoorbellRuns
  import opened DoorbellBytes
  import opened DoorbellTail
  import opened DoorbellSetback
  import opened Wrappers

  // ---------------------------------------------------------------- what is logged in the bytes of some records

  function IntentIds(recs: seq<Rec>): set<Str>
  {
    set r | r in recs && r.Intent? :: r.i.id
  }

  lemma {:induction false} ParsedIds(codec: Codec, lines: seq<seq<Byte>>, recs: seq<Rec>)
    requires ParseLines(codec, lines) == Some(recs)
    ensures IdsIn(codec, lines) == IntentIds(recs)
    decreases |lines|
  {
    if lines == [] {
      assert IdsIn(codec, []) == {};
    } else {
      var q, l := lines[..|lines| - 1], lines[|lines| - 1];
      var p, r := ParseLines(codec, q).value, codec.parse(l).value;
      ParsedIds(codec, q, p);
      assert lines == q + [l] && recs == p + [r];
      IdsSnoc(codec, q, l);
      IntentIdsSnoc(p, r);
    }
  }

  lemma IntentIdsSnoc(p: seq<Rec>, r: Rec)
    ensures IntentIds(p + [r]) == IntentIds(p) + if r.Intent? then {r.i.id} else {}
  {
    assert forall t :: t in p + [r] <==> t in p || t == r;
  }

  lemma LoggedEncode(codec: Codec, recs: seq<Rec>)
    requires Faithful(codec) && AllValid(recs)
    ensures Logged(codec, Encode(codec, recs)) == IntentIds(recs) && Unended(Encode(codec, recs)) == []
  {
    WholeReads(codec, recs);
    hide Faithful, AllValid, Encode, LinesOf, Terminated;
    ParsedIds(codec, LinesOf(Encode(codec, recs)), recs);
  }

  // ---------------------------------------------------------------- the logs

  /** A lifetime of two rings, and the start that compacts its log with a budget of one, an hour after the first. */
  predicate TwoRings(f: Life, at: StartAt)
  {
    LifeOk(f) && f.more == 1 && at.budget == 1 && at.lastHeader == Some(f.header) && f.first == at.startWall - BUDGET_WINDOW_MS &&
    StartTime(at.startWall) && f.header <= at.startWall
  }

  function LogBefore(f: Life, at: StartAt): seq<Rec>
    requires TwoRings(f, at)
  {
    StartLog(f, at.startWall)
  }

  function LogAfter(f: Life, at: StartAt): seq<Rec>
    requires TwoRings(f, at)
  {
    Compact(LogBefore(f, at), DoorbellRuns.Snapshot(LogBefore(f, at), EnvAt(1)), at)
  }

  lemma ValidBefore(f: Life, at: StartAt)
    requires TwoRings(f, at)
    ensures AllValid(LogBefore(f, at)) && AllValid(LogAfter(f, at)) && IntentIds(LogAfter(f, at)) <= IntentIds(LogBefore(f, at))
  {
    LifeRecordsOk(f);
    HeaderOk(at.startWall);
    hide LifeLog, RecordOk, DoorbellRuns.Snapshot, EnvAt, LifeOk, KeptIds, KeepAt;
    var log := LogBefore(f, at);
    var now := DoorbellRuns.Snapshot(log, EnvAt(1));
    PickMembers(log, now, KeptIds(log, now, at), |log|);
  }

  /** The compaction drops the first ring: judged, its message drained, and older than an hour. */
  lemma FirstGone(f: Life, at: StartAt)
    requires TwoRings(f, at)
    ensures Uid(0) in IntentIds(LogBefore(f, at)) && Uid(0) !in IntentIds(LogAfter(f, at))
  {
    var log := LogBefore(f, at);
    var now := DoorbellRuns.Snapshot(log, EnvAt(1));
    FirstLogged(f, at.startWall);
    SnapshotAt(f, at.startWall, 1);
    FirstDropped(f, at, now);
    hide StartLog, DoorbellRuns.Snapshot, EnvAt, LifeOk, KeptIds, KeepAt, Uid;
    PickMembers(log, now, KeptIds(log, now, at), |log|);
    forall r | r in LogAfter(f, at) && r.Intent? ensures r.i.id != Uid(0)
    {
      var j :| 0 <= j < |log| && log[j] == r && KeepAt(log, now, KeptIds(log, now, at), j);
      IntentKept(log, now, KeptIds(log, now, at), j);
    }
  }

  lemma FirstLogged(f: Life, wall: int)
    requires f.more == 1
    ensures Uid(0) in IntentIds(StartLog(f, wall))
  {
    hide WallOf, Uid, Msg;
    RingAgent(f, 0);
    assert Intent(RingAt(f, 0)) in LifeLog(f, 1);
    assert Intent(RingAt(f, 0)) in StartLog(f, wall);
  }

  /** What the job appends to the log of one header to make it that log. */
  function Appended(f: Life, wall: int): seq<Rec>
    requires f.more == 1
  {
    CycleRecs(f, 0) + CycleRecs(f, 1) + [Header(wall, 1)]
  }

  lemma AppendedIs(f: Life, wall: int)
    requires f.more == 1
    ensures [Header(f.header, 1)] + Appended(f, wall) == StartLog(f, wall)
  {
    hide CycleRecs;
    assert LifeLog(f, 0) == [Header(f.header, 1)];
    assert LifeLog(f, 1) == LifeLog(f, 0) + CycleRecs(f, 0);
    assert LifeLog(f, 2) == LifeLog(f, 1) + CycleRecs(f, 1);
  }

  /** A log of one header is compacted to itself. */
  lemma HeaderStays(wall: int, now: map<Str, View>, at: StartAt)
    ensures Compact([Header(wall, 1)], now, at) == [Header(wall, 1)]
  {
    var log := [Header(wall, 1)];
    assert log[1..] == [];
    hide KeptIds;
    assert Pick(log, now, KeptIds(log, now, at), 0) == [];
    assert KeepAt(log, now, KeptIds(log, now, at), 0);
  }

  // ---------------------------------------------------------------- the steps

  lemma SameFiles(codec: Codec, s: Sys, t: Sys)
    requires t.fs == s.fs && s.fs.path in s.fs.bytes
    ensures BringsNew(codec, s, t)
  {
    hide Logged;
  }

  lemma Extends(codec: Codec, run: seq<Sys>, t: Sys)
    requires IsFreshRun(codec, run) && Next(codec, run[|run| - 1], t) && BringsNew(codec, run[|run| - 1], t)
    ensures IsFreshRun(codec, run + [t])
  {
    hide Next, BringsNew, Initial;
    var more := run + [t];
    forall k | 0 <= k < |more| - 1 ensures Next(codec, more[k], more[k + 1]) && BringsNew(codec, more[k], more[k + 1])
    {
      if k < |run| - 1 { assert Next(codec, run[k], run[k + 1]) && BringsNew(codec, run[k], run[k + 1]); }
    }
  }

  /** The path's file gets a new inode and these contents. */
  function Replaced(codec: Codec, s: Sys, ino: nat, contents: seq<Byte>): Sys
    requires s.fs.path in s.fs.bytes && (s.t.isOpen ==> s.t.ino in s.fs.bytes)
  {
    s.(fs := Files(s.fs.bytes[ino := contents], ino), lost := s.lost + Lost(codec, s, contents))
  }

  lemma ReplaceIsNext(codec: Codec, s: Sys, ino: nat, contents: seq<Byte>)
    requires s.fs.path in s.fs.bytes && (s.t.isOpen ==> s.t.ino in s.fs.bytes) && ino !in s.fs.bytes && Unended(Current(s)) == []
    requires Logged(codec, contents) <= Logged(codec, Current(s))
    ensures var t := Replaced(codec, s, ino, contents); Next(codec, s, t) && BringsNew(codec, s, t)
  {
    hide Logged, Unended;
    var t := Replaced(codec, s, ino, contents);
    assert ReplaceStep(codec, s, t, ino, contents);
    assert Current(t) == contents;
  }

  /** The rest of a poll that looked at another file than its own. */
  function AfterDrain(codec: Codec, s: Sys, next: Phase): Sys
    requires s.t.ino in s.fs.bytes
  {
    var d := Drain(codec, s.t, Held(s));
    s.(t := d.0, yielded := s.yielded + d.1, phase := next)
  }

  lemma PollEnds(codec: Codec, run: seq<Sys>) returns (more: seq<Sys>)
    requires IsFreshRun(codec, run)
    requires var s := run[|run| - 1]; s.phase.Looked? && s.t.isOpen && s.t.ino in s.fs.bytes && s.fs.path in s.fs.bytes && s.phase.at != s.t.ino
    ensures IsFreshRun(codec, more) && |more| == |run| + 3 && more[..|run|] == run
    ensures var s, t := run[|run| - 1], more[|more| - 1]; t.phase == Idle && t.owed == s.owed && t.lost == s.lost
    ensures var s := run[|run| - 1]; forall k :: |run| <= k < |more| ==> more[k].fs == s.fs
  {
    assert run != [];
    hide IsFreshRun, Drain;
    var s := run[|run| - 1];
    DrainSame(codec, s.t, Held(s));
    var a := AfterDrain(codec, s, Drained);
    var b := a.(t := Open(a.t, a.fs), phase := Switched);
    var c := AfterDrain(codec, b, Idle);
    SameFiles(codec, s, a);
    SameFiles(codec, a, b);
    SameFiles(codec, b, c);
    assert DrainStep(codec, s, a) && SwitchStep(a, b) && LastStep(codec, b, c);
    hide DrainStep, SwitchStep, LastStep, BringsNew, AppendStep, ReplaceStep;
    Extends(codec, run, a);
    Extends(codec, run + [a], b);
    Extends(codec, run + [a] + [b], c);
    more := run + [a] + [b] + [c];
  }

  // ---------------------------------------------------------------- the run so far

  /** The tailer has read file 0, a header; file 1 has replaced it, and holds the log of two rings. */
  ghost predicate Watched(codec: Codec, f: Life, at: StartAt, s: Sys)
    requires TwoRings(f, at)
  {
    s.phase == Idle && s.t.isOpen && s.t.ino == 0 && s.t.seen == {} && s.lost == {} &&
    s.fs == Files(map[0 := Encode(codec, LifeLog(f, 0)), 1 := Encode(codec, LogBefore(f, at))], 1) &&
    s.due == Logged(codec, Encode(codec, LogBefore(f, at)))
  }

  lemma NoneLogged(codec: Codec, f: Life, at: StartAt)
    requires Faithful(codec) && TwoRings(f, at)
    ensures var bytes := Encode(codec, LifeLog(f, 0)); Logged(codec, bytes) == {} && Unended(bytes) == []
  {
    assert RecordOk(Header(f.header, 1));
    hide Faithful, RecordOk, LifeOk;
    LoggedEncode(codec, LifeLog(f, 0));
  }

  /** The first poll, of a log without intents. */
  lemma FirstPoll(codec: Codec, bytes: seq<Byte>) returns (run: seq<Sys>)
    requires Logged(codec, bytes) == {}
    ensures IsFreshRun(codec, run) && |run| == 4
    ensures forall k :: 0 <= k < 4 ==> run[k].fs == Files(map[0 := bytes], 0)
    ensures var s := run[3]; s.phase == Idle && s.t.isOpen && s.t.ino == 0 && s.t.seen == {} && s.lost == {} && s.due == {}
  {
    hide Drain, Logged, Reading, IdsOf;
    var fs := Files(map[0 := bytes], 0);
    var s0 := Sys(fs, NEW_TAIL, Idle, [], {}, {}, {});
    var s1 := s0.(phase := Ready, t := Open(NEW_TAIL, fs));
    var s2 := s1.(phase := Looked(0));
    OpenReads(codec, NEW_TAIL, fs);
    DrainReads(codec, s1.t, bytes);
    var s3 := AfterDrain(codec, s2, Idle);
    SameFiles(codec, s0, s1);
    SameFiles(codec, s1, s2);
    SameFiles(codec, s2, s3);
    assert OpenStep(codec, s0, s1) && LookStep(s1, s2) && DrainStep(codec, s2, s3);
    run := [s0, s1, s2, s3];
    FourSteps(codec, s0, s1, s2, s3);
  }

  lemma FourSteps(codec: Codec, s0: Sys, s1: Sys, s2: Sys, s3: Sys)
    requires Initial(s0) && OpenStep(codec, s0, s1) && LookStep(s1, s2) && DrainStep(codec, s2, s3)
    requires BringsNew(codec, s0, s1) && BringsNew(codec, s1, s2) && BringsNew(codec, s2, s3)
    ensures IsFreshRun(codec, [s0, s1, s2, s3])
  {
    hide OpenStep, LookStep, DrainStep, BringsNew, Initial, AppendStep, ReplaceStep, SwitchStep, LastStep;
  }

  lemma AppendIsNext(codec: Codec, s: Sys, chunk: seq<Byte>)
    requires s.fs.path in s.fs.bytes && s.due == {} && s.t.isOpen
    ensures var now := Current(s) + chunk;
            var t := s.(fs := s.fs.(bytes := s.fs.bytes[s.fs.path := now]), due := Logged(codec, now));
            Next(codec, s, t) && BringsNew(codec, s, t)
  {
    hide Logged;
    var now := Current(s) + chunk;
    var t := s.(fs := s.fs.(bytes := s.fs.bytes[s.fs.path := now]), due := Logged(codec, now));
    assert {} + Logged(codec, now) == Logged(codec, now);
    assert AppendStep(codec, s, t, chunk);
  }

  lemma WatchRun(codec: Codec, f: Life, at: StartAt) returns (run: seq<Sys>)
    requires Faithful(codec) && TwoRings(f, at)
    ensures IsFreshRun(codec, run) && |run| == 6 && Watched(codec, f, at, run[5])
    ensures run[3].phase == Idle
    ensures forall k :: 0 <= k < 4 ==> run[k].fs == Files(map[0 := Encode(codec, LifeLog(f, 0))], 0)
    ensures run[4].fs == Files(map[0 := Encode(codec, LifeLog(f, 0)), 1 := Encode(codec, LifeLog(f, 0))], 1) && run[5].fs.path == 1
  {
    assert f.more == 1;
    hide *;
    var bytes, chunk := Encode(codec, LifeLog(f, 0)), Encode(codec, Appended(f, at.startWall));
    NoneLogged(codec, f, at);
    EncodesTo(codec, f, at);
    var first := FirstPoll(codec, bytes);
    var s4, s5 := NewFile(codec, first, bytes, chunk);
    run := first + [s4] + [s5];
    TwoMore(first, s4, s5);
    WatchedIs(codec, f, at, s5);
  }

  lemma TwoMore(first: seq<Sys>, s4: Sys, s5: Sys)
    requires |first| == 4
    ensures var run := first + [s4] + [s5];
            |run| == 6 && (forall k :: 0 <= k < 4 ==> run[k] == first[k]) && run[3] == first[3] && run[4] == s4 && run[5] == s5
  {
  }

  lemma WatchedIs(codec: Codec, f: Life, at: StartAt, s: Sys)
    requires TwoRings(f, at)
    requires s.phase == Idle && s.t.isOpen && s.t.ino == 0 && s.t.seen == {} && s.lost == {}
    requires s.fs == Files(map[0 := Encode(codec, LifeLog(f, 0)), 1 := Encode(codec, LogBefore(f, at))], 1)
    requires s.due == Logged(codec, Encode(codec, LogBefore(f, at)))
    ensures Watched(codec, f, at, s)
  {
  }

  /** A replacement that keeps all there is, and an append to the new file. */
  lemma NewFile(codec: Codec, first: seq<Sys>, bytes: seq<Byte>, chunk: seq<Byte>) returns (s4: Sys, s5: Sys)
    requires IsFreshRun(codec, first) && |first| == 4 && Logged(codec, bytes) == {} && Unended(bytes) == []
    requires var s := first[3]; s.fs == Files(map[0 := bytes], 0) && s.t.isOpen && s.t.ino == 0 && s.lost == {} && s.due == {}
    ensures IsFreshRun(codec, first + [s4] + [s5])
    ensures s4.phase == s5.phase == first[3].phase && s5.t == first[3].t && s5.lost == {}
    ensures s4.fs == Files(map[0 := bytes, 1 := bytes], 1) && s5.fs == Files(map[0 := bytes, 1 := bytes + chunk], 1) && s5.due == Logged(codec, bytes + chunk)
  {
    hide Logged, Unended, IsFreshRun, Next, BringsNew;
    var s3 := first[3];
    ReplaceIsNext(codec, s3, 1, bytes);
    s4 := Replaced(codec, s3, 1, bytes);
    Extends(codec, first, s4);
    AppendIsNext(codec, s4, chunk);
    s5 := s4.(fs := s4.fs.(bytes := s4.fs.bytes[1 := bytes + chunk]), due := Logged(codec, bytes + chunk));
    Extends(codec, first + [s4], s5);
    assert s5.fs.bytes == map[0 := bytes, 1 := bytes + chunk];
  }

  lemma EncodesTo(codec: Codec, f: Life, at: StartAt)
    requires TwoRings(f, at)
    ensures Encode(codec, LifeLog(f, 0)) + Encode(codec, Appended(f, at.startWall)) == Encode(codec, LogBefore(f, at))
  {
    AppendedIs(f, at.startWall);
    EncodeConcat(codec, LifeLog(f, 0), Appended(f, at.startWall));
    hide Encode, Appended, StartLog;
  }

  // ---------------------------------------------------------------- the two ways to lose an intent

  /** A poll is over, and an intent that was due when it looked has not been yielded. */
  predicate Misses(run: seq<Sys>, id: Str)
  {
    run != [] && var s := run[|run| - 1]; s.phase == Idle && id in s.owed && id !in IdsOf(s.yielded)
  }

  /** Every replacement is the compaction of the log of valid records that the path named. */
  ghost predicate ByCompaction(codec: Codec, run: seq<Sys>)
  {
    forall k :: 0 <= k < |run| - 1 && Replaces(run, k) ==> Compacts(codec, run[k].fs, run[k + 1].fs)
  }

  ghost predicate Compacts(codec: Codec, before: Files, after: Files)
  {
    exists recs: seq<Rec>, now: map<Str, View>, at: StartAt :: AllValid(recs) && before.path in before.bytes && after.path in after.bytes &&
      before.bytes[before.path] == Encode(codec, recs) && after.bytes[after.path] == Encode(codec, Compact(recs, now, at))
  }

  lemma FirstCompacts(codec: Codec, f: Life, at: StartAt, before: Files, after: Files)
    requires TwoRings(f, at) && before.path in before.bytes && before.bytes[before.path] == Encode(codec, LifeLog(f, 0))
    requires after.path in after.bytes && after.bytes[after.path] == Encode(codec, LifeLog(f, 0))
    ensures Compacts(codec, before, after)
  {
    assert RecordOk(Header(f.header, 1));
    hide RecordOk, LifeOk, Encode, Compact;
    HeaderStays(f.header, map[], at);
    assert Compact(LifeLog(f, 0), map[], at) == LifeLog(f, 0);
    assert AllValid(LifeLog(f, 0));
  }

  lemma SecondCompacts(codec: Codec, f: Life, at: StartAt, before: Files, after: Files)
    requires TwoRings(f, at) && before.path in before.bytes && before.bytes[before.path] == Encode(codec, LogBefore(f, at))
    requires after.path in after.bytes && after.bytes[after.path] == Encode(codec, LogAfter(f, at))
    ensures Compacts(codec, before, after)
  {
    ValidBefore(f, at);
    hide Encode, Compact, AllValid, TwoRings, DoorbellRuns.Snapshot, LogBefore;
  }

  lemma LostIsMissed(codec: Codec, run: seq<Sys>, id: Str)
    requires IsFreshRun(codec, run) && run != [] && run[|run| - 1].phase == Idle && id in run[|run| - 1].owed && id in run[|run| - 1].lost
    ensures Misses(run, id)
  {
    hide IsFreshRun, IdsOf, DistinctIntents;
    FreshIsRun(codec, run);
    TailerMissesExactly(codec, run, |run| - 1);
    var s := run[|run| - 1];
    assert id in s.owed * s.lost;
  }

  lemma FreshIsRun(codec: Codec, run: seq<Sys>)
    requires IsFreshRun(codec, run)
    ensures IsRun(codec, run) && run != []
  {
  }

  /** The compaction, as a replacement of file 1, takes the first ring's intent away. */
  lemma CompactionLoses(codec: Codec, f: Life, at: StartAt, s: Sys)
    requires Faithful(codec) && TwoRings(f, at)
    requires s.t.isOpen && s.t.ino == 0 && s.t.seen == {} && s.lost == {}
    requires s.fs == Files(map[0 := Encode(codec, LifeLog(f, 0)), 1 := Encode(codec, LogBefore(f, at))], 1)
    ensures var t := Replaced(codec, s, 2, Encode(codec, LogAfter(f, at)));
            Next(codec, s, t) && BringsNew(codec, s, t) && t.lost >= {Uid(0)}
    ensures Uid(0) in Logged(codec, Encode(codec, LogBefore(f, at)))
  {
    hide *;
    ValidBefore(f, at);
    FirstGone(f, at);
    NoneLogged(codec, f, at);
    LoggedEncode(codec, LogBefore(f, at));
    LoggedEncode(codec, LogAfter(f, at));
    AtOne(s, Encode(codec, LifeLog(f, 0)), Encode(codec, LogBefore(f, at)));
    ReplaceIsNext(codec, s, 2, Encode(codec, LogAfter(f, at)));
    Loses(codec, s, 2, Encode(codec, LogAfter(f, at)), Uid(0));
  }

  lemma AtOne(s: Sys, x: seq<Byte>, y: seq<Byte>)
    requires s.fs == Files(map[0 := x, 1 := y], 1) && s.t.ino == 0
    ensures s.fs.path in s.fs.bytes && s.t.ino in s.fs.bytes && Held(s) == x && Current(s) == y && 2 !in s.fs.bytes
  {
  }

  lemma Loses(codec: Codec, s: Sys, ino: nat, contents: seq<Byte>, id: Str)
    requires s.fs.path in s.fs.bytes && s.t.isOpen && s.t.ino in s.fs.bytes
    requires id in Logged(codec, Current(s)) && id !in Logged(codec, contents) && id !in Logged(codec, Held(s)) && id !in s.t.seen
    ensures Replaced(codec, s, ino, contents).lost >= {id}
  {
    hide Logged;
  }

  /** A run whose replacements are those two. */
  lemma TwiceCompacted(codec: Codec, f: Life, at: StartAt, run: seq<Sys>, m: nat)
    requires TwoRings(f, at) && 4 < m < 8 && |run| == 12
    requires forall k :: 0 <= k < 4 ==> run[k].fs == Files(map[0 := Encode(codec, LifeLog(f, 0))], 0)
    requires run[4].fs == Files(map[0 := Encode(codec, LifeLog(f, 0)), 1 := Encode(codec, LifeLog(f, 0))], 1)
    requires forall k :: 5 <= k <= m ==> run[k].fs == Files(map[0 := Encode(codec, LifeLog(f, 0)), 1 := Encode(codec, LogBefore(f, at))], 1)
    requires forall k :: m < k < 12 ==> run[k].fs.path == 2
    requires 2 in run[m + 1].fs.bytes && run[m + 1].fs.bytes[2] == Encode(codec, LogAfter(f, at))
    ensures ByCompaction(codec, run)
  {
    hide Encode, LifeLog, LogBefore, LogAfter, TwoRings, Compacts;
    FirstCompacts(codec, f, at, run[3].fs, run[4].fs);
    SecondCompacts(codec, f, at, run[m].fs, run[m + 1].fs);
    forall k | 0 <= k < 11 && Replaces(run, k) ensures k == 3 || k == m {}
  }

  lemma Readies(codec: Codec, s: Sys)
    requires s.phase == Idle && s.t.isOpen && s.fs.path in s.fs.bytes
    ensures var a := s.(phase := Ready); var b := a.(phase := Looked(s.fs.path), owed := s.due);
            Next(codec, s, a) && BringsNew(codec, s, a) && Next(codec, a, b) && BringsNew(codec, a, b)
  {
    var a := s.(phase := Ready);
    var b := a.(phase := Looked(s.fs.path), owed := s.due);
    SameFiles(codec, s, a);
    SameFiles(codec, a, b);
    hide BringsNew, AppendStep, ReplaceStep;
    assert OpenStep(codec, s, a) && LookStep(a, b);
  }

  /**
    * One replacement between two looks, and an intent is lost: the poll looked, saw a new file, and before it switched
    * that file was replaced by its compaction.
    */
  lemma LostWithinPoll(codec: Codec, f: Life, at: StartAt)
    requires Faithful(codec) && TwoRings(f, at)
    ensures exists run :: IsFreshRun(codec, run) && ByCompaction(codec, run) && OncePerLook(run) && Misses(run, Uid(0))
  {
    hide Faithful, LifeLog, Encode, Logged, Unended, TwoRings, IsFreshRun, Next, BringsNew, LogBefore, LogAfter, Uid, Lost, Misses, OncePerLook, ByCompaction;
    var run := WatchRun(codec, f, at);
    var s5 := run[5];
    var s6 := s5.(phase := Ready);
    var s7 := s6.(phase := Looked(s5.fs.path), owed := s5.due);
    Readies(codec, s5);
    CompactionLoses(codec, f, at, s7);
    var s8 := Replaced(codec, s7, 2, Encode(codec, LogAfter(f, at)));
    Extends(codec, run, s6);
    Extends(codec, run + [s6], s7);
    Extends(codec, run + [s6] + [s7], s8);
    var most := run + [s6] + [s7] + [s8];
    var whole := PollEnds(codec, most);
    LostIsMissed(codec, whole, Uid(0));
    assert OncePerLook(whole) by {
      assert forall k :: 0 <= k < 9 ==> whole[k] == most[k];
      OnceHere(whole);
    }
    assert ByCompaction(codec, whole) by {
      assert forall k :: 0 <= k < 9 ==> whole[k] == most[k];
      TwiceCompacted(codec, f, at, whole, 7);
    }
  }

  lemma OnceHere(run: seq<Sys>)
    requires |run| == 12 && (forall k :: 0 <= k < 4 ==> run[k].fs.path == 0) && (forall k :: 4 <= k < 8 ==> run[k].fs.path == 1)
    requires (forall k :: 8 <= k < 12 ==> run[k].fs.path == 2) && run[6].phase == Ready && run[7].phase.Looked?
    ensures OncePerLook(run)
  {
    assert Looks(run, 6);
  }

  /** Two replacements between two looks, both between polls, and an intent is lost. */
  lemma LostBetweenPolls(codec: Codec, f: Life, at: StartAt)
    requires Faithful(codec) && TwoRings(f, at)
    ensures exists run :: IsFreshRun(codec, run) && ByCompaction(codec, run) && PollsUndisturbed(run) && Misses(run, Uid(0))
  {
    hide Faithful, LifeLog, Encode, Logged, Unended, TwoRings, IsFreshRun, Next, BringsNew, LogBefore, LogAfter, Uid, Lost, Misses, PollsUndisturbed, ByCompaction;
    var run := WatchRun(codec, f, at);
    var s5 := run[5];
    CompactionLoses(codec, f, at, s5);
    var s6 := Replaced(codec, s5, 2, Encode(codec, LogAfter(f, at)));
    var s7 := s6.(phase := Ready);
    var s8 := s7.(phase := Looked(s6.fs.path), owed := s6.due);
    Readies(codec, s6);
    Extends(codec, run, s6);
    Extends(codec, run + [s6], s7);
    Extends(codec, run + [s6] + [s7], s8);
    var most := run + [s6] + [s7] + [s8];
    var whole := PollEnds(codec, most);
    LostIsMissed(codec, whole, Uid(0));
    assert PollsUndisturbed(whole) by {
      assert forall k :: 0 <= k < 9 ==> whole[k] == most[k];
      UndisturbedHere(whole);
    }
    assert ByCompaction(codec, whole) by {
      assert forall k :: 0 <= k < 9 ==> whole[k] == most[k];
      TwiceCompacted(codec, f, at, whole, 5);
    }
  }

  lemma UndisturbedHere(run: seq<Sys>)
    requires |run| == 12 && (forall k :: 0 <= k < 4 ==> run[k].fs.path == 0) && (forall k :: 4 <= k < 6 ==> run[k].fs.path == 1)
    requires (forall k :: 6 <= k < 12 ==> run[k].fs.path == 2) && run[3].phase == Idle && run[5].phase == Idle
    ensures PollsUndisturbed(run)
  {
    forall k | 0 <= k < 11 && Replaces(run, k) ensures k == 3 || k == 5 {}
  }
}
