/** Compaction as the job performs it: the keep rule gathered in passes over the log, then a new file renamed into place. */
module DoorbellCompactor {
  import opened Canon
  import opened DoorbellLog
  import opened DoorbellLedger
  import opened DoorbellPlan
  import opened DoorbellAdmit
  import opened DoorbellWf
  import opened DoorbellKeep
  import opened DoorbellCompaction
  import opened DoorbellBytes
  import opened DoorbellJob
  import opened Wrappers

  // ---------------------------------------------------------------- what the passes gather

  /** Every agent's rings in log order, by agent. */
  ghost predicate ByAgent(rings: map<Str, seq<IntentRec>>, log: seq<Rec>)
  {
    forall n :: (n in rings <==> Account(log, n).rings != []) && (n in rings ==> rings[n] == Account(log, n).rings)
  }

  lemma ByAgentNext(rings: map<Str, seq<IntentRec>>, log: seq<Rec>, r: Rec)
    requires ByAgent(rings, log)
    ensures ByAgent(if r.Intent? then rings[r.i.agent := (if r.i.agent in rings then rings[r.i.agent] else []) + [r.i]] else rings, log + [r])
  {
    hide Run;
    var next := if r.Intent? then rings[r.i.agent := (if r.i.agent in rings then rings[r.i.agent] else []) + [r.i]] else rings;
    forall n
      ensures n in next <==> Account(log + [r], n).rings != []
      ensures n in next ==> next[n] == Account(log + [r], n).rings
    {
      RunAppend(NOTHING, log, r, n);
      StepRings(Account(log, n), r, n);
    }
  }

  lemma StepRings(a: Acct, r: Rec, n: Str)
    ensures Step(a, r, n).rings == if r.Intent? && r.i.agent == n then a.rings + [r.i] else a.rings
  {
  }

  lemma GatherNext(log: seq<Rec>, r: Rec)
    ensures JudgedAll(log + [r]) == JudgedAll(log) + if r.Effect? then Elems(r.e.intents) else {}
    ensures LeftAll(log + [r]) == LeftAll(log) + if r.Effect? then set id | id in r.e.left :: (r.e.agent, r.e.session, id) else {}
  {
    assert forall s :: s in log + [r] <==> s in log || s == r;
  }

  lemma ExtrasNext(log: seq<Rec>, r: Rec)
    ensures ExtrasOf(log + [r]) == ExtraStep(ExtrasOf(log), r)
  {
    assert (log + [r])[..|log|] == log;
  }

  /** The last N rings of every agent. */
  ghost predicate LastOf(last: set<Str>, agents: set<Str>, rings: map<Str, seq<IntentRec>>, budget: nat)
  {
    forall x :: x in last <==> exists n :: n in agents && n in rings && x in LastIds(rings[n], budget)
  }

  /** One agent's last N rings among all agents': intent ids are never shared. */
  lemma LastMine(log: seq<Rec>, rings: map<Str, seq<IntentRec>>, last: set<Str>, budget: nat, i: IntentRec)
    requires WfLog(log) && ByAgent(rings, log) && LastOf(last, rings.Keys, rings, budget) && Intent(i) in log
    ensures i.id in last <==> i.id in LastIds(Account(log, i.agent).rings, budget)
  {
    AccountRings(log, i.agent);
    assert i in Account(log, i.agent).rings;
    if i.id in last {
      var n :| n in rings && i.id in LastIds(rings[n], budget);
      var k :| 0 <= k < |rings[n]| && rings[n][k].id == i.id;
      AccountRings(log, n);
      assert rings[n][k] in Account(log, n).rings;
      var p :| 0 <= p < |log| && log[p] == Intent(i);
      var q :| 0 <= q < |log| && log[q] == Intent(rings[n][k]);
      PairAt(log, p, q);
      assert n == i.agent;
    }
  }

  // ---------------------------------------------------------------- the passes

  method LastRings(rings: map<Str, seq<IntentRec>>, budget: nat) returns (last: set<Str>)
    ensures LastOf(last, rings.Keys, rings, budget)
  {
    last := {};
    var todo := rings.Keys;
    while todo != {}
      invariant todo <= rings.Keys && LastOf(last, rings.Keys - todo, rings, budget)
      decreases |todo|
    {
      var n :| n in todo;
      last := last + LastIds(rings[n], budget);
      todo := todo - {n};
    }
  }

  /**
    * `intentKeepRule`: two passes over the log gather who was judged, what was recorded left, each agent's
    * last rings and the extra ring of each open escalation; then each intent is asked the six reasons.
    */
  method IntentKeepRule(log: seq<Rec>, now: map<Str, View>, at: StartAt) returns (keep: set<Str>)
    requires WfLog(log)
    ensures keep == KeptIds(log, now, at)
  {
    hide WfLog, ByAgent, JudgedAll, LeftAll, ExtraStep, LastIds, LastOf, CountsAtStart;
    var judged: set<Str>, left: set<(Str, Str, Str)>, rings: map<Str, seq<IntentRec>>, extras := {}, {}, map[], Extras(map[], map[]);
    NothingGathered();
    for k := 0 to |log|
      invariant judged == JudgedAll(log[..k]) && left == LeftAll(log[..k]) && ByAgent(rings, log[..k]) && extras == ExtrasOf(log[..k])
    {
      var r := log[k];
      assert log[..k + 1] == log[..k] + [r];
      GatherNext(log[..k], r);
      ByAgentNext(rings, log[..k], r);
      ExtrasNext(log[..k], r);
      if r.Effect? {
        judged := judged + Elems(r.e.intents);
        left := left + set id | id in r.e.left :: (r.e.agent, r.e.session, id);
      } else if r.Intent? {
        rings := rings[r.i.agent := (if r.i.agent in rings then rings[r.i.agent] else []) + [r.i]];
      }
      extras := ExtraStep(extras, r);
    }
    assert log[..|log|] == log;
    var last := LastRings(rings, at.budget);
    var extra := set eid | eid in extras.open && eid in extras.extraOf && extras.extraOf[eid] != "" :: extras.extraOf[eid];
    assert extra == KeepExtra(log);
    keep := {};
    for k := 0 to |log|
      invariant keep == set r | r in log[..k] && r.Intent? && KeepIntent(log, now, at, r.i) :: r.i.id
    {
      var r := log[k];
      assert log[..k + 1] == log[..k] + [r] && r in log;
      if r.Intent? {
        var i := r.i;
        LastMine(log, rings, last, at.budget, i);
        var needed := i.agent in now && now[i.agent].session == Some(i.session) &&
                      exists id :: id in i.ids && (id in now[i.agent].pending || (i.agent, i.session, id) !in left);
        if i.id in extra || CountsAtStart(i.at, at.lastHeader, at.startWall) || i.id in last || i.id !in judged || needed {
          assert KeepIntent(log, now, at, i);
          keep := keep + {i.id};
        } else {
          assert !KeepIntent(log, now, at, i);
        }
      }
    }
  }

  lemma NothingGathered()
    ensures JudgedAll([]) == {} && LeftAll([]) == {} && ByAgent(map[], []) && ExtrasOf([]) == Extras(map[], map[])
  {
  }

  /** The kept records, in order and unchanged. */
  method KeptRecords(log: seq<Rec>, now: map<Str, View>, at: StartAt) returns (kept: seq<Rec>)
    requires WfLog(log)
    ensures kept == Compact(log, now, at)
  {
    hide WfLog, KeepAt, KeptIds;
    var intents := IntentKeepRule(log, now, at);
    kept := [];
    for k := 0 to |log|
      invariant kept == Pick(log, now, intents, k)
    {
      if KeepAt(log, now, intents, k) { kept := kept + [log[k]]; }
    }
  }

  // ---------------------------------------------------------------- the new file

  datatype CompactOutcome = Compacted | Untrusted | Unfinished

  /** The state directory: the log, and a compaction's temp file while there is one. */
  class StateDir {
    var log: seq<Byte>
    var temp: Option<seq<Byte>>

    constructor (contents: seq<Byte>)
      ensures log == contents && temp == None
    {
      log, temp := contents, None;
    }

    /**
      * Write the kept records to a temp file, sync it, and rename it over the log. `io` is what each write
      * call returns, and a call beyond its end is one the job did not live to make: until the rename the
      * log is untouched, and from then on it is the whole compacted log.
      */
    method CompactLog(codec: Codec, now: map<Str, View>, at: StartAt, io: seq<int>, synced: bool, ghost recs: seq<Rec>) returns (out: CompactOutcome)
      requires ReadsAs(codec, log, recs) && WfLog(recs)
      modifies this
      ensures out == Compacted ==> log == Encode(codec, Compact(recs, now, at)) && temp == None
      ensures out != Compacted ==> log == old(log)
    {
      hide WfLog, Compact, ParseLines, LinesOf, Terminated;
      var current := ParseLines(codec, LinesOf(log)).value;
      var kept := KeptRecords(current, now, at);
      var buf := Encode(codec, kept);
      temp := Some([]);
      var off, call := 0, 0;
      while off < |buf|
        invariant 0 <= off <= |buf| && temp == Some(buf[..off]) && log == old(log)
        decreases |buf| - off
      {
        if call >= |io| || io[call] <= 0 { return Unfinished; }
        var n := if io[call] <= |buf| - off then io[call] else |buf| - off;
        assert buf[..off + n] == buf[..off] + buf[off..off + n];
        temp := Some(temp.value + buf[off..off + n]);
        off, call := off + n, call + 1;
      }
      if !synced { return Unfinished; }
      assert buf[..|buf|] == buf;
      log, temp := temp.value, None;
      return Compacted;
    }

    /** The next open discards a temp file a crash left behind. */
    method DiscardTemp()
      modifies this`temp
      ensures temp == None
    {
      temp := None;
    }
  }
}
