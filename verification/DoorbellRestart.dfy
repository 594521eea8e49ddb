/** Compaction as the job sees it: the state it replays, and the whole next plan. */
module DoorbellRestart {
  import opened Canon
  import opened DoorbellLog
  import opened DoorbellLedger
  import opened DoorbellPlan
  import opened DoorbellAdmit
  import opened DoorbellWf
  import opened DoorbellKeep
  import opened DoorbellCompaction
  import opened DoorbellSamePlan

  // ---------------------------------------------------------------- the replayed state

  lemma ReplaySnoc(log: seq<Rec>, m: nat)
    requires m < |log|
    ensures Replay(log[..m + 1]) == ReduceRecord(Replay(log[..m]), log[m])
  {
    assert log[..m + 1] == log[..m] + [log[m]];
    ReplayAppend(log[..m], log[m]);
  }

  lemma PickReplay(log: seq<Rec>, now: map<Str, View>, kept: set<Str>, m: nat)
    requires m < |log|
    ensures var p := Pick(log, now, kept, m);
            Replay(Pick(log, now, kept, m + 1)) == if KeepAt(log, now, kept, m) then ReduceRecord(Replay(p), log[m]) else Replay(p)
  {
    ReplayAppend(Pick(log, now, kept, m), log[m]);
  }

  lemma {:induction false} PickHeader(log: seq<Rec>, now: map<Str, View>, kept: set<Str>, m: nat)
    requires m <= |log| && CountHeaders(log[m..]) == 0
    ensures Replay(Pick(log, now, kept, m)).lastHeader == Replay(log[..m]).lastHeader
  {
    hide KeepEffect;
    if m > 0 {
      PickReplay(log, now, kept, m - 1);
      ReplaySnoc(log, m - 1);
      if !log[m - 1].Header? {
        assert log[m - 1..][1..] == log[m..];
        PickHeader(log, now, kept, m - 1);
      }
    }
  }

  /** The last open board record of an agent still boarded is the one the state holds. */
  lemma {:induction false} BoardOfLast(log: seq<Rec>, m: nat, n: Str)
    requires m <= |log|
    ensures n in Replay(log[..m]).boardOpen ==>
              exists t :: 0 <= t < m && BoardOpenAt(log, t, n) && Replay(log[..m]).boardOpen[n] == log[t].b &&
                          forall k :: t < k < m ==> !BoardOpenAt(log, k, n)
  {
    if m > 0 {
      BoardOfLast(log, m - 1, n);
      ReplaySnoc(log, m - 1);
      if BoardOpenAt(log, m - 1, n) {
      } else if n in Replay(log[..m]).boardOpen {
        var t :| 0 <= t < m - 1 && BoardOpenAt(log, t, n) && Replay(log[..m - 1]).boardOpen[n] == log[t].b &&
                 forall k :: t < k < m - 1 ==> !BoardOpenAt(log, k, n);
        assert forall k :: t < k < m ==> !BoardOpenAt(log, k, n);
      }
    }
  }

  predicate IsLastBoard(log: seq<Rec>, t: int, n: Str)
  {
    0 <= t < |log| && BoardOpenAt(log, t, n) && forall k :: t < k < |log| ==> !BoardOpenAt(log, k, n)
  }

  lemma LastBoardUnique(log: seq<Rec>, t: int, u: int, n: Str)
    requires IsLastBoard(log, t, n) && IsLastBoard(log, u, n)
    ensures t == u
  {
  }

  lemma {:induction false} PickBoard(log: seq<Rec>, now: map<Str, View>, kept: set<Str>, m: nat, n: Str, t: int)
    requires m <= |log|
    requires n in Replay(log).boardOpen ==> IsLastBoard(log, t, n)
    ensures var b := Replay(Pick(log, now, kept, m)).boardOpen;
            (n in b <==> n in Replay(log).boardOpen && t < m) && (n in b ==> b[n] == log[t].b)
  {
    hide KeepEffect, Replay;
    if m == 0 {
      PickNone(log, now, kept);
    } else {
      PickBoard(log, now, kept, m - 1, n, t);
      PickReplay(log, now, kept, m - 1);
      if BoardOpenAt(log, m - 1, n) && KeepAt(log, now, kept, m - 1) {
        assert IsLastBoard(log, m - 1, n);
        LastBoardUnique(log, t, m - 1, n);
      }
    }
  }

  lemma PickNone(log: seq<Rec>, now: map<Str, View>, kept: set<Str>)
    ensures Replay(Pick(log, now, kept, 0)) == EMPTY_LOG
  {
  }

  lemma {:induction false} BudgetOfLast(log: seq<Rec>, m: nat, n: Str)
    requires m <= |log|
    ensures n in Replay(log[..m]).exhausted <==>
              exists t :: 0 <= t < m && BudgetAt(log, t, n) && log[t].g.exhausted && forall k :: t < k < m ==> !BudgetAt(log, k, n)
  {
    if m > 0 {
      BudgetOfLast(log, m - 1, n);
      ReplaySnoc(log, m - 1);
      if BudgetAt(log, m - 1, n) {
        assert log[m - 1].g.exhausted ==> m - 1 < m && BudgetAt(log, m - 1, n);
      } else {
        forall t | 0 <= t < m - 1 && BudgetAt(log, t, n)
          ensures (forall k :: t < k < m - 1 ==> !BudgetAt(log, k, n)) <==> (forall k :: t < k < m ==> !BudgetAt(log, k, n))
        {
        }
      }
    }
  }

  predicate IsLastBudget(log: seq<Rec>, t: int, n: Str)
  {
    0 <= t < |log| && BudgetAt(log, t, n) && forall k :: t < k < |log| ==> !BudgetAt(log, k, n)
  }

  lemma {:induction false} PickBudget(log: seq<Rec>, now: map<Str, View>, kept: set<Str>, m: nat, n: Str)
    requires m <= |log|
    ensures n in Replay(Pick(log, now, kept, m)).exhausted <==> exists t :: 0 <= t < m && IsLastBudget(log, t, n) && log[t].g.exhausted
  {
    hide KeepEffect, Replay;
    if m == 0 {
      PickNone(log, now, kept);
    } else {
      PickBudget(log, now, kept, m - 1, n);
      PickReplay(log, now, kept, m - 1);
      if BudgetAt(log, m - 1, n) && KeepAt(log, now, kept, m - 1) {
        assert IsLastBudget(log, m - 1, n);
      }
    }
  }

  /** The parts of the state that carry across a restart come out of a compaction unchanged. */
  lemma CompactedState(log: seq<Rec>, now: map<Str, View>, at: StartAt)
    ensures Replay(Compact(log, now, at)).lastHeader == Replay(log).lastHeader
    ensures Replay(Compact(log, now, at)).boardOpen == Replay(log).boardOpen
    ensures Replay(Compact(log, now, at)).exhausted == Replay(log).exhausted
  {
    hide Replay, Pick;
    var kept := KeptIds(log, now, at);
    assert log[..|log|] == log && log[|log|..] == [];
    PickHeader(log, now, kept, |log|);
    var b, c := Replay(log).boardOpen, Replay(Compact(log, now, at)).boardOpen;
    forall n ensures (n in b <==> n in c) && (n in b ==> b[n] == c[n])
    {
      BoardOfLast(log, |log|, n);
      var t: int := -1;
      if n in b {
        t :| 0 <= t < |log| && BoardOpenAt(log, t, n) && b[n] == log[t].b && forall k :: t < k < |log| ==> !BoardOpenAt(log, k, n);
      }
      PickBoard(log, now, kept, |log|, n, t);
    }
    forall n ensures n in Replay(log).exhausted <==> n in Replay(Compact(log, now, at)).exhausted
    {
      BudgetOfLast(log, |log|, n);
      PickBudget(log, now, kept, |log|, n);
      forall t | 0 <= t < |log| && BudgetAt(log, t, n)
        ensures IsLastBudget(log, t, n) <==> forall k :: t < k < |log| ==> !BudgetAt(log, k, n) {}
    }
  }

  // ---------------------------------------------------------------- the whole plan

  /** Every agent with an effect or an escalation in the log also has a ring in it. */
  predicate RingBehind(log: seq<Rec>)
  {
    forall r :: r in log && (r.Effect? || r.Escalation?) ==> exists s :: s in log && s.Intent? && AgentOf(s) == AgentOf(r)
  }

  /** Rule (b) keeps each agent's last ring, so no agent drops out of the log. */
  lemma LastRingKept(log: seq<Rec>, now: map<Str, View>, at: StartAt, n: Str)
    requires at.budget >= 1 && exists s :: s in log && s.Intent? && s.i.agent == n
    ensures exists s :: s in Compact(log, now, at) && s.Intent? && s.i.agent == n
  {
    AccountRings(log, n);
    var rings := Account(log, n).rings;
    var s :| s in log && s.Intent? && s.i.agent == n;
    assert s.i in rings;
    var i := rings[|rings| - 1];
    assert i in rings && i.id in LastIds(rings, at.budget);
    hide KeepExtra, CountsAtStart, LastIds, StillNeeded, JudgedAll;
    assert Intent(i) in log && Intent(i).Intent? && KeepIntent(log, now, at, i);
    var j :| 0 <= j < |log| && log[j] == Intent(i);
    assert KeepAt(log, now, KeptIds(log, now, at), j);
    PickMembers(log, now, KeptIds(log, now, at), |log|);
    assert Intent(i) in Compact(log, now, at);
  }

  lemma SameAgents(log: seq<Rec>, now: map<Str, View>, at: StartAt)
    requires at.budget >= 1 && RingBehind(log)
    ensures LedgerAgents(Compact(log, now, at)) == LedgerAgents(log)
  {
    hide KeepAt;
    var c := Compact(log, now, at);
    PickMembers(log, now, KeptIds(log, now, at), |log|);
    forall n | n in LedgerAgents(log) ensures n in LedgerAgents(c)
    {
      var r :| r in log && (r.Intent? || r.Effect? || r.Escalation?) && AgentOf(r).value == n;
      assert exists s :: s in log && s.Intent? && s.i.agent == n;
      LastRingKept(log, now, at, n);
      var s :| s in c && s.Intent? && s.i.agent == n;
      assert AgentOf(s).value == n;
    }
  }

  /**
    * The plan made after a compaction, from the compacted log and the rung memory replayed from it, is the
    * plan the full log gives, record for record.
    */
  lemma NextPlanSame(inp: Input, now: map<Str, View>, at: StartAt)
    requires at.budget >= 1 && RingBehind(inp.log)
    requires forall n :: n in inp.inbox ==> Compactable(inp, now, n, inp.inbox[n])
    ensures Plan(inp) == Plan(Compacted(inp, now, at))
  {
    hide Compactable, Alike, Plan, Compact, RingBehind, LedgerAgents;
    SameAgents(inp.log, now, at);
    forall n | n in inp.inbox ensures Alike(inp, Compacted(inp, now, at), n, inp.inbox[n])
    {
      CompactedAlike(inp, now, at, n, inp.inbox[n]);
    }
    PlanAlike(inp, Compacted(inp, now, at));
  }
}
