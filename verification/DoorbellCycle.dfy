/**
  * One whole cycle: the agents' records, one agent after another, joined to one log. What one agent's records say
  * of its own history is lifted to the whole log.
  */
module DoorbellCycle {
  import opened Canon
  import opened DoorbellLog
  import opened DoorbellLedger
  import opened DoorbellPlan
  import opened DoorbellAdmit
  import opened DoorbellJudge
  import opened DoorbellCoherence
  import opened DoorbellAgent
  import opened Wrappers

  /** May `r` join the log `h`, given what this cycle read of its agent? */
  predicate FitsLog(inp: Input, h: seq<Rec>, r: Rec)
  {
    var n := AgentOf(r);
    n.Some? && n.value in inp.inbox && Fits(Account(h, n.value), n.value, ViewOf(inp.inbox[n.value]), r)
  }

  predicate AllFitLog(inp: Input, h: seq<Rec>, recs: seq<Rec>)
  {
    recs == [] || (AllFitLog(inp, h, recs[..|recs| - 1]) && FitsLog(inp, h + recs[..|recs| - 1], recs[|recs| - 1]))
  }

  lemma {:induction false} AllFitLogConcat(inp: Input, h: seq<Rec>, x: seq<Rec>, y: seq<Rec>)
    requires AllFitLog(inp, h, x) && AllFitLog(inp, h + x, y)
    ensures AllFitLog(inp, h, x + y)
    decreases |y|
  {
    hide FitsLog;
    if y == [] {
      assert x + y == x;
    } else {
      var z := y[..|y| - 1];
      AllFitLogConcat(inp, h, x, z);
      assert (x + y)[..|x + y| - 1] == x + z;
      assert h + (x + z) == (h + x) + z;
    }
  }

  lemma {:induction false} AllFitLogAt(inp: Input, h: seq<Rec>, recs: seq<Rec>, k: nat)
    requires AllFitLog(inp, h, recs) && k < |recs|
    ensures FitsLog(inp, h + recs[..k], recs[k])
    decreases |recs|
  {
    hide FitsLog;
    if k < |recs| - 1 {
      AllFitLogAt(inp, h, recs[..|recs| - 1], k);
      assert recs[..|recs| - 1][..k] == recs[..k];
    }
  }

  lemma {:induction false} Lift(inp: Input, h: seq<Rec>, n: Str, recs: seq<Rec>)
    requires n in inp.inbox && AllFit(Account(h, n), n, ViewOf(inp.inbox[n]), recs)
    ensures AllFitLog(inp, h, recs)
    ensures forall r :: r in recs ==> AgentOf(r) == Some(n)
    decreases |recs|
  {
    hide AcctWf;
    if recs != [] {
      var p, r := recs[..|recs| - 1], recs[|recs| - 1];
      Lift(inp, h, n, p);
      RunConcat(NOTHING, h, p, n);
      assert AgentOf(r) == Some(n);
      assert recs == p + [r];
    }
  }

  /** The inputs of a cycle agree with the log it reads, for every agent it reads. */
  ghost predicate ReadyCycle(inp: Input)
  {
    forall n :: n in inp.inbox ==> Ready(inp, n, 0)
  }

  lemma ReadyCycleAt(inp: Input, n: Str, k: nat)
    requires ReadyCycle(inp) && n in inp.inbox
    ensures Ready(inp, n, k)
  {
    UnusedLater(Account(inp.log, n), inp.uid, 0, k);
  }

  lemma AbsentFits(inp: Input, n: Str, read: PendingRead, k: nat)
    requires Ready(inp, n, k)
    ensures AllFit(Account(inp.log, n), n, ViewOf(read), AbsentRecs(inp, n, read, k))
  {
    hide AllFit, Ready, JudgeOf;
    if read.registered { JudgeOfFits(inp, n, read, k); } else { RunNone(Account(inp.log, n), n, ViewOf(read)); }
  }

  /** One more agent's records after those of others. */
  lemma OneMore(inp: Input, before: seq<Rec>, n: Str, recs: seq<Rec>)
    requires n in inp.inbox && AllFitLog(inp, inp.log, before)
    requires forall r :: r in before ==> AgentOf(r) != Some(n)
    requires AllFit(Account(inp.log, n), n, ViewOf(inp.inbox[n]), recs)
    ensures AllFitLog(inp, inp.log, before + recs)
    ensures forall r :: r in recs ==> AgentOf(r) == Some(n)
    ensures Account(inp.log + before, n) == Account(inp.log, n)
  {
    hide AllFit, FitsLog, AllFitLog;
    RunConcat(NOTHING, inp.log, before, n);
    RunFrame(Account(inp.log, n), before, n);
    Lift(inp, inp.log + before, n, recs);
    AllFitLogConcat(inp, inp.log, before, recs);
  }

  lemma {:induction false} MainFits(inp: Input, names: seq<Str>)
    requires ReadyCycle(inp) && Ascending(names)
    ensures AllFitLog(inp, inp.log, MainRecs(inp, names))
    ensures forall r :: r in MainRecs(inp, names) ==> AgentOf(r).Some? && AgentOf(r).value in names && AgentOf(r).value in inp.inbox
    decreases |names|
  {
    hide FitsLog, Ready, AgentRecs;
    if names != [] {
      var p, n := names[..|names| - 1], names[|names| - 1];
      AscendingDistinct(names);
      AscendingPart(names, 0, |names| - 1);
      MainFits(inp, p);
      assert names == p + [n];
      if n in inp.inbox {
        var before := MainRecs(inp, p);
        ReadyCycleAt(inp, n, |before|);
        AgentFits(inp, n, inp.inbox[n], |before|);
        OneMore(inp, before, n, AgentRecs(inp, n, inp.inbox[n], |before|));
      }
    }
  }

  /** Each record is one of these agents', or of the main pass's. */
  predicate OfAgents(inp: Input, names: seq<Str>, recs: seq<Rec>)
  {
    forall r :: r in recs ==>
      AgentOf(r).Some? && AgentOf(r).value in inp.inbox && (AgentOf(r).value in names || AgentOf(r).value in MainNames(inp))
  }

  lemma AllRecsLast(inp: Input, names: seq<Str>)
    requires names != []
    ensures var n, before := names[|names| - 1], AllRecs(inp, names[..|names| - 1]);
            AllRecs(inp, names) == if n in inp.inbox then before + AbsentRecs(inp, n, inp.inbox[n], |before|) else before
  {
    hide AbsentRecs;
  }

  lemma OfAgentsMore(inp: Input, p: seq<Str>, n: Str, before: seq<Rec>, recs: seq<Rec>)
    requires OfAgents(inp, p, before) && n in inp.inbox && forall r :: r in recs ==> AgentOf(r) == Some(n)
    ensures OfAgents(inp, p + [n], before + recs) && OfAgents(inp, p + [n], before)
  {
    hide MainNames;
  }

  lemma OfAgentsNot(inp: Input, p: seq<Str>, n: Str, before: seq<Rec>)
    requires OfAgents(inp, p, before) && n !in p && n !in MainNames(inp)
    ensures forall r :: r in before ==> AgentOf(r) != Some(n)
  {
    hide MainNames;
  }

  lemma NoAbsentFit(inp: Input)
    requires ReadyCycle(inp)
    ensures AllFitLog(inp, inp.log, AllRecs(inp, [])) && OfAgents(inp, [], AllRecs(inp, []))
  {
    assert Ascending(MainNames(inp));
    hide ReadyCycle, AllFitLog, MainNames, MainRecs;
    MainFits(inp, MainNames(inp));
  }

  lemma {:induction false} AllRecsFit(inp: Input, names: seq<Str>)
    requires ReadyCycle(inp) && Ascending(names)
    requires forall n :: n in names && n in inp.inbox ==> n !in MainNames(inp)
    ensures AllFitLog(inp, inp.log, AllRecs(inp, names)) && OfAgents(inp, names, AllRecs(inp, names))
    decreases |names|
  {
    hide *;
    if names == [] {
      NoAbsentFit(inp);
    } else {
      var p, n := names[..|names| - 1], names[|names| - 1];
      AscendingDistinct(names);
      AscendingPart(names, 0, |names| - 1);
      AllRecsFit(inp, p);
      AllRecsLast(inp, names);
      assert names == p + [n];
      var before := AllRecs(inp, p);
      if n in inp.inbox {
        ReadyCycleAt(inp, n, |before|);
        AbsentFits(inp, n, inp.inbox[n], |before|);
        OfAgentsNot(inp, p, n, before);
        OneMore(inp, before, n, AbsentRecs(inp, n, inp.inbox[n], |before|));
        OfAgentsMore(inp, p, n, before, AbsentRecs(inp, n, inp.inbox[n], |before|));
      } else {
        OfAgentsWider(inp, p, n, before);
      }
    }
  }

  lemma OfAgentsWider(inp: Input, p: seq<Str>, n: Str, before: seq<Rec>)
    requires OfAgents(inp, p, before)
    ensures OfAgents(inp, p + [n], before)
  {
    hide MainNames;
  }

  /** Whatever the cycle reads, each record of its plan fits the log made of what precedes it. */
  lemma PlanFits(inp: Input)
    requires ReadyCycle(inp)
    ensures AllFitLog(inp, inp.log, Plan(inp))
  {
    hide FitsLog, Ready;
    if inp.ownHost != "" {
      AllRecsFit(inp, AbsentNames(inp));
    }
  }
}
