/**
  * Quiescence of the whole plan: a second cycle on an unchanged world writes at most budget changes, and a third
  * writes nothing.
  */
module DoorbellRest {
  import opened Canon
  import opened DoorbellLog
  import opened DoorbellLedger
  import opened DoorbellPlan
  import opened DoorbellAdmit
  import opened DoorbellJudge
  import opened DoorbellCoherence
  import opened DoorbellAgent
  import opened DoorbellCycle
  import opened DoorbellBudget
  import opened DoorbellIds
  import opened DoorbellFold
  import opened DoorbellCalm
  import opened DoorbellQuiet
  import opened DoorbellQuiescence
  import opened Wrappers

  // ---------------------------------------------------------------- an agent's own part of a plan

  lemma AgentRecsOwn(inp: Input, n: Str, k: nat)
    requires Ready(inp, n, k) && n in inp.inbox
    ensures forall r :: r in AgentRecs(inp, n, inp.inbox[n], k) ==> AgentOf(r) == Some(n)
    ensures forall r :: r in AbsentRecs(inp, n, inp.inbox[n], k) ==> AgentOf(r) == Some(n)
  {
    hide Ready, AllFit, AgentRecs, AbsentRecs, FitsLog;
    AgentFits(inp, n, inp.inbox[n], k);
    Lift(inp, inp.log, n, AgentRecs(inp, n, inp.inbox[n], k));
    AbsentFits(inp, n, inp.inbox[n], k);
    Lift(inp, inp.log, n, AbsentRecs(inp, n, inp.inbox[n], k));
  }

  lemma OwnNothing(n: Str)
    ensures Own([], n) == []
  {
  }

  /** Another agent's records after those so far. */
  lemma OwnOneMore(before: seq<Rec>, recs: seq<Rec>, m: Str, n: Str)
    requires forall r :: r in recs ==> AgentOf(r) == Some(m)
    requires m == n ==> Own(before, n) == []
    ensures Own(before + recs, n) == if m == n then recs else Own(before, n)
  {
    hide Own;
    OwnConcat(before, recs, n);
    if m == n {
      OwnAll(recs, n);
    } else {
      OwnNone(recs, n);
    }
  }

  lemma {:induction false} OwnMain(inp: Input, names: seq<Str>, n: Str) returns (k: nat)
    requires ReadyCycle(inp) && Ascending(names)
    ensures Own(MainRecs(inp, names), n) == if n in names && n in inp.inbox then AgentRecs(inp, n, inp.inbox[n], k) else []
  {
    hide AgentRecs, ReadyCycle, Ready, Own;
    k := 0;
    OwnNothing(n);
    if names != [] {
      var p, m := names[..|names| - 1], names[|names| - 1];
      AscendingDistinct(names);
      AscendingPart(names, 0, |names| - 1);
      assert names == p + [m];
      k := OwnMain(inp, p, n);
      if m in inp.inbox {
        var before := MainRecs(inp, p);
        var recs := AgentRecs(inp, m, inp.inbox[m], |before|);
        ReadyCycleAt(inp, m, |before|);
        AgentRecsOwn(inp, m, |before|);
        OwnOneMore(before, recs, m, n);
        if m == n { k := |before|; }
      }
    }
  }

  /** The agents judged for their history come after the candidates, each once. */
  lemma {:induction false} OwnOfAll(inp: Input, names: seq<Str>, n: Str) returns (k: nat)
    requires ReadyCycle(inp) && Ascending(names)
    requires n in names && n in inp.inbox ==> Own(MainRecs(inp, MainNames(inp)), n) == []
    ensures Own(AllRecs(inp, names), n) ==
            if n in names && n in inp.inbox then AbsentRecs(inp, n, inp.inbox[n], k) else Own(MainRecs(inp, MainNames(inp)), n)
  {
    hide AgentRecs, AbsentRecs, ReadyCycle, Ready, MainNames, MainRecs, Own, AgentOf;
    k := 0;
    if names != [] {
      var p, m := names[..|names| - 1], names[|names| - 1];
      AscendingDistinct(names);
      AscendingPart(names, 0, |names| - 1);
      assert names == p + [m];
      k := OwnOfAll(inp, p, n);
      if m in inp.inbox {
        var before := AllRecs(inp, p);
        var recs := AbsentRecs(inp, m, inp.inbox[m], |before|);
        ReadyCycleAt(inp, m, |before|);
        AgentRecsOwn(inp, m, |before|);
        OwnOneMore(before, recs, m, n);
        if m == n { k := |before|; }
      }
    }
  }

  /** Is `n` read this cycle, as a candidate or for its history? */
  predicate Main(inp: Input, n: Str)
  {
    n in MainNames(inp) && n in inp.inbox
  }

  predicate Absent(inp: Input, n: Str)
  {
    n in LedgerAgents(inp.log) && !Main(inp, n) && n in inp.inbox
  }

  lemma NamesAscend(inp: Input)
    ensures Ascending(MainNames(inp))
  {
  }

  lemma OwnPlan(inp: Input, n: Str) returns (k: nat)
    requires ReadyCycle(inp) && inp.ownHost != ""
    ensures Own(Plan(inp), n) ==
            if Main(inp, n) then AgentRecs(inp, n, inp.inbox[n], k) else if Absent(inp, n) then AbsentRecs(inp, n, inp.inbox[n], k) else []
  {
    hide AgentRecs, AbsentRecs, ReadyCycle, AllRecs, MainNames, LedgerAgents, MainRecs, Own;
    assert n in AbsentNames(inp) <==> n in LedgerAgents(inp.log) && !(n in MainNames(inp) && n in inp.inbox);
    assert Ascending(MainNames(inp)) by { NamesAscend(inp); }
    k := OwnMain(inp, MainNames(inp), n);
    if !Main(inp, n) { k := OwnOfAll(inp, AbsentNames(inp), n); } else { var _ := OwnOfAll(inp, AbsentNames(inp), n); }
  }

  // ---------------------------------------------------------------- the second cycle's agents

  /** Whoever the second cycle reads as a candidate, the first did too. */
  lemma {:induction false} BoardKeys(inp: Input, recs: seq<Rec>)
    requires forall r :: r in recs ==> AgentOf(r).Some?
    ensures forall n :: n in Fold(inp, recs).boardOpen ==> n in inp.boardOpen || exists r :: r in recs && AgentOf(r) == Some(n) && r.Board?
  {
    if recs != [] {
      var p, r := recs[..|recs| - 1], recs[|recs| - 1];
      BoardKeys(inp, p);
      assert recs == p + [r];
      BoardKeysOne(Fold(inp, p), r);
    }
  }

  lemma BoardKeysOne(inp: Input, r: Rec)
    ensures forall n :: n in FoldOne(inp, r).boardOpen ==> n in inp.boardOpen || (AgentOf(r) == Some(n) && r.Board?)
  {
  }

  /** An input whose agents are all at rest, but for budgets not yet recorded. */
  ghost predicate AtRest(inp: Input)
  {
    forall n :: (Main(inp, n) ==> JudgeStill(inp, n, inp.inbox[n]) && MailStill(inp, n, inp.inbox[n])) &&
                (Absent(inp, n) ==> JudgeStill(inp, n, inp.inbox[n]))
  }

  lemma {:induction false} RestMain(inp: Input, names: seq<Str>)
    requires AtRest(inp) && forall n :: n in names ==> n in MainNames(inp)
    ensures forall r :: r in MainRecs(inp, names) ==>
              r.Budget? && Main(inp, r.g.agent) && inp.inbox[r.g.agent].registered && r in BudgetRecs(inp, r.g.agent, inp.inbox[r.g.agent].session)
  {
    hide AgentRecs, BudgetRecs, MainNames, JudgeStill, MailStill;
    if names != [] {
      var p, m := names[..|names| - 1], names[|names| - 1];
      assert names == p + [m];
      RestMain(inp, p);
      if m in inp.inbox {
        assert Main(inp, m);
        StillWritesNothing(inp, m, inp.inbox[m], |MainRecs(inp, p)|);
        BudgetOnly(inp, m, inp.inbox[m].session);
      }
    }
  }

  lemma {:induction false} RestAll(inp: Input, names: seq<Str>)
    requires AtRest(inp) && forall n :: n in names && n in inp.inbox ==> Absent(inp, n)
    ensures AllRecs(inp, names) == MainRecs(inp, MainNames(inp))
  {
    hide AbsentRecs, MainNames, MainRecs, JudgeStill, MailStill, LedgerAgents;
    if names != [] {
      var p, m := names[..|names| - 1], names[|names| - 1];
      assert names == p + [m];
      RestAll(inp, p);
      if m in inp.inbox {
        assert Absent(inp, m);
        StillWritesNothing(inp, m, inp.inbox[m], |AllRecs(inp, p)|);
      }
    }
  }

  lemma RestPlan(inp: Input)
    requires AtRest(inp)
    ensures forall r :: r in Plan(inp) ==>
              r.Budget? && Main(inp, r.g.agent) && inp.inbox[r.g.agent].registered && r in BudgetRecs(inp, r.g.agent, inp.inbox[r.g.agent].session)
  {
    hide AtRest, MainRecs, AllRecs, BudgetRecs;
    RestMain(inp, MainNames(inp));
    assert forall n :: n in AbsentNames(inp) && n in inp.inbox ==> Absent(inp, n);
    RestAll(inp, AbsentNames(inp));
  }

  // ---------------------------------------------------------------- the theorem

  lemma IntentsDistinct(inp: Input)
    requires Supply(inp.uid)
    ensures DistinctIntents(Plan(inp))
  {
    hide Plan;
    PlanIds(inp);
  }

  lemma IntentsNew(inp: Input, n: Str)
    requires ReadyCycle(inp) && n in inp.inbox
    ensures Supply(inp.uid)
    ensures forall i, r :: i in Account(inp.log, n).rings && r in Plan(inp) && r.Intent? ==> r.i.id != i.id
  {
    hide Plan, AcctWf, RungKnown, Account;
    ReadyCycleAt(inp, n, 0);
    assert Ready(inp, n, 0);
    PlanIds(inp);
    forall i, r | i in Account(inp.log, n).rings && r in Plan(inp) && r.Intent? ensures r.i.id != i.id
    {
      var j :| 0 <= j < |Plan(inp)| && Plan(inp)[j] == r;
      assert r.i.id == inp.uid(0 + j);
      assert Unused(Account(inp.log, n), inp.uid(j));
    }
  }

  /** What a plan may rely on for the world to come to rest under it. */
  ghost predicate Restful(inp: Input)
  {
    ReadyCycle(inp) && TunablesOk(inp.c) && forall n :: n in inp.inbox ==> KnownWatch(inp, n) && LiveFor(inp, n, inp.inbox[n])
  }

  /** The second cycle's candidates were candidates of the first. */
  lemma MainStays(inp: Input, uid: nat -> Str, n: Str)
    requires ReadyCycle(inp) && inp.ownHost != "" && Main(NextInput(inp, uid), n)
    ensures Main(inp, n)
  {
    hide AllRecs, AgentRecs, AbsentRecs, ReadyCycle, Fold, LedgerAgents, AllFitLog;
    var recs := Plan(inp);
    FoldLog(inp, recs);
    PlanAgents(inp);
    BoardKeys(inp, recs);
    if n !in MainNames(inp) {
      var r :| r in recs && AgentOf(r) == Some(n) && r.Board?;
      OwnMembers(recs, n);
      var k := OwnPlan(inp, n);
      assert r in Own(recs, n);
      AbsentNoBoard(inp, n, k);
    }
  }

  lemma PlanAgents(inp: Input)
    requires ReadyCycle(inp)
    ensures forall r :: r in Plan(inp) ==> AgentOf(r).Some? && AgentOf(r).value in inp.inbox
  {
    hide AllRecs, ReadyCycle, AllFitLog, MainNames, LedgerAgents;
    AllRecsFit(inp, AbsentNames(inp));
  }

  lemma AbsentNoBoard(inp: Input, n: Str, k: nat)
    requires n in inp.inbox
    ensures forall r :: r in AbsentRecs(inp, n, inp.inbox[n], k) ==> !r.Board?
  {
    hide JudgeOf;
    JudgeVerdicts(inp, n, inp.inbox[n], k);
  }

  /** An agent the second cycle judges for its history was read by the first. */
  lemma AbsentStays(inp: Input, uid: nat -> Str, n: Str)
    requires ReadyCycle(inp) && inp.ownHost != "" && Absent(NextInput(inp, uid), n)
    ensures Main(inp, n) || Absent(inp, n)
  {
    hide Plan, AgentRecs, AbsentRecs, ReadyCycle, Fold, MainNames;
    var recs := Plan(inp);
    FoldLog(inp, recs);
    var k := OwnPlan(inp, n);
    OwnMembers(recs, n);
    var r :| r in inp.log + recs && (r.Intent? || r.Effect? || r.Escalation?) && AgentOf(r).value == n;
    if r in recs {
      assert r in Own(recs, n);
    } else {
      assert r in inp.log;
    }
  }

  /** Only an agent rung among `recs` has a budget change to record. */
  ghost predicate OnlyRungSpend(inp: Input, recs: seq<Rec>)
  {
    forall n :: Main(inp, n) && inp.inbox[n].registered && BudgetRecs(inp, n, inp.inbox[n].session) != [] ==>
      exists i :: Intent(i) in recs && i.agent == n
  }

  /** After one cycle on an unchanged world every agent is at rest, and only a rung one may have a budget to record. */
  lemma OneCycleRests(inp: Input, uid: nat -> Str)
    requires Restful(inp) && inp.ownHost != ""
    ensures AtRest(NextInput(inp, uid)) && OnlyRungSpend(NextInput(inp, uid), Plan(inp))
  {
    hide Plan, NextInput, JudgeStill, MailStill, BudgetRecs, ReadyCycle, MainNames, LedgerAgents, KnownWatch, LiveFor;
    var nxt := NextInput(inp, uid);
    NextWorld(inp, uid);
    forall n | Main(nxt, n)
      ensures JudgeStill(nxt, n, inp.inbox[n]) && MailStill(nxt, n, inp.inbox[n])
      ensures inp.inbox[n].registered && BudgetRecs(nxt, n, inp.inbox[n].session) != [] ==> exists i :: Intent(i) in Plan(inp) && i.agent == n
    {
      MainStays(inp, uid, n);
      MainRests(inp, uid, n);
    }
    forall n | Absent(nxt, n) ensures JudgeStill(nxt, n, inp.inbox[n])
    {
      AbsentStays(inp, uid, n);
      if Main(inp, n) { MainRests(inp, uid, n); } else { AbsentRests(inp, uid, n); }
    }
  }

  lemma NextWorld(inp: Input, uid: nat -> Str)
    ensures SameWorld(inp, NextInput(inp, uid)) && NextInput(inp, uid).log == inp.log + Plan(inp)
  {
    hide Plan, Fold;
    FoldLog(inp, Plan(inp));
  }

  lemma MainRests(inp: Input, uid: nat -> Str, n: Str)
    requires Restful(inp) && inp.ownHost != "" && Main(inp, n)
    ensures var nxt := NextInput(inp, uid);
            JudgeStill(nxt, n, inp.inbox[n]) && MailStill(nxt, n, inp.inbox[n]) &&
            (inp.inbox[n].registered && BudgetRecs(nxt, n, inp.inbox[n].session) != [] ==> exists i :: Intent(i) in Plan(inp) && i.agent == n)
  {
    hide Plan, NextInput, JudgeStill, MailStill, BudgetRecs, ReadyCycle, Ready, AgentRecs, KnownWatch, LiveFor, Follows, DistinctIntents, Account;
    IntentsNew(inp, n);
    IntentsDistinct(inp);
    NextFollows(inp, uid, n);
    var k := OwnPlan(inp, n);
    ReadyCycleAt(inp, n, k);
    AgentSettles(inp, NextInput(inp, uid), n, inp.inbox[n], k);
    OwnMembers(Plan(inp), n);
    IntentOfAgent(Own(Plan(inp), n), Plan(inp), n);
  }

  lemma IntentOfAgent(own: seq<Rec>, recs: seq<Rec>, n: Str)
    requires forall r :: r in own <==> r in recs && AgentOf(r) == Some(n)
    ensures (exists r :: r in own && r.Intent?) ==> exists i :: Intent(i) in recs && i.agent == n
  {
    if r :| r in own && r.Intent? { assert Intent(r.i) in recs && r.i.agent == n; }
  }

  lemma AbsentRests(inp: Input, uid: nat -> Str, n: Str)
    requires Restful(inp) && inp.ownHost != "" && Absent(inp, n)
    ensures JudgeStill(NextInput(inp, uid), n, inp.inbox[n])
  {
    hide Plan, NextInput, JudgeStill, ReadyCycle, Ready, AbsentRecs, KnownWatch, LiveFor, Follows, DistinctIntents, Account, Main;
    assert !Main(inp, n) && n in inp.inbox by { AbsentParts(inp, n); }
    IntentsNew(inp, n);
    IntentsDistinct(inp);
    NextFollows(inp, uid, n);
    var k := OwnPlan(inp, n);
    ReadyCycleAt(inp, n, k);
    JudgeSettles(inp, NextInput(inp, uid), n, inp.inbox[n], k);
  }

  lemma AbsentParts(inp: Input, n: Str)
    requires Absent(inp, n)
    ensures !Main(inp, n) && n in inp.inbox
  {
  }

  // ---------------------------------------------------------------- the third cycle

  lemma {:induction false} FoldBudgets(inp: Input, recs: seq<Rec>)
    requires forall r :: r in recs ==> r.Budget?
    ensures var nxt := Fold(inp, recs);
            nxt.rung == inp.rung && nxt.boardOpen == inp.boardOpen && nxt.ringMono == inp.ringMono && nxt.mono == inp.mono
  {
    hide FoldOne;
    if recs != [] {
      assert recs[|recs| - 1] in recs;
      FoldBudgets(inp, recs[..|recs| - 1]);
      FoldOneBudget(Fold(inp, recs[..|recs| - 1]), recs[|recs| - 1]);
    }
  }

  lemma FoldOneBudget(inp: Input, r: Rec)
    requires r.Budget?
    ensures var nxt := FoldOne(inp, r);
            nxt.rung == inp.rung && nxt.boardOpen == inp.boardOpen && nxt.ringMono == inp.ringMono && nxt.mono == inp.mono
  {
  }

  lemma {:induction false} OwnRestMain(inp: Input, names: seq<Str>, n: Str)
    requires AtRest(inp) && Ascending(names) && forall m :: m in names ==> m in MainNames(inp)
    ensures Own(MainRecs(inp, names), n) ==
            if n in names && n in inp.inbox && inp.inbox[n].registered then BudgetRecs(inp, n, inp.inbox[n].session) else []
  {
    hide AgentRecs, AtRest, MainNames, BudgetRecs, Own, AgentOf;
    OwnNothing(n);
    if names != [] {
      var p, m := names[..|names| - 1], names[|names| - 1];
      AscendingDistinct(names);
      AscendingPart(names, 0, |names| - 1);
      assert names == p + [m];
      OwnRestMain(inp, p, n);
      if m in inp.inbox {
        var before := MainRecs(inp, p);
        RestAgentRecs(inp, m, |before|);
        OwnOneMore(before, AgentRecs(inp, m, inp.inbox[m], |before|), m, n);
      }
    }
  }

  lemma RestAgentRecs(inp: Input, m: Str, k: nat)
    requires AtRest(inp) && Main(inp, m)
    ensures var read := inp.inbox[m];
            AgentRecs(inp, m, read, k) == (if read.registered then BudgetRecs(inp, m, read.session) else []) &&
            forall r :: r in AgentRecs(inp, m, read, k) ==> AgentOf(r) == Some(m)
  {
    hide AgentRecs, BudgetRecs, JudgeStill, MailStill, MainNames;
    StillWritesNothing(inp, m, inp.inbox[m], k);
    BudgetOnly(inp, m, inp.inbox[m].session);
  }

  lemma RestBoth(inp: Input, n: Str)
    requires AtRest(inp) && inp.ownHost != ""
    ensures (forall r :: r in Plan(inp) ==> r.Budget?) && (Main(inp, n) && inp.inbox[n].registered ==>
              Own(Plan(inp), n) == BudgetRecs(inp, n, inp.inbox[n].session))
  {
    hide AtRest, MainRecs, AllRecs, BudgetRecs, Own;
    RestPlan(inp);
    assert forall m :: m in AbsentNames(inp) && m in inp.inbox ==> Absent(inp, m);
    RestAll(inp, AbsentNames(inp));
    NamesAscend(inp);
    OwnRestMain(inp, MainNames(inp), n);
  }

  /** Recording budgets moves no agent from rest, and leaves none to record. */
  lemma RestStays(inp: Input, uid: nat -> Str, n: Str)
    requires AtRest(inp) && inp.ownHost != "" && (n in inp.inbox ==> KnownWatch(inp, n))
    ensures var nxt := NextInput(inp, uid);
            (Main(nxt, n) ==> JudgeStill(nxt, n, nxt.inbox[n]) && MailStill(nxt, n, nxt.inbox[n])) &&
            (Main(nxt, n) && nxt.inbox[n].registered ==> BudgetRecs(nxt, n, nxt.inbox[n].session) == []) &&
            (Absent(nxt, n) ==> JudgeStill(nxt, n, nxt.inbox[n]))
  {
    var nxt, recs := NextInput(inp, uid), Plan(inp);
    RestBoth(inp, n);
    FoldBudgets(inp, recs);
    NextWorld(inp, uid);
    SameReaders(inp, nxt, n);
    hide Plan, Fold, AtRest, OnlyMine, Calm, BoardSettled, RingDone, BudgetRecs, Own, Decide, LedgerOf, Main, Absent, Run, SpentAfter, MainNames, OfAgent;
    AccountRest(inp.log, recs, n);
    if n in inp.inbox {
      StillSame(inp, nxt, n);
      if Main(inp, n) && inp.inbox[n].registered {
        FoldOwn(inp, recs, n);
        BudgetSettles(inp, nxt, n, inp.inbox[n].session);
      }
    }
    AtRestAt(inp, n);
  }

  lemma AtRestAt(inp: Input, n: Str)
    requires AtRest(inp)
    ensures Main(inp, n) ==> JudgeStill(inp, n, inp.inbox[n]) && MailStill(inp, n, inp.inbox[n])
    ensures Absent(inp, n) ==> JudgeStill(inp, n, inp.inbox[n])
    ensures Main(inp, n) || Absent(inp, n) ==> n in inp.inbox
  {
    hide JudgeStill, MailStill, MainNames, LedgerAgents;
  }

  lemma AccountRest(log: seq<Rec>, recs: seq<Rec>, n: Str)
    requires forall r :: r in recs ==> r.Budget?
    ensures Account(log + recs, n) == Account(log, n)
  {
    hide Run;
    RunConcat(NOTHING, log, recs, n);
    BudgetsKeep(Account(log, n), recs, n);
  }

  lemma {:induction false} BudgetsKeep(a: Acct, recs: seq<Rec>, n: Str)
    requires forall r :: r in recs ==> r.Budget?
    ensures Run(a, recs, n) == a
    decreases |recs|
  {
    if recs != [] {
      assert recs[|recs| - 1] in recs;
      BudgetsKeep(a, recs[..|recs| - 1], n);
    }
  }

  lemma SameReaders(inp: Input, nxt: Input, n: Str)
    requires SameWorld(inp, nxt) && nxt.boardOpen == inp.boardOpen
    requires nxt.log == inp.log + Plan(inp) && forall r :: r in Plan(inp) ==> r.Budget?
    ensures (Main(nxt, n) <==> Main(inp, n)) && (Absent(nxt, n) <==> Absent(inp, n))
  {
    hide Plan;
    assert LedgerAgents(nxt.log) == LedgerAgents(inp.log);
    assert MainNames(nxt) == MainNames(inp);
  }

  lemma StillSame(inp: Input, nxt: Input, n: Str)
    requires SameWorld(inp, nxt) && n in inp.inbox && KnownWatch(inp, n) && Account(nxt.log, n) == Account(inp.log, n)
    requires nxt.rung == inp.rung && nxt.boardOpen == inp.boardOpen && nxt.ringMono == inp.ringMono && nxt.mono == inp.mono
    ensures JudgeStill(inp, n, inp.inbox[n]) ==> JudgeStill(nxt, n, inp.inbox[n])
    ensures MailStill(inp, n, inp.inbox[n]) ==> MailStill(nxt, n, inp.inbox[n])
  {
    hide OnlyMine, Calm, LedgerOf, Decide, OfAgent, AliveOf, BoardSettled, AtCap, MayRing, Again, Unrung, Account;
    SameDecision(inp, nxt, n, inp.inbox[n]);
  }

  /**
    * Quiescence. On an unchanged world, at one instant and with no watch unknown, the cycle after a cycle
    * writes no intent, effect, escalation or board record, and a budget change only for an agent the first
    * one rang. The third writes nothing.
    */
  lemma Quiescence(inp: Input, uid: nat -> Str, uid3: nat -> Str)
    requires Restful(inp)
    ensures var second := NextInput(inp, uid);
            (forall r :: r in Plan(second) ==> r.Budget? && exists i :: Intent(i) in Plan(inp) && i.agent == r.g.agent) &&
            Plan(NextInput(second, uid3)) == []
  {
    hide AtRest, OnlyRungSpend, AllRecs, BudgetRecs, ReadyCycle, KnownWatch, LiveFor, NextInput, SameWorld, Main, Absent;
    var second := NextInput(inp, uid);
    var third := NextInput(second, uid3);
    NextHost(inp, uid);
    NextHost(second, uid3);
    if inp.ownHost != "" {
      OneCycleRests(inp, uid);
      RestPlan(second);
      OnlyRungWrites(inp, second);
      assert forall n :: n in second.inbox ==> KnownWatch(second, n) by { WatchStays(inp, second); }
      ThirdRests(second, uid3);
    }
  }

  lemma NextHost(inp: Input, uid: nat -> Str)
    ensures SameWorld(inp, NextInput(inp, uid)) && NextInput(inp, uid).ownHost == inp.ownHost
  {
    hide NextInput, Plan;
    NextWorld(inp, uid);
  }

  lemma WatchStays(inp: Input, nxt: Input)
    requires SameWorld(inp, nxt) && Restful(inp)
    ensures forall n :: n in nxt.inbox ==> KnownWatch(nxt, n)
  {
    hide ReadyCycle, LiveFor;
    forall n | n in nxt.inbox ensures KnownWatch(nxt, n) { assert KnownWatch(inp, n); }
  }

  lemma OnlyRungWrites(inp: Input, nxt: Input)
    requires OnlyRungSpend(nxt, Plan(inp))
    requires forall r :: r in Plan(nxt) ==>
               r.Budget? && Main(nxt, r.g.agent) && nxt.inbox[r.g.agent].registered && r in BudgetRecs(nxt, r.g.agent, nxt.inbox[r.g.agent].session)
    ensures forall r :: r in Plan(nxt) ==> r.Budget? && exists i :: Intent(i) in Plan(inp) && i.agent == r.g.agent
  {
    hide Plan, BudgetRecs, MainNames;
  }

  lemma ThirdRests(second: Input, uid: nat -> Str)
    requires AtRest(second) && second.ownHost != "" && forall n :: n in second.inbox ==> KnownWatch(second, n)
    ensures Plan(NextInput(second, uid)) == []
  {
    hide NextInput, JudgeStill, MailStill, BudgetRecs, MainNames, LedgerAgents, Plan, KnownWatch;
    var third := NextInput(second, uid);
    NextWorld(second, uid);
    assert AtRest(third) && forall n :: Main(third, n) && third.inbox[n].registered ==> BudgetRecs(third, n, third.inbox[n].session) == [] by {
      forall n
        ensures Main(third, n) ==> JudgeStill(third, n, third.inbox[n]) && MailStill(third, n, third.inbox[n])
        ensures Main(third, n) && third.inbox[n].registered ==> BudgetRecs(third, n, third.inbox[n].session) == []
        ensures Absent(third, n) ==> JudgeStill(third, n, third.inbox[n])
      {
        RestStays(second, uid, n);
      }
    }
    RestPlan(third);
    FirstIn(Plan(third));
  }
}
