/**
  * The job's own state, record by record: each record it writes is folded into what the next cycle reads, and that
  * is what the log says.
  */
module DoorbellFold {
  import opened Canon
  import opened DoorbellLog
  import opened DoorbellLedger
  import opened DoorbellPlan
  import opened DoorbellBudget
  import opened Wrappers

  /** Write one record, then fold it: the log's state, and for an intent its place on this lifetime's clock. */
  function FoldOne(inp: Input, r: Rec): Input
  {
    var m := ReduceRecord(LogModel(inp.rung, map[], None, inp.exhausted, inp.boardOpen), r);
    var next := inp.(log := inp.log + [r], rung := m.rung, exhausted := m.exhausted, boardOpen := m.boardOpen);
    if r.Intent?
    then next.(ringMono := inp.ringMono[r.i.agent := TimesOf(inp, r.i.agent) + [r.i.mono]], mono := inp.mono[r.i.id := r.i.mono])
    else next
  }

  function Fold(inp: Input, recs: seq<Rec>): Input
  {
    if recs == [] then inp else FoldOne(Fold(inp, recs[..|recs| - 1]), recs[|recs| - 1])
  }

  /** What the next cycle reads when nothing but the job's own writing has changed. */
  function NextInput(inp: Input, uid: nat -> Str): Input
  {
    Fold(inp, Plan(inp)).(ticks := map n | n in MainNames(inp) && TicksOf(inp, n).Some? :: TicksOf(inp, n).value, uid := uid)
  }

  // ---------------------------------------------------------------- one agent's part of it

  function Own(recs: seq<Rec>, n: Str): seq<Rec>
  {
    if recs == [] then []
    else
      var p, r := Own(recs[..|recs| - 1], n), recs[|recs| - 1];
      if AgentOf(r) == Some(n) then p + [r] else p
  }

  lemma {:induction false} OwnConcat(x: seq<Rec>, y: seq<Rec>, n: Str)
    ensures Own(x + y, n) == Own(x, n) + Own(y, n)
    decreases |y|
  {
    if y == [] {
      assert x + y == x && Own(x, n) + [] == Own(x, n);
    } else {
      var z := y[..|y| - 1];
      OwnConcat(x, z, n);
      assert (x + y)[..|x + y| - 1] == x + z;
    }
  }

  lemma {:induction false} OwnAll(recs: seq<Rec>, n: Str)
    requires forall r :: r in recs ==> AgentOf(r) == Some(n)
    ensures Own(recs, n) == recs
  {
    if recs != [] {
      assert recs[|recs| - 1] in recs;
      OwnAll(recs[..|recs| - 1], n);
      assert recs == recs[..|recs| - 1] + [recs[|recs| - 1]];
    }
  }

  lemma {:induction false} OwnNone(recs: seq<Rec>, n: Str)
    requires forall r :: r in recs ==> AgentOf(r) != Some(n)
    ensures Own(recs, n) == []
  {
    if recs != [] {
      assert recs[|recs| - 1] in recs;
      OwnNone(recs[..|recs| - 1], n);
    }
  }

  lemma {:induction false} OwnMembers(recs: seq<Rec>, n: Str)
    ensures forall r :: r in Own(recs, n) <==> r in recs && AgentOf(r) == Some(n)
  {
    if recs != [] {
      OwnMembers(recs[..|recs| - 1], n);
      assert recs == recs[..|recs| - 1] + [recs[|recs| - 1]];
    }
  }

  /** An agent's open board record after some of its own records. */
  function BoardAfter(cur: Option<BoardRec>, recs: seq<Rec>): Option<BoardRec>
  {
    if recs == [] then cur
    else
      var p, r := BoardAfter(cur, recs[..|recs| - 1]), recs[|recs| - 1];
      if !r.Board? then p
      else if r.b.isOpen then Some(r.b)
      else if p.Some? && p.value.id == r.b.id then None
      else p
  }

  /** Whether its budget is recorded as spent after some of its own records. */
  function SpentAfter(cur: bool, recs: seq<Rec>): bool
  {
    if recs == [] then cur
    else
      var r := recs[|recs| - 1];
      if r.Budget? then r.g.exhausted else SpentAfter(cur, recs[..|recs| - 1])
  }

  /** `nxt` is `inp` after a cycle that wrote exactly `recs` for agent `n`. */
  ghost predicate Follows(inp: Input, nxt: Input, n: Str, recs: seq<Rec>)
  {
    SameWorld(inp, nxt) &&
    Account(nxt.log, n) == Run(Account(inp.log, n), recs, n) &&
    TimesOf(nxt, n) == TimesOf(inp, n) + RingsOf(recs, n) &&
    CurBoard(nxt, n) == BoardAfter(CurBoard(inp, n), recs) &&
    (n in nxt.exhausted <==> SpentAfter(n in inp.exhausted, recs)) &&
    inp.rung <= nxt.rung && (forall i :: Intent(i) in recs ==> Pairs(i.session, i.ids) <= nxt.rung) &&
    (forall i :: i in Account(inp.log, n).rings ==> MonoOf(nxt.mono, i.id) == MonoOf(inp.mono, i.id)) &&
    (forall i :: Intent(i) in recs ==> MonoOf(nxt.mono, i.id) == i.mono)
  }

  /** The clock, the host, the database and the watches read the same. */
  ghost predicate SameWorld(inp: Input, nxt: Input)
  {
    nxt.c == inp.c && nxt.bindings == inp.bindings && nxt.ownHost == inp.ownHost && nxt.inbox == inp.inbox &&
    nxt.mail == inp.mail && nxt.watchFit == inp.watchFit && nxt.actuated == inp.actuated
  }

  lemma FoldOneLog(inp: Input, r: Rec)
    ensures var nxt := FoldOne(inp, r);
            SameWorld(inp, nxt) && nxt.log == inp.log + [r] && nxt.uid == inp.uid && nxt.ticks == inp.ticks
  {
    hide ReduceRecord, TimesOf;
  }

  lemma {:induction false} FoldLog(inp: Input, recs: seq<Rec>)
    ensures SameWorld(inp, Fold(inp, recs)) && Fold(inp, recs).log == inp.log + recs && Fold(inp, recs).uid == inp.uid
    ensures Fold(inp, recs).ticks == inp.ticks
  {
    hide FoldOne;
    if recs != [] {
      FoldLog(inp, recs[..|recs| - 1]);
      FoldOneLog(Fold(inp, recs[..|recs| - 1]), recs[|recs| - 1]);
      assert inp.log + recs[..|recs| - 1] + [recs[|recs| - 1]] == inp.log + recs;
    } else {
      assert inp.log + [] == inp.log;
    }
  }

  /** One record, as its agent sees it and as every other agent does. */
  lemma FoldOneOwn(inp: Input, r: Rec, n: Str)
    ensures var nxt := FoldOne(inp, r);
            var own := if AgentOf(r) == Some(n) then [r] else [];
            TimesOf(nxt, n) == TimesOf(inp, n) + RingsOf(own, n) &&
            CurBoard(nxt, n) == BoardAfter(CurBoard(inp, n), own) &&
            (n in nxt.exhausted <==> SpentAfter(n in inp.exhausted, own))
  {
    assert [r][..0] == [];
    assert TimesOf(inp, n) + [] == TimesOf(inp, n);
    if AgentOf(r) != Some(n) {
      FoldOneOther(inp, r, n);
    } else {
      FoldOneMine(inp, r, n);
    }
    hide FoldOne, TimesOf, CurBoard;
  }

  lemma FoldOneOther(inp: Input, r: Rec, n: Str)
    requires AgentOf(r) != Some(n)
    ensures var nxt := FoldOne(inp, r);
            TimesOf(nxt, n) == TimesOf(inp, n) && CurBoard(nxt, n) == CurBoard(inp, n) && (n in nxt.exhausted <==> n in inp.exhausted)
  {
  }

  lemma FoldOneMine(inp: Input, r: Rec, n: Str)
    requires AgentOf(r) == Some(n)
    ensures var nxt := FoldOne(inp, r);
            TimesOf(nxt, n) == TimesOf(inp, n) + RingsOf([r], n) && CurBoard(nxt, n) == BoardAfter(CurBoard(inp, n), [r]) &&
            (n in nxt.exhausted <==> SpentAfter(n in inp.exhausted, [r]))
  {
    assert [r][..0] == [];
    assert TimesOf(inp, n) + [] == TimesOf(inp, n);
  }

  lemma {:induction false} AfterConcat(cur: Option<BoardRec>, spent: bool, x: seq<Rec>, y: seq<Rec>)
    ensures BoardAfter(cur, x + y) == BoardAfter(BoardAfter(cur, x), y)
    ensures SpentAfter(spent, x + y) == SpentAfter(SpentAfter(spent, x), y)
    decreases |y|
  {
    if y == [] {
      assert x + y == x;
    } else {
      AfterConcat(cur, spent, x, y[..|y| - 1]);
      assert (x + y)[..|x + y| - 1] == x + y[..|y| - 1];
    }
  }

  lemma {:induction false} FoldOwn(inp: Input, recs: seq<Rec>, n: Str)
    ensures var nxt := Fold(inp, recs);
            TimesOf(nxt, n) == TimesOf(inp, n) + RingsOf(Own(recs, n), n) &&
            CurBoard(nxt, n) == BoardAfter(CurBoard(inp, n), Own(recs, n)) &&
            (n in nxt.exhausted <==> SpentAfter(n in inp.exhausted, Own(recs, n)))
  {
    hide FoldOne, TimesOf, CurBoard, RingsOf, BoardAfter, SpentAfter;
    if recs == [] {
      assert TimesOf(inp, n) + [] == TimesOf(inp, n);
      NothingAfter(CurBoard(inp, n), n in inp.exhausted, n);
    } else {
      var p, r := recs[..|recs| - 1], recs[|recs| - 1];
      FoldOwn(inp, p, n);
      FoldOneOwn(Fold(inp, p), r, n);
      if AgentOf(r) == Some(n) {
        AfterConcat(CurBoard(inp, n), n in inp.exhausted, Own(p, n), [r]);
        RingsConcat(Own(p, n), [r], n);
      } else {
        NothingAfter(CurBoard(Fold(inp, p), n), n in Fold(inp, p).exhausted, n);
        assert TimesOf(Fold(inp, p), n) + [] == TimesOf(Fold(inp, p), n);
      }
    }
  }

  lemma NothingAfter(cur: Option<BoardRec>, spent: bool, n: Str)
    ensures BoardAfter(cur, []) == cur && SpentAfter(spent, []) == spent && RingsOf([], n) == []
  {
  }

  lemma {:induction false} OwnRun(a: Acct, recs: seq<Rec>, n: Str)
    ensures Run(a, recs, n) == Run(a, Own(recs, n), n)
    decreases |recs|
  {
    if recs != [] {
      var p, r := recs[..|recs| - 1], recs[|recs| - 1];
      OwnRun(a, p, n);
      if AgentOf(r) == Some(n) { RunAppend(a, Own(p, n), r, n); }
    }
  }

  lemma FoldOneRing(inp: Input, r: Rec)
    ensures FoldOne(inp, r).mono == if r.Intent? then inp.mono[r.i.id := r.i.mono] else inp.mono
    ensures FoldOne(inp, r).rung == if r.Intent? then inp.rung + Pairs(r.i.session, r.i.ids) else inp.rung
  {
    hide TimesOf;
  }

  lemma {:induction false} FoldRung(inp: Input, recs: seq<Rec>)
    ensures inp.rung <= Fold(inp, recs).rung
    ensures forall i :: Intent(i) in recs ==> Pairs(i.session, i.ids) <= Fold(inp, recs).rung
  {
    hide FoldOne, Pairs;
    if recs != [] {
      FoldRung(inp, recs[..|recs| - 1]);
      FoldOneRing(Fold(inp, recs[..|recs| - 1]), recs[|recs| - 1]);
      assert recs == recs[..|recs| - 1] + [recs[|recs| - 1]];
    }
  }

  predicate DistinctIntents(recs: seq<Rec>)
  {
    forall j, k :: 0 <= j < k < |recs| && recs[j].Intent? && recs[k].Intent? ==> recs[j].i.id != recs[k].i.id
  }

  lemma {:induction false} FoldMono(inp: Input, recs: seq<Rec>)
    requires DistinctIntents(recs)
    ensures forall i :: Intent(i) in recs ==> MonoOf(Fold(inp, recs).mono, i.id) == i.mono
    ensures forall x :: (forall r :: r in recs && r.Intent? ==> r.i.id != x) ==> MonoOf(Fold(inp, recs).mono, x) == MonoOf(inp.mono, x)
  {
    hide FoldOne;
    if recs != [] {
      var p, r := recs[..|recs| - 1], recs[|recs| - 1];
      FoldMono(inp, p);
      FoldOneRing(Fold(inp, p), r);
      assert recs == p + [r];
      forall i | Intent(i) in recs ensures MonoOf(Fold(inp, recs).mono, i.id) == i.mono
      {
        if Intent(i) != r {
          var j :| 0 <= j < |p| && p[j] == Intent(i);
          assert recs[j] == p[j];
        }
      }
    }
  }

  /** The next cycle's input follows, for an agent, from the agent's own part of the plan. */
  lemma NextFollows(inp: Input, uid: nat -> Str, n: Str)
    requires DistinctIntents(Plan(inp))
    requires forall i, r :: i in Account(inp.log, n).rings && r in Plan(inp) && r.Intent? ==> r.i.id != i.id
    ensures Follows(inp, NextInput(inp, uid), n, Own(Plan(inp), n))
  {
    hide Plan, Run, Own, RingsOf, BoardAfter, SpentAfter, Fold;
    var recs := Plan(inp);
    FoldLog(inp, recs);
    FoldOwn(inp, recs, n);
    RunConcat(NOTHING, inp.log, recs, n);
    OwnRun(Account(inp.log, n), recs, n);
    FoldRung(inp, recs);
    FoldMono(inp, recs);
    OwnMembers(recs, n);
  }
}
