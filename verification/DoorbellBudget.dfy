/**
  * The ring budget. Within a lifetime: how many rings, how far apart, on the monotonic clock. Across a
  * compaction and a later restart: when the rings dropped would have counted.
  */
module DoorbellBudget {
  import opened Canon
  import opened DoorbellLog
  import opened DoorbellLedger
  import opened DoorbellPlan
  import opened DoorbellAdmit
  import opened DoorbellKeep
  import opened DoorbellCompaction
  import opened Wrappers

  // ---------------------------------------------------------------- what one plan may ring

  /** The monotonic times of the intents for `n` among these records, in order. */
  function RingsOf(recs: seq<Rec>, n: Str): seq<int>
  {
    if recs == [] then []
    else
      var p, r := RingsOf(recs[..|recs| - 1], n), recs[|recs| - 1];
      if r.Intent? && r.i.agent == n then p + [r.i.mono] else p
  }

  lemma {:induction false} RingsConcat(x: seq<Rec>, y: seq<Rec>, n: Str)
    ensures RingsOf(x + y, n) == RingsOf(x, n) + RingsOf(y, n)
    decreases |y|
  {
    if y == [] {
      assert x + y == x && RingsOf(x, n) + [] == RingsOf(x, n);
    } else {
      var z := y[..|y| - 1];
      RingsConcat(x, z, n);
      assert (x + y)[..|x + y| - 1] == x + z;
    }
  }

  predicate NoIntents(recs: seq<Rec>)
  {
    forall r :: r in recs ==> !r.Intent?
  }

  lemma {:induction false} NoRings(recs: seq<Rec>, n: Str)
    requires forall r :: r in recs ==> !(r.Intent? && r.i.agent == n)
    ensures RingsOf(recs, n) == []
  {
    if recs != [] {
      assert recs[|recs| - 1] in recs;
      NoRings(recs[..|recs| - 1], n);
    }
  }

  predicate Verdicts(recs: seq<Rec>)
  {
    forall r :: r in recs ==> r.Effect? || r.Escalation?
  }

  lemma {:induction false} EffectVerdicts(c: Config, n: Str, session: Str, outcome: Outcome, ii: seq<Str>, ll: seq<Str>)
    ensures Verdicts(EffectRecs(c, n, session, outcome, ii, ll))
    decreases |ii| + |ll|
  {
    if |ii| > MAX_IDS || |ll| > MAX_IDS {
      EffectVerdicts(c, n, session, outcome, ii[Min(MAX_IDS, |ii|)..], ll[Min(MAX_IDS, |ll|)..]);
    }
  }

  lemma {:induction false} CloseVerdicts(c: Config, xs: seq<EscRec>, why: CloseWhy)
    ensures Verdicts(CloseAll(c, xs, why))
  {
    if xs != [] { CloseVerdicts(c, xs[..|xs| - 1], why); }
  }

  lemma {:induction false} MootVerdicts(c: Config, n: Str, u: seq<IntentRec>, ss: seq<Str>)
    ensures Verdicts(MootEffects(c, n, u, ss))
  {
    hide EffectRecs, OfSession, IdsOfRings;
    if ss != [] {
      MootVerdicts(c, n, u, ss[..|ss| - 1]);
      EffectVerdicts(c, n, ss[|ss| - 1], SessionChanged, SortedSet(IdsOfRings(OfSession(u, ss[|ss| - 1]))), []);
    }
  }

  lemma {:induction false} IneffectiveVerdicts(c: Config, n: Str, session: Str, rs: seq<Ring>)
    ensures Verdicts(IneffectiveRecs(c, n, session, rs))
  {
    if rs != [] { IneffectiveVerdicts(c, n, session, rs[..|rs| - 1]); }
  }

  lemma {:induction false} StuckVerdicts(c: Config, n: Str, session: Str, ids: seq<Str>, uid: nat -> Str, k: nat)
    ensures Verdicts(StuckRecs(c, n, session, ids, uid, k))
  {
    if ids != [] { StuckVerdicts(c, n, session, ids[..|ids| - 1], uid, k); }
  }

  lemma JudgeVerdicts(inp: Input, n: Str, read: PendingRead, k: nat)
    ensures Verdicts(JudgeOf(inp, n, read, k)) && NoIntents(JudgeOf(inp, n, read, k))
  {
    hide LedgerOf, EffectRecs, CloseAll, MootEffects, IneffectiveRecs, Settled, AfterProgress, AfterClose, Witness, LeftNow, StuckGone, Overdue;
    if read.session.Some? {
      var c, rs, a, p := inp.c, read.session.value, Account(inp.log, n), Elems(read.ids);
      var u, l := Unjudged(a.rings, a.judged), LedgerOf(a, rs, inp.mono);
      var l1 := AfterProgress(l, p);
      MootVerdicts(c, n, u, MootSessions(u, rs));
      CloseVerdicts(c, ElsewhereOf(a.open, rs), Moved);
      EffectVerdicts(c, n, rs, Effective, SortedSet(RingIds(l.outstanding)), SortedSet(LeftNow(l, p)));
      CloseVerdicts(c, StuckGone(l1.stuck, p, true), Progress);
      IneffectiveVerdicts(c, n, rs, Overdue(c, AfterClose(l1, p).outstanding, true));
    }
  }

  /** When a plan rings an agent: the budget is not spent, and the last ring is at least W ago. */
  predicate MayRingNow(c: Config, times: seq<int>)
  {
    !ExhaustedNow(c, times) && !Coalescing(c, times)
  }

  predicate OnceAt(rings: seq<int>, inp: Input, n: Str)
  {
    rings == [] || (rings == [MonoMs(inp.c)] && MayRingNow(inp.c, TimesOf(inp, n)))
  }

  /** No agent but `n` is rung; and at most one ring, at this cycle's time, and only when the budget and the window allow it. */
  predicate RingsFairly(recs: seq<Rec>, n: Str, inp: Input)
  {
    (forall r :: r in recs && r.Intent? ==> r.i.agent == n) && OnceAt(RingsOf(recs, n), inp, n)
  }

  lemma RingRecsFair(inp: Input, n: Str, session: Str, l: Ledger, p: set<Str>, binding: Str, k: nat)
    ensures RingsFairly(RingRecs(inp, n, session, l, p, binding, k), n, inp)
  {
    hide StuckRecs, Again, AtCap, RingIdsOf, KindsOf, ExhaustedNow, Coalescing;
    var u := Unrung(session, p, inp.rung);
    var S := StuckRecs(inp.c, n, session, SortedSet(AtCap(inp.c, l, p, u)), inp.uid, k);
    StuckVerdicts(inp.c, n, session, SortedSet(AtCap(inp.c, l, p, u)), inp.uid, k);
    NoRings(S, n);
    var r := Intent(IntentOf(inp.c, n, session, binding, l, u, Again(inp.c, l, p, u), inp.uid(k + |S|)));
    RingsConcat(S, [r], n);
    assert [r][..0] == [];
    assert RingsOf([r], n) == [MonoMs(inp.c)];
  }

  lemma FairAfter(x: seq<Rec>, y: seq<Rec>, n: Str, inp: Input)
    requires NoIntents(x) && RingsFairly(y, n, inp)
    ensures RingsFairly(x + y, n, inp)
  {
    NoRings(x, n);
    RingsConcat(x, y, n);
  }

  lemma QuietFair(x: seq<Rec>, n: Str, inp: Input)
    requires NoIntents(x)
    ensures RingsFairly(x, n, inp)
  {
    NoRings(x, n);
  }

  lemma AgentFair(inp: Input, n: Str, read: PendingRead, k: nat)
    ensures RingsFairly(AgentRecs(inp, n, read, k), n, inp)
  {
    hide BoardTo, JudgeOf, RingRecs, LedgerAfter, Decide, OfAgent, AliveOf, RingsFairly, RingsInHour, ExhaustedNow;
    BoardQuiet(inp, n, None, 0, NoMail, k);
    var J, G := JudgeOf(inp, n, read, k), BudgetRecs(inp, n, read.session);
    JudgeVerdicts(inp, n, read, k);
    var m := k + |J + G|;
    BoardQuiet(inp, n, None, 0, NoMail, m);
    QuietFair(BoardTo(inp.c, n, CurBoard(inp, n), None, 0, NoMail, inp.uid, k), n, inp);
    QuietFair(J + G + BoardTo(inp.c, n, CurBoard(inp, n), None, 0, NoMail, inp.uid, m), n, inp);
    MailFair(inp, n, read, m, k);
    FairAfter(J + G, MailRecs(inp, n, read, m, k), n, inp);
  }

  lemma BoardQuiet(inp: Input, n: Str, next: Option<Case>, count: nat, why: BoardClose, k: nat)
    ensures NoIntents(BoardTo(inp.c, n, CurBoard(inp, n), next, count, why, inp.uid, k))
  {
  }

  lemma MailFair(inp: Input, n: Str, read: PendingRead, k: nat, j: nat)
    ensures RingsFairly(MailRecs(inp, n, read, k, j), n, inp)
  {
    hide BoardTo, RingRecs, LedgerAfter, Decide, OfAgent, AliveOf, RingsFairly;
    var bs := OfAgent(inp.bindings, n);
    match Decide(inp, n, read, bs)
    case Hold(_) => QuietFair([], n, inp);
    case Show(next, _, ring) =>
      BoardQuiet(inp, n, next, |read.ids|, Resolved, k);
      var B := BoardTo(inp.c, n, CurBoard(inp, n), next, |read.ids|, Resolved, inp.uid, k);
      QuietFair(B, n, inp);
      if ring && read.session.Some? && AliveOf(bs, inp.ownHost) != [] {
        var rs := read.session.value;
        var l := LedgerAfter(inp, n, rs, Elems(read.ids), j);
        RingRecsFair(inp, n, rs, l, Elems(read.ids), AliveOf(bs, inp.ownHost)[0].id, k + |B|);
        FairAfter(B, RingRecs(inp, n, rs, l, Elems(read.ids), AliveOf(bs, inp.ownHost)[0].id, k + |B|), n, inp);
      }
  }

  // ---------------------------------------------------------------- a whole plan, and any part of it written

  lemma {:induction false} MainFair(inp: Input, names: seq<Str>, n: Str)
    requires Ascending(names)
    ensures OnceAt(RingsOf(MainRecs(inp, names), n), inp, n) && (n !in names ==> RingsOf(MainRecs(inp, names), n) == [])
  {
    hide AgentRecs, OnceAt;
    if names == [] {
      QuietOnce(inp, n);
    } else {
      var p, m := names[..|names| - 1], names[|names| - 1];
      AscendingDistinct(names);
      AscendingPart(names, 0, |names| - 1);
      assert names == p + [m];
      MainFair(inp, p, n);
      if m in inp.inbox {
        var before := MainRecs(inp, p);
        AgentFair(inp, m, inp.inbox[m], |before|);
        FairNext(inp, before, AgentRecs(inp, m, inp.inbox[m], |before|), m, n);
      }
    }
  }

  lemma QuietOnce(inp: Input, n: Str)
    ensures OnceAt(RingsOf([], n), inp, n) && RingsOf([], n) == []
  {
  }

  lemma FairNext(inp: Input, before: seq<Rec>, recs: seq<Rec>, m: Str, n: Str)
    requires RingsFairly(recs, m, inp) && OnceAt(RingsOf(before, n), inp, n) && (m == n ==> RingsOf(before, n) == [])
    ensures OnceAt(RingsOf(before + recs, n), inp, n)
    ensures m != n ==> RingsOf(before + recs, n) == RingsOf(before, n)
  {
    RingsConcat(before, recs, n);
    if m != n { NoRings(recs, n); }
  }

  lemma {:induction false} AllFair(inp: Input, names: seq<Str>, n: Str)
    ensures OnceAt(RingsOf(AllRecs(inp, names), n), inp, n)
  {
    hide AbsentRecs, MainRecs, OnceAt;
    if names == [] {
      MainFair(inp, MainNames(inp), n);
    } else {
      var p, m := AllRecs(inp, names[..|names| - 1]), names[|names| - 1];
      AllFair(inp, names[..|names| - 1], n);
      if m in inp.inbox {
        AbsentQuiet(inp, m, inp.inbox[m], |p|);
        NoRings(AbsentRecs(inp, m, inp.inbox[m], |p|), n);
        RingsConcat(p, AbsentRecs(inp, m, inp.inbox[m], |p|), n);
        assert RingsOf(p, n) + [] == RingsOf(p, n);
      }
    }
  }

  lemma AbsentQuiet(inp: Input, n: Str, read: PendingRead, k: nat)
    ensures NoIntents(AbsentRecs(inp, n, read, k))
  {
    JudgeVerdicts(inp, n, read, k);
  }

  /** However much of a plan is written, it holds at most one ring of an agent, and that one is allowed. */
  lemma PlanFair(inp: Input, n: Str, k: nat)
    requires k <= |Plan(inp)|
    ensures OnceAt(RingsOf(Plan(inp)[..k], n), inp, n)
  {
    hide AllRecs, OnceAt;
    QuietOnce(inp, n);
    AllFair(inp, AbsentNames(inp), n);
    var recs := Plan(inp);
    assert recs == recs[..k] + recs[k..];
    RingsConcat(recs[..k], recs[k..], n);
    OncePrefix(RingsOf(recs[..k], n), RingsOf(recs[k..], n), inp, n);
  }

  lemma OncePrefix(x: seq<int>, y: seq<int>, inp: Input, n: Str)
    requires OnceAt(x + y, inp, n)
    ensures OnceAt(x, inp, n)
  {
    if x != [] { assert |x + y| == 1; assert x == x + y; }
  }

  // ---------------------------------------------------------------- one lifetime

  /** A cycle of a lifetime, and how much of its plan was written. */
  datatype Cycle = Cycle(inp: Input, written: nat)

  /** The agent's rings of a lifetime: those placed at its start, then those its cycles wrote. */
  ghost function RingTimes(prior: seq<int>, cycles: seq<Cycle>, n: Str): seq<int>
    requires forall c :: c in cycles ==> c.written <= |Plan(c.inp)|
  {
    if cycles == [] then prior
    else
      var c := cycles[|cycles| - 1];
      RingTimes(prior, cycles[..|cycles| - 1], n) + RingsOf(Plan(c.inp)[..c.written], n)
  }

  /**
    * One lifetime of the job: the same tunables throughout, a monotonic clock that starts at 0 and never
    * goes back, and `ringMono` advanced by each intent as it is written.
    */
  ghost predicate IsLifetime(prior: seq<int>, cycles: seq<Cycle>, n: Str, windowMs: int, budget: int)
  {
    (forall c :: c in cycles ==>
      c.written <= |Plan(c.inp)| && TunablesOk(c.inp.c) && c.inp.c.windowMs == windowMs && c.inp.c.budget == budget && c.inp.c.now >= 0.0) &&
    (forall j, k :: 0 <= j < k < |cycles| ==> cycles[j].inp.c.now <= cycles[k].inp.c.now) &&
    forall k :: 0 <= k < |cycles| ==> TimesOf(cycles[k].inp, n) == RingTimes(prior, cycles[..k], n)
  }

  /** How many of the first `m` rings lie within the hour that ends at `t`, later than its start. */
  function InHourOf(times: seq<int>, m: nat, t: int): nat
    requires m <= |times|
  {
    if m == 0 then 0 else InHourOf(times, m - 1, t) + if times[m - 1] > t - BUDGET_WINDOW_MS then 1 else 0
  }

  /** From position `from` on, each ring is at least W after every earlier one and within the budget of its hour. */
  predicate Paced(times: seq<int>, from: nat, windowMs: int, budget: int)
  {
    forall k :: from <= k < |times| ==>
      (forall j :: 0 <= j < k ==> times[k] - times[j] >= windowMs) && InHourOf(times, k + 1, times[k]) <= budget
  }

  lemma {:induction false} RoundedHour(c: Config, times: seq<int>, m: nat)
    requires m <= |times| && c.now >= 0.0
    ensures InHourOf(times, m, MonoMs(c)) <= RingsInHour(c, times[..m])
  {
    if m > 0 {
      RoundedHour(c, times, m - 1);
      assert times[..m][..m - 1] == times[..m - 1];
      RoundNear(c.now);
    }
  }

  lemma RoundNear(x: real)
    requires x >= 0.0
    ensures 0 <= Round(x) && x - 0.5 < Round(x) as real <= x + 0.5
  {
  }

  lemma InHourPrefix(times: seq<int>, more: seq<int>, m: nat, t: int)
    requires m <= |times|
    ensures InHourOf(times + more, m, t) == InHourOf(times, m, t)
  {
  }

  lemma PacedNext(times: seq<int>, from: nat, c: Config)
    requires Paced(times, from, c.windowMs, c.budget) && MayRingNow(c, times) && c.now >= 0.0 && TunablesOk(c)
    ensures Paced(times + [MonoMs(c)], from, c.windowMs, c.budget)
  {
    var next := times + [MonoMs(c)];
    RoundNear(c.now);
    RoundedHour(c, times, |times|);
    assert times[..|times|] == times;
    forall k | from <= k < |next|
      ensures forall j :: 0 <= j < k ==> next[k] - next[j] >= c.windowMs
      ensures InHourOf(next, k + 1, next[k]) <= c.budget
    {
      if k < |times| {
        assert next[k] == times[k];
        InHourPrefix(times, [MonoMs(c)], k + 1, times[k]);
      } else {
        InHourPrefix(times, [MonoMs(c)], |times|, next[k]);
        forall j | 0 <= j < k ensures next[k] - next[j] >= c.windowMs
        {
          assert times[j] in times;
        }
      }
    }
  }

  /**
    * In one lifetime, from any start, every ring an agent gets is at least the window after each earlier
    * one, and with it no more than the budget lie in the hour that ends there.
    */
  lemma {:induction false} LifetimePaced(prior: seq<int>, cycles: seq<Cycle>, n: Str, windowMs: int, budget: int)
    requires IsLifetime(prior, cycles, n, windowMs, budget)
    ensures |prior| <= |RingTimes(prior, cycles, n)|
    ensures Paced(RingTimes(prior, cycles, n), |prior|, windowMs, budget)
  {
    hide Plan, MayRingNow, TunablesOk, RingsOf, Paced, TimesOf, IsLifetime;
    if cycles == [] {
      NonePaced(prior, windowMs, budget);
    } else {
      var p, c := cycles[..|cycles| - 1], cycles[|cycles| - 1];
      LastCycle(prior, cycles, n, windowMs, budget);
      LifetimePaced(prior, p, n, windowMs, budget);
      PlanFair(c.inp, n, c.written);
      PacedOwn(RingTimes(prior, p, n), |prior|, c.inp, n, RingsOf(Plan(c.inp)[..c.written], n));
    }
  }

  lemma NonePaced(prior: seq<int>, windowMs: int, budget: int)
    ensures Paced(prior, |prior|, windowMs, budget)
  {
  }

  lemma LastCycle(prior: seq<int>, cycles: seq<Cycle>, n: Str, windowMs: int, budget: int)
    requires IsLifetime(prior, cycles, n, windowMs, budget) && cycles != []
    ensures var p, c := cycles[..|cycles| - 1], cycles[|cycles| - 1];
            (forall d :: d in p ==> d.written <= |Plan(d.inp)|) &&
            IsLifetime(prior, p, n, windowMs, budget) && c.written <= |Plan(c.inp)| && TimesOf(c.inp, n) == RingTimes(prior, p, n) &&
            TunablesOk(c.inp.c) && c.inp.c.windowMs == windowMs && c.inp.c.budget == budget && c.inp.c.now >= 0.0
  {
    hide Plan, RingTimes, TunablesOk;
    var p, c := cycles[..|cycles| - 1], cycles[|cycles| - 1];
    assert c in cycles && forall d :: d in p ==> d in cycles;
    assert forall k :: 0 <= k < |p| ==> p[..k] == cycles[..k];
  }

  lemma PacedOwn(times: seq<int>, from: nat, inp: Input, n: Str, own: seq<int>)
    requires Paced(times, from, inp.c.windowMs, inp.c.budget) && OnceAt(own, inp, n) && TimesOf(inp, n) == times
    requires inp.c.now >= 0.0 && TunablesOk(inp.c)
    ensures Paced(times + own, from, inp.c.windowMs, inp.c.budget)
  {
    hide Paced, MayRingNow;
    if own == [] {
      assert times + own == times;
    } else {
      PacedNext(times, from, inp.c);
    }
  }

  /** So any hour at all of the clock holds at most `budget` of the lifetime's own rings. */
  lemma {:induction false} AnyHour(times: seq<int>, from: nat, windowMs: int, budget: int, m: nat, t: int)
    requires Paced(times, from, windowMs, budget) && windowMs >= 0 && from <= m <= |times| && budget >= 0
    requires forall k :: from <= k < m ==> times[k] <= t
    ensures OwnInHour(times, from, m, t) <= budget
  {
    if m > from {
      OwnBelow(times, from, m, t, times[m - 1]);
      OwnAtMost(times, from, m, times[m - 1]);
    }
  }

  /** The lifetime's own rings among the first `m` that lie in the hour ending at `t`. */
  function OwnInHour(times: seq<int>, from: nat, m: nat, t: int): nat
    requires from <= m <= |times|
  {
    if m == from then 0 else OwnInHour(times, from, m - 1, t) + if times[m - 1] > t - BUDGET_WINDOW_MS then 1 else 0
  }

  lemma {:induction false} OwnBelow(times: seq<int>, from: nat, m: nat, t: int, u: int)
    requires from <= m <= |times| && u <= t
    ensures OwnInHour(times, from, m, t) <= OwnInHour(times, from, m, u)
  {
    if m > from { OwnBelow(times, from, m - 1, t, u); }
  }

  lemma {:induction false} OwnAtMost(times: seq<int>, from: nat, m: nat, t: int)
    requires from <= m <= |times|
    ensures OwnInHour(times, from, m, t) <= InHourOf(times, m, t)
  {
    if m > from { OwnAtMost(times, from, m - 1, t); }
  }

  // ---------------------------------------------------------------- a compaction, then a later restart

  /** How many of these rings count toward the budget at a start. */
  function CountedAt(rings: seq<IntentRec>, lastHeader: Option<int>, startWall: int): nat
  {
    if rings == [] then 0
    else
      var i := rings[|rings| - 1];
      CountedAt(rings[..|rings| - 1], lastHeader, startWall) + if CountsAtStart(i.at, lastHeader, startWall) then 1 else 0
  }

  lemma {:induction false} CountedConcat(x: seq<IntentRec>, y: seq<IntentRec>, lastHeader: Option<int>, startWall: int)
    ensures CountedAt(x + y, lastHeader, startWall) == CountedAt(x, lastHeader, startWall) + CountedAt(y, lastHeader, startWall)
    decreases |y|
  {
    if y == [] {
      assert x + y == x;
    } else {
      CountedConcat(x, y[..|y| - 1], lastHeader, startWall);
      assert (x + y)[..|x + y| - 1] == x + y[..|y| - 1];
    }
  }

  /** When nothing dropped would have counted, the count is the same. */
  lemma {:induction false} DroppedUncounted(rings: seq<IntentRec>, kept: set<Str>, lastHeader: Option<int>, startWall: int)
    requires forall i :: i in rings && i.id !in kept ==> !CountsAtStart(i.at, lastHeader, startWall)
    ensures CountedAt(KeptRings(rings, kept), lastHeader, startWall) == CountedAt(rings, lastHeader, startWall)
  {
    if rings != [] {
      assert rings[|rings| - 1] in rings;
      DroppedUncounted(rings[..|rings| - 1], kept, lastHeader, startWall);
      var p, i := KeptRings(rings[..|rings| - 1], kept), rings[|rings| - 1];
      assert (p + [i])[..|p|] == p;
    }
  }

  lemma {:induction false} AllCount(rings: seq<IntentRec>, lastHeader: Option<int>, startWall: int)
    requires Ahead(lastHeader, startWall)
    ensures CountedAt(rings, lastHeader, startWall) == |rings|
  {
    if rings != [] { AllCount(rings[..|rings| - 1], lastHeader, startWall); }
  }

  /** The kept rings include the last N, or all there are. */
  lemma {:induction false} LastNKept(rings: seq<IntentRec>, kept: set<Str>, m: nat)
    requires m <= |rings| && forall k :: |rings| - m <= k < |rings| ==> rings[k].id in kept
    ensures m <= |KeptRings(rings, kept)| <= |rings|
    ensures m == |rings| ==> KeptRings(rings, kept) == rings
  {
    if m > 0 {
      LastNKept(rings[..|rings| - 1], kept, m - 1);
    } else if rings != [] {
      LastNKept(rings[..|rings| - 1], kept, 0);
    }
  }

  lemma RuleKeeps(log: seq<Rec>, now: map<Str, View>, at: StartAt, n: Str)
    ensures var rings, kept := Account(log, n).rings, KeptIds(log, now, at);
            (forall i :: i in rings && i.id !in kept ==> !CountsAtStart(i.at, at.lastHeader, at.startWall)) &&
            forall k :: 0 <= k < |rings| && |rings| - at.budget <= k ==> rings[k].id in kept
  {
    AccountRingsIn(log, n);
    var rings, kept := Account(log, n).rings, KeptIds(log, now, at);
    hide KeepExtra, CountsAtStart, StillNeeded, JudgedAll;
    forall i | i in rings && i.id !in kept ensures !CountsAtStart(i.at, at.lastHeader, at.startWall)
    {
      assert Intent(i) in log && Intent(i).Intent?;
    }
    forall k | 0 <= k < |rings| && |rings| - at.budget <= k ensures rings[k].id in kept
    {
      assert rings[k] in rings && Intent(rings[k]) in log && Intent(rings[k]).Intent?;
      assert rings[k].id in LastIds(rings, at.budget);
    }
  }

  lemma {:induction false} AccountRingsIn(log: seq<Rec>, n: Str)
    ensures forall i :: i in Account(log, n).rings ==> Intent(i) in log && i.agent == n
  {
    if log != [] {
      AccountRingsIn(log[..|log| - 1], n);
      assert log == log[..|log| - 1] + [log[|log| - 1]];
    }
  }

  /** When the rings a compaction dropped cannot matter to a later start. */
  predicate ClockAllows(at: StartAt, lastHeader: Option<int>, startWall: int)
  {
    startWall >= at.startWall || Ahead(lastHeader, startWall) || Ahead(at.lastHeader, at.startWall)
  }

  /** The log's last header is ahead of the start: a backward jump of the wall clock that shows. */
  predicate Ahead(lastHeader: Option<int>, startWall: int)
  {
    lastHeader.Some? && lastHeader.value > startWall
  }

  /**
    * After a compaction, and any rings written since, a later start counts the same rings toward the budget
    * (up to the budget) as it would have from the full log, as long as its wall clock is not behind the
    * compacting start's without a last header showing a jump.
    */
  lemma BudgetSurvives(log: seq<Rec>, now: map<Str, View>, at: StartAt, n: Str, since: seq<IntentRec>, lastHeader: Option<int>, startWall: int)
    requires ClockAllows(at, lastHeader, startWall)
    ensures Min(at.budget, CountedAt(Account(log, n).rings + since, lastHeader, startWall))
         == Min(at.budget, CountedAt(Account(Compact(log, now, at), n).rings + since, lastHeader, startWall))
  {
    hide KeptIds, CountsAtStart, Pick, Account;
    var rings, kept := Account(log, n).rings, KeptIds(log, now, at);
    assert log[..|log|] == log;
    PickRings(log, now, kept, |log|, n);
    RuleKeeps(log, now, at, n);
    CountedConcat(rings, since, lastHeader, startWall);
    CountedConcat(KeptRings(rings, kept), since, lastHeader, startWall);
    if Ahead(lastHeader, startWall) {
      AllCount(rings, lastHeader, startWall);
      AllCount(KeptRings(rings, kept), lastHeader, startWall);
      LastNKept(rings, kept, if at.budget <= |rings| then at.budget else |rings|);
    } else {
      forall i | i in rings && i.id !in kept ensures !CountsAtStart(i.at, lastHeader, startWall)
      {
        StillOld(i.at, at, lastHeader, startWall);
      }
      DroppedUncounted(rings, kept, lastHeader, startWall);
    }
  }

  lemma StillOld(wall: int, at: StartAt, lastHeader: Option<int>, startWall: int)
    requires !CountsAtStart(wall, at.lastHeader, at.startWall) && ClockAllows(at, lastHeader, startWall) && !Ahead(lastHeader, startWall)
    ensures !CountsAtStart(wall, lastHeader, startWall)
  {
  }

  /** The next start always qualifies: the last header it sees is the compacting start's own. */
  lemma NextStartCounts(log: seq<Rec>, now: map<Str, View>, at: StartAt, n: Str, since: seq<IntentRec>, startWall: int)
    ensures Min(at.budget, CountedAt(Account(log, n).rings + since, Some(at.startWall), startWall))
         == Min(at.budget, CountedAt(Account(Compact(log, now, at), n).rings + since, Some(at.startWall), startWall))
  {
    BudgetSurvives(log, now, at, n, since, Some(at.startWall), startWall);
  }

  lemma {:induction false} NoneCounted(rings: seq<IntentRec>, lastHeader: Option<int>, startWall: int)
    requires forall i :: i in rings ==> !CountsAtStart(i.at, lastHeader, startWall)
    ensures CountedAt(rings, lastHeader, startWall) == 0
  {
    if rings != [] {
      assert rings[|rings| - 1] in rings;
      NoneCounted(rings[..|rings| - 1], lastHeader, startWall);
    }
  }
}
