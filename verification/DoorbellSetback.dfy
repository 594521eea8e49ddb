/** A wall clock set back. */
module DoorbellSetback {
  // Runs whose compaction drops rings that a later start would have counted: rings an hour apart, for messages drained
  // one after another, of one agent with one live window; and when no run loses any.

  import opened Canon
  import opened DoorbellLog
  import opened DoorbellLedger
  import opened DoorbellPlan
  import opened DoorbellAdmit
  import opened DoorbellJudge
  import opened DoorbellSettle
  import opened DoorbellCoherence
  import opened DoorbellAgent
  import opened DoorbellKeep
  import opened DoorbellCompaction
  import opened DoorbellSamePlan
  import opened DoorbellBudget
  import opened DoorbellCalm
  import opened DoorbellRuns
  import opened Wrappers

  // ---------------------------------------------------------------- a cycle that rings one new message

  lemma SortedOne(x: Str)
    ensures SortedSet({x}) == [x]
  {
    AscendingUnique(SortedSet({x}), [x]);
  }

  /** The ledger of an agent whose one outstanding ring, if any, was for `gone`, drained since. */
  predicate Simple(l: Ledger, gone: Option<(Str, Str)>, p: set<Str>)
  {
    RingIds(l.outstanding) == (if gone.Some? then {gone.value.0} else {}) && (gone == None ==> l.outstanding == []) &&
    LeftNow(l, p) == (if gone.Some? then {gone.value.1} else {}) && l.counter == 0 && l.unresponsive == None && l.stuck == []
  }

  function Drained(c: Config, n: Str, rs: Str, gone: Option<(Str, Str)>): seq<Rec>
  {
    if gone.Some? then [Effect(EffectRec(c.at, n, rs, Effective, [gone.value.0], [gone.value.1]))] else []
  }

  lemma SimpleSettles(c: Config, n: Str, rs: Str, l: Ledger, gone: Option<(Str, Str)>, p: set<Str>)
    requires Simple(l, gone, p)
    ensures SettleRecs(c, n, rs, l, p) == Drained(c, n, rs, gone)
    ensures var s := Settled(c, l, p); s.counter == 0 && s.unresponsive == None && s.last == l.last && s.count == l.count
  {
    if gone.Some? {
      SortedOne(gone.value.0);
      SortedOne(gone.value.1);
    }
    hide SortedSet, LeftNow;
    assert Overdue(c, [], true) == [] && StuckGone([], p, true) == [] && Overdue(c, [], false) == [];
  }

  lemma SimpleJudge(inp: Input, n: Str, rs: Str, p: set<Str>, gone: Option<(Str, Str)>, k: nat)
    requires OnlyMine(Account(inp.log, n), rs) && Simple(LedgerOf(Account(inp.log, n), rs, inp.mono), gone, p)
    ensures var a := Account(inp.log, n);
            JudgeRecs(inp.c, n, rs, MootRecs(inp.c, n, a, rs), LedgerOf(a, rs, inp.mono), p, inp.uid, k) == Drained(inp.c, n, rs, gone)
    ensures var l := LedgerAfter(inp, n, rs, p, k); l.unresponsive == None && l.last == LedgerOf(Account(inp.log, n), rs, inp.mono).last
  {
    hide OnlyMine, Simple, SettleRecs, Settled, MootRecs, LedgerOf, Witness, Drained;
    var a := Account(inp.log, n);
    OnlyMineMoot(inp.c, n, a, rs);
    SimpleSettles(inp.c, n, rs, LedgerOf(a, rs, inp.mono), gone, p);
    assert [] + Drained(inp.c, n, rs, gone) + [] == Drained(inp.c, n, rs, gone);
  }

  /** A cycle's input for one agent with one live window and one new message. */
  ghost predicate OneAgent(inp: Input, n: Str, rs: Str, binding: Str, msg: Str)
  {
    inp.ownHost != "" && inp.bindings == [Binding(binding, Some(n), inp.ownHost, Alive)] && inp.mail == Some([n]) && inp.boardOpen == map[] &&
    inp.inbox == map[n := PendingRead(true, Some(rs), [msg])] && inp.watchFit == None && n in inp.actuated && inp.exhausted == {} &&
    (rs, msg) !in inp.rung && inp.c.budget >= 1 && inp.c.windowMs <= BUDGET_WINDOW_MS && LedgerAgents(inp.log) <= {n} &&
    forall t :: t in TimesOf(inp, n) ==> t as real <= inp.c.now - BUDGET_WINDOW_MS as real
  }

  lemma {:induction false} NoneInHour(c: Config, times: seq<int>)
    requires forall t :: t in times ==> t as real <= c.now - BUDGET_WINDOW_MS as real
    ensures RingsInHour(c, times) == 0
  {
    if times != [] {
      var p := times[..|times| - 1];
      assert times[|times| - 1] in times;
      forall t | t in p ensures t as real <= c.now - BUDGET_WINDOW_MS as real { assert t in times; }
      NoneInHour(c, times[..|times| - 1]);
    }
  }

  lemma FreeToRing(inp: Input, n: Str, rs: Str, binding: Str, msg: Str)
    requires OneAgent(inp, n, rs, binding, msg)
    ensures !ExhaustedNow(inp.c, TimesOf(inp, n)) && !Coalescing(inp.c, TimesOf(inp, n)) && BudgetRecs(inp, n, Some(rs)) == []
  {
    NoneInHour(inp.c, TimesOf(inp, n));
    hide TimesOf, RingsInHour, LedgerAgents;
  }

  lemma OneBinding(b: Binding, n: Str)
    requires b.agent == Some(n) && b.anchor == Alive
    ensures OfAgent([b], n) == [b] && AliveOf([b], b.host) == [b] && NotDeadOf([b], b.host) == [b]
  {
    assert [b][..0] == [];
  }

  lemma OneWindow(inp: Input, n: Str, rs: Str, binding: Str, msg: Str)
    requires OneAgent(inp, n, rs, binding, msg)
    ensures AliveOf(OfAgent(inp.bindings, n), inp.ownHost) == inp.bindings
    ensures Decide(inp, n, inp.inbox[n], OfAgent(inp.bindings, n)) == Show(None, None, true)
    ensures CurBoard(inp, n) == None
  {
    hide TimesOf, LedgerAgents, BindingIds, OfAgent, AliveOf, NotDeadOf;
    OneBinding(inp.bindings[0], n);
  }

  lemma OneName(inp: Input, n: Str, rs: Str, binding: Str, msg: Str)
    requires OneAgent(inp, n, rs, binding, msg)
    ensures MainNames(inp) == [n] && AbsentNames(inp) == []
  {
    hide TimesOf;
    SortedOne(n);
    assert (set b | b in inp.bindings && b.agent.Some? :: b.agent.value) == {n} by {
      assert inp.bindings[0] in inp.bindings;
    }
    assert MainNames(inp) == [n];
    assert (set m | m in LedgerAgents(inp.log) && !(m in MainNames(inp) && m in inp.inbox)) == {};
  }

  /** The ring of that message. */
  function NewRing(c: Config, n: Str, rs: Str, binding: Str, msg: Str, id: Str): IntentRec
  {
    IntentRec(c.at, MonoMs(c), id, n, binding, false, rs, [msg], [New])
  }

  lemma RingsNew(inp: Input, n: Str, rs: Str, binding: Str, msg: Str, l: Ledger, k: nat)
    requires OneAgent(inp, n, rs, binding, msg) && l.unresponsive == None
    ensures RingRecs(inp, n, rs, l, {msg}, binding, k) == [Intent(NewRing(inp.c, n, rs, binding, msg, inp.uid(k)))]
  {
    FreeToRing(inp, n, rs, binding, msg);
    SortedOne(msg);
    hide ExhaustedNow, Coalescing, TimesOf, Due, CountOf, HasStuck, LedgerAgents, MonoMs;
    var u := Unrung(rs, {msg}, inp.rung);
    assert u == {msg};
    assert Again(inp.c, l, {msg}, u) == {} && AtCap(inp.c, l, {msg}, u) == {};
    assert u + {} == {msg};
    assert SortedSet({}) == [];
    assert KindsOf([msg], u) == [New];
  }

  /** The whole plan: the earlier ring was effective, and the new message is rung. */
  lemma OneRing(inp: Input, n: Str, rs: Str, binding: Str, msg: Str, gone: Option<(Str, Str)>)
    requires OneAgent(inp, n, rs, binding, msg)
    requires OnlyMine(Account(inp.log, n), rs) && Simple(LedgerOf(Account(inp.log, n), rs, inp.mono), gone, {msg})
    ensures var E := Drained(inp.c, n, rs, gone);
            Plan(inp) == E + [Intent(NewRing(inp.c, n, rs, binding, msg, inp.uid(|E|)))]
  {
    hide OnlyMine, Simple, LedgerOf, LedgerAfter, JudgeRecs, Drained, RingRecs, Decide, OfAgent, AliveOf, MainNames, AbsentNames, BudgetRecs,
      TimesOf, LedgerAgents, CurBoard, NewRing, MootRecs;
    var read := inp.inbox[n];
    var E := Drained(inp.c, n, rs, gone);
    assert Elems([msg]) == {msg};
    SimpleJudge(inp, n, rs, {msg}, gone, 0);
    assert JudgeOf(inp, n, read, 0) == E;
    FreeToRing(inp, n, rs, binding, msg);
    OneWindow(inp, n, rs, binding, msg);
    OneName(inp, n, rs, binding, msg);
    RingsNew(inp, n, rs, binding, msg, LedgerAfter(inp, n, rs, {msg}, 0), |E|);
    var R := [Intent(NewRing(inp.c, n, rs, binding, msg, inp.uid(|E|)))];
    assert E + [] == E && [] + R == R;
    assert BoardTo(inp.c, n, None, None, |read.ids|, Resolved, inp.uid, |E|) == [];
    assert AgentRecs(inp, n, read, 0) == E + R;
    assert [n][..0] == [];
    assert MainRecs(inp, []) == [];
    assert MainRecs(inp, [n]) == [] + (E + R);
    assert AllRecs(inp, []) == MainRecs(inp, MainNames(inp));
  }

  // ---------------------------------------------------------------- ids the schema accepts

  function Hex(d: nat): char
    requires d < 16
  {
    "0123456789abcdef"[d]
  }

  lemma HexIs(d: nat)
    requires d < 16
    ensures LowerHex(Hex(d))
    ensures forall e: nat :: e < 16 && Hex(e) == Hex(d) ==> e == d
  {
  }

  /** A UUID ending in `k`. */
  function Uid(k: nat): (s: Str)
    requires k < 256
    ensures |s| == 36
  {
    seq(36, p requires 0 <= p < 36 =>
      if p in {8, 13, 18, 23} then '-' else if p == 14 then '4' else if p == 19 then '8'
      else if p == 34 then Hex(k / 16) else if p == 35 then Hex(k % 16) else '0')
  }

  lemma UidIs(k: nat)
    requires k < 256
    ensures Uuid(Uid(k)) && BoundedId(Uid(k))
  {
    HexIs(k / 16);
    HexIs(k % 16);
    hide Hex;
  }

  lemma UidOnce(j: nat, k: nat)
    requires j < 256 && k < 256 && Uid(j) == Uid(k)
    ensures j == k
  {
    assert Uid(j)[34] == Uid(k)[34] && Uid(j)[35] == Uid(k)[35];
    HexIs(k / 16);
    HexIs(k % 16);
    hide Hex;
  }

  function Zeros(n: nat): (s: Str)
    ensures |s| == n && forall k :: 0 <= k < n ==> s[k] == '0'
  {
    if n == 0 then "" else Zeros(n - 1) + "0"
  }

  const AGENT: Str := "agent"
  const WINDOW: Str := "window"
  const SESSION: Str := Zeros(64)

  function Msg(k: nat): Str
    requires k < 128
  {
    Uid(128 + k)
  }

  // ---------------------------------------------------------------- the lifetime before the restarts

  /**
    * The lifetime that rings: its header, the wall time of its first ring, that of its last, and the number of rings
    * after the first, an hour apart on a clock that was set back in between.
    */
  datatype Life = Life(header: int, first: int, last: int, more: nat)

  predicate LifeOk(f: Life)
  {
    f.more <= MAX_BUDGET && IsoMs(f.header) && IsoMs(f.first) && IsoMs(f.last) && IsoMs(f.last - MAX_BUDGET * BUDGET_WINDOW_MS)
  }

  function WallOf(f: Life, k: nat): int
  {
    if k == 0 then f.first else f.last - (f.more - k) * BUDGET_WINDOW_MS
  }

  function ClockOf(f: Life, budget: nat, k: nat): Config
  {
    Config(WallOf(f, k), (k * BUDGET_WINDOW_MS) as real, MIN_WINDOW_MS, budget, MAX_HORIZON_MS, None)
  }

  function RingAt(f: Life, k: nat): IntentRec
    requires k < 128
  {
    IntentRec(WallOf(f, k), k * BUDGET_WINDOW_MS, Uid(k), AGENT, WINDOW, false, SESSION, [Msg(k)], [New])
  }

  /** What the cycle of the `k`-th ring writes: that the one before was effective, and the ring. */
  function CycleRecs(f: Life, k: nat): seq<Rec>
    requires k < 128
  {
    (if k == 0 then [] else [Effect(EffectRec(WallOf(f, k), AGENT, SESSION, Effective, [Uid(k - 1)], [Msg(k - 1)]))]) + [Intent(RingAt(f, k))]
  }

  /** The log after `k` rings. */
  function LifeLog(f: Life, k: nat): seq<Rec>
    requires k <= 128
  {
    if k == 0 then [Header(f.header, 1)] else LifeLog(f, k - 1) + CycleRecs(f, k - 1)
  }

  lemma {:induction false} LifeMembers(f: Life, k: nat)
    requires k <= 128
    ensures forall r :: r in LifeLog(f, k) ==>
              r == Header(f.header, 1) || (exists j: nat :: j < k && r == Intent(RingAt(f, j))) ||
              (exists j: nat :: 0 < j < k && r == Effect(EffectRec(WallOf(f, j), AGENT, SESSION, Effective, [Uid(j - 1)], [Msg(j - 1)])))
  {
    hide RingAt, WallOf, Uid, Msg;
    if k > 0 { LifeMembers(f, k - 1); }
  }

  lemma {:induction false} LifeHas(f: Life, k: nat, j: nat)
    requires k <= 128 && 0 < j < k
    ensures Effect(EffectRec(WallOf(f, j), AGENT, SESSION, Effective, [Uid(j - 1)], [Msg(j - 1)])) in LifeLog(f, k)
  {
    hide RingAt, WallOf, Uid, Msg;
    if j < k - 1 { LifeHas(f, k - 1, j); }
  }

  lemma LifeRecordsOk(f: Life)
    requires LifeOk(f)
    ensures forall r :: r in LifeLog(f, f.more + 1) ==> RecordOk(r)
  {
    LifeMembers(f, f.more + 1);
    hide LifeLog;
    forall r | r in LifeLog(f, f.more + 1) ensures RecordOk(r)
    {
      if j: nat :| j < f.more + 1 && r == Intent(RingAt(f, j)) {
        RingOkAt(f, j);
      } else if j: nat :| 0 < j < f.more + 1 && r == Effect(EffectRec(WallOf(f, j), AGENT, SESSION, Effective, [Uid(j - 1)], [Msg(j - 1)])) {
        EffectOkAt(f, j);
      }
    }
  }

  lemma WallOk(f: Life, k: nat)
    requires LifeOk(f) && k <= f.more
    ensures IsoMs(WallOf(f, k))
  {
  }

  lemma RingOkAt(f: Life, k: nat)
    requires LifeOk(f) && k <= f.more
    ensures RecordOk(Intent(RingAt(f, k)))
  {
    WallOk(f, k);
    UidIs(k);
    UidIs(128 + k);
    hide Uid, Uuid, BoundedId, IsoMs, WallOf;
    NamesOk();
    hide AgentName, Digest;
    assert IdSetOk([Msg(k)], 1, MAX_IDS);
  }

  lemma NamesOk()
    ensures BoundedId(WINDOW) && AgentName(AGENT) && Digest(SESSION)
  {
  }

  lemma EffectOkAt(f: Life, k: nat)
    requires LifeOk(f) && 0 < k <= f.more
    ensures RecordOk(Effect(EffectRec(WallOf(f, k), AGENT, SESSION, Effective, [Uid(k - 1)], [Msg(k - 1)])))
  {
    WallOk(f, k);
    UidIs(k - 1);
    UidIs(127 + k);
    hide Uid, Uuid, BoundedId, IsoMs, WallOf;
    NamesOk();
    hide AgentName, Digest;
  }

  // ---------------------------------------------------------------- what its log says

  function RingsAt(f: Life, k: nat): seq<IntentRec>
    requires k <= 128
  {
    if k == 0 then [] else RingsAt(f, k - 1) + [RingAt(f, k - 1)]
  }

  function JudgedAt(k: nat): set<Str>
    requires k <= 128
  {
    if k < 2 then {} else JudgedAt(k - 1) + {Uid(k - 2)}
  }

  function LeftAt(k: nat): set<(Str, Str)>
    requires k <= 128
  {
    if k < 2 then {} else LeftAt(k - 1) + {(SESSION, Msg(k - 2))}
  }

  /** The agent's account: every ring but the last was effective. */
  function AcctAt(f: Life, k: nat): Acct
    requires k <= 128
  {
    Acct(RingsAt(f, k), JudgedAt(k), LeftAt(k), if k < 2 then map[] else map[SESSION := 0], [])
  }

  lemma {:induction false} RingsMembers(f: Life, k: nat)
    requires k <= 128
    ensures |RingsAt(f, k)| == k && forall j :: 0 <= j < k ==> RingsAt(f, k)[j] == RingAt(f, j)
  {
    hide RingAt;
    if k > 0 { RingsMembers(f, k - 1); }
  }

  lemma {:induction false} JudgedMembers(k: nat)
    requires k <= 128
    ensures forall x :: x in JudgedAt(k) <==> exists j: nat :: j + 1 < k && x == Uid(j)
    ensures forall x :: x in LeftAt(k) <==> exists j: nat :: j + 1 < k && x == (SESSION, Msg(j))
  {
    hide Uid, Msg;
    if k >= 2 {
      JudgedMembers(k - 1);
      assert Uid(k - 2) in JudgedAt(k) && (SESSION, Msg(k - 2)) in LeftAt(k);
      forall x ensures x in JudgedAt(k) <==> exists j: nat :: j + 1 < k && x == Uid(j)
      {
        if j: nat :| j + 1 < k && x == Uid(j) { assert j + 1 < k - 1 || j == k - 2; }
      }
      forall x ensures x in LeftAt(k) <==> exists j: nat :: j + 1 < k && x == (SESSION, Msg(j))
      {
        if j: nat :| j + 1 < k && x == (SESSION, Msg(j)) { assert j + 1 < k - 1 || j == k - 2; }
      }
    }
  }

  lemma StepAt(f: Life, k: nat)
    requires k < 128
    ensures Run(AcctAt(f, k), CycleRecs(f, k), AGENT) == AcctAt(f, k + 1)
  {
    hide RingAt, WallOf, Uid, Msg;
    var a, recs := AcctAt(f, k), CycleRecs(f, k);
    if k == 0 {
      assert recs == [Intent(RingAt(f, 0))] && recs[..0] == [];
      RingAgent(f, 0);
    } else {
      var e := Effect(EffectRec(WallOf(f, k), AGENT, SESSION, Effective, [Uid(k - 1)], [Msg(k - 1)]));
      assert recs == [e, Intent(RingAt(f, k))] && recs[..1] == [e] && [e][..0] == [];
      assert Run(a, recs, AGENT) == Step(Run(a, [e], AGENT), Intent(RingAt(f, k)), AGENT);
      assert Run(a, [e], AGENT) == Step(a, e, AGENT);
      assert Elems([Uid(k - 1)]) == {Uid(k - 1)} && Pairs(SESSION, [Msg(k - 1)]) == {(SESSION, Msg(k - 1))};
      RingAgent(f, k);
    }
  }

  lemma RingAgent(f: Life, k: nat)
    requires k < 128
    ensures var i := RingAt(f, k); i.agent == AGENT && !i.during && i.session == SESSION && i.ids == [Msg(k)] && i.id == Uid(k) && i.at == WallOf(f, k)
  {
  }

  lemma {:induction false} AccountAt(f: Life, k: nat)
    requires k <= 128
    ensures Account(LifeLog(f, k), AGENT) == AcctAt(f, k)
  {
    hide CycleRecs, Run, AcctAt;
    if k == 0 {
      NoneYet(f);
    } else {
      AccountAt(f, k - 1);
      RunConcat(NOTHING, LifeLog(f, k - 1), CycleRecs(f, k - 1), AGENT);
      StepAt(f, k - 1);
    }
  }

  lemma NoneYet(f: Life)
    ensures Account([Header(f.header, 1)], AGENT) == AcctAt(f, 0)
  {
    RunFrame(NOTHING, [Header(f.header, 1)], AGENT);
  }

  function GoneAt(k: nat): Option<(Str, Str)>
    requires k < 128
  {
    if k == 0 then None else Some((Uid(k - 1), Msg(k - 1)))
  }

  lemma RungAt(f: Life, k: nat)
    requires k < 128
    ensures forall id :: id in RungIds(RingsAt(f, k), SESSION) <==> exists j: nat :: j < k && id == Msg(j)
  {
    hide RingAt, Msg;
    RingsMembers(f, k);
    RungIdsMembers(RingsAt(f, k), SESSION);
    forall id ensures id in RungIds(RingsAt(f, k), SESSION) <==> exists j: nat :: j < k && id == Msg(j)
    {
      if id in RungIds(RingsAt(f, k), SESSION) {
        var i :| i in RingsAt(f, k) && i.session == SESSION && id in i.ids;
        var j :| 0 <= j < k && RingsAt(f, k)[j] == i;
        RingAgent(f, j);
        assert id == Msg(j);
      }
      if j: nat :| j < k && id == Msg(j) {
        RingAgent(f, j);
        assert RingsAt(f, k)[j] in RingsAt(f, k) && id in RingsAt(f, k)[j].ids;
      }
    }
  }

  lemma LeftNowAt(f: Life, k: nat)
    requires k < 128
    ensures RungIds(RingsAt(f, k), SESSION) - LeftOf(LeftAt(k), SESSION) - {Msg(k)} == if k == 0 then {} else {Msg(k - 1)}
  {
    RungAt(f, k);
    JudgedMembers(k);
    hide RingAt, Msg, RungIds, LeftAt, JudgedAt, RingsAt;
    assert forall j: nat :: j + 1 < k ==> (SESSION, Msg(j)) in LeftAt(k);
    forall id ensures id in RungIds(RingsAt(f, k), SESSION) - LeftOf(LeftAt(k), SESSION) - {Msg(k)} <==> k > 0 && id == Msg(k - 1)
    {
      if k > 0 && id == Msg(k - 1) {
        MsgOnce(k - 1, k);
        if (SESSION, id) in LeftAt(k) {
          var j: nat :| j + 1 < k && (SESSION, id) == (SESSION, Msg(j));
          MsgOnce(k - 1, j);
        }
      }
      if id in RungIds(RingsAt(f, k), SESSION) - LeftOf(LeftAt(k), SESSION) - {Msg(k)} {
        var j: nat :| j < k && id == Msg(j);
      }
    }
  }

  lemma MsgOnce(j: nat, k: nat)
    requires j < 128 && k < 128
    ensures Msg(j) == Msg(k) ==> j == k
  {
    if Msg(j) == Msg(k) { UidOnce(128 + j, 128 + k); }
  }

  /** Of its rings only the last is not judged. */
  lemma UnjudgedAt(f: Life, k: nat)
    requires k <= 128
    ensures forall i :: i in RingsAt(f, k) && i.id !in JudgedAt(k) <==> k > 0 && i == RingAt(f, k - 1)
  {
    RingsMembers(f, k);
    JudgedMembers(k);
    hide RingAt, Uid, RingsAt, JudgedAt;
    assert forall j: nat :: j + 1 < k ==> Uid(j) in JudgedAt(k);
    if k > 0 {
      RingAgent(f, k - 1);
      assert RingsAt(f, k)[k - 1] in RingsAt(f, k);
      if Uid(k - 1) in JudgedAt(k) {
        var j: nat :| j + 1 < k && Uid(k - 1) == Uid(j);
        UidOnce(j, k - 1);
      }
    }
    forall i | i in RingsAt(f, k) && i.id !in JudgedAt(k) ensures k > 0 && i == RingAt(f, k - 1)
    {
      var j :| 0 <= j < k && RingsAt(f, k)[j] == i;
      RingAgent(f, j);
    }
  }

  lemma OutstandingAt(f: Life, k: nat)
    requires k < 128
    ensures RingIds(SortRings(Unjudged(OfSession(RingsAt(f, k), SESSION), JudgedAt(k)), map[])) == if k == 0 then {} else {Uid(k - 1)}
    ensures k == 0 ==> SortRings(Unjudged(OfSession(RingsAt(f, k), SESSION), JudgedAt(k)), map[]) == []
  {
    if k > 0 {
      var u := Unjudged(OfSession(RingsAt(f, k), SESSION), JudgedAt(k));
      UnjudgedAt(f, k);
      OfSessionMembers(RingsAt(f, k), SESSION);
      UnjudgedMembers(OfSession(RingsAt(f, k), SESSION), JudgedAt(k));
      SortRingsMembers(u, map[]);
      hide RingAt, Uid, RingsAt, JudgedAt, Unjudged, OfSession, SortRings;
      RingAgent(f, k - 1);
      assert RingAt(f, k - 1) in u;
      assert Ring(Uid(k - 1), MonoOf(map[], Uid(k - 1))) in SortRings(u, map[]);
    }
  }

  lemma SimpleAt(f: Life, k: nat)
    requires k < 128
    ensures OnlyMine(AcctAt(f, k), SESSION) && Simple(LedgerOf(AcctAt(f, k), SESSION, map[]), GoneAt(k), {Msg(k)})
  {
    hide RingAt, Uid, Msg, RingsAt, JudgedAt, LeftAt, SortRings, Unjudged, OfSession, RungIds, Covers, LastRing, LeftOf;
    LeftNowAt(f, k);
    OutstandingAt(f, k);
    RingsMembers(f, k);
    forall i | i in RingsAt(f, k) ensures i.session == SESSION
    {
      var j :| 0 <= j < k && RingsAt(f, k)[j] == i;
      RingAgent(f, j);
    }
  }

  // ---------------------------------------------------------------- its cycles

  function TimesAt(k: nat): seq<int>
  {
    if k == 0 then [] else TimesAt(k - 1) + [(k - 1) * BUDGET_WINDOW_MS]
  }

  lemma {:induction false} TimesBefore(k: nat)
    ensures forall t :: t in TimesAt(k) ==> t <= (k - 1) * BUDGET_WINDOW_MS
  {
    if k > 0 { TimesBefore(k - 1); }
  }

  /** The ids the `k`-th cycle draws: its ring's is a UUID, the rest are not used. */
  function DrawAt(k: nat): nat -> Str
    requires k < 128
  {
    (j: nat) => if j == (if k == 0 then 0 else 1) then Uid(k) else Zeros(1000 + j)
  }

  function InputAt(f: Life, budget: nat, k: nat): Input
    requires k < 128
  {
    Input(ClockOf(f, budget, k), [Binding(WINDOW, Some(AGENT), "host", Alive)], "host",
          map[AGENT := PendingRead(true, Some(SESSION), [Msg(k)])], Replay(LifeLog(f, k)).rung, map[AGENT := TimesAt(k)], {}, Some([AGENT]),
          Replay(LifeLog(f, k)).boardOpen, None, map[], {AGENT}, LifeLog(f, k), map[], DrawAt(k))
  }

  lemma {:induction false} NoBoards(log: seq<Rec>)
    requires forall r :: r in log ==> !r.Board?
    ensures Replay(log).boardOpen == map[]
  {
    if log != [] {
      assert log[|log| - 1] in log;
      NoBoards(log[..|log| - 1]);
    }
  }

  lemma PlainLog(f: Life, k: nat)
    requires k <= 128
    ensures Replay(LifeLog(f, k)).boardOpen == map[] && LedgerAgents(LifeLog(f, k)) <= {AGENT}
  {
    LifeMembers(f, k);
    hide LifeLog, RingAt, WallOf, Uid, Msg;
    forall r | r in LifeLog(f, k) ensures !r.Board? && (r.Intent? ==> r.i.agent == AGENT)
    {
      if j: nat :| j < k && r == Intent(RingAt(f, j)) { RingAgent(f, j); }
    }
    NoBoards(LifeLog(f, k));
  }

  lemma NotYetRung(f: Life, k: nat)
    requires k < 128
    ensures (SESSION, Msg(k)) !in Replay(LifeLog(f, k)).rung
  {
    ReplayRung(LifeLog(f, k));
    LifeMembers(f, k);
    hide LifeLog, RingAt, WallOf, Uid, Msg, Replay;
    if (SESSION, Msg(k)) in Replay(LifeLog(f, k)).rung {
      var r :| r in LifeLog(f, k) && r.Intent? && r.i.session == SESSION && Msg(k) in r.i.ids;
      var j: nat :| j < k && r == Intent(RingAt(f, j));
      RingAgent(f, j);
      MsgOnce(j, k);
    }
  }

  lemma OneAgentAt(f: Life, budget: nat, k: nat)
    requires k < 128 && budget >= 1
    ensures OneAgent(InputAt(f, budget, k), AGENT, SESSION, WINDOW, Msg(k))
  {
    PlainLog(f, k);
    NotYetRung(f, k);
    TimesBefore(k);
    hide LifeLog, Replay, LedgerAgents, Msg, DrawAt, TimesAt, WallOf;
  }

  lemma RoundWhole(k: nat)
    ensures MonoMs(Config(0, (k * BUDGET_WINDOW_MS) as real, 0, 0, 0, None)) == k * BUDGET_WINDOW_MS
  {
  }

  lemma ClockMono(f: Life, budget: nat, k: nat)
    ensures MonoMs(ClockOf(f, budget, k)) == k * BUDGET_WINDOW_MS && ClockOf(f, budget, k).at == WallOf(f, k)
  {
    RoundWhole(k);
  }

  /** The cycle's whole plan. */
  lemma PlanAt(f: Life, budget: nat, k: nat)
    requires k < 128 && budget >= 1
    ensures Plan(InputAt(f, budget, k)) == CycleRecs(f, k)
  {
    hide Plan, LifeLog, AcctAt, OneAgent, Simple, OnlyMine, LedgerOf, Replay, Uid, Msg, WallOf, ClockOf, MonoMs, TimesAt, DrawAt, Zeros;
    var inp := InputAt(f, budget, k);
    OneAgentAt(f, budget, k);
    AccountAt(f, k);
    SimpleAt(f, k);
    OneRing(inp, AGENT, SESSION, WINDOW, Msg(k), GoneAt(k));
    ClockMono(f, budget, k);
    var E := Drained(inp.c, AGENT, SESSION, GoneAt(k));
    assert |E| == if k == 0 then 0 else 1;
    DrawsUid(k);
  }

  lemma DrawsUid(k: nat)
    requires k < 128
    ensures DrawAt(k)(if k == 0 then 0 else 1) == Uid(k)
  {
  }

  // ---------------------------------------------------------------- the run

  function EverAt(k: nat): set<Str>
    requires k < 128
  {
    if k == 0 then {Msg(0)} else EverAt(k - 1) + {Msg(k)}
  }

  lemma {:induction false} EverMembers(k: nat, j: nat)
    requires k < j < 128
    ensures Msg(j) !in EverAt(k)
  {
    hide Msg;
    MsgOnce(k, j);
    if k > 0 { EverMembers(k - 1, j); }
  }

  /** The world when the `k`-th message is pending, every earlier one drained. */
  function EnvAt(k: nat): Str -> AgentEnv
    requires k < 128
  {
    (n: Str) => if n == AGENT then AgentEnv(Some(SESSION), {Msg(k)}, {SESSION}, EverAt(k)) else AgentEnv(None, {}, {}, {})
  }

  function StateAt(f: Life, k: nat, e: nat): State
    requires k <= 128 && e < 128
  {
    State(LifeLog(f, k), LifeLog(f, k), EnvAt(e))
  }

  lemma NewIdsAt(f: Life, k: nat)
    requires k < 128
    ensures Supply(DrawAt(k)) && forall j: nat :: NewId(LifeLog(f, k), DrawAt(k)(j))
  {
    LifeMembers(f, k);
    hide LifeLog, Uid, WallOf, Msg, RingAt;
    forall j: nat ensures NewId(LifeLog(f, k), DrawAt(k)(j))
    {
      var id := DrawAt(k)(j);
      forall r | r in LifeLog(f, k) ensures (r.Intent? ==> r.i.id != id) && (r.Effect? ==> id !in r.e.intents) && (r.Escalation? ==> r.x.id != id)
      {
        if i: nat :| i < k && r == Intent(RingAt(f, i)) {
          RingAgent(f, i);
          NewUid(k, j, i);
        } else if i: nat :| 0 < i < k && r == Effect(EffectRec(WallOf(f, i), AGENT, SESSION, Effective, [Uid(i - 1)], [Msg(i - 1)])) {
          NewUid(k, j, i - 1);
        }
      }
    }
  }

  lemma NewUid(k: nat, j: nat, i: nat)
    requires i < k < 128
    ensures DrawAt(k)(j) != Uid(i)
  {
    hide Zeros;
    if DrawAt(k)(j) == Uid(i) { UidOnce(i, k); }
  }

  lemma ReadsAt(f: Life, budget: nat, k: nat)
    requires k < 128
    ensures Reads(StateAt(f, k, k), InputAt(f, budget, k))
  {
    NewIdsAt(f, k);
    hide LifeLog, Replay, Msg, DrawAt, WallOf, NewId, Supply, EverAt, TimesAt;
    assert Elems([Msg(k)]) == {Msg(k)};
  }

  lemma CycleAt(f: Life, budget: nat, k: nat)
    requires k < 128 && budget >= 1
    ensures CycleStep(StateAt(f, k, k), StateAt(f, k + 1, k))
  {
    var inp := InputAt(f, budget, k);
    ReadsAt(f, budget, k);
    PlanAt(f, budget, k);
    hide Plan, Reads, CycleRecs, InputAt, EnvAt;
    assert Plan(inp)[..|Plan(inp)|] == Plan(inp);
    assert LifeLog(f, k + 1) == LifeLog(f, k) + CycleRecs(f, k);
  }

  lemma WorldAt(f: Life, k: nat)
    requires 0 < k < 128
    ensures WorldStep(StateAt(f, k, k - 1), StateAt(f, k, k))
  {
    EverMembers(k - 1, k);
    hide LifeLog, Msg;
    EnvsAt(k);
    EverHas(k);
  }

  lemma EverHas(k: nat)
    requires k < 128
    ensures Msg(k) in EverAt(k)
  {
  }

  lemma EnvsAt(k: nat)
    requires k < 128
    ensures EnvsOk(EnvAt(k))
  {
    EverHas(k);
    hide Msg, EverAt;
  }

  lemma {:induction false} LifeRun(f: Life, budget: nat, k: nat) returns (run: seq<State>)
    requires k < 128 && budget >= 1
    ensures IsRun(run) && run[|run| - 1] == StateAt(f, k + 1, k)
  {
    hide StateAt, Initial, WorldStep, CycleStep, NoteStep, CompactStep;
    if k == 0 {
      var s0 := State([], [], EnvAt(0));
      BornAt(f);
      CycleAt(f, budget, 0);
      run := [s0, StateAt(f, 0, 0), StateAt(f, 1, 0)];
    } else {
      var p := LifeRun(f, budget, k - 1);
      WorldAt(f, k);
      CycleAt(f, budget, k);
      run := p + [StateAt(f, k, k), StateAt(f, k + 1, k)];
    }
  }

  lemma BornAt(f: Life)
    ensures var s0 := State([], [], EnvAt(0)); Initial(s0) && NoteStep(s0, StateAt(f, 0, 0))
  {
    EnvsAt(0);
    hide EnvAt;
    var r := Header(f.header, 1);
    assert [] + [r] == [r];
  }

  // ---------------------------------------------------------------- and then the restarts

  lemma {:induction false} HeaderKept(log: seq<Rec>, recs: seq<Rec>)
    requires forall r :: r in recs ==> !r.Header?
    ensures Replay(log + recs).lastHeader == Replay(log).lastHeader
    decreases |recs|
  {
    if recs == [] {
      assert log + recs == log;
    } else {
      var p, r := recs[..|recs| - 1], recs[|recs| - 1];
      assert r in recs && log + recs == (log + p) + [r];
      HeaderKept(log, p);
      ReplayAppend(log + p, r);
    }
  }

  lemma {:induction false} HeaderAt(f: Life, k: nat)
    requires k <= 128
    ensures Replay(LifeLog(f, k)).lastHeader == Some(f.header)
  {
    hide RingAt, WallOf, Uid, Msg;
    if k == 0 {
      ReplayAppend([], Header(f.header, 1));
      assert [] + [Header(f.header, 1)] == [Header(f.header, 1)];
    } else {
      hide Replay;
      HeaderAt(f, k - 1);
      HeaderKept(LifeLog(f, k - 1), CycleRecs(f, k - 1));
    }
  }

  lemma {:induction false} NoExtras(log: seq<Rec>)
    requires forall r :: r in log ==> !r.Escalation?
    ensures ExtrasOf(log).open == map[]
  {
    if log != [] {
      assert log[|log| - 1] in log;
      NoExtras(log[..|log| - 1]);
    }
  }

  /** The log a compacting start finds: the lifetime's, and its own header. */
  function StartLog(f: Life, wall: int): seq<Rec>
    requires f.more < 128
  {
    LifeLog(f, f.more + 1) + [Header(wall, 1)]
  }

  lemma StartRings(f: Life, wall: int)
    requires f.more < 128
    ensures Account(StartLog(f, wall), AGENT).rings == RingsAt(f, f.more + 1)
  {
    hide LifeLog, RingsAt;
    AccountAt(f, f.more + 1);
    AccountGrows(LifeLog(f, f.more + 1), Header(wall, 1), AGENT);
  }

  lemma FirstIsJudged(f: Life, wall: int)
    requires 0 < f.more < 128
    ensures Uid(0) in JudgedAll(StartLog(f, wall)) && (AGENT, SESSION, Msg(0)) in LeftAll(StartLog(f, wall))
  {
    LifeHas(f, f.more + 1, 1);
    hide LifeLog, Uid, Msg, WallOf;
    var e := Effect(EffectRec(WallOf(f, 1), AGENT, SESSION, Effective, [Uid(0)], [Msg(0)]));
    assert e in StartLog(f, wall) && Uid(0) in e.e.intents && Msg(0) in e.e.left;
  }

  lemma FirstIsEarly(f: Life, wall: int, budget: nat)
    requires f.more < 128 && budget <= f.more
    ensures Uid(0) !in LastIds(Account(StartLog(f, wall), AGENT).rings, budget)
  {
    StartRings(f, wall);
    RingsMembers(f, f.more + 1);
    hide StartLog, RingsAt, RingAt, Uid;
    var rings := RingsAt(f, f.more + 1);
    forall k: nat | |rings| - budget <= k < |rings| ensures rings[k].id != Uid(0)
    {
      RingAgent(f, k);
      if Uid(k) == Uid(0) { UidOnce(k, 0); }
    }
  }

  lemma StartIntents(f: Life, wall: int)
    requires f.more < 128
    ensures forall r :: r in StartLog(f, wall) ==> !r.Escalation? && (r.Intent? && r.i.id == Uid(0) ==> r.i == RingAt(f, 0))
  {
    LifeMembers(f, f.more + 1);
    hide LifeLog, Uid, Msg, WallOf, RingAt;
    forall r | r in LifeLog(f, f.more + 1) && r.Intent? && r.i.id == Uid(0) ensures r.i == RingAt(f, 0)
    {
      var j: nat :| j < f.more + 1 && r == Intent(RingAt(f, j));
      RingAgent(f, j);
      UidOnce(j, 0);
    }
  }

  /** A start an hour after the first ring, with a budget of later ones, drops it. */
  lemma FirstDropped(f: Life, at: StartAt, now: map<Str, View>)
    requires 0 < f.more < 128 && at.budget == f.more && f.first == at.startWall - BUDGET_WINDOW_MS && !Ahead(at.lastHeader, at.startWall)
    requires AGENT in now ==> now[AGENT] == View(Some(SESSION), {Msg(f.more)})
    ensures Uid(0) !in KeptIds(StartLog(f, at.startWall), now, at)
  {
    var log := StartLog(f, at.startWall);
    FirstIsJudged(f, at.startWall);
    FirstIsEarly(f, at.startWall, at.budget);
    StartIntents(f, at.startWall);
    NoExtras(log);
    RingAgent(f, 0);
    MsgOnce(0, f.more);
    hide StartLog, Uid, Msg, RingAt, JudgedAll, LeftAll, LastIds;
    assert KeepExtra(log) == {};
    assert !KeepIntent(log, now, at, RingAt(f, 0));
  }

  lemma {:induction false} CountedLife(f: Life, k: nat, header: int, startWall: int)
    requires k <= f.more + 1 <= 128 && f.last == startWall - BUDGET_WINDOW_MS && header <= startWall
    requires f.first > startWall - BUDGET_WINDOW_MS
    ensures CountedAt(RingsAt(f, k), Some(header), startWall) == if k == 0 then 0 else 1
  {
    if k > 0 {
      CountedLife(f, k - 1, header, startWall);
      RingAgent(f, k - 1);
      hide RingAt;
      var p, i := RingsAt(f, k - 1), RingAt(f, k - 1);
      assert (p + [i])[..|p|] == p;
    }
  }

  lemma NoneOfRest(f: Life, kept: set<Str>, header: int, startWall: int)
    requires f.more < 128 && f.last == startWall - BUDGET_WINDOW_MS && header <= startWall && Uid(0) !in kept
    ensures CountedAt(KeptRings(RingsAt(f, f.more + 1), kept), Some(header), startWall) == 0
  {
    var rings := RingsAt(f, f.more + 1);
    KeptRingsMembers(rings, kept);
    RingsMembers(f, f.more + 1);
    hide Uid, RingAt, RingsAt, KeptRings;
    forall i | i in KeptRings(rings, kept) ensures !CountsAtStart(i.at, Some(header), startWall)
    {
      var k :| 0 <= k < |rings| && rings[k] == i;
      RingAgent(f, k);
    }
    NoneCounted(KeptRings(rings, kept), Some(header), startWall);
  }

  // ---------------------------------------------------------------- when a later start counts the same

  /**
    * A run of schema-valid records that ends with a start that wrote its header and compacted, and the header of a
    * start after it.
    */
  ghost predicate Restarted(run: seq<State>, at: StartAt, header: int)
  {
    IsRun(run) && |run| > 3 &&
    var a, b, c, d := run[|run| - 4], run[|run| - 3], run[|run| - 2], run[|run| - 1];
    at.lastHeader == Replay(a.log).lastHeader && b == Grown(a, Header(at.startWall, 1)) &&
    c == State(b.hist, Compact(b.log, Snapshot(b.log, b.env), at), b.env) && d == Grown(c, Header(header, 1)) &&
    forall r :: r in d.hist ==> RecordOk(r)
  }

  /** The start at `startWall`, after both, counts as many rings as it would have without that compaction. */
  ghost predicate SameBudget(run: seq<State>, at: StartAt, header: int, startWall: int, n: Str)
  {
    |run| > 3 &&
    Min(at.budget, CountedAt(Account(run[|run| - 3].log, n).rings, Some(header), startWall)) ==
    Min(at.budget, CountedAt(Account(run[|run| - 1].log, n).rings, Some(header), startWall))
  }

  /** A wall time a start can have: not before 1970, and one the schema can write. */
  predicate StartTime(wall: int)
  {
    wall >= 0 && IsoMs(wall)
  }

  lemma LostLife(at: StartAt, header: int, startWall: int) returns (f: Life)
    requires !ClockAllows(at, Some(header), startWall) && 1 <= at.budget <= MAX_BUDGET && at.lastHeader.Some?
    requires StartTime(at.lastHeader.value) && StartTime(at.startWall) && StartTime(header) && StartTime(startWall)
    ensures f == Life(at.lastHeader.value, at.startWall - BUDGET_WINDOW_MS, startWall - BUDGET_WINDOW_MS, at.budget) && LifeOk(f) && f.more < 128
    ensures f.first > startWall - BUDGET_WINDOW_MS && header <= startWall && !Ahead(at.lastHeader, at.startWall)
  {
    f := Life(at.lastHeader.value, at.startWall - BUDGET_WINDOW_MS, startWall - BUDGET_WINDOW_MS, at.budget);
  }

  lemma SnapshotAt(f: Life, wall: int, e: nat)
    requires f.more < 128 && e < 128
    ensures var now := Snapshot(StartLog(f, wall), EnvAt(e)); AGENT in now ==> now[AGENT] == View(Some(SESSION), {Msg(e)})
  {
    hide StartLog, Msg, EverAt;
  }

  lemma HeaderOk(wall: int)
    requires StartTime(wall)
    ensures RecordOk(Header(wall, 1))
  {
  }

  /** Whenever the clocks do not allow it, a run loses rings that should have counted. */
  lemma BudgetLost(at: StartAt, header: int, startWall: int)
    requires !ClockAllows(at, Some(header), startWall) && 1 <= at.budget <= MAX_BUDGET && at.lastHeader.Some?
    requires StartTime(at.lastHeader.value) && StartTime(at.startWall) && StartTime(header) && StartTime(startWall)
    ensures exists run :: Restarted(run, at, header) && !SameBudget(run, at, header, startWall, AGENT)
  {
    hide *;
    var f := LostLife(at, header, startWall);
    var run := LostRun(f, at, header, startWall);
    LostCounts(f, at, header, startWall, run);
  }

  lemma LostRun(f: Life, at: StartAt, header: int, startWall: int) returns (run: seq<State>)
    requires LifeOk(f) && f.more < 128 && at.lastHeader == Some(f.header) && at.budget == f.more >= 1
    requires StartTime(at.startWall) && StartTime(header)
    ensures Restarted(run, at, header)
    ensures run[|run| - 3] == Grown(StateAt(f, f.more + 1, f.more), Header(at.startWall, 1))
  {
    hide LifeLog, LifeOk, Compact, Snapshot, EnvAt, RecordOk, Replay, IsRun, StartTime, Restarted;
    var life := LifeRun(f, at.budget, f.more);
    HeaderAt(f, f.more + 1);
    LifeRecordsOk(f);
    run := RestartedBy(life, at, header);
  }

  lemma RestartedBy(life: seq<State>, at: StartAt, header: int) returns (run: seq<State>)
    requires IsRun(life) && at.budget >= 1 && StartTime(at.startWall) && StartTime(header)
    requires at.lastHeader == Replay(life[|life| - 1].log).lastHeader && forall r :: r in life[|life| - 1].hist ==> RecordOk(r)
    ensures Restarted(run, at, header) && run[|run| - 3] == Grown(life[|life| - 1], Header(at.startWall, 1))
  {
    assert life != [];
    hide *;
    var a := life[|life| - 1];
    var b := Grown(a, Header(at.startWall, 1));
    var c := State(b.hist, Compact(b.log, Snapshot(b.log, b.env), at), b.env);
    var d := Grown(c, Header(header, 1));
    run := life + [b, c, d];
    RunOn(life, b, c, d, at, header);
    HeaderOk(at.startWall);
    HeaderOk(header);
    OkMore(a.hist, Header(at.startWall, 1), Header(header, 1));
    HistOf(a, b, c, d, at, header);
    RestartedShape(run, a, b, c, d, at, header);
  }

  lemma HistOf(a: State, b: State, c: State, d: State, at: StartAt, header: int)
    requires b == Grown(a, Header(at.startWall, 1)) && c.hist == b.hist && d == Grown(c, Header(header, 1))
    ensures d.hist == a.hist + [Header(at.startWall, 1)] + [Header(header, 1)]
  {
  }

  lemma RestartedShape(run: seq<State>, a: State, b: State, c: State, d: State, at: StartAt, header: int)
    requires IsRun(run) && |run| > 3 && run[|run| - 4] == a && run[|run| - 3] == b && run[|run| - 2] == c && run[|run| - 1] == d
    requires at.lastHeader == Replay(a.log).lastHeader && b == Grown(a, Header(at.startWall, 1)) && d == Grown(c, Header(header, 1))
    requires c == State(b.hist, Compact(b.log, Snapshot(b.log, b.env), at), b.env) && forall r :: r in d.hist ==> RecordOk(r)
    ensures Restarted(run, at, header)
  {
    hide IsRun, Replay, RecordOk, Compact, Snapshot, Grown;
  }

  lemma OkMore(h: seq<Rec>, r: Rec, s: Rec)
    requires (forall t :: t in h ==> RecordOk(t)) && RecordOk(r) && RecordOk(s)
    ensures forall t :: t in h + [r] + [s] ==> RecordOk(t)
  {
    hide RecordOk;
  }

  lemma RunOn(life: seq<State>, b: State, c: State, d: State, at: StartAt, header: int)
    requires IsRun(life) && b == Grown(life[|life| - 1], Header(at.startWall, 1)) && at.budget >= 1
    requires c == State(b.hist, Compact(b.log, Snapshot(b.log, b.env), at), b.env) && d == Grown(c, Header(header, 1))
    ensures IsRun(life + [b, c, d])
  {
    hide Initial, WorldStep, CycleStep, Compact, Snapshot;
    var s := life[|life| - 1];
    assert NoteStep(s, b) && CompactStep(b, c) && NoteStep(c, d);
  }

  lemma LostLog(f: Life, at: StartAt, header: int, startWall: int)
    requires LifeOk(f) && f.more < 128 && at.budget == f.more >= 1 && f.first == at.startWall - BUDGET_WINDOW_MS && f.last == startWall - BUDGET_WINDOW_MS
    requires f.first > startWall - BUDGET_WINDOW_MS && header <= startWall && !Ahead(at.lastHeader, at.startWall)
    ensures var log := StartLog(f, at.startWall);
            var cut := Compact(log, Snapshot(log, EnvAt(f.more)), at) + [Header(header, 1)];
            CountedAt(Account(log, AGENT).rings, Some(header), startWall) == 1 &&
            CountedAt(Account(cut, AGENT).rings, Some(header), startWall) == 0
  {
    hide *;
    var log := StartLog(f, at.startWall);
    var now := Snapshot(log, EnvAt(f.more));
    var kept := KeptIds(log, now, at);
    StartRings(f, at.startWall);
    SnapshotAt(f, at.startWall, f.more);
    FirstDropped(f, at, now);
    CountedLife(f, f.more + 1, header, startWall);
    NoneOfRest(f, kept, header, startWall);
    CutRings(log, now, at, header, AGENT);
  }

  lemma CutRings(log: seq<Rec>, now: map<Str, View>, at: StartAt, header: int, n: Str)
    ensures Account(Compact(log, now, at) + [Header(header, 1)], n).rings == KeptRings(Account(log, n).rings, KeptIds(log, now, at))
  {
    hide Account, KeptIds, KeptRings, Pick;
    assert log[..|log|] == log;
    PickRings(log, now, KeptIds(log, now, at), |log|, n);
    AccountGrows(Compact(log, now, at), Header(header, 1), n);
  }

  lemma LostCounts(f: Life, at: StartAt, header: int, startWall: int, run: seq<State>)
    requires LifeOk(f) && f.more < 128 && at.budget == f.more >= 1 && f.first == at.startWall - BUDGET_WINDOW_MS && f.last == startWall - BUDGET_WINDOW_MS
    requires f.first > startWall - BUDGET_WINDOW_MS && header <= startWall && !Ahead(at.lastHeader, at.startWall)
    requires Restarted(run, at, header) && run[|run| - 3] == Grown(StateAt(f, f.more + 1, f.more), Header(at.startWall, 1))
    ensures !SameBudget(run, at, header, startWall, AGENT)
  {
    hide LifeLog, LifeOk, Snapshot, EnvAt, RecordOk, Replay, IsRun, Compact, Account, CountedAt;
    LostLog(f, at, header, startWall);
  }

  lemma AllowedCounts(run: seq<State>, at: StartAt, header: int, startWall: int, n: Str)
    requires Restarted(run, at, header) && ClockAllows(at, Some(header), startWall)
    ensures SameBudget(run, at, header, startWall, n)
  {
    hide IsRun, Replay, RecordOk, Account, CountedAt, ClockAllows, Compact, Snapshot;
    var b := run[|run| - 3];
    var now := Snapshot(b.log, b.env);
    var rings, cut := Account(b.log, n).rings, Account(Compact(b.log, now, at), n).rings;
    BudgetSurvives(b.log, now, at, n, [], Some(header), startWall);
    assert rings + [] == rings && cut + [] == cut;
    AccountGrows(Compact(b.log, now, at), Header(header, 1), n);
  }

  /**
    * A start counts toward the budget as many rings of every agent as it would have without the compaction before
    * it, in every run, exactly when the clocks allow it.
    */
  lemma BudgetExactly(at: StartAt, header: int, startWall: int)
    requires 1 <= at.budget <= MAX_BUDGET && at.lastHeader.Some?
    requires StartTime(at.lastHeader.value) && StartTime(at.startWall) && StartTime(header) && StartTime(startWall)
    ensures ClockAllows(at, Some(header), startWall) <==>
            forall run, n :: Restarted(run, at, header) ==> SameBudget(run, at, header, startWall, n)
  {
    hide Restarted, SameBudget, ClockAllows;
    if ClockAllows(at, Some(header), startWall) {
      forall run, n | Restarted(run, at, header) ensures SameBudget(run, at, header, startWall, n)
      {
        AllowedCounts(run, at, header, startWall, n);
      }
    } else {
      BudgetLost(at, header, startWall);
    }
  }
}
