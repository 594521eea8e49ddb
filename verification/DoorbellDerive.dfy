/**
  * One agent's ledger as the job computes it: one pass over the agent's history that fills sets and maps, and the
  * ledger those stand for.
  */
module DoorbellDerive {
  import opened Canon
  import opened DoorbellLog
  import opened DoorbellLedger
  import opened DoorbellPlan
  import opened DoorbellQuiet
  import opened Wrappers

  /** The records that make up an agent's ledger history. */
  predicate LedgerRec(r: Rec)
  {
    r.Intent? || r.Effect? || r.Escalation?
  }

  /** One agent's history: its intents, effect records and escalation records, in log order. */
  function HistoryOf(log: seq<Rec>, n: Str): seq<Rec>
  {
    if log == [] then []
    else
      var p, r := HistoryOf(log[..|log| - 1], n), log[|log| - 1];
      if LedgerRec(r) && AgentOf(r) == Some(n) then p + [r] else p
  }

  /** A history says of its agent all that the log does. */
  lemma {:induction false} HistoryAccount(log: seq<Rec>, n: Str)
    ensures Account(HistoryOf(log, n), n) == Account(log, n)
  {
    if log != [] {
      HistoryAccount(log[..|log| - 1], n);
      var p, r := HistoryOf(log[..|log| - 1], n), log[|log| - 1];
      assert (p + [r])[..|p|] == p;
    }
  }

  lemma {:induction false} HistoryMembers(log: seq<Rec>, n: Str)
    ensures forall r :: r in HistoryOf(log, n) <==> r in log && LedgerRec(r) && AgentOf(r) == Some(n)
  {
    if log != [] {
      HistoryMembers(log[..|log| - 1], n);
      assert log == log[..|log| - 1] + [log[|log| - 1]];
    }
  }

  /** A history as the log's schema leaves it: this agent's records, with canonical id lists. */
  predicate HistoryOk(history: seq<Rec>, n: Str)
  {
    forall r :: r in history ==> LedgerRec(r) && AgentOf(r) == Some(n) && (r.Intent? ==> Ascending(r.i.ids))
  }

  // ---------------------------------------------------------------- the outstanding rings

  function RingAt(i: IntentRec, mono: map<Str, int>): Ring
  {
    Ring(i.id, MonoOf(mono, i.id))
  }

  /** The unjudged rings of the session, in log order and placed on the clock. */
  function Waiting(rings: seq<IntentRec>, session: Str, judged: set<Str>, mono: map<Str, int>): seq<Ring>
  {
    if rings == [] then []
    else
      var p, i := Waiting(rings[..|rings| - 1], session, judged, mono), rings[|rings| - 1];
      if i.session == session && i.id !in judged then p + [RingAt(i, mono)] else p
  }

  /** A stable sort by time. */
  function StableSort(rs: seq<Ring>): seq<Ring>
  {
    if rs == [] then [] else InsertRing(StableSort(rs[..|rs| - 1]), rs[|rs| - 1])
  }

  lemma OfSessionSnoc(rings: seq<IntentRec>, i: IntentRec, session: Str)
    ensures OfSession(rings + [i], session) == if i.session == session then OfSession(rings, session) + [i] else OfSession(rings, session)
  {
    assert (rings + [i])[..|rings|] == rings;
  }

  lemma UnjudgedSnoc(rings: seq<IntentRec>, i: IntentRec, judged: set<Str>)
    ensures Unjudged(rings + [i], judged) == if i.id in judged then Unjudged(rings, judged) else Unjudged(rings, judged) + [i]
  {
    assert (rings + [i])[..|rings|] == rings;
  }

  lemma StableSnoc(rs: seq<Ring>, x: Ring)
    ensures StableSort(rs + [x]) == InsertRing(StableSort(rs), x)
  {
    assert (rs + [x])[..|rs|] == rs;
  }

  lemma SortRingsSnoc(rings: seq<IntentRec>, i: IntentRec, mono: map<Str, int>)
    ensures SortRings(rings + [i], mono) == InsertRing(SortRings(rings, mono), RingAt(i, mono))
  {
    assert (rings + [i])[..|rings|] == rings;
  }

  lemma {:induction false} WaitingSorted(rings: seq<IntentRec>, session: Str, judged: set<Str>, mono: map<Str, int>)
    ensures StableSort(Waiting(rings, session, judged, mono)) == SortRings(Unjudged(OfSession(rings, session), judged), mono)
  {
    if rings != [] {
      hide StableSort, SortRings, Unjudged, OfSession, InsertRing, RingAt;
      var q, i := rings[..|rings| - 1], rings[|rings| - 1];
      assert rings == q + [i];
      WaitingSorted(q, session, judged, mono);
      OfSessionSnoc(q, i, session);
      UnjudgedSnoc(OfSession(q, session), i, judged);
      StableSnoc(Waiting(q, session, judged, mono), RingAt(i, mono));
      SortRingsSnoc(Unjudged(OfSession(q, session), judged), i, mono);
    }
  }

  // ---------------------------------------------------------------- counts and last rings

  function Latest(last: map<Str, int>, id: Str, t: int): int
  {
    if id in last && last[id] > t then last[id] else t
  }

  function Tally(count: map<Str, nat>, id: Str): nat
  {
    if id in count then count[id] else 0
  }

  /** The three tables agree with the rings: which ids rang, how often, and when last. */
  ghost predicate Tallied(rung: set<Str>, count: map<Str, nat>, last: map<Str, int>, rings: seq<IntentRec>, session: Str, mono: map<Str, int>)
  {
    rung == RungIds(rings, session) && count.Keys == rung && last.Keys == rung &&
    forall id :: id in rung ==> count[id] == Covers(rings, session, id) && LastRing(rings, session, id, mono) == Some(last[id])
  }

  lemma {:induction false} NeverRung(rings: seq<IntentRec>, session: Str, id: Str, mono: map<Str, int>)
    requires id !in RungIds(rings, session)
    ensures LastRing(rings, session, id, mono) == None && Covers(rings, session, id) == 0
  {
    if rings != [] { NeverRung(rings[..|rings| - 1], session, id, mono); }
  }

  function FirstIds(i: IntentRec, j: nat): IntentRec
    requires j <= |i.ids|
  {
    i.(ids := i.ids[..j])
  }

  lemma TallySkips(rung: set<Str>, count: map<Str, nat>, last: map<Str, int>, rings: seq<IntentRec>, i: IntentRec, session: Str, mono: map<Str, int>)
    requires Tallied(rung, count, last, rings, session, mono) && (i.session != session || i.ids == [])
    ensures Tallied(rung, count, last, rings + [i], session, mono)
  {
    assert (rings + [i])[..|rings|] == rings;
    if i.session == session {
      assert Elems(i.ids) == {};
      RungAppend(rings, i, session);
    }
  }

  lemma IdsGrow(i: IntentRec, j: nat)
    requires j < |i.ids| && Ascending(i.ids)
    ensures Elems(FirstIds(i, j + 1).ids) == Elems(FirstIds(i, j).ids) + {i.ids[j]} && i.ids[j] !in Elems(FirstIds(i, j).ids)
  {
    AscendingDistinct(i.ids);
    assert i.ids[..j + 1] == i.ids[..j] + [i.ids[j]];
  }

  /** What a ring that covers `ids` says of one id. */
  lemma RungOne(rings: seq<IntentRec>, i: IntentRec, session: Str, id: Str, mono: map<Str, int>)
    requires i.session == session
    ensures RungIds(rings + [i], session) == RungIds(rings, session) + Elems(i.ids)
    ensures Covers(rings + [i], session, id) == Covers(rings, session, id) + if id in Elems(i.ids) then 1 else 0
    ensures var q := LastRing(rings, session, id, mono);
            LastRing(rings + [i], session, id, mono) ==
            if id in Elems(i.ids) then Some(if q.Some? && q.value > MonoOf(mono, i.id) then q.value else MonoOf(mono, i.id)) else q
  {
    assert (rings + [i])[..|rings|] == rings;
  }

  /** One more id of a new ring. */
  lemma TallyNext(rung: set<Str>, count: map<Str, nat>, last: map<Str, int>, rings: seq<IntentRec>, i: IntentRec, session: Str, mono: map<Str, int>, j: nat)
    requires j < |i.ids| && Ascending(i.ids) && i.session == session
    requires Tallied(rung, count, last, rings + [FirstIds(i, j)], session, mono)
    ensures var id := i.ids[j];
            Tallied(rung + {id}, count[id := Tally(count, id) + 1], last[id := Latest(last, id, MonoOf(mono, i.id))],
                    rings + [FirstIds(i, j + 1)], session, mono)
  {
    hide RungIds, Covers, LastRing, Elems, MonoOf;
    var x := i.ids[j];
    var was, now := rings + [FirstIds(i, j)], rings + [FirstIds(i, j + 1)];
    IdsGrow(i, j);
    RungOne(rings, FirstIds(i, j), session, x, mono);
    RungOne(rings, FirstIds(i, j + 1), session, x, mono);
    var t := MonoOf(mono, i.id);
    assert t == MonoOf(mono, FirstIds(i, j + 1).id);
    if x !in rung { NeverRung(was, session, x, mono); }
    forall id | id in rung + {x}
      ensures count[x := Tally(count, x) + 1][id] == Covers(now, session, id)
      ensures LastRing(now, session, id, mono) == Some(last[x := Latest(last, x, t)][id])
    {
      RungOne(rings, FirstIds(i, j), session, id, mono);
      RungOne(rings, FirstIds(i, j + 1), session, id, mono);
    }
  }

  /** The rings of one intent, tallied id by id. */
  method TallyRing(rung: set<Str>, count: map<Str, nat>, last: map<Str, int>, i: IntentRec, t: int, ghost rings: seq<IntentRec>, session: Str, ghost mono: map<Str, int>)
    returns (rung': set<Str>, count': map<Str, nat>, last': map<Str, int>)
    requires Tallied(rung, count, last, rings, session, mono) && i.session == session && Ascending(i.ids) && t == MonoOf(mono, i.id)
    ensures Tallied(rung', count', last', rings + [i], session, mono)
  {
    hide Tallied;
    rung', count', last' := rung, count, last;
    TallySkips(rung, count, last, rings, FirstIds(i, 0), session, mono);
    for j := 0 to |i.ids|
      invariant Tallied(rung', count', last', rings + [FirstIds(i, j)], session, mono)
    {
      TallyNext(rung', count', last', rings, i, session, mono, j);
      var id := i.ids[j];
      rung', count', last' := rung' + {id}, count'[id := Tally(count', id) + 1], last'[id := Latest(last', id, t)];
    }
    assert i.ids[..|i.ids|] == i.ids;
  }

  // ---------------------------------------------------------------- the open escalations, and other sessions

  /** The episode's extra ring joins its escalation, one open escalation after another. */
  method NoteExtraRing(open: seq<OpenEsc>, i: IntentRec) returns (noted: seq<OpenEsc>)
    ensures noted == NoteExtra(open, i)
  {
    noted := [];
    for k := 0 to |open|
      invariant |noted| == k && forall j :: 0 <= j < k ==> noted[j] == Noted(open[j], i)
    {
      noted := noted + [Noted(open[k], i)];
    }
  }

  /** The ids of the unjudged rings of session `s`, in log order. */
  function IdsAt(rings: seq<IntentRec>, judged: set<Str>, s: Str): seq<Str>
  {
    if rings == [] then []
    else
      var p, i := IdsAt(rings[..|rings| - 1], judged, s), rings[|rings| - 1];
      if i.session == s && i.id !in judged then p + [i.id] else p
  }

  lemma IdsOfSnoc(rings: seq<IntentRec>, i: IntentRec)
    ensures IdsOfRings(rings + [i]) == IdsOfRings(rings) + {i.id}
  {
  }

  lemma {:induction false} IdsAtMembers(rings: seq<IntentRec>, judged: set<Str>, s: Str)
    ensures Elems(IdsAt(rings, judged, s)) == IdsOfRings(OfSession(Unjudged(rings, judged), s))
  {
    if rings == [] {
      assert IdsOfRings([]) == {};
    } else {
      var q, i := rings[..|rings| - 1], rings[|rings| - 1];
      var p := IdsAt(q, judged, s);
      assert rings == q + [i] && IdsAt(rings, judged, s) == if i.session == s && i.id !in judged then p + [i.id] else p;
      assert Elems(p + [i.id]) == Elems(p) + {i.id};
      hide *;
      IdsAtMembers(q, judged, s);
      UnjudgedSnoc(q, i, judged);
      OfSessionSnoc(Unjudged(q, judged), i, s);
      IdsOfSnoc(OfSession(Unjudged(q, judged), s), i);
    }
  }

  /** Other sessions' unjudged rings: the sessions in the order they first appear, and each one's ring ids. */
  ghost predicate Others(order: seq<Str>, ids: map<Str, seq<Str>>, rings: seq<IntentRec>, judged: set<Str>, session: Str)
  {
    order == MootSessions(Unjudged(rings, judged), session) && (forall s :: s in ids <==> s in order) &&
    forall s :: s in order ==> ids[s] == IdsAt(rings, judged, s)
  }

  lemma {:induction false} NoIdsAt(rings: seq<IntentRec>, judged: set<Str>, session: Str, s: Str)
    requires s != session && s !in MootSessions(Unjudged(rings, judged), session)
    ensures IdsAt(rings, judged, s) == []
  {
    UnjudgedMembers(rings, judged);
    MootSessionsMembers(Unjudged(rings, judged), session);
    NoneAt(rings, judged, s);
  }

  lemma {:induction false} NoneAt(rings: seq<IntentRec>, judged: set<Str>, s: Str)
    requires forall i :: i in rings && i.session == s ==> i.id in judged
    ensures IdsAt(rings, judged, s) == []
  {
    if rings != [] {
      assert rings[|rings| - 1] in rings;
      NoneAt(rings[..|rings| - 1], judged, s);
    }
  }

  lemma IdsAtSnoc(rings: seq<IntentRec>, i: IntentRec, judged: set<Str>, s: Str)
    ensures IdsAt(rings + [i], judged, s) ==
            if i.session == s && i.id !in judged then IdsAt(rings, judged, s) + [i.id] else IdsAt(rings, judged, s)
  {
    assert (rings + [i])[..|rings|] == rings;
  }

  lemma MootSnoc(u: seq<IntentRec>, i: IntentRec, session: Str)
    ensures var p := MootSessions(u, session);
            MootSessions(u + [i], session) == if i.session == session || i.session in p then p else p + [i.session]
  {
    assert (u + [i])[..|u|] == u;
  }

  lemma OthersNext(order: seq<Str>, ids: map<Str, seq<Str>>, rings: seq<IntentRec>, judged: set<Str>, session: Str, i: IntentRec)
    requires Others(order, ids, rings, judged, session)
    ensures if i.id in judged || i.session == session then Others(order, ids, rings + [i], judged, session)
            else Others(if i.session in order then order else order + [i.session],
                        ids[i.session := (if i.session in ids then ids[i.session] else []) + [i.id]], rings + [i], judged, session)
  {
    hide IdsAt, MootSessions, Unjudged;
    var u := Unjudged(rings, judged);
    UnjudgedSnoc(rings, i, judged);
    MootSnoc(u, i, session);
    forall s ensures IdsAt(rings + [i], judged, s) ==
                     if i.session == s && i.id !in judged then IdsAt(rings, judged, s) + [i.id] else IdsAt(rings, judged, s)
    {
      IdsAtSnoc(rings, i, judged, s);
    }
    MootSessionsMembers(u, session);
    if i.session !in order && i.session != session { NoIdsAt(rings, judged, session, i.session); }
  }

  // ---------------------------------------------------------------- the pass over the history

  /** What the pass has gathered: the ledger so far, and what belongs to other sessions. */
  datatype Gathered = Gathered(
    rung: set<Str>, count: map<Str, nat>, last: map<Str, int>, out: seq<Ring>, left: set<Str>, counter: nat,
    open: seq<OpenEsc>, order: seq<Str>, ids: map<Str, seq<Str>>)

  const NOTHING_GATHERED := Gathered({}, map[], map[], [], {}, 0, [], [], map[])

  /** The pass has gathered exactly what the account `a` holds; `judged` is the whole history's. */
  ghost predicate Gathers(g: Gathered, a: Acct, judged: set<Str>, rs: Str, mono: map<Str, int>)
  {
    Tallied(g.rung, g.count, g.last, a.rings, rs, mono) && g.out == Waiting(a.rings, rs, judged, mono) &&
    g.left == LeftOf(a.left, rs) && g.counter == Streak(a, rs) && g.open == a.open &&
    Others(g.order, g.ids, a.rings, judged, rs)
  }

  lemma WaitingSnoc(rings: seq<IntentRec>, i: IntentRec, session: Str, judged: set<Str>, mono: map<Str, int>)
    ensures var p := Waiting(rings, session, judged, mono);
            Waiting(rings + [i], session, judged, mono) == if i.session == session && i.id !in judged then p + [RingAt(i, mono)] else p
  {
    assert (rings + [i])[..|rings|] == rings;
  }

  method GatherIntent(g: Gathered, i: IntentRec, ghost a: Acct, ghost n: Str, judged: set<Str>, rs: Str, mono: map<Str, int>) returns (g': Gathered)
    requires Gathers(g, a, judged, rs, mono) && i.agent == n && Ascending(i.ids)
    ensures Gathers(g', Step(a, Intent(i), n), judged, rs, mono)
  {
    hide Tallied, Waiting, Others, MonoOf;
    g' := g;
    if i.during {
      var noted := NoteExtraRing(g.open, i);
      g' := g'.(open := noted);
    }
    OthersNext(g.order, g.ids, a.rings, judged, rs, i);
    WaitingSnoc(a.rings, i, rs, judged, mono);
    if i.id !in judged && i.session != rs {
      g' := g'.(order := if i.session in g.order then g.order else g.order + [i.session],
                ids := g.ids[i.session := (if i.session in g.ids then g.ids[i.session] else []) + [i.id]]);
    }
    if i.session == rs {
      var t := MonoOf(mono, i.id);
      var rung, count, last := TallyRing(g.rung, g.count, g.last, i, t, a.rings, rs, mono);
      g' := g'.(rung := rung, count := count, last := last);
      if i.id !in judged { g' := g'.(out := g'.out + [RingAt(i, mono)]); }
    } else {
      TallySkips(g.rung, g.count, g.last, a.rings, i, rs, mono);
    }
  }

  method GatherEffect(g: Gathered, e: EffectRec, ghost a: Acct, ghost n: Str, judged: set<Str>, rs: Str, ghost mono: map<Str, int>) returns (g': Gathered)
    requires Gathers(g, a, judged, rs, mono) && e.agent == n
    ensures Gathers(g', Step(a, Effect(e), n), judged, rs, mono)
  {
    hide Tallied, Waiting, Others, MonoOf;
    g' := g;
    if e.session == rs {
      if e.outcome == Effective {
        g' := g'.(counter := 0, left := g.left + Elems(e.left));
      } else if e.outcome == Ineffective {
        g' := g'.(counter := g.counter + 1);
      }
    }
    assert LeftOf(Step(a, Effect(e), n).left, rs) == if e.session == rs && e.outcome == Effective then g.left + Elems(e.left) else g.left;
  }

  method GatherEscalation(g: Gathered, x: EscRec, ghost a: Acct, ghost n: Str, judged: set<Str>, rs: Str, ghost mono: map<Str, int>) returns (g': Gathered)
    requires Gathers(g, a, judged, rs, mono) && x.agent == n
    ensures Gathers(g', Step(a, Escalation(x), n), judged, rs, mono)
  {
    hide Tallied, Waiting, Others, LeftOf, PutOpen, DropOpen;
    if x.isOpen {
      g' := g.(open := PutOpen(g.open, OpenEsc(x, Elems(x.ids), false)));
    } else {
      g' := g.(open := DropOpen(g.open, x.id));
    }
  }

  /** The last step: open escalations of this session by kind, the others aside. */
  method SortOut(open: seq<OpenEsc>, rs: Str) returns (u: Option<OpenEsc>, stuck: seq<EscRec>, other: seq<EscRec>)
    ensures u == UnresponsiveOf(open, rs) && stuck == StuckOf(open, rs) && other == ElsewhereOf(open, rs)
  {
    u, stuck, other := None, [], [];
    for k := 0 to |open|
      invariant u == UnresponsiveOf(open[..k], rs) && stuck == StuckOf(open[..k], rs) && other == ElsewhereOf(open[..k], rs)
    {
      assert open[..k + 1][..k] == open[..k];
      var e := open[k];
      if e.rec.session != rs {
        other := other + [e.rec];
      } else if e.rec.reason == Unresponsive {
        u := Some(e);
      } else {
        stuck := stuck + [e.rec];
      }
    }
    assert open[..|open|] == open;
  }

  /** Every ring some effect record of the history names. */
  method AllJudged(history: seq<Rec>, ghost n: Str) returns (judged: set<Str>)
    requires HistoryOk(history, n)
    ensures judged == Account(history, n).judged
  {
    judged := {};
    for k := 0 to |history|
      invariant judged == Account(history[..k], n).judged
    {
      assert history[..k + 1] == history[..k] + [history[k]];
      RunAppend(NOTHING, history[..k], history[k], n);
      assert history[k] in history;
      if history[k].Effect? { judged := judged + Elems(history[k].e.intents); }
    }
    assert history[..|history|] == history;
  }

  /**
    * `deriveLedger`: one pass over the agent's history gives the ledger of the session `rs` that the log
    * stands for, and what is left of other sessions.
    */
  method DeriveLedger(history: seq<Rec>, ghost n: Str, rs: Str, mono: map<Str, int>)
    returns (l: Ledger, order: seq<Str>, ids: map<Str, seq<Str>>, other: seq<EscRec>)
    requires HistoryOk(history, n)
    ensures var a := Account(history, n);
            l == LedgerOf(a, rs, mono) && Others(order, ids, a.rings, a.judged, rs) && other == ElsewhereOf(a.open, rs)
  {
    var judged := AllJudged(history, n);
    var g := NOTHING_GATHERED;
    NothingGathers(judged, rs, mono);
    hide Gathers, Run, Step;
    for k := 0 to |history|
      invariant Gathers(g, Account(history[..k], n), judged, rs, mono)
    {
      ghost var a := Account(history[..k], n);
      assert history[..k + 1] == history[..k] + [history[k]];
      RunAppend(NOTHING, history[..k], history[k], n);
      assert history[k] in history;
      match history[k]
      case Intent(i) => g := GatherIntent(g, i, a, n, judged, rs, mono);
      case Effect(e) => g := GatherEffect(g, e, a, n, judged, rs, mono);
      case Escalation(x) => g := GatherEscalation(g, x, a, n, judged, rs, mono);
      case _ => assert false;
    }
    assert history[..|history|] == history;
    var u, stuck, away := SortOut(g.open, rs);
    l := Ledger(g.rung, g.count, g.last, StableSort(g.out), g.left, g.counter, u, stuck);
    order, ids, other := g.order, g.ids, away;
    GatheredLedger(g, Account(history, n), judged, rs, mono);
  }

  lemma NothingGathers(judged: set<Str>, rs: Str, mono: map<Str, int>)
    ensures Account([], "") == NOTHING && Gathers(NOTHING_GATHERED, NOTHING, judged, rs, mono)
  {
    assert LeftOf({}, rs) == {};
  }

  lemma GatheredLedger(g: Gathered, a: Acct, judged: set<Str>, rs: Str, mono: map<Str, int>)
    requires Gathers(g, a, judged, rs, mono) && a.judged == judged
    ensures LedgerOf(a, rs, mono) ==
            Ledger(g.rung, g.count, g.last, StableSort(g.out), g.left, g.counter, UnresponsiveOf(g.open, rs), StuckOf(g.open, rs))
    ensures Others(g.order, g.ids, a.rings, a.judged, rs) && g.open == a.open
  {
    hide Others, StableSort, Waiting, SortRings, Unjudged, OfSession, RungIds, Covers, LastRing, UnresponsiveOf, StuckOf, LeftOf;
    WaitingSorted(a.rings, rs, judged, mono);
    var l := LedgerOf(a, rs, mono);
    assert l.count == g.count && l.last == g.last;
  }
}
