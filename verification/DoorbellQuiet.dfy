/**
  * Quiescence: a cycle that reads an unchanged world at the same instant, after the one before it, writes
  * at most a budget change, and the one after that writes nothing.
  */
module DoorbellQuiet {
  import opened Canon
  import opened DoorbellLog
  import opened DoorbellLedger
  import opened DoorbellPlan
  import opened DoorbellAdmit
  import opened DoorbellJudge
  import opened DoorbellSettle
  import opened DoorbellCoherence
  import opened DoorbellAgent
  import opened DoorbellCycle
  import opened DoorbellBudget
  import opened DoorbellIds
  import opened DoorbellFold
  import opened DoorbellCalm
  import opened Wrappers

  // ---------------------------------------------------------------- the ring step, run again

  /** Nothing to drop from re-ring, and no ring to write. */
  predicate RingDone(inp: Input, n: Str, session: Str, l: Ledger, p: set<Str>)
  {
    var u := Unrung(session, p, inp.rung);
    AtCap(inp.c, l, p, u) == {} && !MayRing(inp.c, l, TimesOf(inp, n), u, Again(inp.c, l, p, u))
  }

  lemma RingDoneWritesNothing(inp: Input, n: Str, session: Str, l: Ledger, p: set<Str>, binding: Str, k: nat)
    requires RingDone(inp, n, session, l, p)
    ensures RingRecs(inp, n, session, l, p, binding, k) == []
  {
    hide MayRing, Again, AtCap;
  }

  lemma {:induction false} LastRingMono(rings: seq<IntentRec>, session: Str, id: Str, m1: map<Str, int>, m2: map<Str, int>)
    requires forall i :: i in rings ==> MonoOf(m1, i.id) == MonoOf(m2, i.id)
    ensures LastRing(rings, session, id, m1) == LastRing(rings, session, id, m2)
  {
    if rings != [] {
      assert rings[|rings| - 1] in rings;
      LastRingMono(rings[..|rings| - 1], session, id, m1, m2);
    }
  }

  lemma {:induction false} SortRingsMono(rings: seq<IntentRec>, m1: map<Str, int>, m2: map<Str, int>)
    requires forall i :: i in rings ==> MonoOf(m1, i.id) == MonoOf(m2, i.id)
    ensures SortRings(rings, m1) == SortRings(rings, m2)
  {
    if rings != [] {
      assert rings[|rings| - 1] in rings;
      SortRingsMono(rings[..|rings| - 1], m1, m2);
    }
  }

  /** A ledger depends on the clock only where its own rings are placed. */
  lemma LedgerMono(a: Acct, session: Str, m1: map<Str, int>, m2: map<Str, int>)
    requires forall i :: i in a.rings ==> MonoOf(m1, i.id) == MonoOf(m2, i.id)
    ensures LedgerOf(a, session, m1) == LedgerOf(a, session, m2)
  {
    hide Unjudged, OfSession, SortRings, LastRing, RungIds, Covers, UnresponsiveOf, StuckOf, MonoOf;
    OfSessionMembers(a.rings, session);
    UnjudgedMembers(OfSession(a.rings, session), a.judged);
    SortRingsMono(Unjudged(OfSession(a.rings, session), a.judged), m1, m2);
    forall id ensures LastRing(a.rings, session, id, m1) == LastRing(a.rings, session, id, m2)
    {
      LastRingMono(a.rings, session, id, m1, m2);
    }
  }

  /** Ids dropped from re-ring: their escalations are open in the ledger that follows. */
  lemma {:induction false} StuckSeen(c: Config, n: Str, session: Str, open: seq<OpenEsc>, ids: seq<Str>, uid: nat -> Str, k: nat)
    ensures forall x :: x in StuckOf(open + StuckOpens(c, n, session, ids, uid, k), session) <==>
              x in StuckOf(open, session) || exists m :: 0 <= m < |ids| && x == OpenOf(c, n, session, IdStuck, [ids[m]], uid(k + m))
  {
    var o := StuckOpens(c, n, session, ids, uid, k);
    if ids == [] {
      assert open + o == open;
    } else {
      var m := |ids| - 1;
      var q := StuckOpens(c, n, session, ids[..m], uid, k);
      StuckSeen(c, n, session, open, ids[..m], uid, k);
      assert (open + o)[..|open + o| - 1] == open + q;
      StuckOpensMembers(c, n, session, ids, uid, k);
      assert (open + o)[|open + o| - 1] == o[m];
      assert forall j :: 0 <= j < m ==> ids[..m][j] == ids[j];
    }
  }

  /** The ledger after the ids at their cap are dropped: only its stuck list has grown. */
  lemma AfterStuck(c: Config, n: Str, session: Str, a: Acct, mono: map<Str, int>, ids: seq<Str>, uid: nat -> Str, k: nat)
    ensures var b := a.(open := a.open + StuckOpens(c, n, session, ids, uid, k));
            var l, m := LedgerOf(a, session, mono), LedgerOf(b, session, mono);
            m == l.(stuck := m.stuck) && (forall x :: x in l.stuck ==> x in m.stuck) &&
            (forall id :: id in ids ==> HasStuck(m, id)) &&
            (forall x :: x in m.stuck && x !in l.stuck ==> x.ids != [] && x.ids[0] in ids)
  {
    hide RungIds, Covers, LastRing, SortRings, Unjudged, OfSession, StuckOpens, UnresponsiveOf, StuckOf, LeftOf;
    StuckUnseen(c, n, session, a.open, ids, uid, k);
    StuckSeen(c, n, session, a.open, ids, uid, k);
    var b := a.(open := a.open + StuckOpens(c, n, session, ids, uid, k));
    var m := LedgerOf(b, session, mono);
    forall id | id in ids ensures HasStuck(m, id)
    {
      var j :| 0 <= j < |ids| && ids[j] == id;
      assert OpenOf(c, n, session, IdStuck, [ids[j]], uid(k + j)) in m.stuck;
    }
  }

  lemma {:induction false} NoteExtraSeen(open: seq<OpenEsc>, i: IntentRec, session: Str)
    requires i.session == session
    ensures StuckOf(NoteExtra(open, i), session) == StuckOf(open, session)
    ensures var u := UnresponsiveOf(open, session);
            UnresponsiveOf(NoteExtra(open, i), session) == if u.Some? then Some(Noted(u.value, i)) else None
  {
    if open != [] {
      var p, e := NoteExtra(open[..|open| - 1], i), open[|open| - 1];
      NoteExtraSeen(open[..|open| - 1], i, session);
      assert (p + [Noted(e, i)])[..|p|] == p;
    }
  }

  /** What a new ring of this session changes in the ledger. */
  lemma AfterIntent(a: Acct, n: Str, i: IntentRec, session: Str, mono: map<Str, int>, nxt: map<Str, int>)
    requires i.session == session && i.agent == n && MonoOf(nxt, i.id) == i.mono
    requires forall r :: r in a.rings ==> MonoOf(nxt, r.id) == MonoOf(mono, r.id)
    ensures var l, m := LedgerOf(a, session, mono), LedgerOf(Step(a, Intent(i), n), session, nxt);
            m.rung == l.rung + Elems(i.ids) && m.left == l.left && m.counter == l.counter && m.stuck == l.stuck &&
            (m.unresponsive == if i.during && l.unresponsive.Some? then Some(Noted(l.unresponsive.value, i)) else l.unresponsive) &&
            (forall o :: o in m.outstanding ==> o in l.outstanding || o.mono == i.mono)
  {
    var b := Step(a, Intent(i), n);
    LedgerMono(a, session, mono, nxt);
    var l, m := LedgerOf(a, session, nxt), LedgerOf(b, session, nxt);
    hide RungIds, Covers, LastRing, LeftOf, SortRings;
    NoteExtraSeen(a.open, i, session);
    assert (a.rings + [i])[..|a.rings|] == a.rings;
    RungAppend(a.rings, i, session);
    var mine := OfSession(a.rings, session);
    assert (mine + [i])[..|mine|] == mine;
    var u, w := Unjudged(mine, a.judged), Unjudged(mine + [i], a.judged);
    if i.id !in a.judged {
      assert w == u + [i];
      SortAppend(u, i, nxt);
      InsertRingMembers(SortRings(u, nxt), Ring(i.id, MonoOf(nxt, i.id)));
    }
  }

  lemma RungAppend(rings: seq<IntentRec>, i: IntentRec, session: Str)
    requires i.session == session
    ensures RungIds(rings + [i], session) == RungIds(rings, session) + Elems(i.ids)
    ensures forall id, mono :: var q := LastRing(rings, session, id, mono);
              LastRing(rings + [i], session, id, mono) ==
              if id in i.ids then Some(if q.Some? && q.value > MonoOf(mono, i.id) then q.value else MonoOf(mono, i.id)) else q
    ensures forall id :: Covers(rings + [i], session, id) == Covers(rings, session, id) + if id in i.ids then 1 else 0
  {
    assert (rings + [i])[..|rings|] == rings;
  }

  /** Which ids the new ring makes due no more, and which it leaves as they were. */
  lemma AfterIntentDue(c: Config, a: Acct, n: Str, i: IntentRec, session: Str, mono: map<Str, int>, nxt: map<Str, int>, id: Str)
    requires i.session == session && i.agent == n && MonoOf(nxt, i.id) == i.mono && Young(c, i.mono)
    requires forall r :: r in a.rings ==> MonoOf(nxt, r.id) == MonoOf(mono, r.id)
    ensures var l, m := LedgerOf(a, session, mono), LedgerOf(Step(a, Intent(i), n), session, nxt);
            if id in i.ids then !Due(c, m, id) else (Due(c, m, id) <==> Due(c, l, id)) && CountOf(m, id) == CountOf(l, id)
  {
    var b := Step(a, Intent(i), n);
    assert b.rings == a.rings + [i];
    hide LedgerOf, RungIds, Covers, LastRing, Due, CountOf, Step;
    LedgerMono(a, session, mono, nxt);
    DueOf(c, a, session, nxt, id);
    DueOf(c, b, session, nxt, id);
    RungAppend(a.rings, i, session);
  }

  lemma DueOf(c: Config, a: Acct, session: Str, mono: map<Str, int>, id: Str)
    ensures var l, q := LedgerOf(a, session, mono), LastRing(a.rings, session, id, mono);
            (Due(c, l, id) <==> id in RungIds(a.rings, session) && q.Some? && !Young(c, q.value)) &&
            CountOf(l, id) == if id in RungIds(a.rings, session) then Covers(a.rings, session, id) else 0
  {
    hide LeftOf, SortRings, Unjudged, OfSession, UnresponsiveOf, StuckOf, RungIds, Covers, LastRing, Young;
  }

  lemma RoundYoung(c: Config)
    requires TunablesOk(c)
    ensures Young(c, MonoMs(c)) && c.now - MonoMs(c) as real < c.windowMs as real
  {
  }

  // ---------------------------------------------------------------- the ring step settles

  /** What the ring step may look at, and how it follows from one plan to the next. */
  ghost predicate RingFollows(inp: Input, nxt: Input, n: Str, session: Str, a: Acct, recs: seq<Rec>)
  {
    nxt.c == inp.c && TimesOf(nxt, n) == TimesOf(inp, n) + RingsOf(recs, n) &&
    inp.rung <= nxt.rung && (forall i :: Intent(i) in recs ==> Pairs(i.session, i.ids) <= nxt.rung) &&
    (forall i :: i in a.rings ==> MonoOf(nxt.mono, i.id) == MonoOf(inp.mono, i.id)) &&
    (forall i :: Intent(i) in recs ==> MonoOf(nxt.mono, i.id) == i.mono)
  }

  /** With no new ring: an id due, or at its cap, was so before. */
  lemma NoRingDone(inp: Input, nxt: Input, n: Str, session: Str, l: Ledger, m: Ledger, p: set<Str>)
    requires nxt.c == inp.c && TimesOf(nxt, n) == TimesOf(inp, n) && inp.rung <= nxt.rung
    requires m == l.(stuck := m.stuck) && (forall x :: x in l.stuck ==> x in m.stuck)
    requires forall id :: id in l.last ==> (session, id) in inp.rung
    requires var u := Unrung(session, p, inp.rung);
             (forall id :: id in AtCap(inp.c, l, p, u) ==> HasStuck(m, id)) &&
             !MayRing(inp.c, l, TimesOf(inp, n), u, Again(inp.c, l, p, u))
    ensures RingDone(nxt, n, session, m, p)
  {
    hide ExhaustedNow, Coalescing, Young;
    var c, u, w := inp.c, Unrung(session, p, inp.rung), Unrung(session, p, nxt.rung);
    assert w <= u;
    assert Again(c, m, p, w) <= Again(c, l, p, u);
    assert AtCap(c, m, p, w) <= AtCap(c, l, p, u);
    assert forall id :: id in AtCap(c, m, p, w) ==> !HasStuck(m, id);
  }

  lemma RingedDone(inp: Input, nxt: Input, n: Str, session: Str, l: Ledger, m: Ledger, p: set<Str>, rung: set<Str>)
    requires nxt.c == inp.c && TunablesOk(inp.c) && MonoMs(inp.c) in TimesOf(nxt, n) && inp.rung <= nxt.rung
    requires forall id :: id in l.last ==> (session, id) in inp.rung
    requires (l.unresponsive.Some? ==> m.unresponsive.Some?) && (forall x :: x in l.stuck ==> x in m.stuck)
    requires forall id :: id in AtCap(inp.c, l, p, Unrung(session, p, inp.rung)) ==> HasStuck(m, id)
    requires forall id :: id in p ==>
               if id in rung then !Due(inp.c, m, id) else (Due(inp.c, m, id) <==> Due(inp.c, l, id)) && CountOf(m, id) == CountOf(l, id)
    ensures RingDone(nxt, n, session, m, p)
  {
    hide ExhaustedNow, Young, TunablesOk, MonoMs, CountOf;
    var c, u, w := inp.c, Unrung(session, p, inp.rung), Unrung(session, p, nxt.rung);
    RoundYoung(c);
    assert Coalescing(c, TimesOf(nxt, n));
    assert AtCap(c, m, p, w) <= AtCap(c, l, p, u);
    assert forall id :: id in AtCap(c, m, p, w) ==> !HasStuck(m, id);
  }

  lemma CalmStuck(c: Config, l: Ledger, m: Ledger, p: set<Str>, ids: seq<Str>)
    requires Calm(c, l, p) && m == l.(stuck := m.stuck)
    requires forall x :: x in m.stuck && x !in l.stuck ==> x.ids != [] && x.ids[0] in ids
    requires forall id :: id in ids ==> id in p
    ensures Calm(c, m, p)
  {
    hide Young;
  }

  lemma CalmRing(c: Config, l: Ledger, m: Ledger, p: set<Str>, i: IntentRec)
    requires Calm(c, l, p) && Elems(i.ids) <= p && Young(c, i.mono)
    requires m.rung == l.rung + Elems(i.ids) && m.left == l.left && m.counter == l.counter && m.stuck == l.stuck
    requires m.unresponsive == if i.during && l.unresponsive.Some? then Some(Noted(l.unresponsive.value, i)) else l.unresponsive
    requires forall o :: o in m.outstanding ==> o in l.outstanding || o.mono == i.mono
    ensures Calm(c, m, p)
  {
    hide Young;
    assert LeftNow(m, p) <= LeftNow(l, p);
  }

  /** Everything the ring step looks at, after the ids at their cap are dropped. */
  ghost predicate Dropped(inp: Input, n: Str, session: Str, a: Acct, b: Acct, p: set<Str>)
  {
    var l, m := LedgerOf(a, session, inp.mono), LedgerOf(b, session, inp.mono);
    b.rings == a.rings && b.judged == a.judged && m == l.(stuck := m.stuck) && (forall x :: x in l.stuck ==> x in m.stuck) &&
    (forall id :: id in AtCap(inp.c, l, p, Unrung(session, p, inp.rung)) ==> HasStuck(m, id)) && Calm(inp.c, m, p)
  }

  lemma RungInMemory(a: Acct, session: Str, mono: map<Str, int>, rung: set<(Str, Str)>)
    requires RungKnown(a.rings, rung)
    ensures forall id :: id in LedgerOf(a, session, mono).last ==> (session, id) in rung
  {
    RungIdsMembers(a.rings, session);
  }

  lemma QuietSettles(inp: Input, nxt: Input, n: Str, session: Str, a: Acct, b: Acct, p: set<Str>, recs: seq<Rec>)
    requires Dropped(inp, n, session, a, b, p) && RungKnown(a.rings, inp.rung) && RingFollows(inp, nxt, n, session, a, recs)
    requires NoIntents(recs)
    requires var u := Unrung(session, p, inp.rung); var l := LedgerOf(a, session, inp.mono);
             !MayRing(inp.c, l, TimesOf(inp, n), u, Again(inp.c, l, p, u))
    ensures LedgerOf(b, session, nxt.mono) == LedgerOf(b, session, inp.mono)
    ensures RingDone(nxt, n, session, LedgerOf(b, session, nxt.mono), p)
  {
    hide MayRing, Again, AtCap, LedgerOf, RungKnown, RingDone, Calm;
    LedgerMono(b, session, inp.mono, nxt.mono);
    RungInMemory(a, session, inp.mono, inp.rung);
    NoRings(recs, n);
    assert TimesOf(inp, n) + [] == TimesOf(inp, n);
    NoRingDone(inp, nxt, n, session, LedgerOf(a, session, inp.mono), LedgerOf(b, session, inp.mono), p);
  }

  lemma RingSettles(inp: Input, nxt: Input, n: Str, session: Str, a: Acct, b: Acct, p: set<Str>, recs: seq<Rec>, i: IntentRec)
    requires Dropped(inp, n, session, a, b, p) && RungKnown(a.rings, inp.rung) && RingFollows(inp, nxt, n, session, a, recs)
    requires TunablesOk(inp.c) && RingsOf(recs, n) == [MonoMs(inp.c)] && Intent(i) in recs
    requires i.agent == n && i.session == session && i.mono == MonoMs(inp.c) && Elems(i.ids) <= p
    ensures var m := LedgerOf(Step(b, Intent(i), n), session, nxt.mono);
            Calm(inp.c, m, p) && RingDone(nxt, n, session, m, p)
  {
    RoundYoung(inp.c);
    hide AtCap, LedgerOf, RungKnown, RingDone, Calm, Young, TunablesOk, MonoMs, Step, Due, CountOf, HasStuck;
    var l, k := LedgerOf(a, session, inp.mono), LedgerOf(b, session, inp.mono);
    var m := LedgerOf(Step(b, Intent(i), n), session, nxt.mono);
    AfterIntent(b, n, i, session, inp.mono, nxt.mono);
    CalmRing(inp.c, k, m, p, i);
    RungInMemory(a, session, inp.mono, inp.rung);
    forall id | id in p
      ensures if id in Elems(i.ids) then !Due(inp.c, m, id) else (Due(inp.c, m, id) <==> Due(inp.c, l, id)) && CountOf(m, id) == CountOf(l, id)
    {
      AfterIntentDue(inp.c, b, n, i, session, inp.mono, nxt.mono, id);
      SameDue(inp.c, l, k, id);
    }
    RingedDone(inp, nxt, n, session, l, m, p, Elems(i.ids));
  }

  lemma SameDue(c: Config, l: Ledger, m: Ledger, id: Str)
    requires m == l.(stuck := m.stuck)
    ensures (Due(c, m, id) <==> Due(c, l, id)) && CountOf(m, id) == CountOf(l, id)
  {
  }

  // ---------------------------------------------------------------- the board, moved again

  predicate BoardSettled(cur: Option<BoardRec>, next: Option<Case>)
  {
    match next
    case None => cur == None
    case Some(x) => cur.Some? && cur.value.kase == x.kase && cur.value.why == x.why
  }

  lemma BoardSettles(c: Config, n: Str, cur: Option<BoardRec>, next: Option<Case>, count: nat, why: BoardClose, uid: nat -> Str, k: nat)
    ensures BoardSettled(BoardAfter(cur, BoardTo(c, n, cur, next, count, why, uid, k)), next)
  {
    var recs := BoardTo(c, n, cur, next, count, why, uid, k);
    if cur.Some? && recs != [] {
      var closed := recs[0];
      BoardAfterOne(cur, closed);
      if next.Some? {
        assert recs == [closed] + [recs[1]];
        AfterConcat(cur, false, [closed], [recs[1]]);
        BoardAfterOne(None, recs[1]);
      } else {
        assert recs == [closed];
      }
    } else if recs != [] {
      assert recs == [recs[0]];
      BoardAfterOne(cur, recs[0]);
    }
  }

  lemma BoardAfterOne(cur: Option<BoardRec>, r: Rec)
    requires r.Board?
    ensures BoardAfter(cur, [r]) == if r.b.isOpen then Some(r.b) else if cur.Some? && cur.value.id == r.b.id then None else cur
  {
    assert [r][..0] == [];
  }

  lemma SettledWritesNothing(c: Config, n: Str, cur: Option<BoardRec>, next: Option<Case>, count: nat, why: BoardClose, uid: nat -> Str, k: nat)
    requires BoardSettled(cur, next)
    ensures BoardTo(c, n, cur, next, count, why, uid, k) == []
  {
  }

  lemma {:induction false} BoardUnmoved(cur: Option<BoardRec>, recs: seq<Rec>)
    requires forall r :: r in recs ==> !r.Board?
    ensures BoardAfter(cur, recs) == cur
  {
    if recs != [] {
      assert recs[|recs| - 1] in recs;
      BoardUnmoved(cur, recs[..|recs| - 1]);
    }
  }

  lemma {:induction false} SpentUnmoved(spent: bool, recs: seq<Rec>)
    requires forall r :: r in recs ==> !r.Budget?
    ensures SpentAfter(spent, recs) == spent
  {
    if recs != [] {
      assert recs[|recs| - 1] in recs;
      SpentUnmoved(spent, recs[..|recs| - 1]);
    }
  }

  /** The parts of an agent's records: verdicts, a budget change, board moves, then the ring step. */
  lemma PartsAfter(cur: Option<BoardRec>, spent: bool, J: seq<Rec>, G: seq<Rec>, B: seq<Rec>, R: seq<Rec>)
    requires Verdicts(J) && (forall r :: r in G ==> r.Budget?) && (forall r :: r in B ==> r.Board?)
    requires forall r :: r in R ==> !r.Board? && !r.Budget?
    ensures BoardAfter(cur, J + G + (B + R)) == BoardAfter(cur, B) && SpentAfter(spent, J + G + (B + R)) == SpentAfter(spent, G)
  {
    AfterConcat(cur, spent, J + G, B + R);
    AfterConcat(cur, spent, J, G);
    BoardUnmoved(cur, J);
    SpentUnmoved(spent, J);
    BoardUnmoved(cur, G);
    var s := SpentAfter(spent, G);
    AfterConcat(cur, s, B, R);
    SpentUnmoved(s, B);
    SpentUnmoved(s, R);
    BoardUnmoved(BoardAfter(cur, B), R);
  }

  // ---------------------------------------------------------------- one agent at rest

  ghost predicate JudgeStill(inp: Input, n: Str, read: PendingRead)
  {
    read.registered && read.session.Some? ==>
      var a := Account(inp.log, n);
      OnlyMine(a, read.session.value) && Calm(inp.c, LedgerOf(a, read.session.value, inp.mono), Elems(read.ids))
  }

  ghost predicate MailStill(inp: Input, n: Str, read: PendingRead)
  {
    if !read.registered || read.ids == [] then CurBoard(inp, n) == None
    else
      var bs := OfAgent(inp.bindings, n);
      var d := Decide(inp, n, read, bs);
      d.Show? && BoardSettled(CurBoard(inp, n), d.next) &&
      (d.ring && read.session.Some? && AliveOf(bs, inp.ownHost) != [] ==>
        RingDone(inp, n, read.session.value, LedgerOf(Account(inp.log, n), read.session.value, inp.mono), Elems(read.ids)))
  }

  lemma StillJudgesNothing(inp: Input, n: Str, read: PendingRead, k: nat)
    requires JudgeStill(inp, n, read) && read.registered
    ensures JudgeOf(inp, n, read, k) == []
    ensures read.session.Some? ==>
              LedgerAfter(inp, n, read.session.value, Elems(read.ids), k) == LedgerOf(Account(inp.log, n), read.session.value, inp.mono)
  {
    hide OnlyMine, Calm, LedgerOf, MootRecs, JudgeRecs, Judged;
    if read.session.Some? {
      var a, rs := Account(inp.log, n), read.session.value;
      OnlyMineMoot(inp.c, n, a, rs);
      CalmJudge(inp.c, n, rs, LedgerOf(a, rs, inp.mono), Elems(read.ids), inp.uid, k);
    }
  }

  /** An agent at rest writes a budget change or nothing. */
  lemma StillWritesNothing(inp: Input, n: Str, read: PendingRead, k: nat)
    requires JudgeStill(inp, n, read)
    ensures AbsentRecs(inp, n, read, k) == []
    ensures MailStill(inp, n, read) ==>
              AgentRecs(inp, n, read, k) == if read.registered then BudgetRecs(inp, n, read.session) else []
  {
    hide JudgeStill, JudgeOf, LedgerAfter, LedgerOf, BoardTo, BoardSettled, RingDone, RingRecs, Decide, OfAgent, AliveOf, BudgetRecs, CurBoard;
    if read.registered { StillJudgesNothing(inp, n, read, k); }
    if MailStill(inp, n, read) {
      NoCaseSettled();
      var bs, m := OfAgent(inp.bindings, n), k + |[] + BudgetRecs(inp, n, read.session)|;
      SettledWritesNothing(inp.c, n, None, None, 0, NoMail, inp.uid, k);
      SettledWritesNothing(inp.c, n, None, None, 0, NoMail, inp.uid, m);
      if read.registered && read.ids != [] {
        var d := Decide(inp, n, read, bs);
        SettledWritesNothing(inp.c, n, CurBoard(inp, n), d.next, |read.ids|, Resolved, inp.uid, m);
        if d.ring && read.session.Some? && AliveOf(bs, inp.ownHost) != [] {
          RingDoneWritesNothing(inp, n, read.session.value, LedgerAfter(inp, n, read.session.value, Elems(read.ids), k),
                                Elems(read.ids), AliveOf(bs, inp.ownHost)[0].id, m);
        }
      }
    }
  }

  lemma NoCaseSettled()
    ensures BoardSettled(None, None)
  {
  }
}
