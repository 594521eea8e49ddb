/**
  * One agent's history, read from the log alone. `Acct` is everything a log says about an agent,
  * for every reading session at once; `LedgerOf` is the part of it the planner sees for one session.
  */
module DoorbellLedger {
  import opened Canon
  import opened DoorbellLog
  import opened Wrappers

  /** An open escalation, its episode's ids, and whether its one extra ring is spent. */
  datatype OpenEsc = OpenEsc(rec: EscRec, episode: set<Str>, extra: bool)

  datatype Acct = Acct(
    rings: seq<IntentRec>,
    judged: set<Str>,
    left: set<(Str, Str)>,
    streak: map<Str, nat>,
    open: seq<OpenEsc>)

  const NOTHING := Acct([], {}, {}, map[], [])

  function Streak(a: Acct, session: Str): nat
  {
    if session in a.streak then a.streak[session] else 0
  }

  function Pairs(session: Str, ids: seq<Str>): set<(Str, Str)>
  {
    set id | id in ids :: (session, id)
  }

  function Noted(e: OpenEsc, i: IntentRec): OpenEsc
  {
    if e.rec.reason == Unresponsive && e.rec.session == i.session
    then OpenEsc(e.rec, e.episode + Elems(i.ids), true)
    else e
  }

  /** The episode's extra ring joins every open `agent_unresponsive` escalation of its session. */
  function NoteExtra(open: seq<OpenEsc>, i: IntentRec): (r: seq<OpenEsc>)
    ensures |r| == |open| && forall k :: 0 <= k < |open| ==> r[k] == Noted(open[k], i)
  {
    if open == [] then [] else NoteExtra(open[..|open| - 1], i) + [Noted(open[|open| - 1], i)]
  }

  predicate HasOpen(open: seq<OpenEsc>, id: Str)
  {
    exists k :: 0 <= k < |open| && open[k].rec.id == id
  }

  function DropOpen(open: seq<OpenEsc>, id: Str): seq<OpenEsc>
  {
    if open == [] then []
    else
      var p, e := DropOpen(open[..|open| - 1], id), open[|open| - 1];
      if e.rec.id == id then p else p + [e]
  }

  /** A keyed insertion: an existing key keeps its place. */
  function PutOpen(open: seq<OpenEsc>, e: OpenEsc): seq<OpenEsc>
  {
    if HasOpen(open, e.rec.id)
    then seq(|open|, k requires 0 <= k < |open| => if open[k].rec.id == e.rec.id then e else open[k])
    else open + [e]
  }

  /** What one record changes in agent `n`'s account. */
  function Step(a: Acct, r: Rec, n: Str): Acct
  {
    if AgentOf(r) != Some(n) then a
    else match r
      case Intent(i) => a.(rings := a.rings + [i], open := if i.during then NoteExtra(a.open, i) else a.open)
      case Effect(e) =>
        var b := a.(judged := a.judged + Elems(e.intents));
        (match e.outcome
         case Effective => b.(left := a.left + Pairs(e.session, e.left), streak := a.streak[e.session := 0])
         case Ineffective => b.(streak := a.streak[e.session := Streak(a, e.session) + 1])
         case SessionChanged => b)
      case Escalation(x) =>
        a.(open := if x.isOpen then PutOpen(a.open, OpenEsc(x, Elems(x.ids), false)) else DropOpen(a.open, x.id))
      case _ => a
  }

  function Run(a: Acct, recs: seq<Rec>, n: Str): Acct
  {
    if recs == [] then a else Step(Run(a, recs[..|recs| - 1], n), recs[|recs| - 1], n)
  }

  function Account(log: seq<Rec>, n: Str): Acct
  {
    Run(NOTHING, log, n)
  }

  lemma RunAppend(a: Acct, recs: seq<Rec>, r: Rec, n: Str)
    ensures Run(a, recs + [r], n) == Step(Run(a, recs, n), r, n)
  {
    assert (recs + [r])[..|recs|] == recs;
  }

  lemma {:induction false} RunConcat(a: Acct, x: seq<Rec>, y: seq<Rec>, n: Str)
    ensures Run(a, x + y, n) == Run(Run(a, x, n), y, n)
    decreases |y|
  {
    if y == [] {
      assert x + y == x;
    } else {
      var z, r := y[..|y| - 1], y[|y| - 1];
      RunConcat(a, x, z, n);
      assert x + y == (x + z) + [r];
      RunAppend(a, x + z, r, n);
    }
  }

  /** Other agents' records leave an account alone. */
  lemma {:induction false} RunFrame(a: Acct, recs: seq<Rec>, n: Str)
    requires forall r :: r in recs ==> AgentOf(r) != Some(n)
    ensures Run(a, recs, n) == a
    decreases |recs|
  {
    if recs != [] {
      RunFrame(a, recs[..|recs| - 1], n);
      assert recs[|recs| - 1] in recs;
    }
  }

  // ---------------------------------------------------------------- what the rings say

  /** How many rings of this session covered `id`. */
  function Covers(rings: seq<IntentRec>, session: Str, id: Str): nat
  {
    if rings == [] then 0
    else
      var i := rings[|rings| - 1];
      Covers(rings[..|rings| - 1], session, id) + if i.session == session && id in i.ids then 1 else 0
  }

  function RungIds(rings: seq<IntentRec>, session: Str): set<Str>
  {
    if rings == [] then {}
    else
      var i := rings[|rings| - 1];
      var p := RungIds(rings[..|rings| - 1], session);
      if i.session == session then p + Elems(i.ids) else p
  }

  /** The latest time of a ring that covered `id`, on the clock `mono`. */
  function LastRing(rings: seq<IntentRec>, session: Str, id: Str, mono: map<Str, int>): Option<int>
  {
    if rings == [] then None
    else
      var i := rings[|rings| - 1];
      var p := LastRing(rings[..|rings| - 1], session, id, mono);
      if i.session == session && id in i.ids
      then Some(if p.Some? && p.value > MonoOf(mono, i.id) then p.value else MonoOf(mono, i.id))
      else p
  }

  function MonoOf(mono: map<Str, int>, id: Str): int
  {
    if id in mono then mono[id] else 0
  }

  /** The rings no effect record names, in log order. */
  function Unjudged(rings: seq<IntentRec>, judged: set<Str>): seq<IntentRec>
  {
    if rings == [] then []
    else
      var p, i := Unjudged(rings[..|rings| - 1], judged), rings[|rings| - 1];
      if i.id in judged then p else p + [i]
  }

  function OfSession(rings: seq<IntentRec>, session: Str): seq<IntentRec>
  {
    if rings == [] then []
    else
      var p, i := OfSession(rings[..|rings| - 1], session), rings[|rings| - 1];
      if i.session == session then p + [i] else p
  }

  // ---------------------------------------------------------------- the planner's view

  datatype Ring = Ring(id: Str, mono: int)

  datatype Ledger = Ledger(
    rung: set<Str>,
    count: map<Str, nat>,
    last: map<Str, int>,
    outstanding: seq<Ring>,
    left: set<Str>,
    counter: nat,
    unresponsive: Option<OpenEsc>,
    stuck: seq<EscRec>)

  function InsertRing(s: seq<Ring>, x: Ring): seq<Ring>
  {
    if s == [] || s[|s| - 1].mono <= x.mono then s + [x]
    else InsertRing(s[..|s| - 1], x) + [s[|s| - 1]]
  }

  /** Oldest first; the sort is stable, so equal times keep log order. */
  function SortRings(rings: seq<IntentRec>, mono: map<Str, int>): seq<Ring>
  {
    if rings == [] then []
    else
      var i := rings[|rings| - 1];
      InsertRing(SortRings(rings[..|rings| - 1], mono), Ring(i.id, MonoOf(mono, i.id)))
  }

  /** The open `agent_unresponsive` escalation of this session (the last opened, were there several). */
  function UnresponsiveOf(open: seq<OpenEsc>, session: Str): Option<OpenEsc>
  {
    if open == [] then None
    else
      var e := open[|open| - 1];
      if e.rec.session == session && e.rec.reason == Unresponsive then Some(e)
      else UnresponsiveOf(open[..|open| - 1], session)
  }

  function StuckOf(open: seq<OpenEsc>, session: Str): seq<EscRec>
  {
    if open == [] then []
    else
      var p, e := StuckOf(open[..|open| - 1], session), open[|open| - 1];
      if e.rec.session == session && e.rec.reason == IdStuck then p + [e.rec] else p
  }

  function ElsewhereOf(open: seq<OpenEsc>, session: Str): seq<EscRec>
  {
    if open == [] then []
    else
      var p, e := ElsewhereOf(open[..|open| - 1], session), open[|open| - 1];
      if e.rec.session != session then p + [e.rec] else p
  }

  function LeftOf(left: set<(Str, Str)>, session: Str): (s: set<Str>)
    ensures forall id :: id in s <==> (session, id) in left
  {
    set p | p in left && p.0 == session :: p.1
  }

  function LedgerOf(a: Acct, session: Str, mono: map<Str, int>): Ledger
  {
    var rung := RungIds(a.rings, session);
    Ledger(
      rung,
      map id | id in rung :: Covers(a.rings, session, id),
      map id | id in rung && LastRing(a.rings, session, id, mono).Some? :: LastRing(a.rings, session, id, mono).value,
      SortRings(Unjudged(OfSession(a.rings, session), a.judged), mono),
      LeftOf(a.left, session),
      Streak(a, session),
      UnresponsiveOf(a.open, session),
      StuckOf(a.open, session))
  }

  // ---------------------------------------------------------------- members of the lists above

  lemma {:induction false} DropOpenMembers(open: seq<OpenEsc>, id: Str)
    ensures forall e :: e in DropOpen(open, id) <==> e in open && e.rec.id != id
  {
    if open != [] {
      DropOpenMembers(open[..|open| - 1], id);
      assert open == open[..|open| - 1] + [open[|open| - 1]];
    }
  }

  lemma {:induction false} RungIdsMembers(rings: seq<IntentRec>, session: Str)
    ensures forall i, id :: i in rings && i.session == session && id in i.ids ==> id in RungIds(rings, session)
    ensures forall id :: id in RungIds(rings, session) ==> exists i :: i in rings && i.session == session && id in i.ids
  {
    if rings != [] {
      RungIdsMembers(rings[..|rings| - 1], session);
      assert rings == rings[..|rings| - 1] + [rings[|rings| - 1]];
    }
  }

  lemma {:induction false} UnjudgedMembers(rings: seq<IntentRec>, judged: set<Str>)
    ensures forall i :: i in Unjudged(rings, judged) <==> i in rings && i.id !in judged
  {
    if rings != [] {
      UnjudgedMembers(rings[..|rings| - 1], judged);
      assert rings == rings[..|rings| - 1] + [rings[|rings| - 1]];
    }
  }

  lemma {:induction false} OfSessionMembers(rings: seq<IntentRec>, session: Str)
    ensures forall i :: i in OfSession(rings, session) <==> i in rings && i.session == session
  {
    if rings != [] {
      OfSessionMembers(rings[..|rings| - 1], session);
      assert rings == rings[..|rings| - 1] + [rings[|rings| - 1]];
    }
  }

  lemma {:induction false} InsertRingMembers(s: seq<Ring>, x: Ring)
    ensures forall y :: y in InsertRing(s, x) <==> y == x || y in s
  {
    if s != [] && s[|s| - 1].mono > x.mono {
      InsertRingMembers(s[..|s| - 1], x);
      assert s == s[..|s| - 1] + [s[|s| - 1]];
    }
  }

  lemma {:induction false} SortRingsMembers(rings: seq<IntentRec>, mono: map<Str, int>)
    ensures forall i :: i in rings ==> Ring(i.id, MonoOf(mono, i.id)) in SortRings(rings, mono)
    ensures forall y :: y in SortRings(rings, mono) ==> y.mono == MonoOf(mono, y.id) && exists i :: i in rings && i.id == y.id
  {
    if rings != [] {
      var i := rings[|rings| - 1];
      SortRingsMembers(rings[..|rings| - 1], mono);
      InsertRingMembers(SortRings(rings[..|rings| - 1], mono), Ring(i.id, MonoOf(mono, i.id)));
      assert rings == rings[..|rings| - 1] + [i];
    }
  }

  lemma {:induction false} StuckOfMembers(open: seq<OpenEsc>, session: Str)
    ensures forall e :: e in open && e.rec.session == session && e.rec.reason == IdStuck ==> e.rec in StuckOf(open, session)
    ensures forall x :: x in StuckOf(open, session) ==>
              x.session == session && x.reason == IdStuck && exists e :: e in open && e.rec == x
  {
    if open != [] {
      StuckOfMembers(open[..|open| - 1], session);
      assert open == open[..|open| - 1] + [open[|open| - 1]];
    }
  }

  lemma {:induction false} ElsewhereOfMembers(open: seq<OpenEsc>, session: Str)
    ensures forall e :: e in open && e.rec.session != session ==> e.rec in ElsewhereOf(open, session)
    ensures forall x :: x in ElsewhereOf(open, session) ==> x.session != session && exists e :: e in open && e.rec == x
  {
    if open != [] {
      ElsewhereOfMembers(open[..|open| - 1], session);
      assert open == open[..|open| - 1] + [open[|open| - 1]];
    }
  }
}
