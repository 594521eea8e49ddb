/**
  * What a record must satisfy against the history it joins, and the shape of account that such records
  * build. A reading session is compared with the one the agent is bound to now.
  */
module DoorbellAdmit {
  import opened Canon
  import opened DoorbellLog
  import opened DoorbellLedger
  import opened DoorbellPlan
  import opened Wrappers

  /** What the doorbell reads of one agent: its bound session and that session's pending ids. */
  datatype View = View(session: Option<Str>, pending: set<Str>)

  predicate DistinctRecs(rings: seq<IntentRec>)
  {
    forall j, k :: 0 <= j < k < |rings| ==> rings[j].id != rings[k].id
  }

  predicate RingsWf(rings: seq<IntentRec>, n: Str)
  {
    (forall k :: 0 <= k < |rings| ==> rings[k].agent == n && rings[k].ids != [] && Ascending(rings[k].ids)) &&
    DistinctRecs(rings)
  }

  predicate EscWf(e: OpenEsc, n: Str)
  {
    e.rec.isOpen && e.rec.agent == n && e.rec.ids != [] && Elems(e.rec.ids) <= e.episode &&
    (e.rec.reason == IdStuck ==> |e.rec.ids| == 1 && !e.extra)
  }

  /** The same escalation key: one `agent_unresponsive` per session, one `id_stuck` per (session, id). */
  predicate SameKey(x: EscRec, y: EscRec)
  {
    x.session == y.session && x.reason == y.reason &&
    (x.reason == IdStuck ==> x.ids != [] && y.ids != [] && x.ids[0] == y.ids[0])
  }

  predicate OpenWf(open: seq<OpenEsc>, n: Str)
  {
    (forall k :: 0 <= k < |open| ==> EscWf(open[k], n)) &&
    (forall j, k :: 0 <= j < k < |open| ==> open[j].rec.id != open[k].rec.id && !SameKey(open[j].rec, open[k].rec))
  }

  predicate AcctWf(a: Acct, n: Str)
  {
    RingsWf(a.rings, n) && OpenWf(a.open, n)
  }

  predicate IntentFits(a: Acct, i: IntentRec, v: View)
  {
    i.ids != [] && Ascending(i.ids) && v.session == Some(i.session) &&
    (forall id :: id in i.ids ==> id in v.pending && Covers(a.rings, i.session, id) < RE_RING_CAP) &&
    (forall r :: r in a.rings ==> r.id != i.id) &&
    (forall e :: e in a.open && e.rec.session == i.session && e.rec.reason == Unresponsive ==> i.during && !e.extra) &&
    (i.during ==> exists e :: e in a.open && e.rec.session == i.session && e.rec.reason == Unresponsive)
  }

  /** A ring of this session that no effect record names yet. */
  predicate Judgeable(a: Acct, session: Str, x: Str)
  {
    x !in a.judged && exists r :: r in a.rings && r.id == x && r.session == session
  }

  /** These ids are all the unjudged rings of the session, or as many as one record holds. */
  predicate Covering(a: Acct, session: Str, ids: seq<Str>)
  {
    |ids| == MAX_IDS || forall i :: i in a.rings && i.session == session && i.id !in a.judged ==> i.id in ids
  }

  predicate EffectFits(a: Acct, e: EffectRec, v: View)
  {
    Ascending(e.intents) && (forall x :: x in e.intents ==> Judgeable(a, e.session, x)) &&
    v.session.Some? && (e.intents != [] || e.left != []) &&
    match e.outcome
    case Effective =>
      v.session.value == e.session && Covering(a, e.session, e.intents) &&
      forall id :: id in e.left ==> id in RungIds(a.rings, e.session) && id !in v.pending && (e.session, id) !in a.left
    case Ineffective => v.session.value == e.session && |e.intents| == 1 && e.left == []
    case SessionChanged => v.session.value != e.session && e.left == []
  }

  predicate EscFits(a: Acct, x: EscRec, v: View)
  {
    v.session.Some? &&
    if x.isOpen then
      v.session.value == x.session && !HasOpen(a.open, x.id) && x.ids != [] &&
      (x.reason == IdStuck ==> |x.ids| == 1) &&
      (forall id :: id in x.ids ==> id in RungIds(a.rings, x.session) && id in v.pending) &&
      (forall e :: e in a.open ==> !SameKey(e.rec, x))
    else
      x.close.Some? && (x.close == Some(Moved) <==> v.session.value != x.session) &&
      exists e :: e in a.open && e.rec.id == x.id && e.rec.session == x.session && e.rec.reason == x.reason &&
                  (x.close == Some(Progress) ==> !(e.episode <= v.pending))
  }

  /** May record `r` join agent `n`'s history `a`, when the agent reads as `v`? */
  predicate Fits(a: Acct, n: Str, v: View, r: Rec)
  {
    AgentOf(r) == Some(n) &&
    match r
    case Intent(i) => IntentFits(a, i, v)
    case Effect(e) => EffectFits(a, e, v)
    case Escalation(x) => EscFits(a, x, v)
    case _ => true
  }

  /** Every record fits the history built by those before it. */
  predicate AllFit(a: Acct, n: Str, v: View, recs: seq<Rec>)
  {
    recs == [] ||
    (AllFit(a, n, v, recs[..|recs| - 1]) && Fits(Run(a, recs[..|recs| - 1], n), n, v, recs[|recs| - 1]))
  }

  lemma {:induction false} AllFitConcat(a: Acct, n: Str, v: View, x: seq<Rec>, y: seq<Rec>)
    requires AllFit(a, n, v, x) && AllFit(Run(a, x, n), n, v, y)
    ensures AllFit(a, n, v, x + y)
    decreases |y|
  {
    if y == [] {
      assert x + y == x;
    } else {
      var z := y[..|y| - 1];
      AllFitConcat(a, n, v, x, z);
      RunConcat(a, x, z, n);
      assert (x + y)[..|x + y| - 1] == x + z;
    }
  }

  lemma AllFitSnoc(a: Acct, n: Str, v: View, x: seq<Rec>, r: Rec)
    requires AllFit(a, n, v, x) && Fits(Run(a, x, n), n, v, r)
    ensures AllFit(a, n, v, x + [r]) && Run(a, x + [r], n) == Step(Run(a, x, n), r, n)
  {
    assert (x + [r])[..|x|] == x;
  }

  lemma AllFitOne(a: Acct, n: Str, v: View, r: Rec)
    requires Fits(a, n, v, r)
    ensures AllFit(a, n, v, [r]) && Run(a, [r], n) == Step(a, r, n)
  {
    assert [r][..0] == [];
  }

  lemma {:induction false} AllFitPrefix(a: Acct, n: Str, v: View, recs: seq<Rec>, m: nat)
    requires AllFit(a, n, v, recs) && m <= |recs|
    ensures AllFit(a, n, v, recs[..m])
    decreases |recs|
  {
    if m < |recs| {
      AllFitPrefix(a, n, v, recs[..|recs| - 1], m);
      assert recs[..|recs| - 1][..m] == recs[..m];
    } else {
      assert recs[..m] == recs;
    }
  }

  // ---------------------------------------------------------------- fitting records keep the shape

  lemma {:induction false} NoteExtraWf(open: seq<OpenEsc>, i: IntentRec, n: Str)
    requires OpenWf(open, n)
    ensures OpenWf(NoteExtra(open, i), n)
  {
  }

  lemma {:induction false} DropOpenWf(open: seq<OpenEsc>, id: Str, n: Str)
    requires OpenWf(open, n)
    ensures OpenWf(DropOpen(open, id), n)
    decreases |open|
  {
    if open != [] {
      DropOpenWf(open[..|open| - 1], id, n);
      DropOpenMembers(open[..|open| - 1], id);
      var p, e := DropOpen(open[..|open| - 1], id), open[|open| - 1];
      forall k | 0 <= k < |p| ensures p[k].rec.id != e.rec.id && !SameKey(p[k].rec, e.rec)
      {
        assert p[k] in p;
        var j :| 0 <= j < |open| - 1 && open[j] == p[k];
      }
    }
  }

  lemma StepWf(a: Acct, n: Str, v: View, r: Rec)
    requires AcctWf(a, n) && Fits(a, n, v, r)
    ensures AcctWf(Step(a, r, n), n)
  {
    hide RingsWf, OpenWf, IntentFits, EscFits;
    match r
    case Intent(i) =>
      NoteExtraWf(a.open, i, n);
      RingWf(a, n, i, v);
    case Escalation(x) =>
      if x.isOpen { OpenedWf(a, n, x, v); } else { DropOpenWf(a.open, x.id, n); }
    case _ =>
  }

  lemma RingWf(a: Acct, n: Str, i: IntentRec, v: View)
    requires RingsWf(a.rings, n) && i.agent == n && IntentFits(a, i, v)
    ensures RingsWf(a.rings + [i], n)
  {
    forall k | 0 <= k < |a.rings| ensures a.rings[k].id != i.id { assert a.rings[k] in a.rings; }
    hide Covers;
  }

  lemma OpenedWf(a: Acct, n: Str, x: EscRec, v: View)
    requires OpenWf(a.open, n) && x.agent == n && x.isOpen && EscFits(a, x, v)
    ensures OpenWf(PutOpen(a.open, OpenEsc(x, Elems(x.ids), false)), n)
  {
    forall k | 0 <= k < |a.open| ensures a.open[k].rec.id != x.id && !SameKey(a.open[k].rec, x) { assert a.open[k] in a.open; }
    hide RungIds;
  }

  lemma {:induction false} RunWf(a: Acct, n: Str, v: View, recs: seq<Rec>)
    requires AcctWf(a, n) && AllFit(a, n, v, recs)
    ensures AcctWf(Run(a, recs, n), n)
    decreases |recs|
  {
    if recs != [] {
      RunWf(a, n, v, recs[..|recs| - 1]);
      StepWf(Run(a, recs[..|recs| - 1], n), n, v, recs[|recs| - 1]);
    }
  }
}
