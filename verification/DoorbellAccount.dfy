/** What a log says of an agent, told of its records. */
module DoorbellAccount {
  // The account goes record by record; what it comes to is said here of the whole log: which rings were judged and which
  // ids recorded as left, how long the current run of ineffective rings is, and what each open escalation's episode is.

  import opened Canon
  import opened DoorbellLog
  import opened DoorbellLedger
  import opened DoorbellPlan
  import opened DoorbellAdmit
  import opened DoorbellWf
  import opened Wrappers

  predicate EffectAt(h: seq<Rec>, k: int, n: Str)
  {
    0 <= k < |h| && h[k].Effect? && h[k].e.agent == n
  }

  /** An ineffective judgement of the session with no progress after it. */
  predicate InRun(h: seq<Rec>, k: int, n: Str, session: Str)
  {
    EffectAt(h, k, n) && h[k].e.session == session && h[k].e.outcome == Ineffective &&
    forall j :: k < j < |h| && EffectAt(h, j, n) && h[j].e.session == session ==> h[j].e.outcome != Effective
  }

  function CurrentRun(h: seq<Rec>, n: Str, session: Str): set<int>
  {
    set k | 0 <= k < |h| && InRun(h, k, n, session)
  }

  predicate DuringAt(h: seq<Rec>, k: int, n: Str, session: Str)
  {
    0 <= k < |h| && h[k].Intent? && h[k].i.during && (h[k].i.agent, h[k].i.session) == (n, session)
  }

  /** A ring written during the escalation opened at `p`: its extra ring. */
  predicate ExtraAt(h: seq<Rec>, p: int, k: int, x: EscRec)
  {
    p < k && x.reason == Unresponsive && DuringAt(h, k, x.agent, x.session)
  }

  /** Opened at `p`, and no later record is of the same escalation. */
  predicate StillOpenAt(h: seq<Rec>, p: int, x: EscRec)
  {
    0 <= p < |h| && h[p] == Escalation(x) && x.isOpen && forall k :: p < k < |h| && h[k].Escalation? ==> h[k].x.id != x.id
  }

  /** The episode: the escalation's own ids and its extra ring's. */
  ghost predicate EpisodeIs(h: seq<Rec>, p: int, e: OpenEsc)
  {
    (forall id :: id in e.episode <==> id in e.rec.ids || exists k :: ExtraAt(h, p, k, e.rec) && id in h[k].i.ids) &&
    (e.extra <==> exists k :: ExtraAt(h, p, k, e.rec))
  }

  lemma AccountMore(h: seq<Rec>, n: Str)
    requires h != []
    ensures Account(h, n) == Step(Account(h[..|h| - 1], n), h[|h| - 1], n)
  {
    RunAppend(NOTHING, h[..|h| - 1], h[|h| - 1], n);
    assert h == h[..|h| - 1] + [h[|h| - 1]];
  }

  lemma StepTells(a: Acct, r: Rec, n: Str, session: Str)
    ensures var b := Step(a, r, n);
            var mine := r.Effect? && r.e.agent == n;
            b.judged == (if mine then a.judged + Elems(r.e.intents) else a.judged) &&
            b.left == (if mine && r.e.outcome == Effective then a.left + Pairs(r.e.session, r.e.left) else a.left) &&
            Streak(b, session) == if mine && r.e.session == session && r.e.outcome == Effective then 0
                                  else if mine && r.e.session == session && r.e.outcome == Ineffective then Streak(a, session) + 1 else Streak(a, session)
  {
  }

  lemma {:induction false} JudgedTold(h: seq<Rec>, n: Str, x: Str)
    ensures x in Account(h, n).judged <==> exists k :: EffectAt(h, k, n) && x in h[k].e.intents
  {
    if h != [] {
      var p, r := h[..|h| - 1], h[|h| - 1];
      JudgedTold(p, n, x);
      AccountMore(h, n);
      StepTells(Account(p, n), r, n, "");
      hide Account, Step;
      if EffectAt(h, |p|, n) && x in r.e.intents { assert x in h[|p|].e.intents; }
      forall k | EffectAt(p, k, n) ensures EffectAt(h, k, n) && h[k] == p[k] {}
      forall k | EffectAt(h, k, n) && k < |p| ensures EffectAt(p, k, n) && h[k] == p[k] {}
    }
  }

  lemma {:induction false} LeftTold(h: seq<Rec>, n: Str, session: Str, id: Str)
    ensures (session, id) in Account(h, n).left <==>
            exists k :: EffectAt(h, k, n) && h[k].e.session == session && h[k].e.outcome == Effective && id in h[k].e.left
  {
    if h != [] {
      var p, r := h[..|h| - 1], h[|h| - 1];
      LeftTold(p, n, session, id);
      AccountMore(h, n);
      StepTells(Account(p, n), r, n, session);
      hide Account, Step;
      if EffectAt(h, |p|, n) && r.e.session == session && r.e.outcome == Effective && id in r.e.left { assert id in h[|p|].e.left; }
      forall k | EffectAt(p, k, n) ensures EffectAt(h, k, n) && h[k] == p[k] {}
      forall k | EffectAt(h, k, n) && k < |p| ensures EffectAt(p, k, n) && h[k] == p[k] {}
    }
  }

  /** What one more record makes of the current run. */
  lemma RunMore(p: seq<Rec>, r: Rec, n: Str, session: Str)
    ensures var mine := r.Effect? && r.e.agent == n && r.e.session == session;
            CurrentRun(p + [r], n, session) ==
            if mine && r.e.outcome == Effective then {}
            else if mine && r.e.outcome == Ineffective then CurrentRun(p, n, session) + {|p|} else CurrentRun(p, n, session)
  {
    var h := p + [r];
    assert forall k :: 0 <= k < |p| ==> h[k] == p[k];
    forall k | 0 <= k < |h| && InRun(h, k, n, session) ensures k < |p| ==> InRun(p, k, n, session) {}
    forall k | 0 <= k < |p| && InRun(p, k, n, session) && !(r.Effect? && r.e.agent == n && r.e.session == session && r.e.outcome == Effective)
      ensures InRun(h, k, n, session)
    {
    }
    if r.Effect? && r.e.agent == n && r.e.session == session && r.e.outcome == Effective {
      assert EffectAt(h, |p|, n);
      forall k | 0 <= k < |h| ensures !InRun(h, k, n, session) {}
    }
  }

  lemma {:induction false} StreakTold(h: seq<Rec>, n: Str, session: Str)
    ensures Streak(Account(h, n), session) == |CurrentRun(h, n, session)|
  {
    if h == [] {
      assert CurrentRun(h, n, session) == {};
    } else {
      var p, r := h[..|h| - 1], h[|h| - 1];
      StreakTold(p, n, session);
      AccountMore(h, n);
      StepTells(Account(p, n), r, n, session);
      assert h == p + [r];
      RunMore(p, r, n, session);
      assert forall k :: k in CurrentRun(p, n, session) ==> k < |p|;
      hide Account, Step, CurrentRun;
    }
  }

  // ---------------------------------------------------------------- open escalations

  lemma Unspoken(p: seq<Rec>, r: Rec, q: int, e: OpenEsc)
    requires StillOpenAt(p, q, e.rec) && EpisodeIs(p, q, e) && !(r.Escalation? && r.x.id == e.rec.id) && !ExtraAt(p + [r], q, |p|, e.rec)
    ensures StillOpenAt(p + [r], q, e.rec) && EpisodeIs(p + [r], q, e)
  {
    var h := p + [r];
    assert forall k :: 0 <= k < |p| ==> h[k] == p[k];
    forall k ensures ExtraAt(h, q, k, e.rec) <==> ExtraAt(p, q, k, e.rec) {}
  }

  lemma ExtraJoins(p: seq<Rec>, i: IntentRec, q: int, e: OpenEsc)
    requires StillOpenAt(p, q, e.rec) && EpisodeIs(p, q, e) && ExtraAt(p + [Intent(i)], q, |p|, e.rec)
    ensures StillOpenAt(p + [Intent(i)], q, e.rec) && EpisodeIs(p + [Intent(i)], q, OpenEsc(e.rec, e.episode + Elems(i.ids), true))
  {
    var h := p + [Intent(i)];
    assert forall k :: 0 <= k < |p| ==> h[k] == p[k];
    forall k ensures ExtraAt(h, q, k, e.rec) <==> ExtraAt(p, q, k, e.rec) || k == |p| {}
    assert h[|p|].i == i;
  }

  lemma JustOpen(p: seq<Rec>, x: EscRec)
    requires x.isOpen
    ensures StillOpenAt(p + [Escalation(x)], |p|, x) && EpisodeIs(p + [Escalation(x)], |p|, OpenEsc(x, Elems(x.ids), false))
  {
  }

  /** One more record, and an escalation open after it. */
  lemma StepEpisode(p: seq<Rec>, r: Rec, n: Str, e: OpenEsc)
    requires forall f :: f in Account(p, n).open ==> f.rec.agent == n && exists q :: StillOpenAt(p, q, f.rec) && EpisodeIs(p, q, f)
    requires WfLog(p + [r]) && e in Step(Account(p, n), r, n).open
    ensures e.rec.agent == n && exists q :: StillOpenAt(p + [r], q, e.rec) && EpisodeIs(p + [r], q, e)
  {
    var open := Account(p, n).open;
    hide Account, StillOpenAt, EpisodeIs, WfLog;
    if AgentOf(r) == Some(n) && r.Intent? && r.i.during {
      var k :| 0 <= k < |NoteExtra(open, r.i)| && NoteExtra(open, r.i)[k] == e;
      var f := open[k];
      var q :| StillOpenAt(p, q, f.rec) && EpisodeIs(p, q, f);
      QBelow(p, q, f.rec);
      if ExtraAt(p + [r], q, |p|, f.rec) { ExtraJoins(p, r.i, q, f); } else { Unspoken(p, r, q, f); }
    } else if AgentOf(r) == Some(n) && r.Escalation? && r.x.isOpen && e == OpenEsc(r.x, Elems(r.x.ids), false) {
      JustOpen(p, r.x);
    } else if AgentOf(r) == Some(n) && r.Escalation? {
      DropOpenMembers(open, r.x.id);
      assert e in open && e.rec.id != r.x.id by { if r.x.isOpen { PutKeeps(open, OpenEsc(r.x, Elems(r.x.ids), false), e); } }
      var q :| StillOpenAt(p, q, e.rec) && EpisodeIs(p, q, e);
      Unspoken(p, r, q, e);
    } else {
      var q :| StillOpenAt(p, q, e.rec) && EpisodeIs(p, q, e);
      OwnAgents(p, r, q, e.rec);
      Unspoken(p, r, q, e);
    }
  }

  /** A later record of an escalation is of its own agent. */
  lemma OwnAgents(p: seq<Rec>, r: Rec, q: int, x: EscRec)
    requires WfLog(p + [r]) && StillOpenAt(p, q, x)
    ensures r.Escalation? && r.x.id == x.id ==> r.x.agent == x.agent
  {
    PairAt(p + [r], q, |p|);
    hide WfLog;
    assert (p + [r])[q] == p[q];
  }

  lemma QBelow(p: seq<Rec>, q: int, x: EscRec)
    requires StillOpenAt(p, q, x)
    ensures 0 <= q < |p|
  {
  }

  lemma PutKeeps(open: seq<OpenEsc>, e: OpenEsc, f: OpenEsc)
    requires f in PutOpen(open, e) && f != e
    ensures f in open && f.rec.id != e.rec.id
  {
    if HasOpen(open, e.rec.id) {
      var k :| 0 <= k < |open| && PutOpen(open, e)[k] == f;
    }
  }

  lemma {:induction false} EpisodesTold(h: seq<Rec>, n: Str)
    requires WfLog(h)
    ensures forall e :: e in Account(h, n).open ==> e.rec.agent == n && exists q :: StillOpenAt(h, q, e.rec) && EpisodeIs(h, q, e)
  {
    if h != [] {
      var p, r := h[..|h| - 1], h[|h| - 1];
      WfPrefix(h, |h| - 1);
      EpisodesTold(p, n);
      AccountMore(h, n);
      assert h == p + [r];
      hide Account, WfLog, StillOpenAt, EpisodeIs, Step;
      forall e | e in Account(h, n).open ensures e.rec.agent == n && exists q :: StillOpenAt(h, q, e.rec) && EpisodeIs(h, q, e) { StepEpisode(p, r, n, e); }
    }
  }

  /** What an open escalation is in an account: opened in the log and not closed since, with the episode the log gives it. */
  lemma OpenTold(h: seq<Rec>, n: Str, x: EscRec)
    requires WfLog(h) && x.agent == n
    ensures (exists e :: e in Account(h, n).open && e.rec == x) <==> exists q :: StillOpenAt(h, q, x)
    ensures forall e, q :: e in Account(h, n).open && e.rec == x && StillOpenAt(h, q, x) ==> EpisodeIs(h, q, e)
  {
    EpisodesTold(h, n);
    hide Account, EpisodeIs;
    forall q, p | StillOpenAt(h, q, x) && StillOpenAt(h, p, x) ensures p == q {}
    if q :| StillOpenAt(h, q, x) { StaysIn(h, n, x, q); }
    hide StillOpenAt, WfLog;
  }

  lemma {:induction false} StaysIn(h: seq<Rec>, n: Str, x: EscRec, q: int)
    requires WfLog(h) && x.agent == n && StillOpenAt(h, q, x)
    ensures exists e :: e in Account(h, n).open && e.rec == x
    decreases |h|
  {
    var p, r := h[..|h| - 1], h[|h| - 1];
    WfPrefix(h, |h| - 1);
    AccountMore(h, n);
    if q == |p| {
      hide Account, WfLog;
      PutIn(Account(p, n).open, OpenEsc(x, Elems(x.ids), false));
    } else {
      assert StillOpenAt(p, q, x);
      StaysIn(p, n, x, q);
      assert !(r.Escalation? && r.x.id == x.id);
      hide Account, WfLog, StillOpenAt;
      StepKeepsOpen(Account(p, n), r, n, x);
    }
  }

  lemma PutIn(open: seq<OpenEsc>, e: OpenEsc)
    ensures e in PutOpen(open, e)
  {
    if HasOpen(open, e.rec.id) {
      var k :| 0 <= k < |open| && open[k].rec.id == e.rec.id;
      assert PutOpen(open, e)[k] == e;
    } else {
      assert PutOpen(open, e)[|open|] == e;
    }
  }

  lemma StepKeepsOpen(a: Acct, r: Rec, n: Str, x: EscRec)
    requires (exists e :: e in a.open && e.rec == x) && !(r.Escalation? && r.x.id == x.id)
    ensures exists e :: e in Step(a, r, n).open && e.rec == x
  {
    var e :| e in a.open && e.rec == x;
    var k :| 0 <= k < |a.open| && a.open[k] == e;
    if AgentOf(r) == Some(n) && r.Intent? && r.i.during {
      var f := NoteExtra(a.open, r.i)[k];
      assert f == Noted(e, r.i) && f.rec == x;
    } else if AgentOf(r) == Some(n) && r.Escalation? {
      DropOpenMembers(a.open, r.x.id);
      if r.x.isOpen {
        var put := PutOpen(a.open, OpenEsc(r.x, Elems(r.x.ids), false));
        assert put[k] == e;
      }
    }
  }

  /**
    * An account, told of its log: every judged ring and recorded leaving is an effect record's, the run counts the
    * session's ineffective judgements since its last progress, and the escalations open are those opened and not closed,
    * each with its own ids and its extra ring's as its episode.
    */
  lemma AccountExactly(h: seq<Rec>, n: Str, session: Str, id: Str, x: EscRec)
    requires WfLog(h) && x.agent == n
    ensures var a := Account(h, n);
            (forall i :: i in a.rings <==> Intent(i) in h && i.agent == n) &&
            (id in a.judged <==> exists k :: EffectAt(h, k, n) && id in h[k].e.intents) &&
            ((session, id) in a.left <==>
              exists k :: EffectAt(h, k, n) && h[k].e.session == session && h[k].e.outcome == Effective && id in h[k].e.left) &&
            Streak(a, session) == |CurrentRun(h, n, session)| &&
            ((exists e :: e in a.open && e.rec == x) <==> exists q :: StillOpenAt(h, q, x)) &&
            forall e, q :: e in a.open && e.rec == x && StillOpenAt(h, q, x) ==> EpisodeIs(h, q, e)
  {
    AccountRings(h, n);
    JudgedTold(h, n, id);
    LeftTold(h, n, session, id);
    StreakTold(h, n, session);
    OpenTold(h, n, x);
    hide *;
  }
}
