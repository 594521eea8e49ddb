/** Well-formed logs. */
module DoorbellWf {
  // What holds between any two records of a log the doorbell writes. Every clause is about one record or about an
  // earlier and a later one, so it survives in any selection of the log's records.

  import opened Canon
  import opened DoorbellLog
  import opened DoorbellLedger
  import opened DoorbellPlan
  import opened DoorbellAdmit
  import opened Wrappers

  predicate UnitOk(r: Rec)
  {
    match r
    case Intent(i) => i.ids != [] && Ascending(i.ids)
    case Effect(e) =>
      Ascending(e.intents) && (e.outcome == Ineffective ==> |e.intents| == 1) && (e.outcome != Effective ==> e.left == [])
    case Escalation(x) => x.isOpen ==> x.ids != [] && (x.reason == IdStuck ==> |x.ids| == 1)
    case _ => true
  }

  /**
    * `r` comes before `s`: intent ids are unique, an effect names only earlier rings of its own agent and
    * session and no ring twice, and an escalation id is opened once, then closed at most once.
    */
  predicate PairOk(r: Rec, s: Rec)
  {
    (r.Intent? && s.Intent? ==> r.i.id != s.i.id) &&
    (r.Effect? && s.Intent? ==> s.i.id !in r.e.intents) &&
    (r.Intent? && s.Effect? && r.i.id in s.e.intents ==> r.i.agent == s.e.agent && r.i.session == s.e.session) &&
    (r.Effect? && s.Effect? ==> forall x :: x in r.e.intents ==> x !in s.e.intents) &&
    (r.Escalation? && s.Escalation? && r.x.id == s.x.id ==>
      r.x.isOpen && !s.x.isOpen && r.x.agent == s.x.agent && r.x.session == s.x.session && r.x.reason == s.x.reason)
  }

  predicate WfLog(h: seq<Rec>)
  {
    (forall k :: 0 <= k < |h| ==> UnitOk(h[k])) && (forall j, k :: 0 <= j < k < |h| ==> PairOk(h[j], h[k]))
  }

  lemma WfPrefix(h: seq<Rec>, m: nat)
    requires WfLog(h) && m <= |h|
    ensures WfLog(h[..m])
  {
  }

  lemma PairAt(h: seq<Rec>, j: nat, k: nat)
    requires WfLog(h) && j < |h| && k < |h|
    ensures j < k ==> PairOk(h[j], h[k])
    ensures k < j ==> PairOk(h[k], h[j])
  {
  }

  lemma WfAppend(h: seq<Rec>, r: Rec)
    requires WfLog(h) && UnitOk(r) && forall s :: s in h ==> PairOk(s, r)
    ensures WfLog(h + [r])
  {
  }

  // ---------------------------------------------------------------- what an account is made of

  lemma {:induction false} AccountRings(h: seq<Rec>, n: Str)
    ensures forall i :: i in Account(h, n).rings <==> Intent(i) in h && i.agent == n
  {
    if h != [] {
      AccountRings(h[..|h| - 1], n);
      assert h == h[..|h| - 1] + [h[|h| - 1]];
    }
  }

  predicate Names(r: Rec, n: Str, x: Str)
  {
    r.Effect? && r.e.agent == n && x in r.e.intents
  }

  lemma {:induction false} AccountJudged(h: seq<Rec>, n: Str)
    ensures forall x :: x in Account(h, n).judged <==> exists r :: r in h && Names(r, n, x)
  {
    if h != [] {
      var p, last := h[..|h| - 1], h[|h| - 1];
      AccountJudged(p, n);
      assert h == p + [last];
      forall x ensures x in Account(h, n).judged <==> exists r :: r in h && Names(r, n, x)
      {
        if Names(last, n, x) { assert last in h; }
        if x in Account(p, n).judged {
          var r :| r in p && Names(r, n, x);
          assert r in h;
        }
      }
    }
  }

  lemma {:induction false} AccountWf(h: seq<Rec>, n: Str)
    requires WfLog(h)
    ensures RingsWf(Account(h, n).rings, n)
  {
    if h != [] {
      var p, r := h[..|h| - 1], h[|h| - 1];
      WfPrefix(h, |h| - 1);
      AccountWf(p, n);
      AccountRings(p, n);
      var rs := Account(p, n).rings;
      if r.Intent? && r.i.agent == n {
        forall k | 0 <= k < |rs| ensures rs[k].id != r.i.id
        {
          assert rs[k] in rs && Intent(rs[k]) in p;
          var j :| 0 <= j < |p| && p[j] == Intent(rs[k]);
          assert PairOk(h[j], h[|h| - 1]);
        }
      }
    }
  }

  /** While an escalation is open, its open record is the only record of its id. */
  lemma {:induction false} OpenAlone(h: seq<Rec>, n: Str)
    requires WfLog(h)
    ensures forall e :: e in Account(h, n).open ==>
              Escalation(e.rec) in h && e.rec.agent == n && e.rec.isOpen &&
              forall r :: r in h && r.Escalation? && r.x.id == e.rec.id ==> r == Escalation(e.rec)
  {
    if h != [] {
      var p, r := h[..|h| - 1], h[|h| - 1];
      WfPrefix(h, |h| - 1);
      OpenAlone(p, n);
      assert h == p + [r];
      var a, b := Account(p, n), Account(h, n);
      forall e | e in b.open
        ensures Escalation(e.rec) in h && e.rec.agent == n && e.rec.isOpen
        ensures forall s :: s in h && s.Escalation? && s.x.id == e.rec.id ==> s == Escalation(e.rec)
      {
        OpenAloneStep(p, n, r, e);
      }
    }
  }

  lemma OpenAloneStep(p: seq<Rec>, n: Str, r: Rec, e: OpenEsc)
    requires WfLog(p + [r])
    requires forall f :: f in Account(p, n).open ==>
              Escalation(f.rec) in p && f.rec.agent == n && f.rec.isOpen &&
              forall s :: s in p && s.Escalation? && s.x.id == f.rec.id ==> s == Escalation(f.rec)
    requires e in Step(Account(p, n), r, n).open
    ensures Escalation(e.rec) in p + [r] && e.rec.agent == n && e.rec.isOpen
    ensures forall s :: s in p + [r] && s.Escalation? && s.x.id == e.rec.id ==> s == Escalation(e.rec)
  {
    var a := Account(p, n);
    var h := p + [r];
    forall s | s in p ensures PairOk(s, r)
    {
      var j :| 0 <= j < |p| && p[j] == s;
      assert h[j] == s && h[|p|] == r;
    }
    if r.Escalation? && r.x.agent == n && r.x.isOpen {
      assert !HasOpen(a.open, r.x.id) by {
        forall k | 0 <= k < |a.open| ensures a.open[k].rec.id != r.x.id
        {
          assert a.open[k] in a.open;
          assert PairOk(Escalation(a.open[k].rec), r);
        }
      }
      if e in a.open { assert Escalation(e.rec) in p; }
    } else if r.Escalation? && r.x.agent == n {
      DropOpenMembers(a.open, r.x.id);
    } else if r.Intent? && r.i.agent == n && r.i.during {
      var k :| 0 <= k < |a.open| && e == Noted(a.open[k], r.i);
      assert a.open[k] in a.open;
    } else if r.Escalation? {
      assert PairOk(Escalation(e.rec), r);
    }
  }

  // ---------------------------------------------------------------- fitting records keep the log well formed

  /** The new id a record brings, if any, is used by nothing in the log. */
  predicate BringsNew(h: seq<Rec>, r: Rec)
  {
    (r.Intent? ==> forall s :: s in h ==> (s.Intent? ==> s.i.id != r.i.id) && (s.Effect? ==> r.i.id !in s.e.intents)) &&
    (r.Escalation? && r.x.isOpen ==> forall s :: s in h && s.Escalation? ==> s.x.id != r.x.id)
  }

  lemma EffectPairs(h: seq<Rec>, n: Str, e: EffectRec, s: Rec)
    requires WfLog(h) && e.agent == n && s in h
    requires forall x :: x in e.intents ==> Judgeable(Account(h, n), e.session, x)
    ensures PairOk(s, Effect(e))
  {
    AccountRings(h, n);
    AccountJudged(h, n);
    forall x | x in e.intents
      ensures s.Intent? && s.i.id == x ==> s.i.agent == n && s.i.session == e.session
      ensures s.Effect? ==> x !in s.e.intents
    {
      assert Judgeable(Account(h, n), e.session, x);
      var i :| i in Account(h, n).rings && i.id == x && i.session == e.session;
      var j :| 0 <= j < |h| && h[j] == Intent(i);
      var k :| 0 <= k < |h| && h[k] == s;
      PairAt(h, j, k);
      assert !Names(s, n, x);
    }
  }

  /** What a record needs of the log it joins for the log to stay well formed. */
  predicate Joins(h: seq<Rec>, n: Str, r: Rec)
  {
    AgentOf(r) == Some(n) && UnitOk(r) && BringsNew(h, r) &&
    (r.Effect? ==> forall x :: x in r.e.intents ==> Judgeable(Account(h, n), r.e.session, x)) &&
    (r.Escalation? && !r.x.isOpen ==>
      exists e :: e in Account(h, n).open && e.rec.id == r.x.id && e.rec.session == r.x.session && e.rec.reason == r.x.reason)
  }

  lemma JoinsKeepWf(h: seq<Rec>, n: Str, r: Rec)
    requires WfLog(h) && Joins(h, n, r)
    ensures WfLog(h + [r])
  {
    forall s | s in h ensures PairOk(s, r)
    {
      if r.Effect? {
        EffectPairs(h, n, r.e, s);
      } else if r.Escalation? && !r.x.isOpen {
        OpenAlone(h, n);
      }
    }
    WfAppend(h, r);
  }

  lemma FitsJoin(h: seq<Rec>, n: Str, v: View, r: Rec)
    requires Fits(Account(h, n), n, v, r) && BringsNew(h, r)
    ensures Joins(h, n, r)
  {
  }
}
