/** What a compaction keeps, told of the log. */
module DoorbellKept {
  // Each record type's reason to stay is said of the records around it and of who is pending where; a compaction keeps
  // the records that have one, in order.

  import opened Canon
  import opened DoorbellLog
  import opened DoorbellLedger
  import opened DoorbellPlan
  import opened DoorbellAdmit
  import opened DoorbellWf
  import opened DoorbellKeep
  import opened DoorbellCompaction
  import opened DoorbellAccount
  import opened DoorbellReplay
  import opened Wrappers

  // ---------------------------------------------------------------- rings

  /** A ring written at that time may still count in the budget: within the hour, or the clock was set back since. */
  predicate Recent(at: StartAt, wall: int)
  {
    wall > at.startWall - 3_600_000 || (at.lastHeader.Some? && at.lastHeader.value > at.startWall)
  }

  /** A previous lifetime's ring lies as long before the start as the clock says, and at the start if it says it cannot. */
  lemma PlacedExactly(wall: int, at: StartAt)
    ensures PlaceRing(wall, at.lastHeader, at.startWall) ==
            if wall > at.startWall || (at.lastHeader.Some? && at.lastHeader.value > at.startWall) then 0 else wall - at.startWall
    ensures CountsAtStart(wall, at.lastHeader, at.startWall) <==> Recent(at, wall)
  {
  }

  predicate RingAt(log: seq<Rec>, k: int, n: Str)
  {
    0 <= k < |log| && log[k].Intent? && log[k].i.agent == n
  }

  /** The agent's rings after that position. */
  function LaterRings(log: seq<Rec>, j: int, n: Str): set<int>
  {
    set k | j < k < |log| && RingAt(log, k, n)
  }

  /** An escalation of the agent's session that says it is unresponsive, opened at `p` and never closed. */
  predicate StaysOpen(log: seq<Rec>, p: nat, i: IntentRec)
  {
    p < |log| && log[p].Escalation? && log[p].x.isOpen && log[p].x.reason == Unresponsive && (log[p].x.agent, log[p].x.session) == (i.agent, i.session) &&
    forall k :: p < k < |log| && log[k].Escalation? ==> log[k].x.id != log[p].x.id
  }

  /** The ring at `j` is the last extra ring of an escalation still open. */
  ghost predicate LastExtra(log: seq<Rec>, j: nat, i: IntentRec)
  {
    i.during && i.id != "" && (exists p: nat :: p < j && StaysOpen(log, p, i)) &&
    forall k :: j < k < |log| && log[k].Intent? && log[k].i.during ==> (log[k].i.agent, log[k].i.session) != (i.agent, i.session)
  }

  predicate JudgedIn(log: seq<Rec>, id: Str)
  {
    exists r :: r in log && r.Effect? && id in r.e.intents
  }

  predicate LeftIn(log: seq<Rec>, n: Str, session: Str, id: Str)
  {
    exists r :: r in log && r.Effect? && r.e.agent == n && r.e.session == session && id in r.e.left
  }

  /** The reasons to keep the ring at `j`. */
  ghost predicate NeedsRing(log: seq<Rec>, now: map<Str, View>, at: StartAt, j: nat)
    requires j < |log| && log[j].Intent?
  {
    var i := log[j].i;
    LastExtra(log, j, i) || Recent(at, i.at) || |LaterRings(log, j, i.agent)| < at.budget || !JudgedIn(log, i.id) ||
    (i.agent in now && now[i.agent].session == Some(i.session) &&
     exists id :: id in i.ids && (id in now[i.agent].pending || !LeftIn(log, i.agent, i.session, id)))
  }

  lemma JudgedIs(log: seq<Rec>, id: Str)
    ensures id in JudgedAll(log) <==> JudgedIn(log, id)
  {
  }

  lemma LeftIs(log: seq<Rec>, n: Str, session: Str, id: Str)
    ensures (n, session, id) in LeftAll(log) <==> LeftIn(log, n, session, id)
  {
  }

  // the last rings of an agent

  lemma LaterOne(log: seq<Rec>, j: nat, n: Str)
    requires j + 1 < |log|
    ensures |LaterRings(log, j, n)| == |LaterRings(log, j + 1, n)| + if RingAt(log, j + 1, n) then 1 else 0
  {
    var a, b := LaterRings(log, j, n), LaterRings(log, j + 1, n);
    assert a == if RingAt(log, j + 1, n) then b + {j + 1} else b;
  }

  lemma {:induction false} LaterCount(log: seq<Rec>, m: nat, n: Str)
    requires m < |log|
    ensures |Account(log, n).rings| == |Account(log[..m + 1], n).rings| + |LaterRings(log, m, n)|
    ensures Account(log[..m + 1], n).rings <= Account(log, n).rings
    decreases |log| - m
  {
    if m + 1 == |log| {
      assert log[..m + 1] == log && LaterRings(log, m, n) == {};
    } else {
      LaterCount(log, m + 1, n);
      LaterOne(log, m, n);
      AccountSnoc(log, m + 1, n);
      hide LaterRings, Account;
      StepRingsOnly(Account(log[..m + 1], n), log[m + 1], n);
    }
  }

  /** An agent's ring is among its last `budget` exactly when fewer than that many come after it. */
  lemma LastExactly(log: seq<Rec>, j: nat, budget: nat)
    requires WfLog(log) && j < |log| && log[j].Intent?
    ensures log[j].i.id in LastIds(Account(log, log[j].i.agent).rings, budget) <==> |LaterRings(log, j, log[j].i.agent)| < budget
  {
    var i := log[j].i;
    var rings, upto := Account(log, i.agent).rings, Account(log[..j + 1], i.agent).rings;
    LaterCount(log, j, i.agent);
    AccountSnoc(log, j, i.agent);
    StepRingsOnly(Account(log[..j], i.agent), log[j], i.agent);
    var k := |upto| - 1;
    assert upto[k] == i && rings[k] == i;
    AcctIsWfRings(log, i.agent);
    forall q | 0 <= q < |rings| && rings[q].id == i.id ensures q == k {}
    hide Account, LaterRings, WfLog;
  }

  lemma AcctIsWfRings(log: seq<Rec>, n: Str)
    requires WfLog(log)
    ensures forall p, q :: 0 <= p < q < |Account(log, n).rings| ==> Account(log, n).rings[p].id != Account(log, n).rings[q].id
  {
    AccountWf(log, n);
  }

  // the extra ring of an open escalation

  /** The record at `p` opens the escalation, and none after it is of the same one. */
  predicate OpenedAt(h: seq<Rec>, p: nat, eid: Str, n: Str, session: Str)
  {
    p < |h| && h[p].Escalation? && h[p].x.isOpen && h[p].x.reason == Unresponsive && h[p].x.id == eid && (h[p].x.agent, h[p].x.session) == (n, session) &&
    forall k :: p < k < |h| && h[k].Escalation? ==> h[k].x.id != eid
  }

  predicate LastDuring(h: seq<Rec>, q: nat, n: Str, session: Str)
  {
    DuringAt(h, q, n, session) && forall k :: q < k < |h| ==> !DuringAt(h, k, n, session)
  }

  lemma ExtrasMore(h: seq<Rec>)
    requires h != []
    ensures ExtrasOf(h) == ExtraStep(ExtrasOf(h[..|h| - 1]), h[|h| - 1])
  {
  }

  lemma {:induction false} ExtrasNamed(h: seq<Rec>, eid: Str)
    requires eid in ExtrasOf(h).open || eid in ExtrasOf(h).extraOf
    ensures exists k :: 0 <= k < |h| && h[k].Escalation? && h[k].x.id == eid
  {
    if h != [] {
      var p, r := h[..|h| - 1], h[|h| - 1];
      ExtrasMore(h);
      hide ExtrasOf;
      if r.Escalation? && r.x.id == eid {
        assert h[|h| - 1].Escalation?;
      } else {
        ExtrasNamed(p, eid);
        var k :| 0 <= k < |p| && p[k].Escalation? && p[k].x.id == eid;
        assert h[k] == p[k];
      }
    }
  }

  /** An escalation the step does not speak of stays as it was. */
  lemma StepOpen(s: Extras, r: Rec, eid: Str)
    ensures !(r.Escalation? && r.x.id == eid) ==>
              (eid in ExtraStep(s, r).open <==> eid in s.open) && (eid in s.open ==> ExtraStep(s, r).open[eid] == s.open[eid])
    ensures r.Escalation? && r.x.id == eid && r.x.reason == Unresponsive ==>
              (eid in ExtraStep(s, r).open <==> r.x.isOpen) && (r.x.isOpen ==> ExtraStep(s, r).open[eid] == (r.x.agent, r.x.session))
    ensures r.Escalation? && r.x.id == eid && r.x.reason != Unresponsive ==> ExtraStep(s, r) == s
  {
  }

  lemma {:induction false} OpenExtras(h: seq<Rec>, eid: Str, n: Str, session: Str)
    requires WfLog(h)
    ensures eid in ExtrasOf(h).open && ExtrasOf(h).open[eid] == (n, session) <==> exists p: nat :: OpenedAt(h, p, eid, n, session)
  {
    if h != [] {
      var b, r := h[..|h| - 1], h[|h| - 1];
      WfPrefix(h, |h| - 1);
      ExtrasMore(h);
      OpenExtras(b, eid, n, session);
      StepOpen(ExtrasOf(b), r, eid);
      hide ExtrasOf, ExtraStep;
      if r.Escalation? && r.x.id == eid {
        forall p: nat | OpenedAt(h, p, eid, n, session) ensures p == |b| {}
        if r.x.isOpen && r.x.reason == Unresponsive && (r.x.agent, r.x.session) == (n, session) { assert OpenedAt(h, |b|, eid, n, session); }
        forall p: nat | OpenedAt(b, p, eid, n, session) ensures !r.x.isOpen && r.x.reason == Unresponsive
        {
          PairAt(h, p, |b|);
          hide WfLog;
        }
      } else {
        hide WfLog;
        forall p: nat ensures OpenedAt(h, p, eid, n, session) <==> OpenedAt(b, p, eid, n, session) {}
      }
    }
  }

  /** What one record makes of an open escalation's extra ring. */
  lemma StepExtra(s: Extras, r: Rec, eid: Str)
    requires eid in s.open
    ensures r.Intent? && r.i.during && s.open[eid] == (r.i.agent, r.i.session) ==>
              eid in ExtraStep(s, r).extraOf && ExtraStep(s, r).extraOf[eid] == r.i.id
    ensures !(r.Intent? && r.i.during && s.open[eid] == (r.i.agent, r.i.session)) ==>
              (eid in s.extraOf ==> eid in ExtraStep(s, r).extraOf && ExtraStep(s, r).extraOf[eid] == s.extraOf[eid]) &&
              (eid !in s.extraOf && eid in ExtraStep(s, r).extraOf ==> ExtraStep(s, r).extraOf[eid] == "")
  {
  }

  lemma JustOpened(b: seq<Rec>, r: Rec, eid: Str)
    requires WfLog(b + [r]) && r.Escalation? && r.x.isOpen && r.x.id == eid
    ensures eid !in ExtrasOf(b).extraOf && ExtraStep(ExtrasOf(b), r).extraOf == ExtrasOf(b).extraOf
  {
    if eid in ExtrasOf(b).extraOf {
      ExtrasNamed(b, eid);
      var k :| 0 <= k < |b| && b[k].Escalation? && b[k].x.id == eid;
      PairAt(b + [r], k, |b|);
      assert false;
    }
  }

  lemma {:induction false} ExtraValue(h: seq<Rec>, p: nat, eid: Str, n: Str, session: Str)
    requires WfLog(h) && OpenedAt(h, p, eid, n, session)
    ensures var s := ExtrasOf(h);
            (forall q: nat :: p < q && LastDuring(h, q, n, session) ==> eid in s.extraOf && s.extraOf[eid] == h[q].i.id) &&
            ((forall q: nat :: p < q ==> !DuringAt(h, q, n, session)) && eid in s.extraOf ==> s.extraOf[eid] == "")
  {
    var b, r := h[..|h| - 1], h[|h| - 1];
    ExtrasMore(h);
    assert h == b + [r];
    if p == |b| {
      JustOpened(b, r, eid);
    } else {
      WfPrefix(h, |b|);
      assert OpenedAt(b, p, eid, n, session);
      ExtraValue(b, p, eid, n, session);
      OpenExtras(b, eid, n, session);
      StepExtra(ExtrasOf(b), r, eid);
      hide ExtrasOf, ExtraStep, WfLog, OpenedAt;
      if DuringAt(h, |b|, n, session) {
        forall q: nat | LastDuring(h, q, n, session) ensures q == |b| {}
      } else {
        forall q: nat ensures DuringAt(h, q, n, session) <==> DuringAt(b, q, n, session) {}
        forall q: nat ensures LastDuring(h, q, n, session) <==> LastDuring(b, q, n, session) {}
      }
    }
  }

  lemma {:induction false} SomeLast(h: seq<Rec>, m: nat, n: Str, session: Str) returns (q: nat)
    requires DuringAt(h, m, n, session)
    ensures m <= q && LastDuring(h, q, n, session)
    decreases |h| - m
  {
    if k :| m < k < |h| && DuringAt(h, k, n, session) { q := SomeLast(h, k, n, session); } else { q := m; }
  }

  lemma ExtraExactly(log: seq<Rec>, j: nat)
    requires WfLog(log) && j < |log| && log[j].Intent?
    ensures log[j].i.id in KeepExtra(log) <==> LastExtra(log, j, log[j].i)
  {
    var i, s := log[j].i, ExtrasOf(log);
    if eid :| eid in s.open && eid in s.extraOf && s.extraOf[eid] == i.id != "" {
      var (n, session) := s.open[eid];
      OpenExtras(log, eid, n, session);
      var p: nat :| OpenedAt(log, p, eid, n, session);
      ExtraValue(log, p, eid, n, session);
      var m: nat :| p < m && DuringAt(log, m, n, session);
      var q := SomeLast(log, m, n, session);
      assert log[q].i.id == i.id;
      PairAt(log, j, q);
      assert q == j;
      hide *;
      FoundExtra(log, p, eid, j, i);
    }
    if LastExtra(log, j, i) {
      var p: nat :| p < j && StaysOpen(log, p, i);
      var eid := log[p].x.id;
      assert OpenedAt(log, p, eid, i.agent, i.session);
      OpenExtras(log, eid, i.agent, i.session);
      ExtraValue(log, p, eid, i.agent, i.session);
      assert LastDuring(log, j, i.agent, i.session);
    }
  }

  lemma FoundExtra(log: seq<Rec>, p: nat, eid: Str, j: nat, i: IntentRec)
    requires p < j < |log| && log[j] == Intent(i) && i.id != "" && OpenedAt(log, p, eid, i.agent, i.session) && LastDuring(log, j, i.agent, i.session)
    ensures LastExtra(log, j, i)
  {
    assert StaysOpen(log, p, i);
    forall k | j < k < |log| && log[k].Intent? && log[k].i.during ensures (log[k].i.agent, log[k].i.session) != (i.agent, i.session)
    {
      assert !DuringAt(log, k, i.agent, i.session);
    }
  }

  // ---------------------------------------------------------------- every record

  ghost predicate NeededRing(log: seq<Rec>, now: map<Str, View>, at: StartAt, j: int)
  {
    0 <= j < |log| && log[j].Intent? && NeedsRing(log, now, at, j)
  }

  /** A judgement stays with a ring it names or whose id it says has left, and while no later progress of a session still current is recorded. */
  ghost predicate NeedsEffect(log: seq<Rec>, now: map<Str, View>, at: StartAt, j: nat)
    requires j < |log| && log[j].Effect?
  {
    var e := log[j].e;
    (exists k :: NeededRing(log, now, at, k) && (log[k].i.id in e.intents || Releases(e, log[k].i))) ||
    (e.agent in now && now[e.agent].session == Some(e.session) &&
     forall k :: j < k < |log| && log[k].Effect? && (log[k].e.agent, log[k].e.session) == (e.agent, e.session) ==> log[k].e.outcome != Effective)
  }

  predicate Releases(e: EffectRec, i: IntentRec)
  {
    (e.agent, e.session) == (i.agent, i.session) && exists id :: id in e.left && id in i.ids
  }

  function LaterHeaders(log: seq<Rec>, j: nat): set<int>
  {
    set k | j < k < |log| && log[k].Header?
  }

  function LaterClocks(log: seq<Rec>, j: nat): set<int>
  {
    set k | j < k < |log| && log[k].Clock?
  }

  /** The record at `j` still matters. */
  ghost predicate Matters(log: seq<Rec>, now: map<Str, View>, at: StartAt, j: nat)
    requires j < |log|
  {
    match log[j]
    case Intent(_) => NeedsRing(log, now, at, j)
    case Effect(_) => NeedsEffect(log, now, at, j)
    case Escalation(x) => x.isOpen && forall k :: j < k < |log| && log[k].Escalation? ==> log[k].x.id != x.id
    case Budget(g) => forall k :: j < k < |log| && log[k].Budget? ==> log[k].g.agent != g.agent
    case Board(b) => OpenAt(log, j, b.agent, b)
    case Header(_, _) => |LaterHeaders(log, j)| < 5
    case Clock(_, _, _, _) => |LaterClocks(log, j)| < 16
  }

  lemma NextHeader(log: seq<Rec>, j: nat)
    requires j + 1 < |log|
    ensures |LaterHeaders(log, j)| == |LaterHeaders(log, j + 1)| + if log[j + 1].Header? then 1 else 0
  {
    var a, b := LaterHeaders(log, j), LaterHeaders(log, j + 1);
    assert a == if log[j + 1].Header? then b + {j + 1} else b;
  }

  lemma NextClock(log: seq<Rec>, j: nat)
    requires j + 1 < |log|
    ensures |LaterClocks(log, j)| == |LaterClocks(log, j + 1)| + if log[j + 1].Clock? then 1 else 0
  {
    var a, b := LaterClocks(log, j), LaterClocks(log, j + 1);
    assert a == if log[j + 1].Clock? then b + {j + 1} else b;
  }

  lemma {:induction false} HeadersCounted(log: seq<Rec>, j: nat)
    requires j < |log|
    ensures CountHeaders(log[j + 1..]) == |LaterHeaders(log, j)| && CountClocks(log[j + 1..]) == |LaterClocks(log, j)|
    decreases |log| - j
  {
    if j + 1 == |log| {
      assert log[j + 1..] == [] && LaterHeaders(log, j) == {} && LaterClocks(log, j) == {};
    } else {
      HeadersCounted(log, j + 1);
      NextHeader(log, j);
      NextClock(log, j);
      hide LaterHeaders, LaterClocks;
      assert log[j + 1..][1..] == log[j + 2..] && log[j + 1..][0] == log[j + 1];
    }
  }

  lemma RingNeeded(log: seq<Rec>, now: map<Str, View>, at: StartAt, j: nat)
    requires WfLog(log) && j < |log| && log[j].Intent?
    ensures KeepIntent(log, now, at, log[j].i) <==> NeedsRing(log, now, at, j)
  {
    var i := log[j].i;
    ExtraExactly(log, j);
    PlacedExactly(i.at, at);
    LastExactly(log, j, at.budget);
    JudgedIs(log, i.id);
    forall id ensures (i.agent, i.session, id) in LeftAll(log) <==> LeftIn(log, i.agent, i.session, id) { LeftIs(log, i.agent, i.session, id); }
    hide WfLog, KeepExtra, LastExtra, LastIds, LaterRings, Account, JudgedAll, JudgedIn, LeftAll, LeftIn, Recent, CountsAtStart;
  }

  lemma RingKept(log: seq<Rec>, now: map<Str, View>, at: StartAt, j: nat)
    requires WfLog(log) && j < |log| && log[j].Intent?
    ensures log[j].i.id in KeptIds(log, now, at) <==> NeedsRing(log, now, at, j)
  {
    RingNeeded(log, now, at, j);
    hide KeepIntent, NeedsRing;
    assert log[j] in log;
    if log[j].i.id in KeptIds(log, now, at) {
      var r :| r in log && r.Intent? && KeepIntent(log, now, at, r.i) && r.i.id == log[j].i.id;
      var k :| 0 <= k < |log| && log[k] == r;
      PairAt(log, j, k);
      assert k == j;
    }
  }

  lemma EffectNeeded(log: seq<Rec>, now: map<Str, View>, at: StartAt, j: nat)
    requires WfLog(log) && j < |log| && log[j].Effect?
    ensures KeepEffect(log, now, KeptIds(log, now, at), j) <==> NeedsEffect(log, now, at, j)
  {
    var e, kept := log[j].e, KeptIds(log, now, at);
    forall k | 0 <= k < |log| && log[k].Intent? ensures log[k].i.id in kept <==> NeededRing(log, now, at, k) { RingKept(log, now, at, k); }
    NamesKept(log, now, at, e);
    ReleasesKept(log, now, at, e);
    NoneLater(log, e, j);
    EitherRing(log, now, at, e);
    hide WfLog, KeptIds, NeededRing, KeptKeys, Releases, EffectiveAt;
  }

  lemma EitherRing(log: seq<Rec>, now: map<Str, View>, at: StartAt, e: EffectRec)
    ensures (exists k :: NeededRing(log, now, at, k) && (log[k].i.id in e.intents || Releases(e, log[k].i))) <==>
            (exists k :: NeededRing(log, now, at, k) && log[k].i.id in e.intents) || exists k :: NeededRing(log, now, at, k) && Releases(e, log[k].i)
  {
    hide NeedsRing, Releases;
  }

  lemma NoneLater(log: seq<Rec>, e: EffectRec, j: nat)
    ensures (forall k :: j < k < |log| ==> !EffectiveAt(log, k, e.agent, e.session)) <==>
            forall k :: j < k < |log| && log[k].Effect? && (log[k].e.agent, log[k].e.session) == (e.agent, e.session) ==> log[k].e.outcome != Effective
  {
    if forall k :: j < k < |log| ==> !EffectiveAt(log, k, e.agent, e.session) {
      forall k | j < k < |log| && log[k].Effect? && (log[k].e.agent, log[k].e.session) == (e.agent, e.session) ensures log[k].e.outcome != Effective
      {
        assert !EffectiveAt(log, k, e.agent, e.session);
      }
    }
  }

  lemma NamesKept(log: seq<Rec>, now: map<Str, View>, at: StartAt, e: EffectRec)
    requires forall k :: 0 <= k < |log| && log[k].Intent? ==> (log[k].i.id in KeptIds(log, now, at) <==> NeededRing(log, now, at, k))
    ensures (exists x :: x in e.intents && x in KeptIds(log, now, at)) <==> exists k :: NeededRing(log, now, at, k) && log[k].i.id in e.intents
  {
    hide NeedsRing, KeepIntent;
    if x :| x in e.intents && x in KeptIds(log, now, at) {
      var r :| r in log && r.Intent? && KeepIntent(log, now, at, r.i) && r.i.id == x;
      var k :| 0 <= k < |log| && log[k] == r;
      assert NeededRing(log, now, at, k);
    }
  }

  lemma ReleasesKept(log: seq<Rec>, now: map<Str, View>, at: StartAt, e: EffectRec)
    requires forall k :: 0 <= k < |log| && log[k].Intent? ==> (log[k].i.id in KeptIds(log, now, at) <==> NeededRing(log, now, at, k))
    ensures (exists id :: id in e.left && (e.agent, e.session, id) in KeptKeys(log, KeptIds(log, now, at))) <==>
            exists k :: NeededRing(log, now, at, k) && Releases(e, log[k].i)
  {
    var kept := KeptIds(log, now, at);
    hide NeedsRing, KeptIds;
    if id :| id in e.left && (e.agent, e.session, id) in KeptKeys(log, kept) {
      var r :| r in log && r.Intent? && r.i.id in kept && id in r.i.ids && (r.i.agent, r.i.session, id) == (e.agent, e.session, id);
      var k :| 0 <= k < |log| && log[k] == r;
      assert NeededRing(log, now, at, k) && Releases(e, log[k].i);
    }
    if k :| NeededRing(log, now, at, k) && Releases(e, log[k].i) {
      var id :| id in e.left && id in log[k].i.ids;
      assert log[k] in log && (e.agent, e.session, id) in KeptKeys(log, kept);
    }
  }

  lemma BoardNeeded(log: seq<Rec>, now: map<Str, View>, kept: set<Str>, j: nat)
    requires j < |log| && log[j].Board?
    ensures KeepAt(log, now, kept, j) <==> OpenAt(log, j, log[j].b.agent, log[j].b)
  {
    var b := log[j].b;
    var n := b.agent;
    OpenExactly(log, n, b);
    hide Replay;
    if KeepAt(log, now, kept, j) {
      var c := Replay(log).boardOpen[n];
      OpenExactly(log, n, c);
      var k: nat :| OpenAt(log, k, n, c);
      assert !BoardOpenAt(log, k, n) || k <= j;
      assert k == j;
    }
    if OpenAt(log, j, n, b) {
      forall k | j < k < |log| ensures !BoardOpenAt(log, k, n) {}
    }
  }

  lemma KeepMatters(log: seq<Rec>, now: map<Str, View>, at: StartAt, j: nat)
    requires WfLog(log) && j < |log|
    ensures KeepAt(log, now, KeptIds(log, now, at), j) <==> Matters(log, now, at, j)
  {
    var kept := KeptIds(log, now, at);
    match log[j]
    case Intent(_) => RingKept(log, now, at, j); hide WfLog, KeptIds, NeedsRing;
    case Effect(_) => EffectNeeded(log, now, at, j); hide WfLog, KeptIds, KeepEffect, NeedsEffect;
    case Escalation(x) => hide WfLog, KeptIds; assert forall k :: j < k < |log| ==> (SameEscAt(log, k, x.id) <==> log[k].Escalation? && log[k].x.id == x.id);
    case Budget(g) => hide WfLog, KeptIds; assert forall k :: j < k < |log| ==> (BudgetAt(log, k, g.agent) <==> log[k].Budget? && log[k].g.agent == g.agent);
    case Board(_) => hide WfLog, KeptIds; BoardNeeded(log, now, kept, j);
    case Header(_, _) => hide WfLog, KeptIds; HeadersCounted(log, j);
    case Clock(_, _, _, _) => hide WfLog, KeptIds; HeadersCounted(log, j);
  }

  // ---------------------------------------------------------------- the log it makes

  /** `made` are the records of `log` at these positions, in order. */
  ghost predicate Selects(log: seq<Rec>, made: seq<Rec>, at: seq<nat>)
  {
    |at| == |made| && (forall i, j :: 0 <= i < j < |at| ==> at[i] < at[j]) && forall i :: 0 <= i < |at| ==> at[i] < |log| && made[i] == log[at[i]]
  }

  lemma SelectsMore(log: seq<Rec>, made: seq<Rec>, at: seq<nat>, m: nat)
    requires Selects(log, made, at) && m < |log| && forall i :: 0 <= i < |at| ==> at[i] < m
    ensures Selects(log, made + [log[m]], at + [m]) && forall j: nat :: j in at + [m] <==> j in at || j == m
  {
  }

  /** The kept positions below `m`. */
  ghost predicate KeptBelow(log: seq<Rec>, now: map<Str, View>, kept: set<Str>, m: nat, pos: seq<nat>)
    requires m <= |log|
  {
    (forall i :: 0 <= i < |pos| ==> pos[i] < m) && forall j: nat :: j in pos <==> j < m && KeepAt(log, now, kept, j)
  }

  lemma KeptBelowMore(log: seq<Rec>, now: map<Str, View>, kept: set<Str>, m: nat, pos: seq<nat>)
    requires m < |log| && KeptBelow(log, now, kept, m, pos)
    ensures KeptBelow(log, now, kept, m + 1, if KeepAt(log, now, kept, m) then pos + [m] else pos)
  {
    hide KeepAt;
  }

  lemma PickMore(log: seq<Rec>, now: map<Str, View>, kept: set<Str>, m: nat)
    requires m < |log|
    ensures Pick(log, now, kept, m + 1) ==
            if KeepAt(log, now, kept, m) then Pick(log, now, kept, m) + [log[m]] else Pick(log, now, kept, m)
  {
    hide KeepAt;
  }

  lemma NoneBelow(log: seq<Rec>, now: map<Str, View>, kept: set<Str>)
    ensures Selects(log, Pick(log, now, kept, 0), []) && KeptBelow(log, now, kept, 0, [])
  {
    hide KeepAt;
  }

  lemma BelowBound(log: seq<Rec>, now: map<Str, View>, kept: set<Str>, m: nat, pos: seq<nat>)
    requires m <= |log| && KeptBelow(log, now, kept, m, pos)
    ensures forall i :: 0 <= i < |pos| ==> pos[i] < m
  {
  }

  lemma {:induction false} PickSelects(log: seq<Rec>, now: map<Str, View>, kept: set<Str>, m: nat) returns (pos: seq<nat>)
    requires m <= |log|
    ensures Selects(log, Pick(log, now, kept, m), pos) && KeptBelow(log, now, kept, m, pos)
  {
    hide *;
    if m == 0 {
      NoneBelow(log, now, kept);
      pos := [];
    } else {
      var before := PickSelects(log, now, kept, m - 1);
      BelowBound(log, now, kept, m - 1, before);
      SelectsMore(log, Pick(log, now, kept, m - 1), before, m - 1);
      KeptBelowMore(log, now, kept, m - 1, before);
      PickMore(log, now, kept, m - 1);
      pos := if KeepAt(log, now, kept, m - 1) then before + [m - 1] else before;
    }
  }

  /** These are the positions of all that matters. */
  ghost predicate AllThatMatters(log: seq<Rec>, now: map<Str, View>, at: StartAt, pos: seq<nat>)
  {
    forall j: nat :: j in pos <==> j < |log| && Matters(log, now, at, j)
  }

  /** A compaction writes the records that still matter, all of them, unchanged and in order, and no others. */
  lemma KeptExactly(log: seq<Rec>, now: map<Str, View>, at: StartAt)
    requires WfLog(log)
    ensures exists pos :: Selects(log, Compact(log, now, at), pos) && AllThatMatters(log, now, at, pos)
  {
    var pos := PickSelects(log, now, KeptIds(log, now, at), |log|);
    PosMatter(log, now, at, pos);
    assert Compact(log, now, at) == Pick(log, now, KeptIds(log, now, at), |log|);
    hide *;
  }

  lemma PosMatter(log: seq<Rec>, now: map<Str, View>, at: StartAt, pos: seq<nat>)
    requires WfLog(log) && forall j: nat :: j in pos <==> j < |log| && KeepAt(log, now, KeptIds(log, now, at), j)
    ensures AllThatMatters(log, now, at, pos)
  {
    forall j: nat ensures j in pos <==> j < |log| && Matters(log, now, at, j)
    {
      if j < |log| { KeepMatters(log, now, at, j); }
      hide KeepAt, Matters, Selects, WfLog, KeptIds;
    }
    hide KeepAt, Matters, WfLog, KeptIds;
  }
}
