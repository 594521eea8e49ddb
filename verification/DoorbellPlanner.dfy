/**
  * The planner as it runs: one object gathers the cycle's records, agent by agent, and each of its steps writes what
  * the specified plan has in its place.
  */
module DoorbellPlanner {
  import opened Canon
  import opened DoorbellLog
  import opened DoorbellLedger
  import opened DoorbellPlan
  import opened DoorbellDerive
  import opened DoorbellFold
  import opened DoorbellQuiet
  import opened Wrappers

  // ---------------------------------------------------------------- lists, element by element

  lemma SnocPrefix<T>(s: seq<T>, k: nat)
    requires k < |s|
    ensures s[..k + 1] == s[..k] + [s[k]] && s[..k + 1][..k] == s[..k] && s[..k + 1][k] == s[k]
  {
  }

  lemma WholePrefix<T>(s: seq<T>)
    ensures s[..|s|] == s
  {
  }

  /** How many records a batch of this many ids takes. */
  function Chunks(ids: nat): nat
  {
    (ids + MAX_IDS - 1) / MAX_IDS
  }

  function Cut(s: seq<Str>, k: nat): (r: seq<Str>)
    ensures k * MAX_IDS <= |s| ==> r == s[k * MAX_IDS..]
  {
    if k * MAX_IDS <= |s| then s[k * MAX_IDS..] else []
  }

  /** JavaScript's `s.slice(lo, hi)` for `0 <= lo <= hi`. */
  function Slice(s: seq<Str>, lo: nat, hi: nat): seq<Str>
    requires lo <= hi
  {
    s[Min(lo, |s|)..Min(hi, |s|)]
  }

  lemma ChunkNext(s: seq<Str>, k: nat)
    ensures Slice(s, k * MAX_IDS, (k + 1) * MAX_IDS) == Cut(s, k)[..Min(MAX_IDS, |Cut(s, k)|)]
    ensures Cut(s, k + 1) == Cut(s, k)[Min(MAX_IDS, |Cut(s, k)|)..]
  {
    if |s| < k * MAX_IDS {
      assert Slice(s, k * MAX_IDS, (k + 1) * MAX_IDS) == [];
    }
  }

  /** Is this the last record of the batch? */
  lemma ChunkLast(ids: nat, k: nat)
    ensures k + 1 < Chunks(ids) <==> ids > (k + 1) * MAX_IDS
  {
  }

  lemma EffectRecsUnfold(c: Config, n: Str, session: Str, outcome: Outcome, ii: seq<Str>, ll: seq<Str>)
    ensures EffectRecs(c, n, session, outcome, ii, ll) ==
            [Effect(EffectRec(c.at, n, session, outcome, ii[..Min(MAX_IDS, |ii|)], ll[..Min(MAX_IDS, |ll|)]))] +
            (if |ii| > MAX_IDS || |ll| > MAX_IDS
             then EffectRecs(c, n, session, outcome, ii[Min(MAX_IDS, |ii|)..], ll[Min(MAX_IDS, |ll|)..]) else [])
  {
    if |ii| <= MAX_IDS && |ll| <= MAX_IDS {
      assert ii[..|ii|] == ii && ll[..|ll|] == ll;
    }
  }

  function ChunkRec(c: Config, n: Str, session: Str, outcome: Outcome, ii: seq<Str>, ll: seq<Str>, k: nat): Rec
  {
    Effect(EffectRec(c.at, n, session, outcome, Slice(ii, k * MAX_IDS, (k + 1) * MAX_IDS), Slice(ll, k * MAX_IDS, (k + 1) * MAX_IDS)))
  }

  /** The batch from its k-th record on. */
  function ChunksFrom(c: Config, n: Str, session: Str, outcome: Outcome, ii: seq<Str>, ll: seq<Str>, k: nat, count: nat): seq<Rec>
  {
    if k < count then EffectRecs(c, n, session, outcome, Cut(ii, k), Cut(ll, k)) else []
  }

  lemma ChunkStep(c: Config, n: Str, session: Str, outcome: Outcome, ii: seq<Str>, ll: seq<Str>, k: nat, count: nat)
    requires k < count && (count == 1 || count == Chunks(|ii|) || count == Chunks(|ll|))
    requires count >= Chunks(|ii|) && count >= Chunks(|ll|)
    ensures ChunksFrom(c, n, session, outcome, ii, ll, k, count) ==
            [ChunkRec(c, n, session, outcome, ii, ll, k)] + ChunksFrom(c, n, session, outcome, ii, ll, k + 1, count)
  {
    hide EffectRecs, Slice, Cut, Chunks;
    ChunkNext(ii, k);
    ChunkNext(ll, k);
    EffectRecsUnfold(c, n, session, outcome, Cut(ii, k), Cut(ll, k));
    ChunkLast(|ii|, k);
    ChunkLast(|ll|, k);
    CutLength(ii, k);
    CutLength(ll, k);
  }

  lemma CutLength(s: seq<Str>, k: nat)
    ensures |Cut(s, k)| > MAX_IDS <==> |s| > (k + 1) * MAX_IDS
  {
  }

  function ChunkCount(i: nat, l: nat): (count: nat)
    ensures (count == 1 || count == Chunks(i) || count == Chunks(l)) && count >= 1 && count >= Chunks(i) && count >= Chunks(l)
  {
    var m := if Chunks(i) > Chunks(l) then Chunks(i) else Chunks(l);
    if m == 0 then 1 else m
  }

  lemma FirstChunk(c: Config, n: Str, session: Str, outcome: Outcome, ii: seq<Str>, ll: seq<Str>, count: nat)
    requires count >= 1
    ensures ChunksFrom(c, n, session, outcome, ii, ll, 0, count) == EffectRecs(c, n, session, outcome, ii, ll)
  {
    hide EffectRecs;
    assert Cut(ii, 0) == ii && Cut(ll, 0) == ll;
  }

  /** `effectRecords`: the k-th record carries the k-th slice of each canonical list. */
  method EffectRecords(c: Config, n: Str, session: Str, outcome: Outcome, ii: seq<Str>, ll: seq<Str>) returns (recs: seq<Rec>)
    ensures recs == EffectRecs(c, n, session, outcome, ii, ll)
  {
    hide *;
    var count := ChunkCount(|ii|, |ll|);
    recs := [];
    FirstChunk(c, n, session, outcome, ii, ll, count);
    for k := 0 to count
      invariant recs + ChunksFrom(c, n, session, outcome, ii, ll, k, count) == EffectRecs(c, n, session, outcome, ii, ll)
    {
      ChunkStep(c, n, session, outcome, ii, ll, k, count);
      recs := recs + [ChunkRec(c, n, session, outcome, ii, ll, k)];
    }
    LastChunk(c, n, session, outcome, ii, ll, count);
  }

  lemma LastChunk(c: Config, n: Str, session: Str, outcome: Outcome, ii: seq<Str>, ll: seq<Str>, count: nat)
    ensures ChunksFrom(c, n, session, outcome, ii, ll, count, count) == []
  {
  }

  // ---------------------------------------------------------------- one step of each loop

  lemma MootStep(c: Config, n: Str, a: Acct, order: seq<Str>, ids: map<Str, seq<Str>>, session: Str, k: nat)
    requires Others(order, ids, a.rings, a.judged, session) && k < |order|
    ensures order[k] in ids
    ensures var u, s := Unjudged(a.rings, a.judged), order[k];
            MootEffects(c, n, u, order[..k + 1]) ==
            MootEffects(c, n, u, order[..k]) + EffectRecs(c, n, s, SessionChanged, SortedSet(Elems(ids[s])), [])
  {
    hide EffectRecs, MootSessions, Unjudged, OfSession, IdsOfRings, IdsAt;
    SnocPrefix(order, k);
    IdsAtMembers(a.rings, a.judged, order[k]);
  }

  lemma CloseStep(c: Config, xs: seq<EscRec>, k: nat, why: CloseWhy)
    requires k < |xs|
    ensures CloseAll(c, xs[..k + 1], why) == CloseAll(c, xs[..k], why) + [CloseOf(c, xs[k], why)]
  {
    hide CloseOf;
    SnocPrefix(xs, k);
  }

  lemma CloseSnoc(c: Config, xs: seq<EscRec>, x: EscRec, why: CloseWhy)
    ensures CloseAll(c, xs + [x], why) == CloseAll(c, xs, why) + [CloseOf(c, x, why)]
  {
    hide CloseOf;
    assert (xs + [x])[..|xs|] == xs;
  }

  lemma GoneStep(stuck: seq<EscRec>, pending: set<Str>, gone: bool, k: nat)
    requires k < |stuck|
    ensures var p := StuckGone(stuck[..k], pending, gone);
            StuckGone(stuck[..k + 1], pending, gone) ==
            if stuck[k].ids != [] && ((stuck[k].ids[0] !in pending) == gone) then p + [stuck[k]] else p
  {
    SnocPrefix(stuck, k);
  }

  lemma OverdueStep(c: Config, rs: seq<Ring>, overdue: bool, k: nat)
    requires k < |rs|
    ensures var p := Overdue(c, rs[..k], overdue);
            Overdue(c, rs[..k + 1], overdue) == if Young(c, rs[k].mono) != overdue then p + [rs[k]] else p
  {
    SnocPrefix(rs, k);
  }

  lemma IneffectiveSnoc(c: Config, n: Str, session: Str, rs: seq<Ring>, x: Ring)
    ensures IneffectiveRecs(c, n, session, rs + [x]) ==
            IneffectiveRecs(c, n, session, rs) + [Effect(EffectRec(c.at, n, session, Ineffective, [x.id], []))]
  {
    assert (rs + [x])[..|rs|] == rs;
  }

  // ---------------------------------------------------------------- the ids of the ring step

  function Pick(ids: seq<Str>, s: set<Str>): seq<Str>
  {
    if ids == [] then []
    else
      var p, id := Pick(ids[..|ids| - 1], s), ids[|ids| - 1];
      if id in s then p + [id] else p
  }

  lemma PickStep(ids: seq<Str>, s: set<Str>, k: nat)
    requires k < |ids|
    ensures Pick(ids[..k + 1], s) == if ids[k] in s then Pick(ids[..k], s) + [ids[k]] else Pick(ids[..k], s)
  {
    SnocPrefix(ids, k);
  }

  lemma {:induction false} PickMembers(ids: seq<Str>, s: set<Str>)
    requires Ascending(ids)
    ensures Ascending(Pick(ids, s)) && forall id :: id in Pick(ids, s) <==> id in ids && id in s
  {
    if ids != [] {
      var p, last := ids[..|ids| - 1], ids[|ids| - 1];
      PickMembers(p, s);
      assert ids == p + [last];
      var q := Pick(p, s);
      forall j | 0 <= j < |q| ensures Less(q[j], last)
      {
        assert q[j] in p;
        var m :| 0 <= m < |p| && p[m] == q[j];
        assert ids[m] == p[m];
      }
    }
  }

  /** Picking from a canonical list in order gives the canonical list of what was picked. */
  lemma PickSorted(p: set<Str>, s: set<Str>)
    requires s <= p
    ensures Pick(SortedSet(p), s) == SortedSet(s)
  {
    PickMembers(SortedSet(p), s);
    AscendingUnique(Pick(SortedSet(p), s), SortedSet(s));
  }

  lemma StuckSnoc(c: Config, n: Str, session: Str, ids: seq<Str>, id: Str, uid: nat -> Str, k: nat)
    ensures |StuckRecs(c, n, session, ids, uid, k)| == |ids|
    ensures StuckRecs(c, n, session, ids + [id], uid, k) ==
            StuckRecs(c, n, session, ids, uid, k) + [Escalation(OpenOf(c, n, session, IdStuck, [id], uid(k + |ids|)))]
  {
    assert (ids + [id])[..|ids|] == ids;
    StuckLength(c, n, session, ids, uid, k);
  }

  lemma {:induction false} StuckLength(c: Config, n: Str, session: Str, ids: seq<Str>, uid: nat -> Str, k: nat)
    ensures |StuckRecs(c, n, session, ids, uid, k)| == |ids|
  {
    if ids != [] { StuckLength(c, n, session, ids[..|ids| - 1], uid, k); }
  }

  /** Which ids a ring may cover so far, and why. */
  ghost predicate Kinds(kinds: map<Str, Kind>, unrung: set<Str>, again: set<Str>)
  {
    kinds.Keys == unrung + again && forall id :: id in kinds ==> kinds[id] == if id in unrung then New else StillPending
  }

  /** The next id in order joins the kinds exactly when it is due again. */
  lemma KindsNext(kinds: map<Str, Kind>, unrung: set<Str>, ids: seq<Str>, j: nat, again: set<Str>, l: Ledger, pending: set<Str>, c: Config)
    requires Ascending(ids) && j < |ids| && Kinds(kinds, unrung, Elems(ids[..j]) * again)
    requires again == Again(c, l, pending, unrung)
    ensures ids[j] in kinds <==> ids[j] in unrung
    ensures Kinds(if ids[j] in again then kinds[ids[j] := StillPending] else kinds, unrung, Elems(ids[..j + 1]) * again)
  {
    hide Due, CountOf, Less;
    AscendingDistinct(ids);
    SnocPrefix(ids, j);
    assert Elems(ids[..j + 1]) == Elems(ids[..j]) + {ids[j]};
    assert ids[j] !in Elems(ids[..j]);
  }

  lemma KindsList(kinds: map<Str, Kind>, unrung: set<Str>, again: set<Str>, ids: seq<Str>)
    requires Kinds(kinds, unrung, again) && forall id :: id in ids ==> id in kinds
    ensures seq(|ids|, j requires 0 <= j < |ids| => kinds[ids[j]]) == KindsOf(ids, unrung)
  {
    forall j | 0 <= j < |ids| ensures ids[j] in kinds { assert ids[j] in ids; }
  }

  function CurIn(boards: map<Str, BoardRec>, n: Str): Option<BoardRec>
  {
    if n in boards then Some(boards[n]) else None
  }

  /** The planner: its input, and the records and board states so far. */
  class Planner {
    const inp: Input
    var records: seq<Rec>
    var boardOpen: map<Str, BoardRec>
    var ticks: map<Str, nat>

    constructor (input: Input)
      ensures inp == input && records == [] && boardOpen == input.boardOpen && ticks == map[]
    {
      inp := input;
      records := [];
      boardOpen := input.boardOpen;
      ticks := map[];
    }

    /** The rescue: the old sessions' rings are moot, and their escalations close. */
    method Rescue(n: Str, ghost a: Acct, session: Str, order: seq<Str>, ids: map<Str, seq<Str>>, other: seq<EscRec>)
      requires Others(order, ids, a.rings, a.judged, session) && other == ElsewhereOf(a.open, session)
      modifies this`records
      ensures records == old(records) + MootRecs(inp.c, n, a, session)
    {
      hide MootEffects, EffectRecs, CloseOf, CloseAll, Unjudged, MootSessions, IdsAt, ElsewhereOf;
      ghost var u := Unjudged(a.rings, a.judged);
      NoMoot(n, u, other);
      for k := 0 to |order|
        invariant records == old(records) + MootEffects(inp.c, n, u, order[..k])
      {
        MootStep(inp.c, n, a, order, ids, session, k);
        var recs := EffectRecords(inp.c, n, order[k], SessionChanged, SortedSet(Elems(ids[order[k]])), []);
        records := records + recs;
      }
      WholePrefix(order);
      ghost var moot := records;
      for k := 0 to |other|
        invariant records == moot + CloseAll(inp.c, other[..k], Moved)
      {
        CloseStep(inp.c, other, k, Moved);
        records := records + [CloseOf(inp.c, other[k], Moved)];
      }
      WholePrefix(other);
    }

    lemma NoMoot(n: Str, u: seq<IntentRec>, other: seq<EscRec>)
      ensures forall order: seq<Str> :: MootEffects(inp.c, n, u, order[..0]) == []
      ensures CloseAll(inp.c, other[..0], Moved) == []
    {
    }

    /** Progress: a rung id, not recorded as left, has left the pending set. */
    method MarkProgress(n: Str, session: Str, l: Ledger, pending: set<Str>) returns (l': Ledger)
      modifies this`records
      ensures records == old(records) + ProgressRecs(inp.c, n, session, l, pending) && l' == AfterProgress(l, pending)
    {
      hide EffectRecs;
      var effect := JudgeRing(session, l.rung - l.left, Some(session), pending);
      RingMeans(session, l, pending);
      l' := l;
      if effect.IsEffective? {
        var recs := EffectRecords(inp.c, n, session, Effective, SortedSet(RingIds(l.outstanding)), effect.left);
        records := records + recs;
        l' := l.(outstanding := [], counter := 0, left := l.left + Elems(effect.left));
      }
    }

    /** The one judgement of a ring, asked of every rung id not recorded left, finds those that have left now. */
    lemma RingMeans(session: Str, l: Ledger, pending: set<Str>)
      ensures var effect := JudgeRing(session, l.rung - l.left, Some(session), pending);
              (effect.IsEffective? <==> LeftNow(l, pending) != {}) &&
              (effect.IsEffective? ==> effect.left == SortedSet(LeftNow(l, pending)) && Elems(effect.left) == LeftNow(l, pending))
    {
    }

    /** The close: an episode id, or a stuck id, has left the pending set. */
    method CloseEpisodes(l: Ledger, pending: set<Str>) returns (l': Ledger)
      modifies this`records
      ensures records == old(records) + CloseRecs(inp.c, l, pending) && l' == AfterClose(l, pending)
    {
      hide CloseOf, CloseAll, StuckGone;
      l' := l;
      if l.unresponsive.Some? && !(l.unresponsive.value.episode <= pending) {
        records := records + [CloseOf(inp.c, l.unresponsive.value.rec, Progress)];
        l' := l'.(unresponsive := None);
      }
      ghost var before := records;
      var kept: seq<EscRec> := [];
      NoneGoneYet(l.stuck, pending);
      for k := 0 to |l.stuck|
        invariant kept == StuckGone(l.stuck[..k], pending, false)
        invariant records == before + CloseAll(inp.c, StuckGone(l.stuck[..k], pending, true), Progress)
      {
        GoneStep(l.stuck, pending, true, k);
        GoneStep(l.stuck, pending, false, k);
        var x := l.stuck[k];
        if x.ids != [] {
          if x.ids[0] !in pending {
            CloseSnoc(inp.c, StuckGone(l.stuck[..k], pending, true), x, Progress);
            records := records + [CloseOf(inp.c, x, Progress)];
          } else {
            kept := kept + [x];
          }
        }
      }
      WholePrefix(l.stuck);
      l' := l'.(stuck := kept);
    }

    lemma NoneGoneYet(stuck: seq<EscRec>, pending: set<Str>)
      ensures StuckGone(stuck[..0], pending, false) == [] && CloseAll(inp.c, StuckGone(stuck[..0], pending, true), Progress) == []
    {
    }

    /** The horizon: a ring still outstanding H after it rang was ineffective. */
    method CutHorizon(n: Str, session: Str, l: Ledger) returns (l': Ledger)
      modifies this`records
      ensures records == old(records) + IneffectiveRecs(inp.c, n, session, Overdue(inp.c, l.outstanding, true))
      ensures l' == AfterHorizon(inp.c, l)
    {
      hide IneffectiveRecs, Overdue;
      var rings := l.outstanding;
      var kept: seq<Ring>, counter := [], l.counter;
      NoneOverdueYet(n, session, rings);
      for k := 0 to |rings|
        invariant kept == Overdue(inp.c, rings[..k], false) && counter == l.counter + |Overdue(inp.c, rings[..k], true)|
        invariant records == old(records) + IneffectiveRecs(inp.c, n, session, Overdue(inp.c, rings[..k], true))
      {
        OverdueStep(inp.c, rings, true, k);
        OverdueStep(inp.c, rings, false, k);
        if Young(inp.c, rings[k].mono) {
          kept := kept + [rings[k]];
        } else {
          IneffectiveSnoc(inp.c, n, session, Overdue(inp.c, rings[..k], true), rings[k]);
          records := records + [Effect(EffectRec(inp.c.at, n, session, Ineffective, [rings[k].id], []))];
          counter := counter + 1;
        }
      }
      WholePrefix(rings);
      l' := l.(outstanding := kept, counter := counter);
    }

    lemma NoneOverdueYet(n: Str, session: Str, rings: seq<Ring>)
      ensures Overdue(inp.c, rings[..0], false) == [] && Overdue(inp.c, rings[..0], true) == []
      ensures IneffectiveRecs(inp.c, n, session, []) == []
    {
    }

    /** The threshold: a counter that reached it with no open escalation opens one, on a witness of the ids still pending. */
    method CheckThreshold(n: Str, session: Str, l: Ledger, pending: set<Str>) returns (l': Ledger)
      modifies this`records
      ensures var id := inp.uid(|old(records)|);
              records == old(records) + ThresholdRecs(inp.c, n, session, l, pending, id) && l' == AfterThreshold(inp.c, n, session, l, pending, id)
    {
      hide OpenOf;
      l' := l;
      if l.counter >= ESCALATE_AFTER && l.unresponsive == None {
        var ids := Witness(l, pending);
        WitnessSome(l, pending);
        if |ids| > 0 {
          var x := OpenOf(inp.c, n, session, Unresponsive, ids, inp.uid(|records|));
          records := records + [Escalation(x)];
          l' := l.(unresponsive := Some(OpenEsc(x, Elems(ids), false)));
        }
      }
    }

    lemma WitnessSome(l: Ledger, pending: set<Str>)
      ensures Witness(l, pending) != [] <==> l.rung * pending != {}
    {
      assert |SortedSet(l.rung * pending)| == |l.rung * pending|;
    }

    /** Progress, close and horizon, one after another. */
    method Settle(n: Str, session: Str, l: Ledger, pending: set<Str>) returns (l': Ledger)
      modifies this`records
      ensures records == old(records) + SettleRecs(inp.c, n, session, l, pending) && l' == Settled(inp.c, l, pending)
    {
      hide ProgressRecs, CloseRecs, IneffectiveRecs, Overdue, AfterProgress, AfterClose, AfterHorizon;
      var l1 := MarkProgress(n, session, l, pending);
      var l2 := CloseEpisodes(l1, pending);
      l' := CutHorizon(n, session, l2);
    }

    /** `judge`: an unbound session is a hold; otherwise the records are judged, and the ledger after them returned. */
    method Judge(n: Str, read: PendingRead) returns (l: Option<Ledger>)
      requires HistoryOk(HistoryOf(inp.log, n), n)
      modifies this`records
      ensures records == old(records) + JudgeOf(inp, n, read, |old(records)|)
      ensures l == if read.session.None? then None else Some(LedgerAfter(inp, n, read.session.value, Elems(read.ids), |old(records)|))
    {
      hide *;
      if read.session == None {
        HoldJudgesNothing(n, read, |records|);
        l := None;
      } else {
        JudgeShape(n, read, |records|);
        var l1 := JudgeBound(n, read.session.value, Elems(read.ids));
        l := Some(l1);
      }
    }

    lemma HoldJudgesNothing(n: Str, read: PendingRead, k: nat)
      requires read.session == None
      ensures JudgeOf(inp, n, read, k) == []
    {
    }

    method JudgeBound(n: Str, session: Str, pending: set<Str>) returns (l: Ledger)
      requires HistoryOk(HistoryOf(inp.log, n), n)
      modifies this`records
      ensures var a := Account(inp.log, n);
              var l0 := LedgerOf(a, session, inp.mono);
              var before := MootRecs(inp.c, n, a, session) + SettleRecs(inp.c, n, session, l0, pending);
              var s, id := Settled(inp.c, l0, pending), inp.uid(|old(records)| + |before|);
              records == old(records) + (before + ThresholdRecs(inp.c, n, session, s, pending, id)) &&
              l == AfterThreshold(inp.c, n, session, s, pending, id)
    {
      hide *;
      HistoryAccount(inp.log, n);
      ghost var a := Account(inp.log, n);
      var l0, order, ids, other := DeriveLedger(HistoryOf(inp.log, n), n, session, inp.mono);
      Rescue(n, a, session, order, ids, other);
      var l1 := Settle(n, session, l0, pending);
      ghost var moot, settled := MootRecs(inp.c, n, a, session), SettleRecs(inp.c, n, session, l0, pending);
      Regroup(old(records), moot, settled);
      l := CheckThreshold(n, session, l1, pending);
      Regroup(old(records), moot + settled, ThresholdRecs(inp.c, n, session, l1, pending, inp.uid(|old(records)| + |moot + settled|)));
    }

    lemma Regroup(x: seq<Rec>, y: seq<Rec>, z: seq<Rec>)
      ensures (x + y) + z == x + (y + z) && |x + y| == |x| + |y|
    {
    }

    lemma JudgeShape(n: Str, read: PendingRead, k: nat)
      requires read.session.Some?
      ensures var a, rs, p := Account(inp.log, n), read.session.value, Elems(read.ids);
              var l := LedgerOf(a, rs, inp.mono);
              var before := MootRecs(inp.c, n, a, rs) + SettleRecs(inp.c, n, rs, l, p);
              var s, id := Settled(inp.c, l, p), inp.uid(k + |before|);
              JudgeOf(inp, n, read, k) == before + ThresholdRecs(inp.c, n, rs, s, p, id) &&
              LedgerAfter(inp, n, rs, p, k) == AfterThreshold(inp.c, n, rs, s, p, id)
    {
      hide LedgerOf, MootRecs, SettleRecs, ThresholdRecs, AfterThreshold, Settled, Run;
    }
 
    /** `boardTo`: move one agent's board state, a record only when it changes. */
    method MoveBoard(n: Str, next: Option<Case>, count: nat, why: BoardClose)
      modifies this`records, this`boardOpen
      ensures var moves := BoardTo(inp.c, n, CurIn(old(boardOpen), n), next, count, why, inp.uid, |old(records)|);
              records == old(records) + moves && CurIn(boardOpen, n) == BoardAfter(CurIn(old(boardOpen), n), moves)
      ensures boardOpen - {n} == old(boardOpen) - {n}
    {
      ghost var cur := CurIn(boardOpen, n);
      ghost var moves := BoardTo(inp.c, n, cur, next, count, why, inp.uid, |records|);
      MovesMeans(n, cur, next, count, why, |records|);
      hide BoardAfter;
      if n in boardOpen && next.Some? && boardOpen[n].kase == next.value.kase && boardOpen[n].why == next.value.why { return; }
      if n in boardOpen {
        var closed := boardOpen[n].(at := inp.c.at, isOpen := false, pending := count, close := Some(if next.Some? then Resolved else why));
        records := records + [Board(closed)];
        boardOpen := boardOpen - {n};
      }
      if next.Some? {
        var x := next.value;
        var rec := BoardRec(inp.c.at, inp.uid(|records|), n, x.kase, true, x.bindings[..Min(MAX_IDS, |x.bindings|)], x.dead, count, None, x.why);
        records := records + [Board(rec)];
        boardOpen := boardOpen[n := rec];
      }
    }

    /** What a board move leaves open: nothing, what was, or the record it opened. */
    lemma MovesMeans(n: Str, cur: Option<BoardRec>, next: Option<Case>, count: nat, why: BoardClose, k: nat)
      ensures var moves := BoardTo(inp.c, n, cur, next, count, why, inp.uid, k);
              BoardAfter(cur, moves) ==
                if moves == [] then cur else if next.None? then None else Some(moves[|moves| - 1].b)
    {
      var moves := BoardTo(inp.c, n, cur, next, count, why, inp.uid, k);
      if cur.Some? && moves != [] {
        BoardAfterOne(cur, moves[0]);
        if next.Some? {
          assert moves == [moves[0]] + [moves[1]];
          AfterConcat(cur, false, [moves[0]], [moves[1]]);
          BoardAfterOne(None, moves[1]);
        } else {
          assert moves == [moves[0]];
        }
      } else if moves != [] {
        assert moves == [moves[0]];
        BoardAfterOne(cur, moves[0]);
      }
    }

    /** Re-ring: ids still pending H after their last ring, under the cap; those at it are dropped, each with a record. */
    method ReRing(n: Str, session: Str, l: Ledger, pending: set<Str>, unrung: set<Str>, first: map<Str, Kind>) returns (kinds: map<Str, Kind>)
      requires l.unresponsive == None && Kinds(first, unrung, {})
      modifies this`records
      ensures Kinds(kinds, unrung, Again(inp.c, l, pending, unrung))
      ensures records == old(records) +
                StuckRecs(inp.c, n, session, SortedSet(AtCap(inp.c, l, pending, unrung)), inp.uid, |old(records)|)
    {
      hide *;
      var ids := SortedSet(pending);
      ghost var cap, again := AtCap(inp.c, l, pending, unrung), Again(inp.c, l, pending, unrung);
      kinds := first;
      NoneStuckYet(n, session, ids, cap, |records|);
      assert {} * again == {};
      for j := 0 to |ids|
        invariant Kinds(kinds, unrung, Elems(ids[..j]) * again)
        invariant records == old(records) + StuckRecs(inp.c, n, session, Pick(ids[..j], cap), inp.uid, |old(records)|)
      {
        var id := ids[j];
        assert id in pending;
        PickStep(ids, cap, j);
        Sorting(l, pending, unrung, id);
        KindsNext(kinds, unrung, ids, j, again, l, pending, inp.c);
        if id in l.last && id !in kinds && !Young(inp.c, l.last[id]) {
          if CountOf(l, id) < RE_RING_CAP {
            kinds := kinds[id := StillPending];
          } else if !HasStuck(l, id) {
            StuckSnoc(inp.c, n, session, Pick(ids[..j], cap), id, inp.uid, |old(records)|);
            records := records + [Escalation(OpenOf(inp.c, n, session, IdStuck, [id], inp.uid(|records|)))];
          }
        }
      }
      WholePrefix(ids);
      AllAgain(l, pending, unrung);
      CapPending(l, pending, unrung);
      PickSorted(pending, cap);
    }

    lemma NoneStuckYet(n: Str, session: Str, ids: seq<Str>, cap: set<Str>, k: nat)
      ensures StuckRecs(inp.c, n, session, Pick(ids[..0], cap), inp.uid, k) == [] && Elems(ids[..0]) == {}
    {
    }

    lemma CapPending(l: Ledger, pending: set<Str>, unrung: set<Str>)
      ensures AtCap(inp.c, l, pending, unrung) <= pending
    {
    }

    lemma AllAgain(l: Ledger, pending: set<Str>, unrung: set<Str>)
      ensures Elems(SortedSet(pending)) * Again(inp.c, l, pending, unrung) == Again(inp.c, l, pending, unrung)
    {
    }

    /** Which of the two an id is. */
    lemma Sorting(l: Ledger, pending: set<Str>, unrung: set<Str>, id: Str)
      requires l.unresponsive == None && id in pending
      ensures id in Again(inp.c, l, pending, unrung) <==> id in l.last && id !in unrung && !Young(inp.c, l.last[id]) && CountOf(l, id) < RE_RING_CAP
      ensures id in AtCap(inp.c, l, pending, unrung) <==>
                id in l.last && id !in unrung && !Young(inp.c, l.last[id]) && CountOf(l, id) >= RE_RING_CAP && !HasStuck(l, id)
    {
    }

    /** The ring step: re-ring, then at most one intent, within budget and window. */
    method Ring(n: Str, session: Str, l: Ledger, pending: set<Str>, binding: Str)
      modifies this`records
      ensures records == old(records) + RingRecs(inp, n, session, l, pending, binding, |old(records)|)
    {
      hide *;
      RingShape(n, session, l, pending, binding, |records|);
      var unrung := Unrung(session, pending, inp.rung);
      var kinds: map<Str, Kind> := map id | id in unrung :: New;
      NewKinds(unrung);
      ghost var k := |records|;
      ghost var again := Again(inp.c, l, pending, unrung);
      ghost var stuck := StuckRecs(inp.c, n, session, SortedSet(AtCap(inp.c, l, pending, unrung)), inp.uid, k);
      if l.unresponsive.Some? {
        NoAgain(n, session, l, pending, unrung, k);
        if l.unresponsive.value.extra {
          SpentRing(n, session, l, binding, unrung, again, k + |stuck|);
          return;
        }
      } else {
        kinds := ReRing(n, session, l, pending, unrung, kinds);
      }
      assert records == old(records) + stuck;
      WriteRing(n, session, l, binding, kinds, unrung, again);
      Regroup(old(records), stuck, RingTail(n, session, l, binding, unrung, again, k + |stuck|));
    }

    /** The intent of the ring step, if every guard lets it through. */
    function RingTail(n: Str, session: Str, l: Ledger, binding: Str, unrung: set<Str>, again: set<Str>, k: nat): seq<Rec>
    {
      var times := TimesOf(inp, n);
      if (l.unresponsive.Some? && l.unresponsive.value.extra) || unrung + again == {} || ExhaustedNow(inp.c, times) || Coalescing(inp.c, times)
      then []
      else [Intent(IntentOf(inp.c, n, session, binding, l, unrung, again, inp.uid(k)))]
    }

    method WriteRing(n: Str, session: Str, l: Ledger, binding: Str, kinds: map<Str, Kind>, ghost unrung: set<Str>, ghost again: set<Str>)
      requires Kinds(kinds, unrung, again) && !(l.unresponsive.Some? && l.unresponsive.value.extra)
      modifies this`records
      ensures records == old(records) + RingTail(n, session, l, binding, unrung, again, |old(records)|)
    {
      hide Kinds, ExhaustedNow, Coalescing, RingIdsOf, KindsOf, MonoMs, TimesOf;
      KindKeys(kinds, unrung, again);
      if kinds == map[] { return; }
      var times := TimesOf(inp, n);
      if ExhaustedNow(inp.c, times) { return; }
      if Coalescing(inp.c, times) { return; }
      var s := SortedSet(kinds.Keys);
      RingIdsAre(kinds, unrung, again, s);
      var ids := s[..Min(MAX_IDS, |s|)];
      KindsList(kinds, unrung, again, ids);
      var i := IntentRec(inp.c.at, MonoMs(inp.c), inp.uid(|records|), n, binding, l.unresponsive.Some?, session, ids,
                         seq(|ids|, j requires 0 <= j < |ids| => kinds[ids[j]]));
      records := records + [Intent(i)];
    }

    lemma NewKinds(unrung: set<Str>)
      ensures Kinds(map id | id in unrung :: New, unrung, {})
    {
    }

    lemma NoAgain(n: Str, session: Str, l: Ledger, pending: set<Str>, unrung: set<Str>, k: nat)
      requires l.unresponsive.Some?
      ensures Again(inp.c, l, pending, unrung) == {}
      ensures StuckRecs(inp.c, n, session, SortedSet(AtCap(inp.c, l, pending, unrung)), inp.uid, k) == []
    {
    }

    lemma SpentRing(n: Str, session: Str, l: Ledger, binding: Str, unrung: set<Str>, again: set<Str>, k: nat)
      requires l.unresponsive.Some? && l.unresponsive.value.extra
      ensures RingTail(n, session, l, binding, unrung, again, k) == []
    {
    }

    lemma KindKeys(kinds: map<Str, Kind>, unrung: set<Str>, again: set<Str>)
      requires Kinds(kinds, unrung, again)
      ensures kinds.Keys == unrung + again && (kinds == map[] <==> unrung + again == {})
    {
    }

    lemma RingIdsAre(kinds: map<Str, Kind>, unrung: set<Str>, again: set<Str>, s: seq<Str>)
      requires Kinds(kinds, unrung, again) && s == SortedSet(kinds.Keys)
      ensures s[..Min(MAX_IDS, |s|)] == RingIdsOf(unrung, again) && forall id :: id in s[..Min(MAX_IDS, |s|)] ==> id in kinds
    {
    }

    /** The ring step's records: the ids dropped from re-ring, then the intent. */
    lemma RingShape(n: Str, session: Str, l: Ledger, pending: set<Str>, binding: Str, k: nat)
      ensures var u := Unrung(session, pending, inp.rung);
              var again := Again(inp.c, l, pending, u);
              var stuck := StuckRecs(inp.c, n, session, SortedSet(AtCap(inp.c, l, pending, u)), inp.uid, k);
              RingRecs(inp, n, session, l, pending, binding, k) == stuck + RingTail(n, session, l, binding, u, again, k + |stuck|)
    {
      hide ExhaustedNow, Coalescing, IntentOf, StuckRecs, Again, AtCap, Unrung, TimesOf;
    }

    /** The budget state, recorded when it changes, for an agent bound on this host with a reading session. */
    method CheckBudget(n: Str, read: PendingRead, bs: seq<Binding>)
      requires bs == OfAgent(inp.bindings, n)
      modifies this`records
      ensures records == old(records) + BudgetRecs(inp, n, read.session)
    {
      hide ExhaustedNow, OfAgent, TimesOf;
      var times := TimesOf(inp, n);
      var bound := exists b :: b in bs && b.host == inp.ownHost;
      if read.session.Some? && bound && ExhaustedNow(inp.c, times) != (n in inp.exhausted) {
        records := records + [Budget(BudgetRec(inp.c.at, n, ExhaustedNow(inp.c, times), RingsInHour(inp.c, times), inp.c.budget))];
      }
    }

    /** The windows of an agent with mail: its board state, then perhaps a ring. `k` records came before its judgement. */
    method ServeMail(n: Str, read: PendingRead, bs: seq<Binding>, l: Option<Ledger>, ghost k: nat)
      requires bs == OfAgent(inp.bindings, n) && CurIn(boardOpen, n) == CurBoard(inp, n)
      requires l == if read.session.None? then None else Some(LedgerAfter(inp, n, read.session.value, Elems(read.ids), k))
      modifies this`records, this`boardOpen, this`ticks
      ensures records == old(records) + MailRecs(inp, n, read, |old(records)|, k)
      ensures boardOpen - {n} == old(boardOpen) - {n}
      ensures ticks == TicksAfter(old(ticks), n, Decide(inp, n, read, bs))
    {
      hide *;
      var d := Decide(inp, n, read, bs);
      MailShape(n, read, k, |records|);
      TicksMeans(ticks, n, d);
      if d.Hold? {
        ticks := ticks[n := d.ticks];
        return;
      }
      ghost var board := BoardTo(inp.c, n, CurBoard(inp, n), d.next, |read.ids|, Resolved, inp.uid, |records|);
      MoveBoard(n, d.next, |read.ids|, Resolved);
      if d.unknowns.Some? { ticks := ticks[n := d.unknowns.value]; }
      var alive := AliveOf(bs, inp.ownHost);
      if d.ring && read.session.Some? && alive != [] {
        Ring(n, read.session.value, l.value, Elems(read.ids), alive[0].id);
        Regroup(old(records), board, RingRecs(inp, n, read.session.value, l.value, Elems(read.ids), alive[0].id, |old(records)| + |board|));
      }
    }

    lemma TicksMeans(t: map<Str, nat>, n: Str, d: Decision)
      ensures TicksAfter(t, n, d) ==
              if d.Hold? then t[n := d.ticks] else if d.unknowns.Some? then t[n := d.unknowns.value] else t
    {
    }

    lemma MailShape(n: Str, read: PendingRead, j: nat, k: nat)
      ensures var bs := OfAgent(inp.bindings, n);
              var d, alive := Decide(inp, n, read, bs), AliveOf(bs, inp.ownHost);
              MailRecs(inp, n, read, k, j) ==
                if d.Hold? then []
                else
                  var board := BoardTo(inp.c, n, CurBoard(inp, n), d.next, |read.ids|, Resolved, inp.uid, k);
                  if d.ring && read.session.Some? && alive != []
                  then board + RingRecs(inp, n, read.session.value, LedgerAfter(inp, n, read.session.value, Elems(read.ids), j),
                                        Elems(read.ids), alive[0].id, k + |board|)
                  else board
    {
      hide Decide, OfAgent, AliveOf, BoardTo, RingRecs, LedgerAfter;
    }

    /** Everything one evaluated agent adds. */
    method Evaluate(n: Str, read: PendingRead, bs: seq<Binding>)
      requires bs == OfAgent(inp.bindings, n) && CurIn(boardOpen, n) == CurBoard(inp, n) && HistoryOk(HistoryOf(inp.log, n), n)
      modifies this`records, this`boardOpen, this`ticks
      ensures records == old(records) + AgentRecs(inp, n, read, |old(records)|)
      ensures boardOpen - {n} == old(boardOpen) - {n}
      ensures ticks == if !read.registered || read.ids == [] then old(ticks) else TicksAfter(old(ticks), n, Decide(inp, n, read, bs))
    {
      hide *;
      AgentShape(n, read, |records|);
      if !read.registered {
        MoveBoard(n, None, 0, NoMail);
        return;
      }
      ghost var k := |records|;
      ghost var J, G := JudgeOf(inp, n, read, k), BudgetRecs(inp, n, read.session);
      var l := Judge(n, read);
      CheckBudget(n, read, bs);
      Regroup(old(records), J, G);
      if read.ids == [] {
        Regroup(old(records), J + G, BoardTo(inp.c, n, CurBoard(inp, n), None, 0, NoMail, inp.uid, k + |J + G|));
        MoveBoard(n, None, 0, NoMail);
      } else {
        Regroup(old(records), J + G, MailRecs(inp, n, read, k + |J + G|, k));
        ServeMail(n, read, bs, l, k);
      }
    }

    lemma AgentShape(n: Str, read: PendingRead, k: nat)
      ensures var J, G := JudgeOf(inp, n, read, k), BudgetRecs(inp, n, read.session);
              AgentRecs(inp, n, read, k) ==
                if !read.registered then BoardTo(inp.c, n, CurBoard(inp, n), None, 0, NoMail, inp.uid, k)
                else if read.ids == [] then (J + G) + BoardTo(inp.c, n, CurBoard(inp, n), None, 0, NoMail, inp.uid, k + |J + G|)
                else (J + G) + MailRecs(inp, n, read, k + |J + G|, k)
    {
      hide JudgeOf, BudgetRecs, BoardTo, MailRecs;
    }
  }

  /** The consecutive-unknown counts after one decision. */
  function TicksAfter(ticks: map<Str, nat>, n: Str, d: Decision): map<Str, nat>
  {
    match d
    case Hold(t) => ticks[n := t]
    case Show(_, Some(t), _) => ticks[n := t]
    case Show(_, None, _) => ticks
  }

  // ---------------------------------------------------------------- the whole cycle

  /** Group the bindings by agent; a binding that names no agent is set aside. */
  method GroupByAgent(bs: seq<Binding>) returns (groups: map<Str, seq<Binding>>)
    ensures forall n :: (n in groups <==> exists b :: b in bs && b.agent == Some(n)) && (n in groups ==> groups[n] == OfAgent(bs, n))
  {
    groups := map[];
    for k := 0 to |bs|
      invariant forall n :: (n in groups <==> OfAgent(bs[..k], n) != []) && (n in groups ==> groups[n] == OfAgent(bs[..k], n))
    {
      var b := bs[k];
      SnocPrefix(bs, k);
      if b.agent.Some? {
        groups := groups[b.agent.value := (if b.agent.value in groups then groups[b.agent.value] else []) + [b]];
      }
    }
    WholePrefix(bs);
    forall n ensures OfAgent(bs, n) != [] <==> exists b :: b in bs && b.agent == Some(n) { GroupNamed(bs, n); }
  }

  lemma GroupNamed(bs: seq<Binding>, n: Str)
    ensures OfAgent(bs, n) != [] <==> exists b :: b in bs && b.agent == Some(n)
  {
    OfAgentMembers(bs, n);
    var g := OfAgent(bs, n);
    assert g != [] ==> g[0] in g;
  }

  function TickIn(ticks: map<Str, nat>, n: Str): Option<nat>
  {
    if n in ticks then Some(ticks[n]) else None
  }

  /** The log as its schema leaves it: every intent's ids are a canonical set. */
  predicate CanonicalLog(log: seq<Rec>)
  {
    forall r :: r in log && r.Intent? ==> Ascending(r.i.ids)
  }

  lemma CanonicalHistory(log: seq<Rec>, n: Str)
    requires CanonicalLog(log)
    ensures HistoryOk(HistoryOf(log, n), n)
  {
    HistoryMembers(log, n);
  }

  lemma MainSnoc(inp: Input, names: seq<Str>, k: nat)
    requires k < |names|
    ensures var n, before := names[k], MainRecs(inp, names[..k]);
            MainRecs(inp, names[..k + 1]) == if n in inp.inbox then before + AgentRecs(inp, n, inp.inbox[n], |before|) else before
  {
    hide AgentRecs;
    SnocPrefix(names, k);
  }

  lemma AllSnoc(inp: Input, names: seq<Str>, n: Str)
    ensures var before := AllRecs(inp, names);
            AllRecs(inp, names + [n]) == if n in inp.inbox then before + AbsentRecs(inp, n, inp.inbox[n], |before|) else before
  {
    hide AbsentRecs, MainRecs;
    assert (names + [n])[..|names|] == names;
  }

  /** Ticks and boards after the first `k` candidates: those visited are settled, the others untouched. */
  ghost predicate Visited(inp: Input, names: seq<Str>, k: nat, boards: map<Str, BoardRec>, ticks: map<Str, nat>)
    requires k <= |names|
  {
    forall n :: if n in names[..k] then TickIn(ticks, n) == TicksOf(inp, n) else n !in ticks && CurIn(boards, n) == CurBoard(inp, n)
  }

  lemma VisitNext(inp: Input, names: seq<Str>, k: nat, b0: map<Str, BoardRec>, t0: map<Str, nat>, b1: map<Str, BoardRec>, t1: map<Str, nat>)
    requires k < |names| && Ascending(names) && Visited(inp, names, k, b0, t0)
    requires b1 - {names[k]} == b0 - {names[k]} && TickIn(t1, names[k]) == TicksOf(inp, names[k])
    requires forall n :: n != names[k] ==> TickIn(t1, n) == TickIn(t0, n)
    ensures Visited(inp, names, k + 1, b1, t1)
  {
    hide TicksOf;
    SnocPrefix(names, k);
    forall n | n != names[k] ensures CurIn(b1, n) == CurIn(b0, n)
    {
      assert n in b1 <==> n in b1 - {names[k]};
      assert n in b0 <==> n in b0 - {names[k]};
      assert n in b0 ==> (b0 - {names[k]})[n] == b0[n];
      assert n in b1 ==> (b1 - {names[k]})[n] == b1[n];
    }
    forall n ensures if n in names[..k + 1] then TickIn(t1, n) == TicksOf(inp, n) else n !in t1 && CurIn(b1, n) == CurBoard(inp, n)
    {
      assert n in names[..k + 1] <==> n in names[..k] || n == names[k];
      if n != names[k] { assert TickIn(t1, n) == TickIn(t0, n); }
    }
  }

  /** The count a candidate carries into the next cycle. */
  lemma CandidateTicks(inp: Input, n: Str, t: map<Str, nat>)
    requires n in MainNames(inp) && n !in t
    ensures var held := if n in inp.ticks then t[n := inp.ticks[n]] else t;
            inp.ownHost == "" || n !in inp.inbox ==> TickIn(held, n) == TicksOf(inp, n)
    ensures inp.ownHost != "" && n in inp.inbox ==>
              var read := inp.inbox[n];
              TickIn(if !read.registered || read.ids == [] then t else TicksAfter(t, n, Decide(inp, n, read, OfAgent(inp.bindings, n))), n) == TicksOf(inp, n)
  {
    hide MainNames, Decide, OfAgent;
  }

  lemma NotVisited(inp: Input, names: seq<Str>, k: nat, b: map<Str, BoardRec>, t: map<Str, nat>)
    requires k < |names| && Ascending(names) && Visited(inp, names, k, b, t)
    ensures names[k] !in t && CurIn(b, names[k]) == CurBoard(inp, names[k])
  {
    AscendingDistinct(names);
  }

  method Hold(p: Planner, n: Str)
    modifies p`ticks
    ensures p.ticks == if n in p.inp.ticks then old(p.ticks)[n := p.inp.ticks[n]] else old(p.ticks)
  {
    if n in p.inp.ticks { p.ticks := p.ticks[n := p.inp.ticks[n]]; }
  }

  lemma CandidateNames(inp: Input)
    ensures Ascending(MainNames(inp))
  {
  }

  /** One candidate: evaluated, or held where its pending set cannot be read. */
  method Visit(p: Planner, names: seq<Str>, k: nat, bs: seq<Binding>)
    requires k < |names| && names == MainNames(p.inp) && bs == OfAgent(p.inp.bindings, names[k]) && CanonicalLog(p.inp.log) && p.inp.ownHost != ""
    requires p.records == MainRecs(p.inp, names[..k]) && Visited(p.inp, names, k, p.boardOpen, p.ticks)
    modifies p
    ensures p.records == MainRecs(p.inp, names[..k + 1]) && Visited(p.inp, names, k + 1, p.boardOpen, p.ticks)
  {
    hide *;
    CandidateNames(p.inp);
    var n := names[k];
    assert n in MainNames(p.inp);
    ghost var b0, t0 := p.boardOpen, p.ticks;
    MainSnoc(p.inp, names, k);
    NotVisited(p.inp, names, k, b0, t0);
    CandidateTicks(p.inp, n, t0);
    CanonicalHistory(p.inp.log, n);
    if n in p.inp.inbox {
      var read := p.inp.inbox[n];
      p.Evaluate(n, read, bs);
      OthersTicks(t0, n, if !read.registered || read.ids == [] then None else Some(Decide(p.inp, n, read, bs)));
    } else {
      Hold(p, n);
    }
    OneTick(t0, p.ticks, n);
    VisitNext(p.inp, names, k, b0, t0, p.boardOpen, p.ticks);
  }

  lemma OthersTicks(t: map<Str, nat>, n: Str, d: Option<Decision>)
    ensures d.Some? ==> TicksAfter(t, n, d.value) - {n} == t - {n}
  {
  }

  lemma OneTick(t0: map<Str, nat>, t1: map<Str, nat>, n: Str)
    requires t1 - {n} == t0 - {n} || t1 == t0 || (n in t1 && t1 == t0[n := t1[n]])
    ensures forall m :: m != n ==> TickIn(t1, m) == TickIn(t0, m)
  {
    forall m | m != n ensures TickIn(t1, m) == TickIn(t0, m)
    {
      assert m in t1 <==> m in t1 - {n};
      assert m in t0 <==> m in t0 - {n};
      assert m in t0 ==> (t0 - {n})[m] == t0[m];
      assert m in t1 ==> (t1 - {n})[m] == t1[m];
    }
  }

  /** An unknown host: every candidate's count is held, and nothing else happens. */
  method HoldAll(p: Planner, names: seq<Str>)
    requires names == MainNames(p.inp) && p.inp.ownHost == "" && p.ticks == map[] && p.boardOpen == p.inp.boardOpen
    modifies p`ticks
    ensures forall n :: TickIn(p.ticks, n) == TicksOf(p.inp, n)
  {
    hide *;
    CandidateNames(p.inp);
    NoneVisited(p.inp, names);
    for k := 0 to |names|
      invariant Visited(p.inp, names, k, p.boardOpen, p.ticks)
    {
      assert names[k] in MainNames(p.inp);
      ghost var t0 := p.ticks;
      NotVisited(p.inp, names, k, p.boardOpen, t0);
      CandidateTicks(p.inp, names[k], t0);
      Hold(p, names[k]);
      OneTick(t0, p.ticks, names[k]);
      VisitNext(p.inp, names, k, p.boardOpen, t0, p.boardOpen, p.ticks);
    }
    AllVisited(p.inp, names, p.boardOpen, p.ticks);
  }

  lemma NoneVisited(inp: Input, names: seq<Str>)
    ensures Visited(inp, names, 0, inp.boardOpen, map[]) && MainRecs(inp, names[..0]) == []
  {
  }

  lemma AllVisited(inp: Input, names: seq<Str>, boards: map<Str, BoardRec>, ticks: map<Str, nat>)
    requires names == MainNames(inp) && Visited(inp, names, |names|, boards, ticks)
    ensures forall n :: TickIn(ticks, n) == TicksOf(inp, n)
  {
    hide MainNames, Decide;
    WholePrefix(names);
  }

  /** Agents with history that were not evaluated: judged, never rung. */
  method JudgeAbsent(p: Planner, names: seq<Str>, agents: seq<Str>)
    requires names == MainNames(p.inp) && agents == SortedSet(LedgerAgents(p.inp.log)) && CanonicalLog(p.inp.log)
    requires p.records == MainRecs(p.inp, names)
    modifies p`records
    ensures p.records == AllRecs(p.inp, AbsentNames(p.inp))
  {
    hide *;
    ghost var absent := set n | n in LedgerAgents(p.inp.log) && !(n in names && n in p.inp.inbox);
    NoAbsentYet(p.inp, agents, absent);
    for k := 0 to |agents|
      invariant p.records == AllRecs(p.inp, Pick(agents[..k], absent))
    {
      var n := agents[k];
      assert n in LedgerAgents(p.inp.log);
      PickStep(agents, absent, k);
      AllSnoc(p.inp, Pick(agents[..k], absent), n);
      if n in names && n in p.inp.inbox { continue; }
      if n in p.inp.inbox {
        var read := p.inp.inbox[n];
        CanonicalHistory(p.inp.log, n);
        AbsentShape(p.inp, n, read, |p.records|);
        if read.registered { var _ := p.Judge(n, read); }
      }
    }
    WholePrefix(agents);
    PickSorted(LedgerAgents(p.inp.log), absent);
    AbsentAre(p.inp, absent);
  }

  lemma NoAbsentYet(inp: Input, agents: seq<Str>, absent: set<Str>)
    ensures AllRecs(inp, Pick(agents[..0], absent)) == MainRecs(inp, MainNames(inp))
  {
  }

  lemma AbsentShape(inp: Input, n: Str, read: PendingRead, k: nat)
    ensures AbsentRecs(inp, n, read, k) == if read.registered then JudgeOf(inp, n, read, k) else []
  {
  }

  lemma AbsentAre(inp: Input, absent: set<Str>)
    requires absent == set n | n in LedgerAgents(inp.log) && !(n in MainNames(inp) && n in inp.inbox)
    ensures AbsentNames(inp) == SortedSet(absent)
  {
  }

  function NamedAgents(bs: seq<Binding>): set<Str>
  {
    set b | b in bs && b.agent.Some? :: b.agent.value
  }

  lemma MainNamesAre(inp: Input, groups: map<Str, seq<Binding>>)
    requires forall n :: n in groups <==> exists b :: b in inp.bindings && b.agent == Some(n)
    ensures MainNames(inp) == SortedSet(groups.Keys + (if inp.mail.Some? then Elems(inp.mail.value) else {}) + inp.boardOpen.Keys)
  {
    GroupKeys(inp.bindings, groups);
    MainNamesOf(inp);
    hide *;
  }

  lemma GroupKeys(bs: seq<Binding>, groups: map<Str, seq<Binding>>)
    requires forall n :: n in groups <==> exists b :: b in bs && b.agent == Some(n)
    ensures groups.Keys == NamedAgents(bs)
  {
    forall n ensures n in groups.Keys <==> n in NamedAgents(bs)
    {
      if n in groups {
        var b :| b in bs && b.agent == Some(n);
        assert b.agent.value in NamedAgents(bs);
      }
    }
  }

  lemma MainNamesOf(inp: Input)
    ensures MainNames(inp) == SortedSet(NamedAgents(inp.bindings) + (if inp.mail.Some? then Elems(inp.mail.value) else {}) + inp.boardOpen.Keys)
  {
    hide SortedSet;
  }

  /**
    * `planCycle`: one pass over the candidates, then one over the agents with history, writes the plan and
    * leaves every agent's consecutive-unknown count as the next cycle needs it.
    */
  method PlanCycle(inp: Input) returns (p: Planner)
    requires CanonicalLog(inp.log)
    ensures fresh(p) && p.inp == inp && p.records == Plan(inp) && forall n :: TickIn(p.ticks, n) == TicksOf(inp, n)
  {
    hide *;
    p := new Planner(inp);
    var groups := GroupByAgent(inp.bindings);
    MainNamesAre(inp, groups);
    var names := SortedSet(groups.Keys + (if inp.mail.Some? then Elems(inp.mail.value) else {}) + inp.boardOpen.Keys);
    PlanShape(inp);
    if inp.ownHost == "" {
      HoldAll(p, names);
      return;
    }
    NoneVisited(inp, names);
    for k := 0 to |names|
      invariant p.inp == inp && fresh(p)
      invariant p.records == MainRecs(inp, names[..k]) && Visited(inp, names, k, p.boardOpen, p.ticks)
    {
      var n := names[k];
      GroupNamed(inp.bindings, n);
      var bs := if n in groups then groups[n] else [];
      Visit(p, names, k, bs);
    }
    WholePrefix(names);
    AllVisited(inp, names, p.boardOpen, p.ticks);
    JudgeAbsent(p, names, SortedSet(LedgerAgents(inp.log)));
  }

  lemma PlanShape(inp: Input)
    ensures Plan(inp) == if inp.ownHost == "" then [] else AllRecs(inp, AbsentNames(inp))
  {
  }
}
