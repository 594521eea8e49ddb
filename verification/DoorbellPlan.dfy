/**
  * One doorbell cycle: what each agent's history, pending set and windows make it write, judgement first, then the
  * ring.
  */
module DoorbellPlan {
  import opened Canon
  import opened DoorbellLog
  import opened DoorbellLedger
  import opened Wrappers

  const MIN_WINDOW_MS := 10_000
  const MAX_WINDOW_MS := 600_000
  const MIN_BUDGET := 1
  const MAX_BUDGET := 60
  const BUDGET_WINDOW_MS := 3_600_000
  const MIN_HORIZON_MS := 60_000
  const MAX_HORIZON_MS := 3_600_000
  const ESCALATE_AFTER: nat := 3
  const RE_RING_CAP: nat := 3
  const CANNOT_OBSERVE_AFTER: nat := 5

  /** One cycle's clock and tunables: wall time `at`, and `now` on this lifetime's monotonic clock. */
  datatype Config = Config(at: int, now: real, windowMs: int, budget: int, horizonMs: int, operator: Option<Str>)

  predicate TunablesOk(c: Config)
  {
    MIN_WINDOW_MS <= c.windowMs <= MAX_WINDOW_MS && MIN_BUDGET <= c.budget <= MAX_BUDGET &&
    MIN_HORIZON_MS <= c.horizonMs <= MAX_HORIZON_MS && c.windowMs <= c.horizonMs
  }

  datatype PendingRead = PendingRead(registered: bool, session: Option<Str>, ids: seq<Str>)

  datatype Verdict = Alive | Dead | Unverifiable

  /** A binding, with what its window anchor's liveness probe says on this host. */
  datatype Binding = Binding(id: Str, agent: Option<Str>, host: Str, anchor: Verdict)

  datatype WatchStatus = Live | Stale | Absent | Unknown | Blind

  datatype WatchFit = WatchFit(status: WatchStatus, undelivered: bool)

  /**
    * Everything a cycle reads. An agent missing from `inbox` is one whose pending read failed;
    * `mail` is None when the all-agent query failed; `ownHost` is "" when this host is unknown.
    */
  datatype Input = Input(
    c: Config,
    bindings: seq<Binding>,
    ownHost: Str,
    inbox: map<Str, PendingRead>,
    rung: set<(Str, Str)>,
    ringMono: map<Str, seq<int>>,
    exhausted: set<Str>,
    mail: Option<seq<Str>>,
    boardOpen: map<Str, BoardRec>,
    watchFit: Option<Str -> WatchFit>,
    ticks: map<Str, nat>,
    actuated: set<Str>,
    log: seq<Rec>,
    mono: map<Str, int>,
    uid: nat -> Str)

  // ---------------------------------------------------------------- judging one ring

  datatype RingEffect = IsEffective(left: seq<Str>) | IsPending | IsMoved | IsUnbound

  /** What became of one ring, from its (session, ids) and one pending read, and nothing else. */
  function JudgeRing(session: Str, ids: set<Str>, readSession: Option<Str>, pending: set<Str>): RingEffect
  {
    if readSession == None then IsUnbound
    else if readSession.value != session then IsMoved
    else if ids - pending == {} then IsPending
    else IsEffective(SortedSet(ids - pending))
  }

  // ---------------------------------------------------------------- judging one agent

  function Min(a: int, b: int): int
  {
    if a <= b then a else b
  }

  /** An effect as one or more records, each within the per-record id bound. */
  function EffectRecs(c: Config, n: Str, session: Str, outcome: Outcome, ii: seq<Str>, ll: seq<Str>): seq<Rec>
    decreases |ii| + |ll|
  {
    if |ii| <= MAX_IDS && |ll| <= MAX_IDS then [Effect(EffectRec(c.at, n, session, outcome, ii, ll))]
    else
      var p, q := Min(MAX_IDS, |ii|), Min(MAX_IDS, |ll|);
      [Effect(EffectRec(c.at, n, session, outcome, ii[..p], ll[..q]))] +
      EffectRecs(c, n, session, outcome, ii[p..], ll[q..])
  }

  function CloseOf(c: Config, x: EscRec, why: CloseWhy): Rec
  {
    Escalation(EscRec(c.at, x.id, x.agent, x.session, x.reason, false, SortedSet(Elems(x.ids)), c.operator, Some(why)))
  }

  function CloseAll(c: Config, xs: seq<EscRec>, why: CloseWhy): seq<Rec>
  {
    if xs == [] then [] else CloseAll(c, xs[..|xs| - 1], why) + [CloseOf(c, xs[|xs| - 1], why)]
  }

  /** The sessions other than `session` with an unjudged ring, in the order they first appear. */
  function MootSessions(rings: seq<IntentRec>, session: Str): seq<Str>
  {
    if rings == [] then []
    else
      var s := rings[|rings| - 1].session;
      var p := MootSessions(rings[..|rings| - 1], session);
      if s == session || s in p then p else p + [s]
  }

  function IdsOfRings(rings: seq<IntentRec>): set<Str>
  {
    set i | i in rings :: i.id
  }

  function MootEffects(c: Config, n: Str, unjudged: seq<IntentRec>, sessions: seq<Str>): seq<Rec>
  {
    if sessions == [] then []
    else
      var s := sessions[|sessions| - 1];
      MootEffects(c, n, unjudged, sessions[..|sessions| - 1]) +
      EffectRecs(c, n, s, SessionChanged, SortedSet(IdsOfRings(OfSession(unjudged, s))), [])
  }

  /** The rescue path: the old session's rings are moot, its escalations close. */
  function MootRecs(c: Config, n: Str, a: Acct, session: Str): seq<Rec>
  {
    var u := Unjudged(a.rings, a.judged);
    MootEffects(c, n, u, MootSessions(u, session)) + CloseAll(c, ElsewhereOf(a.open, session), Moved)
  }

  /** Rung ids of this session that have left its pending set, not yet recorded as left. */
  function LeftNow(l: Ledger, pending: set<Str>): set<Str>
  {
    l.rung - l.left - pending
  }

  function RingIds(rs: seq<Ring>): set<Str>
  {
    set r | r in rs :: r.id
  }

  function ProgressRecs(c: Config, n: Str, session: Str, l: Ledger, pending: set<Str>): seq<Rec>
  {
    if LeftNow(l, pending) == {} then []
    else EffectRecs(c, n, session, Effective, SortedSet(RingIds(l.outstanding)), SortedSet(LeftNow(l, pending)))
  }

  function AfterProgress(l: Ledger, pending: set<Str>): Ledger
  {
    if LeftNow(l, pending) == {} then l
    else l.(outstanding := [], counter := 0, left := l.left + LeftNow(l, pending))
  }

  predicate EpisodeOver(l: Ledger, pending: set<Str>)
  {
    l.unresponsive.Some? && !(l.unresponsive.value.episode <= pending)
  }

  function StuckGone(stuck: seq<EscRec>, pending: set<Str>, gone: bool): seq<EscRec>
  {
    if stuck == [] then []
    else
      var p, x := StuckGone(stuck[..|stuck| - 1], pending, gone), stuck[|stuck| - 1];
      if x.ids != [] && ((x.ids[0] !in pending) == gone) then p + [x] else p
  }

  /** The close: an episode id, or a stuck id, has left the pending set of this same session. */
  function CloseRecs(c: Config, l: Ledger, pending: set<Str>): seq<Rec>
  {
    (if EpisodeOver(l, pending) then [CloseOf(c, l.unresponsive.value.rec, Progress)] else []) +
    CloseAll(c, StuckGone(l.stuck, pending, true), Progress)
  }

  function AfterClose(l: Ledger, pending: set<Str>): Ledger
  {
    l.(unresponsive := if EpisodeOver(l, pending) then None else l.unresponsive,
       stuck := StuckGone(l.stuck, pending, false))
  }

  /** Is a ring at `mono` still short of the horizon? */
  predicate Young(c: Config, mono: int)
  {
    c.now - mono as real < c.horizonMs as real
  }

  function Overdue(c: Config, rs: seq<Ring>, overdue: bool): seq<Ring>
  {
    if rs == [] then []
    else
      var p, x := Overdue(c, rs[..|rs| - 1], overdue), rs[|rs| - 1];
      if Young(c, x.mono) != overdue then p + [x] else p
  }

  function IneffectiveRecs(c: Config, n: Str, session: Str, rs: seq<Ring>): seq<Rec>
  {
    if rs == [] then []
    else
      IneffectiveRecs(c, n, session, rs[..|rs| - 1]) +
      [Effect(EffectRec(c.at, n, session, Ineffective, [rs[|rs| - 1].id], []))]
  }

  function AfterHorizon(c: Config, l: Ledger): Ledger
  {
    l.(outstanding := Overdue(c, l.outstanding, false), counter := l.counter + |Overdue(c, l.outstanding, true)|)
  }

  /** The witness ids of an escalation: the first in canonical order of the rung ids still pending. */
  function Witness(l: Ledger, pending: set<Str>): seq<Str>
  {
    var s := SortedSet(l.rung * pending);
    s[..Min(MAX_IDS, |s|)]
  }

  predicate Escalates(l: Ledger, pending: set<Str>)
  {
    l.counter >= ESCALATE_AFTER && l.unresponsive == None && l.rung * pending != {}
  }

  function OpenOf(c: Config, n: Str, session: Str, reason: Reason, ids: seq<Str>, id: Str): EscRec
  {
    EscRec(c.at, id, n, session, reason, true, ids, c.operator, None)
  }

  function ThresholdRecs(c: Config, n: Str, session: Str, l: Ledger, pending: set<Str>, id: Str): seq<Rec>
  {
    if Escalates(l, pending) then [Escalation(OpenOf(c, n, session, Unresponsive, Witness(l, pending), id))] else []
  }

  function AfterThreshold(c: Config, n: Str, session: Str, l: Ledger, pending: set<Str>, id: Str): Ledger
  {
    if Escalates(l, pending)
    then l.(unresponsive := Some(OpenEsc(OpenOf(c, n, session, Unresponsive, Witness(l, pending), id), Elems(Witness(l, pending)), false)))
    else l
  }

  /** All that `judge` writes for its own session, before the threshold. */
  function SettleRecs(c: Config, n: Str, session: Str, l: Ledger, pending: set<Str>): seq<Rec>
  {
    var l1 := AfterProgress(l, pending);
    var l2 := AfterClose(l1, pending);
    ProgressRecs(c, n, session, l, pending) + CloseRecs(c, l1, pending) +
    IneffectiveRecs(c, n, session, Overdue(c, l2.outstanding, true))
  }

  function Settled(c: Config, l: Ledger, pending: set<Str>): Ledger
  {
    AfterHorizon(c, AfterClose(AfterProgress(l, pending), pending))
  }

  /**
    * `judge`: rescue, progress, close, horizon, threshold. `moot` is the rescue's part; `k` is how many
    * records the cycle has written before this agent's.
    */
  function JudgeRecs(c: Config, n: Str, session: Str, moot: seq<Rec>, l: Ledger, pending: set<Str>, uid: nat -> Str, k: nat): seq<Rec>
  {
    var before := moot + SettleRecs(c, n, session, l, pending);
    before + ThresholdRecs(c, n, session, Settled(c, l, pending), pending, uid(k + |before|))
  }

  function Judged(c: Config, n: Str, session: Str, moot: seq<Rec>, l: Ledger, pending: set<Str>, uid: nat -> Str, k: nat): Ledger
  {
    var before := moot + SettleRecs(c, n, session, l, pending);
    AfterThreshold(c, n, session, Settled(c, l, pending), pending, uid(k + |before|))
  }

  // ---------------------------------------------------------------- windows and the board

  predicate NotDead(b: Binding, ownHost: Str)
  {
    b.host != ownHost || b.anchor != Dead
  }

  predicate IsAlive(b: Binding, ownHost: Str)
  {
    b.host == ownHost && b.anchor == Alive
  }

  function OfAgent(bs: seq<Binding>, n: Str): seq<Binding>
  {
    if bs == [] then []
    else
      var p, b := OfAgent(bs[..|bs| - 1], n), bs[|bs| - 1];
      if b.agent == Some(n) then p + [b] else p
  }

  function NotDeadOf(bs: seq<Binding>, ownHost: Str): (r: seq<Binding>)
    ensures |r| <= |bs|
  {
    if bs == [] then []
    else
      var p, b := NotDeadOf(bs[..|bs| - 1], ownHost), bs[|bs| - 1];
      if NotDead(b, ownHost) then p + [b] else p
  }

  function AliveOf(bs: seq<Binding>, ownHost: Str): seq<Binding>
  {
    if bs == [] then []
    else
      var p, b := AliveOf(bs[..|bs| - 1], ownHost), bs[|bs| - 1];
      if IsAlive(b, ownHost) then p + [b] else p
  }

  function BindingIds(bs: seq<Binding>): seq<Str>
  {
    SortedSet(set b | b in bs :: b.id)
  }

  datatype Case = Case(kase: BoardCase, bindings: seq<Str>, dead: nat, why: Option<BoardWhy>)

  /** Move one agent's board state: a record only when it changes. */
  function BoardTo(c: Config, n: Str, cur: Option<BoardRec>, next: Option<Case>, count: nat, closeWhy: BoardClose, uid: nat -> Str, k: nat): seq<Rec>
  {
    if next.Some? && cur.Some? && cur.value.kase == next.value.kase && cur.value.why == next.value.why then []
    else
      var closing := if cur.Some?
        then [Board(cur.value.(at := c.at, isOpen := false, pending := count, close := Some(if next.Some? then Resolved else closeWhy)))]
        else [];
      var opening := if next.Some?
        then [Board(BoardRec(c.at, uid(k + |closing|), n, next.value.kase, true,
                             next.value.bindings[..Min(MAX_IDS, |next.value.bindings|)], next.value.dead, count, None, next.value.why))]
        else [];
      closing + opening
  }

  /** The board case of the agent's windows and session, before the watch is asked. */
  function WindowCase(bs: seq<Binding>, ownHost: Str, session: Option<Str>): Option<Case>
  {
    var notDead := NotDeadOf(bs, ownHost);
    var alive := AliveOf(bs, ownHost);
    var dead := |bs| - |notDead|;
    if |notDead| >= 2 then Some(Case(AmbiguousBinding, BindingIds(notDead), dead, None))
    else if alive == [] then Some(Case(NoLiveWindow, BindingIds(notDead), dead, None))
    else if session == None then Some(Case(SessionUnbound, BindingIds(alive), dead, None))
    else None
  }

  /** What the cycle does with an agent that has mail: its board state, its tick count, and whether it may be rung. */
  datatype Decision = Hold(ticks: nat) | Show(next: Option<Case>, unknowns: Option<nat>, ring: bool)

  function Decide(inp: Input, n: Str, read: PendingRead, bs: seq<Binding>): Decision
  {
    var next := WindowCase(bs, inp.ownHost, read.session);
    var actuated := next == None && read.session.Some? && n in inp.actuated;
    var alive := BindingIds(AliveOf(bs, inp.ownHost));
    var dead := |bs| - |NotDeadOf(bs, inp.ownHost)|;
    if next == None && read.session.Some? && inp.watchFit.Some? then
      var fit := inp.watchFit.value(n);
      match fit.status
      case Blind => Show(Some(Case(CannotObserve, alive, dead, Some(OfAnchor))), None, false)
      case Unknown =>
        var t := (if n in inp.ticks then inp.ticks[n] else 0) + 1;
        if t < CANNOT_OBSERVE_AFTER then Hold(t)
        else Show(Some(Case(CannotObserve, alive, dead, Some(OfWatch))), Some(t), false)
      case Live => Show(if fit.undelivered then Some(Case(UndeliveredWithWatch, alive, dead, None)) else None, None, false)
      case _ =>
        if actuated then Show(None, None, true)
        else Show(Some(Case(NoDriver, alive, dead, Some(if fit.status == Stale then WatchStale else WatchAbsent))), None, false)
    else Show(next, None, next == None && read.session.Some? && actuated)
  }

  // ---------------------------------------------------------------- the ring step

  function TimesOf(inp: Input, n: Str): seq<int>
  {
    if n in inp.ringMono then inp.ringMono[n] else []
  }

  predicate InHour(c: Config, t: int)
  {
    t as real > c.now - BUDGET_WINDOW_MS as real
  }

  function RingsInHour(c: Config, times: seq<int>): nat
  {
    if times == [] then 0
    else RingsInHour(c, times[..|times| - 1]) + if InHour(c, times[|times| - 1]) then 1 else 0
  }

  predicate ExhaustedNow(c: Config, times: seq<int>)
  {
    RingsInHour(c, times) >= c.budget
  }

  /** Within W of a past ring. (`Math.max(...times)` is within W exactly when some time is.) */
  predicate Coalescing(c: Config, times: seq<int>)
  {
    exists t :: t in times && c.now - t as real < c.windowMs as real
  }

  function BudgetRecs(inp: Input, n: Str, session: Option<Str>): seq<Rec>
  {
    var times := TimesOf(inp, n);
    var bound := exists b :: b in OfAgent(inp.bindings, n) && b.host == inp.ownHost;
    if session.Some? && bound && ExhaustedNow(inp.c, times) != (n in inp.exhausted)
    then [Budget(BudgetRec(inp.c.at, n, ExhaustedNow(inp.c, times), RingsInHour(inp.c, times), inp.c.budget))]
    else []
  }

  /** Is a rung id due again: still pending H after its last ring? */
  predicate Due(c: Config, l: Ledger, id: Str)
  {
    id in l.last && !Young(c, l.last[id])
  }

  function CountOf(l: Ledger, id: Str): nat
  {
    if id in l.count then l.count[id] else 0
  }

  predicate HasStuck(l: Ledger, id: Str)
  {
    exists x :: x in l.stuck && x.ids != [] && x.ids[0] == id
  }

  function Unrung(session: Str, ids: set<Str>, rung: set<(Str, Str)>): set<Str>
  {
    set id | id in ids && (session, id) !in rung
  }

  function Again(c: Config, l: Ledger, ids: set<Str>, unrung: set<Str>): set<Str>
  {
    if l.unresponsive.Some? then {}
    else set id | id in ids && id !in unrung && Due(c, l, id) && CountOf(l, id) < RE_RING_CAP
  }

  function AtCap(c: Config, l: Ledger, ids: set<Str>, unrung: set<Str>): set<Str>
  {
    if l.unresponsive.Some? then {}
    else set id | id in ids && id !in unrung && Due(c, l, id) && CountOf(l, id) >= RE_RING_CAP && !HasStuck(l, id)
  }

  function StuckRecs(c: Config, n: Str, session: Str, ids: seq<Str>, uid: nat -> Str, k: nat): seq<Rec>
  {
    if ids == [] then []
    else
      var m := |ids| - 1;
      StuckRecs(c, n, session, ids[..m], uid, k) + [Escalation(OpenOf(c, n, session, IdStuck, [ids[m]], uid(k + m)))]
  }

  /** `Math.round`. */
  function Round(x: real): int
  {
    (x + 0.5).Floor
  }

  function MonoMs(c: Config): int
  {
    if Round(c.now) < 0 then 0 else Round(c.now)
  }

  function KindsOf(ids: seq<Str>, unrung: set<Str>): (r: seq<Kind>)
    ensures |r| == |ids| && forall k :: 0 <= k < |ids| ==> r[k] == if ids[k] in unrung then New else StillPending
  {
    seq(|ids|, k requires 0 <= k < |ids| => if ids[k] in unrung then New else StillPending)
  }

  /** The ids one intent covers: the first MAX_IDS of all that are due, in canonical order. */
  function RingIdsOf(unrung: set<Str>, again: set<Str>): seq<Str>
  {
    var s := SortedSet(unrung + again);
    s[..Min(MAX_IDS, |s|)]
  }

  predicate MayRing(c: Config, l: Ledger, times: seq<int>, unrung: set<Str>, again: set<Str>)
  {
    !(l.unresponsive.Some? && l.unresponsive.value.extra) && unrung + again != {} &&
    !ExhaustedNow(c, times) && !Coalescing(c, times)
  }

  function IntentOf(c: Config, n: Str, session: Str, binding: Str, l: Ledger, unrung: set<Str>, again: set<Str>, id: Str): IntentRec
  {
    var ids := RingIdsOf(unrung, again);
    IntentRec(c.at, MonoMs(c), id, n, binding, l.unresponsive.Some?, session, ids, KindsOf(ids, unrung))
  }

  function RingRecs(inp: Input, n: Str, session: Str, l: Ledger, pending: set<Str>, binding: Str, k: nat): seq<Rec>
  {
    var c := inp.c;
    var unrung := Unrung(session, pending, inp.rung);
    var again := Again(c, l, pending, unrung);
    var stuck := StuckRecs(c, n, session, SortedSet(AtCap(c, l, pending, unrung)), inp.uid, k);
    if MayRing(c, l, TimesOf(inp, n), unrung, again)
    then stuck + [Intent(IntentOf(c, n, session, binding, l, unrung, again, inp.uid(k + |stuck|)))]
    else stuck
  }

  // ---------------------------------------------------------------- one agent, then the cycle

  /** The judgement of one agent's read, or nothing where its session is unbound (a hold). */
  function JudgeOf(inp: Input, n: Str, read: PendingRead, k: nat): seq<Rec>
  {
    if read.session == None then []
    else
      var rs := read.session.value;
      var a := Account(inp.log, n);
      JudgeRecs(inp.c, n, rs, MootRecs(inp.c, n, a, rs), LedgerOf(a, rs, inp.mono), Elems(read.ids), inp.uid, k)
  }

  function LedgerAfter(inp: Input, n: Str, rs: Str, pending: set<Str>, k: nat): Ledger
  {
    var a := Account(inp.log, n);
    Judged(inp.c, n, rs, MootRecs(inp.c, n, a, rs), LedgerOf(a, rs, inp.mono), pending, inp.uid, k)
  }

  function CurBoard(inp: Input, n: Str): Option<BoardRec>
  {
    if n in inp.boardOpen then Some(inp.boardOpen[n]) else None
  }

  /** The windows' part of an agent with mail: board records, then perhaps a ring. */
  function MailRecs(inp: Input, n: Str, read: PendingRead, k: nat, j: nat): seq<Rec>
  {
    var bs := OfAgent(inp.bindings, n);
    match Decide(inp, n, read, bs)
    case Hold(_) => []
    case Show(next, _, ring) =>
      var board := BoardTo(inp.c, n, CurBoard(inp, n), next, |read.ids|, Resolved, inp.uid, k);
      if ring && read.session.Some? && AliveOf(bs, inp.ownHost) != []
      then board + RingRecs(inp, n, read.session.value, LedgerAfter(inp, n, read.session.value, Elems(read.ids), j),
                            Elems(read.ids), AliveOf(bs, inp.ownHost)[0].id, k + |board|)
      else board
  }

  /** Every record one evaluated agent adds; `k` records of the cycle come before them. */
  function AgentRecs(inp: Input, n: Str, read: PendingRead, k: nat): seq<Rec>
  {
    if !read.registered then BoardTo(inp.c, n, CurBoard(inp, n), None, 0, NoMail, inp.uid, k)
    else
      var judged := JudgeOf(inp, n, read, k) + BudgetRecs(inp, n, read.session);
      if read.ids == [] then judged + BoardTo(inp.c, n, CurBoard(inp, n), None, 0, NoMail, inp.uid, k + |judged|)
      else judged + MailRecs(inp, n, read, k + |judged|, k)
  }

  /** An agent with history that is no candidate now: judged, never rung. */
  function AbsentRecs(inp: Input, n: Str, read: PendingRead, k: nat): seq<Rec>
  {
    if read.registered then JudgeOf(inp, n, read, k) else []
  }

  function MainNames(inp: Input): seq<Str>
  {
    SortedSet((set b | b in inp.bindings && b.agent.Some? :: b.agent.value) +
              (if inp.mail.Some? then Elems(inp.mail.value) else {}) + inp.boardOpen.Keys)
  }

  function LedgerAgents(log: seq<Rec>): set<Str>
  {
    set r | r in log && (r.Intent? || r.Effect? || r.Escalation?) :: AgentOf(r).value
  }

  /** Read, and not already evaluated as a candidate. */
  function AbsentNames(inp: Input): seq<Str>
  {
    SortedSet(set n | n in LedgerAgents(inp.log) && !(n in MainNames(inp) && n in inp.inbox))
  }

  function MainRecs(inp: Input, names: seq<Str>): seq<Rec>
  {
    if names == [] then []
    else
      var n := names[|names| - 1];
      var before := MainRecs(inp, names[..|names| - 1]);
      if n in inp.inbox then before + AgentRecs(inp, n, inp.inbox[n], |before|) else before
  }

  function AllRecs(inp: Input, names: seq<Str>): seq<Rec>
  {
    if names == [] then MainRecs(inp, MainNames(inp))
    else
      var n := names[|names| - 1];
      var before := AllRecs(inp, names[..|names| - 1]);
      if n in inp.inbox then before + AbsentRecs(inp, n, inp.inbox[n], |before|) else before
  }

  /** One cycle's records, in order. An unknown host is a hold: nothing is judged or written. */
  function Plan(inp: Input): seq<Rec>
  {
    if inp.ownHost == "" then [] else AllRecs(inp, AbsentNames(inp))
  }

  /** The consecutive-unknown count an agent carries into the next cycle. */
  function TicksOf(inp: Input, n: Str): Option<nat>
  {
    var held := if n in inp.ticks then Some(inp.ticks[n]) else None;
    if n !in MainNames(inp) then None
    else if inp.ownHost == "" || n !in inp.inbox then held
    else
      var read := inp.inbox[n];
      if !read.registered || read.ids == [] then None
      else match Decide(inp, n, read, OfAgent(inp.bindings, n))
        case Hold(t) => Some(t)
        case Show(_, t, _) => t
  }

  // ---------------------------------------------------------------- members of the lists above

  lemma {:induction false} MootSessionsMembers(rings: seq<IntentRec>, session: Str)
    ensures forall i :: i in rings && i.session != session ==> i.session in MootSessions(rings, session)
    ensures forall s :: s in MootSessions(rings, session) ==> s != session && exists i :: i in rings && i.session == s
    ensures forall j, k :: 0 <= j < k < |MootSessions(rings, session)| ==> MootSessions(rings, session)[j] != MootSessions(rings, session)[k]
  {
    if rings != [] {
      MootSessionsMembers(rings[..|rings| - 1], session);
      assert rings == rings[..|rings| - 1] + [rings[|rings| - 1]];
    }
  }

  lemma {:induction false} StuckGoneMembers(stuck: seq<EscRec>, pending: set<Str>, gone: bool)
    ensures forall x :: x in StuckGone(stuck, pending, gone) <==> x in stuck && x.ids != [] && ((x.ids[0] !in pending) == gone)
  {
    if stuck != [] {
      StuckGoneMembers(stuck[..|stuck| - 1], pending, gone);
      assert stuck == stuck[..|stuck| - 1] + [stuck[|stuck| - 1]];
    }
  }

  lemma {:induction false} OverdueMembers(c: Config, rs: seq<Ring>, overdue: bool)
    ensures forall x :: x in Overdue(c, rs, overdue) <==> x in rs && Young(c, x.mono) != overdue
  {
    if rs != [] {
      OverdueMembers(c, rs[..|rs| - 1], overdue);
      assert rs == rs[..|rs| - 1] + [rs[|rs| - 1]];
    }
  }

  lemma {:induction false} OfAgentMembers(bs: seq<Binding>, n: Str)
    ensures forall b :: b in OfAgent(bs, n) <==> b in bs && b.agent == Some(n)
  {
    if bs != [] {
      OfAgentMembers(bs[..|bs| - 1], n);
      assert bs == bs[..|bs| - 1] + [bs[|bs| - 1]];
    }
  }

  lemma {:induction false} WindowMembers(bs: seq<Binding>, ownHost: Str)
    ensures forall b :: b in NotDeadOf(bs, ownHost) <==> b in bs && NotDead(b, ownHost)
    ensures forall b :: b in AliveOf(bs, ownHost) <==> b in bs && IsAlive(b, ownHost)
  {
    if bs != [] {
      WindowMembers(bs[..|bs| - 1], ownHost);
      assert bs == bs[..|bs| - 1] + [bs[|bs| - 1]];
    }
  }
}
