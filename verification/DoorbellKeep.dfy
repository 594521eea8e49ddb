/**
  * Compaction on start: which records of a log still matter, by the job's keep rules, and the log that is made of
  * them.
  */
module DoorbellKeep {
  import opened Canon
  import opened DoorbellLog
  import opened DoorbellLedger
  import opened DoorbellPlan
  import opened DoorbellAdmit
  import opened Wrappers

  const KEEP_HEADERS: nat := 5
  const KEEP_CLOCKS: nat := 16

  /** The clock and budget a compaction works with, taken once at start. */
  datatype StartAt = StartAt(lastHeader: Option<int>, startWall: int, budget: nat)

  /**
    * A previous lifetime's ring on this lifetime's clock: at minus its wall age, or at 0 when that age is
    * implausible (negative, or the log's last header is ahead of now).
    */
  function PlaceRing(wall: int, lastHeader: Option<int>, startWall: int): int
  {
    var age := startWall - wall;
    if (lastHeader.Some? && lastHeader.value > startWall) || age < 0 then 0 else -age
  }

  predicate CountsAtStart(wall: int, lastHeader: Option<int>, startWall: int)
  {
    PlaceRing(wall, lastHeader, startWall) > -BUDGET_WINDOW_MS
  }

  /** The ids of the last `budget` of these rings. */
  function LastIds(rings: seq<IntentRec>, budget: nat): set<Str>
  {
    var from := if |rings| <= budget then 0 else |rings| - budget;
    set k | from <= k < |rings| :: rings[k].id
  }

  function JudgedAll(log: seq<Rec>): set<Str>
  {
    set r, x | r in log && r.Effect? && x in r.e.intents :: x
  }

  function LeftAll(log: seq<Rec>): set<(Str, Str, Str)>
  {
    set r, id | r in log && r.Effect? && id in r.e.left :: (r.e.agent, r.e.session, id)
  }

  /** The open `agent_unresponsive` escalations met so far, and the extra ring of each. */
  datatype Extras = Extras(open: map<Str, (Str, Str)>, extraOf: map<Str, Str>)

  function ExtraStep(s: Extras, r: Rec): Extras
  {
    match r
    case Escalation(x) =>
      if x.reason != Unresponsive then s
      else if x.isOpen then s.(open := s.open[x.id := (x.agent, x.session)])
      else s.(open := s.open - {x.id})
    case Intent(i) =>
      if !i.during then s
      else s.(extraOf := map eid | eid in s.open.Keys + s.extraOf.Keys ::
                           if eid in s.open && s.open[eid] == (i.agent, i.session) then i.id
                           else if eid in s.extraOf then s.extraOf[eid] else "")
    case _ => s
  }

  function ExtrasOf(log: seq<Rec>): Extras
  {
    if log == [] then Extras(map[], map[]) else ExtraStep(ExtrasOf(log[..|log| - 1]), log[|log| - 1])
  }

  function KeepExtra(log: seq<Rec>): set<Str>
  {
    var s := ExtrasOf(log);
    set eid | eid in s.open && eid in s.extraOf && s.extraOf[eid] != "" :: s.extraOf[eid]
  }

  /** (d), (e): an id still pending for the same session, or left while the job was down and not yet recorded. */
  predicate StillNeeded(log: seq<Rec>, now: map<Str, View>, i: IntentRec)
  {
    i.agent in now && now[i.agent].session == Some(i.session) &&
    exists id :: id in i.ids && (id in now[i.agent].pending || (i.agent, i.session, id) !in LeftAll(log))
  }

  /** `intentKeepRule`: the six reasons to keep an intent. */
  predicate KeepIntent(log: seq<Rec>, now: map<Str, View>, at: StartAt, i: IntentRec)
  {
    i.id in KeepExtra(log) ||
    CountsAtStart(i.at, at.lastHeader, at.startWall) ||
    i.id in LastIds(Account(log, i.agent).rings, at.budget) ||
    i.id !in JudgedAll(log) ||
    StillNeeded(log, now, i)
  }

  function KeptIds(log: seq<Rec>, now: map<Str, View>, at: StartAt): set<Str>
  {
    set r | r in log && r.Intent? && KeepIntent(log, now, at, r.i) :: r.i.id
  }

  /** The (agent, session, id) triples of the kept intents. */
  function KeptKeys(log: seq<Rec>, kept: set<Str>): set<(Str, Str, Str)>
  {
    set r, id | r in log && r.Intent? && r.i.id in kept && id in r.i.ids :: (r.i.agent, r.i.session, id)
  }

  predicate CurrentSession(now: map<Str, View>, agent: Str, session: Str)
  {
    agent in now && now[agent].session == Some(session)
  }

  predicate EffectiveAt(log: seq<Rec>, k: int, agent: Str, session: Str)
    requires 0 <= k < |log|
  {
    log[k].Effect? && log[k].e.agent == agent && log[k].e.session == session && log[k].e.outcome == Effective
  }

  /** `selectLedgerKeep` on effect records: judges a kept ring, records a kept id's leaving, or is in the current run. */
  predicate KeepEffect(log: seq<Rec>, now: map<Str, View>, kept: set<Str>, j: nat)
    requires j < |log| && log[j].Effect?
  {
    var e := log[j].e;
    (exists x :: x in e.intents && x in kept) ||
    (exists id :: id in e.left && (e.agent, e.session, id) in KeptKeys(log, kept)) ||
    (CurrentSession(now, e.agent, e.session) && forall k :: j < k < |log| ==> !EffectiveAt(log, k, e.agent, e.session))
  }

  predicate SameEscAt(log: seq<Rec>, k: int, id: Str)
    requires 0 <= k < |log|
  {
    log[k].Escalation? && log[k].x.id == id
  }

  predicate BudgetAt(log: seq<Rec>, k: int, agent: Str)
    requires 0 <= k < |log|
  {
    log[k].Budget? && log[k].g.agent == agent
  }

  predicate BoardOpenAt(log: seq<Rec>, k: int, agent: Str)
    requires 0 <= k < |log|
  {
    log[k].Board? && log[k].b.isOpen && log[k].b.agent == agent
  }

  function CountHeaders(log: seq<Rec>): nat
  {
    if log == [] then 0 else CountHeaders(log[1..]) + if log[0].Header? then 1 else 0
  }

  function CountClocks(log: seq<Rec>): nat
  {
    if log == [] then 0 else CountClocks(log[1..]) + if log[0].Clock? then 1 else 0
  }

  /** Is the record at position `j` kept, given the kept intents? */
  predicate KeepAt(log: seq<Rec>, now: map<Str, View>, kept: set<Str>, j: nat)
    requires j < |log|
  {
    match log[j]
    case Intent(i) => i.id in kept
    case Effect(_) => KeepEffect(log, now, kept, j)
    case Escalation(x) => x.isOpen && forall k :: j < k < |log| ==> !SameEscAt(log, k, x.id)
    case Budget(g) => forall k :: j < k < |log| ==> !BudgetAt(log, k, g.agent)
    case Board(b) => b.isOpen && b.agent in Replay(log).boardOpen && forall k :: j < k < |log| ==> !BoardOpenAt(log, k, b.agent)
    case Header(_, _) => CountHeaders(log[j + 1..]) < KEEP_HEADERS
    case Clock(_, _, _, _) => CountClocks(log[j + 1..]) < KEEP_CLOCKS
  }

  /** The kept records among the first `m`, in order and unchanged. */
  function Pick(log: seq<Rec>, now: map<Str, View>, kept: set<Str>, m: nat): seq<Rec>
    requires m <= |log|
  {
    if m == 0 then []
    else
      var p := Pick(log, now, kept, m - 1);
      if KeepAt(log, now, kept, m - 1) then p + [log[m - 1]] else p
  }

  /** The log a compaction writes. `now` is every agent's pending read, from one snapshot. */
  function Compact(log: seq<Rec>, now: map<Str, View>, at: StartAt): seq<Rec>
  {
    Pick(log, now, KeptIds(log, now, at), |log|)
  }
}
