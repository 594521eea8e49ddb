/**
  * The doorbell's append-only log: its records, their closed schema, and the one reducer through which every record
  * moves the state.
  */
module DoorbellLog {
  import opened Canon
  import opened Wrappers

  datatype Kind = New | StillPending

  datatype IntentRec = IntentRec(
    at: int, mono: int, id: Str, agent: Str, binding: Str, during: bool,
    session: Str, ids: seq<Str>, kinds: seq<Kind>)

  datatype Outcome = Effective | Ineffective | SessionChanged

  datatype EffectRec = EffectRec(
    at: int, agent: Str, session: Str, outcome: Outcome, intents: seq<Str>, left: seq<Str>)

  datatype Reason = Unresponsive | IdStuck

  datatype CloseWhy = Progress | Moved

  datatype EscRec = EscRec(
    at: int, id: Str, agent: Str, session: Str, reason: Reason, isOpen: bool,
    ids: seq<Str>, operator: Option<Str>, close: Option<CloseWhy>)

  datatype BoardCase =
    | NoLiveWindow | AmbiguousBinding | SessionUnbound | NoDriver | UndeliveredWithWatch | CannotObserve

  datatype BoardWhy = WatchAbsent | WatchStale | OfWatch | OfAnchor

  datatype BoardClose = Resolved | NoMail

  datatype BoardRec = BoardRec(
    at: int, id: Str, agent: Str, kase: BoardCase, isOpen: bool, bindings: seq<Str>,
    dead: int, pending: int, close: Option<BoardClose>, why: Option<BoardWhy>)

  datatype BudgetRec = BudgetRec(at: int, agent: Str, exhausted: bool, ringsInHour: int, budget: int)

  datatype Rec =
    | Intent(i: IntentRec)
    | Effect(e: EffectRec)
    | Escalation(x: EscRec)
    | Board(b: BoardRec)
    | Budget(g: BudgetRec)
    | Clock(at: int, mono: int, wallDelta: int, monoDelta: int)
    | Header(at: int, pid: int)

  /** Whose record it is; a clock or a header is nobody's. */
  function AgentOf(r: Rec): Option<Str>
  {
    match r
    case Intent(i) => Some(i.agent)
    case Effect(e) => Some(e.agent)
    case Escalation(x) => Some(x.agent)
    case Board(b) => Some(b.agent)
    case Budget(g) => Some(g.agent)
    case Clock(_, _, _, _) => None
    case Header(_, _) => None
  }

  // ---------------------------------------------------------------- the closed schema

  const MAX_IDS: nat := 10_000
  const MAX_MS: int := 10_000_000_000_000

  predicate LowerHex(c: char)
  {
    '0' <= c <= '9' || 'a' <= c <= 'f'
  }

  predicate Uuid(s: Str)
  {
    |s| == 36 && s[14] == '4' && s[19] in {'8', '9', 'a', 'b'} &&
    forall k :: 0 <= k < 36 ==> if k in {8, 13, 18, 23} then s[k] == '-' else LowerHex(s[k])
  }

  predicate Digest(s: Str)
  {
    |s| == 64 && forall k :: 0 <= k < 64 ==> LowerHex(s[k])
  }

  /** A non-empty bounded string with no control character. */
  predicate BoundedId(s: Str)
  {
    0 < |s| <= 200 && forall k :: 0 <= k < |s| ==> s[k] > '\U{1f}' && s[k] != '\U{7f}'
  }

  /** AGENT_NAME_PATTERN. */
  predicate AgentName(s: Str)
  {
    0 < |s| <= 64 &&
    forall k :: 0 <= k < |s| ==>
      'a' <= s[k] <= 'z' || 'A' <= s[k] <= 'Z' || '0' <= s[k] <= '9' || s[k] in {'_', '.', '-'}
  }

  /** The wall times whose ISO text has a four-digit year, which is what the schema accepts. */
  predicate IsoMs(at: int)
  {
    -62_167_219_200_000 <= at < 253_402_300_800_000
  }

  predicate BoundedMs(v: int, low: int)
  {
    low <= v <= MAX_MS
  }

  /** A canonical set of `low..high` ids. */
  predicate IdSetOk(s: seq<Str>, low: nat, high: nat)
  {
    low <= |s| <= high && (forall k :: 0 <= k < |s| ==> BoundedId(s[k])) && Ascending(s)
  }

  predicate UuidSetOk(s: seq<Str>, low: nat, high: nat)
  {
    low <= |s| <= high && (forall k :: 0 <= k < |s| ==> Uuid(s[k])) && Ascending(s)
  }

  predicate IntentOk(i: IntentRec)
  {
    IsoMs(i.at) && BoundedMs(i.mono, 0) && Uuid(i.id) && AgentName(i.agent) && BoundedId(i.binding) &&
    Digest(i.session) && IdSetOk(i.ids, 1, MAX_IDS) && |i.kinds| == |i.ids| &&
    (i.during ==> forall k :: 0 <= k < |i.kinds| ==> i.kinds[k] == New)
  }

  predicate EffectOk(e: EffectRec)
  {
    IsoMs(e.at) && AgentName(e.agent) && Digest(e.session) &&
    match e.outcome
    case Effective => UuidSetOk(e.intents, 0, MAX_IDS) && IdSetOk(e.left, 0, MAX_IDS) && (e.intents != [] || e.left != [])
    case Ineffective => UuidSetOk(e.intents, 1, 1) && IdSetOk(e.left, 0, 0)
    case SessionChanged => UuidSetOk(e.intents, 1, MAX_IDS) && IdSetOk(e.left, 0, 0)
  }

  predicate EscOk(x: EscRec)
  {
    IsoMs(x.at) && Uuid(x.id) && AgentName(x.agent) && Digest(x.session) && IdSetOk(x.ids, 1, MAX_IDS) &&
    (x.reason == IdStuck ==> |x.ids| == 1) && (x.operator.Some? ==> AgentName(x.operator.value)) &&
    (x.isOpen <==> x.close.None?)
  }

  /** Which `why` a board case carries: its own closed enum, and none on every other case. */
  predicate WhyOk(kase: BoardCase, why: Option<BoardWhy>)
  {
    match kase
    case NoDriver => why == Some(WatchAbsent) || why == Some(WatchStale)
    case CannotObserve => why == Some(OfWatch) || why == Some(OfAnchor)
    case _ => why == None
  }

  predicate BoardOk(b: BoardRec)
  {
    IsoMs(b.at) && Uuid(b.id) && AgentName(b.agent) && WhyOk(b.kase, b.why) && IdSetOk(b.bindings, 0, MAX_IDS) &&
    (match b.kase
     case AmbiguousBinding => |b.bindings| >= 2
     case NoLiveWindow => |b.bindings| <= 1
     case _ => |b.bindings| == 1) &&
    0 <= b.dead <= 1_000_000 && 0 <= b.pending <= 100_000_000 &&
    (if b.isOpen then b.close == None && b.pending >= 1 else b.close.Some?)
  }

  predicate BudgetOk(g: BudgetRec)
  {
    IsoMs(g.at) && AgentName(g.agent) && 0 <= g.ringsInHour <= 100_000 && 1 <= g.budget <= 1000
  }

  /** `recordFault(r) === null`: what the writer accepts and the replay demands. */
  predicate RecordOk(r: Rec)
  {
    match r
    case Intent(i) => IntentOk(i)
    case Effect(e) => EffectOk(e)
    case Escalation(x) => EscOk(x)
    case Board(b) => BoardOk(b)
    case Budget(g) => BudgetOk(g)
    case Clock(at, mono, wallDelta, monoDelta) =>
      IsoMs(at) && BoundedMs(mono, 0) && BoundedMs(wallDelta, -MAX_MS) && BoundedMs(monoDelta, 0)
    case Header(at, pid) => IsoMs(at) && 0 < pid <= 0x7fff_ffff
  }

  // ---------------------------------------------------------------- the reducer

  datatype LogModel = LogModel(
    rung: set<(Str, Str)>,
    ringWalls: map<Str, seq<int>>,
    lastHeader: Option<int>,
    exhausted: set<Str>,
    boardOpen: map<Str, BoardRec>)

  const EMPTY_LOG := LogModel({}, map[], None, {}, map[])

  function WallsOf(m: LogModel, agent: Str): seq<int>
  {
    if agent in m.ringWalls then m.ringWalls[agent] else []
  }

  function ReduceRecord(m: LogModel, r: Rec): LogModel
  {
    match r
    case Intent(i) =>
      m.(rung := m.rung + (set id | id in i.ids :: (i.session, id)),
         ringWalls := m.ringWalls[i.agent := WallsOf(m, i.agent) + [i.at]])
    case Header(at, _) => m.(lastHeader := Some(at))
    case Budget(g) => m.(exhausted := if g.exhausted then m.exhausted + {g.agent} else m.exhausted - {g.agent})
    case Board(b) =>
      if b.isOpen then m.(boardOpen := m.boardOpen[b.agent := b])
      else if b.agent in m.boardOpen && m.boardOpen[b.agent].id == b.id then m.(boardOpen := m.boardOpen - {b.agent})
      else m
    case _ => m
  }

  /** The state a log stands for: replay is the fold of the one reducer. */
  function Replay(log: seq<Rec>): LogModel
  {
    if log == [] then EMPTY_LOG else ReduceRecord(Replay(log[..|log| - 1]), log[|log| - 1])
  }

  lemma ReplayAppend(log: seq<Rec>, r: Rec)
    ensures Replay(log + [r]) == ReduceRecord(Replay(log), r)
  {
    assert (log + [r])[..|log|] == log;
  }
}
