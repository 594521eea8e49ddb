/** The board table. */
module DoorbellTable {
  // Which case a candidate has open after a cycle, told of its bindings, its session and its watch's reading; what
  // the records of a move say; when an intent may arise at all; and what the tick counts count.

  import opened Canon
  import opened DoorbellLog
  import opened DoorbellPlan
  import opened DoorbellCycle
  import opened DoorbellAgent
  import opened DoorbellBudget
  import opened DoorbellFold
  import opened DoorbellQuiet
  import opened DoorbellQuiescence
  import opened DoorbellRest
  import opened Wrappers

  // ---------------------------------------------------------------- an agent's bindings

  predicate Mine(inp: Input, n: Str, i: int)
  {
    0 <= i < |inp.bindings| && inp.bindings[i].agent == Some(n)
  }

  /** Its window is on this host, and its anchor's process is gone. */
  predicate ShownDead(inp: Input, b: Binding)
  {
    b.host == inp.ownHost && b.anchor == Dead
  }

  predicate LiveHere(inp: Input, b: Binding)
  {
    b.host == inp.ownHost && b.anchor == Alive
  }

  predicate MayLive(inp: Input, n: Str, i: int)
  {
    Mine(inp, n, i) && !ShownDead(inp, inp.bindings[i])
  }

  /** Two of its windows may be living. */
  ghost predicate Ambiguous(inp: Input, n: Str)
  {
    exists i, j :: 0 <= i < j < |inp.bindings| && MayLive(inp, n, i) && MayLive(inp, n, j)
  }

  ghost predicate HasLive(inp: Input, n: Str)
  {
    exists i :: Mine(inp, n, i) && LiveHere(inp, inp.bindings[i])
  }

  /** One window that may be living, and it does; and a session to measure delivery by. */
  ghost predicate Fitted(inp: Input, n: Str, read: PendingRead)
  {
    !Ambiguous(inp, n) && HasLive(inp, n) && read.session.Some?
  }

  /** Named by a binding, by waiting mail or by an open case. */
  ghost predicate Candidate(inp: Input, n: Str)
  {
    (exists i :: Mine(inp, n, i)) || (inp.mail.Some? && n in inp.mail.value) || n in inp.boardOpen
  }

  predicate Waiting(read: PendingRead)
  {
    read.registered && read.ids != []
  }

  function DeadAt(inp: Input, n: Str): set<int>
  {
    set i | 0 <= i < |inp.bindings| && Mine(inp, n, i) && ShownDead(inp, inp.bindings[i])
  }

  function OpenAt(inp: Input, n: Str): set<int>
  {
    set i | 0 <= i < |inp.bindings| && Mine(inp, n, i) && !ShownDead(inp, inp.bindings[i])
  }

  function Prefix(inp: Input, m: nat): Input
    requires m <= |inp.bindings|
  {
    inp.(bindings := inp.bindings[..m])
  }

  lemma {:induction false} Counted(inp: Input, n: Str, m: nat)
    requires m <= |inp.bindings|
    ensures var p := Prefix(inp, m);
            var bs := OfAgent(p.bindings, n);
            |NotDeadOf(bs, inp.ownHost)| == |OpenAt(p, n)| && |bs| == |OpenAt(p, n)| + |DeadAt(p, n)|
  {
    var p := Prefix(inp, m);
    if m == 0 {
      assert OpenAt(p, n) == {} && DeadAt(p, n) == {};
    } else {
      Counted(inp, n, m - 1);
      var q, b := Prefix(inp, m - 1), inp.bindings[m - 1];
      CountedOne(inp, n, m);
      CountsOne(p.bindings, q.bindings, b, n, inp.ownHost);
      assert m - 1 !in OpenAt(q, n) && m - 1 !in DeadAt(q, n);
      hide OfAgent, NotDeadOf, OpenAt, DeadAt, Prefix;
    }
  }

  lemma CountsOne(bs: seq<Binding>, front: seq<Binding>, b: Binding, n: Str, host: Str)
    requires bs == front + [b]
    ensures var mine := b.agent == Some(n);
            |OfAgent(bs, n)| == |OfAgent(front, n)| + (if mine then 1 else 0) &&
            |NotDeadOf(OfAgent(bs, n), host)| == |NotDeadOf(OfAgent(front, n), host)| + if mine && NotDead(b, host) then 1 else 0
  {
    var p := OfAgent(front, n);
    assert bs[..|bs| - 1] == front;
    assert (p + [b])[..|p|] == p;
  }

  lemma CountedOne(inp: Input, n: Str, m: nat)
    requires 0 < m <= |inp.bindings|
    ensures var p, q, b := Prefix(inp, m), Prefix(inp, m - 1), inp.bindings[m - 1];
            OpenAt(p, n) == OpenAt(q, n) + (if b.agent == Some(n) && !ShownDead(inp, b) then {m - 1} else {}) &&
            DeadAt(p, n) == DeadAt(q, n) + (if b.agent == Some(n) && ShownDead(inp, b) then {m - 1} else {})
  {
    var p, q, b := Prefix(inp, m), Prefix(inp, m - 1), inp.bindings[m - 1];
    forall i | 0 <= i < m - 1 ensures Mine(p, n, i) == Mine(q, n, i) && p.bindings[i] == q.bindings[i] {}
  }

  ghost predicate OneBelow(inp: Input, n: Str, m: nat)
  {
    exists i :: 0 <= i < m && MayLive(inp, n, i)
  }

  ghost predicate TwoBelow(inp: Input, n: Str, m: nat)
  {
    exists i, j :: 0 <= i < j < m && MayLive(inp, n, i) && MayLive(inp, n, j)
  }

  lemma BelowMore(inp: Input, n: Str, m: nat)
    requires m > 0
    ensures OneBelow(inp, n, m) <==> OneBelow(inp, n, m - 1) || MayLive(inp, n, m - 1)
    ensures TwoBelow(inp, n, m) <==> TwoBelow(inp, n, m - 1) || (MayLive(inp, n, m - 1) && OneBelow(inp, n, m - 1))
  {
    hide MayLive;
  }

  lemma OneMoreOpen(inp: Input, n: Str, m: nat)
    requires 0 < m <= |inp.bindings|
    ensures |OpenAt(Prefix(inp, m), n)| == |OpenAt(Prefix(inp, m - 1), n)| + if MayLive(inp, n, m - 1) then 1 else 0
  {
    CountedOne(inp, n, m);
    assert m - 1 !in OpenAt(Prefix(inp, m - 1), n);
  }

  lemma {:induction false} TwoOpenBelow(inp: Input, n: Str, m: nat)
    requires m <= |inp.bindings|
    ensures |OpenAt(Prefix(inp, m), n)| >= 1 <==> OneBelow(inp, n, m)
    ensures |OpenAt(Prefix(inp, m), n)| >= 2 <==> TwoBelow(inp, n, m)
  {
    if m == 0 {
      assert OpenAt(Prefix(inp, m), n) == {};
    } else {
      hide *;
      TwoOpenBelow(inp, n, m - 1);
      OneMoreOpen(inp, n, m);
      BelowMore(inp, n, m);
    }
  }

  lemma TwoOpen(inp: Input, n: Str)
    ensures Ambiguous(inp, n) <==> |OpenAt(inp, n)| >= 2
  {
    assert inp.bindings[..|inp.bindings|] == inp.bindings && Prefix(inp, |inp.bindings|) == inp;
    TwoOpenBelow(inp, n, |inp.bindings|);
    hide OpenAt, Prefix, MayLive;
  }

  /** The windows' judgement, told of the bindings. */
  lemma WindowsMean(inp: Input, n: Str)
    ensures var bs := OfAgent(inp.bindings, n);
            var notDead, alive := NotDeadOf(bs, inp.ownHost), AliveOf(bs, inp.ownHost);
            (|notDead| >= 2 <==> Ambiguous(inp, n)) && (alive == [] <==> !HasLive(inp, n)) && |bs| - |notDead| == |DeadAt(inp, n)|
  {
    var bs := OfAgent(inp.bindings, n);
    assert inp.bindings[..|inp.bindings|] == inp.bindings && Prefix(inp, |inp.bindings|) == inp;
    Counted(inp, n, |inp.bindings|);
    TwoOpen(inp, n);
    WindowsHold(inp, n);
    hide OfAgent, NotDeadOf, AliveOf, OpenAt, DeadAt, Ambiguous, LiveHere;
    var alive := AliveOf(bs, inp.ownHost);
    if alive != [] { assert alive[0] in alive; }
    if HasLive(inp, n) {
      var i :| Mine(inp, n, i) && LiveHere(inp, inp.bindings[i]);
      assert inp.bindings[i] in alive;
    }
  }

  lemma WindowsHold(inp: Input, n: Str)
    ensures var bs := OfAgent(inp.bindings, n);
            (forall b :: b in NotDeadOf(bs, inp.ownHost) <==> exists i :: Mine(inp, n, i) && inp.bindings[i] == b && !ShownDead(inp, b)) &&
            (forall b :: b in AliveOf(bs, inp.ownHost) <==> exists i :: Mine(inp, n, i) && inp.bindings[i] == b && LiveHere(inp, b))
  {
    OfAgentMembers(inp.bindings, n);
    WindowMembers(OfAgent(inp.bindings, n), inp.ownHost);
    hide OfAgent, NotDeadOf, AliveOf;
  }

  // ---------------------------------------------------------------- the decision

  function UnknownsBefore(inp: Input, n: Str): nat
  {
    if n in inp.ticks then inp.ticks[n] else 0
  }

  /** A fitted candidate whose watch cannot be observed, for less than five cycles running. */
  ghost predicate Held(inp: Input, n: Str, read: PendingRead)
  {
    Waiting(read) && Fitted(inp, n, read) && inp.watchFit.Some? && inp.watchFit.value(n).status == Unknown && UnknownsBefore(inp, n) + 1 < 5
  }

  /** What its watch says of a fitted candidate: a case and its why, or none. */
  predicate WatchSays(inp: Input, n: Str, next: Option<Case>)
  {
    match inp.watchFit
    case None => next == None
    case Some(w) =>
      match w(n).status
      case Blind => Is(next, CannotObserve, Some(OfAnchor))
      case Unknown => Is(next, CannotObserve, Some(OfWatch))
      case Live => if w(n).undelivered then Is(next, UndeliveredWithWatch, None) else next == None
      case Stale => if n in inp.actuated then next == None else Is(next, NoDriver, Some(WatchStale))
      case Absent => if n in inp.actuated then next == None else Is(next, NoDriver, Some(WatchAbsent))
  }

  predicate Is(next: Option<Case>, kase: BoardCase, why: Option<BoardWhy>)
  {
    next.Some? && next.value.kase == kase && next.value.why == why
  }

  /** A row of the table where the ring may go on: something will act on it, and no watch is the wake. */
  ghost predicate Actuated(inp: Input, n: Str, read: PendingRead)
  {
    Fitted(inp, n, read) && n in inp.actuated &&
    (inp.watchFit.None? || inp.watchFit.value(n).status == Stale || inp.watchFit.value(n).status == Absent)
  }

  /** Which bindings a case names: the living ones, or where there may be several or none living, those not shown dead. */
  ghost predicate NamedBy(inp: Input, n: Str, kase: BoardCase, id: Str)
  {
    exists i :: Mine(inp, n, i) && inp.bindings[i].id == id &&
      if kase == AmbiguousBinding || kase == NoLiveWindow then !ShownDead(inp, inp.bindings[i]) else LiveHere(inp, inp.bindings[i])
  }

  ghost predicate CaseOf(inp: Input, n: Str, x: Case)
  {
    Ascending(x.bindings) && (forall id :: id in x.bindings <==> NamedBy(inp, n, x.kase, id)) && x.dead == |DeadAt(inp, n)|
  }

  /** The table. */
  lemma DecisionExactly(inp: Input, n: Str, read: PendingRead)
    requires Waiting(read)
    ensures var d := Decide(inp, n, read, OfAgent(inp.bindings, n));
            (d.Hold? <==> Held(inp, n, read)) &&
            (d.Show? ==>
              (Ambiguous(inp, n) ==> Is(d.next, AmbiguousBinding, None)) &&
              (!Ambiguous(inp, n) && !HasLive(inp, n) ==> Is(d.next, NoLiveWindow, None)) &&
              (!Ambiguous(inp, n) && HasLive(inp, n) && read.session.None? ==> Is(d.next, SessionUnbound, None)) &&
              (Fitted(inp, n, read) ==> WatchSays(inp, n, d.next)) &&
              (d.next.Some? ==> CaseOf(inp, n, d.next.value)) && (d.ring <==> Actuated(inp, n, read)))
  {
    WindowsMean(inp, n);
    var bs := OfAgent(inp.bindings, n);
    NamesMean(inp, n, AmbiguousBinding);
    NamesMean(inp, n, NoDriver);
    hide OfAgent, NotDeadOf, AliveOf, BindingIds, Ambiguous, HasLive, DeadAt, Mine, ShownDead, LiveHere;
    var w := WindowCase(bs, inp.ownHost, read.session);
    assert w == None <==> Fitted(inp, n, read);
    assert !Ambiguous(inp, n) && HasLive(inp, n) ==> (w == None <==> read.session.Some?);
  }

  lemma NamesMean(inp: Input, n: Str, kase: BoardCase)
    ensures var bs := OfAgent(inp.bindings, n);
            var some := if kase == AmbiguousBinding || kase == NoLiveWindow then NotDeadOf(bs, inp.ownHost) else AliveOf(bs, inp.ownHost);
            Ascending(BindingIds(some)) && forall k: BoardCase, id :: (k == AmbiguousBinding || k == NoLiveWindow <==> kase == AmbiguousBinding || kase == NoLiveWindow) ==>
              (id in BindingIds(some) <==> NamedBy(inp, n, k, id))
  {
    WindowsHold(inp, n);
    hide OfAgent, NotDeadOf, AliveOf;
  }

  // ---------------------------------------------------------------- a move of the board

  /** The first ten thousand of a list. */
  predicate FirstOf(s: seq<Str>, all: seq<Str>)
  {
    if |all| <= 10_000 then s == all else |s| == 10_000 && s <= all
  }

  /** The record that opens a case, new this cycle. */
  predicate Opened(c: Config, n: Str, b: BoardRec, x: Case, count: nat)
  {
    b.at == c.at && b.agent == n && b.isOpen && b.kase == x.kase && b.why == x.why && b.dead == x.dead && b.pending == count &&
    b.close == None && FirstOf(b.bindings, x.bindings)
  }

  /** The record that closes a case: what was opened, with the time, the count and the reason. */
  function Closing(c: Config, b: BoardRec, count: nat, why: BoardClose): BoardRec
  {
    BoardRec(c.at, b.id, b.agent, b.kase, false, b.bindings, b.dead, count, Some(why), b.why)
  }

  predicate Unmoved(cur: Option<BoardRec>, next: Option<Case>)
  {
    cur.Some? && Is(next, cur.value.kase, cur.value.why)
  }

  /** A move writes nothing where case and reason stay; otherwise the close of what was open and the opening of what is next. */
  lemma MoveExactly(c: Config, n: Str, cur: Option<BoardRec>, next: Option<Case>, count: nat, why: BoardClose, uid: nat -> Str, k: nat)
    ensures var recs := BoardTo(c, n, cur, next, count, why, uid, k);
            var after := BoardAfter(cur, recs);
            (Unmoved(cur, next) ==> recs == [] && after == cur) &&
            (!Unmoved(cur, next) ==>
              (after.Some? <==> next.Some?) && (after.Some? ==> Opened(c, n, after.value, next.value, count)) &&
              forall r :: r in recs <==>
                (cur.Some? && r == Board(Closing(c, cur.value, count, if next.Some? then Resolved else why))) || (after.Some? && r == Board(after.value)))
  {
    var recs := BoardTo(c, n, cur, next, count, why, uid, k);
    BoardSettles(c, n, cur, next, count, why, uid, k);
    if cur.Some? && !Unmoved(cur, next) {
      var closed := Board(Closing(c, cur.value, count, if next.Some? then Resolved else why));
      BoardAfterOne(cur, closed);
      if next.Some? {
        assert recs == [closed] + [recs[1]];
        AfterConcat(cur, false, [closed], [recs[1]]);
        BoardAfterOne(None, recs[1]);
      } else {
        assert recs == [closed];
      }
    } else if !Unmoved(cur, next) && next.Some? {
      assert recs == [recs[0]];
      BoardAfterOne(cur, recs[0]);
    }
  }

  /** The board's part of an evaluated agent's records. */
  lemma BoardOf(inp: Input, n: Str, read: PendingRead, k: nat) returns (B: seq<Rec>, m: nat)
    ensures B == if Waiting(read) then BoardPart(inp, n, read, m) else BoardTo(inp.c, n, CurBoard(inp, n), None, 0, NoMail, inp.uid, m)
    ensures BoardAfter(CurBoard(inp, n), AgentRecs(inp, n, read, k)) == BoardAfter(CurBoard(inp, n), B)
    ensures forall r: Rec :: r.Board? ==> (r in AgentRecs(inp, n, read, k) <==> r in B)
  {
    hide JudgeOf, BudgetRecs, BoardTo, MailRecs, BoardPart, RingPart, BoardAfter;
    var cur := CurBoard(inp, n);
    if !read.registered {
      m := k;
      B := BoardTo(inp.c, n, cur, None, 0, NoMail, inp.uid, m);
    } else {
      var J, G := JudgeOf(inp, n, read, k), BudgetRecs(inp, n, read.session);
      JudgeVerdicts(inp, n, read, k);
      BudgetOnly(inp, n, read.session);
      m := k + |J + G|;
      var R: seq<Rec> := [];
      if read.ids == [] {
        B := BoardTo(inp.c, n, cur, None, 0, NoMail, inp.uid, m);
        BoardOnly(inp.c, n, cur, None, 0, NoMail, inp.uid, m);
        assert B + R == B;
      } else {
        MailParts(inp, n, read, m, k);
        B := BoardPart(inp, n, read, m);
        R := RingPart(inp, n, read, m, k);
      }
      PartsAfter(cur, false, J, G, B, R);
    }
  }

  // ---------------------------------------------------------------- the plan's board

  predicate Shows(b: Option<BoardRec>, kase: BoardCase, why: Option<BoardWhy>)
  {
    b.Some? && b.value.kase == kase && b.value.why == why
  }

  /** What is open for a candidate after the cycle, where `before` was. */
  ghost predicate TableSays(inp: Input, n: Str, read: PendingRead, before: Option<BoardRec>, after: Option<BoardRec>)
  {
    if !Waiting(read) then after == None
    else
      (Ambiguous(inp, n) ==> Shows(after, AmbiguousBinding, None)) &&
      (!Ambiguous(inp, n) && !HasLive(inp, n) ==> Shows(after, NoLiveWindow, None)) &&
      (!Ambiguous(inp, n) && HasLive(inp, n) && read.session == None ==> Shows(after, SessionUnbound, None)) &&
      (Fitted(inp, n, read) ==>
        match inp.watchFit
        case None => after == None
        case Some(w) =>
          (w(n).status == Blind ==> Shows(after, CannotObserve, Some(OfAnchor))) &&
          (w(n).status == Unknown ==> if UnknownsBefore(inp, n) >= 4 then Shows(after, CannotObserve, Some(OfWatch)) else after == before) &&
          (w(n).status == Live ==> if w(n).undelivered then Shows(after, UndeliveredWithWatch, None) else after == None) &&
          (w(n).status == Stale ==> if n in inp.actuated then after == None else Shows(after, NoDriver, Some(WatchStale))) &&
          (w(n).status == Absent ==> if n in inp.actuated then after == None else Shows(after, NoDriver, Some(WatchAbsent))))
  }

  /** What is on record of it: the case as it was opened, or, where that is new, this cycle's bindings and counts. */
  ghost predicate RecordSays(inp: Input, n: Str, read: PendingRead, before: Option<BoardRec>, after: Option<BoardRec>)
  {
    after.Some? ==>
      if before.Some? && before.value.kase == after.value.kase && before.value.why == after.value.why then after == before
      else if Held(inp, n, read) then after == before
      else exists x :: CaseOf(inp, n, x) && Opened(inp.c, n, after.value, x, |read.ids|)
  }

  /** The board records the cycle writes of it: the close of what was open and the opening of what is, and only on a change. */
  predicate Moves(c: Config, read: PendingRead, before: Option<BoardRec>, after: Option<BoardRec>, b: BoardRec)
  {
    before != after &&
    (after == Some(b) ||
     (before.Some? && b == Closing(c, before.value, if Waiting(read) then |read.ids| else 0, if Waiting(read) then Resolved else NoMail)))
  }

  lemma CandidateIsMain(inp: Input, n: Str)
    ensures Candidate(inp, n) <==> n in MainNames(inp)
  {
    if n in MainNames(inp) && !(inp.mail.Some? && n in inp.mail.value) && n !in inp.boardOpen {
      var b :| b in inp.bindings && b.agent == Some(n);
      var i :| 0 <= i < |inp.bindings| && inp.bindings[i] == b;
      assert Mine(inp, n, i);
    }
    if Candidate(inp, n) && exists i :: Mine(inp, n, i) {
      var i :| Mine(inp, n, i);
      assert inp.bindings[i] in inp.bindings;
    }
    hide Mine;
  }

  /** One agent's board after its part of the plan. */
  lemma AgentTable(inp: Input, n: Str, read: PendingRead, k: nat)
    requires n in inp.boardOpen ==> inp.boardOpen[n].agent == n
    ensures var before := CurBoard(inp, n);
            var after := BoardAfter(before, AgentRecs(inp, n, read, k));
            TableSays(inp, n, read, before, after) && RecordSays(inp, n, read, before, after) &&
            forall b :: Board(b) in AgentRecs(inp, n, read, k) <==> Moves(inp.c, read, before, after, b)
  {
    hide AgentRecs, BoardAfter, BoardTo, Decide, OfAgent, Ambiguous, HasLive, CaseOf;
    var before := CurBoard(inp, n);
    var B, m := BoardOf(inp, n, read, k);
    var after := BoardAfter(before, AgentRecs(inp, n, read, k));
    if Waiting(read) {
      DecisionExactly(inp, n, read);
      var d := Decide(inp, n, read, OfAgent(inp.bindings, n));
      if d.Show? {
        MoveExactly(inp.c, n, before, d.next, |read.ids|, Resolved, inp.uid, m);
        hide Opened, FirstOf, Closing;
      } else {
        NothingMoves(before);
      }
    } else {
      MoveExactly(inp.c, n, before, None, 0, NoMail, inp.uid, m);
    }
  }

  lemma NothingMoves(cur: Option<BoardRec>)
    ensures BoardAfter(cur, []) == cur
  {
  }

  /**
    * The board table. Whatever the log and the cycle's other agents, a candidate that was read has exactly the case
    * open that its bindings, its session and its watch give, on the record that says so, and the cycle writes the
    * records of the change and no others.
    */
  lemma BoardExactly(inp: Input, n: Str)
    requires ReadyCycle(inp) && inp.ownHost != "" && Candidate(inp, n) && n in inp.inbox
    ensures var before, after := CurBoard(inp, n), CurBoard(Fold(inp, Plan(inp)), n);
            TableSays(inp, n, inp.inbox[n], before, after) && RecordSays(inp, n, inp.inbox[n], before, after) &&
            forall b :: Board(b) in Plan(inp) && b.agent == n <==> Moves(inp.c, inp.inbox[n], before, after, b)
  {
    var k := OwnMain(inp, n);
    FoldOwn(inp, Plan(inp), n);
    AgentTable(inp, n, inp.inbox[n], k);
    OwnBoards(Plan(inp), n);
    hide *;
  }

  lemma OwnMain(inp: Input, n: Str) returns (k: nat)
    requires ReadyCycle(inp) && inp.ownHost != "" && Candidate(inp, n) && n in inp.inbox
    ensures Own(Plan(inp), n) == AgentRecs(inp, n, inp.inbox[n], k)
    ensures n in inp.boardOpen ==> inp.boardOpen[n].agent == n
  {
    hide Plan, ReadyCycle, Own, AgentRecs, Candidate, MainNames;
    CandidateIsMain(inp, n);
    k := OwnPlan(inp, n);
    ReadyCycleAt(inp, n, k);
  }

  lemma OwnBoards(recs: seq<Rec>, n: Str)
    ensures forall b :: Board(b) in recs && b.agent == n <==> Board(b) in Own(recs, n)
  {
    OwnMembers(recs, n);
    hide Own;
    assert forall b :: AgentOf(Board(b)) == Some(b.agent);
  }

  lemma OwnKept(inp: Input, n: Str)
    requires ReadyCycle(inp) && (inp.ownHost == "" || !Candidate(inp, n) || n !in inp.inbox)
    ensures forall r :: r in Own(Plan(inp), n) ==> !r.Board?
  {
    hide ReadyCycle, Own, AgentRecs, Candidate, AllRecs;
    CandidateIsMain(inp, n);
    OwnMembers(Plan(inp), n);
    if inp.ownHost != "" {
      var k := OwnPlan(inp, n);
      if DoorbellRest.Absent(inp, n) { AbsentNoBoard(inp, n, k); }
    }
  }

  /** No other agent's board moves: one that was not read, any while this host is unknown, and one without bindings, mail or case. */
  lemma BoardKept(inp: Input, n: Str)
    requires ReadyCycle(inp) && (inp.ownHost == "" || !Candidate(inp, n) || n !in inp.inbox)
    ensures CurBoard(Fold(inp, Plan(inp)), n) == CurBoard(inp, n) && forall b :: Board(b) in Plan(inp) ==> b.agent != n
  {
    OwnKept(inp, n);
    FoldOwn(inp, Plan(inp), n);
    OwnBoards(Plan(inp), n);
    BoardUnmoved(CurBoard(inp, n), Own(Plan(inp), n));
    hide *;
  }

  // ---------------------------------------------------------------- what the counts count

  /** A fitted candidate with mail whose watch cannot be observed this cycle. */
  ghost predicate ReadsUnknown(inp: Input, n: Str)
  {
    inp.ownHost != "" && Candidate(inp, n) && n in inp.inbox && Waiting(inp.inbox[n]) && Fitted(inp, n, inp.inbox[n]) &&
    inp.watchFit.Some? && inp.watchFit.value(n).status == Unknown
  }

  /** A candidate that is not read this cycle: its count stays as it is. */
  ghost predicate NotRead(inp: Input, n: Str)
  {
    Candidate(inp, n) && (inp.ownHost == "" || n !in inp.inbox)
  }

  lemma TicksExactly(inp: Input, n: Str)
    ensures TicksOf(inp, n) ==
            if ReadsUnknown(inp, n) then Some(UnknownsBefore(inp, n) + 1)
            else if NotRead(inp, n) && n in inp.ticks then Some(inp.ticks[n]) else None
  {
    hide Decide, OfAgent, Candidate, Ambiguous, HasLive, MainNames, WatchSays, CaseOf;
    CandidateIsMain(inp, n);
    if Candidate(inp, n) && inp.ownHost != "" && n in inp.inbox && Waiting(inp.inbox[n]) {
      DecisionExactly(inp, n, inp.inbox[n]);
      DecisionTicks(inp, n, inp.inbox[n]);
    }
  }

  lemma DecisionTicks(inp: Input, n: Str, read: PendingRead)
    requires Waiting(read)
    ensures var d := Decide(inp, n, read, OfAgent(inp.bindings, n));
            var unknown := Fitted(inp, n, read) && inp.watchFit.Some? && inp.watchFit.value(n).status == Unknown;
            (d.Hold? ==> unknown && d.ticks == UnknownsBefore(inp, n) + 1) &&
            (d.Show? ==> d.unknowns == if unknown then Some(UnknownsBefore(inp, n) + 1) else None)
  {
    WindowsMean(inp, n);
    hide OfAgent, NotDeadOf, AliveOf, BindingIds, Ambiguous, HasLive, DeadAt;
    assert WindowCase(OfAgent(inp.bindings, n), inp.ownHost, read.session) == None <==> Fitted(inp, n, read);
  }

  /** Cycles one after another, each with the counts the one before it left; the first with none. */
  ghost predicate Cycles(ins: seq<Input>)
  {
    (ins != [] ==> ins[0].ticks == map[]) &&
    forall k, n :: 0 < k < |ins| ==> TickAt(ins[k], n) == TicksOf(ins[k - 1], n)
  }

  function TickAt(inp: Input, n: Str): Option<nat>
  {
    if n in inp.ticks then Some(inp.ticks[n]) else None
  }

  /** The cycles before the k-th that read `n`'s watch as unknown, with no other reading of it since. */
  ghost function UnknownRun(ins: seq<Input>, k: nat, n: Str): set<int>
    requires k <= |ins|
  {
    set i | 0 <= i < k && ReadsUnknown(ins[i], n) && forall j :: i < j < k ==> Continues(ins[j], n)
  }

  ghost predicate Continues(inp: Input, n: Str)
  {
    ReadsUnknown(inp, n) || NotRead(inp, n)
  }

  /** An agent's count is the number of its unknown readings running: so the fifth in a row says `cannot_observe`, and no earlier one. */
  lemma {:induction false} TicksCount(ins: seq<Input>, k: nat, n: Str)
    requires Cycles(ins) && k < |ins|
    ensures UnknownsBefore(ins[k], n) == |UnknownRun(ins, k, n)|
  {
    hide ReadsUnknown, NotRead, TicksOf;
    if k == 0 {
      assert UnknownRun(ins, 0, n) == {};
    } else {
      TicksCount(ins, k - 1, n);
      TicksExactly(ins[k - 1], n);
      assert TickAt(ins[k], n) == TicksOf(ins[k - 1], n);
      RunMore(ins, k, n);
      hide UnknownRun, Cycles;
    }
  }

  lemma RunMore(ins: seq<Input>, k: nat, n: Str)
    requires 0 < k <= |ins|
    ensures |UnknownRun(ins, k, n)| == if ReadsUnknown(ins[k - 1], n) then |UnknownRun(ins, k - 1, n)| + 1
                                       else if NotRead(ins[k - 1], n) then |UnknownRun(ins, k - 1, n)| else 0
  {
    hide ReadsUnknown, NotRead;
    var last := ins[k - 1];
    assert Continues(last, n) <==> ReadsUnknown(last, n) || NotRead(last, n);
    hide Continues;
    if ReadsUnknown(last, n) {
      assert UnknownRun(ins, k, n) == UnknownRun(ins, k - 1, n) + {k - 1};
    } else if NotRead(last, n) {
      assert UnknownRun(ins, k, n) == UnknownRun(ins, k - 1, n);
    } else {
      assert UnknownRun(ins, k, n) == {};
    }
  }

  /** What the planner carries over is such a next cycle. */
  lemma NextCounts(inp: Input, uid: nat -> Str, n: Str)
    ensures TickAt(NextInput(inp, uid), n) == TicksOf(inp, n)
  {
    CandidateIsMain(inp, n);
    TicksExactly(inp, n);
    UnknownIsCandidate(inp, n);
    hide Fold, Plan, TicksOf, MainNames, ReadsUnknown, Candidate;
  }

  lemma UnknownIsCandidate(inp: Input, n: Str)
    ensures ReadsUnknown(inp, n) ==> Candidate(inp, n)
  {
  }
}
