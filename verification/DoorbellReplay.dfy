/** The state a log stands for, told of its records. */
module DoorbellReplay {
  // The reducer goes record by record; what it leaves in memory is said here of the whole log: who was rung for what,
  // the last header, whose budget was last said to be spent, and which board cases nothing has closed.

  import opened Canon
  import opened DoorbellLog
  import opened DoorbellLedger
  import opened Wrappers

  /** The record at `k` opens the agent's case, and none after it opens another or closes this one. */
  predicate OpenAt(log: seq<Rec>, k: nat, n: Str, b: BoardRec)
  {
    k < |log| && log[k] == Board(b) && b.isOpen && b.agent == n &&
    forall j :: k < j < |log| && log[j].Board? && log[j].b.agent == n ==> !log[j].b.isOpen && log[j].b.id != b.id
  }

  /** The agent's last budget record, at `k`, says it is spent. */
  predicate SpentAt(log: seq<Rec>, k: nat, n: Str)
  {
    k < |log| && log[k].Budget? && log[k].g.agent == n && log[k].g.exhausted &&
    forall j :: k < j < |log| && log[j].Budget? ==> log[j].g.agent != n
  }

  predicate LastHeaderAt(log: seq<Rec>, k: nat)
  {
    k < |log| && log[k].Header? && forall j :: k < j < |log| ==> !log[j].Header?
  }

  predicate RungIn(log: seq<Rec>, session: Str, id: Str)
  {
    exists r :: r in log && r.Intent? && r.i.session == session && id in r.i.ids
  }

  lemma {:induction false} RungExactly(log: seq<Rec>, session: Str, id: Str)
    ensures (session, id) in Replay(log).rung <==> RungIn(log, session, id)
  {
    if log != [] {
      var p, r := log[..|log| - 1], log[|log| - 1];
      RungExactly(p, session, id);
      assert log == p + [r];
    }
  }

  lemma {:induction false} HeaderExactly(log: seq<Rec>)
    ensures match Replay(log).lastHeader
            case Some(at) => exists k: nat :: LastHeaderAt(log, k) && log[k].at == at
            case None => forall k :: 0 <= k < |log| ==> !log[k].Header?
  {
    if log != [] {
      var p, r := log[..|log| - 1], log[|log| - 1];
      HeaderExactly(p);
      if r.Header? {
        assert LastHeaderAt(log, |p|);
      } else if Replay(p).lastHeader.Some? {
        var k: nat :| LastHeaderAt(p, k) && p[k].at == Replay(p).lastHeader.value;
        assert LastHeaderAt(log, k);
      }
    }
  }

  lemma {:induction false} SpentExactly(log: seq<Rec>, n: Str)
    ensures n in Replay(log).exhausted <==> exists k: nat :: SpentAt(log, k, n)
  {
    if log != [] {
      var p, r := log[..|log| - 1], log[|log| - 1];
      SpentExactly(p, n);
      if r.Budget? && r.g.agent == n {
        if r.g.exhausted { assert SpentAt(log, |p|, n); }
        forall k: nat | SpentAt(log, k, n) ensures k == |p| {}
      } else {
        forall k: nat ensures SpentAt(log, k, n) <==> SpentAt(p, k, n) {}
      }
    }
  }

  lemma {:induction false} OpenExactly(log: seq<Rec>, n: Str, b: BoardRec)
    ensures n in Replay(log).boardOpen && Replay(log).boardOpen[n] == b <==> exists k: nat :: OpenAt(log, k, n, b)
  {
    if log != [] {
      var p, r := log[..|log| - 1], log[|log| - 1];
      OpenExactly(p, n, b);
      if r.Board? && r.b.agent == n && r.b.isOpen {
        if r.b == b { assert OpenAt(log, |p|, n, b); }
        forall k: nat | OpenAt(log, k, n, b) ensures k == |p| {}
      } else if r.Board? && r.b.agent == n {
        forall k: nat ensures OpenAt(log, k, n, b) <==> OpenAt(p, k, n, b) && r.b.id != b.id {}
      } else {
        forall k: nat ensures OpenAt(log, k, n, b) <==> OpenAt(p, k, n, b) {}
      }
    }
  }

  lemma {:induction false} WallsExactly(log: seq<Rec>, n: Str)
    ensures var walls, rings := WallsOf(Replay(log), n), Account(log, n).rings;
            |walls| == |rings| && forall k :: 0 <= k < |rings| ==> walls[k] == rings[k].at
  {
    if log != [] {
      var p, r := log[..|log| - 1], log[|log| - 1];
      WallsExactly(p, n);
      RunAppend(NOTHING, p, r, n);
      assert log == p + [r];
      var a, b := Account(p, n), Account(log, n);
      assert b == Step(a, r, n);
      assert b.rings == if r.Intent? && r.i.agent == n then a.rings + [r.i] else a.rings by { hide Account; }
      hide Account, Step;
    }
  }

  /** What replay leaves in memory, of any agent, session and id. */
  lemma ReplayExactly(log: seq<Rec>, n: Str, session: Str, id: Str, b: BoardRec)
    ensures var m := Replay(log);
            ((session, id) in m.rung <==> RungIn(log, session, id)) &&
            (n in m.exhausted <==> exists k: nat :: SpentAt(log, k, n)) &&
            (n in m.boardOpen && m.boardOpen[n] == b <==> exists k: nat :: OpenAt(log, k, n, b)) &&
            |WallsOf(m, n)| == |Account(log, n).rings| && (forall k :: 0 <= k < |WallsOf(m, n)| ==> WallsOf(m, n)[k] == Account(log, n).rings[k].at) &&
            match m.lastHeader
            case Some(at) => exists k: nat :: LastHeaderAt(log, k) && log[k].at == at
            case None => forall k :: 0 <= k < |log| ==> !log[k].Header?
  {
    RungExactly(log, session, id);
    HeaderExactly(log);
    SpentExactly(log, n);
    OpenExactly(log, n, b);
    WallsExactly(log, n);
    hide *;
  }
}
