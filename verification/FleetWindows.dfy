/** What is said of each window. */
module FleetWindows {
  // Every connector it owns, found by who named it and by a walk down the process table; no connector only when
  // every process below it was looked at and none may be one.

  import opened Fleet
  import opened Wrappers

  // ---------------------------------------------------------------- below a window

  /** Processes of the table, each the parent of the next. */
  predicate Chain(table: seq<Proc>, path: seq<Proc>)
  {
    path != [] && (forall i :: 0 <= i < |path| ==> path[i] in table) && forall i :: 0 < i < |path| ==> path[i].ppid == path[i - 1].pid
  }

  ghost predicate DownTo(table: seq<Proc>, root: nat, path: seq<Proc>, p: Proc)
  {
    Chain(table, path) && path[0].ppid == root && path[|path| - 1] == p
  }

  /** A process transitively below a pid, other than one of that pid itself. */
  ghost predicate Below(table: seq<Proc>, root: nat, p: Proc)
  {
    p.pid != root && exists path :: DownTo(table, root, path, p)
  }

  predicate Utc(start: string)
  {
    |start| >= |UTC_SUFFIX| && start[|start| - |UTC_SUFFIX|..] == UTC_SUFFIX
  }

  /** The window's descendants cannot be enumerated. */
  predicate Blind(s: Snapshot, b: Binding)
  {
    !Utc(b.start) || s.table.None? || var w := ProcAt(Table(s), b.pid); w.None? || w.value.start != b.start
  }

  predicate Names(e: Entry, b: Binding)
  {
    e.window == Some(b.pid) && e.windowStart == Some(b.start)
  }

  /** The window owns the entry: the entry names it, or is of a process below it. */
  ghost predicate Owns(s: Snapshot, b: Binding, e: Entry)
  {
    Names(e, b) || (!Blind(s, b) && exists p :: p in Table(s) && Below(Table(s), b.pid, p) && (p.pid, p.start) == KeyOf(e))
  }

  datatype Window = Window(agent: Option<string>, pid: nat, verdict: Verdict, connectors: seq<nat>)

  function Verdicts(m: seq<Entry>): seq<Verdict>
  {
    seq(|m|, i requires 0 <= i < |m| => m[i].verdict)
  }

  function Pids(m: seq<Entry>): seq<nat>
  {
    seq(|m|, i requires 0 <= i < |m| => m[i].pid)
  }

  /** Exactly the entries the window owns, each once. */
  ghost predicate AllOwned(s: Snapshot, b: Binding, m: seq<Entry>)
  {
    KeysApart(m) && forall e :: e in m <==> e in EntriesOf(s) && Owns(s, b, e)
  }

  /** The window's line: the worst of what it owns; with nothing owned, unknown if its descendants could not be enumerated, or no connector. */
  ghost predicate JudgedAs(s: Snapshot, b: Binding, owned: seq<Entry>, w: Window)
  {
    AllOwned(s, b, owned) && w.agent == b.agent && w.pid == b.pid && w.connectors == Pids(owned) &&
    w.verdict == if owned != [] then Worst(Verdicts(owned)) else if Blind(s, b) then Unknown else NoConnector
  }

  ghost predicate WindowJudged(s: Snapshot, b: Binding, w: Window)
  {
    exists owned :: JudgedAs(s, b, owned, w)
  }

  // ---------------------------------------------------------------- the walk

  function PidsOf(table: seq<Proc>): set<nat>
  {
    set i | 0 <= i < |table| :: table[i].pid
  }

  /** What the walk has seen is below, and all the children of what it has done with are seen. */
  ghost predicate Walked(table: seq<Proc>, root: nat, seen: set<nat>, queue: seq<nat>)
  {
    root in seen && (forall q :: q in queue ==> q in seen) &&
    (forall p :: p in table && p.pid in seen && p.pid != root ==> Below(table, root, p)) &&
    (forall q :: q in seen && q != root ==> q in PidsOf(table)) &&
    (forall p :: p in table && p.ppid in seen && p.ppid !in queue ==> p.pid in seen)
  }

  /** An entry found: named before, or of a process seen. */
  ghost predicate FoundBy(table: seq<Proc>, root: nat, seen: set<nat>, m: seq<Entry>, named: seq<Entry>, found: seq<Entry>)
  {
    KeysApart(found) &&
    forall e :: e in found <==> e in named || (e in m && exists p :: p in table && p.pid in seen && p.pid != root && (p.pid, p.start) == KeyOf(e))
  }

  lemma ChildBelow(table: seq<Proc>, root: nat, parent: nat, p: Proc)
    requires PidsApart(table) && p in table && p.ppid == parent && p.pid != root
    requires parent != root ==> exists q :: q in table && q.pid == parent && Below(table, root, q)
    ensures Below(table, root, p)
  {
    if parent == root {
      assert DownTo(table, root, [p], p);
    } else {
      var q :| q in table && q.pid == parent && Below(table, root, q);
      var path :| DownTo(table, root, path, q);
      assert DownTo(table, root, path + [p], p);
    }
  }

  /** When the walk is over, everything below has been seen. */
  lemma {:induction false} AllSeen(table: seq<Proc>, root: nat, seen: set<nat>, path: seq<Proc>, p: Proc)
    requires Walked(table, root, seen, []) && DownTo(table, root, path, p)
    ensures p.pid in seen
    decreases |path|
  {
    if |path| == 1 {
      assert path[0] == p;
    } else {
      var up := path[..|path| - 1];
      assert DownTo(table, root, up, path[|path| - 2]);
      AllSeen(table, root, seen, up, path[|path| - 2]);
      assert p == path[|path| - 1] && p in table;
    }
  }

  lemma WalkOver(table: seq<Proc>, root: nat, seen: set<nat>)
    requires Walked(table, root, seen, [])
    ensures forall p :: p in table ==> (p.pid in seen && p.pid != root <==> Below(table, root, p))
  {
    forall p | p in table && p.pid != root && Below(table, root, p) ensures p.pid in seen
    {
      var path :| DownTo(table, root, path, p);
      AllSeen(table, root, seen, path, p);
    }
  }

  lemma {:induction false} PutIn(m: seq<Entry>, e: Entry, f: Entry)
    requires KeysApart(m)
    ensures f in Put(m, e) <==> f == e || (f in m && KeyOf(f) != KeyOf(e))
  {
    if m != [] {
      PutIn(m[1..], e, f);
      assert m == [m[0]] + m[1..];
    }
  }

  /** One entry of a key in the map. */
  lemma SameEntry(m: seq<Entry>, e: Entry, f: Entry)
    requires KeysApart(m) && e in m && f in m && KeyOf(e) == KeyOf(f)
    ensures e == f
  {
  }

  lemma FoundStep(table: seq<Proc>, root: nat, seen: set<nat>, m: seq<Entry>, named: seq<Entry>, found: seq<Entry>, p: Proc)
    requires FoundBy(table, root, seen, m, named, found) && PidsApart(table) && KeysApart(m) && (forall e :: e in named ==> e in m)
    requires p in table && p.pid !in seen && p.pid != root
    ensures var e := Find(m, (p.pid, p.start));
            FoundBy(table, root, seen + {p.pid}, m, named, if e.Some? then Put(found, e.value) else found)
  {
    var k := (p.pid, p.start);
    FindMeans(m, k);
    var e := Find(m, k);
    var next := if e.Some? then Put(found, e.value) else found;
    if e.Some? { PutApart(found, e.value); }
    forall f ensures f in next <==> f in named || (f in m && exists q :: q in table && q.pid in seen + {p.pid} && q.pid != root && (q.pid, q.start) == KeyOf(f))
    {
      if e.Some? { PutIn(found, e.value, f); }
      FoundOne(table, root, seen, m, named, found, p, f);
    }
  }

  lemma FoundOne(table: seq<Proc>, root: nat, seen: set<nat>, m: seq<Entry>, named: seq<Entry>, found: seq<Entry>, p: Proc, f: Entry)
    requires FoundBy(table, root, seen, m, named, found) && PidsApart(table) && KeysApart(m) && (forall e :: e in named ==> e in m)
    requires p in table && p.pid !in seen && p.pid != root
    ensures var e := Find(m, (p.pid, p.start));
            (if e.Some? then f == e.value || (f in found && KeyOf(f) != KeyOf(e.value)) else f in found) <==>
            f in named || (f in m && exists q :: q in table && q.pid in seen + {p.pid} && q.pid != root && (q.pid, q.start) == KeyOf(f))
  {
    var k := (p.pid, p.start);
    FindMeans(m, k);
    InIsFound(m, f);
    if f in m && KeyOf(f) == k {
      assert p in table && p.pid in seen + {p.pid} && (p.pid, p.start) == KeyOf(f);
    } else if f in m && exists q :: q in table && q.pid in seen + {p.pid} && q.pid != root && (q.pid, q.start) == KeyOf(f) {
      var q :| q in table && q.pid in seen + {p.pid} && q.pid != root && (q.pid, q.start) == KeyOf(f);
      assert q.pid == p.pid ==> q == p;
    }
  }

  lemma WalkStep(table: seq<Proc>, root: nat, seen: set<nat>, queue: seq<nat>, parent: nat, p: Proc)
    requires PidsApart(table) && Walked(table, root, seen, queue + [parent]) && p in table && p.ppid == parent && parent in seen && p.pid !in seen
    ensures Walked(table, root, seen + {p.pid}, queue + [p.pid] + [parent]) && p.pid != root
  {
    if parent != root {
      assert parent in PidsOf(table);
      var i :| 0 <= i < |table| && table[i].pid == parent;
      assert table[i] in table && Below(table, root, table[i]);
    }
    ChildBelow(table, root, parent, p);
    hide Below;
  }

  lemma WalkStart(table: seq<Proc>, root: nat, m: seq<Entry>, named: seq<Entry>)
    requires KeysApart(named)
    ensures Walked(table, root, {root}, [root]) && FoundBy(table, root, {root}, m, named, named)
  {
  }

  lemma WalkPop(table: seq<Proc>, root: nat, seen: set<nat>, queue: seq<nat>)
    requires queue != [] && Walked(table, root, seen, queue)
    ensures Walked(table, root, seen, queue[1..] + [queue[0]]) && queue[0] in seen
  {
    assert queue == [queue[0]] + queue[1..];
    hide Below;
  }

  lemma WalkDone(table: seq<Proc>, root: nat, seen: set<nat>, queue: seq<nat>, parent: nat)
    requires Walked(table, root, seen, queue + [parent]) && forall j :: 0 <= j < |table| && table[j].ppid == parent ==> table[j].pid in seen
    ensures Walked(table, root, seen, queue)
  {
    hide Below;
  }

  lemma WalkEnds(table: seq<Proc>, root: nat, seen: set<nat>, m: seq<Entry>, named: seq<Entry>, found: seq<Entry>)
    requires Walked(table, root, seen, []) && FoundBy(table, root, seen, m, named, found)
    ensures KeysApart(found)
    ensures forall e :: e in found <==> e in named || (e in m && exists p :: p in table && Below(table, root, p) && (p.pid, p.start) == KeyOf(e))
  {
    WalkOver(table, root, seen);
    hide Below, Walked, KeysApart;
  }

  lemma MoreSeen(all: set<nat>, seen: set<nat>, pid: nat)
    requires pid in all && pid !in seen
    ensures |all - (seen + {pid})| < |all - seen|
  {
    assert all - (seen + {pid}) == (all - seen) - {pid};
  }

  lemma InPids(table: seq<Proc>, i: nat)
    requires i < |table|
    ensures table[i].pid in PidsOf(table)
  {
  }

  /** The walk down the table: every entry named, and every entry of a process below. */
  method Descend(table: seq<Proc>, root: nat, m: seq<Entry>, named: seq<Entry>) returns (found: seq<Entry>)
    requires PidsApart(table) && KeysApart(m) && KeysApart(named) && forall e :: e in named ==> e in m
    ensures KeysApart(found)
    ensures forall e :: e in found <==> e in named || (e in m && exists p :: p in table && Below(table, root, p) && (p.pid, p.start) == KeyOf(e))
  {
    hide *;
    var queue, seen := [root], {root};
    found := named;
    WalkStart(table, root, m, named);
    while queue != []
      invariant Walked(table, root, seen, queue) && FoundBy(table, root, seen, m, named, found)
      decreases |PidsOf(table) - seen|, |queue|
    {
      WalkPop(table, root, seen, queue);
      var parent := queue[0];
      queue := queue[1..];
      ghost var before, left := seen, queue;
      for i := 0 to |table|
        invariant parent in seen && Walked(table, root, seen, queue + [parent]) && FoundBy(table, root, seen, m, named, found)
        invariant forall j :: 0 <= j < i && table[j].ppid == parent ==> table[j].pid in seen
        invariant |PidsOf(table) - seen| < |PidsOf(table) - before| || (seen == before && queue == left)
      {
        var p := table[i];
        if p.ppid == parent && p.pid !in seen {
          WalkStep(table, root, seen, queue, parent, p);
          FoundStep(table, root, seen, m, named, found, p);
          InPids(table, i);
          MoreSeen(PidsOf(table), seen, p.pid);
          seen, queue := seen + {p.pid}, queue + [p.pid];
          var e := Find(m, (p.pid, p.start));
          if e.Some? { found := Put(found, e.value); }
        }
      }
      WalkDone(table, root, seen, queue, parent);
    }
    WalkEnds(table, root, seen, m, named, found);
  }

  // ---------------------------------------------------------------- the judgement

  /** The entries, built in place in three passes. */
  method BuildEntries(s: Snapshot) returns (m: seq<Entry>)
    ensures m == EntriesOf(s)
  {
    hide Put, Find, RowEntry, UnknownEntry, ProcEntry;
    m := [];
    for i := 0 to |s.rows|
      invariant m == AfterRows(s, i)
    {
      m := Put(m, RowEntry(s, s.rows[i]));
    }
    for i := 0 to |s.unknownRows|
      invariant m == AfterUnknown(s, i)
    {
      m := Put(m, UnknownEntry(s, s.unknownRows[i]));
    }
    var table := Table(s);
    for i := 0 to |table|
      invariant m == AfterTable(s, i)
    {
      var p := table[i];
      if Find(m, (p.pid, p.start)).None? && !ClassOf(s, p).NotRelay? { m := Put(m, ProcEntry(s, p)); }
    }
  }

  lemma AddApart(m: seq<Entry>, i: nat, named: seq<Entry>)
    requires KeysApart(m) && KeysApart(named) && i < |m| && forall e :: e in named ==> e in m[..i]
    ensures KeysApart(named + [m[i]])
  {
    forall j | 0 <= j < |named| ensures KeyOf(named[j]) != KeyOf(m[i]) { assert named[j] in m[..i]; }
  }

  /** The entries that name the window, in their order. */
  method Naming(m: seq<Entry>, b: Binding) returns (named: seq<Entry>)
    requires KeysApart(m)
    ensures KeysApart(named) && forall e :: e in named <==> e in m && Names(e, b)
  {
    hide Names;
    named := [];
    for i := 0 to |m|
      invariant KeysApart(named) && (forall e :: e in named <==> e in m[..i] && Names(e, b))
    {
      assert m[..i + 1] == m[..i] + [m[i]];
      if Names(m[i], b) {
        AddApart(m, i, named);
        named := named + [m[i]];
      }
    }
    assert m[..|m|] == m;
  }

  /** The line of one window. */
  method JudgeWindow(s: Snapshot, m: seq<Entry>, b: Binding) returns (w: Window)
    requires PidsApart(Table(s)) && m == EntriesOf(s)
    ensures WindowJudged(s, b, w)
  {
    TableApart(s, |Table(s)|);
    hide EntriesOf, Blind, Names, KeysApart, PidsApart, Below;
    var found := Naming(m, b);
    if !Blind(s, b) { found := Descend(Table(s), b.pid, m, found); }
    var v := if found != [] then Worst(Verdicts(found)) else if Blind(s, b) then Unknown else NoConnector;
    w := Window(b.agent, b.pid, v, Pids(found));
    assert JudgedAs(s, b, found, w);
  }

  datatype Daemon = Daemon(verdict: Verdict, pid: Option<nat>, start: Option<string>)

  /** The first listener on the daemon's port that runs a relay install, were it no listener. */
  function DaemonProc(table: seq<Proc>, pids: seq<nat>): (p: Option<Proc>)
    ensures p.Some? ==> p.value.ifNotListening.Connector?
  {
    if pids == [] then None
    else
      var p := ProcAt(table, pids[0]);
      if p.Some? && p.value.ifNotListening.Connector? then p else DaemonProc(table, pids[1..])
  }

  function DaemonVerdict(s: Snapshot): (Verdict, Option<nat>)
  {
    if s.daemonPids.None? then (Unknown, None)
    else if s.daemonPids.value == [] then (Unknown, None)
    else if s.table.None? then (Unknown, Some(s.daemonPids.value[0]))
    else
      var p := DaemonProc(Table(s), s.daemonPids.value);
      if p.None? then (Unknown, Some(s.daemonPids.value[0]))
      else if !s.health.Build? then (Unknown, Some(p.value.pid))
      else (VerdictForBuild(s.health.loaded, s.installed(p.value.ifNotListening.dir)), Some(p.value.pid))
  }

  function DaemonLine(s: Snapshot): Daemon
  {
    var d := DaemonVerdict(s);
    var p := if d.1.None? then None else ProcAt(Table(s), d.1.value);
    Daemon(d.0, d.1, if p.None? then None else Some(p.value.start))
  }

  datatype Judgement = Judgement(connectors: seq<Entry>, windows: seq<Window>, daemon: Daemon, failing: nat)

  function FailingConnectors(m: seq<Entry>): nat
  {
    if m == [] then 0 else FailingConnectors(m[..|m| - 1]) + if m[|m| - 1].verdict != Current then 1 else 0
  }

  /** A window counts only when it has no connector. */
  function FailingWindows(ws: seq<Window>): nat
  {
    if ws == [] then 0
    else FailingWindows(ws[..|ws| - 1]) + if ws[|ws| - 1].connectors == [] && ws[|ws| - 1].verdict != Current then 1 else 0
  }

  function Failing(m: seq<Entry>, ws: seq<Window>, d: Daemon): nat
  {
    FailingConnectors(m) + FailingWindows(ws) + if d.verdict == Current then 0 else 1
  }

  /** What the judgement of a snapshot is: its entries, each window by what it owns, the daemon, and how many do not pass. */
  ghost predicate Judged(s: Snapshot, j: Judgement)
  {
    j.connectors == EntriesOf(s) && |j.windows| == |s.bindings| &&
    (forall i :: 0 <= i < |s.bindings| ==> WindowJudged(s, s.bindings[i], j.windows[i])) &&
    j.daemon == DaemonLine(s) && j.failing == Failing(j.connectors, j.windows, j.daemon)
  }

  method JudgeFleet(s: Snapshot) returns (j: Judgement)
    requires PidsApart(Table(s))
    ensures Judged(s, j)
  {
    hide JudgedAs, EntriesOf, DaemonLine, PidsApart;
    var m := BuildEntries(s);
    var ws: seq<Window> := [];
    for i := 0 to |s.bindings|
      invariant |ws| == i && forall k :: 0 <= k < i ==> WindowJudged(s, s.bindings[k], ws[k])
    {
      var w := JudgeWindow(s, m, s.bindings[i]);
      ws := ws + [w];
    }
    var d := DaemonLine(s);
    j := Judgement(m, ws, d, Failing(m, ws, d));
  }

  // ---------------------------------------------------------------- what the judgement says

  /** No process of the table with this key may be a connector, and no row has it. */
  predicate Clear(s: Snapshot, k: Key)
  {
    !HasRow(s.rows, |s.rows|, k) && !HasRow(s.unknownRows, |s.unknownRows|, k) &&
    forall i :: 0 <= i < |Table(s)| && (Table(s)[i].pid, Table(s)[i].start) == k ==> ClassOf(s, Table(s)[i]).NotRelay?
  }

  /** Every process below the window was looked at, is known to be no relay and has no row; and no entry names the window. */
  ghost predicate PositiveAbsence(s: Snapshot, b: Binding)
  {
    !Blind(s, b) && (forall p :: p in Table(s) && Below(Table(s), b.pid, p) ==> Clear(s, (p.pid, p.start))) &&
    forall e :: e in EntriesOf(s) ==> !Names(e, b)
  }

  lemma ClearMeans(s: Snapshot, k: Key)
    ensures Clear(s, k) <==> forall e :: e in EntriesOf(s) ==> KeyOf(e) != k
  {
    NoneMissed(s, k);
    FindMeans(EntriesOf(s), k);
    var m := EntriesOf(s);
    assert (forall e :: e in m ==> KeyOf(e) != k) <==> (forall i :: 0 <= i < |m| ==> KeyOf(m[i]) != k);
    hide Find, EntriesOf, HasRow;
  }

  /** A window is said to have no connector exactly on positive absence; whatever it owns, its verdict is the worst over exactly that. */
  lemma NoConnectorExactly(s: Snapshot, b: Binding, owned: seq<Entry>, w: Window)
    requires JudgedAs(s, b, owned, w)
    ensures w.verdict == NoConnector <==> PositiveAbsence(s, b)
    ensures owned != [] ==> (exists e :: e in owned && e.verdict == w.verdict) && forall e :: e in EntriesOf(s) && Owns(s, b, e) ==> Severity(e.verdict) <= Severity(w.verdict)
  {
    OwnedVerdicts(owned);
    NeverNoConnector(s);
    hide JudgedAs;
    JudgedMeans(s, b, owned, w);
    NothingOwned(s, b);
    hide EntriesOf, PositiveAbsence, Owns, Blind, Worst, Verdicts;
  }

  lemma JudgedMeans(s: Snapshot, b: Binding, owned: seq<Entry>, w: Window)
    requires JudgedAs(s, b, owned, w)
    ensures forall e :: e in owned <==> e in EntriesOf(s) && Owns(s, b, e)
    ensures w.verdict == if owned != [] then Worst(Verdicts(owned)) else if Blind(s, b) then Unknown else NoConnector
  {
  }

  lemma OwnedVerdicts(m: seq<Entry>)
    ensures m != [] ==> exists e :: e in m && e.verdict == Worst(Verdicts(m))
    ensures forall e :: e in m ==> Severity(e.verdict) <= Severity(Worst(Verdicts(m)))
  {
    var vs := Verdicts(m);
    WorstIsMax(vs);
    if m != [] {
      var i :| 0 <= i < |vs| && vs[i] == Worst(vs);
      assert m[i] in m && m[i].verdict == Worst(vs);
    }
    forall e | e in m ensures Severity(e.verdict) <= Severity(Worst(vs))
    {
      var i :| 0 <= i < |m| && m[i] == e;
      assert vs[i] in vs;
    }
  }

  lemma NothingOwned(s: Snapshot, b: Binding)
    ensures !Blind(s, b) && (forall e :: e in EntriesOf(s) ==> !Owns(s, b, e)) <==> PositiveAbsence(s, b)
  {
    var m := EntriesOf(s);
    forall p | p in Table(s) && Below(Table(s), b.pid, p) ensures Clear(s, (p.pid, p.start)) <==> forall e :: e in m ==> KeyOf(e) != (p.pid, p.start)
    {
      ClearMeans(s, (p.pid, p.start));
    }
    hide EntriesOf, Below, Clear, Names, Blind;
  }

  /** No entry ever reads no connector. */
  lemma NeverNoConnector(s: Snapshot)
    ensures forall e :: e in EntriesOf(s) ==> e.verdict != NoConnector
  {
    forall e | e in EntriesOf(s) ensures e.verdict != NoConnector
    {
      TableApart(s, |Table(s)|);
      InIsFound(EntriesOf(s), e);
      TableFound(s, |Table(s)|, KeyOf(e));
      hide Find, BoundAncestor, RowBinding;
    }
  }
}
