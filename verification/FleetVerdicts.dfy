/** What each verdict says of the snapshot. */
module FleetVerdicts {
  // Every connector's line and the daemon's, told by what was loaded and what is installed; whose window a row is
  // shown under; and the deploy check's pass told by the installs alone.

  import opened Fleet
  import opened FleetWindows
  import opened FleetDeploy
  import opened Wrappers

  // ---------------------------------------------------------------- one comparison

  /** One side or the other cannot be told apart: an unstamped build, or dependencies that were not identified. */
  predicate Unidentified(l: Loaded, i: Installed)
  {
    l.build == "unbuilt" || l.depsState != Some("known") || l.deps.None? || l.deps.value == "" ||
    !i.depsKnown || i.deps.None? || i.deps.value == ""
  }

  /** The verdict, each case exactly. */
  predicate Says(v: Verdict, l: Loaded, i: Installed)
  {
    (v == Inconsistent <==> !i.consistent) &&
    (v == Unknown <==> i.consistent && Unidentified(l, i)) &&
    (v == Current <==> i.consistent && !Unidentified(l, i) && i.content == Some(l.build) && i.deps == l.deps) &&
    (v == Stale <==> i.consistent && !Unidentified(l, i) && !(i.content == Some(l.build) && i.deps == l.deps))
  }

  /**
    * Each live row has one entry, and the entry's verdict is that of what the row loaded against what is installed
    * where it was loaded from.
    */
  lemma RowVerdict(s: Snapshot, n: nat, e: Entry)
    requires RowsApart(s) && n < |s.rows|
    ensures exists f :: f in EntriesOf(s) && KeyOf(f) == (s.rows[n].pid, s.rows[n].start)
    ensures e in EntriesOf(s) && KeyOf(e) == (s.rows[n].pid, s.rows[n].start) ==>
            e.hasRow && e.connector && e.dir == Some(s.rows[n].dir) && Says(e.verdict, s.rows[n].loaded, s.installed(s.rows[n].dir))
  {
    var r := s.rows[n];
    RowHasEntry(s, n);
    EntryKeys(s, r);
    TableApart(s, |Table(s)|);
    RowSays(s, r);
    hide EntriesOf, RowEntry, Says;
    if e in EntriesOf(s) && KeyOf(e) == (r.pid, r.start) {
      SameEntry(EntriesOf(s), e, RowEntry(s, r));
    }
  }

  lemma RowSays(s: Snapshot, r: Row)
    ensures var e := RowEntry(s, r); e.hasRow && e.connector && e.dir == Some(r.dir) && Says(e.verdict, r.loaded, s.installed(r.dir))
  {
  }

  /** Every other entry is unknown: a row that cannot be observed, or a process without a row, said to be a connector where it is known to be one. */
  lemma OthersUnknown(s: Snapshot, e: Entry)
    requires RowsApart(s) && PidsApart(Table(s)) && e in EntriesOf(s) && !HasRow(s.rows, |s.rows|, KeyOf(e))
    ensures e.verdict == Unknown && (e.hasRow <==> HasRow(s.unknownRows, |s.unknownRows|, KeyOf(e)))
    ensures e.hasRow ==> e.connector && exists r :: r in s.unknownRows && (r.pid, r.start) == KeyOf(e) && e.dir == Some(r.dir)
    ensures !e.hasRow ==> exists p :: p in Table(s) && (p.pid, p.start) == KeyOf(e) && !ClassOf(s, p).NotRelay? &&
                                     (e.connector <==> ClassOf(s, p).Connector?) && e.dir == if ClassOf(s, p).Connector? then Some(ClassOf(s, p).dir) else None
  {
    var k := KeyOf(e);
    TableFound(s, |Table(s)|, k);
    TableApart(s, |Table(s)|);
    InIsFound(EntriesOf(s), e);
    LastRowMeans(s.rows, |s.rows|, k);
    LastRowMeans(s.unknownRows, |s.unknownRows|, k);
    FirstSuspectMeans(s, |Table(s)|, k);
    hide Find, RowBinding, BoundAncestor, EntriesOf, PidsApart, RowsApart, HasRow;
  }

  // ---------------------------------------------------------------- whose window

  /** Processes of the table from `pid` up, each the child of the next. */
  predicate Upward(table: seq<Proc>, path: seq<Proc>, pid: nat)
  {
    path != [] && path[0].pid == pid && (forall i :: 0 <= i < |path| ==> path[i] in table) &&
    forall i :: 0 < i < |path| ==> path[i].pid == path[i - 1].ppid
  }

  predicate Bound(bs: seq<Binding>, p: Proc)
  {
    exists b :: b in bs && (b.pid, b.start) == (p.pid, p.start)
  }

  /** The last process of the path is bound by `b`, and none before it is bound. */
  ghost predicate NearestVia(s: Snapshot, path: seq<Proc>, b: Binding)
  {
    path != [] && b in s.bindings && (b.pid, b.start) == (path[|path| - 1].pid, path[|path| - 1].start) &&
    forall i :: 0 <= i < |path| - 1 ==> !Bound(s.bindings, path[i])
  }

  /** The nearest bound process at or above `pid`, no more than `steps` processes up, is that of `b`. */
  ghost predicate Nearest(s: Snapshot, pid: nat, steps: int, b: Binding)
  {
    exists path :: |path| <= steps && Upward(Table(s), path, pid) && NearestVia(s, path, b)
  }

  /** A window has one binding at most. */
  predicate BindingsApart(bs: seq<Binding>)
  {
    forall i, j :: 0 <= i < j < |bs| ==> (bs[i].pid, bs[i].start) != (bs[j].pid, bs[j].start)
  }

  lemma {:induction false} ProcAtMeans(table: seq<Proc>, pid: nat)
    ensures ProcAt(table, pid).None? <==> forall p :: p in table ==> p.pid != pid
    ensures ProcAt(table, pid).Some? ==> ProcAt(table, pid).value in table && ProcAt(table, pid).value.pid == pid
  {
    if table != [] {
      ProcAtMeans(table[..|table| - 1], pid);
      assert table == table[..|table| - 1] + [table[|table| - 1]];
    }
  }

  lemma {:induction false} BindingAtMeans(bs: seq<Binding>, k: Key)
    ensures BindingAt(bs, k).None? <==> forall b :: b in bs ==> (b.pid, b.start) != k
    ensures BindingAt(bs, k).Some? ==> BindingAt(bs, k).value in bs && (BindingAt(bs, k).value.pid, BindingAt(bs, k).value.start) == k
  {
    if bs != [] {
      BindingAtMeans(bs[..|bs| - 1], k);
      assert bs == bs[..|bs| - 1] + [bs[|bs| - 1]];
    }
  }

  lemma OneBinding(bs: seq<Binding>, b: Binding, c: Binding)
    requires BindingsApart(bs) && b in bs && c in bs && (b.pid, b.start) == (c.pid, c.start)
    ensures b == c
  {
  }

  lemma OneProc(table: seq<Proc>, p: Proc, q: Proc)
    requires PidsApart(table) && p in table && q in table && p.pid == q.pid
    ensures p == q
  {
  }

  /** The walk up from a process finds its nearest bound ancestor, 64 processes up at most. */
  lemma {:induction false} BoundAncestorExactly(s: Snapshot, pid: nat, depth: nat, b: Binding)
    requires PidsApart(Table(s)) && BindingsApart(s.bindings)
    ensures BoundAncestor(s, pid, depth) == Some(b) <==> Nearest(s, pid, 64 - depth, b)
    decreases MAX_DEPTH - depth
  {
    var p := ProcAt(Table(s), pid);
    ProcAtMeans(Table(s), pid);
    if p.Some? && depth < MAX_DEPTH {
      BindingAtMeans(s.bindings, (p.value.pid, p.value.start));
      NearestSteps(s, pid, 64 - depth, b, p.value);
      if BindingAt(s.bindings, (p.value.pid, p.value.start)).None? {
        BoundAncestorExactly(s, p.value.ppid, depth + 1, b);
      } else if b in s.bindings && (b.pid, b.start) == (p.value.pid, p.value.start) {
        OneBinding(s.bindings, b, BindingAt(s.bindings, (p.value.pid, p.value.start)).value);
      }
      hide Nearest, PidsApart, BindingsApart;
    } else if p.None? {
      assert !Nearest(s, pid, 64 - depth, b);
    }
  }

  lemma NearestSteps(s: Snapshot, pid: nat, steps: int, b: Binding, p: Proc)
    requires PidsApart(Table(s)) && p in Table(s) && p.pid == pid && steps > 0
    ensures Bound(s.bindings, p) ==> (Nearest(s, pid, steps, b) <==> b in s.bindings && (b.pid, b.start) == (p.pid, p.start))
    ensures !Bound(s.bindings, p) ==> (Nearest(s, pid, steps, b) <==> Nearest(s, p.ppid, steps - 1, b))
  {
    hide PidsApart;
    if Nearest(s, pid, steps, b) {
      var path :| |path| <= steps && Upward(Table(s), path, pid) && NearestVia(s, path, b);
      OneProc(Table(s), path[0], p);
      if Bound(s.bindings, p) {
        assert |path| == 1;
      } else {
        assert |path| > 1;
        var up := path[1..];
        assert up[|up| - 1] == path[|path| - 1];
        assert Upward(Table(s), up, p.ppid) && NearestVia(s, up, b);
        assert Nearest(s, p.ppid, steps - 1, b);
      }
    }
    if !Bound(s.bindings, p) && Nearest(s, p.ppid, steps - 1, b) {
      var up :| |up| <= steps - 1 && Upward(Table(s), up, p.ppid) && NearestVia(s, up, b);
      var path := [p] + up;
      assert path[|path| - 1] == up[|up| - 1];
      assert Upward(Table(s), path, pid) && NearestVia(s, path, b);
      assert Nearest(s, pid, steps, b);
    }
    if Bound(s.bindings, p) && b in s.bindings && (b.pid, b.start) == (p.pid, p.start) {
      assert Upward(Table(s), [p], pid) && NearestVia(s, [p], b);
    }
  }

  /** The row is shown under this window: it names it, or it names none and the window is the nearest bound process above. */
  ghost predicate Under(s: Snapshot, r: Row, b: Binding)
  {
    RowNames(r, b) || (r.parent.None? && Nearest(s, r.pid, 64, b))
  }

  lemma RowNamesWindow(s: Snapshot, r: Row, b: Binding)
    requires PidsApart(Table(s)) && BindingsApart(s.bindings) && b in s.bindings
    ensures Names(RowEntry(s, r), b) <==> Under(s, r, b)
  {
    BoundAncestorExactly(s, r.pid, 0, b);
    var c := BoundAncestor(s, r.pid, 0);
    if c.Some? {
      BoundAncestorExactly(s, r.pid, 0, c.value);
      assert c.value in s.bindings by { NearestBinds(s, r.pid, 64, c.value); }
      if (b.pid, b.start) == (c.value.pid, c.value.start) { OneBinding(s.bindings, b, c.value); }
    }
    hide Nearest, BoundAncestor, PidsApart, BindingsApart;
  }

  lemma NearestBinds(s: Snapshot, pid: nat, steps: int, b: Binding)
    requires Nearest(s, pid, steps, b)
    ensures b in s.bindings
  {
  }

  /** The agent a live row is shown with: that of the window it is under, "(unnamed)" where that has no name, or none. */
  lemma RowAgent(s: Snapshot, r: Row, b: Binding)
    requires PidsApart(Table(s)) && BindingsApart(s.bindings) && b in s.bindings
    requires RowNames(r, b) || ((r.parent.None? || r.parentStart.None?) && Nearest(s, r.pid, 64, b))
    ensures !RowEntry(s, r).unbound && RowEntry(s, r).agent == Some(if b.agent.Some? then b.agent.value else "(unnamed)")
  {
    BoundAncestorExactly(s, r.pid, 0, b);
    BindingAtMeans(s.bindings, (b.pid, b.start));
    if RowNames(r, b) { OneBinding(s.bindings, b, BindingAt(s.bindings, (b.pid, b.start)).value); }
    hide Nearest, BoundAncestor, PidsApart, BindingsApart;
  }

  /** A row under no window is shown with no agent. */
  lemma RowUnbound(s: Snapshot, r: Row)
    requires PidsApart(Table(s)) && BindingsApart(s.bindings)
    requires forall b :: b in s.bindings ==> !RowNames(r, b) && !((r.parent.None? || r.parentStart.None?) && Nearest(s, r.pid, 64, b))
    ensures RowEntry(s, r).unbound && RowEntry(s, r).agent == None
  {
    var c := BoundAncestor(s, r.pid, 0);
    if c.Some? {
      BoundAncestorExactly(s, r.pid, 0, c.value);
      NearestBinds(s, r.pid, 64, c.value);
    }
    if r.parent.Some? && r.parentStart.Some? { BindingAtMeans(s.bindings, (r.parent.value, r.parentStart.value)); }
    hide Nearest, BoundAncestor, PidsApart, BindingsApart;
  }

  /** A row that cannot be observed is shown under the window it names, never by its process's ancestors. */
  lemma UnknownNamesWindow(s: Snapshot, r: Row, b: Binding)
    requires BindingsApart(s.bindings) && b in s.bindings
    ensures Names(UnknownEntry(s, r), b) <==> RowNames(r, b)
    ensures RowNames(r, b) ==> UnknownEntry(s, r).agent == Some(if b.agent.Some? then b.agent.value else "(unnamed)")
  {
    BindingAtMeans(s.bindings, (b.pid, b.start));
    if RowNames(r, b) { OneBinding(s.bindings, b, BindingAt(s.bindings, (b.pid, b.start)).value); }
  }

  /** A process without a row is shown under its nearest bound ancestor. */
  lemma ProcNamesWindow(s: Snapshot, p: Proc, b: Binding)
    requires PidsApart(Table(s)) && BindingsApart(s.bindings) && b in s.bindings
    ensures Names(ProcEntry(s, p), b) <==> Nearest(s, p.pid, 64, b)
    ensures Nearest(s, p.pid, 64, b) ==> ProcEntry(s, p).agent == Some(if b.agent.Some? then b.agent.value else "(unnamed)")
  {
    BoundAncestorExactly(s, p.pid, 0, b);
    var c := BoundAncestor(s, p.pid, 0);
    if c.Some? {
      BoundAncestorExactly(s, p.pid, 0, c.value);
      NearestBinds(s, p.pid, 64, c.value);
      if (b.pid, b.start) == (c.value.pid, c.value.start) { OneBinding(s.bindings, b, c.value); }
    }
    hide Nearest, BoundAncestor, PidsApart, BindingsApart;
  }

  // ---------------------------------------------------------------- the daemon

  /** Position `i` of the listeners on the port is the first that is a process of the table running a relay install, `p`. */
  predicate FirstRelay(table: seq<Proc>, pids: seq<nat>, i: nat, p: Proc)
  {
    i < |pids| && p in table && p.pid == pids[i] && p.ifNotListening.Connector? &&
    forall j, q :: 0 <= j < i && q in table && q.pid == pids[j] ==> !q.ifNotListening.Connector?
  }

  lemma {:induction false} DaemonProcExactly(table: seq<Proc>, pids: seq<nat>, p: Proc)
    requires PidsApart(table)
    ensures DaemonProc(table, pids) == Some(p) <==> exists i: nat :: FirstRelay(table, pids, i, p)
  {
    if pids != [] {
      DaemonProcExactly(table, pids[1..], p);
      ProcAtMeans(table, pids[0]);
      var q := ProcAt(table, pids[0]);
      if q.Some? && q.value.ifNotListening.Connector? {
        if q.value == p { assert FirstRelay(table, pids, 0, p); }
        forall i: nat | FirstRelay(table, pids, i, p) ensures q.value == p
        {
          if i == 0 { OneProc(table, p, q.value); }
        }
      } else {
        forall r | r in table && r.pid == pids[0] ensures !r.ifNotListening.Connector? { OneProc(table, r, q.value); }
        forall i: nat | FirstRelay(table, pids, i, p) ensures i > 0 && FirstRelay(table, pids[1..], i - 1, p) {}
        forall i: nat | FirstRelay(table, pids[1..], i, p) ensures FirstRelay(table, pids, i + 1, p) {}
      }
    }
  }

  /** A relay install listens on the daemon's port, and the process table could be read. */
  ghost predicate DaemonIs(s: Snapshot, p: Proc)
  {
    s.table.Some? && s.daemonPids.Some? && exists i: nat :: FirstRelay(s.table.value, s.daemonPids.value, i, p)
  }

  /** The daemon's line: with a known daemon and its build read, the same comparison; unknown in every other case. */
  lemma DaemonExactly(s: Snapshot, p: Proc)
    requires PidsApart(Table(s))
    ensures DaemonIs(s, p) ==>
            DaemonLine(s).pid == Some(p.pid) && DaemonLine(s).start == Some(p.start) &&
            (s.health.Build? ==> Says(DaemonLine(s).verdict, s.health.loaded, s.installed(p.ifNotListening.dir))) &&
            (!s.health.Build? ==> DaemonLine(s).verdict == Unknown)
    ensures (forall q :: !DaemonIs(s, q)) ==>
            DaemonLine(s).verdict == Unknown &&
            DaemonLine(s).pid == if s.daemonPids.None? || s.daemonPids.value == [] then None else Some(s.daemonPids.value[0])
  {
    if s.table.Some? && s.daemonPids.Some? {
      var d := DaemonProc(Table(s), s.daemonPids.value);
      DaemonProcExactly(Table(s), s.daemonPids.value, p);
      if d.Some? {
        DaemonProcExactly(Table(s), s.daemonPids.value, d.value);
        assert DaemonIs(s, d.value);
      }
      ProcAtMeans(Table(s), p.pid);
      if p in Table(s) { OneProc(Table(s), p, ProcAt(Table(s), p.pid).value); }
      hide PidsApart, FirstRelay, DaemonProc, ProcAt;
    }
  }

  // ---------------------------------------------------------------- the count of what fails

  function FailingAt(m: seq<Entry>): set<int>
  {
    set i | 0 <= i < |m| && m[i].verdict != Current
  }

  function FailingWindowsAt(ws: seq<Window>): set<int>
  {
    set i | 0 <= i < |ws| && ws[i].connectors == [] && ws[i].verdict != Current
  }

  lemma {:induction false} ConnectorsCounted(m: seq<Entry>)
    ensures FailingConnectors(m) == |FailingAt(m)|
  {
    if m != [] {
      var n := |m| - 1;
      ConnectorsCounted(m[..n]);
      assert FailingAt(m) == FailingAt(m[..n]) + if m[n].verdict != Current then {n} else {};
      assert n !in FailingAt(m[..n]);
    }
  }

  lemma {:induction false} WindowsCounted(ws: seq<Window>)
    ensures FailingWindows(ws) == |FailingWindowsAt(ws)|
  {
    if ws != [] {
      var n := |ws| - 1;
      WindowsCounted(ws[..n]);
      assert FailingWindowsAt(ws) == FailingWindowsAt(ws[..n]) + if ws[n].connectors == [] && ws[n].verdict != Current then {n} else {};
      assert n !in FailingWindowsAt(ws[..n]);
    }
  }

  /** What a judgement counts: each connector that is not current, each window without one, and the daemon if it is not. */
  lemma FailingCounted(s: Snapshot, j: Judgement)
    requires Judged(s, j)
    ensures j.failing == |FailingAt(j.connectors)| + |FailingWindowsAt(j.windows)| + (if j.daemon.verdict == Current then 0 else 1)
  {
    ConnectorsCounted(j.connectors);
    WindowsCounted(j.windows);
    hide EntriesOf, WindowJudged, DaemonLine, FailingConnectors, FailingWindows, FailingAt, FailingWindowsAt;
  }

  // ---------------------------------------------------------------- the pass, from the installs

  /** It runs exactly what is installed, and both sides are known. */
  predicate Runs(l: Loaded, i: Installed)
  {
    i.consistent && !Unidentified(l, i) && i.content == Some(l.build) && i.deps == l.deps
  }

  /** The window has a connector: a live row is under it, or is of a process below it. */
  ghost predicate HasConnector(s: Snapshot, b: Binding)
  {
    exists r :: r in s.rows && (Under(s, r, b) || (!Blind(s, b) && exists p :: p in Table(s) && Below(Table(s), b.pid, p) && (p.pid, p.start) == (r.pid, r.start)))
  }

  /** A host all of which runs what is installed, told without a verdict. */
  ghost predicate Healthy(s: Snapshot)
  {
    s.table.Some? && s.listenersRead && s.unknownRows == [] && s.mint == "secret" &&
    (forall r :: r in s.rows ==> Runs(r.loaded, s.installed(r.dir))) &&
    (forall p :: p in s.table.value ==> p.class_.NotRelay? || HasRow(s.rows, |s.rows|, (p.pid, p.start))) &&
    (forall b :: b in s.bindings ==> HasConnector(s, b)) &&
    DaemonRuns(s)
  }

  /** The daemon is known, by a start too, and runs what is installed where it was loaded from. */
  ghost predicate DaemonRuns(s: Snapshot)
  {
    s.health.Build? && exists p :: DaemonIs(s, p) && p.start != "" && Runs(s.health.loaded, s.installed(p.ifNotListening.dir))
  }

  lemma DaemonCurrent(s: Snapshot)
    requires PidsApart(Table(s))
    ensures DaemonLine(s).verdict == Current && Nonempty(DaemonLine(s).start) <==> DaemonRuns(s)
  {
    if DaemonLine(s).verdict == Current && forall q :: !DaemonIs(s, q) {
      DaemonExactly(s, Proc(0, 0, "", Unclear, Unclear));
    }
    forall p | DaemonIs(s, p)
      ensures DaemonLine(s).start == Some(p.start)
      ensures DaemonLine(s).verdict == Current <==> s.health.Build? && Runs(s.health.loaded, s.installed(p.ifNotListening.dir))
    {
      DaemonExactly(s, p);
      hide DaemonIs, DaemonLine, PidsApart;
    }
    hide DaemonIs, DaemonLine, PidsApart, Runs;
  }

  /** With no row unobservable and each process that may be a connector rowed, the entries are the rows'. */
  lemma EntriesAreRows(s: Snapshot)
    requires RowsApart(s) && s.table.Some? && s.listenersRead && s.unknownRows == []
    requires forall p :: p in s.table.value ==> p.class_.NotRelay? || HasRow(s.rows, |s.rows|, (p.pid, p.start))
    ensures forall e :: e in EntriesOf(s) <==> exists r :: r in s.rows && e == RowEntry(s, r)
  {
    forall e | e in EntriesOf(s) ensures exists r :: r in s.rows && e == RowEntry(s, r)
    {
      var k := KeyOf(e);
      TableFound(s, |Table(s)|, k);
      TableApart(s, |Table(s)|);
      InIsFound(EntriesOf(s), e);
      LastRowMeans(s.rows, |s.rows|, k);
      LastRowMeans(s.unknownRows, |s.unknownRows|, k);
      FirstSuspectMeans(s, |Table(s)|, k);
      hide Find, RowEntry, ProcEntry, EntriesOf, RowsApart;
    }
    forall r | r in s.rows ensures RowEntry(s, r) in EntriesOf(s)
    {
      var n :| 0 <= n < |s.rows| && s.rows[n] == r;
      RowHasEntry(s, n);
    }
  }

  /** All is current in a look, with a daemon that can be told apart, exactly when the host is healthy. */
  lemma HealthyIsCurrent(s: Snapshot, j: Judgement)
    requires Judged(s, j) && RowsApart(s) && PidsApart(Table(s)) && BindingsApart(s.bindings)
    ensures AllCurrent(s, j) && Nonempty(j.daemon.start) <==> Healthy(s)
  {
    DaemonCurrent(s);
    if s.table.Some? && s.listenersRead && s.unknownRows == [] &&
       forall p :: p in s.table.value ==> p.class_.NotRelay? || HasRow(s.rows, |s.rows|, (p.pid, p.start))
    {
      RowsCurrent(s);
      WindowsConnected(s, j);
      if forall e :: e in EntriesOf(s) ==> e.verdict == Current {
        forall i | 0 <= i < |s.bindings| ensures j.windows[i].verdict == Current <==> j.windows[i].connectors != []
        {
          WindowCurrent(s, s.bindings[i], j.windows[i]);
        }
      }
    }
    hide EntriesOf, WindowJudged, DaemonLine, DaemonRuns, HasConnector, Runs, HasRow, RowsApart, PidsApart, BindingsApart, Failing;
  }

  lemma RowsCurrent(s: Snapshot)
    requires RowsApart(s) && s.table.Some? && s.listenersRead && s.unknownRows == []
    requires forall p :: p in s.table.value ==> p.class_.NotRelay? || HasRow(s.rows, |s.rows|, (p.pid, p.start))
    ensures (forall e :: e in EntriesOf(s) ==> e.verdict == Current) <==> forall r :: r in s.rows ==> Runs(r.loaded, s.installed(r.dir))
  {
    EntriesAreRows(s);
    forall r | r in s.rows ensures RowEntry(s, r) in EntriesOf(s) && (RowEntry(s, r).verdict == Current <==> Runs(r.loaded, s.installed(r.dir)))
    {
      RowSays(s, r);
    }
    hide EntriesOf, RowEntry, Runs, RowsApart, HasRow;
  }

  /** With the entries those of the rows, the windows that own one are those with a connector. */
  lemma WindowsConnected(s: Snapshot, j: Judgement)
    requires Judged(s, j) && RowsApart(s) && PidsApart(Table(s)) && BindingsApart(s.bindings) && s.table.Some? && s.listenersRead && s.unknownRows == []
    requires forall p :: p in s.table.value ==> p.class_.NotRelay? || HasRow(s.rows, |s.rows|, (p.pid, p.start))
    ensures (forall i :: 0 <= i < |j.windows| ==> j.windows[i].connectors != []) <==> forall b :: b in s.bindings ==> HasConnector(s, b)
  {
    EntriesAreRows(s);
    forall i | 0 <= i < |s.bindings| ensures j.windows[i].connectors != [] <==> HasConnector(s, s.bindings[i])
    {
      OwnsConnector(s, s.bindings[i], j.windows[i]);
    }
    hide EntriesOf, WindowJudged, DaemonLine, HasConnector, RowsApart, PidsApart, BindingsApart, HasRow, Failing;
    assert forall i :: 0 <= i < |s.bindings| ==> s.bindings[i] in s.bindings;
  }

  lemma OwnsConnector(s: Snapshot, b: Binding, w: Window)
    requires WindowJudged(s, b, w) && PidsApart(Table(s)) && BindingsApart(s.bindings) && b in s.bindings
    requires forall e :: e in EntriesOf(s) <==> exists r :: r in s.rows && e == RowEntry(s, r)
    ensures w.connectors != [] <==> HasConnector(s, b)
  {
    var owned :| JudgedAs(s, b, owned, w);
    assert w.connectors != [] <==> exists e :: e in EntriesOf(s) && Owns(s, b, e) by {
      assert |w.connectors| == |owned|;
      if owned != [] { assert owned[0] in owned; }
      hide EntriesOf, Owns, Worst, KeysApart, Blind;
    }
    forall r | r in s.rows
      ensures Owns(s, b, RowEntry(s, r)) <==>
              Under(s, r, b) || (!Blind(s, b) && exists p :: p in Table(s) && Below(Table(s), b.pid, p) && (p.pid, p.start) == (r.pid, r.start))
    {
      RowNamesWindow(s, r, b);
      EntryKeys(s, r);
      hide RowEntry, Under, Below, Blind, Names, PidsApart, BindingsApart;
    }
    hide EntriesOf, RowEntry, Owns, Under, Below, Blind, JudgedAs, PidsApart, BindingsApart;
  }

  /**
    * The deploy check passes exactly when both looks found a healthy host and saw the same connectors, windows and
    * daemon: so a host all of which runs what is installed passes, and no other does.
    */
  lemma InstallsPass(s1: Snapshot, j1: Judgement, s2: Snapshot, j2: Judgement)
    requires Judged(s1, j1) && RowsApart(s1) && PidsApart(Table(s1)) && BindingsApart(s1.bindings)
    requires Judged(s2, j2) && RowsApart(s2) && PidsApart(Table(s2)) && BindingsApart(s2.bindings)
    ensures DeployCheck(s1, j1, s2, j2) == Pass <==> Healthy(s1) && Healthy(s2) && SignatureOf(j1) == SignatureOf(j2)
  {
    PassExactly(s1, j1, s2, j2);
    HealthyIsCurrent(s1, j1);
    HealthyIsCurrent(s2, j2);
    if Healthy(s1) && Healthy(s2) { HealthyReadable(s1); HealthyReadable(s2); }
    if AllCurrent(s1, j1) { CurrentHasPid(s1, j1); }
    if AllCurrent(s2, j2) { CurrentHasPid(s2, j2); }
    hide Judged, Healthy, AllCurrent, SignatureOf, RowsApart, PidsApart, BindingsApart, CannotBeVerified, DeployCheck;
  }

  lemma HealthyReadable(s: Snapshot)
    requires Healthy(s)
    ensures !CannotBeVerified(s)
  {
  }

  lemma CurrentHasPid(s: Snapshot, j: Judgement)
    requires Judged(s, j) && AllCurrent(s, j)
    ensures j.daemon.pid.Some?
  {
    hide EntriesOf, WindowJudged, Failing, HasRow;
  }

  /** Exactly when nothing is said: a source unread, a daemon without an identity, or two looks that differ. */
  lemma CannotVerifyExactly(s1: Snapshot, j1: Judgement, s2: Snapshot, j2: Judgement)
    ensures DeployCheck(s1, j1, s2, j2) == CannotVerify <==>
            s1.table.None? || s2.table.None? || !s1.listenersRead || !s2.listenersRead || s1.daemonPids.None? || s2.daemonPids.None? ||
            (s1.daemonPids.value != [] && s1.health == Unreachable) || (s2.daemonPids.value != [] && s2.health == Unreachable) ||
            (j1.daemon.pid.Some? && (j1.daemon.start.None? || j1.daemon.start.value == "")) ||
            (j2.daemon.pid.Some? && (j2.daemon.start.None? || j2.daemon.start.value == "")) ||
            SignatureOf(j1) != SignatureOf(j2) || s1.mint != s2.mint
  {
    hide SignatureOf;
  }

  lemma ConnectorsTold(m: seq<Entry>, n: seq<Entry>)
    requires ConnectorMarks(m) == ConnectorMarks(n)
    ensures |m| == |n| && forall e :: e in m ==> exists f :: f in n && KeyOf(f) == KeyOf(e) && f.verdict == e.verdict
  {
    var ms := seq(|m|, i requires 0 <= i < |m| => (m[i].pid, m[i].start, m[i].verdict));
    var ns := seq(|n|, i requires 0 <= i < |n| => (n[i].pid, n[i].start, n[i].verdict));
    assert |multiset(ms)| == |multiset(ns)|;
    forall e | e in m ensures exists f :: f in n && KeyOf(f) == KeyOf(e) && f.verdict == e.verdict
    {
      var i :| 0 <= i < |m| && m[i] == e;
      assert ms[i] in multiset(ms) && ms[i] in ns;
      var k :| 0 <= k < |ns| && ns[k] == ms[i];
      assert n[k] in n;
    }
  }

  lemma WindowsTold(u: seq<Window>, v: seq<Window>)
    requires WindowMarks(u) == WindowMarks(v)
    ensures |u| == |v| && forall w :: w in u ==> exists x :: x in v && x.pid == w.pid && x.verdict == w.verdict && multiset(x.connectors) == multiset(w.connectors)
  {
    var us := seq(|u|, i requires 0 <= i < |u| => (u[i].pid, u[i].verdict, multiset(u[i].connectors)));
    var vs := seq(|v|, i requires 0 <= i < |v| => (v[i].pid, v[i].verdict, multiset(v[i].connectors)));
    assert |multiset(us)| == |multiset(vs)|;
    forall w | w in u ensures exists x :: x in v && x.pid == w.pid && x.verdict == w.verdict && multiset(x.connectors) == multiset(w.connectors)
    {
      var i :| 0 <= i < |u| && u[i] == w;
      assert us[i] in multiset(us) && us[i] in vs;
      var k :| 0 <= k < |vs| && vs[k] == us[i];
      assert v[k] in v;
    }
  }

  /** Two looks agree only if each saw, for every connector and window of the other, one like it, and the same daemon. */
  lemma SignatureTells(j1: Judgement, j2: Judgement)
    requires SignatureOf(j1) == SignatureOf(j2)
    ensures |j1.connectors| == |j2.connectors| && |j1.windows| == |j2.windows| && j1.daemon == j2.daemon
    ensures forall e :: e in j1.connectors ==> exists f :: f in j2.connectors && KeyOf(f) == KeyOf(e) && f.verdict == e.verdict
    ensures forall w :: w in j1.windows ==> exists v :: v in j2.windows && v.pid == w.pid && v.verdict == w.verdict && multiset(v.connectors) == multiset(w.connectors)
  {
    hide ConnectorMarks, WindowMarks;
    ConnectorsTold(j1.connectors, j2.connectors);
    WindowsTold(j1.windows, j2.windows);
  }

  function Mapped<A, B>(f: A -> B, s: seq<A>): (r: seq<B>)
    ensures |r| == |s| && forall i :: 0 <= i < |s| ==> r[i] == f(s[i])
  {
    seq(|s|, i requires 0 <= i < |s| => f(s[i]))
  }

  lemma Removed<A>(s: seq<A>, k: nat)
    requires k < |s|
    ensures multiset(s) == multiset(s[..k] + s[k + 1..]) + multiset{s[k]}
  {
    assert s == s[..k] + ([s[k]] + s[k + 1..]);
  }

  lemma MappedRemoved<A, B>(f: A -> B, s: seq<A>, k: nat)
    requires k < |s|
    ensures multiset(Mapped(f, s)) == multiset(Mapped(f, s[..k] + s[k + 1..])) + multiset{f(s[k])}
  {
    Removed(Mapped(f, s), k);
    assert Mapped(f, s)[..k] + Mapped(f, s)[k + 1..] == Mapped(f, s[..k] + s[k + 1..]);
  }

  /** A map of a rearrangement is a rearrangement of the map. */
  lemma {:induction false} MappedAnyOrder<A, B>(f: A -> B, s: seq<A>, t: seq<A>)
    requires multiset(s) == multiset(t)
    ensures multiset(Mapped(f, s)) == multiset(Mapped(f, t))
    decreases |s|
  {
    hide Mapped;
    if s == [] {
      assert |multiset(t)| == 0;
      assert Mapped(f, s) == Mapped(f, t);
    } else {
      assert s[0] in multiset(t);
      var k :| 0 <= k < |t| && t[k] == s[0];
      Removed(s, 0);
      Removed(t, k);
      SameRest(multiset(s[..0] + s[1..]), multiset(t[..k] + t[k + 1..]), s[0]);
      MappedAnyOrder(f, s[..0] + s[1..], t[..k] + t[k + 1..]);
      MappedRemoved(f, s, 0);
      MappedRemoved(f, t, k);
    }
  }

  lemma SameRest<A>(a: multiset<A>, b: multiset<A>, x: A)
    requires a + multiset{x} == b + multiset{x}
    ensures a == b
  {
    assert a == (a + multiset{x}) - multiset{x} && b == (b + multiset{x}) - multiset{x};
  }

  function Mark(e: Entry): (nat, string, Verdict)
  {
    (e.pid, e.start, e.verdict)
  }

  function WindowMark(w: Window): (nat, Verdict, multiset<nat>)
  {
    (w.pid, w.verdict, multiset(w.connectors))
  }

  lemma ConnectorsMapped(m: seq<Entry>)
    ensures ConnectorMarks(m) == multiset(Mapped(Mark, m))
  {
    var ms := seq(|m|, i requires 0 <= i < |m| => (m[i].pid, m[i].start, m[i].verdict));
    assert ms == Mapped(Mark, m);
  }

  lemma WindowsMapped(ws: seq<Window>)
    ensures WindowMarks(ws) == multiset(Mapped(WindowMark, ws))
  {
    var ms := seq(|ws|, i requires 0 <= i < |ws| => (ws[i].pid, ws[i].verdict, multiset(ws[i].connectors)));
    assert ms == Mapped(WindowMark, ws);
  }

  /** The order in which a look lists its connectors and windows does not matter. */
  lemma SameInAnyOrder(j1: Judgement, j2: Judgement)
    requires multiset(j1.connectors) == multiset(j2.connectors) && multiset(j1.windows) == multiset(j2.windows) && j1.daemon == j2.daemon
    ensures SignatureOf(j1) == SignatureOf(j2)
  {
    MappedAnyOrder(Mark, j1.connectors, j2.connectors);
    MappedAnyOrder(WindowMark, j1.windows, j2.windows);
    ConnectorsMapped(j1.connectors);
    ConnectorsMapped(j2.connectors);
    WindowsMapped(j1.windows);
    WindowsMapped(j2.windows);
    hide ConnectorMarks, WindowMarks, Mapped;
  }
}
