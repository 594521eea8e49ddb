/** The deploy check. */
module FleetDeploy {
  // Two looks at the fleet, judged alike, and what a pass then means of everything on the host.

  import opened Fleet
  import opened FleetWindows
  import opened Wrappers

  /** Each connector row is of one process: no key twice among those observed live and those that cannot be. */
  predicate RowsApart(s: Snapshot)
  {
    (forall i, j :: 0 <= i < j < |s.rows| ==> (s.rows[i].pid, s.rows[i].start) != (s.rows[j].pid, s.rows[j].start)) &&
    (forall i, j :: 0 <= i < j < |s.unknownRows| ==> (s.unknownRows[i].pid, s.unknownRows[i].start) != (s.unknownRows[j].pid, s.unknownRows[j].start)) &&
    forall i, j :: 0 <= i < |s.rows| && 0 <= j < |s.unknownRows| ==> (s.rows[i].pid, s.rows[i].start) != (s.unknownRows[j].pid, s.unknownRows[j].start)
  }

  predicate RowNames(r: Row, b: Binding)
  {
    r.parent == Some(b.pid) && r.parentStart == Some(b.start)
  }

  lemma {:induction false} OnlyRow(rows: seq<Row>, n: nat, i: nat)
    requires i < n <= |rows| && forall a, c :: 0 <= a < c < |rows| ==> (rows[a].pid, rows[a].start) != (rows[c].pid, rows[c].start)
    ensures LastRow(rows, n, (rows[i].pid, rows[i].start)) == Some(rows[i])
  {
    if i < n - 1 { OnlyRow(rows, n - 1, i); }
  }

  /** A row has its own entry, which names the window it names. */
  lemma RowHasEntry(s: Snapshot, i: nat)
    requires RowsApart(s) && i < |s.rows|
    ensures RowEntry(s, s.rows[i]) in EntriesOf(s)
  {
    var k := (s.rows[i].pid, s.rows[i].start);
    OnlyRow(s.rows, |s.rows|, i);
    LastRowMeans(s.unknownRows, |s.unknownRows|, k);
    TableFound(s, |Table(s)|, k);
    FindMeans(EntriesOf(s), k);
    hide Find, RowEntry, EntriesOf;
  }

  lemma UnknownHasEntry(s: Snapshot, i: nat)
    requires RowsApart(s) && i < |s.unknownRows|
    ensures UnknownEntry(s, s.unknownRows[i]) in EntriesOf(s)
  {
    var k := (s.unknownRows[i].pid, s.unknownRows[i].start);
    OnlyRow(s.unknownRows, |s.unknownRows|, i);
    TableFound(s, |Table(s)|, k);
    FindMeans(EntriesOf(s), k);
    hide Find, UnknownEntry, EntriesOf;
  }

  /** On positive absence no row, live or not to be observed, names the window as its parent. */
  lemma AbsentIsUnnamed(s: Snapshot, b: Binding)
    requires RowsApart(s) && PositiveAbsence(s, b)
    ensures forall r :: r in s.rows || r in s.unknownRows ==> !RowNames(r, b)
  {
    forall i | 0 <= i < |s.rows| ensures !RowNames(s.rows[i], b)
    {
      RowHasEntry(s, i);
      assert !Names(RowEntry(s, s.rows[i]), b);
    }
    forall i | 0 <= i < |s.unknownRows| ensures !RowNames(s.unknownRows[i], b)
    {
      UnknownHasEntry(s, i);
      assert !Names(UnknownEntry(s, s.unknownRows[i]), b);
    }
  }

  // ---------------------------------------------------------------- two looks

  datatype Outcome = Pass | Fail | CannotVerify

  /** `cannotVerify`: a source the verdicts need was not read. */
  predicate CannotBeVerified(s: Snapshot)
  {
    s.table.None? || !s.listenersRead || s.daemonPids.None? || (s.daemonPids.value != [] && s.health.Unreachable?)
  }

  /** A daemon that listens but has no start token to know it by. */
  predicate IdentityUnread(j: Judgement)
  {
    j.daemon.pid.Some? && !Nonempty(j.daemon.start)
  }

  /** What two looks must agree on: each connector, window and daemon, with its verdict, in any order. */
  datatype Signature = Signature(connectors: multiset<(nat, string, Verdict)>, windows: multiset<(nat, Verdict, multiset<nat>)>,
                                 daemon: (Option<nat>, Option<string>, Verdict))

  function ConnectorMarks(m: seq<Entry>): multiset<(nat, string, Verdict)>
  {
    multiset(seq(|m|, i requires 0 <= i < |m| => (m[i].pid, m[i].start, m[i].verdict)))
  }

  function WindowMarks(ws: seq<Window>): multiset<(nat, Verdict, multiset<nat>)>
  {
    multiset(seq(|ws|, i requires 0 <= i < |ws| => (ws[i].pid, ws[i].verdict, multiset(ws[i].connectors))))
  }

  function SignatureOf(j: Judgement): Signature
  {
    Signature(ConnectorMarks(j.connectors), WindowMarks(j.windows), (j.daemon.pid, j.daemon.start, j.daemon.verdict))
  }

  /** `deployCheck`, given the two looks and their judgements. */
  function DeployCheck(s1: Snapshot, j1: Judgement, s2: Snapshot, j2: Judgement): Outcome
  {
    if CannotBeVerified(s1) || CannotBeVerified(s2) || IdentityUnread(j1) || IdentityUnread(j2) then CannotVerify
    else if SignatureOf(j1) != SignatureOf(j2) || s1.mint != s2.mint then CannotVerify
    else if j2.failing == 0 && s2.mint == "secret" then Pass else Fail
  }

  /** Everything on the host, as one look saw it, runs what is installed. */
  ghost predicate AllCurrent(s: Snapshot, j: Judgement)
  {
    s.table.Some? && s.listenersRead && s.unknownRows == [] &&
    (forall e :: e in EntriesOf(s) ==> e.verdict == Current) &&
    (forall p :: p in Table(s) ==> ClassOf(s, p).NotRelay? || HasRow(s.rows, |s.rows|, (p.pid, p.start))) &&
    (forall i :: 0 <= i < |j.windows| ==> j.windows[i].verdict == Current && j.windows[i].connectors != []) &&
    j.daemon.verdict == Current && s.mint == "secret"
  }

  lemma {:induction false} NoFailingConnector(m: seq<Entry>)
    ensures FailingConnectors(m) == 0 <==> forall e :: e in m ==> e.verdict == Current
  {
    if m != [] {
      NoFailingConnector(m[..|m| - 1]);
      assert m == m[..|m| - 1] + [m[|m| - 1]];
    }
  }

  lemma {:induction false} NoFailingWindow(ws: seq<Window>)
    ensures FailingWindows(ws) == 0 <==> forall i :: 0 <= i < |ws| ==> ws[i].connectors != [] || ws[i].verdict == Current
  {
    if ws != [] { NoFailingWindow(ws[..|ws| - 1]); }
  }

  /** The two looks agree on each verdict. */
  lemma SameMarks(m: seq<Entry>, n: seq<Entry>)
    requires ConnectorMarks(m) == ConnectorMarks(n) && forall e :: e in m ==> e.verdict == Current
    ensures forall e :: e in n ==> e.verdict == Current
  {
    forall e | e in n ensures e.verdict == Current
    {
      var i :| 0 <= i < |n| && n[i] == e;
      var ns := seq(|n|, i requires 0 <= i < |n| => (n[i].pid, n[i].start, n[i].verdict));
      var ms := seq(|m|, i requires 0 <= i < |m| => (m[i].pid, m[i].start, m[i].verdict));
      assert ns[i] in multiset(ns) && multiset(ns) == multiset(ms);
      assert ns[i] in ms;
      var k :| 0 <= k < |ms| && ms[k] == ns[i];
      assert m[k] in m;
    }
  }

  lemma SameWindowMarks(vs: seq<Window>, ws: seq<Window>)
    requires WindowMarks(vs) == WindowMarks(ws) && forall i :: 0 <= i < |vs| ==> vs[i].connectors != []
    ensures forall i :: 0 <= i < |ws| ==> ws[i].connectors != []
  {
    forall i | 0 <= i < |ws| ensures ws[i].connectors != []
    {
      var ns := seq(|ws|, i requires 0 <= i < |ws| => (ws[i].pid, ws[i].verdict, multiset(ws[i].connectors)));
      var ms := seq(|vs|, i requires 0 <= i < |vs| => (vs[i].pid, vs[i].verdict, multiset(vs[i].connectors)));
      assert ns[i] in multiset(ns) && multiset(ns) == multiset(ms);
      var k :| 0 <= k < |ms| && ms[k] == ns[i];
      assert vs[k].connectors[0] in multiset(vs[k].connectors);
    }
  }

  /** No window with a connector, all of whose entries are current, reads worse; one without never reads current. */
  lemma WindowCurrent(s: Snapshot, b: Binding, w: Window)
    requires WindowJudged(s, b, w)
    ensures w.connectors == [] ==> w.verdict != Current
    ensures w.connectors != [] && (forall e :: e in EntriesOf(s) ==> e.verdict == Current) ==> w.verdict == Current
  {
    var owned :| JudgedAs(s, b, owned, w);
    OwnedVerdicts(owned);
    hide EntriesOf, Owns, Blind, Worst, KeysApart;
  }

  /** All entries current, every window with one: then no row was unobservable, and every process that may be a connector has its row. */
  lemma EntriesCover(s: Snapshot)
    requires forall e :: e in EntriesOf(s) ==> e.verdict == Current
    ensures s.unknownRows == []
    ensures forall p :: p in Table(s) ==> ClassOf(s, p).NotRelay? || HasRow(s.rows, |s.rows|, (p.pid, p.start))
  {
    var m := EntriesOf(s);
    if s.unknownRows != [] {
      var k := (s.unknownRows[0].pid, s.unknownRows[0].start);
      assert HasRow(s.unknownRows, |s.unknownRows|, k);
      EntryOfKey(s, k);
      hide *;
    }
    forall p | p in Table(s) && !ClassOf(s, p).NotRelay? ensures HasRow(s.rows, |s.rows|, (p.pid, p.start))
    {
      var k := (p.pid, p.start);
      assert exists i :: 0 <= i < |Table(s)| && (Table(s)[i].pid, Table(s)[i].start) == k && !ClassOf(s, Table(s)[i]).NotRelay?;
      EntryOfKey(s, k);
      hide *;
    }
  }

  lemma EntryOfKey(s: Snapshot, k: Key)
    requires forall e :: e in EntriesOf(s) ==> e.verdict == Current
    requires HasRow(s.unknownRows, |s.unknownRows|, k) || exists i :: 0 <= i < |Table(s)| && (Table(s)[i].pid, Table(s)[i].start) == k && !ClassOf(s, Table(s)[i]).NotRelay?
    ensures !HasRow(s.unknownRows, |s.unknownRows|, k) && HasRow(s.rows, |s.rows|, k)
  {
    NoneMissed(s, k);
    FindMeans(EntriesOf(s), k);
    CurrentMeansInstalled(s, Find(EntriesOf(s), k).value);
    hide Find, EntriesOf;
  }

  lemma LookCurrent(s: Snapshot, j: Judgement)
    requires Judged(s, j) && s.table.Some? && s.listenersRead && s.mint == "secret" && j.daemon.verdict == Current
    requires (forall e :: e in j.connectors ==> e.verdict == Current) && forall i :: 0 <= i < |j.windows| ==> j.windows[i].connectors != []
    ensures AllCurrent(s, j)
  {
    EntriesCover(s);
    forall i | 0 <= i < |j.windows| ensures j.windows[i].verdict == Current
    {
      WindowCurrent(s, s.bindings[i], j.windows[i]);
    }
    hide EntriesOf, WindowJudged, DaemonLine, Failing, HasRow;
  }

  /** With none failing, every entry, every window and the daemon are current, and every window has a connector. */
  lemma NoneFailing(s: Snapshot, j: Judgement)
    requires Judged(s, j) && j.failing == 0
    ensures (forall e :: e in j.connectors ==> e.verdict == Current) && (forall i :: 0 <= i < |j.windows| ==> j.windows[i].connectors != []) && j.daemon.verdict == Current
  {
    NoFailingConnector(j.connectors);
    NoFailingWindow(j.windows);
    forall i | 0 <= i < |j.windows| ensures j.windows[i].connectors != []
    {
      WindowCurrent(s, s.bindings[i], j.windows[i]);
    }
    hide EntriesOf, WindowJudged, DaemonLine, FailingConnectors, FailingWindows;
  }

  lemma AllCurrentFailsNone(s: Snapshot, j: Judgement)
    requires Judged(s, j) && AllCurrent(s, j)
    ensures j.failing == 0
  {
    NoFailingConnector(j.connectors);
    NoFailingWindow(j.windows);
    hide EntriesOf, WindowJudged, DaemonLine, FailingConnectors, FailingWindows, HasRow;
  }

  /**
    * The check passes exactly when both looks could be verified, saw the same connectors, windows and daemon, and in
    * each everything is current: every process that may be a connector has its row, every row and the daemon run what
    * is installed where they came from, no row was unobservable, every window has a connector.
    */
  lemma PassExactly(s1: Snapshot, j1: Judgement, s2: Snapshot, j2: Judgement)
    requires Judged(s1, j1) && Judged(s2, j2)
    ensures DeployCheck(s1, j1, s2, j2) == Pass <==>
            !CannotBeVerified(s1) && !CannotBeVerified(s2) && !IdentityUnread(j1) && !IdentityUnread(j2) &&
            SignatureOf(j1) == SignatureOf(j2) && AllCurrent(s1, j1) && AllCurrent(s2, j2)
  {
    if DeployCheck(s1, j1, s2, j2) == Pass {
      PassMeans(s1, j1, s2, j2);
      hide *;
    }
    if AllCurrent(s2, j2) { AllCurrentFailsNone(s2, j2); }
    hide Judged, SignatureOf, IdentityUnread;
  }

  lemma PassMeans(s1: Snapshot, j1: Judgement, s2: Snapshot, j2: Judgement)
    requires Judged(s1, j1) && Judged(s2, j2) && DeployCheck(s1, j1, s2, j2) == Pass
    ensures !CannotBeVerified(s1) && !CannotBeVerified(s2) && !IdentityUnread(j1) && !IdentityUnread(j2)
    ensures SignatureOf(j1) == SignatureOf(j2) && AllCurrent(s1, j1) && AllCurrent(s2, j2)
  {
    hide Judged, AllCurrent, ConnectorMarks, WindowMarks, IdentityUnread;
    NoneFailing(s2, j2);
    LookCurrent(s2, j2);
    SameMarks(j2.connectors, j1.connectors);
    SameWindowMarks(j2.windows, j1.windows);
    LookCurrent(s1, j1);
  }

  /** In a look where all is current, each live row's build and dependencies are those installed where it came from. */
  lemma RowsRunInstalled(s: Snapshot, j: Judgement)
    requires RowsApart(s) && AllCurrent(s, j)
    ensures forall r :: r in s.rows ==> var i := s.installed(r.dir);
              i.consistent && i.content == Some(r.loaded.build) && r.loaded.build != UNBUILT && i.depsKnown && i.deps == r.loaded.deps && Nonempty(i.deps)
  {
    forall r | r in s.rows
      ensures var i := s.installed(r.dir);
              i.consistent && i.content == Some(r.loaded.build) && r.loaded.build != UNBUILT && i.depsKnown && i.deps == r.loaded.deps && Nonempty(i.deps)
    {
      var n :| 0 <= n < |s.rows| && s.rows[n] == r;
      RowHasEntry(s, n);
      assert RowEntry(s, r).verdict == Current;
      hide EntriesOf, RowBinding, BoundAncestor;
    }
  }
}
