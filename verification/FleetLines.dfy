/** The lines of windows and of processes without a row. */
module FleetLines {
  // Which window is seen, what it owns, and which verdict that makes, told of the process table and the listeners.

  import opened Fleet
  import opened FleetVerdicts
  import opened FleetWindows
  import opened Wrappers

  /** The worst of many: inconsistent before unknown, that before no connector, that before stale, and current only of current ones. */
  lemma WorstExactly(vs: seq<Verdict>)
    ensures match Worst(vs)
            case Inconsistent => Inconsistent in vs
            case Unknown => Unknown in vs && Inconsistent !in vs
            case NoConnector => NoConnector in vs && Unknown !in vs && Inconsistent !in vs
            case Stale => Stale in vs && forall v :: v in vs ==> v == Stale || v == Current
            case Current => forall v :: v in vs ==> v == Current
  {
    WorstIsMax(vs);
    hide Worst;
  }

  /** The window is in the process table, which was read, as the process started at the very UTC time it was bound at. */
  ghost predicate WindowSeen(s: Snapshot, b: Binding)
  {
    (exists time: string :: b.start == time + " UTC") && s.table.Some? && exists p :: p in s.table.value && p.pid == b.pid && p.start == b.start
  }

  lemma BlindExactly(s: Snapshot, b: Binding)
    requires PidsApart(Table(s))
    ensures Blind(s, b) <==> !WindowSeen(s, b)
  {
    if Utc(b.start) { assert b.start == b.start[..|b.start| - 4] + " UTC"; }
    if time: string :| b.start == time + " UTC" { assert b.start[|b.start| - 4..] == " UTC"; }
    ProcAtMeans(Table(s), b.pid);
    forall p | p in Table(s) && p.pid == b.pid ensures ProcAt(Table(s), b.pid) == Some(p) { OneProc(Table(s), p, ProcAt(Table(s), b.pid).value); }
    hide ProcAt, PidsApart;
  }

  /** An entry of the window: shown under it, or, where the window is seen, of a process below it. */
  ghost predicate IsIts(s: Snapshot, b: Binding, e: Entry)
  {
    e in EntriesOf(s) &&
    ((e.window == Some(b.pid) && e.windowStart == Some(b.start)) ||
     (WindowSeen(s, b) && exists p :: p in s.table.value && Below(s.table.value, b.pid, p) && p.pid == e.pid && p.start == e.start))
  }

  ghost predicate Any(s: Snapshot, b: Binding, v: Verdict)
  {
    exists e :: IsIts(s, b, e) && e.verdict == v
  }

  lemma OwnsExactly(s: Snapshot, b: Binding, e: Entry)
    requires PidsApart(Table(s))
    ensures e in EntriesOf(s) && Owns(s, b, e) <==> IsIts(s, b, e)
  {
    BlindExactly(s, b);
    hide Blind, Below, EntriesOf, PidsApart;
  }

  /**
    * A window's line: inconsistent or unknown or stale of an entry of it that is and none worse, current where all are,
    * and where it has none no connector if the window is seen and unknown if it is not; its connectors are the pids of
    * its entries, each entry once.
    */
  lemma WindowExactly(s: Snapshot, b: Binding, w: Window)
    requires PidsApart(Table(s)) && WindowJudged(s, b, w)
    ensures w.agent == b.agent && w.pid == b.pid
    ensures exists owned: seq<Entry> :: KeysApart(owned) && (forall e :: e in owned <==> IsIts(s, b, e)) && |w.connectors| == |owned| &&
                            forall i :: 0 <= i < |owned| ==> w.connectors[i] == owned[i].pid
    ensures w.verdict == if Any(s, b, Inconsistent) then Inconsistent
                         else if Any(s, b, Unknown) then Unknown
                         else if Any(s, b, Stale) then Stale
                         else if Any(s, b, Current) then Current
                         else if WindowSeen(s, b) then NoConnector else Unknown
  {
    var owned: seq<Entry> :| JudgedAs(s, b, owned, w);
    OwnedExactly(s, b, owned, w);
    OwnedVerdict(s, b, owned);
    BlindExactly(s, b);
    hide JudgedAs, IsIts, Any, WindowSeen, Blind, Worst, Verdicts, KeysApart, PidsApart;
  }

  lemma OwnedExactly(s: Snapshot, b: Binding, owned: seq<Entry>, w: Window)
    requires PidsApart(Table(s)) && JudgedAs(s, b, owned, w)
    ensures w.agent == b.agent && w.pid == b.pid && KeysApart(owned) && (forall e :: e in owned <==> IsIts(s, b, e))
    ensures |w.connectors| == |owned| && forall i :: 0 <= i < |owned| ==> w.connectors[i] == owned[i].pid
    ensures w.verdict == if owned != [] then Worst(Verdicts(owned)) else if Blind(s, b) then Unknown else NoConnector
  {
    forall e ensures e in owned <==> IsIts(s, b, e) { OwnsExactly(s, b, e); }
    hide IsIts, Owns, Blind, Worst, Verdicts, PidsApart, EntriesOf;
  }

  lemma OwnedVerdict(s: Snapshot, b: Binding, owned: seq<Entry>)
    requires forall e :: e in owned <==> IsIts(s, b, e)
    ensures owned == [] ==> forall v :: !Any(s, b, v)
    ensures owned != [] ==> Worst(Verdicts(owned)) == if Any(s, b, Inconsistent) then Inconsistent
                                                      else if Any(s, b, Unknown) then Unknown
                                                      else if Any(s, b, Stale) then Stale else Current
    ensures owned != [] ==> Any(s, b, Inconsistent) || Any(s, b, Unknown) || Any(s, b, Stale) || Any(s, b, Current)
    ensures forall v :: v in Verdicts(owned) <==> Any(s, b, v)
  {
    NeverNoConnector(s);
    VerdictsOf(owned);
    WorstExactly(Verdicts(owned));
    forall v ensures v in Verdicts(owned) <==> Any(s, b, v)
    {
      hide EntriesOf, Below, WindowSeen;
    }
    assert NoConnector !in Verdicts(owned) by { hide Verdicts, WindowSeen, EntriesOf; }
    hide IsIts, Any, Worst;
    if owned != [] {
      assert owned[0] in owned && owned[0].verdict in Verdicts(owned);
    } else {
      assert Verdicts(owned) == [];
    }
  }

  lemma VerdictsOf(m: seq<Entry>)
    ensures forall v :: v in Verdicts(m) <==> exists e :: e in m && e.verdict == v
    ensures m == [] ==> Verdicts(m) == []
  {
    forall v ensures v in Verdicts(m) <==> exists e :: e in m && e.verdict == v
    {
      if v in Verdicts(m) { var i :| 0 <= i < |m| && Verdicts(m)[i] == v; assert m[i] in m; }
      if e :| e in m && e.verdict == v { var i :| 0 <= i < |m| && m[i] == e; assert Verdicts(m)[i] == v; }
    }
  }

  lemma {:induction false} OneSuspect(s: Snapshot, n: nat, p: Proc)
    requires PidsApart(Table(s)) && p in Table(s) && n <= |Table(s)|
    ensures FirstSuspect(s, n, (p.pid, p.start)).Some? ==> FirstSuspect(s, n, (p.pid, p.start)) == Some(p)
  {
    FirstSuspectMeans(s, n, (p.pid, p.start));
    var f := FirstSuspect(s, n, (p.pid, p.start));
    hide FirstSuspect, ClassOf;
    if f.Some? { OneProc(Table(s), p, f.value); }
  }

  /**
    * A process without a row has an entry exactly when it may be a connector: classified as one or not to be told, or
    * any process at all while the listeners could not be read. It is shown as a connector of an install only when it is
    * classified as one, and its verdict is unknown.
    */
  lemma SuspectExactly(s: Snapshot, p: Proc)
    requires PidsApart(Table(s)) && p in Table(s)
    requires !HasRow(s.rows, |s.rows|, (p.pid, p.start)) && !HasRow(s.unknownRows, |s.unknownRows|, (p.pid, p.start))
    ensures (exists e :: e in EntriesOf(s) && e.pid == p.pid && e.start == p.start) <==> (s.listenersRead ==> p.class_ != NotRelay)
    ensures forall e :: e in EntriesOf(s) && e.pid == p.pid && e.start == p.start ==>
              !e.hasRow && e.verdict == Unknown && (e.connector <==> s.listenersRead && p.class_.Connector?) &&
              e.dir == if s.listenersRead && p.class_.Connector? then Some(p.class_.dir) else None
  {
    var k := (p.pid, p.start);
    TableFound(s, |Table(s)|, k);
    TableApart(s, |Table(s)|);
    LastRowMeans(s.rows, |s.rows|, k);
    LastRowMeans(s.unknownRows, |s.unknownRows|, k);
    FirstSuspectMeans(s, |Table(s)|, k);
    OneSuspect(s, |Table(s)|, p);
    FindMeans(EntriesOf(s), k);
    forall e | e in EntriesOf(s) && KeyOf(e) == k ensures Find(EntriesOf(s), k) == Some(e) { InIsFound(EntriesOf(s), e); }
    var m := EntriesOf(s);
    assert (exists e :: e in m && KeyOf(e) == k) <==> Find(m, k).Some?;
    var i :| 0 <= i < |Table(s)| && Table(s)[i] == p;
    assert FirstSuspect(s, |Table(s)|, k).Some? <==> !ClassOf(s, p).NotRelay? by { hide EntriesOf, Find, PidsApart; }
    hide Find, BoundAncestor, EntriesOf, FirstSuspect, PidsApart, HasRow, LastRow;
  }
}
