/** The fleet judgement. */
module Fleet {
  // One snapshot of processes, connector rows and window bindings, and what is said of every connector, every window
  // and the daemon. Maps keep insertion order, so they are sequences of entries here.

  import opened Wrappers

  datatype Verdict = Current | Stale | NoConnector | Unknown | Inconsistent

  function Severity(v: Verdict): nat
  {
    match v
    case Current => 0
    case Stale => 1
    case NoConnector => 2
    case Unknown => 3
    case Inconsistent => 4
  }

  /** `worstVerdict`: the first of the worst, over Current. */
  function Worst(vs: seq<Verdict>): Verdict
  {
    if vs == [] then Current
    else
      var w, v := Worst(vs[..|vs| - 1]), vs[|vs| - 1];
      if Severity(v) > Severity(w) then v else w
  }

  /** It is one of them, or Current of none, and none is worse. */
  lemma {:induction false} WorstIsMax(vs: seq<Verdict>)
    ensures vs == [] ==> Worst(vs) == Current
    ensures vs != [] ==> Worst(vs) in vs
    ensures forall v :: v in vs ==> Severity(v) <= Severity(Worst(vs))
  {
    if vs != [] {
      var before := vs[..|vs| - 1];
      WorstIsMax(before);
      assert vs == before + [vs[|vs| - 1]];
    }
  }

  // ---------------------------------------------------------------- the snapshot

  type Key = (nat, string)

  datatype Class = NotRelay | Connector(dir: string) | Unclear

  /** A process, with its class, and its class were it no listener. */
  datatype Proc = Proc(pid: nat, ppid: nat, start: string, class_: Class, ifNotListening: Class)

  datatype Loaded = Loaded(build: string, deps: Option<string>, depsState: Option<string>)

  datatype Installed = Installed(consistent: bool, content: Option<string>, deps: Option<string>, depsKnown: bool)

  datatype Row = Row(pid: nat, start: string, parent: Option<nat>, parentStart: Option<string>, loaded: Loaded, dir: string)

  datatype Binding = Binding(agent: Option<string>, pid: nat, start: string)

  datatype Health = Build(loaded: Loaded) | NoBuild | Unreachable

  datatype Snapshot = Snapshot(table: Option<seq<Proc>>, listenersRead: bool, rows: seq<Row>, unknownRows: seq<Row>, bindings: seq<Binding>,
                               daemonPids: Option<seq<nat>>, health: Health, mint: string, installed: string -> Installed)

  const UNBUILT := "unbuilt"
  const UTC_SUFFIX := " UTC"

  predicate Nonempty(t: Option<string>)
  {
    t.Some? && t.value != ""
  }

  /** `verdictForBuild`: what was loaded against what is installed. */
  function VerdictForBuild(l: Loaded, inst: Installed): Verdict
  {
    if !inst.consistent then Inconsistent
    else if l.build == UNBUILT then Unknown
    else if l.depsState != Some("known") || !Nonempty(l.deps) then Unknown
    else if !inst.depsKnown || !Nonempty(inst.deps) then Unknown
    else if inst.content == Some(l.build) && l.deps == inst.deps then Current
    else Stale
  }

  function Table(s: Snapshot): seq<Proc>
  {
    if s.table.None? then [] else s.table.value
  }

  /** The pid keys the process table. */
  predicate PidsApart(table: seq<Proc>)
  {
    forall i, j :: 0 <= i < j < |table| ==> table[i].pid != table[j].pid
  }

  /** The class the judgement goes by: nothing is classified while the listeners cannot be read. */
  function ClassOf(s: Snapshot, p: Proc): Class
  {
    if s.listenersRead then p.class_ else Unclear
  }

  // ---------------------------------------------------------------- bindings

  function {:induction false} ProcAt(table: seq<Proc>, pid: nat): Option<Proc>
  {
    if table == [] then None
    else if table[|table| - 1].pid == pid then Some(table[|table| - 1]) else ProcAt(table[..|table| - 1], pid)
  }

  function BindingAt(bs: seq<Binding>, k: Key): Option<Binding>
  {
    if bs == [] then None
    else if (bs[|bs| - 1].pid, bs[|bs| - 1].start) == k then Some(bs[|bs| - 1]) else BindingAt(bs[..|bs| - 1], k)
  }

  const MAX_DEPTH := 64

  /** The live binding of the process or of its nearest bound ancestor in the table. */
  function BoundAncestor(s: Snapshot, pid: nat, depth: nat): Option<Binding>
    decreases MAX_DEPTH - depth
  {
    var p := ProcAt(Table(s), pid);
    if p.None? || depth >= MAX_DEPTH then None
    else
      var b := BindingAt(s.bindings, (p.value.pid, p.value.start));
      if b.Some? then b else BoundAncestor(s, p.value.ppid, depth + 1)
  }

  // ---------------------------------------------------------------- the entries

  /** A fleet entry; its window is a pid and, where known, a start. */
  datatype Entry = Entry(pid: nat, start: string, agent: Option<string>, unbound: bool, connector: bool, window: Option<nat>, windowStart: Option<string>,
                         dir: Option<string>, hasRow: bool, verdict: Verdict)

  function KeyOf(e: Entry): Key
  {
    (e.pid, e.start)
  }

  /** A map's set: in place where the key is there, at the end otherwise. */
  function Put(m: seq<Entry>, e: Entry): seq<Entry>
  {
    if m == [] then [e] else if KeyOf(m[0]) == KeyOf(e) then [e] + m[1..] else [m[0]] + Put(m[1..], e)
  }

  function Find(m: seq<Entry>, k: Key): Option<Entry>
  {
    if m == [] then None else if KeyOf(m[0]) == k then Some(m[0]) else Find(m[1..], k)
  }

  function AgentOf(b: Option<Binding>): Option<string>
  {
    if b.None? then None else if b.value.agent.None? then Some("(unnamed)") else b.value.agent
  }

  /** The window a row names, or that of its process's nearest bound ancestor. */
  function RowBinding(s: Snapshot, r: Row, ancestors: bool): Option<Binding>
  {
    if r.parent.Some? && r.parentStart.Some? then BindingAt(s.bindings, (r.parent.value, r.parentStart.value))
    else if ancestors then BoundAncestor(s, r.pid, 0) else None
  }

  function RowEntry(s: Snapshot, r: Row): Entry
  {
    var b := RowBinding(s, r, true);
    Entry(r.pid, r.start, AgentOf(b), b.None?, true,
          if r.parent.Some? then r.parent else if b.Some? then Some(b.value.pid) else None,
          if r.parent.Some? then r.parentStart else if b.Some? then Some(b.value.start) else None,
          Some(r.dir), true, VerdictForBuild(r.loaded, s.installed(r.dir)))
  }

  function UnknownEntry(s: Snapshot, r: Row): Entry
  {
    var b := RowBinding(s, r, false);
    Entry(r.pid, r.start, AgentOf(b), b.None?, true, r.parent, if r.parent.Some? then r.parentStart else None, Some(r.dir), true, Unknown)
  }

  function ProcEntry(s: Snapshot, p: Proc): Entry
  {
    var b, c := BoundAncestor(s, p.pid, 0), ClassOf(s, p);
    Entry(p.pid, p.start, AgentOf(b), b.None?, c.Connector?, if b.Some? then Some(b.value.pid) else None, if b.Some? then Some(b.value.start) else None,
          if c.Connector? then Some(c.dir) else None, false, Unknown)
  }

  function AfterRows(s: Snapshot, n: nat): seq<Entry>
    requires n <= |s.rows|
  {
    if n == 0 then [] else Put(AfterRows(s, n - 1), RowEntry(s, s.rows[n - 1]))
  }

  function AfterUnknown(s: Snapshot, n: nat): seq<Entry>
    requires n <= |s.unknownRows|
  {
    if n == 0 then AfterRows(s, |s.rows|) else Put(AfterUnknown(s, n - 1), UnknownEntry(s, s.unknownRows[n - 1]))
  }

  function AfterTable(s: Snapshot, n: nat): seq<Entry>
    requires n <= |Table(s)|
  {
    if n == 0 then AfterUnknown(s, |s.unknownRows|)
    else
      var m, p := AfterTable(s, n - 1), Table(s)[n - 1];
      if Find(m, (p.pid, p.start)).Some? || ClassOf(s, p).NotRelay? then m else Put(m, ProcEntry(s, p))
  }

  /** Every entry: the rows, the rows that cannot be observed, then the processes without a row that may be connectors. */
  function EntriesOf(s: Snapshot): seq<Entry>
  {
    AfterTable(s, |Table(s)|)
  }

  predicate KeysApart(m: seq<Entry>)
  {
    forall i, j :: 0 <= i < j < |m| ==> KeyOf(m[i]) != KeyOf(m[j])
  }

  lemma {:induction false} PutFinds(m: seq<Entry>, e: Entry, k: Key)
    ensures Find(Put(m, e), k) == if k == KeyOf(e) then Some(e) else Find(m, k)
  {
    if m != [] { PutFinds(m[1..], e, k); }
  }

  lemma {:induction false} FindMeans(m: seq<Entry>, k: Key)
    ensures Find(m, k).None? <==> forall i :: 0 <= i < |m| ==> KeyOf(m[i]) != k
    ensures Find(m, k).Some? ==> Find(m, k).value in m && KeyOf(Find(m, k).value) == k
  {
    if m != [] { FindMeans(m[1..], k); }
  }

  lemma {:induction false} InIsFound(m: seq<Entry>, e: Entry)
    requires KeysApart(m)
    ensures e in m <==> Find(m, KeyOf(e)) == Some(e)
  {
    FindMeans(m, KeyOf(e));
  }

  lemma {:induction false} PutApart(m: seq<Entry>, e: Entry)
    requires KeysApart(m)
    ensures KeysApart(Put(m, e))
    ensures forall f :: f in Put(m, e) ==> f == e || f in m
  {
    if m != [] {
      PutApart(m[1..], e);
      assert forall f :: f in Put(m[1..], e) ==> KeyOf(f) == KeyOf(e) || f in m[1..];
    }
  }

  // ---------------------------------------------------------------- what the entries say

  predicate HasRow(rows: seq<Row>, n: nat, k: Key)
    requires n <= |rows|
  {
    exists i :: 0 <= i < n && (rows[i].pid, rows[i].start) == k
  }

  /** The last of the first `n` rows of a key. */
  function LastRow(rows: seq<Row>, n: nat, k: Key): Option<Row>
    requires n <= |rows|
  {
    if n == 0 then None else if (rows[n - 1].pid, rows[n - 1].start) == k then Some(rows[n - 1]) else LastRow(rows, n - 1, k)
  }

  lemma {:induction false} LastRowMeans(rows: seq<Row>, n: nat, k: Key)
    requires n <= |rows|
    ensures LastRow(rows, n, k).Some? <==> HasRow(rows, n, k)
    ensures LastRow(rows, n, k).Some? ==> LastRow(rows, n, k).value in rows && (LastRow(rows, n, k).value.pid, LastRow(rows, n, k).value.start) == k
  {
    if n > 0 {
      LastRowMeans(rows, n - 1, k);
      assert HasRow(rows, n - 1, k) ==> HasRow(rows, n, k);
    }
  }

  /** The first of the first `n` processes of a key that is not known to be no relay. */
  function FirstSuspect(s: Snapshot, n: nat, k: Key): Option<Proc>
    requires n <= |Table(s)|
  {
    if n == 0 then None
    else
      var before, p := FirstSuspect(s, n - 1, k), Table(s)[n - 1];
      if before.Some? then before else if (p.pid, p.start) == k && !ClassOf(s, p).NotRelay? then Some(p) else None
  }

  lemma {:induction false} FirstSuspectMeans(s: Snapshot, n: nat, k: Key)
    requires n <= |Table(s)|
    ensures FirstSuspect(s, n, k).None? <==> forall i :: 0 <= i < n && (Table(s)[i].pid, Table(s)[i].start) == k ==> ClassOf(s, Table(s)[i]).NotRelay?
    ensures FirstSuspect(s, n, k).Some? ==> FirstSuspect(s, n, k).value in Table(s) && !ClassOf(s, FirstSuspect(s, n, k).value).NotRelay? &&
                                            (FirstSuspect(s, n, k).value.pid, FirstSuspect(s, n, k).value.start) == k
  {
    if n > 0 { FirstSuspectMeans(s, n - 1, k); }
  }

  lemma EntryKeys(s: Snapshot, r: Row)
    ensures KeyOf(RowEntry(s, r)) == (r.pid, r.start) && KeyOf(UnknownEntry(s, r)) == (r.pid, r.start)
  {
  }

  lemma {:induction false} RowsFound(s: Snapshot, n: nat, k: Key)
    requires n <= |s.rows|
    ensures Find(AfterRows(s, n), k) == var r := LastRow(s.rows, n, k); if r.Some? then Some(RowEntry(s, r.value)) else None
  {
    if n > 0 {
      RowsFound(s, n - 1, k);
      EntryKeys(s, s.rows[n - 1]);
      hide RowEntry, Put, Find;
      PutFinds(AfterRows(s, n - 1), RowEntry(s, s.rows[n - 1]), k);
    }
  }

  /** What the rows give under a key: the last row that cannot be observed, or else the last live row. */
  function OfRows(s: Snapshot, n: nat, k: Key): Option<Entry>
    requires n <= |s.unknownRows|
  {
    var u, r := LastRow(s.unknownRows, n, k), LastRow(s.rows, |s.rows|, k);
    if u.Some? then Some(UnknownEntry(s, u.value)) else if r.Some? then Some(RowEntry(s, r.value)) else None
  }

  lemma {:induction false} UnknownFound(s: Snapshot, n: nat, k: Key)
    requires n <= |s.unknownRows|
    ensures Find(AfterUnknown(s, n), k) == OfRows(s, n, k)
  {
    if n == 0 {
      RowsFound(s, |s.rows|, k);
    } else {
      UnknownFound(s, n - 1, k);
      EntryKeys(s, s.unknownRows[n - 1]);
      hide RowEntry, UnknownEntry, Put, Find, AfterRows;
      PutFinds(AfterUnknown(s, n - 1), UnknownEntry(s, s.unknownRows[n - 1]), k);
    }
  }

  /** What a key has: what the rows give it, or else the first process of it that may be a connector. */
  function OfKey(s: Snapshot, n: nat, k: Key): Option<Entry>
    requires n <= |Table(s)|
  {
    var r, p := OfRows(s, |s.unknownRows|, k), FirstSuspect(s, n, k);
    if r.Some? then r else if p.Some? then Some(ProcEntry(s, p.value)) else None
  }

  lemma {:induction false} TableFound(s: Snapshot, n: nat, k: Key)
    requires n <= |Table(s)|
    ensures Find(AfterTable(s, n), k) == OfKey(s, n, k)
  {
    if n == 0 {
      UnknownFound(s, |s.unknownRows|, k);
    } else {
      var p := Table(s)[n - 1];
      TableFound(s, n - 1, k);
      ProcEntryKey(s, p);
      hide OfRows, ProcEntry, Put, Find, AfterUnknown;
      if Find(AfterTable(s, n - 1), (p.pid, p.start)).None? && !ClassOf(s, p).NotRelay? {
        PutFinds(AfterTable(s, n - 1), ProcEntry(s, p), k);
      } else if (p.pid, p.start) == k {
        assert Find(AfterTable(s, n - 1), k).Some? || ClassOf(s, p).NotRelay?;
      }
    }
  }

  lemma {:induction false} AfterRowsApart(s: Snapshot, n: nat)
    requires n <= |s.rows|
    ensures KeysApart(AfterRows(s, n))
  {
    if n > 0 {
      AfterRowsApart(s, n - 1);
      PutApart(AfterRows(s, n - 1), RowEntry(s, s.rows[n - 1]));
      hide RowEntry, KeysApart, Put;
    }
  }

  lemma {:induction false} UnknownApart(s: Snapshot, n: nat)
    requires n <= |s.unknownRows|
    ensures KeysApart(AfterUnknown(s, n))
  {
    if n == 0 {
      AfterRowsApart(s, |s.rows|);
    } else {
      UnknownApart(s, n - 1);
      PutApart(AfterUnknown(s, n - 1), UnknownEntry(s, s.unknownRows[n - 1]));
      hide UnknownEntry, KeysApart, Put;
    }
  }

  lemma {:induction false} TableApart(s: Snapshot, n: nat)
    requires n <= |Table(s)|
    ensures KeysApart(AfterTable(s, n))
  {
    if n == 0 {
      UnknownApart(s, |s.unknownRows|);
    } else {
      TableApart(s, n - 1);
      PutApart(AfterTable(s, n - 1), ProcEntry(s, Table(s)[n - 1]));
      hide ProcEntry, KeysApart, Put, Find;
    }
  }

  lemma ProcEntryKey(s: Snapshot, p: Proc)
    ensures KeyOf(ProcEntry(s, p)) == (p.pid, p.start)
  {
  }

  /**
    * No connector is missed: each key has at most one entry, and has one exactly when a row has it, live or not to be
    * observed, or a process has it that is not known to be no relay.
    */
  lemma NoneMissed(s: Snapshot, k: Key)
    ensures KeysApart(EntriesOf(s))
    ensures Find(EntriesOf(s), k).Some? <==>
            HasRow(s.rows, |s.rows|, k) || HasRow(s.unknownRows, |s.unknownRows|, k) ||
            exists i :: 0 <= i < |Table(s)| && (Table(s)[i].pid, Table(s)[i].start) == k && !ClassOf(s, Table(s)[i]).NotRelay?
  {
    TableFound(s, |Table(s)|, k);
    TableApart(s, |Table(s)|);
    LastRowMeans(s.rows, |s.rows|, k);
    LastRowMeans(s.unknownRows, |s.unknownRows|, k);
    FirstSuspectMeans(s, |Table(s)|, k);
    hide RowEntry, UnknownEntry, ProcEntry;
  }

  /** What a current verdict rests on: a live row that can be observed, whose build and dependencies are those installed where it came from. */
  lemma CurrentMeansInstalled(s: Snapshot, e: Entry)
    requires e in EntriesOf(s) && e.verdict == Current
    ensures !HasRow(s.unknownRows, |s.unknownRows|, KeyOf(e))
    ensures exists r :: r in s.rows && (r.pid, r.start) == KeyOf(e) && e.dir == Some(r.dir) &&
                        var i := s.installed(r.dir);
                        i.consistent && i.content == Some(r.loaded.build) && r.loaded.build != UNBUILT && i.depsKnown && i.deps == r.loaded.deps && Nonempty(i.deps)
  {
    var k := KeyOf(e);
    TableFound(s, |Table(s)|, k);
    TableApart(s, |Table(s)|);
    InIsFound(EntriesOf(s), e);
    LastRowMeans(s.rows, |s.rows|, k);
    LastRowMeans(s.unknownRows, |s.unknownRows|, k);
    hide Find, RowBinding, BoundAncestor;
    assert LastRow(s.rows, |s.rows|, k).value in s.rows;
  }
}
