/** The log's tailer. */
module DoorbellTail {
  // It follows the log by path while the job appends to it and compactions replace it. It yields no intent twice,
  // and of what was due when a poll looked it misses exactly what replacements took away: the intents of a replaced
  // file that were not kept, are not in the file the tailer has open, and were not yielded. While every replaced file
  // is the one it has open there are none.

  import opened Canon
  import opened DoorbellLog
  import opened DoorbellSchema
  import opened DoorbellBytes
  import opened Wrappers

  // ---------------------------------------------------------------- files and the tailer

  /** Files by inode; the path names one of them, and a replaced one can still be read. */
  datatype Files = Files(bytes: map<nat, seq<Byte>>, path: nat)

  /** What the tailer keeps; `isOpen` is false before its first poll. */
  datatype Tail = Tail(isOpen: bool, ino: nat, offset: nat, partial: seq<Byte>, seen: set<Str>)

  const NEW_TAIL := Tail(false, 0, 0, [], {})

  /** The intents of some lines that are not yet seen, each once, in order. */
  function NewIntents(codec: Codec, lines: seq<seq<Byte>>, seen: set<Str>): (r: (seq<IntentRec>, set<Str>))
  {
    if lines == [] then ([], seen)
    else
      var p := NewIntents(codec, lines[..|lines| - 1], seen);
      var r := codec.parse(lines[|lines| - 1]);
      if r.Some? && r.value.Intent? && r.value.i.id !in p.1 then (p.0 + [r.value.i], p.1 + {r.value.i.id}) else p
  }

  function Open(t: Tail, fs: Files): Tail
  {
    t.(isOpen := true, ino := fs.path, offset := 0, partial := [])
  }

  function Unended(text: seq<Byte>): seq<Byte>
  {
    text[|Terminated(text)|..]
  }

  /** Read the open file to its end: whole lines are yielded, an unterminated one waits. */
  function Drain(codec: Codec, t: Tail, bytes: seq<Byte>): (Tail, seq<IntentRec>)
  {
    if |bytes| <= t.offset then (t, [])
    else
      var text := t.partial + bytes[t.offset..];
      var n := NewIntents(codec, LinesOf(text), t.seen);
      (t.(offset := |bytes|, partial := Unended(text), seen := n.1), n.0)
  }

  function IdsIn(codec: Codec, lines: seq<seq<Byte>>): set<Str>
  {
    set l | l in lines && codec.parse(l).Some? && codec.parse(l).value.Intent? :: codec.parse(l).value.i.id
  }

  /** The ids of the intents whose whole line is in the file. */
  function Logged(codec: Codec, bytes: seq<Byte>): set<Str>
  {
    IdsIn(codec, LinesOf(bytes))
  }

  // ---------------------------------------------------------------- what a drain does

  predicate DistinctIntents(y: seq<IntentRec>)
  {
    forall j, k :: 0 <= j < k < |y| ==> y[j].id != y[k].id
  }

  function IdsOf(y: seq<IntentRec>): set<Str>
  {
    set i | i in y :: i.id
  }

  lemma {:induction false} NewIntentsMeans(codec: Codec, lines: seq<seq<Byte>>, seen: set<Str>)
    ensures var n := NewIntents(codec, lines, seen);
            n.1 == seen + IdsIn(codec, lines) && DistinctIntents(n.0) && IdsOf(n.0) == n.1 - seen
  {
    if lines == [] {
      assert IdsIn(codec, []) == {} && IdsOf([]) == {};
    } else {
      var q, l := lines[..|lines| - 1], lines[|lines| - 1];
      NewIntentsMeans(codec, q, seen);
      assert lines == q + [l];
      IdsSnoc(codec, q, l);
      var p, r := NewIntents(codec, q, seen), codec.parse(l);
      if r.Some? && r.value.Intent? && r.value.i.id !in p.1 {
        assert IdsOf(p.0 + [r.value.i]) == IdsOf(p.0) + {r.value.i.id};
        forall k | 0 <= k < |p.0| ensures p.0[k].id != r.value.i.id { assert p.0[k].id in IdsOf(p.0); }
      }
    }
  }

  lemma IdsSnoc(codec: Codec, lines: seq<seq<Byte>>, l: seq<Byte>)
    ensures var r := codec.parse(l);
            IdsIn(codec, lines + [l]) == IdsIn(codec, lines) + if r.Some? && r.value.Intent? then {r.value.i.id} else {}
  {
    assert forall x :: x in lines + [l] <==> x in lines || x == l;
  }

  lemma IdsConcat(codec: Codec, x: seq<seq<Byte>>, y: seq<seq<Byte>>)
    ensures IdsIn(codec, x + y) == IdsIn(codec, x) + IdsIn(codec, y)
  {
    assert forall l :: l in x + y <==> l in x || l in y;
  }

  /** The tailer holds what it has read of its file: the unterminated rest of it, and every whole line seen. */
  ghost predicate Reading(codec: Codec, t: Tail, bytes: seq<Byte>)
  {
    t.offset <= |bytes| && t.partial == Unended(bytes[..t.offset]) && Logged(codec, bytes[..t.offset]) <= t.seen
  }

  lemma {:induction false} UnendedHasNoLine(text: seq<Byte>)
    ensures text == Terminated(text) + Unended(text) && NEWLINE !in Unended(text)
  {
    if text != [] && text[|text| - 1] != NEWLINE {
      var p := text[..|text| - 1];
      UnendedHasNoLine(p);
      assert Unended(text) == Unended(p) + [text[|text| - 1]];
    }
  }

  /** The lines read so far, then those of the waiting part and the new bytes, are the lines of it all. */
  lemma LinesResume(x: seq<Byte>, y: seq<Byte>)
    ensures LinesOf(x + y) == LinesOf(x) + LinesOf(Unended(x) + y) && Unended(x + y) == Unended(Unended(x) + y)
  {
    hide LinesOf;
    var t, u := Terminated(x), Unended(x);
    UnendedHasNoLine(x);
    hide Terminated;
    Assoc(t, u, y);
    LinesConcat(t, u + y);
    LinesConcat(t, u);
    NoLine(u);
    assert LinesOf(t) + [] == LinesOf(t);
    if t == [] { assert t + (u + y) == u + y; } else { TerminatedAfter(t, u + y); }
  }

  lemma DrainReads(codec: Codec, t: Tail, bytes: seq<Byte>)
    requires Reading(codec, t, bytes)
    ensures var d := Drain(codec, t, bytes);
            Reading(codec, d.0, bytes) && d.0.offset == |bytes| && Logged(codec, bytes) <= d.0.seen &&
            d.0.seen == t.seen + IdsOf(d.1) && DistinctIntents(d.1) && IdsOf(d.1) !! t.seen &&
            d.0.isOpen == t.isOpen && d.0.ino == t.ino &&
            d.0.seen <= t.seen + Logged(codec, bytes)
  {
    hide LinesOf, Terminated, NewIntents, IdsIn;
    if |bytes| <= t.offset {
      assert bytes[..t.offset] == bytes;
      assert IdsOf([]) == {};
    } else {
      var head, rest := bytes[..t.offset], bytes[t.offset..];
      assert bytes == head + rest && bytes[..|bytes|] == bytes;
      LinesResume(head, rest);
      IdsConcat(codec, LinesOf(head), LinesOf(Unended(head) + rest));
      NewIntentsMeans(codec, LinesOf(t.partial + rest), t.seen);
    }
  }

  // ---------------------------------------------------------------- the writer and the tailer, interleaved

  /** Where a poll stands: before it, its file open, the path looked at, the file drained, the path's file opened anew. */
  datatype Phase = Idle | Ready | Looked(at: nat) | Drained | Switched

  /**
    * `yielded` is everything polls have returned; `due` the ids logged since the tailer first opened the log,
    * with those already there; `owed` what was due when the present, or the last, poll looked at the path; `lost`
    * what replacements took away.
    */
  datatype Sys = Sys(fs: Files, t: Tail, phase: Phase, yielded: seq<IntentRec>, due: set<Str>, owed: set<Str>, lost: set<Str>)

  function Held(s: Sys): seq<Byte>
    requires s.t.ino in s.fs.bytes
  {
    s.fs.bytes[s.t.ino]
  }

  function Current(s: Sys): seq<Byte>
    requires s.fs.path in s.fs.bytes
  {
    s.fs.bytes[s.fs.path]
  }

  /** The job appends some bytes to the file the path names. */
  predicate AppendStep(codec: Codec, s: Sys, s': Sys, chunk: seq<Byte>)
  {
    s.fs.path in s.fs.bytes &&
    var now := Current(s) + chunk;
    s' == s.(fs := s.fs.(bytes := s.fs.bytes[s.fs.path := now]), due := if s.t.isOpen then s.due + Logged(codec, now) else {})
  }

  /** What a replacement takes away: logged only in a file the tailer has not read and now never will. */
  function Lost(codec: Codec, s: Sys, contents: seq<Byte>): set<Str>
    requires s.fs.path in s.fs.bytes && (s.t.isOpen ==> s.t.ino in s.fs.bytes)
  {
    if s.t.isOpen then Logged(codec, Current(s)) - Logged(codec, contents) - Logged(codec, Held(s)) - s.t.seen else {}
  }

  /** A compaction renames a new file into place, whose intents were all in the old one, which had no torn tail. */
  predicate ReplaceStep(codec: Codec, s: Sys, s': Sys, ino: nat, contents: seq<Byte>)
  {
    s.fs.path in s.fs.bytes && (s.t.isOpen ==> s.t.ino in s.fs.bytes) && ino !in s.fs.bytes && Unended(Current(s)) == [] &&
    Logged(codec, contents) <= Logged(codec, Current(s)) &&
    s' == s.(fs := Files(s.fs.bytes[ino := contents], ino), lost := s.lost + Lost(codec, s, contents))
  }

  predicate OpenStep(codec: Codec, s: Sys, s': Sys)
  {
    s.phase == Idle && s.fs.path in s.fs.bytes &&
    s' == if s.t.isOpen then s.(phase := Ready) else s.(phase := Ready, t := Open(s.t, s.fs), due := Logged(codec, Current(s)))
  }

  predicate LookStep(s: Sys, s': Sys)
  {
    s.phase == Ready && s' == s.(phase := Looked(s.fs.path), owed := s.due)
  }

  predicate DrainStep(codec: Codec, s: Sys, s': Sys)
  {
    s.phase.Looked? && s.t.ino in s.fs.bytes &&
    var d := Drain(codec, s.t, Held(s));
    s' == s.(t := d.0, yielded := s.yielded + d.1, phase := if s.phase.at != s.t.ino then Drained else Idle)
  }

  predicate SwitchStep(s: Sys, s': Sys)
  {
    s.phase == Drained && s' == s.(t := Open(s.t, s.fs), phase := Switched)
  }

  predicate LastStep(codec: Codec, s: Sys, s': Sys)
  {
    s.phase == Switched && s.t.ino in s.fs.bytes &&
    var d := Drain(codec, s.t, Held(s));
    s' == s.(t := d.0, yielded := s.yielded + d.1, phase := Idle)
  }

  ghost predicate Next(codec: Codec, s: Sys, s': Sys)
  {
    (exists chunk :: AppendStep(codec, s, s', chunk)) || (exists ino, contents :: ReplaceStep(codec, s, s', ino, contents)) ||
    OpenStep(codec, s, s') || LookStep(s, s') || DrainStep(codec, s, s') || SwitchStep(s, s') || LastStep(codec, s, s')
  }

  predicate Initial(s: Sys)
  {
    s.t == NEW_TAIL && s.phase == Idle && s.fs.path in s.fs.bytes && s.yielded == [] && s.due == {} && s.owed == {} && s.lost == {}
  }

  // ---------------------------------------------------------------- the invariant

  /** What a poll in progress still guarantees of what was due when it looked. */
  predicate Owes(codec: Codec, s: Sys)
    requires s.t.isOpen ==> s.t.ino in s.fs.bytes
  {
    match s.phase
    case Idle => s.owed <= s.t.seen + s.lost
    case Ready => s.t.isOpen
    case Looked(p) =>
      s.t.isOpen && s.owed <= s.due &&
      if p == s.t.ino then s.owed <= s.t.seen + Logged(codec, Held(s)) + s.lost else s.fs.path != s.t.ino
    case Drained =>
      s.t.isOpen && s.owed <= s.due && s.fs.path != s.t.ino && Logged(codec, Held(s)) <= s.t.seen
    case Switched => s.t.isOpen && s.owed <= s.t.seen + Logged(codec, Held(s)) + s.lost
  }

  ghost predicate Inv(codec: Codec, s: Sys)
  {
    s.fs.path in s.fs.bytes && (s.t.isOpen ==> s.t.ino in s.fs.bytes && Reading(codec, s.t, Held(s))) &&
    (!s.t.isOpen ==> s.due == {} && s.owed == {} && s.lost == {} && s.phase == Idle) &&
    DistinctIntents(s.yielded) && IdsOf(s.yielded) == s.t.seen &&
    (s.t.isOpen ==> s.due <= s.t.seen + Logged(codec, Held(s)) + Logged(codec, Current(s)) + s.lost) && Owes(codec, s)
  }

  lemma LoggedGrows(codec: Codec, bytes: seq<Byte>, chunk: seq<Byte>)
    ensures Logged(codec, bytes) <= Logged(codec, bytes + chunk)
  {
    hide LinesOf, Terminated, IdsIn;
    LinesResume(bytes, chunk);
    IdsConcat(codec, LinesOf(bytes), LinesOf(Unended(bytes) + chunk));
  }

  lemma ReadingGrows(codec: Codec, t: Tail, bytes: seq<Byte>, chunk: seq<Byte>)
    requires Reading(codec, t, bytes)
    ensures Reading(codec, t, bytes + chunk)
  {
    hide Logged, Unended;
    assert (bytes + chunk)[..t.offset] == bytes[..t.offset];
  }

  lemma OpenReads(codec: Codec, t: Tail, fs: Files)
    requires fs.path in fs.bytes
    ensures Reading(codec, Open(t, fs), fs.bytes[fs.path])
  {
    NoLine([]);
    assert fs.bytes[fs.path][..0] == [];
    assert IdsIn(codec, []) == {};
  }

  lemma YieldMore(y: seq<IntentRec>, z: seq<IntentRec>)
    requires DistinctIntents(y) && DistinctIntents(z) && IdsOf(y) !! IdsOf(z)
    ensures DistinctIntents(y + z) && IdsOf(y + z) == IdsOf(y) + IdsOf(z)
  {
    forall j, k | 0 <= j < k < |y + z| ensures (y + z)[j].id != (y + z)[k].id
    {
      if j < |y| <= k {
        assert y[j].id in IdsOf(y) && z[k - |y|].id in IdsOf(z);
      }
    }
  }

  lemma AppendInv(codec: Codec, s: Sys, s': Sys, chunk: seq<Byte>)
    requires Inv(codec, s) && AppendStep(codec, s, s', chunk)
    ensures Inv(codec, s')
  {
    hide Logged, Reading, DistinctIntents, IdsOf;
    LoggedGrows(codec, Current(s), chunk);
    if s.t.isOpen && s.t.ino == s.fs.path { ReadingGrows(codec, s.t, Held(s), chunk); }
  }

  lemma ReplaceInv(codec: Codec, s: Sys, s': Sys, ino: nat, contents: seq<Byte>)
    requires Inv(codec, s) && ReplaceStep(codec, s, s', ino, contents)
    ensures Inv(codec, s')
  {
    hide Logged, Reading, DistinctIntents, IdsOf;
  }

  lemma OpenInv(codec: Codec, s: Sys, s': Sys)
    requires Inv(codec, s) && OpenStep(codec, s, s')
    ensures Inv(codec, s')
  {
    hide Logged, Reading, DistinctIntents, IdsOf;
    OpenReads(codec, s.t, s.fs);
  }

  lemma DrainInv(codec: Codec, s: Sys, s': Sys)
    requires Inv(codec, s) && (DrainStep(codec, s, s') || LastStep(codec, s, s'))
    ensures Inv(codec, s')
  {
    hide Logged, Reading, DistinctIntents, IdsOf, Drain;
    DrainReads(codec, s.t, Held(s));
    YieldMore(s.yielded, Drain(codec, s.t, Held(s)).1);
  }

  lemma SwitchInv(codec: Codec, s: Sys, s': Sys)
    requires Inv(codec, s) && SwitchStep(s, s')
    ensures Inv(codec, s')
  {
    hide Logged, Reading, DistinctIntents, IdsOf;
    OpenReads(codec, s.t, s.fs);
  }

  lemma StepInv(codec: Codec, s: Sys, s': Sys)
    requires Inv(codec, s) && Next(codec, s, s')
    ensures Inv(codec, s')
  {
    hide Inv, AppendStep, ReplaceStep, OpenStep, DrainStep, SwitchStep, LastStep;
    if chunk :| AppendStep(codec, s, s', chunk) {
      AppendInv(codec, s, s', chunk);
    } else if ino, contents :| ReplaceStep(codec, s, s', ino, contents) {
      ReplaceInv(codec, s, s', ino, contents);
    } else if OpenStep(codec, s, s') {
      OpenInv(codec, s, s');
    } else if LookStep(s, s') {
      LookInv(codec, s, s');
    } else if SwitchStep(s, s') {
      SwitchInv(codec, s, s');
    } else {
      DrainInv(codec, s, s');
    }
  }

  lemma LookInv(codec: Codec, s: Sys, s': Sys)
    requires Inv(codec, s) && LookStep(s, s')
    ensures Inv(codec, s')
  {
    hide Logged, Reading, DistinctIntents, IdsOf;
  }

  ghost predicate IsRun(codec: Codec, run: seq<Sys>)
  {
    run != [] && Initial(run[0]) && forall k :: 0 <= k < |run| - 1 ==> Next(codec, run[k], run[k + 1])
  }

  lemma {:induction false} RunInv(codec: Codec, run: seq<Sys>, k: nat)
    requires IsRun(codec, run) && k < |run|
    ensures Inv(codec, run[k])
    decreases k
  {
    hide Inv, Next;
    if k == 0 {
      InitialInv(codec, run[0]);
    } else {
      RunInv(codec, run, k - 1);
      assert Next(codec, run[k - 1], run[k - 1 + 1]);
      StepInv(codec, run[k - 1], run[k]);
    }
  }

  lemma InitialInv(codec: Codec, s: Sys)
    requires Initial(s)
    ensures Inv(codec, s)
  {
    assert IdsOf([]) == {};
  }

  // ---------------------------------------------------------------- what is lost stays lost

  /** A record brings an id no record due had. */
  predicate BringsNew(codec: Codec, s: Sys, s': Sys)
  {
    s.fs.path in s.fs.bytes && s'.fs.path in s'.fs.bytes && (Logged(codec, Current(s')) - Logged(codec, Current(s))) !! s.due
  }

  /** What was lost was due, and is in no file the tailer may still read. */
  ghost predicate Gone(codec: Codec, s: Sys)
  {
    s.t.isOpen ==>
      s.fs.path in s.fs.bytes && s.t.ino in s.fs.bytes && Logged(codec, Current(s)) <= s.due && s.lost <= s.due &&
      s.lost !! Logged(codec, Current(s)) && s.lost !! Logged(codec, Held(s)) && s.lost !! s.t.seen
  }

  lemma AppendGone(codec: Codec, s: Sys, s': Sys, chunk: seq<Byte>)
    requires Inv(codec, s) && Gone(codec, s) && AppendStep(codec, s, s', chunk) && BringsNew(codec, s, s')
    ensures Gone(codec, s')
  {
    hide Logged, Reading, DistinctIntents, IdsOf, Owes;
    if s.t.isOpen {
      assert Logged(codec, Current(s')) <= Logged(codec, Current(s)) + (Logged(codec, Current(s')) - Logged(codec, Current(s)));
    }
  }

  lemma ReplaceGone(codec: Codec, s: Sys, s': Sys, ino: nat, contents: seq<Byte>)
    requires Inv(codec, s) && Gone(codec, s) && ReplaceStep(codec, s, s', ino, contents)
    ensures Gone(codec, s')
  {
    hide Logged, Reading, DistinctIntents, IdsOf, Owes;
  }

  lemma OpenGone(codec: Codec, s: Sys, s': Sys)
    requires Inv(codec, s) && Gone(codec, s) && (OpenStep(codec, s, s') || LookStep(s, s') || SwitchStep(s, s'))
    ensures Gone(codec, s')
  {
    hide Logged, Reading, DistinctIntents, IdsOf, Owes;
  }

  lemma DrainGone(codec: Codec, s: Sys, s': Sys)
    requires Inv(codec, s) && Gone(codec, s) && (DrainStep(codec, s, s') || LastStep(codec, s, s'))
    ensures Gone(codec, s')
  {
    hide Logged, Reading, DistinctIntents, IdsOf, Drain;
    DrainReads(codec, s.t, Held(s));
    hide Owes;
  }

  lemma StepGone(codec: Codec, s: Sys, s': Sys)
    requires Inv(codec, s) && Gone(codec, s) && Next(codec, s, s') && BringsNew(codec, s, s')
    ensures Gone(codec, s')
  {
    hide Inv, Gone, BringsNew, AppendStep, ReplaceStep, OpenStep, DrainStep, SwitchStep, LastStep;
    if chunk :| AppendStep(codec, s, s', chunk) {
      AppendGone(codec, s, s', chunk);
    } else if ino, contents :| ReplaceStep(codec, s, s', ino, contents) {
      ReplaceGone(codec, s, s', ino, contents);
    } else if DrainStep(codec, s, s') || LastStep(codec, s, s') {
      DrainGone(codec, s, s');
    } else {
      OpenGone(codec, s, s');
    }
  }

  /** A run in which every intent appended has an id of its own. */
  ghost predicate IsFreshRun(codec: Codec, run: seq<Sys>)
  {
    IsRun(codec, run) && forall k :: 0 <= k < |run| - 1 ==> BringsNew(codec, run[k], run[k + 1])
  }

  lemma {:induction false} RunGone(codec: Codec, run: seq<Sys>, k: nat)
    requires IsFreshRun(codec, run) && k < |run|
    ensures Inv(codec, run[k]) && Gone(codec, run[k])
    decreases k
  {
    hide Inv, Gone, BringsNew, Next;
    RunInv(codec, run, k);
    if k == 0 {
      InitialGone(codec, run[0]);
    } else {
      RunGone(codec, run, k - 1);
      assert Next(codec, run[k - 1], run[k - 1 + 1]) && BringsNew(codec, run[k - 1], run[k - 1 + 1]);
      StepGone(codec, run[k - 1], run[k]);
    }
  }

  lemma InitialGone(codec: Codec, s: Sys)
    requires Initial(s)
    ensures Gone(codec, s)
  {
  }

  // ---------------------------------------------------------------- the theorems

  /**
    * Over every interleaving of appends, replacements and polls: no intent is yielded twice, and once a poll is over,
    * what was due when it looked and has not been yielded is exactly what replacements took away.
    */
  lemma TailerMissesExactly(codec: Codec, run: seq<Sys>, k: nat)
    requires IsRun(codec, run) && k < |run|
    ensures DistinctIntents(run[k].yielded)
    ensures run[k].phase == Idle ==> run[k].owed <= IdsOf(run[k].yielded) + run[k].lost
    ensures IsFreshRun(codec, run) && run[k].phase == Idle ==> run[k].owed - IdsOf(run[k].yielded) == run[k].owed * run[k].lost
  {
    hide IsRun, IsFreshRun, Reading, Logged, DistinctIntents, IdsOf;
    RunInv(codec, run, k);
    if IsFreshRun(codec, run) { RunGone(codec, run, k); }
  }

  /** While the tailer has the log open, only the very file it has open is replaced: none it never opened. */
  ghost predicate OnlyOpenReplaced(run: seq<Sys>)
  {
    forall k :: 0 <= k < |run| - 1 && run[k].t.isOpen && run[k + 1].fs.path != run[k].fs.path ==> run[k].fs.path == run[k].t.ino
  }

  lemma NothingLost(codec: Codec, s: Sys, s': Sys)
    requires Inv(codec, s) && Next(codec, s, s') && (s.t.isOpen && s'.fs.path != s.fs.path ==> s.fs.path == s.t.ino)
    ensures s'.lost == s.lost
  {
    hide Inv, AppendStep, Drain, Logged;
    if chunk :| AppendStep(codec, s, s', chunk) {
      AppendKeepsLost(codec, s, s', chunk);
    } else if ino, contents :| ReplaceStep(codec, s, s', ino, contents) {
      assert ino != s.fs.path && Lost(codec, s, contents) == {};
    }
  }

  lemma AppendKeepsLost(codec: Codec, s: Sys, s': Sys, chunk: seq<Byte>)
    requires AppendStep(codec, s, s', chunk)
    ensures s'.lost == s.lost
  {
    hide Logged;
  }

  lemma {:induction false} RunLosesNothing(codec: Codec, run: seq<Sys>, k: nat)
    requires IsRun(codec, run) && OnlyOpenReplaced(run) && k < |run|
    ensures run[k].lost == {}
    decreases k
  {
    hide Inv, Next;
    if k > 0 {
      RunLosesNothing(codec, run, k - 1);
      RunInv(codec, run, k - 1);
      assert Next(codec, run[k - 1], run[k - 1 + 1]);
      assert run[k - 1].t.isOpen && run[k - 1 + 1].fs.path != run[k - 1].fs.path ==> run[k - 1].fs.path == run[k - 1].t.ino;
      NothingLost(codec, run[k - 1], run[k]);
    }
  }

  /**
    * While every replaced file is the one the tailer has open, whatever else is interleaved: once a poll is over every
    * intent that was due when it looked at the path has been yielded.
    */
  lemma TailerMissesNothing(codec: Codec, run: seq<Sys>, k: nat)
    requires IsRun(codec, run) && OnlyOpenReplaced(run) && k < |run|
    ensures DistinctIntents(run[k].yielded)
    ensures run[k].phase == Idle ==> run[k].owed <= IdsOf(run[k].yielded)
  {
    hide IsRun, OnlyOpenReplaced, DistinctIntents, IdsOf, Inv;
    TailerMissesExactly(codec, run, k);
    RunLosesNothing(codec, run, k);
  }

  // ---------------------------------------------------------------- polls undisturbed, one replacement in between

  predicate Replaces(run: seq<Sys>, k: int)
    requires 0 <= k < |run| - 1
  {
    run[k + 1].fs.path != run[k].fs.path
  }

  predicate Looks(run: seq<Sys>, k: int)
    requires 0 <= k < |run| - 1
  {
    run[k].phase == Ready && run[k + 1].phase.Looked?
  }

  /** At most one replacement between two looks. */
  ghost predicate OncePerLook(run: seq<Sys>)
  {
    forall j, k :: 0 <= j < k < |run| - 1 && run[j].t.isOpen && Replaces(run, j) && Replaces(run, k) ==> exists m :: j < m < k && Looks(run, m)
  }

  /** No replacement between a poll's look and its end. */
  ghost predicate PollsUndisturbed(run: seq<Sys>)
  {
    forall k :: 0 <= k < |run| - 1 && Replaces(run, k) ==> run[k].phase == Idle || run[k].phase == Ready
  }

  /** Where the path stands to the open file: another only if it was replaced since the last look. */
  ghost predicate PathAt(run: seq<Sys>, k: nat)
    requires k < |run|
  {
    var s := run[k];
    s.t.isOpen ==>
      match s.phase
      case Looked(p) => p == s.fs.path
      case Drained => true
      case Switched => s.fs.path == s.t.ino
      case _ => s.fs.path == s.t.ino || exists j :: 0 <= j < k && run[j].t.isOpen && Replaces(run, j) && forall m :: j < m < k ==> !Looks(run, m)
  }

  lemma PathNext(codec: Codec, run: seq<Sys>, k: nat)
    requires k + 1 < |run| && Inv(codec, run[k]) && Next(codec, run[k], run[k + 1]) && PathAt(run, k)
    requires Replaces(run, k) ==> run[k].phase == Idle || run[k].phase == Ready
    ensures PathAt(run, k + 1)
  {
    hide Drain, Logged, Reading, DistinctIntents, IdsOf, Owes;
    var s, t := run[k], run[k + 1];
    DrainSame(codec, s.t, if s.t.isOpen then Held(s) else []);
    if s.t.isOpen && (t.phase == Idle || t.phase == Ready) && t.fs.path != t.t.ino && !Replaces(run, k) {
      assert t.t.ino == s.t.ino && !Looks(run, k);
      var j :| 0 <= j < k && run[j].t.isOpen && Replaces(run, j) && forall m :: j < m < k ==> !Looks(run, m);
      assert forall m :: j < m < k + 1 ==> !Looks(run, m);
    }
  }

  lemma DrainSame(codec: Codec, t: Tail, bytes: seq<Byte>)
    ensures Drain(codec, t, bytes).0.isOpen == t.isOpen && Drain(codec, t, bytes).0.ino == t.ino
  {
  }

  lemma {:induction false} RunPaths(codec: Codec, run: seq<Sys>, k: nat)
    requires IsRun(codec, run) && PollsUndisturbed(run) && k < |run|
    ensures PathAt(run, k)
    decreases k
  {
    hide Inv, Next, PathAt;
    if k == 0 {
      FirstPath(run);
    } else {
      RunPaths(codec, run, k - 1);
      RunInv(codec, run, k - 1);
      assert Next(codec, run[k - 1], run[k - 1 + 1]);
      assert Replaces(run, k - 1) ==> run[k - 1].phase == Idle || run[k - 1].phase == Ready;
      PathNext(codec, run, k - 1);
    }
  }

  lemma FirstPath(run: seq<Sys>)
    requires run != [] && Initial(run[0])
    ensures PathAt(run, 0)
  {
  }

  /** With polls undisturbed and one replacement between two looks, only the open file is ever replaced. */
  lemma UndisturbedIsOpen(codec: Codec, run: seq<Sys>)
    requires IsRun(codec, run) && PollsUndisturbed(run) && OncePerLook(run)
    ensures OnlyOpenReplaced(run)
  {
    hide IsRun, Next;
    forall k | 0 <= k < |run| - 1 && run[k].t.isOpen && run[k + 1].fs.path != run[k].fs.path ensures run[k].fs.path == run[k].t.ino
    {
      assert Replaces(run, k);
      RunPaths(codec, run, k);
    }
  }

  // ---------------------------------------------------------------- the tailer itself

  class FileSystem {
    var bytes: map<nat, seq<Byte>>
    var path: nat

    function Now(): Files
      reads this
    {
      Files(bytes, path)
    }
  }

  class LogTailer {
    var fd: Option<nat>
    var offset: nat
    var partial: seq<Byte>
    var seen: set<Str>

    constructor ()
      ensures Model() == NEW_TAIL
    {
      fd, offset, partial, seen := None, 0, [], {};
    }

    function Model(): Tail
      reads this
    {
      Tail(fd.Some?, if fd.Some? then fd.value else 0, offset, partial, seen)
    }

    method OpenCurrent(fs: FileSystem)
      modifies this
      ensures Model() == Open(old(Model()), fs.Now())
    {
      fd, offset, partial := Some(fs.path), 0, [];
    }

    /** Read to the end of the open file: each new intent of a whole line once, the unterminated rest kept. */
    method DrainFile(codec: Codec, fs: FileSystem) returns (out: seq<IntentRec>)
      requires fd.Some? && fd.value in fs.bytes
      modifies this
      ensures (Model(), out) == Drain(codec, old(Model()), fs.bytes[old(fd).value])
    {
      out := [];
      var bytes := fs.bytes[fd.value];
      if |bytes| <= offset { return; }
      var text := partial + bytes[offset..];
      var lines := LinesOf(text);
      hide LinesOf, Terminated;
      offset, partial := |bytes|, Unended(text);
      for k := 0 to |lines|
        invariant fd == old(fd) && offset == |bytes| && partial == Unended(text)
        invariant (out, seen) == NewIntents(codec, lines[..k], old(seen))
      {
        assert lines[..k + 1][..k] == lines[..k];
        var r := codec.parse(lines[k]);
        if r.Some? && r.value.Intent? && r.value.i.id !in seen {
          seen := seen + {r.value.i.id};
          out := out + [r.value.i];
        }
      }
      assert lines[..|lines|] == lines;
    }

    /** A poll: look for a replacement first, drain what is open, then switch to the replacement and drain it. */
    method Poll(codec: Codec, fs: FileSystem) returns (out: seq<IntentRec>)
      requires fs.path in fs.bytes && (fd.Some? ==> fd.value in fs.bytes && Reading(codec, Model(), fs.bytes[fd.value]))
      modifies this
      ensures fd == Some(fs.path) && Reading(codec, Model(), fs.bytes[fs.path])
      ensures Logged(codec, fs.bytes[fs.path]) <= seen && (old(fd).Some? ==> Logged(codec, fs.bytes[old(fd).value]) <= seen)
      ensures DistinctIntents(out) && seen == old(seen) + IdsOf(out) && IdsOf(out) !! old(seen)
    {
      hide Reading, Logged, Drain, DistinctIntents, IdsOf;
      ghost var t0 := Model();
      OpenReads(codec, t0, fs.Now());
      if fd == None { OpenCurrent(fs); }
      var at := fs.path;
      ghost var t1 := Model();
      DrainReads(codec, t1, fs.bytes[fd.value]);
      out := DrainFile(codec, fs);
      if at != fd.value {
        ghost var first := out;
        OpenReads(codec, Model(), fs.Now());
        OpenCurrent(fs);
        DrainReads(codec, Model(), fs.bytes[fd.value]);
        var more := DrainFile(codec, fs);
        YieldMore(first, more);
        out := out + more;
      }
    }
  }
}
