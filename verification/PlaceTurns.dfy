/** The walk to a real path, turn by turn. */
module PlaceTurns {
  // What one turn does with the first component left is said of the file system itself; a path is placed where its
  // run of turns ends.

  import opened PlaceReal

  datatype At = At(cur: Path, queue: seq<Str>, hops: nat)

  /** The entry of that path can be inspected: nothing blocks it, and what it lies in is no file and no symlink. */
  predicate Inspected(fs: Files, cur: Path, c: Str)
  {
    cur + [c] !in fs.blocked && (cur in fs.nodes ==> fs.nodes[cur].Dir?)
  }

  /** A dot stays, two dots go up, an entry is entered, and a symlink, but no 41st, puts its target in front of the rest. */
  ghost predicate Turns(fs: Files, a: At, b: At)
  {
    a.queue != [] &&
    var c, rest := a.queue[0], a.queue[1..];
    if c == "." then b == At(a.cur, rest, a.hops)
    else if c == ".." then
      b.queue == rest && b.hops == a.hops && if a.cur == [] then b.cur == [] else exists last :: a.cur == b.cur + [last]
    else
      Inspected(fs, a.cur, c) && a.cur + [c] in fs.nodes &&
      match fs.nodes[a.cur + [c]]
      case Link(absolute, target) => a.hops < 40 && b == At(if absolute then [] else a.cur, target + rest, a.hops + 1)
      case _ => b == At(a.cur + [c], rest, a.hops)
  }

  /** `b` is what is left of `a` without its single dots: some dots, a component that is none, and so on. */
  ghost predicate Undotted(a: seq<Str>, b: seq<Str>)
    decreases |b|
  {
    exists n: nat :: Dots(a, n) && if b == [] then n == |a| else n < |a| && a[n] == b[0] != "." && Undotted(a[n + 1..], b[1..])
  }

  predicate Dots(a: seq<Str>, n: nat)
  {
    n <= |a| && forall k :: 0 <= k < n ==> a[k] == "."
  }

  /** The walk stops: at the end of the queue, at an entry that cannot be inspected or is not there, or at the 41st symlink. */
  ghost predicate Ends(fs: Files, a: At, r: Placed)
  {
    if a.queue == [] then r == Exists(a.cur)
    else
      var c, rest := a.queue[0], a.queue[1..];
      var next := a.cur + [c];
      c != "." && c != ".." &&
      if !Inspected(fs, a.cur, c) then r == Refused
      else if next in fs.nodes then fs.nodes[next].Link? && a.hops >= 40 && r == Refused
      else if ".." in rest then r == Refused
      else r.Absent? && exists tail :: Undotted(rest, tail) && r.path == next + tail
  }

  ghost predicate Turning(fs: Files, run: seq<At>)
  {
    run != [] && forall i :: 0 <= i < |run| - 1 ==> Turns(fs, run[i], run[i + 1])
  }

  /** What the entries looked at in a run are: symlinks as themselves. */
  function Met(fs: Files, run: seq<At>): seq<Step>
  {
    if run == [] then []
    else
      var a := run[0];
      (if a.queue != [] && a.queue[0] != "." && a.queue[0] != ".." && Inspected(fs, a.cur, a.queue[0]) && a.cur + [a.queue[0]] in fs.nodes
       then [Step(a.cur + [a.queue[0]], fs.nodes[a.cur + [a.queue[0]]].Link?)] else []) + Met(fs, run[1..])
  }

  lemma TurnWalks(fs: Files, a: At, b: At)
    requires Turns(fs, a, b)
    ensures Walk(fs, a.cur, a.queue, a.hops) == Walk(fs, b.cur, b.queue, b.hops)
    ensures Seen(fs, a.cur, a.queue, a.hops) == Met(fs, [a]) + Seen(fs, b.cur, b.queue, b.hops)
  {
    var c := a.queue[0];
    if c == ".." && a.cur != [] {
      var last :| a.cur == b.cur + [last];
      assert b.cur == Parent(a.cur);
    }
    assert [a][1..] == [];
  }

  lemma {:induction false} DotsSkipped(a: seq<Str>, n: nat)
    requires Dots(a, n)
    ensures NoDots(a) == NoDots(a[n..])
  {
    if n == 0 {
      assert a[0..] == a;
    } else {
      assert a[1..][n - 1..] == a[n..];
      DotsSkipped(a[1..], n - 1);
    }
  }

  /** Leaving out the dots leaves one sequence. */
  lemma {:induction false} UndottedIs(a: seq<Str>, b: seq<Str>)
    requires Undotted(a, b)
    ensures b == NoDots(a)
    decreases |b|
  {
    var n: nat :| Dots(a, n) && if b == [] then n == |a| else n < |a| && a[n] == b[0] != "." && Undotted(a[n + 1..], b[1..]);
    DotsSkipped(a, n);
    if b != [] {
      assert a[n..][0] == b[0] && a[n..][1..] == a[n + 1..];
      UndottedIs(a[n + 1..], b[1..]);
      assert b == [b[0]] + b[1..];
    }
  }

  lemma {:induction false} DotsGo(a: seq<Str>)
    ensures Undotted(a, NoDots(a))
  {
    if a == [] {
      assert Dots(a, 0);
    } else {
      DotsGo(a[1..]);
      var b := NoDots(a[1..]);
      var n: nat :| Dots(a[1..], n) && if b == [] then n == |a[1..]| else n < |a[1..]| && a[1..][n] == b[0] != "." && Undotted(a[1..][n + 1..], b[1..]);
      if a[0] == "." {
        assert Dots(a, n + 1);
        if b != [] { assert a[1..][n + 1..] == a[n + 2..]; }
      } else {
        Named(a, b);
      }
    }
  }

  lemma Named(a: seq<Str>, b: seq<Str>)
    requires a != [] && a[0] != "." && Undotted(a[1..], b)
    ensures Undotted(a, [a[0]] + b)
  {
    assert Dots(a, 0) && ([a[0]] + b)[1..] == b;
  }

  lemma EndPlaces(fs: Files, a: At, r: Placed)
    ensures Ends(fs, a, r) ==> Walk(fs, a.cur, a.queue, a.hops) == r && Seen(fs, a.cur, a.queue, a.hops) == Met(fs, [a])
  {
    if Ends(fs, a, r) {
      assert [a][1..] == [];
      if r.Absent? {
        var tail :| Undotted(a.queue[1..], tail) && r.path == a.cur + [a.queue[0]] + tail;
        UndottedIs(a.queue[1..], tail);
      }
    }
  }

  lemma {:induction false} RunPlaces(fs: Files, run: seq<At>, r: Placed)
    requires Turning(fs, run) && Ends(fs, run[|run| - 1], r)
    ensures Walk(fs, run[0].cur, run[0].queue, run[0].hops) == r && Seen(fs, run[0].cur, run[0].queue, run[0].hops) == Met(fs, run)
    decreases |run|
  {
    if |run| == 1 {
      EndPlaces(fs, run[0], r);
      assert run == [run[0]];
    } else {
      assert run[1..][|run| - 2] == run[|run| - 1];
      RunPlaces(fs, run[1..], r);
      assert Turns(fs, run[0], run[1]);
      TurnWalks(fs, run[0], run[1]);
      MetFirst(fs, run);
    }
  }

  lemma MetFirst(fs: Files, run: seq<At>)
    requires run != []
    ensures Met(fs, run) == Met(fs, [run[0]]) + Met(fs, run[1..])
  {
    assert [run[0]][1..] == [];
  }

  /** Every state of the walk either ends it or turns. */
  lemma NextTurn(fs: Files, a: At) returns (b: At)
    ensures Ends(fs, a, Walk(fs, a.cur, a.queue, a.hops)) || (Turns(fs, a, b) && (b.hops > a.hops || (b.hops == a.hops && |b.queue| < |a.queue|)) && (a.hops <= 40 ==> b.hops <= 40))
  {
    b := a;
    if a.queue != [] {
      var c, rest := a.queue[0], a.queue[1..];
      if c == "." {
        b := At(a.cur, rest, a.hops);
      } else if c == ".." {
        b := At(Parent(a.cur), rest, a.hops);
        if a.cur != [] { assert a.cur == b.cur + [a.cur[|a.cur| - 1]]; }
      } else if Inspected(fs, a.cur, c) && a.cur + [c] in fs.nodes {
        var node := fs.nodes[a.cur + [c]];
        b := if node.Link? then At(Base(a.cur, node), node.target + rest, a.hops + 1) else At(a.cur + [c], rest, a.hops);
      } else {
        DotsGo(rest);
      }
    }
  }

  lemma {:induction false} RunExists(fs: Files, a: At) returns (run: seq<At>)
    requires a.hops <= 40
    ensures Turning(fs, run) && run[0] == a && Ends(fs, run[|run| - 1], Walk(fs, a.cur, a.queue, a.hops))
    decreases 40 - a.hops, |a.queue|
  {
    var b := NextTurn(fs, a);
    if Ends(fs, a, Walk(fs, a.cur, a.queue, a.hops)) {
      run := [a];
    } else {
      TurnWalks(fs, a, b);
      var more := RunExists(fs, b);
      run := [a] + more;
      assert run[|run| - 1] == more[|more| - 1];
      hide Turns, Ends, Walk;
      forall i | 0 <= i < |run| - 1 ensures Turns(fs, run[i], run[i + 1])
      {
        if i > 0 { assert run[i] == more[i - 1] && run[i + 1] == more[i]; }
      }
    }
  }

  /**
    * A path is placed where its run of turns ends, which every path has, and the walk has seen the entries that run
    * met: dots by what is entered, symlinks where they lead from the directory they are in, forty of them at most.
    */
  lemma PlaceExactly(fs: Files, parts: seq<Str>, r: Placed)
    ensures Place(fs, parts) == r <==>
            exists run: seq<At> :: Turning(fs, run) && run[0] == At([], parts, 0) && Ends(fs, run[|run| - 1], r)
    ensures forall run: seq<At> :: Turning(fs, run) && run[0] == At([], parts, 0) && Ends(fs, run[|run| - 1], Place(fs, parts)) ==>
              Seen(fs, [], parts, 0) == Met(fs, run)
  {
    if Place(fs, parts) == r { var run := RunExists(fs, At([], parts, 0)); }
    forall run: seq<At> | Turning(fs, run) && run[0] == At([], parts, 0) && Ends(fs, run[|run| - 1], r) ensures Place(fs, parts) == r
    {
      RunPlaces(fs, run, r);
    }
    forall run: seq<At> | Turning(fs, run) && run[0] == At([], parts, 0) && Ends(fs, run[|run| - 1], Place(fs, parts))
      ensures Seen(fs, [], parts, 0) == Met(fs, run)
    {
      RunPlaces(fs, run, Place(fs, parts));
    }
  }
}
