/** Where a path really leads. */
module PlaceReal {
  // The walk keeps one queue of components and splices each symlink's target in front of what is left; the reference
  // resolves a target as a whole, then goes on from where it led.

  import opened Wrappers

  type Str = string
  type Path = seq<Str>

  const MAX_SYMLINK_HOPS: nat := 40

  /** A link's target: its components, from the root or from the link's own directory. */
  datatype Node = Dir | File | Link(absolute: bool, target: seq<Str>)

  /** A static file system. `blocked` are the paths whose inspection fails for another reason than absence. */
  datatype Files = Files(nodes: map<Path, Node>, blocked: set<Path>)

  /** A component that names an entry. */
  predicate Name(c: Str)
  {
    c != "" && c != "." && c != ".." && '/' !in c
  }

  predicate Component(c: Str)
  {
    c == "." || c == ".." || Name(c)
  }

  predicate Components(parts: seq<Str>)
  {
    forall i :: 0 <= i < |parts| ==> Component(parts[i])
  }

  /** The root is a directory, every entry has a directory above it, and targets are component lists. */
  ghost predicate FilesOk(fs: Files)
  {
    [] in fs.nodes && fs.nodes[[]] == Dir &&
    (forall p :: p in fs.nodes && p != [] ==> p[..|p| - 1] in fs.nodes && fs.nodes[p[..|p| - 1]] == Dir && Name(p[|p| - 1])) &&
    forall p :: p in fs.nodes && fs.nodes[p].Link? ==> Components(fs.nodes[p].target)
  }

  datatype Stat = Found(node: Node) | Missing | Unreadable

  /** `lstat` of an entry of `cur`: under something that is not a directory it fails, but not with ENOENT. */
  function Lstat(fs: Files, cur: Path, c: Str): Stat
  {
    var next := cur + [c];
    if next in fs.blocked then Unreadable
    else if cur in fs.nodes && fs.nodes[cur] != Dir then Unreadable
    else if next in fs.nodes then Found(fs.nodes[next]) else Missing
  }

  function Parent(cur: Path): Path
  {
    if cur == [] then [] else cur[..|cur| - 1]
  }

  function Base(cur: Path, link: Node): Path
    requires link.Link?
  {
    if link.absolute then [] else cur
  }

  // ---------------------------------------------------------------- the walk

  datatype Step = Step(path: Path, link: bool)

  datatype Placed = Exists(path: Path) | Absent(path: Path) | Refused

  function NoDots(parts: seq<Str>): seq<Str>
  {
    if parts == [] then []
    else if parts[0] == "." then NoDots(parts[1..]) else [parts[0]] + NoDots(parts[1..])
  }

  /** The walk from the real directory `cur`, with `hops` symlinks followed so far. */
  function Walk(fs: Files, cur: Path, queue: seq<Str>, hops: nat): Placed
    decreases MAX_SYMLINK_HOPS + 1 - hops, |queue|
  {
    if queue == [] then Exists(cur)
    else
      var c, rest := queue[0], queue[1..];
      if c == "." then Walk(fs, cur, rest, hops)
      else if c == ".." then Walk(fs, Parent(cur), rest, hops)
      else
        match Lstat(fs, cur, c)
        case Unreadable => Refused
        case Missing => if ".." in rest then Refused else Absent(cur + [c] + NoDots(rest))
        case Found(node) =>
          if node.Link? then
            if hops >= MAX_SYMLINK_HOPS then Refused
            else Walk(fs, Base(cur, node), node.target + rest, hops + 1)
          else Walk(fs, cur + [c], rest, hops)
  }

  /** `placeReal` for an absolute path's components. */
  function Place(fs: Files, parts: seq<Str>): Placed
  {
    Walk(fs, [], parts, 0)
  }

  /** The entries the walk meets, in order: each one lstat shows, symlinks as themselves. */
  function Seen(fs: Files, cur: Path, queue: seq<Str>, hops: nat): seq<Step>
    decreases MAX_SYMLINK_HOPS + 1 - hops, |queue|
  {
    if queue == [] then []
    else
      var c, rest := queue[0], queue[1..];
      if c == "." then Seen(fs, cur, rest, hops)
      else if c == ".." then Seen(fs, Parent(cur), rest, hops)
      else
        var st := Lstat(fs, cur, c);
        if !st.Found? then []
        else
          [Step(cur + [c], st.node.Link?)] +
          if !st.node.Link? then Seen(fs, cur + [c], rest, hops)
          else if hops >= MAX_SYMLINK_HOPS then [] else Seen(fs, Base(cur, st.node), st.node.target + rest, hops + 1)
  }

  /** The walk as the code runs it: the queue shifts and is spliced, `hops` counts, every component met is recorded. */
  method PlaceRealPath(fs: Files, parts: seq<Str>) returns (placed: Placed, traversed: seq<Step>)
    ensures placed == Place(fs, parts) && traversed == Seen(fs, [], parts, 0)
  {
    var cur: Path, queue, hops := [], parts, 0;
    traversed := [];
    while queue != []
      invariant 0 <= hops <= MAX_SYMLINK_HOPS && Walk(fs, cur, queue, hops) == Place(fs, parts)
      invariant traversed + Seen(fs, cur, queue, hops) == Seen(fs, [], parts, 0)
      decreases MAX_SYMLINK_HOPS - hops, |queue|
    {
      var c := queue[0];
      queue := queue[1..];
      if c == "." { continue; }
      if c == ".." {
        cur := Parent(cur);
        continue;
      }
      var next := cur + [c];
      match Lstat(fs, cur, c)
      case Unreadable => return Refused, traversed;
      case Missing =>
        if ".." in queue { return Refused, traversed; }
        return Absent(next + NoDots(queue)), traversed;
      case Found(node) =>
        traversed := traversed + [Step(next, node.Link?)];
        if node.Link? {
          if hops + 1 > MAX_SYMLINK_HOPS { return Refused, traversed; }
          hops, cur, queue := hops + 1, Base(cur, node), node.target + queue;
        } else {
          cur := next;
        }
    }
    return Exists(cur), traversed;
  }

  // ---------------------------------------------------------------- pathname resolution

  /** Where resolution ends, and how many symlinks it may still follow. */
  datatype End = End(path: Path, left: nat)

  predicate IsDir(fs: Files, p: Path)
  {
    p in fs.nodes && fs.nodes[p] == Dir
  }

  /**
    * Pathname resolution from `cur` (section 4.13 of POSIX.1-2017, Base Definitions), following at most
    * `left` symlinks: a link's target is resolved from the link's directory or the root, and what is left of
    * the pathname from where that leads. Anything looked up, "." and ".." included, is looked up in a
    * directory; `lenient` drops that for the two dots, which is how the walk takes them.
    */
  function Resolve(fs: Files, lenient: bool, cur: Path, parts: seq<Str>, left: nat): (r: Option<End>)
    ensures r.Some? ==> r.value.left <= left
    decreases left, |parts|
  {
    if parts == [] then Some(End(cur, left))
    else
      var c, rest := parts[0], parts[1..];
      if c == "." || c == ".." then
        if lenient || IsDir(fs, cur) then Resolve(fs, lenient, if c == "." then cur else Parent(cur), rest, left) else None
      else
        var s := Lstat(fs, cur, c);
        if !s.Found? then None
        else if s.node.Link? then
          if left == 0 then None
          else
            var target := Resolve(fs, lenient, Base(cur, s.node), s.node.target, left - 1);
            if target == None then None else Resolve(fs, lenient, target.value.path, rest, target.value.left)
        else Resolve(fs, lenient, cur + [c], rest, left)
  }

  /** A resolution is a resolution leniently. */
  lemma {:induction false} StrictIsLenient(fs: Files, cur: Path, parts: seq<Str>, left: nat)
    requires Resolve(fs, false, cur, parts, left).Some?
    ensures Resolve(fs, true, cur, parts, left) == Resolve(fs, false, cur, parts, left)
    decreases left, |parts|
  {
    if parts != [] {
      var c, rest := parts[0], parts[1..];
      if c == "." || c == ".." {
        StrictIsLenient(fs, if c == "." then cur else Parent(cur), rest, left);
      } else {
        var s := Lstat(fs, cur, c);
        if s.node.Link? {
          StrictIsLenient(fs, Base(cur, s.node), s.node.target, left - 1);
          var t := Resolve(fs, false, Base(cur, s.node), s.node.target, left - 1).value;
          StrictIsLenient(fs, t.path, rest, t.left);
        } else {
          StrictIsLenient(fs, cur + [c], rest, left);
        }
      }
    }
  }

  /** Walking `a` then `b` is resolving `a`, then walking `b` from where it led; if `a` does not resolve, nothing exists. */
  lemma {:induction false} WalkResolves(fs: Files, cur: Path, a: seq<Str>, b: seq<Str>, hops: nat)
    requires hops <= MAX_SYMLINK_HOPS
    ensures var r := Resolve(fs, true, cur, a, MAX_SYMLINK_HOPS - hops);
            if r.Some? then Walk(fs, cur, a + b, hops) == Walk(fs, r.value.path, b, MAX_SYMLINK_HOPS - r.value.left)
            else !Walk(fs, cur, a + b, hops).Exists?
    decreases MAX_SYMLINK_HOPS - hops, |a|
  {
    if a == [] {
      assert a + b == b;
    } else {
      var c, rest := a[0], a[1..];
      assert (a + b)[0] == c && (a + b)[1..] == rest + b;
      hide Lstat, Base, Parent;
      if c == "." || c == ".." {
        WalkResolves(fs, if c == "." then cur else Parent(cur), rest, b, hops);
      } else if Lstat(fs, cur, c).Found? {
        var node := Lstat(fs, cur, c).node;
        if !node.Link? {
          WalkResolves(fs, cur + [c], rest, b, hops);
        } else if hops < MAX_SYMLINK_HOPS {
          WalkResolves(fs, Base(cur, node), node.target, rest + b, hops + 1);
          var t := Resolve(fs, true, Base(cur, node), node.target, MAX_SYMLINK_HOPS - hops - 1);
          if t.Some? { WalkResolves(fs, t.value.path, rest, b, MAX_SYMLINK_HOPS - t.value.left); }
        }
      }
    }
  }

  /** The walk says a path exists exactly when it resolves leniently, and to the same place. */
  lemma PlaceExists(fs: Files, parts: seq<Str>, p: Path)
    ensures Place(fs, parts) == Exists(p) <==>
            Resolve(fs, true, [], parts, MAX_SYMLINK_HOPS).Some? && Resolve(fs, true, [], parts, MAX_SYMLINK_HOPS).value.path == p
  {
    WalkResolves(fs, [], parts, [], 0);
    assert parts + [] == parts;
  }

  /** Whenever pathname resolution succeeds within 40 links, the walk gives that same path, and says it exists. */
  lemma KernelAgrees(fs: Files, parts: seq<Str>)
    requires Resolve(fs, false, [], parts, MAX_SYMLINK_HOPS).Some?
    ensures Place(fs, parts) == Exists(Resolve(fs, false, [], parts, MAX_SYMLINK_HOPS).value.path)
  {
    StrictIsLenient(fs, [], parts, MAX_SYMLINK_HOPS);
    PlaceExists(fs, parts, Resolve(fs, false, [], parts, MAX_SYMLINK_HOPS).value.path);
  }

  /** The other way fails on a dot after a file, which resolution refuses and the walk steps over. */
  lemma DotAfterFile()
    ensures var fs := Files(map[[] := Dir, ["f"] := File], {});
            FilesOk(fs) && Resolve(fs, false, [], ["f", "."], MAX_SYMLINK_HOPS) == None && Place(fs, ["f", "."]) == Exists(["f"])
  {
    var fs := Files(map[[] := Dir, ["f"] := File], {});
    OneFile(fs);
    assert ["f", "."][1..] == ["."] && ["."][1..] == [];
    assert [] + ["f"] == ["f"];
    hide FilesOk, Lstat;
    assert Walk(fs, ["f"], ["."], 0) == Exists(["f"]);
    assert Resolve(fs, false, ["f"], ["."], MAX_SYMLINK_HOPS) == None;
  }

  lemma OneFile(fs: Files)
    requires fs == Files(map[[] := Dir, ["f"] := File], {})
    ensures FilesOk(fs) && Lstat(fs, [], "f") == Found(File) && !IsDir(fs, ["f"])
  {
    assert [] + ["f"] == ["f"];
    forall p | p in fs.nodes && p != [] ensures p[..|p| - 1] in fs.nodes && fs.nodes[p[..|p| - 1]] == Dir && Name(p[|p| - 1])
    {
      assert p == ["f"] && p[..0] == [];
    }
  }

  lemma {:induction false} NoDotsLast(parts: seq<Str>)
    ensures NoDots(parts + ["."]) == NoDots(parts)
  {
    if parts == [] {
      assert parts + ["."] == ["."] && ["."][1..] == [];
    } else {
      assert (parts + ["."])[1..] == parts[1..] + ["."];
      NoDotsLast(parts[1..]);
    }
  }

  lemma {:induction false} WalkDot(fs: Files, cur: Path, queue: seq<Str>, hops: nat)
    ensures Walk(fs, cur, queue + ["."], hops) == Walk(fs, cur, queue, hops)
    decreases MAX_SYMLINK_HOPS + 1 - hops, |queue|
  {
    if queue == [] {
      assert queue + ["."] == ["."] && ["."][1..] == [];
    } else {
      var c, rest := queue[0], queue[1..];
      assert (queue + ["."])[1..] == rest + ["."];
      WalkDot(fs, cur, rest, hops);
      WalkDot(fs, Parent(cur), rest, hops);
      WalkDot(fs, cur + [c], rest, hops);
      NoDotsLast(rest);
      var st := Lstat(fs, cur, c);
      if st.Found? && st.node.Link? && hops < MAX_SYMLINK_HOPS {
        assert st.node.target + (rest + ["."]) == st.node.target + rest + ["."];
        WalkDot(fs, Base(cur, st.node), st.node.target + rest, hops + 1);
      }
    }
  }

  /**
    * A trailing slash is a final dot to resolution, which so asks for a directory; the walk drops it, and would step
    * over the dot: whatever the path, it is placed as without.
    */
  lemma TrailingSlash(fs: Files, parts: seq<Str>)
    ensures Place(fs, parts + ["."]) == Place(fs, parts)
  {
    WalkDot(fs, [], parts, 0);
  }

  // ---------------------------------------------------------------- where the walk ends

  /** Every component of the path, from the root down, is there, can be inspected, and is no symlink. */
  predicate SymlinkFree(fs: Files, p: Path)
  {
    forall i :: 0 < i <= |p| ==> p[..i] in fs.nodes && p[..i] !in fs.blocked && !fs.nodes[p[..i]].Link? && Name(p[i - 1])
  }

  lemma FreeParent(fs: Files, p: Path)
    requires SymlinkFree(fs, p)
    ensures SymlinkFree(fs, Parent(p))
  {
    forall i | 0 < i <= |Parent(p)|
      ensures var q := Parent(p); q[..i] in fs.nodes && q[..i] !in fs.blocked && !fs.nodes[q[..i]].Link? && Name(q[i - 1])
    {
      assert Parent(p)[..i] == p[..i];
    }
  }

  lemma FreeChild(fs: Files, p: Path, c: Str)
    requires SymlinkFree(fs, p) && Name(c) && p + [c] in fs.nodes && p + [c] !in fs.blocked && !fs.nodes[p + [c]].Link?
    ensures SymlinkFree(fs, p + [c])
  {
    var q := p + [c];
    forall i | 0 < i <= |q| ensures q[..i] in fs.nodes && q[..i] !in fs.blocked && !fs.nodes[q[..i]].Link? && Name(q[i - 1])
    {
      if i <= |p| { assert q[..i] == p[..i]; } else { assert q[..i] == q; }
    }
  }

  lemma TailComponents(parts: seq<Str>)
    requires Components(parts) && parts != []
    ensures Component(parts[0]) && Components(parts[1..])
  {
  }

  lemma SplicedComponents(a: seq<Str>, b: seq<Str>)
    requires Components(a) && Components(b)
    ensures Components(a + b)
  {
  }

  /** Where the walk ends on something that exists, no component is a symlink. */
  lemma {:induction false} WalkSymlinkFree(fs: Files, cur: Path, queue: seq<Str>, hops: nat)
    requires FilesOk(fs) && SymlinkFree(fs, cur) && Components(queue) && Walk(fs, cur, queue, hops).Exists?
    ensures SymlinkFree(fs, Walk(fs, cur, queue, hops).path)
    decreases MAX_SYMLINK_HOPS + 1 - hops, |queue|
  {
    hide SymlinkFree, Components, Name;
    if queue != [] {
      var c, rest := queue[0], queue[1..];
      TailComponents(queue);
      if c == "." {
        WalkSymlinkFree(fs, cur, rest, hops);
      } else if c == ".." {
        FreeParent(fs, cur);
        WalkSymlinkFree(fs, Parent(cur), rest, hops);
      } else {
        var node := Lstat(fs, cur, c).node;
        if node.Link? {
          RootFree(fs);
          SplicedComponents(node.target, rest);
          WalkSymlinkFree(fs, Base(cur, node), node.target + rest, hops + 1);
        } else {
          FreeChild(fs, cur, c);
          WalkSymlinkFree(fs, cur + [c], rest, hops);
        }
      }
    }
  }

  lemma RootFree(fs: Files)
    ensures SymlinkFree(fs, [])
  {
  }

  /** A symlink-free path walks to itself. */
  lemma {:induction false} FreeIsFixed(fs: Files, p: Path, k: nat)
    requires FilesOk(fs) && SymlinkFree(fs, p) && k <= |p|
    ensures Walk(fs, p[..k], p[k..], 0) == Exists(p)
    decreases |p| - k
  {
    if k == |p| {
      assert p[..k] == p && p[k..] == [];
    } else {
      assert p[..k] + [p[k]] == p[..k + 1] && p[k..][0] == p[k] && p[k..][1..] == p[k + 1..];
      assert Name(p[k]) && p[..k + 1] in fs.nodes;
      assert p[..k + 1][..|p[..k + 1]| - 1] == p[..k];
      FreeIsFixed(fs, p, k + 1);
    }
  }

  /** An existing result is symlink-free, and placing it again is the identity. */
  lemma PlaceIsReal(fs: Files, parts: seq<Str>)
    requires FilesOk(fs) && Components(parts) && Place(fs, parts).Exists?
    ensures var p := Place(fs, parts).path; SymlinkFree(fs, p) && Place(fs, p) == Exists(p)
  {
    RootFree(fs);
    WalkSymlinkFree(fs, [], parts, 0);
    var p := Place(fs, parts).path;
    FreeIsFixed(fs, p, 0);
    assert p[..0] == [] && p[0..] == p;
  }

  // ---------------------------------------------------------------- a missing tail

  /** The file system once the missing directories of `p` are made. */
  function Created(fs: Files, p: Path): Files
  {
    fs.(nodes := map q | q in fs.nodes.Keys + Prefixes(p) :: if q in fs.nodes then fs.nodes[q] else Dir)
  }

  function Prefixes(p: Path): set<Path>
  {
    set i | 0 <= i <= |p| :: p[..i]
  }

  /** Below its first `k` components, every component of `p` is a directory that can be inspected. */
  predicate Made(fs: Files, p: Path, k: nat)
  {
    forall i :: k <= i <= |p| ==> p[..i] in fs.nodes && fs.nodes[p[..i]] == Dir && p[..i] !in fs.blocked
  }

  /** Made directories, walked into one after another. */
  lemma {:induction false} WalkMade(fs: Files, cur: Path, queue: seq<Str>, hops: nat, p: Path)
    requires ".." !in queue && IsDir(fs, cur) && p == cur + NoDots(queue) && Made(fs, p, |cur| + 1)
    ensures Walk(fs, cur, queue, hops) == Exists(p)
    decreases |queue|
  {
    if queue == [] {
      assert p == cur;
    } else {
      var rest := queue[1..];
      assert forall x :: x in rest ==> x in queue;
      assert queue[0] in queue;
      if queue[0] == "." {
        WalkMade(fs, cur, rest, hops, p);
      } else {
        var next := cur + [queue[0]];
        assert p == next + NoDots(rest);
        assert p[..|cur| + 1] == next;
        WalkMade(fs, next, rest, hops, p);
      }
    }
  }

  lemma CreatedSame(fs: Files, p: Path, cur: Path, c: Str)
    requires cur in fs.nodes && Lstat(fs, cur, c).Found?
    ensures Lstat(Created(fs, p), cur, c) == Lstat(fs, cur, c)
  {
  }

  lemma CreatedTail(fs: Files, cur: Path, c: Str, rest: seq<Str>, hops: nat, p: Path)
    requires FilesOk(fs) && cur in fs.nodes && Lstat(fs, cur, c) == Missing && ".." !in rest && p == cur + [c] + NoDots(rest)
    requires forall q :: q in Prefixes(p) && q !in fs.nodes ==> q !in fs.blocked
    ensures Lstat(Created(fs, p), cur, c) == Found(Dir) && Walk(Created(fs, p), cur + [c], rest, hops) == Exists(p)
  {
    var next, made := cur + [c], Created(fs, p);
    assert p[..|next|] == next;
    TailMissing(fs, next, p);
    forall i | |next| <= i <= |p| ensures p[..i] in made.nodes && made.nodes[p[..i]] == Dir && p[..i] !in made.blocked
    {
      assert p[..i] !in fs.nodes && p[..i] in Prefixes(p);
    }
    assert next in Prefixes(p);
    hide Walk, FilesOk, Created, Prefixes;
    WalkMade(made, next, rest, hops, p);
  }

  lemma {:induction false} WalkCreated(fs: Files, cur: Path, queue: seq<Str>, hops: nat, p: Path)
    requires FilesOk(fs) && cur in fs.nodes && !fs.nodes[cur].Link? && Walk(fs, cur, queue, hops) == Absent(p)
    requires forall q :: q in Prefixes(p) && q !in fs.nodes ==> q !in fs.blocked
    ensures Walk(Created(fs, p), cur, queue, hops) == Exists(p)
    decreases MAX_SYMLINK_HOPS + 1 - hops, |queue|
  {
    hide Created, Prefixes;
    var c, rest := queue[0], queue[1..];
    if c == "." {
      WalkCreated(fs, cur, rest, hops, p);
    } else if c == ".." {
      ParentThere(fs, cur);
      WalkCreated(fs, Parent(cur), rest, hops, p);
    } else {
      match Lstat(fs, cur, c)
      case Found(node) =>
        CreatedSame(fs, p, cur, c);
        RootThere(fs);
        hide FilesOk;
        if node.Link? {
          WalkCreated(fs, Base(cur, node), node.target + rest, hops + 1, p);
        } else {
          WalkCreated(fs, cur + [c], rest, hops, p);
        }
      case Missing =>
        hide FilesOk;
        CreatedTail(fs, cur, c, rest, hops, p);
      case Unreadable =>
    }
  }

  lemma ParentThere(fs: Files, cur: Path)
    requires FilesOk(fs) && cur in fs.nodes
    ensures Parent(cur) in fs.nodes && fs.nodes[Parent(cur)] == if cur == [] then fs.nodes[[]] else Dir
    ensures !fs.nodes[Parent(cur)].Link?
  {
  }

  lemma RootThere(fs: Files)
    requires FilesOk(fs)
    ensures [] in fs.nodes && fs.nodes[[]] == Dir
  {
  }

  /** Below a missing entry everything is missing. */
  lemma TailMissing(fs: Files, next: Path, p: Path)
    requires FilesOk(fs) && next !in fs.nodes && next <= p
    ensures forall i :: |next| <= i <= |p| ==> p[..i] !in fs.nodes && p[..i] in Prefixes(p)
  {
    forall i | |next| <= i <= |p| ensures p[..i] !in fs.nodes { MissingBelow(fs, next, p, i); }
  }

  lemma {:induction false} MissingBelow(fs: Files, next: Path, p: Path, i: nat)
    requires FilesOk(fs) && next !in fs.nodes && next <= p && |next| <= i <= |p|
    ensures p[..i] !in fs.nodes
    decreases i
  {
    hide FilesOk;
    if i == |next| {
      assert p[..i] == next;
    } else {
      MissingBelow(fs, next, p, i - 1);
      NoParent(fs, p[..i - 1], p[i - 1]);
      assert p[..i] == p[..i - 1] + [p[i - 1]];
    }
  }

  lemma NoParent(fs: Files, p: Path, c: Str)
    requires FilesOk(fs) && p !in fs.nodes
    ensures p + [c] !in fs.nodes
  {
    assert (p + [c])[..|p + [c]| - 1] == p;
  }

  /**
    * A positive absence tells where the path will land: make the missing directories, and the same path then
    * exists there.
    */
  lemma AbsentThenCreated(fs: Files, parts: seq<Str>, p: Path)
    requires FilesOk(fs) && Place(fs, parts) == Absent(p) && forall q :: q in Prefixes(p) && q !in fs.nodes ==> q !in fs.blocked
    ensures Place(Created(fs, p), parts) == Exists(p)
  {
    WalkCreated(fs, [], parts, 0, p);
  }

  // ---------------------------------------------------------------- approved roots

  function Slashed(p: Path): Str
  {
    if p == [] then "" else "/" + p[0] + Slashed(p[1..])
  }

  function PathText(p: Path): Str
  {
    if p == [] then "/" else Slashed(p)
  }

  predicate Names(p: Path)
  {
    forall i :: 0 <= i < |p| ==> Name(p[i])
  }

  /** `isUnderApprovedRoot`, on one root's text. */
  predicate UnderRoot(root: Str, place: Str)
  {
    place == root || root + "/" <= place
  }

  function FirstSlash(t: Str): nat
  {
    if t == "" || t[0] == '/' then 0 else 1 + FirstSlash(t[1..])
  }

  lemma {:induction false} SlashAfter(a: Str, rest: Str)
    requires '/' !in a && (rest == "" || rest[0] == '/')
    ensures FirstSlash(a + rest) == |a|
  {
    if a == "" {
      assert a + rest == rest;
    } else {
      assert a[0] in a && (a + rest)[1..] == a[1..] + rest;
      SlashAfter(a[1..], rest);
    }
  }

  lemma {:induction false} SlashPrefix(t: Str, u: Str)
    requires t <= u && FirstSlash(t) < |t|
    ensures FirstSlash(u) == FirstSlash(t)
  {
    if t[0] != '/' {
      assert t[1..] <= u[1..];
      SlashPrefix(t[1..], u[1..]);
    }
  }

  /** A root's text and a separator begin a path's text exactly when its components begin the path's. */
  lemma {:induction false} UnderByComponents(r: Path, p: Path)
    requires Names(r) && Names(p)
    ensures Slashed(r) + "/" <= Slashed(p) <==> r < p
  {
    if r == [] || p == [] {
      EmptyUnder(r, p);
    } else {
      var a, b := Slashed(r[1..]) + "/", Slashed(p[1..]);
      UnderByComponents(r[1..], p[1..]);
      assert '/' !in r[0] && '/' !in p[0];
      SlashedStarts(r[1..]);
      SlashedStarts(p[1..]);
      SlashedSplit(r, p);
      hide Slashed, Names;
      HeadsUnder(r[0], a, p[0], b);
      SlashedUnder(r[0] + a, p[0] + b);
      ConsUnder(r, p);
    }
  }

  lemma SlashedStarts(p: Path)
    ensures (Slashed(p) == "" || Slashed(p)[0] == '/') && (Slashed(p) + "/")[0] == '/'
  {
  }

  lemma SlashedSplit(r: Path, p: Path)
    requires r != [] && p != []
    ensures Slashed(r) + "/" == "/" + (r[0] + (Slashed(r[1..]) + "/")) && Slashed(p) == "/" + (p[0] + Slashed(p[1..]))
  {
  }

  lemma ConsUnder(r: Path, p: Path)
    requires r != [] && p != []
    ensures r < p <==> r[0] == p[0] && r[1..] < p[1..]
  {
    assert r == [r[0]] + r[1..] && p == [p[0]] + p[1..];
    if r < p { assert p[1..][..|r| - 1] == p[..|r|][1..]; }
    if r[0] == p[0] && r[1..] < p[1..] { assert p[..|r|] == [p[0]] + p[1..][..|r| - 1]; }
  }

  lemma EmptyUnder(r: Path, p: Path)
    requires r == [] || p == []
    ensures Slashed(r) + "/" <= Slashed(p) <==> r < p
  {
    if r == [] {
      assert Slashed(r) + "/" == "/";
      if p != [] { assert Slashed(p)[..1] == "/"; }
    }
  }

  lemma SlashedUnder(x: Str, y: Str)
    ensures "/" + x <= "/" + y <==> x <= y
  {
    assert ("/" + x)[1..] == x && ("/" + y)[1..] == y;
  }

  lemma HeadsUnder(c: Str, a: Str, d: Str, b: Str)
    requires '/' !in c && '/' !in d && a != "" && a[0] == '/' && (b == "" || b[0] == '/')
    ensures c + a <= d + b <==> c == d && a <= b
  {
    SlashAfter(c, a);
    SlashAfter(d, b);
    if c + a <= d + b {
      SlashPrefix(c + a, d + b);
      assert (d + b)[..|c|] == c && (d + b)[..|d|] == d;
      assert (c + a)[|c|..] == a && (d + b)[|d|..] == b;
    }
    if c == d && a <= b { assert c + a <= d + b; }
  }

  /** `checkContainment`, but for ownership: the real place, and whether one of the roots holds it. */
  method CheckContainment(fs: Files, roots: seq<Path>, parts: seq<Str>) returns (ok: bool, placed: Placed)
    ensures placed == Place(fs, parts)
    ensures ok <==> !placed.Refused? && exists r :: r in roots && UnderRoot(PathText(r), PathText(placed.path))
  {
    var traversed;
    placed, traversed := PlaceRealPath(fs, parts);
    if placed.Refused? { return false, placed; }
    ok := false;
    for i := 0 to |roots|
      invariant ok <==> exists r :: r in roots[..i] && UnderRoot(PathText(r), PathText(placed.path))
    {
      assert roots[..i + 1] == roots[..i] + [roots[i]];
      if UnderRoot(PathText(roots[i]), PathText(placed.path)) { ok := true; }
    }
    assert roots[..|roots|] == roots;
  }

  /**
    * A path that resolves is contained exactly when the place it resolves to is a root or inside one: no
    * symlink on the way and no lookalike prefix changes the answer. (The root directory itself, as an approved
    * root, holds nothing but itself.)
    */
  lemma ContainmentIsReal(fs: Files, root: Path, parts: seq<Str>)
    requires FilesOk(fs) && Components(parts) && root != [] && Names(root)
    requires Resolve(fs, false, [], parts, MAX_SYMLINK_HOPS).Some?
    ensures var p := Resolve(fs, false, [], parts, MAX_SYMLINK_HOPS).value.path;
            Place(fs, parts) == Exists(p) && (UnderRoot(PathText(root), PathText(p)) <==> root <= p)
  {
    KernelAgrees(fs, parts);
    PlaceIsReal(fs, parts);
    var p := Resolve(fs, false, [], parts, MAX_SYMLINK_HOPS).value.path;
    assert Names(p) by {
      forall i | 0 <= i < |p| ensures Name(p[i]) { assert p[..i + 1] in fs.nodes; }
    }
    hide Resolve, Walk, SymlinkFree, FilesOk;
    UnderByComponents(root, p);
    SameText(root, p);
  }

  lemma SameText(r: Path, p: Path)
    requires r != [] && Names(r) && Names(p)
    ensures PathText(r) == PathText(p) <==> r == p
    ensures p == [] ==> !(PathText(r) + "/" <= PathText(p))
  {
    if p != [] && PathText(r) == PathText(p) {
      SlashedInjective(r, p);
    }
    if p == [] { assert Slashed(r)[0] == '/' && |Slashed(r)| >= 2; assert |PathText(p)| == 1; }
  }

  lemma {:induction false} SlashedInjective(r: Path, p: Path)
    requires Names(r) && Names(p) && Slashed(r) == Slashed(p)
    ensures r == p
  {
    if r != [] && p != [] {
      SlashAfter(r[0], Slashed(r[1..]));
      SlashAfter(p[0], Slashed(p[1..]));
      assert Slashed(r)[1..] == r[0] + Slashed(r[1..]) && Slashed(p)[1..] == p[0] + Slashed(p[1..]);
      var t := r[0] + Slashed(r[1..]);
      assert r[0] == t[..|r[0]|] && p[0] == t[..|p[0]|];
      assert Slashed(r[1..]) == t[|r[0]|..] && Slashed(p[1..]) == t[|p[0]|..];
      SlashedInjective(r[1..], p[1..]);
      assert r == [r[0]] + r[1..] && p == [p[0]] + p[1..];
    } else {
      assert r != [] ==> Slashed(r) != "";
      assert p != [] ==> Slashed(p) != "";
    }
  }
}
