/** The kernel's locks and the acquisitions. */
module OwnerLockKernel {
  // Every lock the kernel has is some process's live acquisition or lock in hand: what is dropped, let go of or held by
  // a process that died is free to be taken.

  import opened OwnerLock
  import opened Wrappers

  /** The process has that lock through that open file: by a live acquisition, or in hand. */
  ghost predicate Has(p: Proc, ino: nat, fd: nat)
  {
    (exists e :: e in p.entries && !p.entries[e].dropped && p.entries[e].ino == ino && p.entries[e].fd == fd) ||
    (fd in p.locked && p.locked[fd] == ino)
  }

  ghost predicate Someones(w: World, ino: nat, fd: nat)
  {
    exists i :: i in w.procs && Has(w.procs[i], ino, fd)
  }

  ghost predicate NoneLost(w: World)
  {
    forall ino :: ino in w.locks ==> Someones(w, ino, w.locks[ino])
  }

  lemma StillHas(w: World, x: World, i: nat, ino: nat, fd: nat)
    requires i in w.procs && Has(w.procs[i], ino, fd) && i in x.procs && Has(x.procs[i], ino, fd)
    ensures Someones(x, ino, fd)
  {
  }

  /** What the process does to its own books frees what it drops, and no other lock changes hands. */
  lemma BooksKeep(w: World, i: nat, q: Proc)
    requires NoneLost(w) && i in w.procs && SameFiles(w.procs[i], q)
    ensures NoneLost(WithProc(w, i, q))
  {
    var p, x := w.procs[i], WithProc(w, i, q);
    forall ino | ino in x.locks ensures Someones(x, ino, x.locks[ino])
    {
      var fd := w.locks[ino];
      assert Someones(w, ino, fd);
      var j :| j in w.procs && Has(w.procs[j], ino, fd);
      if j == i && !(fd in p.locked && p.locked[fd] == ino) {
        var e :| e in p.entries && !p.entries[e].dropped && p.entries[e].ino == ino && p.entries[e].fd == fd;
        assert q.entries[e].dropped ==> fd in Closed(p, q);
        assert e in q.entries && !q.entries[e].dropped;
      }
      StillHas(w, x, j, ino, fd);
    }
  }

  /** A step after which this process has more, and no lock is freed or taken but its own. */
  lemma MoreKept(w: World, x: World, i: nat)
    requires NoneLost(w) && i in x.procs && (forall j :: j in w.procs && j != i ==> j in x.procs && x.procs[j] == w.procs[j])
    requires forall ino, fd :: i in w.procs && Has(w.procs[i], ino, fd) ==> Has(x.procs[i], ino, fd)
    requires forall ino :: ino in x.locks ==> (ino in w.locks && x.locks[ino] == w.locks[ino]) || Has(x.procs[i], ino, x.locks[ino])
    ensures NoneLost(x)
  {
    forall ino | ino in x.locks ensures Someones(x, ino, x.locks[ino])
    {
      var fd := x.locks[ino];
      if !Has(x.procs[i], ino, fd) {
        assert Someones(w, ino, fd);
        var j :| j in w.procs && Has(w.procs[j], ino, fd);
        assert j in x.procs && Has(x.procs[j], ino, fd);
      }
    }
  }

  lemma Apart(w: World, i: nat)
    requires Inv(w) && i in w.procs
    ensures FdsApart(w.procs[i])
  {
    InvAt(w, i);
  }

  lemma FlockKeeps(w: World, x: World, i: nat, fd: nat)
    requires NoneLost(w) && FlockStep(w, x, i, fd) && FdsApart(w.procs[i])
    ensures NoneLost(x)
  {
    var p, q := w.procs[i], x.procs[i];
    forall ino, g | Has(p, ino, g) ensures Has(q, ino, g) {}
    MoreKept(w, x, i);
  }

  lemma RegisterKeeps(w: World, x: World, i: nat, fd: nat, e: nat, t: nat)
    requires NoneLost(w) && RegisterStep(w, x, i, fd, e, t)
    ensures NoneLost(x)
  {
    var p, q := w.procs[i], x.procs[i];
    assert q.entries[e] == Entry(fd, p.locked[fd], 1, false);
    forall ino, g | Has(p, ino, g) ensures Has(q, ino, g)
    {
      if !(g in p.locked && p.locked[g] == ino) {
        var f :| f in p.entries && !p.entries[f].dropped && p.entries[f].ino == ino && p.entries[f].fd == g;
        assert q.entries[f] == p.entries[f];
      }
    }
    MoreKept(w, x, i);
  }

  lemma ReuseKeeps(w: World, x: World, i: nat, t: nat)
    requires NoneLost(w) && ReuseStep(w, x, i, t)
    ensures NoneLost(x)
  {
    var p, q := w.procs[i], x.procs[i];
    forall ino, g | Has(p, ino, g) ensures Has(q, ino, g)
    {
      if !(g in p.locked && p.locked[g] == ino) {
        var f :| f in p.entries && !p.entries[f].dropped && p.entries[f].ino == ino && p.entries[f].fd == g;
        assert !q.entries[f].dropped && q.entries[f].ino == ino && q.entries[f].fd == g;
      }
    }
    MoreKept(w, x, i);
  }

  lemma LetGoKeeps(w: World, x: World, i: nat, fd: nat)
    requires NoneLost(w) && LetGoStep(w, x, i, fd)
    ensures NoneLost(x)
  {
    forall ino | ino in x.locks ensures Someones(x, ino, x.locks[ino])
    {
      var g := w.locks[ino];
      assert Someones(w, ino, g) && g != fd;
      var j :| j in w.procs && Has(w.procs[j], ino, g);
      assert Has(x.procs[j], ino, g);
      StillHas(w, x, j, ino, g);
    }
  }

  /** Whatever a process has, it has through a file of its own. */
  lemma HadByOwner(w: World, i: nat, ino: nat, fd: nat)
    requires Inv(w) && i in w.procs && Has(w.procs[i], ino, fd)
    ensures fd in w.owner && w.owner[fd] == i && ino in w.locks && w.locks[ino] == fd
  {
    assert Backed(w.procs[i], i, w.locks, w.owner);
    hide Inv;
  }

  lemma DieKeeps(w: World, x: World, i: nat)
    requires Inv(w) && NoneLost(w) && DieStep(w, x, i)
    ensures NoneLost(x)
  {
    hide Inv;
    forall ino | ino in x.locks ensures Someones(x, ino, x.locks[ino])
    {
      var fd := w.locks[ino];
      assert Someones(w, ino, fd);
      var j :| j in w.procs && Has(w.procs[j], ino, fd);
      HadByOwner(w, j, ino, fd);
      StillHas(w, x, j, ino, fd);
    }
  }

  lemma SameLocks(w: World, x: World)
    requires NoneLost(w) && (RenameStep(w, x) || (exists i, fd, ino :: OpenStep(w, x, i, fd, ino)) || exists i :: StartStep(w, x, i))
    ensures NoneLost(x)
  {
    forall ino | ino in x.locks ensures Someones(x, ino, x.locks[ino])
    {
      var fd := w.locks[ino];
      assert Someones(w, ino, fd);
      var j :| j in w.procs && Has(w.procs[j], ino, fd);
      assert Has(x.procs[j], ino, fd);
      StillHas(w, x, j, ino, fd);
    }
  }

  lemma StepKeepsNone(w: World, x: World)
    requires Inv(w) && NoneLost(w) && Next(w, x)
    ensures NoneLost(x)
  {
    hide NoneLost, ProcOk, FdsApart, Backed, SameFiles, Closed, Unlock, Release, AssertIntact, DropEntry, Registered, WithProc;
    if i, fd :| FlockStep(w, x, i, fd) {
      Apart(w, i);
      FlockKeeps(w, x, i, fd);
    } else if i, fd, e, t :| RegisterStep(w, x, i, fd, e, t) {
      RegisterKeeps(w, x, i, fd, e, t);
    } else if i, fd :| LetGoStep(w, x, i, fd) {
      LetGoKeeps(w, x, i, fd);
    } else if i, t :| ReuseStep(w, x, i, t) {
      ReuseKeeps(w, x, i, t);
    } else if i, t :| ReleaseStep(w, x, i, t) {
      ReleaseOk(w.procs[i], t);
      BooksKeep(w, i, Release(w.procs[i], t));
    } else if i, t :| AssertStep(w, x, i, t) {
      AssertOk(w.procs[i], t, w.named);
      BooksKeep(w, i, AssertIntact(w.procs[i], t, w.named));
    } else if i, e :| FailStep(w, x, i, e) {
      DropOk(w.procs[i], e);
      BooksKeep(w, i, DropEntry(w.procs[i], e));
    } else if i :| DieStep(w, x, i) {
      DieKeeps(w, x, i);
    } else {
      SameLocks(w, x);
    }
  }

  lemma {:induction false} RunNoneLost(run: seq<World>, k: nat)
    requires IsRun(run) && k < |run|
    ensures NoneLost(run[k])
    decreases k
  {
    hide Inv, Next;
    if k > 0 {
      RunNoneLost(run, k - 1);
      RunInv(run, k - 1);
      assert Next(run[k - 1], run[k - 1 + 1]);
      hide NoneLost;
      StepKeepsNone(run[k - 1], run[k]);
    }
  }

  /**
    * In every reachable state the kernel has exactly the locks of live acquisitions and of locks in hand: none is taken
    * from under its holder, and none outlives a drop, a lock let go of, or its process.
    */
  lemma LocksExactly(run: seq<World>, k: nat, ino: nat, fd: nat)
    requires IsRun(run) && k < |run|
    ensures ino in run[k].locks && run[k].locks[ino] == fd <==> exists i :: i in run[k].procs && Has(run[k].procs[i], ino, fd)
  {
    RunNoneLost(run, k);
    RunInv(run, k);
    var w := run[k];
    hide IsRun, Inv;
    if i :| i in w.procs && Has(w.procs[i], ino, fd) { HadByOwner(w, i, ino, fd); }
    if ino in w.locks && w.locks[ino] == fd { assert Someones(w, ino, fd); }
  }
}
