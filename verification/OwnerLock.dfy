/** The single-owner lock. */
module OwnerLock {
  // Processes lock the file at one name, which anyone may remove or replace at any moment, and check before every
  // write that the file they locked is still the one at that name.

  import opened Wrappers

  // ---------------------------------------------------------------- one acquisition and its tokens

  /** One acquisition: its open file, how many tokens count on it, and whether it was dropped. */
  datatype Entry = Entry(fd: nat, ino: nat, refs: int, dropped: bool)

  datatype Token = Token(entry: nat, released: bool)

  /**
    * A process: the entry registered now (HELD), every entry and token it ever made, the lock files it has
    * opened but not locked, and those locked but not registered yet.
    */
  datatype Proc = Proc(held: Option<nat>, entries: map<nat, Entry>, tokens: map<nat, Token>, opening: map<nat, nat>, locked: map<nat, nat>)

  const NEW_PROC := Proc(None, map[], map[], map[], map[])

  /** `dropEntry`: unregister it if it is the registered one, and close its file unless that was done before. */
  function DropEntry(p: Proc, e: nat): Proc
    requires e in p.entries
  {
    p.(held := if p.held == Some(e) then None else p.held, entries := p.entries[e := p.entries[e].(dropped := true)])
  }

  /** Is this the process's live acquisition? */
  predicate Registered(p: Proc, e: nat)
  {
    e in p.entries && !p.entries[e].dropped && p.held == Some(e)
  }

  /** A token's `release`: once, and only for a live acquisition; the last one drops it. */
  function Release(p: Proc, t: nat): Proc
    requires t in p.tokens && p.tokens[t].entry in p.entries
  {
    var e := p.tokens[t].entry;
    if p.tokens[t].released then p
    else
      var q := p.(tokens := p.tokens[t := Token(e, true)]);
      if !Registered(p, e) then q
      else
        var r := q.(entries := q.entries[e := q.entries[e].(refs := q.entries[e].refs - 1)]);
        if r.entries[e].refs > 0 then r else DropEntry(r, e)
  }

  /** Whether `assertIntact` passes: the token's own acquisition is live, and its file is the one at the name. */
  predicate Passes(p: Proc, t: nat, named: Option<nat>)
  {
    t in p.tokens && !p.tokens[t].released && Registered(p, p.tokens[t].entry) && named == Some(p.entries[p.tokens[t].entry].ino)
  }

  /** `assertIntact`: a live acquisition whose file is no longer at its name is dropped for every holder. */
  function AssertIntact(p: Proc, t: nat, named: Option<nat>): Proc
    requires t in p.tokens
  {
    var e := p.tokens[t].entry;
    if !p.tokens[t].released && Registered(p, e) && named != Some(p.entries[e].ino) then DropEntry(p, e) else p
  }

  // ---------------------------------------------------------------- processes, files and the kernel

  /** The inode at the name, the kernel's exclusive locks (inode to open file), the processes, and whose each open file is. */
  datatype World = World(named: Option<nat>, locks: map<nat, nat>, procs: map<nat, Proc>, owner: map<nat, nat>)

  /** The kernel frees the locks of closed files. */
  function Unlock(locks: map<nat, nat>, closed: set<nat>): map<nat, nat>
  {
    map i | i in locks && locks[i] !in closed :: locks[i]
  }

  /** The files of entries that `q` has dropped and `p` had not. */
  function Closed(p: Proc, q: Proc): set<nat>
  {
    set e | e in p.entries && e in q.entries && !p.entries[e].dropped && q.entries[e].dropped :: p.entries[e].fd
  }

  function WithProc(w: World, i: nat, q: Proc): World
    requires i in w.procs
  {
    w.(procs := w.procs[i := q], locks := Unlock(w.locks, Closed(w.procs[i], q)))
  }

  /** Someone removes or replaces the file at the name, with any inode, an old one included. */
  predicate RenameStep(w: World, x: World)
  {
    x == w.(named := x.named)
  }

  /** Open the file at the name, made anew where there is none. */
  predicate OpenStep(w: World, x: World, i: nat, fd: nat, ino: nat)
  {
    i in w.procs && fd !in w.owner && (w.named == Some(ino) || w.named == None) &&
    x == World(Some(ino), w.locks, w.procs[i := w.procs[i].(opening := w.procs[i].opening[fd := ino])], w.owner[fd := i])
  }

  /** Ask the kernel for the lock, without waiting: had, or held by another open file and given up. */
  predicate FlockStep(w: World, x: World, i: nat, fd: nat)
  {
    i in w.procs && fd in w.procs[i].opening &&
    var p := w.procs[i];
    var ino, rest := p.opening[fd], p.opening - {fd};
    x == if ino in w.locks then w.(procs := w.procs[i := p.(opening := rest)])
         else w.(locks := w.locks[ino := fd], procs := w.procs[i := p.(opening := rest, locked := p.locked[fd := ino])])
  }

  /** The key is unchanged: register the acquisition, with its first token. */
  predicate RegisterStep(w: World, x: World, i: nat, fd: nat, e: nat, t: nat)
  {
    i in w.procs && fd in w.procs[i].locked && e !in w.procs[i].entries && t !in w.procs[i].tokens &&
    var p := w.procs[i];
    x == w.(procs := w.procs[i := p.(held := Some(e), entries := p.entries[e := Entry(fd, p.locked[fd], 1, false)],
                                     tokens := p.tokens[t := Token(e, false)], locked := p.locked - {fd})])
  }

  /** The key changed meanwhile: let the lock go. */
  predicate LetGoStep(w: World, x: World, i: nat, fd: nat)
  {
    i in w.procs && fd in w.procs[i].locked &&
    x == w.(procs := w.procs[i := w.procs[i].(locked := w.procs[i].locked - {fd})], locks := Unlock(w.locks, {fd}))
  }

  /** The process holds the lock already: one more token on the same acquisition. */
  predicate ReuseStep(w: World, x: World, i: nat, t: nat)
  {
    i in w.procs && w.procs[i].held.Some? && t !in w.procs[i].tokens &&
    var p := w.procs[i];
    var e := p.held.value;
    e in p.entries &&
    x == w.(procs := w.procs[i := p.(entries := p.entries[e := p.entries[e].(refs := p.entries[e].refs + 1)], tokens := p.tokens[t := Token(e, false)])])
  }

  predicate ReleaseStep(w: World, x: World, i: nat, t: nat)
  {
    i in w.procs && t in w.procs[i].tokens && w.procs[i].tokens[t].entry in w.procs[i].entries && x == WithProc(w, i, Release(w.procs[i], t))
  }

  predicate AssertStep(w: World, x: World, i: nat, t: nat)
  {
    i in w.procs && t in w.procs[i].tokens && x == WithProc(w, i, AssertIntact(w.procs[i], t, w.named))
  }

  /** The cleanup right after a registration failed: neither the entry nor the lock is kept. */
  predicate FailStep(w: World, x: World, i: nat, e: nat)
  {
    i in w.procs && e in w.procs[i].entries && Registered(w.procs[i], e) && x == WithProc(w, i, DropEntry(w.procs[i], e))
  }

  /** A process dies: the kernel closes its files. */
  predicate DieStep(w: World, x: World, i: nat)
  {
    i in w.procs && x == w.(procs := w.procs - {i}, locks := Unlock(w.locks, set fd | fd in w.owner && w.owner[fd] == i))
  }

  predicate StartStep(w: World, x: World, i: nat)
  {
    i !in w.procs && x == w.(procs := w.procs[i := NEW_PROC])
  }

  ghost predicate Next(w: World, x: World)
  {
    RenameStep(w, x) || (exists i, fd, ino :: OpenStep(w, x, i, fd, ino)) || (exists i, fd :: FlockStep(w, x, i, fd)) ||
    (exists i, fd, e, t :: RegisterStep(w, x, i, fd, e, t)) || (exists i, fd :: LetGoStep(w, x, i, fd)) ||
    (exists i, t :: ReuseStep(w, x, i, t)) || (exists i, t :: ReleaseStep(w, x, i, t)) || (exists i, t :: AssertStep(w, x, i, t)) ||
    (exists i, e :: FailStep(w, x, i, e)) || (exists i :: DieStep(w, x, i)) || (exists i :: StartStep(w, x, i))
  }

  predicate Initial(w: World)
  {
    w.locks == map[] && w.procs == map[] && w.owner == map[]
  }

  // ---------------------------------------------------------------- the invariant

  function Counting(p: Proc, e: nat): set<nat>
  {
    set t | t in p.tokens && p.tokens[t].entry == e && !p.tokens[t].released
  }

  /** Every file it ever opened is in one place only: an entry, a lock in hand, or an open file not locked yet. */
  ghost predicate FdsApart(p: Proc)
  {
    (forall e, f :: e in p.entries && f in p.entries && p.entries[e].fd == p.entries[f].fd ==> e == f) &&
    (forall e :: e in p.entries ==> p.entries[e].fd !in p.locked && p.entries[e].fd !in p.opening) &&
    (forall fd :: fd in p.locked ==> fd !in p.opening)
  }

  predicate TokensOk(p: Proc)
  {
    forall t :: t in p.tokens ==> p.tokens[t].entry in p.entries
  }

  /** What is registered is live, and counts exactly its unreleased tokens, of which there is one at least. */
  predicate HeldOk(p: Proc)
  {
    p.held.Some? ==> Registered(p, p.held.value) && p.entries[p.held.value].refs == |Counting(p, p.held.value)| && Counting(p, p.held.value) != {}
  }

  ghost predicate ProcOk(p: Proc)
  {
    FdsApart(p) && TokensOk(p) && HeldOk(p)
  }

  /** Its files are its own. */
  ghost predicate Owned(p: Proc, i: nat, owner: map<nat, nat>)
  {
    (forall e :: e in p.entries ==> p.entries[e].fd in owner && owner[p.entries[e].fd] == i) &&
    (forall fd :: fd in p.opening || fd in p.locked ==> fd in owner && owner[fd] == i)
  }

  /** It has the kernel's lock for every live entry and every lock in hand. */
  ghost predicate Locks(p: Proc, locks: map<nat, nat>)
  {
    (forall e :: e in p.entries && !p.entries[e].dropped ==> p.entries[e].ino in locks && locks[p.entries[e].ino] == p.entries[e].fd) &&
    (forall fd :: fd in p.locked ==> p.locked[fd] in locks && locks[p.locked[fd]] == fd)
  }

  ghost predicate Backed(p: Proc, i: nat, locks: map<nat, nat>, owner: map<nat, nat>)
  {
    Owned(p, i, owner) && Locks(p, locks)
  }

  ghost predicate Inv(w: World)
  {
    (forall i :: i in w.procs ==> ProcOk(w.procs[i]) && Backed(w.procs[i], i, w.locks, w.owner)) &&
    forall ino :: ino in w.locks ==> w.locks[ino] in w.owner
  }

  // ---------------------------------------------------------------- every step keeps it

  /** `q` is `p` after token work: the same files, and nothing undropped. */
  ghost predicate SameFiles(p: Proc, q: Proc)
  {
    q.opening == p.opening && q.locked == p.locked && q.entries.Keys == p.entries.Keys &&
    forall e :: e in p.entries ==>
      q.entries[e].fd == p.entries[e].fd && q.entries[e].ino == p.entries[e].ino && (p.entries[e].dropped ==> q.entries[e].dropped)
  }

  /** Closing a process's files frees no lock of another, and of its own only those of what was dropped. */
  lemma BackedAfter(p: Proc, q: Proc, i: nat, locks: map<nat, nat>, owner: map<nat, nat>)
    requires ProcOk(p) && Backed(p, i, locks, owner) && SameFiles(p, q)
    ensures Backed(q, i, Unlock(locks, Closed(p, q)), owner)
  {
    forall e | e in q.entries && !q.entries[e].dropped ensures q.entries[e].fd !in Closed(p, q)
    {
      LiveStaysOpen(p, q, e);
    }
  }

  lemma LiveStaysOpen(p: Proc, q: Proc, e: nat)
    requires ProcOk(p) && SameFiles(p, q) && e in q.entries && !q.entries[e].dropped
    ensures q.entries[e].fd !in Closed(p, q)
  {
  }

  lemma OthersBacked(r: Proc, j: nat, closed: set<nat>, locks: map<nat, nat>, owner: map<nat, nat>)
    requires Backed(r, j, locks, owner) && forall fd :: fd in closed ==> !(fd in owner && owner[fd] == j)
    ensures Backed(r, j, Unlock(locks, closed), owner)
  {
  }

  lemma WithProcInv(w: World, i: nat, q: Proc)
    requires Inv(w) && i in w.procs && ProcOk(q) && SameFiles(w.procs[i], q)
    ensures Inv(WithProc(w, i, q))
  {
    var p := w.procs[i];
    var x := WithProc(w, i, q);
    BackedAfter(p, q, i, w.locks, w.owner);
    forall j | j in x.procs ensures ProcOk(x.procs[j]) && Backed(x.procs[j], j, x.locks, x.owner)
    {
      if j != i { OthersBacked(w.procs[j], j, Closed(p, q), w.locks, w.owner); }
    }
  }

  lemma DropOk(p: Proc, e: nat)
    requires ProcOk(p) && Registered(p, e)
    ensures ProcOk(DropEntry(p, e)) && SameFiles(p, DropEntry(p, e))
  {
  }

  lemma CountingLess(p: Proc, t: nat, e: nat)
    requires t in p.tokens && !p.tokens[t].released
    ensures var q := p.(tokens := p.tokens[t := Token(p.tokens[t].entry, true)]);
            if p.tokens[t].entry == e then Counting(q, e) == Counting(p, e) - {t} && t in Counting(p, e) else Counting(q, e) == Counting(p, e)
  {
  }

  lemma ReleaseOk(p: Proc, t: nat)
    requires ProcOk(p) && t in p.tokens
    ensures ProcOk(Release(p, t)) && SameFiles(p, Release(p, t))
  {
    var e := p.tokens[t].entry;
    assert e in p.entries;
    if !p.tokens[t].released {
      CountingLess(p, t, e);
      if Registered(p, e) {
        ReleaseLive(p, t);
      } else {
        if p.held.Some? { CountingLess(p, t, p.held.value); }
      }
    }
  }

  /** One token fewer on a live acquisition, before anything is dropped. */
  function OneFewer(p: Proc, t: nat): Proc
    requires t in p.tokens && p.tokens[t].entry in p.entries
  {
    var e := p.tokens[t].entry;
    p.(tokens := p.tokens[t := Token(e, true)], entries := p.entries[e := p.entries[e].(refs := p.entries[e].refs - 1)])
  }

  lemma OneFewerCounts(p: Proc, t: nat)
    requires TokensOk(p) && HeldOk(p) && t in p.tokens && !p.tokens[t].released && Registered(p, p.tokens[t].entry)
    ensures var e, r := p.tokens[t].entry, OneFewer(p, t);
            r.held == Some(e) && r.entries[e].refs == |Counting(r, e)| && TokensOk(r) &&
            Release(p, t) == if r.entries[e].refs > 0 then r else DropEntry(r, e)
  {
    var e := p.tokens[t].entry;
    CountingLess(p, t, e);
    var q := p.(tokens := p.tokens[t := Token(e, true)]);
    SameCounting(q, OneFewer(p, t));
    Fewer(Counting(p, e), t);
    hide Counting;
  }

  lemma OneFewerFiles(p: Proc, t: nat)
    requires t in p.tokens && p.tokens[t].entry in p.entries
    ensures SameFiles(p, OneFewer(p, t)) && SameFiles(p, DropEntry(OneFewer(p, t), p.tokens[t].entry))
  {
  }

  lemma ReleaseLive(p: Proc, t: nat)
    requires ProcOk(p) && t in p.tokens && !p.tokens[t].released && Registered(p, p.tokens[t].entry)
    ensures ProcOk(Release(p, t)) && SameFiles(p, Release(p, t))
  {
    var e, r := p.tokens[t].entry, OneFewer(p, t);
    OneFewerCounts(p, t);
    OneFewerFiles(p, t);
    SameFilesApart(p, r);
    SameFilesApart(p, DropEntry(r, e));
    hide FdsApart, SameFiles, Release, Counting;
    assert r.entries[e].refs > 0 ==> Counting(r, e) != {};
  }

  lemma Fewer(s: set<nat>, t: nat)
    requires t in s
    ensures |s - {t}| == |s| - 1 && (|s| == 1 <==> s == {t}) && (s - {t} == {} <==> s == {t})
  {
    if |s| == 1 { assert |s - {t}| == 0; }
  }

  lemma SameFilesApart(p: Proc, q: Proc)
    requires FdsApart(p) && SameFiles(p, q)
    ensures FdsApart(q)
  {
  }

  lemma AssertOk(p: Proc, t: nat, named: Option<nat>)
    requires ProcOk(p) && t in p.tokens
    ensures ProcOk(AssertIntact(p, t, named)) && SameFiles(p, AssertIntact(p, t, named))
  {
    if Registered(p, p.tokens[t].entry) { DropOk(p, p.tokens[t].entry); }
  }

  lemma SameCounting(p: Proc, q: Proc)
    requires q.tokens == p.tokens
    ensures forall e :: Counting(q, e) == Counting(p, e)
  {
  }

  /** A process replaced by one whose books are right, the others untouched and still backed. */
  lemma ReplaceProc(w: World, x: World, i: nat, q: Proc)
    requires Inv(w) && x.procs == w.procs[i := q] && ProcOk(q) && Backed(q, i, x.locks, x.owner)
    requires forall j :: j in w.procs && j != i ==> Backed(w.procs[j], j, x.locks, x.owner)
    requires forall ino :: ino in x.locks ==> x.locks[ino] in x.owner
    ensures Inv(x)
  {
    hide ProcOk, Backed;
  }

  /** More locks and more files leave a process backed. */
  lemma MoreBacked(r: Proc, j: nat, locks: map<nat, nat>, owner: map<nat, nat>, locks': map<nat, nat>, owner': map<nat, nat>)
    requires Backed(r, j, locks, owner)
    requires forall k :: k in locks ==> k in locks' && locks'[k] == locks[k]
    requires forall k :: k in owner ==> k in owner' && owner'[k] == owner[k]
    ensures Backed(r, j, locks', owner')
  {
  }

  lemma OthersStay(w: World, x: World, i: nat)
    requires Inv(w)
    requires forall k :: k in w.locks ==> k in x.locks && x.locks[k] == w.locks[k]
    requires forall k :: k in w.owner ==> k in x.owner && x.owner[k] == w.owner[k]
    ensures forall j :: j in w.procs && j != i ==> Backed(w.procs[j], j, x.locks, x.owner)
  {
    hide Backed, ProcOk;
    forall j | j in w.procs && j != i ensures Backed(w.procs[j], j, x.locks, x.owner)
    {
      MoreBacked(w.procs[j], j, w.locks, w.owner, x.locks, x.owner);
    }
  }

  /** A file no process has is none of this one's. */
  lemma NotItsOwn(p: Proc, i: nat, locks: map<nat, nat>, owner: map<nat, nat>, fd: nat)
    requires Backed(p, i, locks, owner) && fd !in owner
    ensures fd !in p.opening && fd !in p.locked && forall e :: e in p.entries ==> p.entries[e].fd != fd
  {
  }

  lemma OpenInv(w: World, x: World, i: nat, fd: nat, ino: nat)
    requires Inv(w) && OpenStep(w, x, i, fd, ino)
    ensures Inv(x)
  {
    var p, q := w.procs[i], x.procs[i];
    InvAt(w, i);
    OthersStay(w, x, i);
    OpenOk(p, i, fd, ino, w.locks, w.owner);
    LocksOwned(w);
    hide *;
    ReplaceProc(w, x, i, q);
  }

  lemma InvAt(w: World, i: nat)
    requires Inv(w) && i in w.procs
    ensures ProcOk(w.procs[i]) && Backed(w.procs[i], i, w.locks, w.owner)
  {
  }

  lemma LocksOwned(w: World)
    requires Inv(w)
    ensures forall ino :: ino in w.locks ==> w.locks[ino] in w.owner
  {
  }

  lemma OpenOk(p: Proc, i: nat, fd: nat, ino: nat, locks: map<nat, nat>, owner: map<nat, nat>)
    requires ProcOk(p) && Backed(p, i, locks, owner) && fd !in owner
    ensures var q := p.(opening := p.opening[fd := ino]); ProcOk(q) && Backed(q, i, locks, owner[fd := i])
  {
    var q := p.(opening := p.opening[fd := ino]);
    NotItsOwn(p, i, locks, owner, fd);
    SameCounting(p, q);
    assert FdsApart(q) by { hide HeldOk, TokensOk, Owned, Locks; }
    assert HeldOk(q) by { hide FdsApart, TokensOk, Owned, Locks, Counting; }
    assert Locks(q, locks) by { hide FdsApart, HeldOk, TokensOk, Owned; }
    assert Owned(q, i, owner[fd := i]) by { hide FdsApart, HeldOk, TokensOk, Locks; }
    hide FdsApart, HeldOk, Locks, Owned;
  }

  lemma FlockInv(w: World, x: World, i: nat, fd: nat)
    requires Inv(w) && FlockStep(w, x, i, fd)
    ensures Inv(x)
  {
    var p, q := w.procs[i], x.procs[i];
    InvAt(w, i);
    LocksOwned(w);
    OthersStay(w, x, i);
    FlockOk(p, i, fd, w.locks, w.owner);
    OpeningOwned(p, i, w.locks, w.owner, fd);
    hide ProcOk, Backed, Inv;
    ReplaceProc(w, x, i, q);
  }

  lemma OpeningOwned(p: Proc, i: nat, locks: map<nat, nat>, owner: map<nat, nat>, fd: nat)
    requires Backed(p, i, locks, owner) && (fd in p.opening || fd in p.locked)
    ensures fd in owner && owner[fd] == i
  {
  }

  lemma FlockOk(p: Proc, i: nat, fd: nat, locks: map<nat, nat>, owner: map<nat, nat>)
    requires ProcOk(p) && Backed(p, i, locks, owner) && fd in p.opening
    ensures var q := p.(opening := p.opening - {fd}); ProcOk(q) && Backed(q, i, locks, owner)
    ensures var ino := p.opening[fd]; ino !in locks ==>
            var r := p.(opening := p.opening - {fd}, locked := p.locked[fd := ino]); ProcOk(r) && Backed(r, i, locks[ino := fd], owner)
  {
    hide FdsApart, HeldOk, TokensOk, Owned, Locks, ProcOk, Backed;
    GiveUpOk(p, i, fd, locks, owner);
    if p.opening[fd] !in locks { LockedOk(p, i, fd, locks, owner); }
  }

  lemma GiveUpOk(p: Proc, i: nat, fd: nat, locks: map<nat, nat>, owner: map<nat, nat>)
    requires ProcOk(p) && Backed(p, i, locks, owner) && fd in p.opening
    ensures var q := p.(opening := p.opening - {fd}); ProcOk(q) && Backed(q, i, locks, owner)
  {
    SameCounting(p, p.(opening := p.opening - {fd}));
    hide Counting;
  }

  lemma LockedOk(p: Proc, i: nat, fd: nat, locks: map<nat, nat>, owner: map<nat, nat>)
    requires ProcOk(p) && Backed(p, i, locks, owner) && fd in p.opening && p.opening[fd] !in locks
    ensures var ino := p.opening[fd];
            var r := p.(opening := p.opening - {fd}, locked := p.locked[fd := ino]); ProcOk(r) && Backed(r, i, locks[ino := fd], owner)
  {
    var ino := p.opening[fd];
    var r := p.(opening := p.opening - {fd}, locked := p.locked[fd := ino]);
    SameCounting(p, r);
    assert FdsApart(r) by { hide HeldOk, TokensOk, Owned, Locks; }
    assert HeldOk(r) by { hide FdsApart, TokensOk, Owned, Locks, Counting; }
    assert Locks(r, locks[ino := fd]) by { hide FdsApart, HeldOk, TokensOk, Owned; }
    assert Owned(r, i, owner) by { hide FdsApart, HeldOk, TokensOk, Locks; }
    hide FdsApart, HeldOk, Locks, Owned;
  }

  function RegisterProc(p: Proc, fd: nat, e: nat, t: nat): Proc
    requires fd in p.locked
  {
    p.(held := Some(e), entries := p.entries[e := Entry(fd, p.locked[fd], 1, false)],
       tokens := p.tokens[t := Token(e, false)], locked := p.locked - {fd})
  }

  lemma RegisterOk(p: Proc, i: nat, fd: nat, e: nat, t: nat, locks: map<nat, nat>, owner: map<nat, nat>)
    requires ProcOk(p) && Backed(p, i, locks, owner) && fd in p.locked && e !in p.entries && t !in p.tokens
    ensures ProcOk(RegisterProc(p, fd, e, t)) && Backed(RegisterProc(p, fd, e, t), i, locks, owner)
  {
    var q := RegisterProc(p, fd, e, t);
    assert Counting(q, e) == {t} by { hide HeldOk, FdsApart, Owned, Locks; }
    assert FdsApart(q) by { hide HeldOk, TokensOk, Owned, Locks; }
    assert HeldOk(q) by { hide FdsApart, TokensOk, Owned, Locks, Counting; }
    assert TokensOk(q) by { hide FdsApart, HeldOk, Owned, Locks, Counting; }
    assert Locks(q, locks) by { hide FdsApart, HeldOk, TokensOk, Owned; }
    assert Owned(q, i, owner) by { hide FdsApart, HeldOk, TokensOk, Locks; }
    hide FdsApart, HeldOk, Locks, Owned, TokensOk;
  }

  lemma RegisterInv(w: World, x: World, i: nat, fd: nat, e: nat, t: nat)
    requires Inv(w) && RegisterStep(w, x, i, fd, e, t)
    ensures Inv(x)
  {
    var p := w.procs[i];
    InvAt(w, i);
    LocksOwned(w);
    OthersStay(w, x, i);
    RegisterOk(p, i, fd, e, t, w.locks, w.owner);
    assert x.procs == w.procs[i := RegisterProc(p, fd, e, t)] && x.locks == w.locks && x.owner == w.owner;
    hide *;
    ReplaceProc(w, x, i, RegisterProc(p, fd, e, t));
  }

  lemma LetGoOk(p: Proc, i: nat, fd: nat, locks: map<nat, nat>, owner: map<nat, nat>)
    requires ProcOk(p) && Backed(p, i, locks, owner) && fd in p.locked
    ensures var q := p.(locked := p.locked - {fd}); ProcOk(q) && Backed(q, i, Unlock(locks, {fd}), owner)
  {
    var q := p.(locked := p.locked - {fd});
    SameCounting(p, q);
    assert FdsApart(q) by { hide HeldOk, TokensOk, Owned, Locks; }
    assert HeldOk(q) by { hide FdsApart, TokensOk, Owned, Locks, Counting; }
    assert Locks(q, Unlock(locks, {fd})) by { hide HeldOk, TokensOk, Owned; }
    assert Owned(q, i, owner) by { hide FdsApart, HeldOk, TokensOk, Locks; }
    hide FdsApart, HeldOk, Locks, Owned;
  }

  lemma LetGoInv(w: World, x: World, i: nat, fd: nat)
    requires Inv(w) && LetGoStep(w, x, i, fd)
    ensures Inv(x)
  {
    var p, q := w.procs[i], x.procs[i];
    InvAt(w, i);
    LocksOwned(w);
    OpeningOwned(p, i, w.locks, w.owner, fd);
    LetGoOk(p, i, fd, w.locks, w.owner);
    hide ProcOk, Backed;
    forall j | j in w.procs && j != i ensures Backed(w.procs[j], j, x.locks, x.owner)
    {
      OthersBacked(w.procs[j], j, {fd}, w.locks, w.owner);
    }
    hide Inv;
    ReplaceProc(w, x, i, q);
  }

  function ReuseProc(p: Proc, t: nat): Proc
    requires p.held.Some? && p.held.value in p.entries
  {
    var e := p.held.value;
    p.(entries := p.entries[e := p.entries[e].(refs := p.entries[e].refs + 1)], tokens := p.tokens[t := Token(e, false)])
  }

  lemma ReuseCounts(p: Proc, t: nat)
    requires TokensOk(p) && HeldOk(p) && p.held.Some? && t !in p.tokens
    ensures p.held.value in p.entries && HeldOk(ReuseProc(p, t)) && TokensOk(ReuseProc(p, t))
  {
    var e := p.held.value;
    assert Counting(ReuseProc(p, t), e) == Counting(p, e) + {t} && t !in Counting(p, e);
    hide Counting;
  }

  lemma SameFilesOwned(p: Proc, q: Proc, i: nat, owner: map<nat, nat>)
    requires Owned(p, i, owner) && SameFiles(p, q)
    ensures Owned(q, i, owner)
  {
  }

  lemma ReuseOk(p: Proc, i: nat, t: nat, locks: map<nat, nat>, owner: map<nat, nat>)
    requires ProcOk(p) && Backed(p, i, locks, owner) && p.held.Some? && t !in p.tokens
    ensures p.held.value in p.entries && ProcOk(ReuseProc(p, t)) && Backed(ReuseProc(p, t), i, locks, owner)
  {
    ReuseCounts(p, t);
    SameFilesApart(p, ReuseProc(p, t));
    hide HeldOk, TokensOk, FdsApart;
    SameFilesOwned(p, ReuseProc(p, t), i, owner);
    hide Owned, SameFiles;
  }

  lemma ReuseInv(w: World, x: World, i: nat, t: nat)
    requires Inv(w) && ReuseStep(w, x, i, t)
    ensures Inv(x)
  {
    var p := w.procs[i];
    InvAt(w, i);
    LocksOwned(w);
    OthersStay(w, x, i);
    ReuseOk(p, i, t, w.locks, w.owner);
    assert x.procs == w.procs[i := ReuseProc(p, t)] && x.locks == w.locks && x.owner == w.owner;
    hide *;
    ReplaceProc(w, x, i, ReuseProc(p, t));
  }

  lemma DieInv(w: World, x: World, i: nat)
    requires Inv(w) && DieStep(w, x, i)
    ensures Inv(x)
  {
    hide ProcOk, Backed;
    var closed := set fd | fd in w.owner && w.owner[fd] == i;
    forall j | j in x.procs ensures ProcOk(x.procs[j]) && Backed(x.procs[j], j, x.locks, x.owner)
    {
      assert ProcOk(w.procs[j]) && Backed(w.procs[j], j, w.locks, w.owner);
      OthersBacked(w.procs[j], j, closed, w.locks, w.owner);
    }
  }

  lemma StepInv(w: World, x: World)
    requires Inv(w) && Next(w, x)
    ensures Inv(x)
  {
    hide ProcOk, Backed, SameFiles, Closed, Unlock, Release, AssertIntact, DropEntry, Registered;
    if i, fd, ino :| OpenStep(w, x, i, fd, ino) {
      OpenInv(w, x, i, fd, ino);
    } else if i, fd :| FlockStep(w, x, i, fd) {
      FlockInv(w, x, i, fd);
    } else if i, fd, e, t :| RegisterStep(w, x, i, fd, e, t) {
      RegisterInv(w, x, i, fd, e, t);
    } else if i, fd :| LetGoStep(w, x, i, fd) {
      LetGoInv(w, x, i, fd);
    } else if i, t :| ReuseStep(w, x, i, t) {
      ReuseInv(w, x, i, t);
    } else if i, t :| ReleaseStep(w, x, i, t) {
      ReleaseOk(w.procs[i], t);
      WithProcInv(w, i, Release(w.procs[i], t));
    } else if i, t :| AssertStep(w, x, i, t) {
      AssertOk(w.procs[i], t, w.named);
      WithProcInv(w, i, AssertIntact(w.procs[i], t, w.named));
    } else if i, e :| FailStep(w, x, i, e) {
      DropOk(w.procs[i], e);
      WithProcInv(w, i, DropEntry(w.procs[i], e));
    } else if i :| DieStep(w, x, i) {
      DieInv(w, x, i);
    } else if i :| StartStep(w, x, i) {
      StartInv(w, x, i);
    }
  }

  lemma StartInv(w: World, x: World, i: nat)
    requires Inv(w) && StartStep(w, x, i)
    ensures Inv(x)
  {
    forall j | j in x.procs ensures ProcOk(x.procs[j]) && Backed(x.procs[j], j, x.locks, x.owner)
    {
      if j != i { assert ProcOk(w.procs[j]) && Backed(w.procs[j], j, w.locks, w.owner); }
    }
  }

  ghost predicate IsRun(run: seq<World>)
  {
    run != [] && Initial(run[0]) && forall k :: 0 <= k < |run| - 1 ==> Next(run[k], run[k + 1])
  }

  lemma {:induction false} RunInv(run: seq<World>, k: nat)
    requires IsRun(run) && k < |run|
    ensures Inv(run[k])
    decreases k
  {
    hide Inv, Next;
    if k == 0 {
      InitialInv(run[0]);
    } else {
      RunInv(run, k - 1);
      assert Next(run[k - 1], run[k - 1 + 1]);
      StepInv(run[k - 1], run[k]);
    }
  }

  lemma InitialInv(w: World)
    requires Initial(w)
    ensures Inv(w)
  {
  }

  // ---------------------------------------------------------------- the theorems

  /** The process owns the DB now: its live acquisition's file is the one at the name. */
  predicate Owns(w: World, i: nat)
  {
    i in w.procs && var p := w.procs[i];
    p.held.Some? && Registered(p, p.held.value) && w.named == Some(p.entries[p.held.value].ino)
  }

  /**
    * In every reachable state, whatever was removed or replaced at the name and when, at most one process can
    * pass the check before a write.
    */
  lemma OneOwner(run: seq<World>, k: nat, i: nat, t: nat, j: nat, u: nat)
    requires IsRun(run) && k < |run| && i in run[k].procs && j in run[k].procs
    requires Passes(run[k].procs[i], t, run[k].named) && Passes(run[k].procs[j], u, run[k].named)
    ensures i == j && run[k].procs[i].tokens[t].entry == run[k].procs[j].tokens[u].entry && Owns(run[k], i)
  {
    hide IsRun;
    RunInv(run, k);
  }

  /** A live acquisition is counted by exactly its unreleased tokens; it is dropped when the last one goes. */
  lemma CountedExactly(run: seq<World>, k: nat, i: nat)
    requires IsRun(run) && k < |run| && i in run[k].procs && run[k].procs[i].held.Some?
    ensures var p := run[k].procs[i]; var e := p.held.value;
            Registered(p, e) && p.entries[e].refs == |Counting(p, e)| && Counting(p, e) != {} &&
            forall t :: t in Counting(p, e) ==> (Release(p, t).entries[e].dropped <==> Counting(p, e) == {t})
  {
    hide IsRun;
    RunInv(run, k);
    var p := run[k].procs[i];
    var e := p.held.value;
    assert ProcOk(p);
    forall t | t in Counting(p, e) ensures Release(p, t).entries[e].dropped <==> Counting(p, e) == {t}
    {
      assert |Counting(p, e) - {t}| == |Counting(p, e)| - 1;
      assert Counting(p, e) - {t} == {} <==> Counting(p, e) == {t};
    }
  }

  /** A token of a dropped or replaced acquisition changes nothing but itself. */
  lemma StaleTokenHarmless(p: Proc, t: nat, named: Option<nat>)
    requires t in p.tokens && p.tokens[t].entry in p.entries && !Registered(p, p.tokens[t].entry)
    ensures Release(p, t).held == p.held && Release(p, t).entries == p.entries && AssertIntact(p, t, named) == p && !Passes(p, t, named)
  {
  }

  /** What drops an acquisition: its last token's release, its lock file gone from the name, or a failed cleanup. */
  ghost predicate WhyDropped(w: World, x: World, i: nat, e: nat)
    requires i in w.procs && e in w.procs[i].entries
  {
    w.procs[i].held == Some(e) &&
    ((exists t: nat :: ReleaseStep(w, x, i, t) && Counting(w.procs[i], e) == {t}) ||
     (exists t: nat :: AssertStep(w, x, i, t) && w.named != Some(w.procs[i].entries[e].ino)) || FailStep(w, x, i, e))
  }

  ghost predicate DropStep(w: World, x: World, i: nat, e: nat)
  {
    i in w.procs && e in w.procs[i].entries && i in x.procs && e in x.procs[i].entries &&
    !w.procs[i].entries[e].dropped && x.procs[i].entries[e].dropped
  }

  /** What a step does to the entries a process has, whichever step it is. */
  ghost predicate EntriesMove(w: World, x: World, i: nat, e: nat)
    requires i in w.procs && e in w.procs[i].entries && i in x.procs
  {
    e in x.procs[i].entries && (w.procs[i].entries[e].dropped ==> x.procs[i].entries[e].dropped) &&
    (DropStep(w, x, i, e) ==> WhyDropped(w, x, i, e))
  }

  lemma ReleaseMoves(w: World, x: World, i: nat, e: nat, j: nat, t: nat)
    requires Inv(w) && i in w.procs && i in x.procs && e in w.procs[i].entries && ReleaseStep(w, x, j, t)
    ensures EntriesMove(w, x, i, e)
  {
    InvAt(w, i);
    hide Backed, Closed, Unlock, Inv, FdsApart, HeldOk, TokensOk;
    if j == i {
      ReleaseOk(w.procs[i], t);
      hide ProcOk, Release;
      if DropStep(w, x, i, e) { ReleaseDrops(w.procs[i], t, e); }
    }
  }

  lemma AssertMoves(w: World, x: World, i: nat, e: nat, j: nat, t: nat)
    requires Inv(w) && i in w.procs && i in x.procs && e in w.procs[i].entries && AssertStep(w, x, j, t)
    ensures EntriesMove(w, x, i, e)
  {
    InvAt(w, i);
    hide Backed, Closed, Unlock, Inv, FdsApart, HeldOk, TokensOk;
    if j == i {
      AssertDrops(w.procs[i], t, w.named, e);
      hide ProcOk, AssertIntact;
    }
  }

  lemma FailMoves(w: World, x: World, i: nat, e: nat, j: nat, f: nat)
    requires i in w.procs && i in x.procs && e in w.procs[i].entries && FailStep(w, x, j, f)
    ensures EntriesMove(w, x, i, e)
  {
    hide Closed, Unlock, ReleaseStep, AssertStep;
  }

  lemma GrowMoves(w: World, x: World, i: nat, e: nat)
    requires i in w.procs && i in x.procs && e in w.procs[i].entries
    requires (exists j, fd, f, t :: RegisterStep(w, x, j, fd, f, t)) || (exists j, t :: ReuseStep(w, x, j, t))
    ensures EntriesMove(w, x, i, e)
  {
    hide WhyDropped;
  }

  lemma StillMoves(w: World, x: World, i: nat, e: nat)
    requires i in w.procs && i in x.procs && e in w.procs[i].entries && x.procs[i].entries == w.procs[i].entries
    ensures EntriesMove(w, x, i, e)
  {
    hide WhyDropped;
  }

  /** A drop is never taken back, and a step that drops an acquisition is one of these: so each is dropped at most once. */
  lemma DroppedOnce(w: World, x: World, i: nat, e: nat)
    requires Inv(w) && Next(w, x) && i in w.procs && i in x.procs && e in w.procs[i].entries
    ensures EntriesMove(w, x, i, e)
  {
    hide EntriesMove, Inv, OpenStep, FlockStep, RegisterStep, LetGoStep, ReuseStep, ReleaseStep, AssertStep, FailStep, DieStep, StartStep, RenameStep;
    if j, t :| ReleaseStep(w, x, j, t) {
      ReleaseMoves(w, x, i, e, j, t);
    } else if j, t :| AssertStep(w, x, j, t) {
      AssertMoves(w, x, i, e, j, t);
    } else if j, f :| FailStep(w, x, j, f) {
      FailMoves(w, x, i, e, j, f);
    } else if (exists j, fd, f, t :: RegisterStep(w, x, j, fd, f, t)) || (exists j, t :: ReuseStep(w, x, j, t)) {
      GrowMoves(w, x, i, e);
    } else {
      OtherStepsSame(w, x, i);
      StillMoves(w, x, i, e);
    }
  }

  lemma AssertDrops(p: Proc, t: nat, named: Option<nat>, e: nat)
    requires ProcOk(p) && t in p.tokens && e in p.entries
    ensures var q := AssertIntact(p, t, named);
            e in q.entries && (p.entries[e].dropped ==> q.entries[e].dropped) &&
            (!p.entries[e].dropped && q.entries[e].dropped ==> p.held == Some(e) && named != Some(p.entries[e].ino))
  {
  }

  lemma ReleaseDrops(p: Proc, t: nat, e: nat)
    requires ProcOk(p) && t in p.tokens && e in p.entries && !p.entries[e].dropped && Release(p, t).entries[e].dropped
    ensures p.held == Some(e) && Counting(p, e) == {t}
  {
    assert p.tokens[t].entry == e;
    CountingLess(p, t, e);
    assert |Counting(p, e) - {t}| == |Counting(p, e)| - 1;
  }

  // ---------------------------------------------------------------- a registration over another

  /** Once another acquisition is registered in its place, a live one is never dropped while its process lives. */
  lemma OverwrittenNeverDropped(w: World, x: World, i: nat, e: nat)
    requires Inv(w) && Next(w, x) && i in w.procs && i in x.procs && e in w.procs[i].entries
    requires !w.procs[i].entries[e].dropped && w.procs[i].held != Some(e)
    ensures e in x.procs[i].entries && !x.procs[i].entries[e].dropped && x.procs[i].held != Some(e)
  {
    DroppedOnce(w, x, i, e);
    InvAt(w, i);
    hide Inv, Closed, Unlock, Counting, FdsApart, HeldOk, Backed, Next, Move;
    WhichMove(w, x, i);
    HeldMoves(w, x, i);
  }

  /** What one step may do to one process: nothing to its books, a registration, a reuse, or token work. */
  ghost predicate Move(w: World, x: World, i: nat)
    requires i in w.procs && i in x.procs
  {
    var p, q := w.procs[i], x.procs[i];
    (q.held == p.held && q.entries == p.entries) ||
    (exists fd, e, t :: RegisterStep(w, x, i, fd, e, t)) || (exists t :: ReuseStep(w, x, i, t)) || (exists t :: TokenMove(p, q, t, w.named)) ||
    (exists e :: FailStep(w, x, i, e))
  }

  predicate TokenMove(p: Proc, q: Proc, t: nat, named: Option<nat>)
  {
    t in p.tokens && p.tokens[t].entry in p.entries && (q == Release(p, t) || q == AssertIntact(p, t, named))
  }

  lemma WhichMove(w: World, x: World, i: nat)
    requires Next(w, x) && i in w.procs && i in x.procs && TokensOk(w.procs[i])
    ensures Move(w, x, i)
  {
    hide Closed, Unlock, Counting, Release, AssertIntact;
    if j, t :| ReleaseStep(w, x, j, t) {
      if j == i { assert TokenMove(w.procs[i], x.procs[i], t, w.named); }
    } else if j, t :| AssertStep(w, x, j, t) {
      if j == i { assert TokenMove(w.procs[i], x.procs[i], t, w.named); }
    } else if j, f :| FailStep(w, x, j, f) {
      if j == i { assert FailStep(w, x, i, f); }
    } else if j, fd, f, t :| RegisterStep(w, x, j, fd, f, t) {
      if j == i { assert RegisterStep(w, x, i, fd, f, t); }
    } else if j, t :| ReuseStep(w, x, j, t) {
      if j == i { assert ReuseStep(w, x, i, t); }
    } else {
      OtherStepsSame(w, x, i);
    }
  }

  lemma OtherStepsSame(w: World, x: World, i: nat)
    requires i in w.procs && i in x.procs
    requires RenameStep(w, x) || (exists j, fd, ino :: OpenStep(w, x, j, fd, ino)) || (exists j, fd :: FlockStep(w, x, j, fd)) ||
             (exists j, fd :: LetGoStep(w, x, j, fd)) || (exists j :: DieStep(w, x, j)) || (exists j :: StartStep(w, x, j))
    ensures x.procs[i].entries == w.procs[i].entries && x.procs[i].held == w.procs[i].held
  {
    hide Unlock;
  }

  /** What is registered changes to nothing, or to an entry never there before. */
  lemma HeldMoves(w: World, x: World, i: nat)
    requires i in w.procs && i in x.procs && Move(w, x, i)
    ensures var p, q := w.procs[i], x.procs[i]; q.held == p.held || q.held == None || q.held.value !in p.entries
  {
    hide Closed, Unlock, Counting;
  }

  /** A step that never registers an acquisition over another that is registered. */
  ghost predicate CleanNext(w: World, x: World)
  {
    Next(w, x) && forall i, fd, e, t :: RegisterStep(w, x, i, fd, e, t) ==> w.procs[i].held == None
  }

  /** Every live acquisition of every process is the registered one. */
  ghost predicate AllRegistered(w: World)
  {
    forall i, e :: i in w.procs && e in w.procs[i].entries && !w.procs[i].entries[e].dropped ==> w.procs[i].held == Some(e)
  }

  /**
    * As long as none is registered over another, every live acquisition stays registered: so it is dropped,
    * once, when its last unreleased token goes or its file leaves the name.
    */
  lemma CleanStaysRegistered(w: World, x: World)
    requires Inv(w) && AllRegistered(w) && CleanNext(w, x)
    ensures AllRegistered(x)
  {
    forall i, e | i in x.procs && e in x.procs[i].entries && !x.procs[i].entries[e].dropped ensures x.procs[i].held == Some(e)
    {
      CleanFor(w, x, i, e);
    }
  }

  lemma CleanFor(w: World, x: World, i: nat, e: nat)
    requires Inv(w) && AllRegistered(w) && CleanNext(w, x) && i in x.procs && e in x.procs[i].entries && !x.procs[i].entries[e].dropped
    ensures x.procs[i].held == Some(e)
  {
    if i in w.procs {
      InvAt(w, i);
      hide Closed, Unlock, Counting, FdsApart, HeldOk, Backed, Inv;
      WhichMove(w, x, i);
      hide Next;
      if fd, f, t :| RegisterStep(w, x, i, fd, f, t) {
        assert w.procs[i].held == None;
      } else {
        KeepsHeld(w, x, i, e);
      }
    } else {
      NewProcEmpty(w, x, i);
    }
  }

  lemma NewProcEmpty(w: World, x: World, i: nat)
    requires Next(w, x) && i !in w.procs && i in x.procs
    ensures x.procs[i] == NEW_PROC
  {
    hide Closed, Unlock, Counting, Release, AssertIntact;
  }

  /** A step that registers nothing adds no entry, and takes the registration only from what it drops. */
  lemma KeepsHeld(w: World, x: World, i: nat, e: nat)
    requires i in w.procs && i in x.procs && Move(w, x, i)
    requires !exists fd, f, t :: RegisterStep(w, x, i, fd, f, t)
    requires e in x.procs[i].entries && !x.procs[i].entries[e].dropped
    ensures Kept(w.procs[i], x.procs[i], e)
  {
    var p, q := w.procs[i], x.procs[i];
    hide Closed, Unlock, Counting, RegisterStep, Kept;
    if t :| ReuseStep(w, x, i, t) {
      ReuseKeeps(p, q, t, e);
    } else if t :| TokenMove(p, q, t, w.named) {
      TokenKeeps(p, q, t, w.named, e);
    } else if f :| FailStep(w, x, i, f) {
      DropKeeps(p, f, e);
    } else {
      SameKeeps(p, q, e);
    }
  }

  predicate Kept(p: Proc, q: Proc, e: nat)
  {
    e in p.entries && !p.entries[e].dropped && (p.held == Some(e) ==> q.held == Some(e))
  }

  lemma SameKeeps(p: Proc, q: Proc, e: nat)
    requires q.held == p.held && q.entries == p.entries && e in q.entries && !q.entries[e].dropped
    ensures Kept(p, q, e)
  {
  }

  lemma ReuseKeeps(p: Proc, q: Proc, t: nat, e: nat)
    requires p.held.Some? && p.held.value in p.entries && q == ReuseProc(p, t) && e in q.entries && !q.entries[e].dropped
    ensures Kept(p, q, e)
  {
  }

  lemma TokenKeeps(p: Proc, q: Proc, t: nat, named: Option<nat>, e: nat)
    requires TokenMove(p, q, t, named) && e in q.entries && !q.entries[e].dropped
    ensures Kept(p, q, e)
  {
  }

  lemma DropKeeps(p: Proc, f: nat, e: nat)
    requires f in p.entries && e in DropEntry(p, f).entries && !DropEntry(p, f).entries[e].dropped
    ensures Kept(p, DropEntry(p, f), e)
  {
  }

  /** Exactly when a token's release closes its acquisition: the acquisition is the registered one, and no other token counts on it. */
  lemma ReleaseDropsWhen(run: seq<World>, k: nat, i: nat, t: nat)
    requires IsRun(run) && k < |run| && i in run[k].procs && t in run[k].procs[i].tokens && !run[k].procs[i].tokens[t].released
    ensures var p := run[k].procs[i]; var e := p.tokens[t].entry;
            e in p.entries && (!p.entries[e].dropped ==> (Release(p, t).entries[e].dropped <==> p.held == Some(e) && Counting(p, e) == {t}))
  {
    var p := run[k].procs[i];
    RunInv(run, k);
    InvAt(run[k], i);
    hide IsRun, Inv;
    if p.held.Some? && p.tokens[t].entry == p.held.value { CountedExactly(run, k, i); }
  }

  /** Its only token is out, its file is open and locked, and releasing the token closes nothing. */
  predicate Stranded(w: World, i: nat, e: nat, t: nat)
  {
    i in w.procs && e in w.procs[i].entries && !w.procs[i].entries[e].dropped && w.procs[i].held != Some(e) &&
    t in w.procs[i].tokens && w.procs[i].tokens[t] == Token(e, false) && Counting(w.procs[i], e) == {t} &&
    w.procs[i].entries[e].ino in w.locks && !Release(w.procs[i], t).entries[e].dropped
  }

  // One process, two files of its own: 10 on inode 100, then, the name having been emptied, 11 on inode 101.
  const OPENED_A := NEW_PROC.(opening := map[10 := 100])
  const LOCKED_A := NEW_PROC.(locked := map[10 := 100])
  const OPENED_B := LOCKED_A.(opening := map[11 := 101])
  const LOCKED_B := NEW_PROC.(locked := map[10 := 100, 11 := 101])
  const HAS_A := Proc(Some(0), map[0 := Entry(10, 100, 1, false)], map[0 := Token(0, false)], map[], map[11 := 101])
  const HAS_BOTH := Proc(Some(1), HAS_A.entries[1 := Entry(11, 101, 1, false)], HAS_A.tokens[1 := Token(1, false)], map[], map[])
  const LOCK_A := map[100 := 10]
  const LOCK_BOTH := map[100 := 10, 101 := 11]

  /** A world of that one process. */
  function Alone(named: Option<nat>, locks: map<nat, nat>, p: Proc, files: nat): World
  {
    World(named, locks, map[0 := p], if files == 0 then map[] else if files == 1 then map[10 := 0] else map[10 := 0, 11 := 0])
  }

  const STRANDING := [
    World(None, map[], map[], map[]), Alone(None, map[], NEW_PROC, 0), Alone(Some(100), map[], OPENED_A, 1),
    Alone(Some(100), LOCK_A, LOCKED_A, 1), Alone(None, LOCK_A, LOCKED_A, 1), Alone(Some(101), LOCK_A, OPENED_B, 2),
    Alone(Some(101), LOCK_BOTH, LOCKED_B, 2), Alone(Some(101), LOCK_BOTH, HAS_A, 2), Alone(Some(101), LOCK_BOTH, HAS_BOTH, 2)]

  lemma Started()
    ensures Next(STRANDING[0], STRANDING[1])
  {
    assert StartStep(STRANDING[0], STRANDING[1], 0);
    hide *;
  }

  lemma Opened(named: Option<nat>, locks: map<nat, nat>, p: Proc, q: Proc, fd: nat, ino: nat, n: nat)
    requires named == None && n < 2 && fd == 10 + n && q == p.(opening := p.opening[fd := ino])
    ensures Next(Alone(named, locks, p, n), Alone(Some(ino), locks, q, n + 1))
  {
    assert OpenStep(Alone(named, locks, p, n), Alone(Some(ino), locks, q, n + 1), 0, fd, ino);
    hide *;
  }

  lemma Locked(named: Option<nat>, locks: map<nat, nat>, p: Proc, q: Proc, fd: nat, ino: nat, n: nat)
    requires p.opening == map[fd := ino] && ino !in locks && q == p.(opening := map[], locked := p.locked[fd := ino])
    ensures Next(Alone(named, locks, p, n), Alone(named, locks[ino := fd], q, n))
  {
    assert p.opening - {fd} == map[];
    assert FlockStep(Alone(named, locks, p, n), Alone(named, locks[ino := fd], q, n), 0, fd);
    hide *;
  }

  lemma Named(named: Option<nat>, other: Option<nat>, locks: map<nat, nat>, p: Proc, n: nat)
    ensures Next(Alone(named, locks, p, n), Alone(other, locks, p, n))
  {
    assert RenameStep(Alone(named, locks, p, n), Alone(other, locks, p, n));
    hide *;
  }

  lemma TakenOut(named: Option<nat>, locks: map<nat, nat>, p: Proc, q: Proc, fd: nat, e: nat, t: nat, n: nat)
    requires fd in p.locked && e !in p.entries && t !in p.tokens && q == RegisterProc(p, fd, e, t)
    ensures Next(Alone(named, locks, p, n), Alone(named, locks, q, n))
  {
    assert RegisterStep(Alone(named, locks, p, n), Alone(named, locks, q, n), 0, fd, e, t);
    hide *;
  }

  lemma BothTaken()
    ensures Next(STRANDING[1], STRANDING[2]) && Next(STRANDING[2], STRANDING[3]) && Next(STRANDING[3], STRANDING[4])
    ensures Next(STRANDING[4], STRANDING[5]) && Next(STRANDING[5], STRANDING[6])
  {
    hide Next;
    Opened(None, map[], NEW_PROC, OPENED_A, 10, 100, 0);
    Locked(Some(100), map[], OPENED_A, LOCKED_A, 10, 100, 1);
    Named(Some(100), None, LOCK_A, LOCKED_A, 1);
    Opened(None, LOCK_A, LOCKED_A, OPENED_B, 11, 101, 1);
    Locked(Some(101), LOCK_A, OPENED_B, LOCKED_B, 11, 101, 2);
  }

  lemma BothRegistered()
    ensures Next(STRANDING[6], STRANDING[7]) && Next(STRANDING[7], STRANDING[8])
  {
    hide Next;
    assert LOCKED_B.locked - {10} == map[11 := 101];
    TakenOut(Some(101), LOCK_BOTH, LOCKED_B, HAS_A, 10, 0, 0, 2);
    assert HAS_A.locked - {11} == map[];
    TakenOut(Some(101), LOCK_BOTH, HAS_A, HAS_BOTH, 11, 1, 1, 2);
  }

  lemma FirstStranded()
    ensures Stranded(STRANDING[8], 0, 0, 0)
  {
    assert STRANDING[8] == Alone(Some(101), LOCK_BOTH, HAS_BOTH, 2);
    assert Counting(HAS_BOTH, 0) == {0};
    hide STRANDING;
  }

  lemma StrandingShape()
    ensures |STRANDING| == 9 && Initial(STRANDING[0])
  {
  }

  /**
    * Such a registration is reached: one process takes the lock twice before it registers either, the file being
    * removed in between. The first acquisition is then neither the owner's nor ever closed.
    */
  lemma StrandedReached()
    ensures IsRun(STRANDING) && Stranded(STRANDING[8], 0, 0, 0)
  {
    hide *;
    StrandingShape();
    Started();
    BothTaken();
    BothRegistered();
    FirstStranded();
    RunOfSteps(STRANDING);
  }

  lemma RunOfSteps(run: seq<World>)
    requires |run| == 9 && Initial(run[0])
    requires Next(run[0], run[1]) && Next(run[1], run[2]) && Next(run[2], run[3]) && Next(run[3], run[4])
    requires Next(run[4], run[5]) && Next(run[5], run[6]) && Next(run[6], run[7]) && Next(run[7], run[8])
    ensures IsRun(run)
  {
    hide Next, Initial;
  }
}
