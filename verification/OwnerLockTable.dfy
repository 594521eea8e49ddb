/** The books of one process. */
module OwnerLockTable {
  // They are kept in place: a table of the acquisitions it holds now, by key, each with its count and its dropped
  // flag, and tokens that are released once. Each call is tied to the step of `OwnerLock` it performs, for the
  // token's own key; every other key's books stay as they were.

  import L = OwnerLock
  import opened Wrappers

  /** One acquisition of a key. */
  class HeldEntry {
    const key: string
    const fd: nat
    const ino: nat
    ghost const id: nat
    var refs: int
    var dropped: bool

    constructor (key: string, fd: nat, ino: nat, ghost id: nat)
      ensures this.key == key && this.fd == fd && this.ino == ino && this.id == id && refs == 1 && !dropped
    {
      this.key, this.fd, this.ino, this.id, refs, dropped := key, fd, ino, id, 1, false;
    }
  }

  class Token {
    const entry: HeldEntry
    ghost const id: nat
    var released: bool

    constructor (entry: HeldEntry, ghost id: nat)
      ensures this.entry == entry && this.id == id && !released
    {
      this.entry, this.id, released := entry, id, false;
    }
  }

  /** How one turn of the retry loop went: the key found, the file locked if it could be, the key found after, and the cleanup. */
  datatype Turn = Turn(key: string, taken: Option<Taken>, after: Option<string>, cleaned: bool, late: bool)

  datatype Taken = Taken(fd: nat, ino: nat)

  /** How the retry loop ends: at a turn that finds the lock its own, registers it or fails to clean up, or with none left. */
  datatype Ending = Reused(key: string) | Registered(key: string, lock: Taken) | Unclean(key: string, lock: Taken) | Refused

  /** The ending of these turns with those keys held, and the files it opened and let go of on the way. */
  function End(held: set<string>, turns: seq<Turn>): (Ending, seq<nat>)
  {
    if turns == [] then (Refused, [])
    else
      var t := turns[0];
      if t.key in held then (Reused(t.key), [])
      else if t.taken.Some? && t.after == Some(t.key) then
        (if t.cleaned then Registered(t.key, t.taken.value) else Unclean(t.key, t.taken.value), [])
      else
        var gone := if t.taken.Some? then [t.taken.value.fd] else [];
        if t.late then (Refused, gone)
        else var r := End(held, turns[1..]); (r.0, gone + r.1)
  }

  class Table {
    var held: map<string, HeldEntry>
    /** The files closed, in order. */
    var closed: seq<nat>
    ghost var entries: seq<HeldEntry>
    ghost var tokens: seq<Token>
    /** The books of each key, as a process of `OwnerLock`. */
    ghost var books: map<string, L.Proc>

    ghost predicate EntriesTold()
      reads this, entries
    {
      forall i :: 0 <= i < |entries| ==> EntryTold(entries[i], i)
    }

    ghost predicate EntryTold(e: HeldEntry, i: nat)
      reads this, e
    {
      e.id == i && e.key in books && i in books[e.key].entries && books[e.key].entries[i] == L.Entry(e.fd, e.ino, e.refs, e.dropped)
    }

    ghost predicate TokensTold()
      reads this, tokens
    {
      forall i :: 0 <= i < |tokens| ==> TokenTold(tokens[i], i)
    }

    ghost predicate TokenTold(t: Token, i: nat)
      reads this, t
    {
      t.id == i && t.entry in entries && t.entry.key in books && i in books[t.entry.key].tokens &&
      books[t.entry.key].tokens[i] == L.Token(t.entry.id, t.released)
    }

    ghost predicate HeldTold()
      reads this
    {
      forall k :: HeldAt(k)
    }

    ghost predicate HeldAt(k: string)
      reads this
    {
      if k in held then k in books && held[k] in entries && held[k].key == k && books[k].held == Some(held[k].id)
      else k in books ==> books[k].held == None
    }

    /** The books number no acquisition and no token beyond those made. */
    ghost predicate BooksFit()
      reads this
    {
      forall k :: BookFits(k)
    }

    ghost predicate BookFits(k: string)
      reads this
    {
      k in books ==> (forall e :: e in books[k].entries ==> e < |entries|) && (forall t :: t in books[k].tokens ==> t < |tokens|) &&
                     books[k].opening == map[] && books[k].locked == map[]
    }

    /** The books say of every acquisition and token what it holds itself, and name what the table holds. */
    ghost predicate Valid()
      reads this, entries, tokens
    {
      EntriesTold() && TokensTold() && HeldTold() && BooksFit()
    }

    constructor ()
      ensures Valid() && held == map[] && closed == [] && entries == [] && tokens == [] && books == map[]
    {
      held, closed, entries, tokens, books := map[], [], [], [], map[];
    }

    /** Register an acquisition of the key in the table, over whatever was there. */
    method AddEntry(key: string, lock: Taken) returns (entry: HeldEntry)
      requires Valid()
      modifies this`held, this`entries, this`books
      ensures Valid() && fresh(entry) && entries == old(entries) + [entry] && held == old(held)[key := entry]
      ensures entry.key == key && entry.fd == lock.fd && entry.ino == lock.ino && entry.id == |old(entries)| && !entry.dropped
      ensures books == old(books)[key := Entered(BookOf(old(books), key), lock, |old(entries)|)]
    {
      entry := new HeldEntry(key, lock.fd, lock.ino, |entries|);
      books := books[key := Entered(BookOf(books, key), lock, |entries|)];
      held := held[key := entry];
      entries := entries + [entry];
      assert old(BookFits(key));
      assert EntriesTold() by { hide TokensTold, HeldTold, BooksFit; }
      assert TokensTold() by { hide EntriesTold, HeldTold, BooksFit; }
      assert HeldTold() by {
        hide TokensTold, EntriesTold, BooksFit;
        forall k ensures HeldAt(k) { assert old(HeldAt(k)); }
      }
      assert BooksFit() by {
        hide TokensTold, EntriesTold, HeldTold;
        forall k ensures BookFits(k) { assert old(BookFits(k)); }
      }
      hide TokensTold, EntriesTold, HeldTold, BooksFit;
    }

    /** Take the acquisition out of the table, if it is the one there. */
    method Unhold(entry: HeldEntry)
      requires Valid() && entry in entries
      modifies this`held, this`books
      ensures Valid() && entry.key in old(books)
      ensures held == if entry.key in old(held) && old(held)[entry.key] == entry then old(held) - {entry.key} else old(held)
      ensures books == old(books)[entry.key := Unheld(old(books)[entry.key], entry.id)]
    {
      EntryIn(entry);
      HeldWhen(entry);
      assert HeldAt(entry.key);
      books := books[entry.key := Unheld(books[entry.key], entry.id)];
      if entry.key in held && held[entry.key] == entry {
        held := held - {entry.key};
      }
      assert EntriesTold() by { hide TokensTold, HeldTold, BooksFit; }
      assert TokensTold() by { hide EntriesTold, HeldTold, BooksFit; }
      assert HeldTold() by {
        hide TokensTold, EntriesTold, BooksFit;
        forall k ensures HeldAt(k)
        {
          if k != entry.key { assert old(HeldAt(k)); }
        }
      }
      assert BooksFit() by {
        hide TokensTold, EntriesTold, HeldTold;
        forall k ensures BookFits(k) { assert old(BookFits(k)); }
      }
      hide TokensTold, EntriesTold, HeldTold, BooksFit;
    }

    /** Close its file, unless that was done before. */
    method Close(entry: HeldEntry)
      requires Valid() && entry in entries
      modifies this`closed, this`books, entry
      ensures Valid() && entry.dropped && closed == old(closed) + (if old(entry.dropped) then [] else [entry.fd])
      ensures entry.key in old(books) && entry.id in old(books)[entry.key].entries
      ensures books == old(books)[entry.key := Shut(old(books)[entry.key], entry.id)]
    {
      EntryIn(entry);
      books := books[entry.key := Shut(books[entry.key], entry.id)];
      if !entry.dropped {
        entry.dropped := true;
        closed := closed + [entry.fd];
      }
      assert EntriesTold() by { hide TokensTold, HeldTold, BooksFit; }
      assert TokensTold() by { hide EntriesTold, HeldTold, BooksFit; }
      assert HeldTold() by {
        hide TokensTold, EntriesTold, BooksFit;
        forall k ensures HeldAt(k) { assert old(HeldAt(k)); }
      }
      assert BooksFit() by {
        hide TokensTold, EntriesTold, HeldTold;
        forall k ensures BookFits(k) { assert old(BookFits(k)); }
      }
      hide TokensTold, EntriesTold, HeldTold, BooksFit;
    }

    /** Forget the acquisition and close its file, unless that was done before. */
    method DropEntry(entry: HeldEntry)
      requires Valid() && entry in entries
      modifies this`held, this`closed, this`books, entry
      ensures Valid()
      ensures held == if entry.key in old(held) && old(held)[entry.key] == entry then old(held) - {entry.key} else old(held)
      ensures entry.dropped && closed == old(closed) + (if old(entry.dropped) then [] else [entry.fd])
      ensures entry.key in old(books) && entry.id in old(books)[entry.key].entries
      ensures books == old(books)[entry.key := L.DropEntry(old(books)[entry.key], entry.id)]
    {
      EntryIn(entry);
      DropShape(books[entry.key], entry.id);
      hide *;
      Unhold(entry);
      Close(entry);
    }

    /** The table holds an acquisition exactly when its key's books say so. */
    lemma HeldWhen(e: HeldEntry)
      requires Valid() && e in entries
      ensures (e.key in held && held[e.key] == e) <==> books[e.key].held == Some(e.id)
    {
      EntryIn(e);
      assert HeldAt(e.key);
      if e.key in held { EntryIn(held[e.key]); }
    }

    lemma EntryIn(e: HeldEntry)
      requires EntriesTold() && e in entries
      ensures EntryTold(e, e.id) && e.id < |entries| && entries[e.id] == e
    {
    }

    lemma TokenIn(t: Token)
      requires Valid() && t in tokens
      ensures TokenTold(t, t.id) && t.id < |tokens| && tokens[t.id] == t && EntryTold(t.entry, t.entry.id)
    {
      EntryIn(t.entry);
    }

    /** Mark the token released, in its acquisition's books too. */
    method Mark(t: Token)
      requires Valid() && t in tokens
      modifies this`books, t
      ensures Valid() && t.released
      ensures t.entry.key in old(books) && books == old(books)[t.entry.key := Marked(old(books)[t.entry.key], t.id, t.entry.id)]
    {
      TokenIn(t);
      t.released := true;
      books := books[t.entry.key := Marked(books[t.entry.key], t.id, t.entry.id)];
      assert EntriesTold() by { hide TokensTold, HeldTold, BooksFit; }
      assert TokensTold() by { hide EntriesTold, HeldTold, BooksFit; }
      assert HeldTold() by {
        hide TokensTold, EntriesTold, BooksFit;
        forall k ensures HeldAt(k) { assert old(HeldAt(k)); }
      }
      assert BooksFit() by {
        hide TokensTold, EntriesTold, HeldTold;
        forall k ensures BookFits(k) { assert old(BookFits(k)); }
      }
      hide TokensTold, EntriesTold, HeldTold, BooksFit;
    }

    /** One token more, or fewer, counts on the acquisition. */
    method Count(entry: HeldEntry, n: int)
      requires Valid() && entry in entries
      modifies this`books, entry
      ensures Valid() && entry.dropped == old(entry.dropped)
      ensures entry.key in old(books) && entry.id in old(books)[entry.key].entries
      ensures books == old(books)[entry.key := Counted(old(books)[entry.key], entry.id, n)]
      ensures entry.refs == Counted(old(books)[entry.key], entry.id, n).entries[entry.id].refs
    {
      EntryIn(entry);
      entry.refs := entry.refs + n;
      books := books[entry.key := Counted(books[entry.key], entry.id, n)];
      assert EntriesTold() by { hide TokensTold, HeldTold, BooksFit; }
      assert TokensTold() by { hide EntriesTold, HeldTold, BooksFit; }
      assert HeldTold() by {
        hide TokensTold, EntriesTold, BooksFit;
        forall k ensures HeldAt(k) { assert old(HeldAt(k)); }
      }
      assert BooksFit() by {
        hide TokensTold, EntriesTold, HeldTold;
        forall k ensures BookFits(k) { assert old(BookFits(k)); }
      }
      hide TokensTold, EntriesTold, HeldTold, BooksFit;
    }

    /** Make a token of the acquisition. */
    method AddToken(entry: HeldEntry) returns (t: Token)
      requires Valid() && entry in entries
      modifies this`tokens, this`books
      ensures Valid() && fresh(t) && tokens == old(tokens) + [t] && t.entry == entry && t.id == |old(tokens)| && !t.released
      ensures entry.key in old(books) && books == old(books)[entry.key := Issued(old(books)[entry.key], |old(tokens)|, entry.id)]
    {
      EntryIn(entry);
      t := new Token(entry, |tokens|);
      assert old(BookFits(entry.key));
      books := books[entry.key := Issued(books[entry.key], |tokens|, entry.id)];
      tokens := tokens + [t];
      assert EntriesTold() by { hide TokensTold, HeldTold, BooksFit; }
      assert TokensTold() by { hide EntriesTold, HeldTold, BooksFit; }
      assert HeldTold() by {
        hide TokensTold, EntriesTold, BooksFit;
        forall k ensures HeldAt(k) { assert old(HeldAt(k)); }
      }
      assert BooksFit() by {
        hide TokensTold, EntriesTold, HeldTold;
        forall k ensures BookFits(k) { assert old(BookFits(k)); }
      }
      hide TokensTold, EntriesTold, HeldTold, BooksFit;
    }

    /** A key held already: one more token on the same acquisition. */
    method Reuse(key: string) returns (t: Token)
      requires Valid() && key in held
      modifies this`tokens, this`books, held[key]
      ensures Valid() && fresh(t) && t.entry == held[key] && t.entry.key == key
      ensures ReuseIs(old(books), books, key, |old(tokens)|)
    {
      var entry := held[key];
      HeldIn(key);
      ReuseShape(books[key], |tokens|);
      hide *;
      Count(entry, 1);
      t := AddToken(entry);
      ReuseMeans(old(books), books, key, |old(tokens)|);
    }

    /** A key not held, locked and still the same: register it, and hand out its first token unless the cleanup fails. */
    method Register(key: string, lock: Taken, cleaned: bool) returns (t: Token?)
      requires Valid() && key !in held
      modifies this
      ensures Valid() && (t != null <==> cleaned)
      ensures closed == old(closed) + (if cleaned then [] else [lock.fd])
      ensures t != null ==> fresh(t) && fresh(t.entry) && t.entry.key == key && t.entry.fd == lock.fd && t.entry.ino == lock.ino
      ensures t != null ==> held == old(held)[key := t.entry] && RegisterIs(old(books), books, key, lock, |old(entries)|, |old(tokens)|)
      ensures t == null ==> held == old(held) && UncleanIs(old(books), books, key, lock, |old(entries)|)
    {
      var entry := AddEntry(key, lock);
      ghost var p := BookOf(old(books), key);
      assert p.locked == map[] && |old(entries)| !in p.entries && |old(tokens)| !in p.tokens by { assert old(BookFits(key)); }
      ghost var q := books;
      RegisterShape(old(books), key, lock, |old(entries)|, |old(tokens)|);
      if cleaned {
        hide *;
        t := AddToken(entry);
      } else {
        hide *;
        DropEntry(entry);
        t := null;
        assert held == old(held);
      }
    }

    /** Close a file that was locked and is not wanted. */
    method LetGo(fd: nat)
      requires Valid()
      modifies this`closed
      ensures Valid() && closed == old(closed) + [fd]
    {
      closed := closed + [fd];
      assert HeldTold() by {
        hide TokensTold, EntriesTold, BooksFit;
        forall k ensures HeldAt(k) { assert old(HeldAt(k)); }
      }
      assert BooksFit() by {
        hide TokensTold, EntriesTold, HeldTold;
        forall k ensures BookFits(k) { assert old(BookFits(k)); }
      }
    }

    /**
      * Take the lock: for each turn, one more token where the key is held already; a registration where the file
      * was locked and the key is still the same; otherwise let go of what was locked, and try again until too late.
      */
    method Acquire(turns: seq<Turn>) returns (t: Token?)
      requires Valid()
      modifies this, held.Values
      ensures Valid()
      ensures var end := End(old(held.Keys), turns);
              match end.0
              case Reused(key) => t != null && t.entry.key == key && held == old(held) && closed == old(closed) + end.1 &&
                                  ReuseIs(old(books), books, key, |old(tokens)|)
              case Registered(key, lock) => t != null && t.entry.key == key && held == old(held)[key := t.entry] && closed == old(closed) + end.1 &&
                                            RegisterIs(old(books), books, key, lock, |old(entries)|, |old(tokens)|)
              case Unclean(key, lock) => t == null && held == old(held) && closed == old(closed) + end.1 + [lock.fd] &&
                                         UncleanIs(old(books), books, key, lock, |old(entries)|)
              case Refused => t == null && held == old(held) && closed == old(closed) + end.1 && books == old(books)
    {
      hide Valid, ReuseIs, RegisterIs, UncleanIs;
      var i := 0;
      ghost var gone: seq<nat> := [];
      t := null;
      assert turns[0..] == turns && gone + End(held.Keys, turns).1 == End(held.Keys, turns).1;
      while i < |turns|
        invariant i <= |turns| && Valid() && t == null
        invariant unchanged(this`held, this`books, this`entries, this`tokens) && closed == old(closed) + gone
        invariant End(held.Keys, turns) == (End(held.Keys, turns[i..]).0, gone + End(held.Keys, turns[i..]).1)
      {
        var turn := turns[i];
        ghost var was := gone;
        assert turns[i..][0] == turn && turns[i..][1..] == turns[i + 1..];
        if turn.key in held {
          t := Reuse(turn.key);
          return;
        }
        if turn.taken.Some? {
          if turn.after == Some(turn.key) {
            t := Register(turn.key, turn.taken.value, turn.cleaned);
            return;
          }
          LetGo(turn.taken.value.fd);
          gone := gone + [turn.taken.value.fd];
        }
        if turn.late { return; }
        ghost var after := End(held.Keys, turns[i + 1..]).1;
        assert turn.taken.Some? ==> was + ([turn.taken.value.fd] + after) == was + [turn.taken.value.fd] + after;
        assert [] + after == after;
        i := i + 1;
      }
    }

    lemma HeldIn(key: string)
      requires Valid() && key in held
      ensures held[key] in entries && held[key].key == key && key in books && books[key].held == Some(held[key].id)
      ensures held[key].id in books[key].entries && |tokens| !in books[key].tokens
    {
      assert HeldAt(key) && BookFits(key);
      EntryIn(held[key]);
    }

    /** Release a token: once, and only for the acquisition registered now; the last one drops it. */
    method Release(t: Token)
      requires Valid() && t in tokens
      modifies this`held, this`closed, this`books, t, t.entry
      ensures Valid()
      ensures closed == old(closed) + (if t.entry.dropped && !old(t.entry.dropped) then [t.entry.fd] else [])
      ensures t.entry.key in old(books) && HasToken(old(books)[t.entry.key], t.id)
      ensures books == old(books)[t.entry.key := L.Release(old(books)[t.entry.key], t.id)]
    {
      TokenIn(t);
      HeldWhen(t.entry);
      ReleaseShape(books[t.entry.key], t.id);
      hide *;
      if t.released { return; }
      Mark(t);
      if t.entry.dropped || !(t.entry.key in held && held[t.entry.key] == t.entry) { return; }
      Count(t.entry, -1);
      if t.entry.refs > 0 { return; }
      DropEntry(t.entry);
    }

    /**
      * The check before a write: whether the token's acquisition is the one registered and its file, by its inode,
      * the one at the name; an acquisition whose file is gone from the name is dropped for every holder.
      */
    method AssertIntact(t: Token, named: Option<nat>) returns (ok: bool)
      requires Valid() && t in tokens
      modifies this`held, this`closed, this`books, t.entry
      ensures Valid()
      ensures t.entry.key in old(books) && HasToken(old(books)[t.entry.key], t.id)
      ensures ok <==> L.Passes(old(books)[t.entry.key], t.id, named)
      ensures books == old(books)[t.entry.key := L.AssertIntact(old(books)[t.entry.key], t.id, named)]
      ensures closed == old(closed) + (if t.entry.dropped && !old(t.entry.dropped) then [t.entry.fd] else [])
    {
      TokenIn(t);
      HeldWhen(t.entry);
      AssertShape(books[t.entry.key], t.id, named);
      hide *;
      if t.released { return false; }
      if t.entry.dropped || !(t.entry.key in held && held[t.entry.key] == t.entry) { return false; }
      if named == Some(t.entry.ino) { return true; }
      DropEntry(t.entry);
      return false;
    }
  }

  predicate HasToken(p: L.Proc, t: nat)
  {
    t in p.tokens && p.tokens[t].entry in p.entries
  }

  function Marked(p: L.Proc, t: nat, e: nat): L.Proc
  {
    p.(tokens := p.tokens[t := L.Token(e, true)])
  }

  function Counted(p: L.Proc, e: nat, n: int): L.Proc
    requires e in p.entries
  {
    p.(entries := p.entries[e := p.entries[e].(refs := p.entries[e].refs + n)])
  }

  lemma ReleaseShape(p: L.Proc, t: nat)
    requires HasToken(p, t)
    ensures var e := p.tokens[t].entry; var m := Marked(p, t, e);
            L.Release(p, t) ==
            if p.tokens[t].released then p else if p.entries[e].dropped || p.held != Some(e) then m
            else if Counted(m, e, -1).entries[e].refs > 0 then Counted(m, e, -1) else L.DropEntry(Counted(m, e, -1), e)
  {
  }

  lemma AssertShape(p: L.Proc, t: nat, named: Option<nat>)
    requires HasToken(p, t)
    ensures var e := p.tokens[t].entry; var dead := p.tokens[t].released || p.entries[e].dropped || p.held != Some(e);
            (L.Passes(p, t, named) <==> !dead && named == Some(p.entries[e].ino)) &&
            L.AssertIntact(p, t, named) == if dead || named == Some(p.entries[e].ino) then p else L.DropEntry(p, e)
  {
  }

  function Issued(p: L.Proc, t: nat, e: nat): L.Proc
  {
    p.(tokens := p.tokens[t := L.Token(e, false)])
  }

  /** The key's books change as by a reuse; no other key's do. */
  ghost predicate ReuseIs(was: map<string, L.Proc>, now: map<string, L.Proc>, key: string, t: nat)
  {
    key in was && was[key].held.Some? && was[key].held.value in was[key].entries && t !in was[key].tokens && now == was[key := L.ReuseProc(was[key], t)]
  }

  lemma ReuseMeans(was: map<string, L.Proc>, now: map<string, L.Proc>, key: string, t: nat)
    requires key in was && was[key].held.Some? && was[key].held.value in was[key].entries && t !in was[key].tokens && now == was[key := L.ReuseProc(was[key], t)]
    ensures ReuseIs(was, now, key, t)
  {
  }

  lemma ReuseShape(p: L.Proc, t: nat)
    requires p.held.Some? && p.held.value in p.entries
    ensures var e := p.held.value; L.ReuseProc(p, t) == Issued(Counted(p, e, 1), t, e)
  {
  }

  ghost predicate RegisterIs(was: map<string, L.Proc>, now: map<string, L.Proc>, key: string, lock: Taken, e: nat, t: nat)
  {
    var p := BookOf(was, key);
    e !in p.entries && t !in p.tokens && now == was[key := L.RegisterProc(p.(locked := map[lock.fd := lock.ino]), lock.fd, e, t)]
  }

  ghost predicate UncleanIs(was: map<string, L.Proc>, now: map<string, L.Proc>, key: string, lock: Taken, e: nat)
  {
    var p := BookOf(was, key);
    e !in p.entries && now == was[key := L.DropEntry(Entered(p, lock, e), e)]
  }

  lemma RegisterShape(was: map<string, L.Proc>, key: string, lock: Taken, e: nat, t: nat)
    requires var p := BookOf(was, key); p.locked == map[] && e !in p.entries && t !in p.tokens
    ensures RegisterIs(was, was[key := Issued(Entered(BookOf(was, key), lock, e), t, e)], key, lock, e, t)
    ensures UncleanIs(was, was[key := L.DropEntry(Entered(BookOf(was, key), lock, e), e)], key, lock, e)
  {
    var p := BookOf(was, key).(locked := map[lock.fd := lock.ino]);
    assert p.locked - {lock.fd} == map[];
  }

  /** The books of a key, as they start where there are none. */
  function BookOf(books: map<string, L.Proc>, key: string): L.Proc
  {
    if key in books then books[key] else L.NEW_PROC
  }

  function Entered(p: L.Proc, lock: Taken, e: nat): L.Proc
  {
    p.(held := Some(e), entries := p.entries[e := L.Entry(lock.fd, lock.ino, 1, false)])
  }

  function Unheld(p: L.Proc, e: nat): L.Proc
  {
    p.(held := if p.held == Some(e) then None else p.held)
  }

  function Shut(p: L.Proc, e: nat): L.Proc
    requires e in p.entries
  {
    p.(entries := p.entries[e := p.entries[e].(dropped := true)])
  }

  lemma DropShape(p: L.Proc, e: nat)
    requires e in p.entries
    ensures e in Unheld(p, e).entries && L.DropEntry(p, e) == Shut(Unheld(p, e), e)
  {
  }
}
