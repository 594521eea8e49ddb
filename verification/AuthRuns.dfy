/** Authentication over whole runs. */
module AuthRuns {
  // Calls that read a row, wait for a verify, store what they learnt and act later, while rotations, revokes,
  // recoveries and removals land in between. A cached verdict may be served at any age.

  import opened Auth
  import opened Wrappers

  /** What a rotation into the grace window made of a hash: the hash that took its place. */
  type Pairs = map<Hash, Hash>

  /** A cached verdict: whose, which column, and the hash of that column on the row it was verified on. */
  datatype Entry = Entry(name: string, basis: Basis, hash: Option<Hash>)

  datatype Call =
    | Verifying(agent: string, token: string, row: Row, at: int)
    | Comparing(agent: string, token: string, row: Row, which: Basis)
    | Proved(agent: string, token: string, row: Row, basis: Basis, explicitly: bool)
    | Ready(token: string, verdict: Verdict)

  /** The agents table, the verdict cache by lookup digest, the calls under way, the next salt, and the rotations made. */
  datatype World = World(rows: map<string, Row>, cache: map<Lookup, Entry>, calls: map<nat, Call>, salt: nat, pairs: Pairs)

  // ---------------------------------------------------------------- what changes a credential

  /** A credential newly made of a token: its hash has the next salt, and its digest, if any, is the token's own. */
  predicate Made(c: Credential, token: string, salt: nat)
  {
    c.hash == Some(Hash(token, salt)) && (c.lookup.Some? ==> c.lookup.value.token == token)
  }

  predicate RegisterStep(w: World, x: World, name: string, token: string)
  {
    name !in w.rows && name in x.rows && var r := x.rows[name];
    Made(r.current, token, w.salt) && StateOf(r) == Active && !r.revokedAt && r.previous == NO_CREDENTIAL &&
    x == w.(rows := w.rows[name := r], salt := w.salt + 1)
  }

  /** A rotation with a grace window: the old credential moves to the previous columns. */
  predicate RotateStep(w: World, x: World, name: string, token: string, c: Credential, deadline: int)
  {
    name in w.rows && StateOf(w.rows[name]) == Active && Made(c, token, w.salt) &&
    var r := w.rows[name];
    x == w.(rows := w.rows[name := r.(state := Some(RotationGrace), current := c, previous := r.current, expiry := Some(deadline))],
            salt := w.salt + 1, pairs := if r.current.hash.Some? then w.pairs[r.current.hash.value := c.hash.value] else w.pairs)
  }

  /** A rotation with none: the previous hash column is left as it is, its digest cleared. */
  predicate CutStep(w: World, x: World, name: string, token: string, c: Credential)
  {
    name in w.rows && StateOf(w.rows[name]) == Active && Made(c, token, w.salt) &&
    var r := w.rows[name];
    x == w.(rows := w.rows[name := r.(current := c, previous := r.previous.(lookup := None))], salt := w.salt + 1)
  }

  /** A token minted over an unrevoked row. */
  predicate MintStep(w: World, x: World, name: string, token: string, c: Credential)
  {
    name in w.rows && !w.rows[name].revokedAt && Made(c, token, w.salt) &&
    var r := w.rows[name];
    StateOf(r) != Revoked && StateOf(r) != RecoveryPending &&
    x == w.(rows := w.rows[name := r.(state := Some(Active), current := c, previous := NO_CREDENTIAL, expiry := None)], salt := w.salt + 1)
  }

  /** A revoke, with recovery or without: the current hash is kept. */
  predicate RevokeStep(w: World, x: World, name: string, recovery: bool)
  {
    name in w.rows && StateOf(w.rows[name]) != Revoked &&
    x == w.(rows := w.rows[name := w.rows[name].(state := Some(if recovery then RecoveryPending else Revoked), revokedAt := true,
                                                  previous := NO_CREDENTIAL, expiry := None)])
  }

  /** A re-registration after a recovery, or of a row from before tokens. */
  predicate RecoverStep(w: World, x: World, name: string, token: string, c: Credential)
  {
    name in w.rows && Made(c, token, w.salt) &&
    var r := w.rows[name];
    (StateOf(r) == RecoveryPending || StateOf(r) == LegacyBootstrap) &&
    x == w.(rows := w.rows[name := r.(state := Some(Active), revokedAt := false, current := c)], salt := w.salt + 1)
  }

  /** The grace window is over: back to active, without the previous credential. */
  predicate SweepStep(w: World, x: World, name: string)
  {
    name in w.rows && StateOf(w.rows[name]) == RotationGrace &&
    x == w.(rows := w.rows[name := w.rows[name].(state := Some(Active), previous := NO_CREDENTIAL, expiry := None)])
  }

  predicate RemoveStep(w: World, x: World, name: string)
  {
    x == w.(rows := w.rows - {name})
  }

  predicate CapsStep(w: World, x: World, name: string, caps: Option<seq<string>>)
  {
    name in w.rows && x == w.(rows := w.rows[name := w.rows[name].(caps := caps)])
  }

  predicate Changed(w: World, x: World, name: string, token: string, c: Credential, n: int, recovery: bool, caps: Option<seq<string>>)
  {
    RegisterStep(w, x, name, token) || RotateStep(w, x, name, token, c, n) || CutStep(w, x, name, token, c) || MintStep(w, x, name, token, c) ||
    RevokeStep(w, x, name, recovery) || RecoverStep(w, x, name, token, c) || SweepStep(w, x, name) || RemoveStep(w, x, name) || CapsStep(w, x, name, caps)
  }

  // ---------------------------------------------------------------- what a call does

  /** A call that names its agent: it reads the row. */
  predicate BeginStep(w: World, x: World, id: nat, agent: string, token: string, at: int)
  {
    id !in w.calls && agent in w.rows && token != "" && x == w.(calls := w.calls[id := Verifying(agent, token, w.rows[agent], at)])
  }

  /** A call that names none: a row is read and one of its columns compared. */
  predicate LookStep(w: World, x: World, id: nat, agent: string, token: string, which: Basis)
  {
    id !in w.calls && agent in w.rows && token != "" && x == w.(calls := w.calls[id := Comparing(agent, token, w.rows[agent], which)])
  }

  /** A cached verdict is taken, of any age: for the agent named, or for whomever it is. */
  predicate HitStep(w: World, x: World, id: nat, token: string, key: string)
  {
    id !in w.calls && token != "" && Keyed(key, token) in w.cache &&
    var e := w.cache[Keyed(key, token)];
    x == w.(calls := w.calls[id := Ready(token, Credentialed(e.name, e.basis, e.hash))])
  }

  predicate VerifiedStep(w: World, x: World, id: nat, first: Check, second: Check)
  {
    id in w.calls && w.calls[id].Verifying? &&
    var c := w.calls[id];
    var a := Authenticate(c.row, Some(c.token), c.at, false, first, second);
    x == if a.Accepted? then w.(calls := w.calls[id := Proved(c.agent, c.token, c.row, a.matched, true)]) else w.(calls := w.calls - {id})
  }

  predicate ComparedStep(w: World, x: World, id: nat, check: Check, now: int)
  {
    id in w.calls && w.calls[id].Comparing? &&
    var c := w.calls[id];
    x == if Verify(Column(c.row, c.which), c.token, check) == Good && Open(c.row, c.which, now)
         then w.(calls := w.calls[id := Proved(c.agent, c.token, c.row, c.which, false)]) else w.(calls := w.calls - {id})
  }

  /** Which column a verdict is stored under: a call that named its agent decides it again, by the digest or by a second compare. */
  function PutBasis(row: Row, basis: Basis, explicitly: bool, token: string, check: Check): Basis
  {
    if !explicitly then basis
    else if StateOf(row) != RotationGrace then Current
    else
      match DigestVerdict(check.keys, row.current.lookup, token)
      case Match => Current
      case Mismatch => Previous
      case Unknown => if Verify(row.current, token, check) == Good then Current else Previous
  }

  /** The row with its digest rewritten, while it still has the hash and the digest that were read. */
  function Healed(now: Row, read: Row, b: Basis, l: Lookup): Row
  {
    if Column(read, b).hash.None? || Column(now, b) != Column(read, b) then now
    else if b.Current? then now.(current := now.current.(lookup := Some(l)))
    else now.(previous := now.previous.(lookup := Some(l)))
  }

  /** Store the verdict where the digest is the row's own already; otherwise rewrite the row's digest. */
  predicate PutStep(w: World, x: World, id: nat, key: string, check: Check)
  {
    id in w.calls && w.calls[id].Proved? &&
    var c := w.calls[id];
    var b, l := PutBasis(c.row, c.basis, c.explicitly, c.token, check), Keyed(key, c.token);
    var calls := w.calls[id := Ready(c.token, Credentialed(c.agent, c.basis, Column(c.row, c.basis).hash))];
    x == if Column(c.row, b).lookup == Some(l) then w.(calls := calls, cache := w.cache[l := Entry(c.agent, b, Column(c.row, b).hash)])
         else if c.agent in w.rows then w.(calls := calls, rows := w.rows[c.agent := Healed(w.rows[c.agent], c.row, b, l)])
         else w.(calls := calls)
  }

  /** A cached verdict goes: out of date, or the oldest when there are too many. */
  predicate EvictStep(w: World, x: World, l: Lookup)
  {
    x == w.(cache := w.cache - {l})
  }

  /** One step. A steady one lets the second compare of a put be made. */
  ghost predicate Next(w: World, x: World, steady: bool)
  {
    (exists name, token, c, n, recovery, caps :: Changed(w, x, name, token, c, n, recovery, caps)) ||
    (exists id, agent, token, at :: BeginStep(w, x, id, agent, token, at)) || (exists id, agent, token, which :: LookStep(w, x, id, agent, token, which)) ||
    (exists id, token, key :: HitStep(w, x, id, token, key)) || (exists id, first, second :: VerifiedStep(w, x, id, first, second)) ||
    (exists id, check, now :: ComparedStep(w, x, id, check, now)) ||
    (exists id, key, check :: PutStep(w, x, id, key, check) && (steady ==> check.turn.Admitted?)) || (exists l :: EvictStep(w, x, l))
  }

  predicate Initial(w: World)
  {
    w.rows == map[] && w.cache == map[] && w.calls == map[] && w.pairs == map[]
  }

  // ---------------------------------------------------------------- what every step keeps

  predicate OwnDigest(c: Credential)
  {
    c.hash.Some? && c.lookup.Some? ==> c.lookup.value.token == c.hash.value.token
  }

  /** A row as read at some time: its hashes are made, its current digest is its own, and in grace its hashes are a rotation's. */
  predicate ReadOk(r: Row, steady: bool, salt: nat, pairs: Pairs)
  {
    (r.current.hash.Some? ==> r.current.hash.value.salt < salt) && (r.previous.hash.Some? ==> r.previous.hash.value.salt < salt) &&
    OwnDigest(r.current) && (steady ==> OwnDigest(r.previous)) &&
    (StateOf(r) == RotationGrace && r.previous.hash.Some? ==> r.previous.hash.value in pairs && r.current.hash == Some(pairs[r.previous.hash.value]))
  }

  /** The evidence is the token's own hash, or that of the credential the token's own took the place of. */
  predicate Evident(token: string, basis: Basis, hash: Option<Hash>, steady: bool, salt: nat, pairs: Pairs)
  {
    hash.Some? ==>
      hash.value.salt < salt &&
      (hash.value.token == token || (!steady && basis.Previous? && hash.value in pairs && pairs[hash.value].token == token))
  }

  predicate CallOk(c: Call, steady: bool, salt: nat, pairs: Pairs)
  {
    match c
    case Ready(token, v) => token != "" && v.Credentialed? && Evident(token, v.basis, v.hash, steady, salt, pairs)
    case Proved(_, token, row, basis, explicitly) =>
      token != "" && ReadOk(row, steady, salt, pairs) && Column(row, basis).hash.Some? && Column(row, basis).hash.value.token == token &&
      (basis.Previous? ==> StateOf(row) == RotationGrace)
    case Verifying(_, token, row, _) => token != "" && ReadOk(row, steady, salt, pairs)
    case Comparing(_, token, row, _) => token != "" && ReadOk(row, steady, salt, pairs)
  }

  /** Each row reads well, no current hash was rotated away or is another row's, every stored verdict and call rests on evidence. */
  ghost predicate Inv(w: World, steady: bool)
  {
    (forall n :: n in w.rows ==> ReadOk(w.rows[n], steady, w.salt, w.pairs) && Unrotated(w.rows[n], w.pairs)) &&
    Distinct(w.rows) &&
    (forall l :: l in w.cache ==> Evident(l.token, w.cache[l].basis, w.cache[l].hash, steady, w.salt, w.pairs)) &&
    (forall i :: i in w.calls ==> CallOk(w.calls[i], steady, w.salt, w.pairs)) &&
    (forall h :: h in w.pairs ==> h.salt < w.salt && w.pairs[h].salt < w.salt)
  }

  predicate Unrotated(r: Row, pairs: Pairs)
  {
    r.current.hash.Some? ==> r.current.hash.value !in pairs
  }

  predicate Distinct(rows: map<string, Row>)
  {
    forall n, m :: n in rows && m in rows && n != m && rows[n].current.hash.Some? ==> rows[n].current.hash != rows[m].current.hash
  }

  predicate Grows(p: Pairs, q: Pairs)
  {
    forall h :: h in p ==> h in q && q[h] == p[h]
  }

  /** What was well read and well evidenced stays so as hashes are made and rotated. */
  lemma StillOk(w: World, x: World, steady: bool)
    requires Inv(w, steady) && w.salt <= x.salt && Grows(w.pairs, x.pairs)
    ensures forall n :: n in w.rows ==> ReadOk(w.rows[n], steady, x.salt, x.pairs)
    ensures forall l :: l in w.cache ==> Evident(l.token, w.cache[l].basis, w.cache[l].hash, steady, x.salt, x.pairs)
    ensures forall i :: i in w.calls ==> CallOk(w.calls[i], steady, x.salt, x.pairs)
  {
    hide Distinct, Unrotated;
  }

  /** A current hash just made, or the row's own of before. */
  predicate NewOrSame(w: World, name: string, r: Row)
  {
    r.current.hash.Some? ==> r.current.hash.value.salt == w.salt || (name in w.rows && w.rows[name].current.hash == r.current.hash)
  }

  /** Only this row's old current hash may have been rotated away. */
  predicate RotatedFrom(w: World, x: World, name: string)
  {
    Grows(w.pairs, x.pairs) && (forall h :: h in x.pairs && h !in w.pairs ==> name in w.rows && w.rows[name].current.hash == Some(h)) &&
    (forall h :: h in x.pairs ==> h.salt < x.salt && x.pairs[h].salt < x.salt)
  }

  /** Nothing but one row changed, to one well read whose current hash is no other row's, and at most its old current hash was rotated. */
  predicate OneRow(w: World, x: World, name: string, r: Row, steady: bool)
  {
    x.rows == w.rows[name := r] && x.cache == w.cache && x.calls == w.calls && w.salt <= x.salt &&
    RotatedFrom(w, x, name) && NewOrSame(w, name, r) && ReadOk(r, steady, x.salt, x.pairs) && Unrotated(r, x.pairs)
  }

  lemma OthersUnrotated(w: World, x: World, name: string, steady: bool)
    requires Inv(w, steady) && RotatedFrom(w, x, name)
    ensures forall n :: n in w.rows && n != name ==> Unrotated(w.rows[n], x.pairs)
  {
    hide ReadOk, Evident, CallOk;
  }

  lemma StaysDistinct(w: World, name: string, r: Row, steady: bool)
    requires Inv(w, steady) && NewOrSame(w, name, r)
    ensures Distinct(w.rows[name := r])
  {
    hide Unrotated, Evident, CallOk, OwnDigest;
  }

  lemma OneRowInv(w: World, x: World, name: string, r: Row, steady: bool)
    requires Inv(w, steady) && OneRow(w, x, name, r, steady)
    ensures Inv(x, steady)
  {
    StillOk(w, x, steady);
    OthersUnrotated(w, x, name, steady);
    StaysDistinct(w, name, r, steady);
    hide ReadOk, Evident, CallOk, Grows, Unrotated, Distinct, NewOrSame;
  }

  lemma RowAt(w: World, name: string, steady: bool)
    requires Inv(w, steady) && name in w.rows
    ensures ReadOk(w.rows[name], steady, w.salt, w.pairs) && Unrotated(w.rows[name], w.pairs)
    ensures forall h :: h in w.pairs ==> h.salt < w.salt && w.pairs[h].salt < w.salt
  {
  }

  lemma PairsAt(w: World, steady: bool)
    requires Inv(w, steady)
    ensures forall h :: h in w.pairs ==> h.salt < w.salt && w.pairs[h].salt < w.salt
  {
  }

  lemma RegisterInv(w: World, x: World, steady: bool, name: string, token: string)
    requires Inv(w, steady) && RegisterStep(w, x, name, token)
    ensures Inv(x, steady)
  {
    PairsAt(w, steady);
    hide Inv;
    OneRowInv(w, x, name, x.rows[name], steady);
  }

  lemma RotateInv(w: World, x: World, steady: bool, name: string, token: string, c: Credential, n: int)
    requires Inv(w, steady) && RotateStep(w, x, name, token, c, n)
    ensures Inv(x, steady)
  {
    RowAt(w, name, steady);
    hide Inv;
    OneRowInv(w, x, name, x.rows[name], steady);
  }

  lemma CutInv(w: World, x: World, steady: bool, name: string, token: string, c: Credential)
    requires Inv(w, steady) && CutStep(w, x, name, token, c)
    ensures Inv(x, steady)
  {
    RowAt(w, name, steady);
    hide Inv;
    OneRowInv(w, x, name, x.rows[name], steady);
  }

  lemma MintInv(w: World, x: World, steady: bool, name: string, token: string, c: Credential)
    requires Inv(w, steady) && MintStep(w, x, name, token, c)
    ensures Inv(x, steady)
  {
    RowAt(w, name, steady);
    hide Inv;
    OneRowInv(w, x, name, x.rows[name], steady);
  }

  lemma RecoverInv(w: World, x: World, steady: bool, name: string, token: string, c: Credential)
    requires Inv(w, steady) && RecoverStep(w, x, name, token, c)
    ensures Inv(x, steady)
  {
    RowAt(w, name, steady);
    hide Inv;
    OneRowInv(w, x, name, x.rows[name], steady);
  }

  lemma RevokeInv(w: World, x: World, steady: bool, name: string, recovery: bool)
    requires Inv(w, steady) && RevokeStep(w, x, name, recovery)
    ensures Inv(x, steady)
  {
    RowAt(w, name, steady);
    hide Inv;
    OneRowInv(w, x, name, x.rows[name], steady);
  }

  lemma SweepInv(w: World, x: World, steady: bool, name: string)
    requires Inv(w, steady) && SweepStep(w, x, name)
    ensures Inv(x, steady)
  {
    RowAt(w, name, steady);
    hide Inv;
    OneRowInv(w, x, name, x.rows[name], steady);
  }

  lemma CapsInv(w: World, x: World, steady: bool, name: string, caps: Option<seq<string>>)
    requires Inv(w, steady) && CapsStep(w, x, name, caps)
    ensures Inv(x, steady)
  {
    RowAt(w, name, steady);
    hide Inv;
    OneRowInv(w, x, name, x.rows[name], steady);
  }

  lemma RemoveInv(w: World, x: World, steady: bool, name: string)
    requires Inv(w, steady) && RemoveStep(w, x, name)
    ensures Inv(x, steady)
  {
    hide ReadOk, Evident, CallOk, Unrotated;
  }

  lemma ChangedInv(w: World, x: World, steady: bool, name: string, token: string, c: Credential, n: int, recovery: bool, caps: Option<seq<string>>)
    requires Inv(w, steady) && Changed(w, x, name, token, c, n, recovery, caps)
    ensures Inv(x, steady)
  {
    hide Inv, RegisterStep, RotateStep, CutStep, MintStep, RecoverStep, RevokeStep, SweepStep, CapsStep, RemoveStep;
    if RegisterStep(w, x, name, token) {
      RegisterInv(w, x, steady, name, token);
    } else if RotateStep(w, x, name, token, c, n) {
      RotateInv(w, x, steady, name, token, c, n);
    } else if RevokeStep(w, x, name, recovery) {
      RevokeInv(w, x, steady, name, recovery);
    } else if SweepStep(w, x, name) {
      SweepInv(w, x, steady, name);
    } else if CapsStep(w, x, name, caps) {
      CapsInv(w, x, steady, name, caps);
    } else if RemoveStep(w, x, name) {
      RemoveInv(w, x, steady, name);
    } else if CutStep(w, x, name, token, c) {
      CutInv(w, x, steady, name, token, c);
    } else if MintStep(w, x, name, token, c) {
      MintInv(w, x, steady, name, token, c);
    } else {
      RecoverInv(w, x, steady, name, token, c);
    }
  }

  /** Only the calls and the cache changed: each call and each stored verdict is an old one, or rests on evidence. */
  lemma CallsInv(w: World, x: World, steady: bool)
    requires Inv(w, steady) && x.rows == w.rows && x.salt == w.salt && x.pairs == w.pairs
    requires forall i :: i in x.calls ==> (i in w.calls && x.calls[i] == w.calls[i]) || CallOk(x.calls[i], steady, x.salt, x.pairs)
    requires forall l :: l in x.cache ==> (l in w.cache && x.cache[l] == w.cache[l]) || Evident(l.token, x.cache[l].basis, x.cache[l].hash, steady, x.salt, x.pairs)
    ensures Inv(x, steady)
  {
    hide ReadOk, Evident, CallOk, Unrotated, Distinct;
  }

  lemma CallAt(w: World, id: nat, steady: bool)
    requires Inv(w, steady) && id in w.calls
    ensures CallOk(w.calls[id], steady, w.salt, w.pairs)
  {
  }

  lemma BeginInv(w: World, x: World, steady: bool, id: nat, agent: string, token: string, at: int, which: Basis)
    requires Inv(w, steady) && (BeginStep(w, x, id, agent, token, at) || LookStep(w, x, id, agent, token, which))
    ensures Inv(x, steady)
  {
    RowAt(w, agent, steady);
    hide Inv, ReadOk;
    CallsInv(w, x, steady);
  }

  lemma HitInv(w: World, x: World, steady: bool, id: nat, token: string, key: string)
    requires Inv(w, steady) && HitStep(w, x, id, token, key)
    ensures Inv(x, steady)
  {
    assert Evident(Keyed(key, token).token, w.cache[Keyed(key, token)].basis, w.cache[Keyed(key, token)].hash, steady, w.salt, w.pairs);
    hide Inv, Evident;
    CallsInv(w, x, steady);
  }

  lemma VerifiedInv(w: World, x: World, steady: bool, id: nat, first: Check, second: Check)
    requires Inv(w, steady) && VerifiedStep(w, x, id, first, second)
    ensures Inv(x, steady)
  {
    CallAt(w, id, steady);
    var c := w.calls[id];
    AcceptedIsLive(c.row, Some(c.token), c.at, false, first, second);
    hide Inv, Authenticate, ReadOk;
    CallsInv(w, x, steady);
  }

  lemma GoodIsItsToken(c: Credential, token: string, check: Check)
    ensures Verify(c, token, check) == Good ==> c.hash.Some? && c.hash.value.token == token
  {
  }

  lemma ComparedInv(w: World, x: World, steady: bool, id: nat, check: Check, now: int)
    requires Inv(w, steady) && ComparedStep(w, x, id, check, now)
    ensures Inv(x, steady)
  {
    CallAt(w, id, steady);
    GoodIsItsToken(Column(w.calls[id].row, w.calls[id].which), w.calls[id].token, check);
    hide Inv, ReadOk, Verify;
    CallsInv(w, x, steady);
  }

  lemma EvictInv(w: World, x: World, steady: bool, l: Lookup)
    requires Inv(w, steady) && EvictStep(w, x, l)
    ensures Inv(x, steady)
  {
    hide Inv;
    CallsInv(w, x, steady);
  }

  /**
    * The column a verdict is stored under has a hash the token is evident by. A second compare that was made names
    * the column whose hash is the token's; one that was not may name the other.
    */
  lemma PutEvident(c: Call, check: Check, steady: bool, salt: nat, pairs: Pairs)
    requires c.Proved? && CallOk(c, steady, salt, pairs) && (steady ==> check.turn.Admitted?)
    ensures var b := PutBasis(c.row, c.basis, c.explicitly, c.token, check);
            Evident(c.token, b, Column(c.row, b).hash, steady, salt, pairs) && (steady ==> Column(c.row, b).hash.Some? && Column(c.row, b).hash.value.token == c.token)
            && (b.Current? && Column(c.row, b).hash.Some? ==> Column(c.row, b).hash.value.token == c.token)
  {
  }

  lemma HealedOk(now: Row, read: Row, b: Basis, l: Lookup, steady: bool, salt: nat, pairs: Pairs)
    requires ReadOk(now, steady, salt, pairs) && Unrotated(now, pairs)
    requires (b.Current? || steady) && Column(read, b).hash.Some? ==> Column(read, b).hash.value.token == l.token
    ensures var r := Healed(now, read, b, l); ReadOk(r, steady, salt, pairs) && Unrotated(r, pairs) && r.current.hash == now.current.hash
  {
  }

  lemma HealInv(w: World, x: World, steady: bool, name: string, read: Row, b: Basis, l: Lookup)
    requires Inv(w, steady) && name in w.rows && x == w.(rows := w.rows[name := Healed(w.rows[name], read, b, l)])
    requires (b.Current? || steady) && Column(read, b).hash.Some? ==> Column(read, b).hash.value.token == l.token
    ensures Inv(x, steady)
  {
    RowAt(w, name, steady);
    HealedOk(w.rows[name], read, b, l, steady, w.salt, w.pairs);
    hide Inv, ReadOk, Unrotated, Healed;
    OneRowInv(w, x, name, x.rows[name], steady);
  }

  lemma PutInv(w: World, x: World, steady: bool, id: nat, key: string, check: Check)
    requires Inv(w, steady) && PutStep(w, x, id, key, check) && (steady ==> check.turn.Admitted?)
    ensures Inv(x, steady)
  {
    CallAt(w, id, steady);
    var c := w.calls[id];
    var b, l := PutBasis(c.row, c.basis, c.explicitly, c.token, check), Keyed(key, c.token);
    PutEvident(c, check, steady, w.salt, w.pairs);
    var calls := w.calls[id := Ready(c.token, Credentialed(c.agent, c.basis, Column(c.row, c.basis).hash))];
    assert CallOk(calls[id], steady, w.salt, w.pairs);
    hide Inv, PutBasis, CallOk, Evident, Healed, ReadOk;
    CallsInv(w, w.(calls := calls), steady);
    if Column(c.row, b).lookup == Some(l) {
      CallsInv(w, x, steady);
    } else if c.agent in w.rows {
      hide Column;
      HealInv(w.(calls := calls), x, steady, c.agent, c.row, b, l);
    }
  }

  lemma StepInv(w: World, x: World, steady: bool)
    requires Inv(w, steady) && Next(w, x, steady)
    ensures Inv(x, steady)
  {
    hide Inv, Changed, BeginStep, LookStep, HitStep, VerifiedStep, ComparedStep, PutStep, EvictStep;
    if name, token, c, n, recovery, caps :| Changed(w, x, name, token, c, n, recovery, caps) {
      ChangedInv(w, x, steady, name, token, c, n, recovery, caps);
    } else if id, agent, token, at :| BeginStep(w, x, id, agent, token, at) {
      BeginInv(w, x, steady, id, agent, token, at, Current);
    } else if id, agent, token, which :| LookStep(w, x, id, agent, token, which) {
      BeginInv(w, x, steady, id, agent, token, 0, which);
    } else if id, token, key :| HitStep(w, x, id, token, key) {
      HitInv(w, x, steady, id, token, key);
    } else if id, first, second :| VerifiedStep(w, x, id, first, second) {
      VerifiedInv(w, x, steady, id, first, second);
    } else if id, check, now :| ComparedStep(w, x, id, check, now) {
      ComparedInv(w, x, steady, id, check, now);
    } else if id, key, check :| PutStep(w, x, id, key, check) && (steady ==> check.turn.Admitted?) {
      PutInv(w, x, steady, id, key, check);
    } else if l :| EvictStep(w, x, l) {
      EvictInv(w, x, steady, l);
    }
  }

  ghost predicate IsRun(run: seq<World>, steady: bool)
  {
    run != [] && Initial(run[0]) && forall k :: 0 <= k < |run| - 1 ==> Next(run[k], run[k + 1], steady)
  }

  lemma InitialInv(w: World, steady: bool)
    requires Initial(w)
    ensures Inv(w, steady)
  {
  }

  lemma {:induction false} RunInv(run: seq<World>, steady: bool, k: nat)
    requires IsRun(run, steady) && k < |run|
    ensures Inv(run[k], steady)
    decreases k
  {
    hide Inv, Next, Initial;
    if k == 0 {
      InitialInv(run[0], steady);
    } else {
      RunInv(run, steady, k - 1);
      assert Next(run[k - 1], run[k - 1 + 1], steady);
      StepInv(run[k - 1], run[k], steady);
    }
  }

  // ---------------------------------------------------------------- the theorems

  function RowOf(w: World, name: string): Option<Row>
  {
    if name in w.rows then Some(w.rows[name]) else None
  }

  /** A call about to act: it has its verdict, and the check at the point of use passes on the row as it is now. */
  predicate Acts(w: World, id: nat, now: int, cap: Option<string>)
  {
    id in w.calls && w.calls[id].Ready? && w.calls[id].verdict.Credentialed? &&
    Revalidate(RowOf(w, w.calls[id].verdict.agent), w.calls[id].verdict, now, cap).Fine?
  }

  /**
    * In every run, whatever lands while a call waits, however old the cached verdict and however its compares fare:
    * a call that acts holds a token that is live on its agent's row then, which is not revoked and has the capability.
    */
  lemma AuthorityHolds(run: seq<World>, k: nat, id: nat, now: int, cap: Option<string>)
    requires IsRun(run, false) && k < |run| && Acts(run[k], id, now, cap)
    ensures var w := run[k]; var agent := w.calls[id].verdict.agent;
            agent in w.rows && Live(w.rows[agent], w.calls[id].token, now) && !w.rows[agent].revokedAt &&
            (cap.Some? && cap.value != "" ==> cap.value in CapsOf(w.rows[agent]))
  {
    RunInv(run, false, k);
    hide IsRun;
    CallAt(run[k], id, false);
    RowAt(run[k], run[k].calls[id].verdict.agent, false);
    hide Inv;
    PassesExactly(run[k].rows[run[k].calls[id].verdict.agent], run[k].calls[id].verdict, now, cap);
  }

  /** In a run in which every put's second compare is made, a full authentication of the token on that row accepts it too. */
  lemma ActsIsAuthentic(run: seq<World>, k: nat, id: nat, now: int, cap: Option<string>, legacyGrace: bool, first: seq<string>, second: seq<string>)
    requires IsRun(run, true) && k < |run| && Acts(run[k], id, now, cap)
    ensures var w := run[k]; var agent := w.calls[id].verdict.agent;
            agent in w.rows &&
            Authenticate(w.rows[agent], Some(w.calls[id].token), now, legacyGrace, Check(first, Admitted), Check(second, Admitted)).Accepted?
  {
    RunInv(run, true, k);
    hide IsRun;
    CallAt(run[k], id, true);
    var r := run[k].rows[run[k].calls[id].verdict.agent];
    RowAt(run[k], run[k].calls[id].verdict.agent, true);
    hide Inv;
    PassesExactly(r, run[k].calls[id].verdict, now, cap);
    AcceptsExactly(r, run[k].calls[id].token, now, legacyGrace, first, second);
  }

  /**
    * In any run, exactly when a full authentication accepts what a call acts on: unless the token is live only by the
    * previous column, and the digest stored there, by the keys in hand, denies it.
    */
  lemma ActsAuthenticWhen(run: seq<World>, k: nat, id: nat, now: int, cap: Option<string>, legacyGrace: bool, first: seq<string>, second: seq<string>)
    requires IsRun(run, false) && k < |run| && Acts(run[k], id, now, cap)
    ensures var w := run[k]; var token := w.calls[id].token; var agent := w.calls[id].verdict.agent;
            agent in w.rows && var r := w.rows[agent];
            (Authenticate(r, Some(token), now, legacyGrace, Check(first, Admitted), Check(second, Admitted)).Accepted? <==>
             (r.current.hash.Some? && r.current.hash.value.token == token) || DigestVerdict(second, r.previous.lookup, token) != Mismatch)
  {
    AuthorityHolds(run, k, id, now, cap);
    RunInv(run, false, k);
    hide IsRun;
    CallAt(run[k], id, false);
    var r := run[k].rows[run[k].calls[id].verdict.agent];
    RowAt(run[k], run[k].calls[id].verdict.agent, false);
    hide Inv;
    AcceptsExactly(r, run[k].calls[id].token, now, legacyGrace, first, second);
  }

  // ---------------------------------------------------------------- a second compare that was not made

  const OLD := Hash("old", 0)
  const NEW := Hash("new", 1)
  const BEFORE := Row(None, false, Credential(Some(OLD), None), NO_CREDENTIAL, None, Some([]))
  const NEWLY := Credential(Some(NEW), Some(Keyed("gone", "new")))
  const GRACE := BEFORE.(state := Some(RotationGrace), current := NEWLY, previous := BEFORE.current, expiry := Some(1000))
  const SPOILT := GRACE.(previous := Credential(Some(OLD), Some(Keyed("k", "new"))))

  /** Two calls of one agent in its grace window, one by each token. */
  function Pair(r: Row, calls: map<nat, Call>): World
  {
    World(map["a" := r], map[], calls, 2, map[OLD := NEW])
  }

  const NEW_READ := Verifying("a", "new", GRACE, 0)
  const NEW_PROVED := Proved("a", "new", GRACE, Current, true)
  const NEW_READY := Ready("new", Credentialed("a", Current, Some(NEW)))
  const OLD_READ := Verifying("a", "old", GRACE, 0)
  const OLD_PROVED := Proved("a", "old", GRACE, Previous, true)
  const OLD_READY := Ready("old", Credentialed("a", Previous, Some(OLD)))

  const SPOILING := [
    World(map[], map[], map[], 0, map[]), World(map["a" := BEFORE], map[], map[], 1, map[]), Pair(GRACE, map[]),
    Pair(GRACE, map[0 := NEW_READ]), Pair(GRACE, map[0 := NEW_PROVED]), Pair(GRACE, map[0 := NEW_PROVED, 1 := OLD_READ]),
    Pair(GRACE, map[0 := NEW_PROVED, 1 := OLD_PROVED]), Pair(SPOILT, map[0 := NEW_READY, 1 := OLD_PROVED]), Pair(SPOILT, map[0 := NEW_READY, 1 := OLD_READY])]

  lemma RowMade()
    ensures Next(SPOILING[0], SPOILING[1], false) && Next(SPOILING[1], SPOILING[2], false)
  {
    assert RegisterStep(SPOILING[0], SPOILING[1], "a", "old");
    assert Changed(SPOILING[0], SPOILING[1], "a", "old", NEWLY, 0, false, None);
    assert RotateStep(SPOILING[1], SPOILING[2], "a", "new", NEWLY, 1000);
    assert Changed(SPOILING[1], SPOILING[2], "a", "new", NEWLY, 1000, false, None);
    hide *;
  }

  lemma CallBegins(calls: map<nat, Call>, id: nat, token: string)
    requires id !in calls && token != ""
    ensures Next(Pair(GRACE, calls), Pair(GRACE, calls[id := Verifying("a", token, GRACE, 0)]), false)
  {
    assert BeginStep(Pair(GRACE, calls), Pair(GRACE, calls[id := Verifying("a", token, GRACE, 0)]), id, "a", token, 0);
    hide *;
  }

  lemma CallVerified(calls: map<nat, Call>, id: nat, token: string, b: Basis)
    requires id in calls && calls[id] == Verifying("a", token, GRACE, 0) && token == (if b.Current? then "new" else "old")
    ensures Next(Pair(GRACE, calls), Pair(GRACE, calls[id := Proved("a", token, GRACE, b, true)]), false)
  {
    var check := Check(["k"], Admitted);
    assert Authenticate(GRACE, Some(token), 0, false, check, check) == Accepted(b);
    assert VerifiedStep(Pair(GRACE, calls), Pair(GRACE, calls[id := Proved("a", token, GRACE, b, true)]), id, check, check);
    hide *;
  }

  lemma PutSpoils(calls: map<nat, Call>)
    requires 0 in calls && calls[0] == NEW_PROVED
    ensures Next(Pair(GRACE, calls), Pair(SPOILT, calls[0 := NEW_READY]), false)
  {
    var check := Check(["k"], Busy);
    assert PutBasis(GRACE, Current, true, "new", check) == Previous;
    assert Healed(GRACE, GRACE, Previous, Keyed("k", "new")) == SPOILT;
    assert map["a" := GRACE]["a" := SPOILT] == map["a" := SPOILT];
    assert PutStep(Pair(GRACE, calls), Pair(SPOILT, calls[0 := NEW_READY]), 0, "k", check);
    hide *;
  }

  lemma PutLeaves(calls: map<nat, Call>)
    requires 1 in calls && calls[1] == OLD_PROVED
    ensures Next(Pair(SPOILT, calls), Pair(SPOILT, calls[1 := OLD_READY]), false)
  {
    var check := Check(["k"], Admitted);
    assert PutBasis(GRACE, Previous, true, "old", check) == Previous;
    assert Healed(SPOILT, GRACE, Previous, Keyed("k", "old")) == SPOILT;
    assert map["a" := SPOILT]["a" := SPOILT] == map["a" := SPOILT];
    assert PutStep(Pair(SPOILT, calls), Pair(SPOILT, calls[1 := OLD_READY]), 1, "k", check);
    hide *;
  }

  lemma BothProved()
    ensures Next(SPOILING[2], SPOILING[3], false) && Next(SPOILING[3], SPOILING[4], false)
    ensures Next(SPOILING[4], SPOILING[5], false) && Next(SPOILING[5], SPOILING[6], false)
  {
    hide Next, GRACE, SPOILT;
    CallBegins(map[], 0, "new");
    CallVerified(map[0 := NEW_READ], 0, "new", Current);
    assert map[0 := NEW_READ][0 := NEW_PROVED] == map[0 := NEW_PROVED];
    CallBegins(map[0 := NEW_PROVED], 1, "old");
    CallVerified(map[0 := NEW_PROVED, 1 := OLD_READ], 1, "old", Previous);
    assert map[0 := NEW_PROVED, 1 := OLD_READ][1 := OLD_PROVED] == map[0 := NEW_PROVED, 1 := OLD_PROVED];
  }

  lemma BothPut()
    ensures Next(SPOILING[6], SPOILING[7], false) && Next(SPOILING[7], SPOILING[8], false)
  {
    hide Next, GRACE, SPOILT;
    PutSpoils(map[0 := NEW_PROVED, 1 := OLD_PROVED]);
    assert map[0 := NEW_PROVED, 1 := OLD_PROVED][0 := NEW_READY] == map[0 := NEW_READY, 1 := OLD_PROVED];
    PutLeaves(map[0 := NEW_READY, 1 := OLD_PROVED]);
    assert map[0 := NEW_READY, 1 := OLD_PROVED][1 := OLD_READY] == map[0 := NEW_READY, 1 := OLD_READY];
  }

  lemma SpoiltRefuses()
    ensures SPOILING[8].rows["a"] == SPOILT && Acts(SPOILING[8], 1, 500, None)
    ensures Authenticate(SPOILT, Some("old"), 500, false, Check(["k"], Admitted), Check(["k"], Admitted)) == Refused(BadToken)
  {
    assert SPOILING[8] == Pair(SPOILT, map[0 := NEW_READY, 1 := OLD_READY]);
    hide SPOILING;
  }

  lemma SpoilingShape()
    ensures |SPOILING| == 9 && Initial(SPOILING[0])
  {
  }

  /**
    * A put whose second compare meets a full pool writes the new token's digest over the old token's: inside the
    * grace window, a call may still act on the old token, while a full authentication of it is refused.
    */
  lemma PutMaySpoil()
    ensures IsRun(SPOILING, false) && Acts(SPOILING[8], 1, 500, None) && SPOILING[8].calls[1].token == "old"
    ensures Authenticate(SPOILING[8].rows["a"], Some("old"), 500, false, Check(["k"], Admitted), Check(["k"], Admitted)) == Refused(BadToken)
  {
    OldActs();
    hide *;
    SpoilingShape();
    RowMade();
    BothProved();
    BothPut();
    SpoiltRefuses();
    RunOfSteps(SPOILING);
  }

  lemma OldActs()
    ensures 1 in SPOILING[8].calls && SPOILING[8].calls[1].token == "old"
  {
  }

  lemma RunOfSteps(run: seq<World>)
    requires |run| == 9 && Initial(run[0])
    requires Next(run[0], run[1], false) && Next(run[1], run[2], false) && Next(run[2], run[3], false) && Next(run[3], run[4], false)
    requires Next(run[4], run[5], false) && Next(run[5], run[6], false) && Next(run[6], run[7], false) && Next(run[7], run[8], false)
    ensures IsRun(run, false)
  {
    hide Next, Initial;
  }
}
