/** Agent authentication. */
module Auth {
  // What decides a presented token against a row, what a verdict rests on, and what is checked again at the point of
  // use. Hashes and digests are symbolic: a hash is its token and its salt, a digest its key and its token, so a
  // compare is a function of token and hash.

  import opened Wrappers

  datatype Hash = Hash(token: string, salt: nat)

  /** A stored lookup digest: with the key that made it, or bare, from before keys were named. */
  datatype Lookup = Keyed(key: string, token: string) | Bare(key: string, token: string)

  datatype State = Active | LegacyBootstrap | Revoked | RecoveryPending | RotationGrace

  datatype Credential = Credential(hash: Option<Hash>, lookup: Option<Lookup>)

  const NO_CREDENTIAL := Credential(None, None)

  /** A row: its `expiry` is the grace deadline where one is recorded and reads as a date, its `caps` what reads as a list. */
  datatype Row = Row(state: Option<State>, revokedAt: bool, current: Credential, previous: Credential, expiry: Option<int>, caps: Option<seq<string>>)

  function StateOf(r: Row): State
  {
    if r.state.None? then Active else r.state.value
  }

  datatype Basis = Current | Previous

  function Other(b: Basis): Basis
  {
    if b.Current? then Previous else Current
  }

  function Column(r: Row, b: Basis): Credential
  {
    if b.Current? then r.current else r.previous
  }

  // ---------------------------------------------------------------- one compare

  datatype Digest = Match | Mismatch | Unknown

  /** What a stored digest says of a token by the keys that can be derived, without a compare. */
  function DigestVerdict(keys: seq<string>, stored: Option<Lookup>, token: string): Digest
  {
    if stored.None? then Unknown
    else
      match stored.value
      case Bare(k, t) => if k in keys && t == token then Match else Unknown
      case Keyed(k, t) => if k !in keys then Unknown else if t == token then Match else Mismatch
  }

  /** How the throttle and the compare pool treat one compare. */
  datatype Turn = Admitted | Throttled | Busy | Failed

  datatype Check = Check(keys: seq<string>, turn: Turn)

  datatype Checked = Good | Wrong | TooMany | PoolFull

  /** `verifyCredential`: a digest that denies the token decides without a compare; only an unknown one is throttled. */
  function Verify(stored: Credential, token: string, check: Check): Checked
  {
    if stored.hash.None? then Wrong
    else
      var d := DigestVerdict(check.keys, stored.lookup, token);
      if d == Mismatch then Wrong
      else if d == Unknown && check.turn == Throttled then TooMany
      else if check.turn == Busy then PoolFull
      else if check.turn == Failed then Wrong
      else if stored.hash.value.token == token then Good else Wrong
  }

  /** The digest names a key that can be derived, and was not made of this token: it denies without a compare. */
  predicate Denies(keys: seq<string>, stored: Option<Lookup>, token: string)
  {
    stored.Some? && stored.value.Keyed? && stored.value.key in keys && stored.value.token != token
  }

  /** The digest is of this token by a key that can be derived: its compare costs no attempt. */
  predicate Known(keys: seq<string>, stored: Option<Lookup>, token: string)
  {
    stored.Some? && stored.value.key in keys && stored.value.token == token
  }

  /**
    * The four answers, each exactly: no compare without a hash or where the digest denies; an empty bucket refuses
    * only what the digest does not know; a full pool refuses any compare; one that is made tells the token.
    */
  lemma VerifyExactly(c: Credential, token: string, check: Check)
    ensures var asked := c.hash.Some? && !Denies(check.keys, c.lookup, token);
            var free := Known(check.keys, c.lookup, token);
            var v := Verify(c, token, check);
            (v == TooMany <==> asked && check.turn == Throttled && !free) &&
            (v == PoolFull <==> asked && check.turn == Busy) &&
            (v == Good <==> asked && (check.turn == Admitted || (check.turn == Throttled && free)) && c.hash.value.token == token) &&
            (v == Wrong <==> v != TooMany && v != PoolFull && v != Good)
  {
  }

  // ---------------------------------------------------------------- the five auth states

  datatype Why = IsRevoked | InRecovery | NoToken | NoHash | BadToken | Undecided(how: Checked) | LegacyRefused

  datatype AuthResult = Accepted(matched: Basis) | Legacy | Refused(why: Why)

  predicate Expired(r: Row, now: int)
  {
    r.expiry.Some? && r.expiry.value > 0 && now >= r.expiry.value
  }

  /** `authenticateAgent`: the state decides first, then the token, with a check for each compare it may make. */
  function Authenticate(r: Row, token: Option<string>, now: int, legacyGrace: bool, first: Check, second: Check): AuthResult
  {
    match StateOf(r)
    case Revoked => Refused(IsRevoked)
    case RecoveryPending => Refused(InRecovery)
    case RotationGrace =>
      if token.None? || token.value == "" then Refused(NoToken)
      else
        var v := if r.current.hash.Some? then Verify(r.current, token.value, first) else Wrong;
        if v == Good then Accepted(Current)
        else if v == TooMany || v == PoolFull then Refused(Undecided(v))
        else
          var u := if !Expired(r, now) && r.previous.hash.Some? then Verify(r.previous, token.value, second) else Wrong;
          if u == Good then Accepted(Previous) else if u == TooMany || u == PoolFull then Refused(Undecided(u)) else Refused(BadToken)
    case LegacyBootstrap => if legacyGrace then Legacy else Refused(LegacyRefused)
    case Active =>
      if r.current.hash.None? then Refused(NoHash)
      else if token.None? || token.value == "" then Refused(NoToken)
      else
        var v := Verify(r.current, token.value, first);
        if v == Good then Accepted(Current) else if v == Wrong then Refused(BadToken) else Refused(Undecided(v))
  }

  /** A credential of this token that its digest, by these keys, does not deny. */
  predicate Proves(c: Credential, token: string, keys: seq<string>)
  {
    c.hash.Some? && c.hash.value.token == token && DigestVerdict(keys, c.lookup, token) != Mismatch
  }

  /** The row admits a caller by this column at this time. */
  predicate Open(r: Row, b: Basis, now: int)
  {
    if b.Current? then StateOf(r) == Active || StateOf(r) == RotationGrace else StateOf(r) == RotationGrace && !Expired(r, now)
  }

  /** The token is a credential the row admits now, whatever its digests say. */
  predicate Live(r: Row, token: string, now: int)
  {
    (Open(r, Current, now) && r.current.hash.Some? && r.current.hash.value.token == token) ||
    (Open(r, Previous, now) && r.previous.hash.Some? && r.previous.hash.value.token == token)
  }

  /** Exactly whom `authenticateAgent` accepts when nothing keeps a compare from being made. */
  lemma AcceptsExactly(r: Row, token: string, now: int, legacyGrace: bool, k: seq<string>, l: seq<string>)
    ensures Authenticate(r, Some(token), now, legacyGrace, Check(k, Admitted), Check(l, Admitted)).Accepted? <==>
            token != "" && ((Open(r, Current, now) && Proves(r.current, token, k)) || (Open(r, Previous, now) && Proves(r.previous, token, l)))
  {
  }

  /** In a rotation the previous token counts until the recorded deadline, and without end where none reads as one. */
  lemma GraceWindow(r: Row, token: string, now: int, legacyGrace: bool, k: seq<string>, l: seq<string>)
    requires r.state == Some(RotationGrace) && token != "" && !Proves(r.current, token, k)
    ensures Authenticate(r, Some(token), now, legacyGrace, Check(k, Admitted), Check(l, Admitted)) == Accepted(Previous) <==>
            Proves(r.previous, token, l) && (r.expiry.None? || r.expiry.value <= 0 || now < r.expiry.value)
  {
  }

  /**
    * When a busy pool or an empty bucket stands between a caller and the answer: the compare of the current column is
    * refused, or it is wrong and that of the previous one, inside its window, is refused.
    */
  lemma UndecidedExactly(r: Row, token: Option<string>, now: int, legacyGrace: bool, first: Check, second: Check, how: Checked)
    requires how == TooMany || how == PoolFull
    ensures Authenticate(r, token, now, legacyGrace, first, second) == Refused(Undecided(how)) <==>
            token.Some? && token.value != "" && Open(r, Current, now) &&
            (Verify(r.current, token.value, first) == how ||
             (Open(r, Previous, now) && Verify(r.current, token.value, first) == Wrong && Verify(r.previous, token.value, second) == how))
  {
  }

  /** However its compares are treated, it accepts only a token the row admits by the column it names. */
  lemma AcceptedIsLive(r: Row, token: Option<string>, now: int, legacyGrace: bool, first: Check, second: Check)
    ensures var a := Authenticate(r, token, now, legacyGrace, first, second);
            a.Accepted? ==> token.Some? && token.value != "" && Open(r, a.matched, now) &&
                            Column(r, a.matched).hash.Some? && Column(r, a.matched).hash.value.token == token.value && Live(r, token.value, now)
  {
  }

  // ---------------------------------------------------------------- the verdict, and the check at the point of use

  datatype Verdict = Credentialed(agent: string, basis: Basis, hash: Option<Hash>) | Uncredentialed

  datatype Revalidation = Fine | AuthFailed | CapDenied

  function CapsOf(r: Row): seq<string>
  {
    if r.caps.None? then [] else r.caps.value
  }

  /** `revalidate`: authority from the fresh row; the verdict gives only who, which column, and its evidence. */
  function Revalidate(row: Option<Row>, v: Verdict, now: int, cap: Option<string>): Revalidation
  {
    if v.Uncredentialed? then (if cap.Some? && cap.value != "" then CapDenied else Fine)
    else if row.None? then AuthFailed
    else
      var r := row.value;
      if r.revokedAt || (StateOf(r) != Active && StateOf(r) != RotationGrace) then AuthFailed
      else if v.hash.None? || Column(r, v.basis).hash != v.hash then AuthFailed
      else if v.basis.Previous? && (StateOf(r) != RotationGrace || Expired(r, now)) then AuthFailed
      else if cap.Some? && cap.value != "" && cap.value !in CapsOf(r) then CapDenied
      else Fine
  }

  /** Exactly when a verdict with a credential passes. */
  lemma PassesExactly(r: Row, v: Verdict, now: int, cap: Option<string>)
    requires v.Credentialed?
    ensures Revalidate(Some(r), v, now, cap).Fine? <==>
            !r.revokedAt && Open(r, v.basis, now) && v.hash.Some? && Column(r, v.basis).hash == v.hash && (cap.Some? && cap.value != "" ==> cap.value in CapsOf(r))
    ensures Revalidate(Some(r), v, now, cap).CapDenied? <==>
            Revalidate(Some(r), v, now, None).Fine? && cap.Some? && cap.value != "" && cap.value !in CapsOf(r)
    ensures Revalidate(None, v, now, cap).AuthFailed?
    ensures Revalidate(Some(r), Uncredentialed, now, cap).Fine? <==> cap.None? || cap.value == ""
    ensures Revalidate(Some(r), Uncredentialed, now, cap).CapDenied? <==> cap.Some? && cap.value != ""
  {
  }

  /**
    * A verdict whose hash is its token's, passing on a row, leaves the token live there; and a full authentication on
    * that row accepts it too, exactly when the digest of some column that admits the token does not deny it.
    */
  lemma PassedIsAuthentic(r: Row, v: Verdict, token: string, now: int, cap: Option<string>, legacyGrace: bool, keys: seq<string>)
    requires v.Credentialed? && v.hash.Some? && v.hash.value.token == token && token != "" && Revalidate(Some(r), v, now, cap).Fine?
    ensures Live(r, token, now) && !r.revokedAt
    ensures Authenticate(r, Some(token), now, legacyGrace, Check(keys, Admitted), Check(keys, Admitted)).Accepted? <==>
            DigestVerdict(keys, Column(r, v.basis).lookup, token) != Mismatch ||
            (Open(r, Other(v.basis), now) && Proves(Column(r, Other(v.basis)), token, keys))
  {
    AcceptsExactly(r, token, now, legacyGrace, keys, keys);
  }

  /** What was accepted passes on the same row while its window is open, unless the row is marked revoked or lacks the capability. */
  lemma AcceptedPasses(r: Row, agent: string, token: string, before: int, now: int, cap: Option<string>, first: Check, second: Check)
    requires Authenticate(r, Some(token), before, false, first, second).Accepted?
    ensures var b := Authenticate(r, Some(token), before, false, first, second).matched;
            Revalidate(Some(r), Credentialed(agent, b, Column(r, b).hash), now, cap).Fine? <==>
            !r.revokedAt && (b.Previous? ==> !Expired(r, now)) && (cap.Some? && cap.value != "" ==> cap.value in CapsOf(r))
  {
    AcceptedIsLive(r, Some(token), before, false, first, second);
  }

  // ---------------------------------------------------------------- one authorizer for the other consumers

  datatype Refusal = UnknownAgent | WasRevoked | WasRecovering | WasLegacy | Invalid | WasThrottled | WasBusy

  datatype Authorization = Authorized(verdict: Verdict, caps: seq<string>) | Denied(refusal: Refusal)

  function RefusalOf(why: Why): Refusal
  {
    match why
    case IsRevoked => WasRevoked
    case InRecovery => WasRecovering
    case Undecided(how) => if how == TooMany then WasThrottled else WasBusy
    case _ => Invalid
  }

  /** What a failed check on the fresh row is reported as: by its mark first, then by its state. */
  function StaleRefusal(later: Option<Row>): Refusal
  {
    if later.None? then Invalid
    else if later.value.revokedAt || StateOf(later.value) == Revoked then WasRevoked
    else if StateOf(later.value) == RecoveryPending then WasRecovering else Invalid
  }

  /** `authorizeAgentToken`: the row read, the awaited verify on it, then the check on the row as it is by then. */
  function AuthorizeToken(name: string, token: Option<string>, read: Option<Row>, before: int, legacyGrace: bool, first: Check, second: Check,
                          later: Option<Row>, now: int): Authorization
  {
    if read.None? then Denied(UnknownAgent)
    else
      match Authenticate(read.value, token, before, legacyGrace, first, second)
      case Refused(why) => Denied(RefusalOf(why))
      case Legacy => Denied(WasLegacy)
      case Accepted(basis) =>
        var v := Credentialed(name, basis, Column(read.value, basis).hash);
        if Revalidate(later, v, now, None).Fine? then Authorized(v, CapsOf(read.value)) else Denied(StaleRefusal(later))
  }

  /**
    * Whoever it authorizes held, on the row it read, the very hash the fresh row still has in that column: so the
    * token is live on the fresh row, whatever landed during the verify, and the row is not marked revoked.
    */
  lemma AuthorizedIsLive(name: string, token: Option<string>, read: Option<Row>, before: int, legacyGrace: bool, first: Check, second: Check,
                         later: Option<Row>, now: int)
    ensures var a := AuthorizeToken(name, token, read, before, legacyGrace, first, second, later, now);
            a.Authorized? ==> token.Some? && read.Some? && later.Some? && !later.value.revokedAt && Live(later.value, token.value, now) &&
                              a.verdict.Credentialed? && a.verdict.agent == name && a.verdict.hash.Some? && a.verdict.hash.value.token == token.value &&
                              Column(later.value, a.verdict.basis).hash == a.verdict.hash && Open(later.value, a.verdict.basis, now)
  {
    if read.Some? {
      AcceptedIsLive(read.value, token, before, legacyGrace, first, second);
      var v := Authenticate(read.value, token, before, legacyGrace, first, second);
      if v.Accepted? && later.Some? {
        PassesExactly(later.value, Credentialed(name, v.matched, Column(read.value, v.matched).hash), now, None);
      }
    }
  }

  /** The column that decides: the current one where it admits and proves the token, or else the previous one where that does. */
  ghost predicate Decides(r: Row, b: Basis, token: Option<string>, now: int, k: seq<string>, l: seq<string>)
  {
    token.Some? && token.value != "" && Open(r, b, now) &&
    (if b.Current? then Proves(r.current, token.value, k)
     else Proves(r.previous, token.value, l) && !(Open(r, Current, now) && Proves(r.current, token.value, k)))
  }

  /** What the later row must still say of the column a token was taken by. */
  ghost predicate Stands(read: Row, later: Row, b: Basis, now: int)
  {
    !later.revokedAt && Open(later, b, now) && Column(later, b).hash == Column(read, b).hash
  }

  /**
    * Exactly whom it authorizes when every compare is made: a column of the row read admits and proves the token, and
    * the later row, not marked revoked, still has that column's hash and still admits by it. The verdict names the
    * agent, that column and its hash, and the capabilities are those of the row read.
    */
  lemma AuthorizedExactly(name: string, token: Option<string>, read: Option<Row>, before: int, legacyGrace: bool, k: seq<string>, l: seq<string>,
                          later: Option<Row>, now: int)
    ensures var a := AuthorizeToken(name, token, read, before, legacyGrace, Check(k, Admitted), Check(l, Admitted), later, now);
            (a.Authorized? <==> read.Some? && later.Some? &&
                                exists b :: Decides(read.value, b, token, before, k, l) && Stands(read.value, later.value, b, now)) &&
            (a.Authorized? ==> forall b :: Decides(read.value, b, token, before, k, l) ==>
              a.verdict == Credentialed(name, b, Column(read.value, b).hash) && (read.value.caps.Some? ==> a.caps == read.value.caps.value) &&
              (read.value.caps.None? ==> a.caps == []))
  {
    if read.Some? {
      OneDecides(read.value, token, before, legacyGrace, k, l);
      var v := Authenticate(read.value, token, before, legacyGrace, Check(k, Admitted), Check(l, Admitted));
      hide Authenticate, Decides;
      if v.Accepted? {
        assert Decides(read.value, v.matched, token, before, k, l);
      }
    }
  }

  /** What full authentication accepts by is the column that decides; there is at most one. */
  lemma OneDecides(r: Row, token: Option<string>, now: int, legacyGrace: bool, k: seq<string>, l: seq<string>)
    ensures var a := Authenticate(r, token, now, legacyGrace, Check(k, Admitted), Check(l, Admitted));
            forall b :: Decides(r, b, token, now, k, l) <==> a == Accepted(b)
    ensures forall b :: Decides(r, b, token, now, k, l) ==> Column(r, b).hash.Some?
  {
  }

  /** Every refusal when every compare is made: by the row read first, then by what landed during the verify. */
  lemma DeniedExactly(name: string, token: Option<string>, read: Row, before: int, legacyGrace: bool, k: seq<string>, l: seq<string>,
                      later: Option<Row>, now: int)
    ensures var a := AuthorizeToken(name, token, Some(read), before, legacyGrace, Check(k, Admitted), Check(l, Admitted), later, now);
            var known := exists b :: Decides(read, b, token, before, k, l);
            a != Denied(UnknownAgent) && a != Denied(WasThrottled) && a != Denied(WasBusy) &&
            (a == Denied(WasLegacy) <==> read.state == Some(LegacyBootstrap) && legacyGrace) &&
            (a == Denied(WasRevoked) <==>
              read.state == Some(Revoked) || (known && later.Some? && (later.value.revokedAt || later.value.state == Some(Revoked)))) &&
            (a == Denied(WasRecovering) <==>
              read.state == Some(RecoveryPending) ||
              (known && later.Some? && !later.value.revokedAt && later.value.state == Some(RecoveryPending))) &&
            (a == Denied(Invalid) <==>
              if known then
                later.None? ||
                (!later.value.revokedAt && later.value.state != Some(Revoked) && later.value.state != Some(RecoveryPending) &&
                 forall b :: Decides(read, b, token, before, k, l) ==> !Stands(read, later.value, b, now))
              else read.state != Some(Revoked) && read.state != Some(RecoveryPending) && !(read.state == Some(LegacyBootstrap) && legacyGrace))
    ensures AuthorizeToken(name, token, None, before, legacyGrace, Check(k, Admitted), Check(l, Admitted), later, now) == Denied(UnknownAgent)
  {
    OneDecides(read, token, before, legacyGrace, k, l);
    StatesDecide(read, token, before, legacyGrace, k, l);
    var v := Authenticate(read, token, before, legacyGrace, Check(k, Admitted), Check(l, Admitted));
    hide Authenticate, Decides;
    if v.Accepted? {
      assert Decides(read, v.matched, token, before, k, l);
    }
  }

  /** A refusal for load is reported as what kept the compare from being made. */
  lemma LoadReported(name: string, token: Option<string>, read: Row, before: int, legacyGrace: bool, first: Check, second: Check,
                     later: Option<Row>, now: int)
    ensures var a := AuthorizeToken(name, token, Some(read), before, legacyGrace, first, second, later, now);
            var v := Authenticate(read, token, before, legacyGrace, first, second);
            (a == Denied(WasThrottled) <==> v == Refused(Undecided(TooMany))) && (a == Denied(WasBusy) <==> v == Refused(Undecided(PoolFull)))
  {
    assert forall how :: Authenticate(read, token, before, legacyGrace, first, second) == Refused(Undecided(how)) ==> how == TooMany || how == PoolFull;
  }

  /** The row's state decides before its credentials do. */
  lemma StatesDecide(r: Row, token: Option<string>, now: int, legacyGrace: bool, k: seq<string>, l: seq<string>)
    ensures var a := Authenticate(r, token, now, legacyGrace, Check(k, Admitted), Check(l, Admitted));
            (a == Refused(IsRevoked) <==> r.state == Some(Revoked)) && (a == Refused(InRecovery) <==> r.state == Some(RecoveryPending)) &&
            (a.Legacy? <==> r.state == Some(LegacyBootstrap) && legacyGrace) &&
            (a.Accepted? ==> r.state == None || r.state == Some(Active) || r.state == Some(RotationGrace)) &&
            (a.Refused? ==> !a.why.Undecided?)
  {
  }

  /** A revoke that offers recovery marks the row too: landing during the verify it is reported as a plain revoke. */
  lemma RecoveryReportedAsRevoke(name: string, token: Option<string>, read: Row, before: int, first: Check, second: Check, later: Row, now: int)
    requires Authenticate(read, token, before, false, first, second).Accepted? && later.state == Some(RecoveryPending) && later.revokedAt
    ensures AuthorizeToken(name, token, Some(read), before, false, first, second, Some(later), now) == Denied(WasRevoked)
    ensures AuthorizeToken(name, token, Some(later), now, false, first, second, Some(later), now) == Denied(WasRecovering)
  {
  }
}
