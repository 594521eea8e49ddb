/** What each change of a credential does to the tokens that count. */
module AuthChanges {
  // Of every change of a row: whose token is admitted after it, until when, and that no other row is touched.

  import opened Auth
  import opened AuthRuns
  import opened Wrappers

  /** The token is the one this credential was made of. */
  predicate Of(c: Credential, token: string)
  {
    c.hash.Some? && c.hash.value.token == token
  }

  /** No call, no cached verdict and no other agent's row moves. */
  predicate OnlyRow(w: World, x: World, name: string)
  {
    x.calls == w.calls && x.cache == w.cache && (forall n :: n in x.rows && n != name ==> n in w.rows && x.rows[n] == w.rows[n]) &&
    forall n :: n in w.rows && n != name ==> n in x.rows
  }

  /**
    * A rotation into a grace window admits the new token, and the one it replaced until the deadline, or without end
    * where none reads as one: an older one still in its window is gone.
    */
  lemma RotationExactly(w: World, x: World, name: string, token: string, c: Credential, deadline: int, t: string, now: int)
    requires RotateStep(w, x, name, token, c, deadline)
    ensures OnlyRow(w, x, name) && name in x.rows && x.rows[name].revokedAt == w.rows[name].revokedAt && x.rows[name].caps == w.rows[name].caps
    ensures Live(x.rows[name], t, now) <==> t == token || (Of(w.rows[name].current, t) && (deadline <= 0 || now < deadline))
  {
  }

  /** Any other new token is at once the only one: of a registration, a rotation with no window, a mint, or a recovery. */
  lemma NewTokenExactly(w: World, x: World, name: string, token: string, c: Credential, t: string, now: int)
    requires RegisterStep(w, x, name, token) || CutStep(w, x, name, token, c) || MintStep(w, x, name, token, c) || RecoverStep(w, x, name, token, c)
    ensures OnlyRow(w, x, name) && name in x.rows && (Live(x.rows[name], t, now) <==> t == token)
    ensures !CutStep(w, x, name, token, c) ==> !x.rows[name].revokedAt
  {
  }

  /** A revoke or a removal leaves no token; a sweep the current one alone, which its row admitted before; new capabilities leave all. */
  lemma RestExactly(w: World, x: World, name: string, recovery: bool, caps: Option<seq<string>>, t: string, now: int)
    ensures RevokeStep(w, x, name, recovery) ==> OnlyRow(w, x, name) && name in x.rows && x.rows[name].revokedAt && !Live(x.rows[name], t, now) &&
                                                 StateOf(x.rows[name]) == if recovery then RecoveryPending else Revoked
    ensures RemoveStep(w, x, name) ==> OnlyRow(w, x, name) && name !in x.rows
    ensures SweepStep(w, x, name) ==> OnlyRow(w, x, name) && name in x.rows && (Live(x.rows[name], t, now) <==> Of(w.rows[name].current, t)) &&
                                      (Of(w.rows[name].current, t) ==> Live(w.rows[name], t, now))
    ensures CapsStep(w, x, name, caps) ==> OnlyRow(w, x, name) && name in x.rows && (Live(x.rows[name], t, now) <==> Live(w.rows[name], t, now)) &&
                                           CapsOf(x.rows[name]) == if caps.Some? then caps.value else []
  {
  }
}
