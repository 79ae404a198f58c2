/**
 * Session resolution (`get_session_from_session` in app.py): the cookie
 * names a session row, which counts only while it is at most five minutes
 * old. Expiry is computed on demand; nothing deletes an expired row.
 */
module Sessions {
  import opened Wrappers
  import opened Models

  /** `timedelta(minutes=5)`, with time counted in whole seconds. */
  const TTL: int := 300

  /** A row stamped `stamp` has expired at `now` once strictly more than TTL has passed. */
  predicate Expired(row: Session, now: int)
  {
    now - row.stamp > TTL
  }

  /**
   * The row the cookie resolves to at `now`: none without a cookie, none for
   * a token with no row, none for an expired row, otherwise the row itself.
   * This is the specification that `App.Forum.GetSession` is proved against.
   */
  function Resolve(cookie: Option<Token>, sessions: map<Token, Session>, now: int): Option<Session>
  {
    if cookie.None? then None
    else if cookie.value !in sessions then None
    else if Expired(sessions[cookie.value], now) then None
    else Some(sessions[cookie.value])
  }

  /** Once a session has expired it stays expired: there is no way back to active. */
  lemma ExpiryIsPermanent(token: Token, sessions: map<Token, Session>, now: int, later: int)
    requires now <= later
    requires token in sessions && Resolve(Some(token), sessions, now).None?
    ensures Resolve(Some(token), sessions, later).None?
  {
  }

  /**
   * Every row carries the same import-time stamp, so whether a freshly made
   * session resolves depends on the clock alone, not on when it was made:
   * after `stamp + TTL` no new session ever resolves.
   */
  lemma FixedStampDecidesLiveness(sessions: map<Token, Session>, token: Token, userId: nat, stamp: int, now: int)
    ensures Resolve(Some(token), sessions[token := Session(userId, stamp)], now)
         == if now - stamp <= TTL then Some(Session(userId, stamp)) else None
  {
  }
}
