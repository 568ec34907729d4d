/**
 * `Current`: the request-scoped slot that holds at most one session, and the
 * current user read through it (`delegate :user, to: :session, allow_nil: true`).
 */
module CurrentAttributes {
  import opened Wrappers
  import opened UserModel

  class Current {
    var session: Option<Session>

    /** A request starts with no session. */
    constructor ()
      ensures session == None
    {
      session := None;
    }

    /** `Current.session = s`: the new value replaces the old one. */
    method SetSession(s: Option<Session>)
      modifies this
      ensures session == s
    {
      session := s;
    }

    /** The attributes are cleared when the request ends. */
    method Reset()
      modifies this
      ensures session == None
    {
      session := None;
    }

    /**
     * `Current.user`: nil when no session is held, otherwise the stored user
     * the session belongs to (nil if that row is gone).
     */
    function User(store: UserStore): (r: Option<UserId>)
      reads this, store
      ensures session.None? ==> r.None?
      ensures r.Some? ==> session.Some? && r.value == session.value.userId && r.value in store.users
      ensures session.Some? && session.value.userId in store.users ==> r.Some?
    {
      match session
      case None => None
      case Some(s) => if s.userId in store.users then Some(s.userId) else None
    }
  }

  /** A live session in the slot yields its owner, who is a stored user. */
  lemma LiveSessionGivesOwner(current: Current, store: UserStore, sid: SessionId)
    requires store.Valid() && sid in store.sessions
    requires current.session == Some(store.sessions[sid])
    ensures current.User(store) == Some(store.sessions[sid].userId)
    ensures store.sessions[sid].userId in store.users
  {
  }
}
