/** The authentication service the application borrows from its web framework.
    How authentication strings are derived and checked is not defined here:
    a service is given by the two functions it applies. */
module Authentication {
  import opened Store
  import opened Sessions

  /** How checking a password against a stored authentication string ends:
      success, the two errors the framework raises, or any other error. */
  datatype Verdict =
    | Authenticated
    | WrongCredentialsError
    | InvalidAuthenticationStringError
    | OtherError(reason: string)

  datatype AuthenticationService = AuthenticationService(
    createAuthenticationString: string -> string,
    verify: (string, string) -> Verdict)

  /** `authenticate(ctx, userId, authenticationString, password)`: checks the
      password and, only when it matches, binds the session to the user. */
  method Authenticate(service: AuthenticationService, session: Session, userId: nat,
                      authenticationString: string, password: string) returns (v: Verdict)
    modifies session
    ensures v == service.verify(authenticationString, password)
    ensures session.values == old(session.values)
    ensures session.userId == if v == Authenticated then Some(userId) else old(session.userId)
  {
    v := service.verify(authenticationString, password);
    if v == Authenticated {
      session.userId := Some(userId);
    }
  }

  /** `get_user(ctx)`: the user whose id the session is bound to, looked up by id. */
  function CurrentUser(session: Session, db: Database): Option<User>
    reads session, db
  {
    match session.userId
    case None => None
    case Some(id) => if id in db.users then Some(db.users[id]) else None
  }
}
