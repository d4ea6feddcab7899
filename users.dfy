/** The user access layer: registration and login, each with a typed outcome. */
module Users {
  import opened Store
  import opened Sessions
  import opened Authentication

  datatype UserRegistrationError = DuplicateUsername

  datatype UserLoginError = WrongUsername | WrongPassword | InvalidAuthenticationString

  /** What a service call gives its caller: a value, one of its typed errors,
      or an exception that propagates out of it. */
  datatype Reply<T, E> = Ok(value: T) | Err(error: E) | Thrown(reason: string)

  /** The outcome of logging in as `username` with `password`: the three typed
      errors are told apart, and success names the user with that username. */
  function LoginOutcome(users: map<nat, User>, service: AuthenticationService,
                        username: string, password: string): (r: Reply<User, UserLoginError>)
    requires UsernamesUnique(users)
    ensures r == Err(WrongUsername) <==> !UsernameTaken(users, username)
    ensures r.Ok? ==> r.value in users.Values && r.value.username == username
    ensures r.Ok? <==> exists k :: k in users && users[k].username == username
                                   && service.verify(users[k].authenticationString, password) == Authenticated
    ensures r == Err(WrongPassword) <==>
              exists k :: k in users && users[k].username == username
                          && service.verify(users[k].authenticationString, password) == WrongCredentialsError
    ensures r == Err(InvalidAuthenticationString) <==>
              exists k :: k in users && users[k].username == username
                          && service.verify(users[k].authenticationString, password) == InvalidAuthenticationStringError
    ensures r.Thrown? <==> exists k :: k in users && users[k].username == username
                                       && service.verify(users[k].authenticationString, password).OtherError?
  {
    match UserNamed(users, username)
    case None => Err(WrongUsername)
    case Some(user) =>
      match service.verify(user.authenticationString, password)
      case Authenticated => Ok(user)
      case WrongCredentialsError => Err(WrongPassword)
      case InvalidAuthenticationStringError => Err(InvalidAuthenticationString)
      case OtherError(reason) => Thrown(reason)
  }

  class UserService {
    const db: Database
    const authenticationService: AuthenticationService

    constructor (db: Database, authenticationService: AuthenticationService)
      ensures this.db == db && this.authenticationService == authenticationService
    {
      this.db := db;
      this.authenticationService := authenticationService;
    }

    /** `register_user`: a taken username is the typed error `DuplicateUsername`
        and adds nothing; otherwise exactly one user is added and returned. */
    method RegisterUser(username: string, password: string) returns (r: Reply<User, UserRegistrationError>)
      requires db.Valid()
      modifies db
      ensures db.Valid()
      ensures db.lists == old(db.lists) && db.todos == old(db.todos)
      ensures UsernameTaken(old(db.users), username) ==>
        r == Err(DuplicateUsername) && db.users == old(db.users)
      ensures !UsernameTaken(old(db.users), username) ==>
        && r.Ok?
        && r.value.username == username
        && r.value.authenticationString == authenticationService.createAuthenticationString(password)
        && r.value.id == old(db.nextUserId)
        && r.value.id !in old(db.users)
        && db.users == old(db.users)[r.value.id := r.value]
    {
      var authenticationString := authenticationService.createAuthenticationString(password);
      var created := db.CreateUser(username, authenticationString);
      match created
      case Created(user) =>
        r := Ok(user);
      case Rejected(code) =>
        if code == UniqueConstraintFailed {
          r := Err(DuplicateUsername);
        } else {
          r := Thrown(code);
        }
    }

    /** `login`: the outcome is `LoginOutcome`; the session is bound to the
        user only on success, and the store is never written. */
    method Login(session: Session, username: string, password: string) returns (r: Reply<User, UserLoginError>)
      requires db.Valid()
      modifies session
      ensures r == LoginOutcome(db.users, authenticationService, username, password)
      ensures session.values == old(session.values)
      ensures session.userId == if r.Ok? then Some(r.value.id) else old(session.userId)
      ensures r.Ok? ==> r.value.id in db.users && db.users[r.value.id] == r.value
    {
      var found := UserNamed(db.users, username);
      if found == None {
        return Err(WrongUsername);
      }
      var user := found.value;
      var v := Authenticate(authenticationService, session, user.id, user.authenticationString, password);
      match v
      case Authenticated =>
        r := Ok(user);
      case WrongCredentialsError =>
        r := Err(WrongPassword);
      case InvalidAuthenticationStringError =>
        r := Err(InvalidAuthenticationString);
      case OtherError(reason) =>
        r := Thrown(reason);
    }
  }
}
