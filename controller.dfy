/** The decisions the request handlers make, without the HTML they render:
    the login gate, the messages left in the session, the redirects and the
    404 answers.  Each handler is one sequential step over the session and
    the store. */
module Controller {
  import opened Store
  import opened Sessions
  import opened Authentication
  import opened Users
  import opened TodoLists

  datatype Location = RegisterPage | LoginPage | TodoListsPage | TodoListPage(id: nat)

  /** What a handler answers: a redirect, one of the pages (by the data it
      shows), a 404, the body "ok", or an exception escaping the handler. */
  datatype Response =
    | Redirect(location: Location)
    | RegisterForm(lastError: Option<string>)
    | LoginForm(lastError: Option<string>)
    | TodoListsView(lists: set<TodoList>)
    | TodoListView(view: TodoListWithTodos)
    | NotFound
    | Acknowledged
    | Fault(reason: string)

  const LoginRequiredMessage: string := "you need to be logged in to access this resource"
  const UsernameTakenMessage: string := "Username is taken"
  const WrongCredentialsMessage: string := "Wrong username or password"
  const ResetPasswordMessage: string := "Please reset your password"

  /** The message a failed login leaves in the session.  An unknown username
      and a wrong password read the same, so the page does not reveal which
      usernames exist; a malformed stored string asks for a reset. */
  function LoginErrorMessage(e: UserLoginError): (m: string)
    ensures m == WrongCredentialsMessage <==> e == WrongUsername || e == WrongPassword
    ensures m == ResetPasswordMessage <==> e == InvalidAuthenticationString
  {
    match e
    case WrongUsername => WrongCredentialsMessage
    case WrongPassword => WrongCredentialsMessage
    case InvalidAuthenticationString => ResetPasswordMessage
  }

  /** The user owns the list `todoListId`, which exists. */
  predicate Owns(lists: map<nat, TodoList>, todoListId: nat, userId: nat) {
    todoListId in lists && lists[todoListId].ownerId == userId
  }

  class MainController {
    const db: Database
    const userService: UserService
    const todoListService: TodoListService

    /** Both services and the authentication service's user lookup share one store. */
    ghost predicate Valid()
      reads db
    {
      userService.db == db && todoListService.db == db && db.Valid()
    }

    constructor (db: Database, userService: UserService, todoListService: TodoListService)
      requires userService.db == db && todoListService.db == db && db.Valid()
      ensures Valid()
      ensures this.db == db && this.userService == userService && this.todoListService == todoListService
    {
      this.db := db;
      this.userService := userService;
      this.todoListService := todoListService;
    }

    /** The gate every todo-list handler opens with: the session's user, and
        when there is none, the login-required message left for the login page. */
    method RequireUser(session: Session) returns (user: Option<User>)
      requires Valid()
      modifies session
      ensures user == old(CurrentUser(session, db))
      ensures user.Some? ==> user.value.id in db.users && db.users[user.value.id] == user.value
      ensures session.userId == old(session.userId)
      ensures session.values == if user == None then old(session.values)[LastErrorKey := LoginRequiredMessage]
                                else old(session.values)
    {
      user := CurrentUser(session, db);
      if user == None {
        session.Set(LastErrorKey, LoginRequiredMessage);
      }
    }

    /** GET /register: shows the pending error once and removes it. */
    method RegisterGet(session: Session) returns (r: Response)
      modifies session
      ensures r == RegisterForm(old(session.Get(LastErrorKey)))
      ensures session.values == old(session.values) - {LastErrorKey}
      ensures session.userId == old(session.userId)
    {
      var lastError := session.Get(LastErrorKey);
      session.Delete(LastErrorKey);
      r := RegisterForm(lastError);
    }

    /** POST /register: a taken username goes back to the form with a message;
        a new account goes on to the login page. */
    method RegisterPost(session: Session, username: string, password: string) returns (r: Response)
      requires Valid()
      modifies session, db
      ensures Valid()
      ensures session.userId == old(session.userId)
      ensures db.lists == old(db.lists) && db.todos == old(db.todos)
      ensures UsernameTaken(old(db.users), username) ==>
        && r == Redirect(RegisterPage)
        && session.values == old(session.values)[LastErrorKey := UsernameTakenMessage]
        && db.users == old(db.users)
      ensures !UsernameTaken(old(db.users), username) ==>
        && r == Redirect(LoginPage)
        && session.values == old(session.values)
        && var user := User(old(db.nextUserId), username,
                            userService.authenticationService.createAuthenticationString(password));
           db.users == old(db.users)[user.id := user]
    {
      var res := userService.RegisterUser(username, password);
      match res
      case Ok(_) =>
        r := Redirect(LoginPage);
      case Err(e) =>
        match e {
          case DuplicateUsername =>
            session.Set(LastErrorKey, UsernameTakenMessage);
        }
        r := Redirect(RegisterPage);
      case Thrown(reason) =>
        r := Fault(reason);
    }

    /** GET /login: shows the pending error once and removes it. */
    method LoginGet(session: Session) returns (r: Response)
      modifies session
      ensures r == LoginForm(old(session.Get(LastErrorKey)))
      ensures session.values == old(session.values) - {LastErrorKey}
      ensures session.userId == old(session.userId)
    {
      var lastError := session.Get(LastErrorKey);
      session.Delete(LastErrorKey);
      r := LoginForm(lastError);
    }

    /** POST /login: success goes to the todo lists with the session bound to the
        user; every typed failure goes back to the login page with its message. */
    method LoginPost(session: Session, username: string, password: string) returns (r: Response)
      requires Valid()
      modifies session
      ensures var res := LoginOutcome(db.users, userService.authenticationService, username, password);
        && (res.Ok? ==>
              r == Redirect(TodoListsPage) && session.values == old(session.values)
              && session.userId == Some(res.value.id) && CurrentUser(session, db) == Some(res.value))
        && (res.Err? ==>
              r == Redirect(LoginPage) && session.userId == old(session.userId)
              && session.values == old(session.values)[LastErrorKey := LoginErrorMessage(res.error)])
        && (res.Thrown? ==>
              r == Fault(res.reason) && session.userId == old(session.userId)
              && session.values == old(session.values))
    {
      var res := userService.Login(session, username, password);
      match res
      case Ok(_) =>
        r := Redirect(TodoListsPage);
      case Err(e) =>
        session.Set(LastErrorKey, LoginErrorMessage(e));
        r := Redirect(LoginPage);
      case Thrown(reason) =>
        r := Fault(reason);
    }

    /** GET /todo-list: the signed-in user's lists. */
    method TodoListsGet(session: Session) returns (r: Response)
      requires Valid()
      modifies session
      ensures session.userId == old(session.userId)
      ensures var user := old(CurrentUser(session, db));
        && (user == None ==>
              r == Redirect(LoginPage)
              && session.values == old(session.values)[LastErrorKey := LoginRequiredMessage])
        && (user.Some? ==>
              && session.values == old(session.values)
              && r.TodoListsView?
              && forall l :: l in r.lists <==> l.id in db.lists && db.lists[l.id] == l && l.ownerId == user.value.id)
    {
      var user := RequireUser(session);
      if user == None {
        return Redirect(LoginPage);
      }
      var lists := todoListService.GetTodoListsForUser(user.value.id);
      r := TodoListsView(lists);
    }

    /** POST /todo-list: creates a list owned by the signed-in user and goes to it. */
    method TodoListPut(session: Session, title: string) returns (r: Response)
      requires Valid()
      modifies session, db
      ensures Valid()
      ensures session.userId == old(session.userId)
      ensures var user := old(CurrentUser(session, db));
        && (user == None ==>
              && r == Redirect(LoginPage)
              && session.values == old(session.values)[LastErrorKey := LoginRequiredMessage]
              && unchanged(db))
        && (user.Some? ==>
              && session.values == old(session.values)
              && db.users == old(db.users) && db.todos == old(db.todos)
              && r == Redirect(TodoListPage(old(db.nextListId)))
              && old(db.nextListId) !in old(db.lists)
              && db.lists == old(db.lists)[old(db.nextListId) := TodoList(old(db.nextListId), user.value.id, title)])
    {
      var user := RequireUser(session);
      if user == None {
        return Redirect(LoginPage);
      }
      var res := todoListService.CreateTodoList(user.value.id, title);
      match res
      case Created(list) =>
        r := Redirect(TodoListPage(list.id));
      case Rejected(code) =>
        r := Fault(code);
    }

    /** GET /todo-list/:todo_list_id: the list and its items, or 404 when the
        list is missing or belongs to someone else. */
    method TodoListGet(session: Session, todoListId: nat) returns (r: Response)
      requires Valid()
      modifies session
      ensures session.userId == old(session.userId)
      ensures var user := old(CurrentUser(session, db));
        && (user == None ==>
              r == Redirect(LoginPage)
              && session.values == old(session.values)[LastErrorKey := LoginRequiredMessage])
        && (user.Some? ==> session.values == old(session.values))
        && (user.Some? && !Owns(db.lists, todoListId, user.value.id) ==> r == NotFound)
        && (user.Some? && Owns(db.lists, todoListId, user.value.id) ==>
              && r.TodoListView?
              && r.view.list == db.lists[todoListId]
              && forall t :: t in r.view.todos <==> t.id in db.todos && db.todos[t.id] == t && t.parentId == todoListId)
    {
      var user := RequireUser(session);
      if user == None {
        return Redirect(LoginPage);
      }
      var list := todoListService.GetUserTodoList(todoListId, user.value.id);
      if list == None {
        return NotFound;
      }
      r := TodoListView(list.value);
    }

    /** POST /todo-list/:todo_list_id: adds an item, not done, to a list the
        signed-in user owns; 404 and no item otherwise. */
    method TodoListItemAdd(session: Session, todoListId: nat, description: string) returns (r: Response)
      requires Valid()
      modifies session, db
      ensures Valid()
      ensures session.userId == old(session.userId)
      ensures var user := old(CurrentUser(session, db));
        && (user == None ==>
              && r == Redirect(LoginPage)
              && session.values == old(session.values)[LastErrorKey := LoginRequiredMessage]
              && unchanged(db))
        && (user.Some? ==> session.values == old(session.values))
        && (user.Some? && !Owns(old(db.lists), todoListId, user.value.id) ==> r == NotFound && unchanged(db))
        && (user.Some? && Owns(old(db.lists), todoListId, user.value.id) ==>
              && r == Redirect(TodoListPage(todoListId))
              && db.users == old(db.users) && db.lists == old(db.lists)
              && old(db.nextTodoId) !in old(db.todos)
              && db.todos == old(db.todos)[old(db.nextTodoId) := Todo(old(db.nextTodoId), todoListId, description, false)])
    {
      var user := RequireUser(session);
      if user == None {
        return Redirect(LoginPage);
      }
      var list := todoListService.GetUserTodoList(todoListId, user.value.id);
      if list == None {
        return NotFound;
      }
      var res := todoListService.CreateTodoListItem(todoListId, description);
      match res
      case Created(_) =>
        r := Redirect(TodoListPage(todoListId));
      case Rejected(code) =>
        r := Fault(code);
    }

    /** POST /todo-list/:todo_list_id/:todo_id: sets `done` from the body value
        ("true" is true, anything else false) on an item of a list the user
        owns; 404 when the list is not theirs or the item is not in it.  Only
        that item can change, and only when the signed-in user owns its list. */
    method TodoListItemSet(session: Session, todoListId: nat, todoId: nat, value: string) returns (r: Response)
      requires Valid()
      modifies session, db
      ensures Valid()
      ensures session.userId == old(session.userId)
      ensures db.users == old(db.users) && db.lists == old(db.lists)
      ensures db.todos.Keys == old(db.todos).Keys
      ensures forall k :: k in old(db.todos) && db.todos[k] != old(db.todos)[k] ==>
        && k == todoId
        && db.todos[k] == old(db.todos)[k].(done := value == "true")
        && old(CurrentUser(session, db)).Some?
        && Owns(old(db.lists), old(db.todos)[k].parentId, old(CurrentUser(session, db)).value.id)
      ensures var user := old(CurrentUser(session, db));
        && (user == None ==>
              && r == Redirect(LoginPage)
              && session.values == old(session.values)[LastErrorKey := LoginRequiredMessage]
              && unchanged(db))
        && (user.Some? ==> session.values == old(session.values))
        && (user.Some? && !Owns(old(db.lists), todoListId, user.value.id) ==> r == NotFound && unchanged(db))
        && (user.Some? && Owns(old(db.lists), todoListId, user.value.id) ==>
              && db.todos == UpdateDone(old(db.todos), todoListId, todoId, value == "true")
              && r == if todoId in old(db.todos) && old(db.todos)[todoId].parentId == todoListId
                      then Acknowledged else NotFound)
    {
      var user := RequireUser(session);
      if user == None {
        return Redirect(LoginPage);
      }
      var list := todoListService.GetUserTodoList(todoListId, user.value.id);
      if list == None {
        return NotFound;
      }
      UpdateDoneChangesOnlyMatch(db.todos, todoListId, todoId, value == "true");
      var res := todoListService.SetTodoValue(todoListId, todoId, value == "true");
      if !res {
        return NotFound;
      }
      r := Acknowledged;
    }
  }
}
