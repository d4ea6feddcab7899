/** A client of the two services that walks one session from registration to
    a toggled item, using nothing but the services' contracts. */
module Scenario {
  import opened Store
  import opened Sessions
  import opened Authentication
  import opened Users
  import opened TodoLists
  import opened Controller

  /** Alice registers twice, fails and then succeeds at logging in, creates a
      list with one item and ticks it; Bob cannot see her list. */
  method AliceAndBob(authenticationService: AuthenticationService)
    requires var stored := authenticationService.createAuthenticationString("pw1");
      && authenticationService.verify(stored, "pw1") == Authenticated
      && authenticationService.verify(stored, "pw2") == WrongCredentialsError
  {
    var db := new Database();
    var users := new UserService(db, authenticationService);
    var todoLists := new TodoListService(db);
    var session := new Session();

    var first := users.RegisterUser("alice", "pw1");
    assert first.Ok?;
    var alice := first.value;
    assert UsernameTaken(db.users, "alice") by { assert db.users[alice.id] == alice; }
    var second := users.RegisterUser("alice", "pw2");
    assert second == Err(DuplicateUsername);
    assert db.users == map[alice.id := alice];

    var bad := users.Login(session, "alice", "pw2");
    assert bad == Err(WrongPassword);
    assert session.userId == None;
    var good := users.Login(session, "alice", "pw1");
    assert good == Ok(alice);
    assert session.userId == Some(alice.id);

    var created := todoLists.CreateTodoList(alice.id, "Groceries");
    var list := created.record;
    var added := todoLists.CreateTodoListItem(list.id, "milk");
    var milk := added.record;
    assert !milk.done;
    var toggled := todoLists.SetTodoValue(list.id, milk.id, true);
    assert toggled;

    var seen := todoLists.GetUserTodoList(list.id, alice.id);
    assert seen.Some?;
    assert milk.(done := true) in seen.value.todos by {
      assert db.todos[milk.id] == milk.(done := true);
    }
    var bobs := todoLists.GetUserTodoList(list.id, alice.id + 1);
    assert bobs == None;
  }

  /** A visitor who is not signed in asks for the todo lists: the request is
      turned away to the login page, whose message is shown once only. */
  method LoginRequiredShownOnce(controller: MainController, session: Session)
    requires controller.Valid() && session.userId == None
    modifies session
  {
    var turnedAway := controller.TodoListsGet(session);
    assert turnedAway == Redirect(LoginPage);
    var page := controller.LoginGet(session);
    assert page == LoginForm(Some(LoginRequiredMessage));
    var again := controller.LoginGet(session);
    assert again == LoginForm(None);
  }
}
