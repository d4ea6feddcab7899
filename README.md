# prisma-todo, modelled in Dafny

prisma-todo is a small multi-user todo web application. Users register and
log in with a password. A signed-in user keeps todo lists, adds items to
them and ticks items off. This project models the application's own logic
and proves properties of it:

- **The todo list access layer** (`TodoListService`): ownership-scoped
  reads, creation of lists and items, and the conditional update that
  ticks an item.
- **The user access layer** (`UserService`): registration and login. Each
  returns a typed outcome instead of throwing for expected failures.
- **The request handlers' decisions** (`MainController`): the
  "must be logged in" gate, the error message left in the session, the
  redirects, the 404 answers, and the one-shot `last_error` message.

The database is replaced by an in-memory store, `Store.Database`. It holds
three maps from id to `User`, `TodoList` and `Todo` records, and one
autoincrement counter per table. Its `Valid()` invariant says:

- each record is stored under its own id;
- usernames are unique;
- every list's owner exists;
- every item's parent list exists.

Each store write stands for one Prisma call. It returns the new record, or
Prisma's error code: `P2002` for a unique violation, `P2003` for a
foreign-key violation.

The authentication service belongs to the web framework. It is given
abstractly, as a value holding two functions:

- `createAuthenticationString` derives the stored string from a password;
- `verify` checks a password against a stored string. It answers success,
  `WrongCredentialsError`, `InvalidAuthenticationStringError` or some other
  error.

The session is a class with a key/value map and an optional bound user id.
Each handler is one method that takes the session as a parameter. It
returns a `Response` value: a redirect, a page given by the data it shows,
a 404, the body "ok", or an exception that escapes the handler.

Files:

- `store.dfy`: the records, the store, and the semantics of `updateMany`, with its lemmas.
- `sessions.dfy`: the session.
- `authentication.dfy`: the abstract authentication service and `get_user`.
- `users.dfy`: `UserService`.
- `todo_lists.dfy`: `TodoListService`, with lemmas about list and item creation and about the toggle.
- `controller.dfy`: `MainController`.
- `scenario.dfy`: two client methods that use only the contracts. The first
  registers "alice" twice, logs in with a wrong and then the right password,
  creates a list, adds an item and ticks it, and checks that another user
  cannot see the list. The second shows that the login-required message
  appears once and is then gone.

## Model

| member | source | states |
|---|---|---|
| `Store.Database.CreateUser` | src/services/UserService.ts:30-35 | `user.create`: a taken username is rejected with P2002 and adds nothing. Otherwise exactly one user is added, with the next id, that username and that authentication string, and the other tables are untouched. |
| `Store.Database.CreateList` | src/services/TodoListService.ts:41-46 | `todoList.create`: an owner that does not exist is rejected with P2003. Otherwise exactly one list is added, with the next id, that owner and that title. |
| `Store.Database.CreateTodo` | src/services/TodoListService.ts:52-58 | `todo.create`: a parent list that does not exist is rejected with P2003. Otherwise exactly one item is added under that parent. |
| `Store.Database.UpdateTodosDone` | src/services/TodoListService.ts:62-70 | `todo.updateMany` filtered on id and parent id: the table becomes `UpdateDone` of the old one, the count is the number of records matched, and the users and lists are untouched. |
| `Store.MatchesAtMostOne` | src/services/TodoListService.ts:62-71 | Because ids are unique, the filter matches the item `todoId` when its parent is `todoListId`, and nothing otherwise. So the count is at most one, and it is one exactly when the pair belongs together. |
| `Store.UpdateDoneChangesOnlyMatch` | src/services/TodoListService.ts:62-70 | The update keeps the same set of ids. It changes only `done`, and only on the matched item. |
| `Store.UpdateDoneMismatch` | src/services/TodoListService.ts:62-71 | A list/item pair that does not belong together matches nothing and leaves the table unchanged. |
| `Store.UpdateDoneIdempotent` | src/services/TodoListService.ts:62-70 | A second identical update matches the same records and leaves the table as the first one left it. |
| `Authentication.Authenticate` | src/services/UserService.ts:57 | `authenticate` returns the verdict of `verify` on the stored string and the password. It binds the session to the user id only when the verdict is success. |
| `Users.LoginOutcome` | src/services/UserService.ts:45-69 | The outcome of a login. It is `WrongUsername` exactly when no user has the username. It is success exactly when that user's stored string verifies, and success returns a stored user with that username. It is `WrongPassword` exactly when verify raises `WrongCredentialsError`, and `InvalidAuthenticationString` exactly when verify raises `InvalidAuthenticationString`. Any other verify error propagates. |
| `Users.UserService.RegisterUser` | src/services/UserService.ts:27-43 | A taken username gives the typed `DuplicateUsername` and adds no user. A free one adds exactly one user, with that username and the string derived from the password, and returns it. Lists and items are untouched. A store error other than P2002 would propagate. |
| `Users.UserService.Login` | src/services/UserService.ts:45-69 | The result is `LoginOutcome`. The session is bound to the returned user's id on success and to nothing new otherwise. The store is not written (no `modifies`). |
| `TodoLists.TodoListService.GetTodoListsForUser` | src/services/TodoListService.ts:11-17 | Returns exactly the stored lists whose owner is the user. |
| `TodoLists.TodoListService.GetUserTodoList` | src/services/TodoListService.ts:19-38 | Returns `None` exactly when the list is missing or has another owner. Otherwise returns that list with exactly the items whose parent it is. It reads only. |
| `TodoLists.TodoListService.CreateTodoList` | src/services/TodoListService.ts:40-47 | Adds exactly one list with the given owner and title, and leaves the existing lists, all items and all users unchanged. A missing owner is the store's P2003 error. |
| `TodoLists.TodoListService.CreateTodoListItem` | src/services/TodoListService.ts:49-59 | Adds exactly one item with the given description, `done = false` and that parent. It does not itself check the parent: a missing parent is the store's P2003 error, which propagates. |
| `TodoLists.TodoListService.SetTodoValue` | src/services/TodoListService.ts:61-72 | The item table becomes `UpdateDone(old, list, item, value)`. The result is true exactly when the item exists under that list, which is when the store matched exactly one record. |
| `TodoLists.CreatedListOwnedByOwnerOnly` | src/services/TodoListService.ts:11-17 | After a list is created, its owner's lists are the old ones plus the new list. Every other user's lists are unchanged. |
| `TodoLists.CreatedTodoUnderParentOnly` | src/services/TodoListService.ts:49-58 | After an item is created, its parent's items are the old ones plus the new item. Every other list's items are unchanged. |
| `TodoLists.SetTodoValueTwice` | src/services/TodoListService.ts:61-71 | Calling `set_todo_value` twice with the same arguments gives the same answer both times, and the second call leaves the table as the first left it. |
| `Controller.LoginErrorMessage` | src/controllers/MainController.ts:172-184 | The message is "Wrong username or password" exactly for `WrongUsername` and `WrongPassword`, so the two cannot be told apart. It is "Please reset your password" exactly for `InvalidAuthenticationString`. |
| `Controller.MainController.RequireUser` | src/controllers/MainController.ts:195-201 | The gate returns the session's user. When there is none, it sets `last_error` to the login-required message. |
| `Controller.MainController.RegisterGet` | src/controllers/MainController.ts:99-102 | The page shows the `last_error` the session held, and the handler removes that key. Nothing else in the session changes. |
| `Controller.MainController.RegisterPost` | src/controllers/MainController.ts:122-141 | A taken username gives "Username is taken", a redirect to `/register` and no new user. Otherwise one user is added and the response is a redirect to `/login`. |
| `Controller.MainController.LoginGet` | src/controllers/MainController.ts:144-147 | Same as `RegisterGet`, for the login page. |
| `Controller.MainController.LoginPost` | src/controllers/MainController.ts:167-191 | On success the session is bound to the user and the response is a redirect to `/todo-list`. Every typed failure sets `last_error` to `LoginErrorMessage` of the error, leaves the binding as it was, and redirects to `/login`. |
| `Controller.MainController.TodoListsGet` | src/controllers/MainController.ts:194-202 | Not signed in: the login-required message and a redirect to `/login`. Signed in: exactly the user's lists. |
| `Controller.MainController.TodoListPut` | src/controllers/MainController.ts:224-235 | Not signed in: the login-required message, a redirect to `/login` and an unchanged store. Signed in: exactly one new list owned by the user, and a redirect to it. |
| `Controller.MainController.TodoListGet` | src/controllers/MainController.ts:238-254 | Not signed in: a redirect to `/login`. A list that is missing or not the user's gives 404. Otherwise the response is the list with exactly its items. |
| `Controller.MainController.TodoListItemAdd` | src/controllers/MainController.ts:302-322 | Not signed in: a redirect and an unchanged store. A list that is missing or not the user's gives 404 and no item is created. Otherwise exactly one item, not done, is added to that list, and the response redirects to it. |
| `Controller.MainController.TodoListItemSet` | src/controllers/MainController.ts:325-353 | Not signed in: a redirect and an unchanged store. A list that is not the user's gives 404 and no change. Otherwise `done` becomes `value == "true"` on the matched item, and the response is "ok" when the item is in the list and 404 when it is not. In every case, the only record that can change is that item, and only when the signed-in user owns its list. |

## Left out

- HTML rendering and the embedded client script (src/controllers/MainController.ts:103-118, 148-163, 203-220, 259-298). A page is represented only by the data it shows.
- The text of redirect bodies, `console.log` calls, and status codes other than 404.
- koa routing, decorators and class-validator request classes. Path parameters arrive as naturals, so `Number(...)` parsing is not modelled. The toggle's body value is any string: exactly `"true"` means true and anything else means false.
- `encodeURIComponent` of ids in redirect targets. Targets are the `Location` datatype.
- Prisma query execution and the database schema. The model assumes the schema declares username unique, `owner_id` and `parent_id` as foreign keys, and autoincrement ids.
- Infrastructure failures (lost connections and the like). The in-memory store fails only on constraints. `register_user`'s rethrow of errors other than P2002 is modelled as the `Thrown` branch, which this store never reaches.
- A rejected insert does not advance the id counter. Whether it consumes an id is store-specific.
- PBKDF2 hashing and credential checking inside the framework. They are the two functions of `AuthenticationService`, so a random salt is folded into `createAuthenticationString`.
- `get_user` and its `UserStorageAdapter.get_by_id` lookup (src/UserStorageAdapter.ts:11-17) are modelled by `Authentication.CurrentUser`, on the assumption that the framework looks up the session's bound id.
- The session cookie store internals, and src/main.ts (server bootstrap and middleware wiring).
- The `default:` branches of the two switches (src/controllers/MainController.ts:130-133, 180-183). The error enums are closed datatypes here, so those branches cannot be reached.
- async/await and concurrency. This includes the race between the ownership lookup and a later item creation. Each handler is one sequential step.
- TodoLists.TodoListService.GetTodoListsForUser: returns a set, so the order in which `findMany` returns the lists is not modelled. The items of `GetUserTodoList` are likewise a set.
