/** The relational store both services share, as three tables keyed by
    their records' ids.  Each write method stands for one Prisma call and
    either succeeds or is rejected with the error code Prisma would raise. */
module Store {

  datatype Option<T> = None | Some(value: T)

  datatype User = User(id: nat, username: string, authenticationString: string)

  datatype TodoList = TodoList(id: nat, ownerId: nat, title: string)

  datatype Todo = Todo(id: nat, parentId: nat, description: string, done: bool)

  /** A list fetched together with its items (`include: { todos: true }`). */
  datatype TodoListWithTodos = TodoListWithTodos(list: TodoList, todos: set<Todo>)

  /** The outcome of a `create`: the new record, or the code of the error the store raises. */
  datatype StoreResult<T> = Created(record: T) | Rejected(code: string)

  /** Prisma's code for a unique-constraint violation. */
  const UniqueConstraintFailed: string := "P2002"
  /** Prisma's code for a foreign-key violation. */
  const ForeignKeyConstraintFailed: string := "P2003"

  predicate UsernameTaken(users: map<nat, User>, username: string) {
    exists k :: k in users && users[k].username == username
  }

  ghost predicate UsernamesUnique(users: map<nat, User>) {
    forall a, b :: a in users && b in users && users[a].username == users[b].username ==> a == b
  }

  ghost predicate UsersKeyed(users: map<nat, User>) {
    forall k :: k in users ==> users[k].id == k
  }

  ghost predicate ListsKeyed(lists: map<nat, TodoList>) {
    forall k :: k in lists ==> lists[k].id == k
  }

  ghost predicate TodosKeyed(todos: map<nat, Todo>) {
    forall k :: k in todos ==> todos[k].id == k
  }

  /** `user.findUnique({ where: { username } })`; the username is a unique key. */
  function UserNamed(users: map<nat, User>, username: string): Option<User>
    requires UsernamesUnique(users)
  {
    if UsernameTaken(users, username) then
      var k :| k in users && users[k].username == username; Some(users[k])
    else None
  }

  /** `todoList.findMany({ where: { owner_id } })`. */
  function ListsOwnedBy(lists: map<nat, TodoList>, ownerId: nat): set<TodoList> {
    set k | k in lists && lists[k].ownerId == ownerId :: lists[k]
  }

  /** The `todos` relation of list `todoListId`. */
  function TodosUnder(todos: map<nat, Todo>, todoListId: nat): set<Todo> {
    set k | k in todos && todos[k].parentId == todoListId :: todos[k]
  }

  /** `todoList.findUnique({ where: { id }, include: { todos: true } })`. */
  function FindListWithTodos(lists: map<nat, TodoList>, todos: map<nat, Todo>, todoListId: nat): Option<TodoListWithTodos> {
    if todoListId in lists then Some(TodoListWithTodos(lists[todoListId], TodosUnder(todos, todoListId))) else None
  }

  /** The records `todo.updateMany` selects with the filter `{ id: todoId, parent_id: todoListId }`. */
  function Matches(todos: map<nat, Todo>, todoListId: nat, todoId: nat): set<nat> {
    set k | k in todos && todos[k].id == todoId && todos[k].parentId == todoListId
  }

  /** The table after `todo.updateMany({ data: { done }, where: { id: todoId, parent_id: todoListId } })`. */
  function UpdateDone(todos: map<nat, Todo>, todoListId: nat, todoId: nat, done: bool): map<nat, Todo> {
    map k | k in todos ::
      if todos[k].id == todoId && todos[k].parentId == todoListId then todos[k].(done := done) else todos[k]
  }

  /** With ids as keys the filter selects the one record `todoId` when it sits under
      `todoListId`, and nothing otherwise: the match count is never above one. */
  lemma MatchesAtMostOne(todos: map<nat, Todo>, todoListId: nat, todoId: nat)
    requires TodosKeyed(todos)
    ensures Matches(todos, todoListId, todoId)
            == if todoId in todos && todos[todoId].parentId == todoListId then {todoId} else {}
    ensures |Matches(todos, todoListId, todoId)| == 1 <==> todoId in todos && todos[todoId].parentId == todoListId
  {
  }

  /** The update touches only `done`, and only on the matched record. */
  lemma UpdateDoneChangesOnlyMatch(todos: map<nat, Todo>, todoListId: nat, todoId: nat, done: bool)
    requires TodosKeyed(todos)
    ensures var after := UpdateDone(todos, todoListId, todoId, done);
      && after.Keys == todos.Keys
      && TodosKeyed(after)
      && (forall k :: k in todos ==>
            after[k] == if k == todoId && todos[k].parentId == todoListId then todos[k].(done := done) else todos[k])
  {
  }

  /** A list/todo pair that does not belong together selects nothing and changes nothing. */
  lemma UpdateDoneMismatch(todos: map<nat, Todo>, todoListId: nat, todoId: nat, done: bool)
    requires TodosKeyed(todos)
    requires !(todoId in todos && todos[todoId].parentId == todoListId)
    ensures Matches(todos, todoListId, todoId) == {}
    ensures UpdateDone(todos, todoListId, todoId, done) == todos
  {
  }

  /** Running the same update twice selects the same records and ends in the same table. */
  lemma UpdateDoneIdempotent(todos: map<nat, Todo>, todoListId: nat, todoId: nat, done: bool)
    ensures var once := UpdateDone(todos, todoListId, todoId, done);
      && Matches(once, todoListId, todoId) == Matches(todos, todoListId, todoId)
      && UpdateDone(once, todoListId, todoId, done) == once
  {
  }

  class Database {
    var users: map<nat, User>
    var lists: map<nat, TodoList>
    var todos: map<nat, Todo>
    /** The next values of the three autoincrement id sequences. */
    var nextUserId: nat
    var nextListId: nat
    var nextTodoId: nat

    /** Ids are the keys and come from the sequences, usernames are unique,
        and every list has an owner and every todo a parent list. */
    ghost predicate Valid()
      reads this
    {
      && UsersKeyed(users) && UsernamesUnique(users)
      && ListsKeyed(lists) && TodosKeyed(todos)
      && (forall k :: k in users ==> k < nextUserId)
      && (forall k :: k in lists ==> k < nextListId && lists[k].ownerId in users)
      && (forall k :: k in todos ==> k < nextTodoId && todos[k].parentId in lists)
    }

    constructor ()
      ensures Valid()
      ensures users == map[] && lists == map[] && todos == map[]
    {
      users, lists, todos := map[], map[], map[];
      nextUserId, nextListId, nextTodoId := 0, 0, 0;
    }

    /** `user.create`: rejected with P2002 when the username is taken. */
    method CreateUser(username: string, authenticationString: string) returns (r: StoreResult<User>)
      requires Valid()
      modifies this
      ensures Valid()
      ensures lists == old(lists) && todos == old(todos)
      ensures UsernameTaken(old(users), username) ==>
        r == Rejected(UniqueConstraintFailed) && users == old(users)
      ensures !UsernameTaken(old(users), username) ==>
        && r.Created?
        && r.record == User(r.record.id, username, authenticationString)
        && r.record.id == old(nextUserId)
        && r.record.id !in old(users)
        && users == old(users)[r.record.id := r.record]
    {
      if UsernameTaken(users, username) {
        r := Rejected(UniqueConstraintFailed);
      } else {
        var user := User(nextUserId, username, authenticationString);
        users := users[nextUserId := user];
        nextUserId := nextUserId + 1;
        r := Created(user);
      }
    }

    /** `todoList.create`: rejected with P2003 when the owner does not exist. */
    method CreateList(ownerId: nat, title: string) returns (r: StoreResult<TodoList>)
      requires Valid()
      modifies this
      ensures Valid()
      ensures users == old(users) && todos == old(todos)
      ensures ownerId !in old(users) ==>
        r == Rejected(ForeignKeyConstraintFailed) && lists == old(lists)
      ensures ownerId in old(users) ==>
        && r.Created?
        && r.record == TodoList(r.record.id, ownerId, title)
        && r.record.id == old(nextListId)
        && r.record.id !in old(lists)
        && lists == old(lists)[r.record.id := r.record]
    {
      if ownerId !in users {
        r := Rejected(ForeignKeyConstraintFailed);
      } else {
        var list := TodoList(nextListId, ownerId, title);
        lists := lists[nextListId := list];
        nextListId := nextListId + 1;
        r := Created(list);
      }
    }

    /** `todo.create`: rejected with P2003 when the parent list does not exist. */
    method CreateTodo(parentId: nat, description: string, done: bool) returns (r: StoreResult<Todo>)
      requires Valid()
      modifies this
      ensures Valid()
      ensures users == old(users) && lists == old(lists)
      ensures parentId !in old(lists) ==>
        r == Rejected(ForeignKeyConstraintFailed) && todos == old(todos)
      ensures parentId in old(lists) ==>
        && r.Created?
        && r.record == Todo(r.record.id, parentId, description, done)
        && r.record.id == old(nextTodoId)
        && r.record.id !in old(todos)
        && todos == old(todos)[r.record.id := r.record]
    {
      if parentId !in lists {
        r := Rejected(ForeignKeyConstraintFailed);
      } else {
        var todo := Todo(nextTodoId, parentId, description, done);
        todos := todos[nextTodoId := todo];
        nextTodoId := nextTodoId + 1;
        r := Created(todo);
      }
    }

    /** `todo.updateMany`, returning the number of records it matched. */
    method UpdateTodosDone(todoListId: nat, todoId: nat, done: bool) returns (count: nat)
      requires Valid()
      modifies this
      ensures Valid()
      ensures users == old(users) && lists == old(lists)
      ensures todos == UpdateDone(old(todos), todoListId, todoId, done)
      ensures count == |Matches(old(todos), todoListId, todoId)|
    {
      count := |Matches(todos, todoListId, todoId)|;
      UpdateDoneChangesOnlyMatch(todos, todoListId, todoId, done);
      todos := UpdateDone(todos, todoListId, todoId, done);
    }
  }
}
