/** The todo list access layer: CRUD over lists and items, scoped by owner. */
module TodoLists {
  import opened Store

  class TodoListService {
    const db: Database

    constructor (db: Database)
      ensures this.db == db
    {
      this.db := db;
    }

    /** `get_todo_lists_for_user`: exactly the lists the user owns. */
    method GetTodoListsForUser(userId: nat) returns (r: set<TodoList>)
      requires db.Valid()
      ensures forall l :: l in r <==> l.id in db.lists && db.lists[l.id] == l && l.ownerId == userId
    {
      r := ListsOwnedBy(db.lists, userId);
    }

    /** `get_user_todo_list`: a missing list and another user's list both give
        `None`; otherwise the list with every item whose parent it is. */
    method GetUserTodoList(todoListId: nat, userId: nat) returns (r: Option<TodoListWithTodos>)
      requires db.Valid()
      ensures r == None <==> !(todoListId in db.lists && db.lists[todoListId].ownerId == userId)
      ensures r.Some? ==>
        && r.value.list == db.lists[todoListId]
        && (forall t :: t in r.value.todos <==> t.id in db.todos && db.todos[t.id] == t && t.parentId == todoListId)
    {
      var found := FindListWithTodos(db.lists, db.todos, todoListId);
      if found == None {
        return None;
      }
      if found.value.list.ownerId != userId {
        return None;
      }
      r := found;
    }

    /** `create_todo_list`: one new list with that owner and title; nothing else changes. */
    method CreateTodoList(ownerId: nat, title: string) returns (r: StoreResult<TodoList>)
      requires db.Valid()
      modifies db
      ensures db.Valid()
      ensures db.users == old(db.users) && db.todos == old(db.todos)
      ensures ownerId in old(db.users) ==>
        && r.Created?
        && r.record == TodoList(old(db.nextListId), ownerId, title)
        && r.record.id !in old(db.lists)
        && db.lists == old(db.lists)[r.record.id := r.record]
      ensures ownerId !in old(db.users) ==>
        r == Rejected(ForeignKeyConstraintFailed) && db.lists == old(db.lists)
    {
      r := db.CreateList(ownerId, title);
    }

    /** `create_todo_list_item`: one new item, not done, under `todoListId`.
        The parent is not checked here; a missing one is the store's error. */
    method CreateTodoListItem(todoListId: nat, description: string) returns (r: StoreResult<Todo>)
      requires db.Valid()
      modifies db
      ensures db.Valid()
      ensures db.users == old(db.users) && db.lists == old(db.lists)
      ensures todoListId in old(db.lists) ==>
        && r.Created?
        && r.record == Todo(old(db.nextTodoId), todoListId, description, false)
        && r.record.id !in old(db.todos)
        && db.todos == old(db.todos)[r.record.id := r.record]
      ensures todoListId !in old(db.lists) ==>
        r == Rejected(ForeignKeyConstraintFailed) && db.todos == old(db.todos)
    {
      r := db.CreateTodo(todoListId, description, false);
    }

    /** `set_todo_value`: sets `done` on the item `todoId` only if it sits under
        `todoListId`, and reports whether exactly one record matched. */
    method SetTodoValue(todoListId: nat, todoId: nat, newValue: bool) returns (r: bool)
      requires db.Valid()
      modifies db
      ensures db.Valid()
      ensures db.users == old(db.users) && db.lists == old(db.lists)
      ensures db.todos == UpdateDone(old(db.todos), todoListId, todoId, newValue)
      ensures r <==> todoId in old(db.todos) && old(db.todos)[todoId].parentId == todoListId
    {
      var count := db.UpdateTodosDone(todoListId, todoId, newValue);
      MatchesAtMostOne(old(db.todos), todoListId, todoId);
      r := count == 1;
    }
  }

  /** Creating a list adds it to its owner's lists and to no one else's. */
  lemma CreatedListOwnedByOwnerOnly(lists: map<nat, TodoList>, list: TodoList, userId: nat)
    requires ListsKeyed(lists) && list.id !in lists
    ensures ListsOwnedBy(lists[list.id := list], userId)
            == if userId == list.ownerId then ListsOwnedBy(lists, userId) + {list} else ListsOwnedBy(lists, userId)
  {
    var after := lists[list.id := list];
    var before := ListsOwnedBy(lists, userId);
    forall l | l in ListsOwnedBy(after, userId)
      ensures l in before || (l == list && userId == list.ownerId)
    {
      var k :| k in after && after[k].ownerId == userId && after[k] == l;
      if k != list.id {
        assert k in lists && lists[k] == l;
      }
    }
    forall l | l in before ensures l in ListsOwnedBy(after, userId) {
      var k :| k in lists && lists[k].ownerId == userId && lists[k] == l;
      assert k != list.id && after[k] == l;
    }
    if userId == list.ownerId {
      assert after[list.id] == list;
    }
  }

  /** Adding an item shows it under its parent list and under no other list. */
  lemma CreatedTodoUnderParentOnly(todos: map<nat, Todo>, todo: Todo, todoListId: nat)
    requires TodosKeyed(todos) && todo.id !in todos
    ensures TodosUnder(todos[todo.id := todo], todoListId)
            == if todoListId == todo.parentId then TodosUnder(todos, todoListId) + {todo} else TodosUnder(todos, todoListId)
  {
    var after := todos[todo.id := todo];
    var before := TodosUnder(todos, todoListId);
    forall t | t in TodosUnder(after, todoListId)
      ensures t in before || (t == todo && todoListId == todo.parentId)
    {
      var k :| k in after && after[k].parentId == todoListId && after[k] == t;
      if k != todo.id {
        assert k in todos && todos[k] == t;
      }
    }
    forall t | t in before ensures t in TodosUnder(after, todoListId) {
      var k :| k in todos && todos[k].parentId == todoListId && todos[k] == t;
      assert k != todo.id && after[k] == t;
    }
    if todoListId == todo.parentId {
      assert after[todo.id] == todo;
    }
  }

  /** `set_todo_value` called twice with the same arguments: both calls give the
      same answer and the second leaves the table as the first left it. */
  lemma SetTodoValueTwice(todos: map<nat, Todo>, todoListId: nat, todoId: nat, newValue: bool)
    requires TodosKeyed(todos)
    ensures var once := UpdateDone(todos, todoListId, todoId, newValue);
      && TodosKeyed(once)
      && (todoId in once && once[todoId].parentId == todoListId <==> todoId in todos && todos[todoId].parentId == todoListId)
      && UpdateDone(once, todoListId, todoId, newValue) == once
  {
  }
}
