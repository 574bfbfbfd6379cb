/** The todo list: each signed-in user reads and edits only their own todos. Every mutation
    checks, in this order, that there is a caller, that the todo exists and that the caller
    owns it; a failed check raises an error and leaves the table as it was. */
module Todos {
  import opened Wrappers
  import opened Identity
  import opened Tables

  type TodoId = nat

  datatype Todo = Todo(text: string, isCompleted: bool, userId: UserId)

  /** The three errors the mutations raise: "User must be authenticated", "Todo not found"
      and "Unauthorized". */
  datatype TodoError = Unauthenticated | TodoNotFound | Unauthorized

  /** Selection of the `by_user` index. */
  function OwnedBy(u: UserId): Todo -> bool
  {
    (t: Todo) => t.userId == u
  }

  /** `getTodos`: nothing without a caller, otherwise the caller's todos in creation order.
      (The todo operations accept any signed-in user, whatever its id.) */
  function GetTodos(todos: map<TodoId, Todo>, bound: nat, caller: Option<AuthUser>): (r: seq<TodoId>)
    ensures caller.None? ==> r == []
    ensures caller.Some? ==>
              forall k :: k in r <==> k in todos && k < bound && todos[k].userId == caller.value.id
  {
    if caller.None? then []
    else
      IdsWhereMembers(todos, OwnedBy(caller.value.id), bound);
      IdsWhere(todos, OwnedBy(caller.value.id), bound)
  }

  /** The caller's list never shows a todo twice and keeps creation order. */
  lemma GetTodosInOrder(todos: map<TodoId, Todo>, bound: nat, caller: Option<AuthUser>)
    ensures Increasing(GetTodos(todos, bound, caller))
  {
    if caller.Some? {
      IdsWhereIncreasing(todos, OwnedBy(caller.value.id), bound);
    }
  }

  /** A todo created by `u` under the next fresh id appears at the end of `u`'s list, and
      every other user's list is unchanged. */
  lemma GetTodosAfterCreate(todos: map<TodoId, Todo>, bound: nat, u: UserId, text: string, caller: Option<AuthUser>)
    requires KeysBelow(todos, bound)
    ensures caller.Some? && caller.value.id == u ==>
              GetTodos(todos[bound := Todo(text, false, u)], bound + 1, caller) == GetTodos(todos, bound, caller) + [bound]
    ensures !(caller.Some? && caller.value.id == u) ==>
              GetTodos(todos[bound := Todo(text, false, u)], bound + 1, caller) == GetTodos(todos, bound, caller)
  {
    if caller.Some? {
      IdsWhereInsert(todos, OwnedBy(caller.value.id), bound, Todo(text, false, u));
    }
  }

  /** The guard shared by `toggleTodo`, `deleteTodo` and `updateTodo`. */
  function OwnerCheck(todos: map<TodoId, Todo>, caller: Option<AuthUser>, id: TodoId): (r: Outcome<TodoError>)
    ensures r.Pass? <==> caller.Some? && id in todos && todos[id].userId == caller.value.id
    ensures caller.None? ==> r == Fail(Unauthenticated)
    ensures caller.Some? && id !in todos ==> r == Fail(TodoNotFound)
    ensures caller.Some? && id in todos && todos[id].userId != caller.value.id ==> r == Fail(Unauthorized)
  {
    if caller.None? then Fail(Unauthenticated)
    else if id !in todos then Fail(TodoNotFound)
    else if todos[id].userId != caller.value.id then Fail(Unauthorized)
    else Pass
  }

  /** The patch of `toggleTodo`: only the completion flag flips. */
  function Toggled(t: Todo): (r: Todo)
    ensures r.isCompleted == !t.isCompleted
    ensures r.text == t.text && r.userId == t.userId
  {
    t.(isCompleted := !t.isCompleted)
  }

  /** Toggling twice restores the original record. */
  lemma ToggleTwice(t: Todo)
    ensures Toggled(Toggled(t)) == t
  {
  }

  /** A toggle never changes who may act on a todo, so a toggle that passed the owner check
      can be followed by a second one that passes it too and restores the table. */
  lemma ToggleTwiceRestoresTable(todos: map<TodoId, Todo>, caller: Option<AuthUser>, id: TodoId)
    requires OwnerCheck(todos, caller, id).Pass?
    ensures OwnerCheck(todos[id := Toggled(todos[id])], caller, id).Pass?
    ensures todos[id := Toggled(todos[id])][id := Toggled(Toggled(todos[id]))] == todos
  {
    ToggleTwice(todos[id]);
  }

  /** The `todos` table with its next fresh id. */
  class TodoTable {
    var todos: map<TodoId, Todo>
    var nextId: nat

    ghost predicate Valid()
      reads this
    {
      KeysBelow(todos, nextId)
    }

    /** An empty table. */
    constructor ()
      ensures Valid() && todos == map[]
    {
      todos, nextId := map[], 0;
    }

    /** `createTodo`: an open todo with the given text, owned by the caller, under the next
        id. */
    method CreateTodo(caller: Option<AuthUser>, text: string) returns (r: Result<TodoId, TodoError>)
      requires Valid()
      modifies this
      ensures Valid()
      ensures caller.None? ==> r == Failure(Unauthenticated) && unchanged(this)
      ensures caller.Some? ==>
                && r == Success(old(nextId)) && r.value !in old(todos)
                && todos == old(todos)[r.value := Todo(text, false, caller.value.id)]
                && nextId == old(nextId) + 1
    {
      if caller.None? {
        return Failure(Unauthenticated);
      }
      r := Success(nextId);
      todos := todos[nextId := Todo(text, false, caller.value.id)];
      nextId := nextId + 1;
    }

    /** `toggleTodo`: the owner flips the completion flag. */
    method ToggleTodo(caller: Option<AuthUser>, id: TodoId) returns (r: Outcome<TodoError>)
      requires Valid()
      modifies this
      ensures Valid()
      ensures r == OwnerCheck(old(todos), caller, id)
      ensures r.Fail? ==> unchanged(this)
      ensures r.Pass? ==> todos == old(todos)[id := Toggled(old(todos)[id])] && nextId == old(nextId)
    {
      r := OwnerCheck(todos, caller, id);
      if r.Fail? {
        return;
      }
      todos := todos[id := Toggled(todos[id])];
    }

    /** `deleteTodo`: the owner removes the todo; every other todo stays as it was. */
    method DeleteTodo(caller: Option<AuthUser>, id: TodoId) returns (r: Outcome<TodoError>)
      requires Valid()
      modifies this
      ensures Valid()
      ensures r == OwnerCheck(old(todos), caller, id)
      ensures r.Fail? ==> unchanged(this)
      ensures r.Pass? ==>
                && id !in todos && todos.Keys == old(todos).Keys - {id}
                && (forall k :: k in todos ==> todos[k] == old(todos)[k])
                && nextId == old(nextId)
    {
      r := OwnerCheck(todos, caller, id);
      if r.Fail? {
        return;
      }
      todos := todos - {id};
    }

    /** `updateTodo`: the owner replaces the text; the flag and the owner are kept. */
    method UpdateTodo(caller: Option<AuthUser>, id: TodoId, text: string) returns (r: Outcome<TodoError>)
      requires Valid()
      modifies this
      ensures Valid()
      ensures r == OwnerCheck(old(todos), caller, id)
      ensures r.Fail? ==> unchanged(this)
      ensures r.Pass? ==>
                && todos == old(todos)[id := Todo(text, old(todos)[id].isCompleted, old(todos)[id].userId)]
                && nextId == old(nextId)
    {
      r := OwnerCheck(todos, caller, id);
      if r.Fail? {
        return;
      }
      todos := todos[id := todos[id].(text := text)];
    }
  }
}
