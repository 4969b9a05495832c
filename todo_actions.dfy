/** The todo-item actions composable (`useTodoActions`): each action wraps
    one store call with input validation, an optimistic change to the page's
    `todos` ref, a rollback when the call throws, and an error notification.
    Notifications are recorded in `notices`. */
module Actions {
  import opened Common
  import opened Keyed
  import opened Todos
  import opened Refs

  /** The message keys of the three failure notifications. */
  const FailedToCreateTodo: string := "notifications.failedToCreateTodo"
  const FailedToUpdateTodo: string := "notifications.failedToUpdateTodo"
  const FailedToDeleteTodo: string := "notifications.failedToDeleteTodo"

  /** A notification shown to the user, by severity and message key. */
  datatype Notice = ErrorNotice(key: string)

  /** `todos.find(t => t.id === id).is_completed = v`: sets the flag on the
      first item with that id, if there is one. */
  function SetCompleted(todos: seq<TodoItem>, id: Id, v: bool): (r: seq<TodoItem>)
    ensures SameIds(todos, r, ItemKey)
    ensures !HasId(todos, ItemKey, id) ==> r == todos
    ensures forall j :: 0 <= j < |todos| && j != FindIndex(todos, ItemKey, id) ==> r[j] == todos[j]
    ensures HasId(todos, ItemKey, id) ==>
      var i := FindIndex(todos, ItemKey, id);
      r[i].isCompleted == v && r[i].(isCompleted := todos[i].isCompleted) == todos[i]
  {
    var i := FindIndex(todos, ItemKey, id);
    if i == -1 then todos else todos[i := todos[i].(isCompleted := v)]
  }

  /** Setting the flag twice on the same id leaves only the second value. */
  lemma SetCompletedTwice(todos: seq<TodoItem>, id: Id, a: bool, b: bool)
    ensures SetCompleted(SetCompleted(todos, id, a), id, b) == SetCompleted(todos, id, b)
  {
    FindIndexSameIds(todos, SetCompleted(todos, id, a), ItemKey, id);
  }

  /** The first item with that id, if any, has the flag `v`. */
  ghost predicate CachedFlagIs(todos: seq<TodoItem>, id: Id, v: bool) {
    HasId(todos, ItemKey, id) ==> todos[FindIndex(todos, ItemKey, id)].isCompleted == v
  }

  /** Reverting the flag to the value the item had restores the sequence
      exactly. */
  lemma RevertRestores(todos: seq<TodoItem>, id: Id, v: bool, original: bool)
    requires CachedFlagIs(todos, id, original)
    ensures SetCompleted(SetCompleted(todos, id, v), id, original) == todos
  {
    SetCompletedTwice(todos, id, v, original);
  }

  class TodoActions {
    const listId: Ref<Option<Id>>
    const todos: Ref<seq<TodoItem>>
    const store: TodoStore
    var notices: seq<Notice>

    constructor (listId: Ref<Option<Id>>, todos: Ref<seq<TodoItem>>, store: TodoStore)
      ensures this.listId == listId && this.todos == todos && this.store == store
      ensures notices == []
    {
      this.listId, this.todos, this.store := listId, todos, store;
      notices := [];
    }

    /** `addTodo`: empty text or no selected list is rejected without any
        call. Otherwise the store creates the item; on success it is put at
        the front of `todos` unless an item with its id is already there, and
        on failure an error is notified and `None` returned. */
    method AddTodo(text: string, created: Outcome<TodoItem>) returns (r: Option<TodoItem>)
      modifies this, todos, store
      ensures text == "" || !Truthy(old(listId.value)) ==>
        && r == None && notices == old(notices) && todos.value == old(todos.value)
        && store.todos == old(store.todos) && store.requests == old(store.requests)
      ensures text != "" && Truthy(old(listId.value)) ==>
        && store.requests == old(store.requests) + [Request.CreateTodo(text, old(listId.value).value, false)]
        && store.todos == (if created.Returns? then [created.value] + old(store.todos) else old(store.todos))
        && (created.Returns? ==>
              && r == Some(created.value)
              && todos.value == PrependIfAbsent(old(todos.value), ItemKey, created.value)
              && notices == old(notices))
        && (created.Throws? ==>
              && r == None
              && todos.value == old(todos.value)
              && notices == old(notices) + [ErrorNotice(FailedToCreateTodo)])
      ensures store.lists == old(store.lists) && store.currentList == old(store.currentList)
    {
      if text == "" || !Truthy(listId.value) {
        return None;
      }
      var outcome := store.CreateTodo(listId.value.value, text, created);
      match outcome
      case Returns(newTodo) =>
        if Find(todos.value, ItemKey, newTodo.id).None? {
          todos.value := [newTodo] + todos.value;
        }
        r := Some(newTodo);
      case Throws(_) =>
        notices := notices + [ErrorNotice(FailedToCreateTodo)];
        r := None;
    }

    /** `toggleTodo`: a null value does nothing. Otherwise the flag is set
        on the cached item before the update is sent (`shown` is what the
        page displays meanwhile); if the update throws, an error is notified
        and the flag is set back to the argument's value at entry. */
    method ToggleTodo(todo: TodoItem, value: Option<bool>, updated: Outcome<TodoItem>) returns (ghost shown: seq<TodoItem>)
      modifies this, todos, store
      ensures value.None? ==>
        && todos.value == old(todos.value) && notices == old(notices)
        && store.todos == old(store.todos) && store.requests == old(store.requests)
      ensures value.Some? ==>
        && shown == SetCompleted(old(todos.value), todo.id, value.value)
        && store.requests == old(store.requests) + [Request.UpdateTodo(todo.id, ItemPatch(None, Some(value.value)))]
        && store.todos == (if updated.Returns? then ReplaceFirst(old(store.todos), ItemKey, todo.id, updated.value) else old(store.todos))
        && (updated.Returns? ==> todos.value == shown && notices == old(notices))
        && (updated.Throws? ==>
              && todos.value == SetCompleted(old(todos.value), todo.id, todo.isCompleted)
              && notices == old(notices) + [ErrorNotice(FailedToUpdateTodo)])
      ensures value.Some? && updated.Throws? && CachedFlagIs(old(todos.value), todo.id, todo.isCompleted) ==>
        todos.value == old(todos.value)
      ensures store.lists == old(store.lists) && store.currentList == old(store.currentList)
    {
      shown := todos.value;
      if value.None? {
        return;
      }
      var originalValue := todo.isCompleted;
      todos.value := SetCompleted(todos.value, todo.id, value.value);
      shown := todos.value;
      var outcome := store.UpdateTodo(todo.id, ItemPatch(None, Some(value.value)), updated);
      if outcome.Throws? {
        notices := notices + [ErrorNotice(FailedToUpdateTodo)];
        todos.value := SetCompleted(todos.value, todo.id, originalValue);
        SetCompletedTwice(old(todos.value), todo.id, value.value, originalValue);
        if CachedFlagIs(old(todos.value), todo.id, originalValue) {
          RevertRestores(old(todos.value), todo.id, value.value, originalValue);
        }
      }
    }

    /** `deleteTodo`: the item is removed from `todos` before the delete is
        sent (`shown`); if the delete throws, an error is notified and
        `todos` is restored to the snapshot taken at entry, order included. */
    method DeleteTodo(todo: TodoItem, deleted: Outcome<()>) returns (ghost shown: seq<TodoItem>)
      modifies this, todos, store
      ensures shown == RemoveAll(old(todos.value), ItemKey, todo.id)
      ensures store.requests == old(store.requests) + [Request.DeleteTodo(todo.id)]
      ensures deleted.Returns? ==>
        && todos.value == shown
        && store.todos == RemoveAll(old(store.todos), ItemKey, todo.id)
        && notices == old(notices)
      ensures deleted.Throws? ==>
        && todos.value == old(todos.value)
        && store.todos == old(store.todos)
        && notices == old(notices) + [ErrorNotice(FailedToDeleteTodo)]
      ensures store.lists == old(store.lists) && store.currentList == old(store.currentList)
    {
      var originalTodos := todos.value;
      todos.value := RemoveAll(todos.value, ItemKey, todo.id);
      shown := todos.value;
      var outcome := store.DeleteTodo(todo.id, deleted);
      if outcome.Throws? {
        notices := notices + [ErrorNotice(FailedToDeleteTodo)];
        todos.value := originalTodos;
      }
    }
  }

  /** A user creates the private list "Groceries", opens it, adds "Milk" and
      ticks it, every call succeeding with the record the service would
      return: the page and the store both end with the single ticked item. */
  method GroceriesScenario(owner: Id, listId: Id, itemId: Id) returns (page: seq<TodoItem>, cached: seq<TodoItem>, lists: seq<TodoList>)
    requires listId != ""
    ensures page == [TodoItem(itemId, "Milk", true, listId)]
    ensures cached == page
    ensures lists == [TodoList(listId, "Groceries", owner, false)]
  {
    var store := new TodoStore();
    var groceries := TodoList(listId, "Groceries", owner, false);
    var _ := store.CreateList("Groceries", owner := Some(owner), response := Returns(groceries));
    var _ := store.SetCurrentList(groceries, Returns([]));
    var selected := new Ref<Option<Id>>(Some(listId));
    var todos := new Ref<seq<TodoItem>>(store.todos);
    var actions := new TodoActions(selected, todos, store);
    var milk := TodoItem(itemId, "Milk", false, listId);
    var added := actions.AddTodo("Milk", Returns(milk));
    var _ := actions.ToggleTodo(milk, Some(true), Returns(milk.(isCompleted := true)));
    page, cached, lists := todos.value, store.todos, store.lists;
  }
}
