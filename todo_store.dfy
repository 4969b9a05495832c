/** The list/todo domain store (`useTodoStore`): the client's cache of the
    signed-in user's todo lists, the selected list, and that list's items.
    Every action except `setCurrentList` awaits one call into the record
    service and only then touches the cache, so a call that throws leaves
    the cache as it was. `setCurrentList` sets the list and empties `todos`
    at once, then starts the item fetch without awaiting it.

    Each call is modelled by the request it sends (appended to `requests`)
    and by its outcome, which the caller supplies as a parameter: the record
    service itself is not part of this model. */
module Todos {
  import opened Common
  import opened Keyed

  /** A `todo_lists` record as the client sees it. */
  datatype TodoList = TodoList(id: Id, title: string, user: Id, isPublic: bool)

  /** A `todos` record as the client sees it; `list` is its parent list. */
  datatype TodoItem = TodoItem(id: Id, text: string, isCompleted: bool, list: Id)

  /** Identifier projections, the `key` of the keyed-sequence operations. */
  function ListKey(l: TodoList): Id { l.id }
  function ItemKey(t: TodoItem): Id { t.id }

  /** `Partial<TodoList>` and `Partial<TodoItem>`: the fields an update sends. */
  datatype ListPatch = ListPatch(title: Option<string>, isPublic: Option<bool>)
  datatype ItemPatch = ItemPatch(text: Option<string>, isCompleted: Option<bool>)

  /** The calls the store makes into the record service. */
  datatype Request =
    | GetLists(owner: Option<Id>)
    | GetList(id: Id)
    | CreateList(title: string, isPublic: bool, owner: Option<Id>)
    | UpdateList(id: Id, listPatch: ListPatch)
    | DeleteList(id: Id)
    | GetTodos(list: Id)
    | CreateTodo(text: string, list: Id, isCompleted: bool)
    | UpdateTodo(id: Id, itemPatch: ItemPatch)
    | DeleteTodo(id: Id)

  class TodoStore {
    var lists: seq<TodoList>
    var currentList: Option<TodoList>
    var todos: seq<TodoItem>
    /** Every call sent to the record service, oldest first. */
    var requests: seq<Request>

    constructor ()
      ensures lists == [] && currentList == None && todos == [] && requests == []
    {
      lists, currentList, todos, requests := [], None, [], [];
    }

    /** Without a valid session nothing is asked; otherwise the user's own
        lists replace `lists`, and a failed fetch is swallowed. */
    method FetchLists(sessionValid: bool, userId: Option<Id>, response: Outcome<seq<TodoList>>)
      modifies this`lists, this`requests
      ensures requests == if sessionValid then old(requests) + [GetLists(userId)] else old(requests)
      ensures lists == if sessionValid && response.Returns? then response.value else old(lists)
    {
      if !sessionValid {
        return;
      }
      requests := requests + [GetLists(userId)];
      match response
      case Returns(items) =>
        lists := items;
      case Throws(_) =>
    }

    /** One list by id; a failure is swallowed into `None`. */
    method FetchList(id: Id, response: Outcome<TodoList>) returns (r: Option<TodoList>)
      modifies this`requests
      ensures requests == old(requests) + [GetList(id)]
      ensures r == if response.Returns? then Some(response.value) else None
    {
      requests := requests + [GetList(id)];
      match response
      case Returns(record) =>
        r := Some(record);
      case Throws(_) =>
        r := None;
    }

    /** Creates a list owned by the signed-in user; the created record goes
        to the front of `lists`. */
    method CreateList(title: string, isPublic: bool := false, owner: Option<Id>, response: Outcome<TodoList>)
      returns (r: Outcome<TodoList>)
      modifies this`lists, this`requests
      ensures requests == old(requests) + [Request.CreateList(title, isPublic, owner)]
      ensures r == response
      ensures lists == if response.Returns? then [response.value] + old(lists) else old(lists)
    {
      requests := requests + [Request.CreateList(title, isPublic, owner)];
      r := response;
      if response.Throws? {
        return;
      }
      var record := response.value;
      lists := [record] + lists;
    }

    /** Writes the updated record over the first cached list with that id,
        and over `currentList` when it is that list. */
    method UpdateList(id: Id, patch: ListPatch, response: Outcome<TodoList>) returns (r: Outcome<()>)
      modifies this`lists, this`currentList, this`requests
      ensures requests == old(requests) + [Request.UpdateList(id, patch)]
      ensures r.Throws? <==> response.Throws?
      ensures response.Throws? ==> r.error == response.error
      ensures lists == if response.Returns? then ReplaceFirst(old(lists), ListKey, id, response.value) else old(lists)
      ensures currentList ==
        if response.Returns? && old(currentList).Some? && old(currentList).value.id == id
        then Some(response.value) else old(currentList)
    {
      requests := requests + [Request.UpdateList(id, patch)];
      if response.Throws? {
        return Throws(response.error);
      }
      var record := response.value;
      var index := FindIndex(lists, ListKey, id);
      if index != -1 {
        lists := lists[index := record];
      }
      if currentList.Some? && currentList.value.id == id {
        currentList := Some(record);
      }
      r := Returns(());
    }

    /** Removes every cached list with that id; deleting the selected list
        also deselects it and empties `todos`. */
    method DeleteList(id: Id, response: Outcome<()>) returns (r: Outcome<()>)
      modifies this`lists, this`currentList, this`todos, this`requests
      ensures requests == old(requests) + [Request.DeleteList(id)]
      ensures r == response
      ensures lists == if response.Returns? then RemoveAll(old(lists), ListKey, id) else old(lists)
      ensures var hit := response.Returns? && old(currentList).Some? && old(currentList).value.id == id;
        currentList == (if hit then None else old(currentList)) && todos == (if hit then [] else old(todos))
    {
      requests := requests + [Request.DeleteList(id)];
      r := response;
      if response.Throws? {
        return;
      }
      lists := RemoveAll(lists, ListKey, id);
      if currentList.Some? && currentList.value.id == id {
        currentList := None;
        todos := [];
      }
    }

    /** The items of one list replace `todos` wholesale. A failure is NOT
        caught here: it propagates and `todos` is left as it was. */
    method FetchTodos(listId: Id, response: Outcome<seq<TodoItem>>) returns (r: Outcome<()>)
      modifies this`todos, this`requests
      ensures requests == old(requests) + [GetTodos(listId)]
      ensures r.Throws? <==> response.Throws?
      ensures response.Throws? ==> r.error == response.error
      ensures todos == if response.Returns? then response.value else old(todos)
    {
      requests := requests + [GetTodos(listId)];
      if response.Throws? {
        return Throws(response.error);
      }
      todos := response.value;
      r := Returns(());
    }

    /** Creates an open item in the given list; the created record goes to
        the front of `todos`. */
    method CreateTodo(listId: Id, text: string, response: Outcome<TodoItem>) returns (r: Outcome<TodoItem>)
      modifies this`todos, this`requests
      ensures requests == old(requests) + [Request.CreateTodo(text, listId, false)]
      ensures r == response
      ensures todos == if response.Returns? then [response.value] + old(todos) else old(todos)
    {
      requests := requests + [Request.CreateTodo(text, listId, false)];
      r := response;
      if response.Throws? {
        return;
      }
      var record := response.value;
      todos := [record] + todos;
    }

    /** Writes the updated record over the first cached item with that id. */
    method UpdateTodo(id: Id, patch: ItemPatch, response: Outcome<TodoItem>) returns (r: Outcome<()>)
      modifies this`todos, this`requests
      ensures requests == old(requests) + [Request.UpdateTodo(id, patch)]
      ensures r.Throws? <==> response.Throws?
      ensures response.Throws? ==> r.error == response.error
      ensures todos == if response.Returns? then ReplaceFirst(old(todos), ItemKey, id, response.value) else old(todos)
    {
      requests := requests + [Request.UpdateTodo(id, patch)];
      if response.Throws? {
        return Throws(response.error);
      }
      var record := response.value;
      var index := FindIndex(todos, ItemKey, id);
      if index != -1 {
        todos := todos[index := record];
      }
      r := Returns(());
    }

    /** Removes every cached item with that id. */
    method DeleteTodo(id: Id, response: Outcome<()>) returns (r: Outcome<()>)
      modifies this`todos, this`requests
      ensures requests == old(requests) + [Request.DeleteTodo(id)]
      ensures r == response
      ensures todos == if response.Returns? then RemoveAll(old(todos), ItemKey, id) else old(todos)
    {
      requests := requests + [Request.DeleteTodo(id)];
      r := response;
      if response.Throws? {
        return;
      }
      todos := RemoveAll(todos, ItemKey, id);
    }

    /** Selects a list: `todos` is emptied at once (`shown` is what the page
        displays while the fetch is in flight), then the fetch is fired and
        its outcome is not awaited by the caller. Only a completed fetch
        refills `todos`; a failed one leaves it empty, never stale. */
    method SetCurrentList(list: TodoList, response: Outcome<seq<TodoItem>>) returns (ghost shown: seq<TodoItem>)
      modifies this`currentList, this`todos, this`requests
      ensures shown == []
      ensures currentList == Some(list)
      ensures requests == old(requests) + [GetTodos(list.id)]
      ensures todos == if response.Returns? then response.value else []
    {
      currentList := Some(list);
      todos := [];
      shown := todos;
      var _ := FetchTodos(list.id, response);
    }
  }
}
