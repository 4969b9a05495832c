/** The realtime composable (`useTodosRealtime`): it keeps one change
    subscription on the todos collection, scoped to the list the page shows,
    and merges the events it receives into the page's `todos` ref.

    The subscription state is the pair (`currentSubscriptionListId`,
    `isConnected`); the channel calls it makes are appended to `calls`, and
    the outcome of each call is a parameter. */
module Realtime {
  import opened Common
  import opened Keyed
  import opened Todos
  import opened Refs

  /** The `action` of a change event; the service sends create, update and
      delete, and any other value falls through the merge untouched. */
  datatype EventAction = Create | Update | Delete | OtherAction(name: string)

  /** A change event with the record it carries (for a delete, the record
      as it was). */
  datatype TodoEvent = TodoEvent(action: EventAction, record: TodoItem)

  /** The channel calls the composable makes. `UnsubscribeCall` names the list
      the composable believed it was subscribed to. */
  datatype ChannelCall = SubscribeCall(list: Id) | UnsubscribeCall(from: Id)

  /** The merge rule for one event against the cached items of the list
      `listId` (None when the page shows no list). */
  function ApplyEvent(todos: seq<TodoItem>, listId: Option<Id>, e: TodoEvent): (r: seq<TodoItem>)
    ensures listId != Some(e.record.list) ==> r == todos
  {
    if listId != Some(e.record.list) then todos
    else
      match e.action
      case Create => PrependIfAbsent(todos, ItemKey, e.record)
      case Update => ReplaceFirst(todos, ItemKey, e.record.id, e.record)
      case Delete => RemoveAll(todos, ItemKey, e.record.id)
      case OtherAction(_) => todos
  }

  /** A create event adds its record at the front exactly when no cached
      item has its id, so delivering it twice is delivering it once. */
  lemma CreateEventIdempotent(todos: seq<TodoItem>, listId: Option<Id>, rec: TodoItem)
    requires listId == Some(rec.list)
    ensures var once := ApplyEvent(todos, listId, TodoEvent(Create, rec));
      && (HasId(todos, ItemKey, rec.id) ==> once == todos)
      && (!HasId(todos, ItemKey, rec.id) ==> once == [rec] + todos)
      && ApplyEvent(once, listId, TodoEvent(Create, rec)) == once
  {
  }

  /** The echo of an item this client already inserted optimistically is
      absorbed: the cache is exactly what the optimistic insert left. */
  lemma OptimisticEchoAbsorbed(todos: seq<TodoItem>, rec: TodoItem)
    ensures var local := PrependIfAbsent(todos, ItemKey, rec);
      ApplyEvent(local, Some(rec.list), TodoEvent(Create, rec)) == local
  {
  }

  /** An update event keeps the length and the ids, overwrites only the
      first item with the record's id, and is a no-op when that id is
      absent; delivering it twice is delivering it once. */
  lemma UpdateEventInPlace(todos: seq<TodoItem>, listId: Option<Id>, rec: TodoItem)
    requires listId == Some(rec.list)
    ensures var r := ApplyEvent(todos, listId, TodoEvent(Update, rec));
      && SameIds(todos, r, ItemKey)
      && (!HasId(todos, ItemKey, rec.id) ==> r == todos)
      && (HasId(todos, ItemKey, rec.id) ==> r == todos[FindIndex(todos, ItemKey, rec.id) := rec])
      && ApplyEvent(r, listId, TodoEvent(Update, rec)) == r
  {
    ReplaceFirstIdempotent(todos, ItemKey, rec.id, rec);
  }

  /** A delete event leaves no item with the record's id, keeps every other
      item with its multiplicity, and is idempotent. */
  lemma DeleteEventRemovesAll(todos: seq<TodoItem>, listId: Option<Id>, rec: TodoItem)
    requires listId == Some(rec.list)
    ensures var r := ApplyEvent(todos, listId, TodoEvent(Delete, rec));
      && !HasId(r, ItemKey, rec.id)
      && (forall t: TodoItem :: t.id != rec.id ==> multiset(r)[t] == multiset(todos)[t])
      && ApplyEvent(r, listId, TodoEvent(Delete, rec)) == r
  {
    forall t: TodoItem | t.id != rec.id
      ensures multiset(RemoveAll(todos, ItemKey, rec.id))[t] == multiset(todos)[t]
    {
      RemoveAllCounts(todos, ItemKey, rec.id, t);
    }
    RemoveAllIdempotent(todos, ItemKey, rec.id);
  }

  /** A delete event keeps the surviving items in their relative order: an
      item with another id stays between the survivors before it and the
      survivors after it. */
  lemma DeleteEventKeepsOrder(before: seq<TodoItem>, t: TodoItem, after: seq<TodoItem>, rec: TodoItem)
    requires t.id != rec.id
    ensures ApplyEvent(before + [t] + after, Some(rec.list), TodoEvent(Delete, rec))
         == RemoveAll(before, ItemKey, rec.id) + [t] + RemoveAll(after, ItemKey, rec.id)
  {
    RemoveAllKeepsOrder(before, t, after, ItemKey, rec.id);
  }

  /** A create event for a fresh id followed by the delete event for the
      same record restores the cache exactly. */
  lemma CreateThenDeleteRestores(todos: seq<TodoItem>, rec: TodoItem)
    requires !HasId(todos, ItemKey, rec.id)
    ensures var l := Some(rec.list);
      ApplyEvent(ApplyEvent(todos, l, TodoEvent(Create, rec)), l, TodoEvent(Delete, rec)) == todos
  {
    RemoveAllAppend([rec], todos, ItemKey, rec.id);
    assert RemoveAll([rec], ItemKey, rec.id) == [];
    RemoveAllAbsent(todos, ItemKey, rec.id);
  }

  /** No event ever makes two cached items share an id. */
  lemma ApplyEventKeepsIdsUnique(todos: seq<TodoItem>, listId: Option<Id>, e: TodoEvent)
    requires UniqueIds(todos, ItemKey)
    ensures UniqueIds(ApplyEvent(todos, listId, e), ItemKey)
  {
    if listId == Some(e.record.list) {
      match e.action
      case Create =>
      case Update => ReplaceFirstUnique(todos, ItemKey, e.record.id, e.record);
      case Delete => RemoveAllUnique(todos, ItemKey, e.record.id);
      case OtherAction(_) =>
    }
  }

  class TodosRealtime {
    /** The id of the list the page shows (the watched ref). */
    const listId: Ref<Option<Id>>
    /** The page's items, written by the event handler. */
    const todos: Ref<seq<TodoItem>>
    var isConnected: bool
    var currentSubscriptionListId: Option<Id>
    var calls: seq<ChannelCall>

    /** The connection flag mirrors the subscription target, and the target
        is never the (falsy) empty id. */
    ghost predicate Valid()
      reads this
    {
      && currentSubscriptionListId != Some("")
      && (isConnected <==> currentSubscriptionListId.Some?)
    }

    /** Sets up the composable; the watcher runs at once (`immediate`). */
    constructor (listId: Ref<Option<Id>>, todos: Ref<seq<TodoItem>>, subscribed: Outcome<()>)
      ensures Valid()
      ensures this.listId == listId && this.todos == todos
      ensures Truthy(listId.value) ==>
        calls == [SubscribeCall(listId.value.value)] &&
        currentSubscriptionListId == (if subscribed.Returns? then listId.value else None)
      ensures !Truthy(listId.value) ==> calls == [] && currentSubscriptionListId == None
    {
      this.listId := listId;
      this.todos := todos;
      isConnected := false;
      currentSubscriptionListId := None;
      calls := [];
      new;
      ListIdChanged(Returns(()), subscribed);
    }

    /** `handleEvent`: merges one event into `todos` in place. */
    method HandleEvent(e: TodoEvent)
      modifies todos
      ensures todos.value == ApplyEvent(old(todos.value), old(listId.value), e)
    {
      if Some(e.record.list) != listId.value {
        return;
      }
      match e.action
      case Create =>
        if Find(todos.value, ItemKey, e.record.id).None? {
          todos.value := [e.record] + todos.value;
        }
      case Update =>
        var updateIndex := FindIndex(todos.value, ItemKey, e.record.id);
        if updateIndex != -1 {
          todos.value := todos.value[updateIndex := e.record];
        }
      case Delete =>
        todos.value := RemoveAll(todos.value, ItemKey, e.record.id);
      case OtherAction(_) =>
    }

    /** `unsubscribeAll`: closes the channel if there is one. A throwing
        unsubscribe is caught, and the state is reset all the same. */
    method UnsubscribeAll(unsubscribed: Outcome<()>)
      requires Valid()
      modifies this`currentSubscriptionListId, this`isConnected, this`calls
      ensures Valid()
      ensures currentSubscriptionListId == None && !isConnected
      ensures calls == old(calls) +
        if old(currentSubscriptionListId).Some? then [UnsubscribeCall(old(currentSubscriptionListId).value)] else []
    {
      if Truthy(currentSubscriptionListId) {
        calls := calls + [UnsubscribeCall(currentSubscriptionListId.value)];
        match unsubscribed {
          case Returns(_) =>
          case Throws(_) =>
        }
        currentSubscriptionListId := None;
      }
      isConnected := false;
    }

    /** `subscribe`: a no-op when already subscribed to `newListId`;
        otherwise closes the current channel and opens one for `newListId`,
        ending connected on success and unsubscribed on failure. Its only
        caller, the watcher, passes a non-empty id. */
    method Subscribe(newListId: Id, unsubscribed: Outcome<()>, subscribed: Outcome<()>)
      requires Valid()
      requires newListId != ""
      modifies this`currentSubscriptionListId, this`isConnected, this`calls
      ensures Valid()
      ensures old(currentSubscriptionListId) == Some(newListId) ==>
        currentSubscriptionListId == old(currentSubscriptionListId) &&
        isConnected == old(isConnected) && calls == old(calls)
      ensures old(currentSubscriptionListId) != Some(newListId) ==>
        && calls == old(calls)
             + (if old(currentSubscriptionListId).Some? then [UnsubscribeCall(old(currentSubscriptionListId).value)] else [])
             + [SubscribeCall(newListId)]
        && currentSubscriptionListId == (if subscribed.Returns? then Some(newListId) else None)
        && isConnected == subscribed.Returns?
    {
      if currentSubscriptionListId == Some(newListId) {
        return;
      }
      UnsubscribeAll(unsubscribed);
      calls := calls + [SubscribeCall(newListId)];
      match subscribed
      case Returns(_) =>
        currentSubscriptionListId := Some(newListId);
        isConnected := true;
      case Throws(_) =>
        isConnected := false;
    }

    /** The `listId` watcher: a non-empty id is subscribed to, anything else
        closes the channel. */
    method ListIdChanged(unsubscribed: Outcome<()>, subscribed: Outcome<()>)
      requires Valid()
      modifies this`currentSubscriptionListId, this`isConnected, this`calls
      ensures Valid()
      ensures !Truthy(listId.value) ==>
        currentSubscriptionListId == None && !isConnected &&
        calls == old(calls) +
          if old(currentSubscriptionListId).Some? then [UnsubscribeCall(old(currentSubscriptionListId).value)] else []
      ensures Truthy(listId.value) && old(currentSubscriptionListId) == listId.value ==>
        currentSubscriptionListId == old(currentSubscriptionListId) && calls == old(calls)
      ensures Truthy(listId.value) && old(currentSubscriptionListId) != listId.value ==>
        && calls == old(calls)
             + (if old(currentSubscriptionListId).Some? then [UnsubscribeCall(old(currentSubscriptionListId).value)] else [])
             + [SubscribeCall(listId.value.value)]
        && currentSubscriptionListId == (if subscribed.Returns? then listId.value else None)
    {
      var newId := listId.value;
      if Truthy(newId) {
        Subscribe(newId.value, unsubscribed, subscribed);
      } else {
        UnsubscribeAll(unsubscribed);
      }
    }

    /** `onUnmounted`: always ends unsubscribed. */
    method Unmount(unsubscribed: Outcome<()>)
      requires Valid()
      modifies this`currentSubscriptionListId, this`isConnected, this`calls
      ensures Valid()
      ensures currentSubscriptionListId == None && !isConnected
      ensures calls == old(calls) +
        if old(currentSubscriptionListId).Some? then [UnsubscribeCall(old(currentSubscriptionListId).value)] else []
    {
      UnsubscribeAll(unsubscribed);
    }
  }

  /** Switching the page from list `x` to list `y` and back, with every
      channel call succeeding, subscribes to `x`, leaves it, subscribes to
      `y`, leaves it and subscribes to `x` again, each leave naming the list
      that was left. */
  method SwitchAwayAndBack(x: Id, y: Id) returns (log: seq<ChannelCall>, connected: bool)
    requires x != "" && y != "" && x != y
    ensures log == [SubscribeCall(x), UnsubscribeCall(x), SubscribeCall(y), UnsubscribeCall(y), SubscribeCall(x)]
    ensures connected
  {
    var listId := new Ref<Option<Id>>(Some(x));
    var todos := new Ref<seq<TodoItem>>([]);
    var rt := new TodosRealtime(listId, todos, Returns(()));
    listId.value := Some(y);
    rt.ListIdChanged(Returns(()), Returns(()));
    listId.value := Some(x);
    rt.ListIdChanged(Returns(()), Returns(()));
    log, connected := rt.calls, rt.isConnected;
  }
}
