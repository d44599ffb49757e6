/**
 * The API-backed todo page (pdf-app/pages/index.js). Each remote call is recorded in
 * `sent`, and its reply is a parameter of the handler that awaits it (None: the request
 * failed). After each successful change the page also writes the whole list to the
 * `fallback-todos` blob, which a failed load falls back on.
 */
module SyncedPage {
  import opened Wrappers
  import opened TodoList
  import opened Storage

  /** Key of the list copy kept for working offline. */
  const FallbackKey: string := "fallback-todos"

  /** What the page reports; the message texts themselves are not modelled. */
  datatype PageError =
    | InvalidEntry(reason: EntryError)
    | ConnectionFailed
    | LoadFailed
    | CreateFailed
    | UpdateFailed
    | DeleteFailed

  /** The requests the page sends to the backend. */
  datatype Request =
    | ProbeRequest
    | ListRequest
    | CreateRequest(name: string)
    | UpdateRequest(id: int, name: string, completed: bool)
    | DeleteRequest(id: int)

  /** The list a load leaves: the server's list, else the fallback blob, else the list as it was. */
  function AfterLoad(todos: seq<Todo>, items: map<string, seq<Todo>>, reply: Option<seq<Todo>>): (r: seq<Todo>)
    ensures reply.Some? ==> r == reply.value
    ensures reply.None? && FallbackKey in items ==> r == items[FallbackKey]
    ensures reply.None? && FallbackKey !in items ==> r == todos
  {
    match reply
    case Some(list) => list
    case None => if FallbackKey in items then items[FallbackKey] else todos
  }

  class SyncedTodoPage {
    var inputValue: string
    var todos: seq<Todo>
    var currentFilter: string
    var error: Option<PageError>
    var apiConnected: Option<bool>
    /** The debounced update waiting for its timer: one slot shared by every record. */
    var pendingUpdate: Option<Request>
    /** Requests sent so far, oldest first. */
    var sent: seq<Request>
    const storage: BrowserStorage

    constructor (storage: BrowserStorage)
      ensures this.storage == storage
      ensures inputValue == "" && todos == [] && currentFilter == "all"
      ensures error == None && apiConnected == None && pendingUpdate == None && sent == []
    {
      this.storage := storage;
      inputValue, todos, currentFilter := "", [], "all";
      error, apiConnected, pendingUpdate, sent := None, None, None, [];
    }

    /** The start-up probe: records whether the backend answered, and an error when it did not. */
    method CheckApiConnection(connected: bool)
      modifies this
      ensures apiConnected == Some(connected)
      ensures error == if connected then old(error) else Some(ConnectionFailed)
      ensures sent == old(sent) + [ProbeRequest]
      ensures todos == old(todos) && inputValue == old(inputValue) && currentFilter == old(currentFilter)
      ensures pendingUpdate == old(pendingUpdate)
    {
      sent := sent + [ProbeRequest];
      apiConnected := Some(connected);
      if !connected {
        error := Some(ConnectionFailed);
      }
    }

    /**
     * Loads the list from the backend. On failure the page goes offline, reports the error,
     * and shows the fallback blob when one was stored, else keeps its list.
     */
    method LoadTodos(reply: Option<seq<Todo>>)
      modifies this
      ensures todos == AfterLoad(old(todos), storage.items, reply)
      ensures apiConnected == Some(reply.Some?)
      ensures error == if reply.Some? then old(error) else Some(LoadFailed)
      ensures sent == old(sent) + [ListRequest]
      ensures inputValue == old(inputValue) && currentFilter == old(currentFilter)
      ensures pendingUpdate == old(pendingUpdate)
    {
      sent := sent + [ListRequest];
      match reply
      case Some(list) =>
        todos := list;
        apiConnected := Some(true);
      case None =>
        error := Some(LoadFailed);
        apiConnected := Some(false);
        var local := storage.GetItem(FallbackKey);
        if local.Some? {
          todos := local.value;
        }
    }

    method HandleInputChange(value: string)
      modifies this
      ensures inputValue == value && error == None
      ensures todos == old(todos) && currentFilter == old(currentFilter) && sent == old(sent)
      ensures apiConnected == old(apiConnected) && pendingUpdate == old(pendingUpdate)
    {
      inputValue := value;
      error := None;
    }

    /**
     * Enter validates the input; a refused entry records the reason and sends nothing,
     * an accepted one is sent for creation in trimmed form and `reply` is the server's answer.
     * Any other key changes nothing.
     */
    method HandleKeyDown(key: string, reply: Option<Todo>)
      modifies this, storage
      ensures currentFilter == old(currentFilter) && apiConnected == old(apiConnected)
      ensures pendingUpdate == old(pendingUpdate)
      ensures key != "Enter" ==>
        && inputValue == old(inputValue) && todos == old(todos) && error == old(error)
        && sent == old(sent) && storage.items == old(storage.items)
      ensures key == "Enter" ==>
        match ValidateEntry(old(inputValue), old(todos))
        case Failure(reason) =>
          && error == Some(InvalidEntry(reason)) && todos == old(todos) && inputValue == old(inputValue)
          && sent == old(sent) && storage.items == old(storage.items)
        case Success(name) =>
          && sent == old(sent) + [CreateRequest(name)]
          && CreateOutcome(old(todos), old(inputValue), old(error), old(storage.items), reply)
    {
      if key == "Enter" {
        match ValidateEntry(inputValue, todos)
        case Failure(reason) =>
          error := Some(InvalidEntry(reason));
        case Success(name) =>
          CreateTodo(name, reply);
      }
    }

    /**
     * The state after a create request: on success the returned record is appended and the
     * new list written to the fallback blob; on failure only the error is set.
     */
    ghost predicate CreateOutcome(
      oldTodos: seq<Todo>, oldInput: string, oldError: Option<PageError>,
      oldItems: map<string, seq<Todo>>, reply: Option<Todo>)
      reads this, storage
    {
      match reply
      case Some(created) =>
        && todos == oldTodos + [created]
        && storage.items == oldItems[FallbackKey := todos]
        && inputValue == "" && error == None
      case None =>
        && todos == oldTodos && storage.items == oldItems
        && inputValue == oldInput && error == Some(CreateFailed)
    }

    method CreateTodo(text: string, reply: Option<Todo>)
      modifies this, storage
      ensures sent == old(sent) + [CreateRequest(text)]
      ensures CreateOutcome(old(todos), old(inputValue), old(error), old(storage.items), reply)
      ensures currentFilter == old(currentFilter) && apiConnected == old(apiConnected)
      ensures pendingUpdate == old(pendingUpdate)
    {
      sent := sent + [CreateRequest(text)];
      match reply
      case Some(created) =>
        todos := todos + [created];
        inputValue := "";
        error := None;
        storage.SetItem(FallbackKey, todos);
      case None =>
        error := Some(CreateFailed);
    }

    /**
     * Flips `completed` on the records with this id at once, schedules the debounced update
     * carrying the first such record's new state (replacing any update still waiting), and
     * writes the list to the fallback blob. With no such record the lookup of the updated
     * record fails, so nothing is scheduled or written.
     */
    method ToggleTodo(id: int)
      modifies this, storage
      ensures todos == ToggleById(old(todos), id)
      ensures match FindById(todos, id)
        case None =>
          pendingUpdate == old(pendingUpdate) && storage.items == old(storage.items)
        case Some(t) =>
          && pendingUpdate == Some(UpdateRequest(id, t.name, t.completed))
          && storage.items == old(storage.items)[FallbackKey := todos]
      ensures sent == old(sent) && error == old(error) && inputValue == old(inputValue)
      ensures currentFilter == old(currentFilter) && apiConnected == old(apiConnected)
    {
      todos := ToggleById(todos, id);
      var updated := FindById(todos, id);
      if updated.Some? {
        pendingUpdate := Some(UpdateRequest(id, updated.value.name, updated.value.completed));
        storage.SetItem(FallbackKey, todos);
      }
    }

    /** Renames the records with this id at once; scheduling and the fallback write as for a toggle. */
    method UpdateTodo(id: int, newName: string)
      modifies this, storage
      ensures todos == RenameById(old(todos), id, newName)
      ensures match FindById(todos, id)
        case None =>
          pendingUpdate == old(pendingUpdate) && storage.items == old(storage.items)
        case Some(t) =>
          && pendingUpdate == Some(UpdateRequest(id, newName, t.completed))
          && storage.items == old(storage.items)[FallbackKey := todos]
      ensures sent == old(sent) && error == old(error) && inputValue == old(inputValue)
      ensures currentFilter == old(currentFilter) && apiConnected == old(apiConnected)
    {
      todos := RenameById(todos, id, newName);
      var updated := FindById(todos, id);
      if updated.Some? {
        pendingUpdate := Some(UpdateRequest(id, updated.value.name, updated.value.completed));
        storage.SetItem(FallbackKey, todos);
      }
    }

    /**
     * Sends the delete and, only once the backend confirms it, removes the records with this id
     * and writes the fallback blob; a failed delete leaves the list and the blob as they were.
     */
    method DeleteTodo(id: int, deleted: bool)
      modifies this, storage
      ensures sent == old(sent) + [DeleteRequest(id)]
      ensures deleted ==>
        && todos == RemoveById(old(todos), id)
        && storage.items == old(storage.items)[FallbackKey := todos] && error == old(error)
      ensures !deleted ==>
        todos == old(todos) && storage.items == old(storage.items) && error == Some(DeleteFailed)
      ensures inputValue == old(inputValue) && currentFilter == old(currentFilter)
      ensures apiConnected == old(apiConnected) && pendingUpdate == old(pendingUpdate)
    {
      sent := sent + [DeleteRequest(id)];
      if deleted {
        todos := RemoveById(todos, id);
        storage.SetItem(FallbackKey, todos);
      } else {
        error := Some(DeleteFailed);
      }
    }

    /**
     * The debounce timer firing: the waiting update, if any, is sent. When the backend
     * refuses it the page reports the error and reloads, `reload` being the reply to that load.
     */
    method FlushPendingUpdate(updateOk: bool, reload: Option<seq<Todo>>)
      modifies this
      ensures pendingUpdate == None
      ensures old(pendingUpdate).None? ==>
        sent == old(sent) && todos == old(todos) && error == old(error) && apiConnected == old(apiConnected)
      ensures old(pendingUpdate).Some? && updateOk ==>
        sent == old(sent) + [old(pendingUpdate).value] && todos == old(todos)
        && error == old(error) && apiConnected == old(apiConnected)
      ensures old(pendingUpdate).Some? && !updateOk ==>
        && sent == old(sent) + [old(pendingUpdate).value, ListRequest]
        && todos == AfterLoad(old(todos), storage.items, reload)
        && apiConnected == Some(reload.Some?)
        && error == Some(if reload.Some? then UpdateFailed else LoadFailed)
      ensures inputValue == old(inputValue) && currentFilter == old(currentFilter)
    {
      if pendingUpdate.Some? {
        sent := sent + [pendingUpdate.value];
        pendingUpdate := None;
        if !updateOk {
          error := Some(UpdateFailed);
          LoadTodos(reload);
        }
      }
    }

    method HandleFilterChange(filter: string)
      modifies this
      ensures currentFilter == filter
      ensures todos == old(todos) && inputValue == old(inputValue) && error == old(error)
      ensures sent == old(sent) && pendingUpdate == old(pendingUpdate) && apiConnected == old(apiConnected)
    {
      currentFilter := filter;
    }

    /** The list the page shows: the view that the current filter selects. */
    function FilteredTodos(): (r: seq<Todo>)
      reads this
      ensures r == FilteredView(todos, currentFilter)
      ensures |r| <= |todos|
      ensures currentFilter == "all" ==> r == todos
    {
      FilteredView(todos, currentFilter)
    }
  }

  /**
   * Two renames in a row within the debounce window leave one update waiting, and it carries
   * the later name: the earlier one is never sent.
   */
  method RenamesCollapse(page: SyncedTodoPage, id: int, first: string, second: string)
    requires exists i :: 0 <= i < |page.todos| && page.todos[i].id == id
    modifies page, page.storage
    ensures page.sent == old(page.sent)
    ensures page.pendingUpdate.Some? && page.pendingUpdate.value.UpdateRequest?
    ensures page.pendingUpdate.value.id == id && page.pendingUpdate.value.name == second
  {
    page.UpdateTodo(id, first);
    page.UpdateTodo(id, second);
  }
}
