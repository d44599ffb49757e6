/**
 * The local-storage todo manager (utils/todoManager.js): every operation rebuilds the
 * list it is given and saves it whole under one key. The simulated delays are not modelled.
 */
module TodoManager {
  import opened Wrappers
  import opened Text
  import opened Seqs
  import opened TodoList
  import opened Storage

  const StorageKey: string := "todo-app-data"

  /** An `updates` object: each field it carries overrides the record's; absent fields are kept. */
  datatype TodoPatch = TodoPatch(
    id: Option<int>, name: Option<string>, completed: Option<bool>, createdAt: Option<string>)

  /** `{ ...todo, ...updates }`. */
  function Merge(t: Todo, updates: TodoPatch): (r: Todo)
    ensures r.id == updates.id.GetOr(t.id)
    ensures r.name == updates.name.GetOr(t.name)
    ensures r.completed == updates.completed.GetOr(t.completed)
    ensures r.createdAt == if updates.createdAt.Some? then updates.createdAt else t.createdAt
  {
    Todo(
      updates.id.GetOr(t.id),
      updates.name.GetOr(t.name),
      updates.completed.GetOr(t.completed),
      if updates.createdAt.Some? then updates.createdAt else t.createdAt)
  }

  function MergeIfId(id: int, updates: TodoPatch): Todo -> Todo {
    (t: Todo) => if t.id == id then Merge(t, updates) else t
  }

  /** The list `updateTodo` saves: `updates` merged over the records with this id, the others untouched. */
  function MergeById(todos: seq<Todo>, id: int, updates: TodoPatch): (r: seq<Todo>)
    ensures |r| == |todos|
    ensures forall i :: 0 <= i < |todos| ==> r[i] == if todos[i].id == id then Merge(todos[i], updates) else todos[i]
  {
    Map(todos, MergeIfId(id, updates))
  }

  /** Merging an empty patch changes no record. */
  lemma MergeEmptyPatch(todos: seq<Todo>, id: int)
    ensures MergeById(todos, id, TodoPatch(None, None, None, None)) == todos
  {
    MapIdentity(todos, MergeIfId(id, TodoPatch(None, None, None, None)));
  }

  /**
   * What `updateTodo` returns when `updates` keeps the id (leaves it out or repeats it): the first record with this id,
   * merged, and `undefined` exactly when no record had it.
   */
  lemma UpdateFindsMerged(todos: seq<Todo>, id: int, updates: TodoPatch)
    requires updates.id.None? || updates.id == Some(id)
    ensures FindById(MergeById(todos, id, updates), id).None? <==> forall i :: 0 <= i < |todos| ==> todos[i].id != id
    ensures FindById(todos, id).Some? ==>
      FindById(MergeById(todos, id, updates), id) == Some(Merge(FindById(todos, id).value, updates))
  {
    var merged := MergeById(todos, id, updates);
    match FindIndex(todos, HasId(id))
    case None =>
    case Some(k) =>
      assert merged[k] == Merge(todos[k], updates);
      assert FindIndex(merged, HasId(id)) == Some(k) by {
        FindIndexUnique(merged, HasId(id), k);
      }
  }

  /** When `updates` moves the records to another id, `updateTodo` can no longer find them and returns `undefined`. */
  lemma UpdateChangingIdFindsNothing(todos: seq<Todo>, id: int, updates: TodoPatch)
    requires updates.id.Some? && updates.id.value != id
    ensures FindById(MergeById(todos, id, updates), id) == None
  {
  }

  /** `loadTodos`: the saved list when the key was written, otherwise the empty list. */
  method LoadTodos(storage: BrowserStorage) returns (todos: seq<Todo>)
    ensures StorageKey in storage.items ==> todos == storage.items[StorageKey]
    ensures StorageKey !in storage.items ==> todos == []
  {
    var stored := storage.GetItem(StorageKey);
    todos := stored.GetOr([]);
  }

  /** `saveTodos`: overwrites the blob with `todos` and hands `todos` back. */
  method SaveTodos(storage: BrowserStorage, todos: seq<Todo>) returns (saved: seq<Todo>)
    modifies storage
    ensures storage.items == old(storage.items)[StorageKey := todos]
    ensures saved == todos
  {
    storage.SetItem(StorageKey, todos);
    saved := todos;
  }

  /**
   * `createTodo`: a record with id `now`, the trimmed text, `completed` false and creation
   * time `timestamp`, saved after `currentTodos`; `currentTodos` itself is a value and is not changed.
   */
  method CreateTodo(storage: BrowserStorage, todoText: string, currentTodos: seq<Todo>, now: int, timestamp: string)
    returns (newTodo: Todo)
    modifies storage
    ensures newTodo == Todo(now, Trim(todoText), false, Some(timestamp))
    ensures storage.items == old(storage.items)[StorageKey := currentTodos + [newTodo]]
  {
    newTodo := Todo(now, Trim(todoText), false, Some(timestamp));
    var _ := SaveTodos(storage, currentTodos + [newTodo]);
  }

  /** `updateTodo`: saves the merged list and returns the first record in it with this id, if any. */
  method UpdateTodo(storage: BrowserStorage, todoId: int, updates: TodoPatch, currentTodos: seq<Todo>)
    returns (updated: Option<Todo>)
    modifies storage
    ensures storage.items == old(storage.items)[StorageKey := MergeById(currentTodos, todoId, updates)]
    ensures updated == FindById(MergeById(currentTodos, todoId, updates), todoId)
  {
    var updatedTodos := MergeById(currentTodos, todoId, updates);
    var _ := SaveTodos(storage, updatedTodos);
    updated := FindById(updatedTodos, todoId);
  }

  /** `deleteTodo`: saves the list without the records with this id and returns the id. */
  method DeleteTodo(storage: BrowserStorage, todoId: int, currentTodos: seq<Todo>) returns (deletedId: int)
    modifies storage
    ensures storage.items == old(storage.items)[StorageKey := RemoveById(currentTodos, todoId)]
    ensures deletedId == todoId
  {
    var _ := SaveTodos(storage, RemoveById(currentTodos, todoId));
    deletedId := todoId;
  }

  /** Loading right after a save yields exactly the list saved. */
  method SaveThenLoad(storage: BrowserStorage, todos: seq<Todo>) returns (loaded: seq<Todo>)
    modifies storage
    ensures loaded == todos
  {
    var _ := SaveTodos(storage, todos);
    loaded := LoadTodos(storage);
  }

  /**
   * Saving what was loaded leaves the store as it was once the key exists; on a store
   * that never held the key it writes the empty list.
   */
  method LoadThenSave(storage: BrowserStorage)
    modifies storage
    ensures StorageKey in old(storage.items) ==> storage.items == old(storage.items)
    ensures StorageKey !in old(storage.items) ==> storage.items == old(storage.items)[StorageKey := []]
  {
    var loaded := LoadTodos(storage);
    var _ := SaveTodos(storage, loaded);
  }
}
