/**
 * The task list shared by both front-end pages and the local-storage manager:
 * the record, the list transforms the handlers build with `map`/`filter`,
 * the filtered views and counts, and the validation of new entries.
 */
module TodoList {
  import opened Wrappers
  import opened Text
  import opened Seqs

  /** A task record; `createdAt` is present only on records made by the local-storage manager. */
  datatype Todo = Todo(id: int, name: string, completed: bool, createdAt: Option<string>)

  /** Longest accepted entry, counted in characters. */
  const MaxNameLength: nat := 100

  /** Why a new entry is refused, in the order the checks run. */
  datatype EntryError = EmptyEntry | TooLong | Duplicate

  function HasId(id: int): Todo -> bool {
    (t: Todo) => t.id == id
  }

  function NotId(id: int): Todo -> bool {
    (t: Todo) => t.id != id
  }

  function HasCompletion(completed: bool): Todo -> bool {
    (t: Todo) => t.completed == completed
  }

  function FlipIfId(id: int): Todo -> Todo {
    (t: Todo) => if t.id == id then t.(completed := !t.completed) else t
  }

  function RenameIfId(id: int, name: string): Todo -> Todo {
    (t: Todo) => if t.id == id then t.(name := name) else t
  }

  /** The list after toggling: `completed` flips on the records with this id and nothing else changes. */
  function ToggleById(todos: seq<Todo>, id: int): (r: seq<Todo>)
    ensures |r| == |todos|
    ensures forall i :: 0 <= i < |todos| ==>
      && r[i].id == todos[i].id && r[i].name == todos[i].name && r[i].createdAt == todos[i].createdAt
      && r[i].completed == (todos[i].completed != (todos[i].id == id))
  {
    Map(todos, FlipIfId(id))
  }

  /** Toggling the same id twice gives back the original list. */
  lemma ToggleTwice(todos: seq<Todo>, id: int)
    ensures ToggleById(ToggleById(todos, id), id) == todos
  {
    MapInvolution(todos, FlipIfId(id));
  }

  /** Toggling an id no record carries leaves the list as it was. */
  lemma ToggleAbsent(todos: seq<Todo>, id: int)
    requires forall i :: 0 <= i < |todos| ==> todos[i].id != id
    ensures ToggleById(todos, id) == todos
  {
    MapIdentity(todos, FlipIfId(id));
  }

  /** The list after a rename: records with this id take the new name and keep everything else. */
  function RenameById(todos: seq<Todo>, id: int, name: string): (r: seq<Todo>)
    ensures |r| == |todos|
    ensures forall i :: 0 <= i < |todos| ==>
      && r[i].id == todos[i].id && r[i].completed == todos[i].completed && r[i].createdAt == todos[i].createdAt
      && r[i].name == (if todos[i].id == id then name else todos[i].name)
  {
    Map(todos, RenameIfId(id, name))
  }

  /** A second rename of the same id overrides the first, so only the latest name survives. */
  lemma RenameTwice(todos: seq<Todo>, id: int, first: string, second: string)
    ensures RenameById(RenameById(todos, id, first), id, second) == RenameById(todos, id, second)
  {
  }

  /** The list after a delete: exactly the records whose id differs, in their original order. */
  function RemoveById(todos: seq<Todo>, id: int): (r: seq<Todo>)
    ensures |r| <= |todos|
    ensures forall i :: 0 <= i < |r| ==> r[i].id != id && r[i] in todos
    ensures forall i :: 0 <= i < |todos| && todos[i].id != id ==> todos[i] in r
  {
    Filter(todos, NotId(id))
  }

  /** Deleting an id no record carries leaves the list as it was. */
  lemma RemoveAbsent(todos: seq<Todo>, id: int)
    requires forall i :: 0 <= i < |todos| ==> todos[i].id != id
    ensures RemoveById(todos, id) == todos
  {
    FilterKeepsAll(todos, NotId(id));
  }

  /** Deleting after appending a record with another id is appending after deleting. */
  lemma RemoveAfterAppend(todos: seq<Todo>, t: Todo, id: int)
    requires t.id != id
    ensures RemoveById(todos + [t], id) == RemoveById(todos, id) + [t]
  {
    FilterAppend(todos, [t], NotId(id));
  }

  /** Deleting works piecewise over a concatenation, so the kept records stay in their order. */
  lemma RemoveAppend(a: seq<Todo>, b: seq<Todo>, id: int)
    ensures RemoveById(a + b, id) == RemoveById(a, id) + RemoveById(b, id)
  {
    FilterAppend(a, b, NotId(id));
  }

  /** Every copy of every record survives a delete unless it carries the id: kept and dropped records add up to the list. */
  lemma RemoveKeepsCopies(todos: seq<Todo>, id: int)
    ensures multiset(RemoveById(todos, id)) + multiset(Filter(todos, HasId(id))) == multiset(todos)
    ensures |RemoveById(todos, id)| + |Filter(todos, HasId(id))| == |todos|
  {
    FilterPartition(todos, NotId(id), HasId(id));
  }

  /** The `active` view: the records not yet completed, in order. */
  function ActiveTodos(todos: seq<Todo>): (r: seq<Todo>)
    ensures forall i :: 0 <= i < |r| ==> !r[i].completed && r[i] in todos
    ensures forall i :: 0 <= i < |todos| && !todos[i].completed ==> todos[i] in r
  {
    Filter(todos, HasCompletion(false))
  }

  /** The `completed` view: the completed records, in order. */
  function CompletedTodos(todos: seq<Todo>): (r: seq<Todo>)
    ensures forall i :: 0 <= i < |r| ==> r[i].completed && r[i] in todos
    ensures forall i :: 0 <= i < |todos| && todos[i].completed ==> todos[i] in r
  {
    Filter(todos, HasCompletion(true))
  }

  /** The active and completed views split the list: together they hold every record exactly once. */
  lemma ViewsPartition(todos: seq<Todo>)
    ensures |ActiveTodos(todos)| + |CompletedTodos(todos)| == |todos|
    ensures multiset(ActiveTodos(todos)) + multiset(CompletedTodos(todos)) == multiset(todos)
  {
    FilterPartition(todos, HasCompletion(false), HasCompletion(true));
  }

  /** Both views keep the list's order: each is computed piecewise over a concatenation. */
  lemma ViewsKeepOrder(a: seq<Todo>, b: seq<Todo>)
    ensures ActiveTodos(a + b) == ActiveTodos(a) + ActiveTodos(b)
    ensures CompletedTodos(a + b) == CompletedTodos(a) + CompletedTodos(b)
  {
    FilterAppend(a, b, HasCompletion(false));
    FilterAppend(a, b, HasCompletion(true));
  }

  /**
   * A new record is created not completed: appending it extends the active view by that
   * record and leaves the completed view and the completed count as they were.
   */
  lemma AppendActive(todos: seq<Todo>, t: Todo)
    requires !t.completed
    ensures ActiveTodos(todos + [t]) == ActiveTodos(todos) + [t]
    ensures CompletedTodos(todos + [t]) == CompletedTodos(todos)
    ensures CompletedCount(todos + [t]) == CompletedCount(todos)
  {
    ViewsKeepOrder(todos, [t]);
    assert Filter([t], HasCompletion(false)) == [t];
    assert Filter([t], HasCompletion(true)) == [];
  }

  /**
   * `getFilteredTodos`: `active` and `completed` select by the flag; `all` and any
   * other filter name show the whole list.
   */
  function FilteredView(todos: seq<Todo>, filter: string): (r: seq<Todo>)
    ensures |r| <= |todos|
    ensures forall i :: 0 <= i < |r| ==> r[i] in todos
    ensures filter != "active" && filter != "completed" ==> r == todos
    ensures filter == "active" || filter == "completed" ==>
      && (forall i :: 0 <= i < |r| ==> r[i].completed == (filter == "completed"))
      && (forall i :: 0 <= i < |todos| && todos[i].completed == (filter == "completed") ==> todos[i] in r)
  {
    if filter == "active" then ActiveTodos(todos)
    else if filter == "completed" then CompletedTodos(todos)
    else todos
  }

  /** `completedCount`: how many records are completed. */
  function CompletedCount(todos: seq<Todo>): (n: nat)
    ensures n == |CompletedTodos(todos)|
    ensures n <= |todos|
    ensures n == 0 <==> forall i :: 0 <= i < |todos| ==> !todos[i].completed
  {
    var c := CompletedTodos(todos);
    if c == [] then 0 else assert c[0] in c; |c|
  }

  /** `activeCount`, computed as the total minus the completed count: it is the size of the active view. */
  function ActiveCount(todos: seq<Todo>): (n: nat)
    ensures n == |ActiveTodos(todos)|
    ensures n + CompletedCount(todos) == |todos|
  {
    ViewsPartition(todos);
    |todos| - CompletedCount(todos)
  }

  /** `todos.some(todo => todo.name.toLowerCase() === name.toLowerCase())`. */
  function HasNameIgnoringCase(todos: seq<Todo>, name: string): (r: bool)
    ensures r <==> exists i :: 0 <= i < |todos| && SameIgnoringCase(todos[i].name, name)
    decreases |todos|
  {
    if todos == [] then false
    else SameIgnoringCase(todos[0].name, name) || HasNameIgnoringCase(todos[1..], name)
  }

  /**
   * The Enter-key validation both pages run before creating a record: the trimmed text
   * is refused when empty, when over 100 characters, or when some existing name equals it
   * ignoring case; otherwise the trimmed text is what gets created.
   */
  function ValidateEntry(input: string, todos: seq<Todo>): (r: Result<string, EntryError>)
    ensures r == Failure(EmptyEntry) <==> AllSpace(input)
    ensures r == Failure(TooLong) <==> |Trim(input)| > MaxNameLength
    ensures r == Failure(Duplicate) <==>
      && 0 < |Trim(input)| <= MaxNameLength
      && exists i :: 0 <= i < |todos| && SameIgnoringCase(todos[i].name, Trim(input))
    ensures r.Success? ==>
      && r.value == Trim(input) && 0 < |r.value| <= MaxNameLength
      && forall i :: 0 <= i < |todos| ==> !SameIgnoringCase(todos[i].name, r.value)
  {
    TrimEmptyIffAllSpace(input);
    var trimmed := Trim(input);
    if |trimmed| == 0 then Failure(EmptyEntry)
    else if |trimmed| > MaxNameLength then Failure(TooLong)
    else if HasNameIgnoringCase(todos, trimmed) then Failure(Duplicate)
    else Success(trimmed)
  }

  /** The record with this id that `find` reports, or None for `undefined`. */
  function FindById(todos: seq<Todo>, id: int): (r: Option<Todo>)
    ensures r.None? <==> forall i :: 0 <= i < |todos| ==> todos[i].id != id
    ensures r.Some? ==> r.value in todos && r.value.id == id
    ensures r.Some? ==> exists i :: 0 <= i < |todos| && todos[i] == r.value && forall j :: 0 <= j < i ==> todos[j].id != id
  {
    Find(todos, HasId(id))
  }
}
