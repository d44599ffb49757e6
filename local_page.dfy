/**
 * The purely local todo page (002-pdf-vercel-frontend/index.js): the list lives only
 * in the page's state, and ids come from the clock at creation time.
 */
module LocalPage {
  import opened Wrappers
  import opened TodoList

  class LocalTodoPage {
    var inputValue: string
    var todos: seq<Todo>
    var error: Option<EntryError>
    var currentFilter: string

    constructor ()
      ensures inputValue == "" && todos == [] && error == None && currentFilter == "all"
    {
      inputValue, todos, error, currentFilter := "", [], None, "all";
    }

    /** Typing replaces the input text and clears any validation error. */
    method HandleInputChange(value: string)
      modifies this
      ensures inputValue == value && error == None
      ensures todos == old(todos) && currentFilter == old(currentFilter)
    {
      inputValue := value;
      error := None;
    }

    /**
     * Enter validates the input against the current list: a refused entry records the reason
     * and changes neither the list nor the input; an accepted one is created from the trimmed
     * text with the id `now`. Any other key changes nothing.
     */
    method HandleKeyDown(key: string, now: int)
      modifies this
      ensures currentFilter == old(currentFilter)
      ensures key != "Enter" ==>
        inputValue == old(inputValue) && todos == old(todos) && error == old(error)
      ensures key == "Enter" ==>
        match ValidateEntry(old(inputValue), old(todos))
        case Failure(reason) =>
          error == Some(reason) && todos == old(todos) && inputValue == old(inputValue)
        case Success(name) =>
          todos == old(todos) + [Todo(now, name, false, None)] && inputValue == "" && error == None
    {
      if key == "Enter" {
        match ValidateEntry(inputValue, todos)
        case Failure(reason) =>
          error := Some(reason);
        case Success(name) =>
          CreateTodo(name, now);
      }
    }

    /** Appends `{id: now, name: text, completed: false}` after the existing records and clears the input. */
    method CreateTodo(text: string, now: int)
      modifies this
      ensures todos == old(todos) + [Todo(now, text, false, None)]
      ensures inputValue == "" && error == None && currentFilter == old(currentFilter)
    {
      todos := todos + [Todo(now, text, false, None)];
      inputValue := "";
      error := None;
    }

    /** Flips `completed` on the records with this id; all else stays. */
    method ToggleTodo(id: int)
      modifies this
      ensures todos == ToggleById(old(todos), id)
      ensures inputValue == old(inputValue) && error == old(error) && currentFilter == old(currentFilter)
    {
      todos := ToggleById(todos, id);
    }

    /** Keeps exactly the records whose id differs. */
    method DeleteTodo(id: int)
      modifies this
      ensures todos == RemoveById(old(todos), id)
      ensures inputValue == old(inputValue) && error == old(error) && currentFilter == old(currentFilter)
    {
      todos := RemoveById(todos, id);
    }

    /** Renames the records with this id; the new name is taken as given, with no duplicate check. */
    method UpdateTodo(id: int, newName: string)
      modifies this
      ensures todos == RenameById(old(todos), id, newName)
      ensures inputValue == old(inputValue) && error == old(error) && currentFilter == old(currentFilter)
    {
      todos := RenameById(todos, id, newName);
    }

    method HandleFilterChange(filter: string)
      modifies this
      ensures currentFilter == filter
      ensures todos == old(todos) && inputValue == old(inputValue) && error == old(error)
    {
      currentFilter := filter;
    }

    /** The list the page shows: the view that the current filter selects. */
    function FilteredTodos(): (r: seq<Todo>)
      reads this
      ensures r == FilteredView(todos, currentFilter)
      ensures |r| <= |todos|
      ensures currentFilter == "all" ==> r == todos
    {
      FilteredView(todos, currentFilter)
    }
  }

  /** Two toggles of the same record on the local page restore its list. */
  method ToggleTwiceRestores(page: LocalTodoPage, id: int)
    modifies page
    ensures page.todos == old(page.todos)
  {
    page.ToggleTodo(id);
    page.ToggleTodo(id);
    ToggleTwice(old(page.todos), id);
  }
}
