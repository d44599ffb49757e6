# Todo app state model

A Dafny model of the state logic of a small full-stack todo application: a Next.js
front end that keeps an ordered list of `{id, name, completed}` records, and a FastAPI
back end whose CRUD functions keep the same records in a database table.

What is modelled:

- **Entry validation** (`TodoList.ValidateEntry`): on Enter the input is trimmed (the
  ECMAScript whitespace set, `Text.Trim`) and refused when it is empty, longer than 100
  characters, or equal to an existing name ignoring case.
- **List transforms** (`TodoList`): toggle, rename and delete by id, built on generic
  `filter`/`map`/`find` over sequences (`Seqs`); the `all`/`active`/`completed`
  views and the counts derived from them.
- **The local page** (`LocalPage.LocalTodoPage`): a class whose methods replace its
  `todos` field the way each handler calls `setTodos`. Ids are the clock value, given as a parameter.
- **The API-backed page** (`SyncedPage.SyncedTodoPage`): the same state plus the
  connection flag, the requests sent to the back end (`sent`), the one debounced update
  waiting for its timer (`pendingUpdate`), and the `fallback-todos` blob in browser
  storage. Each reply from the back end is a parameter of the handler that awaits it;
  `None` stands for a failed request.
- **Browser storage** (`Storage.BrowserStorage`): key to list, each blob overwritten whole.
- **The local-storage manager** (`TodoManager`): load, save, create, merge-update and
  delete over the `todo-app-data` blob.
- **One list item** (`TodoItem.TodoItemView`): the `isEditing`/`editValue` edit state
  machine and the callbacks the item invokes, recorded in order.
- **The back-end CRUD functions** (`Crud`): a session holding the todo and PDF tables,
  each as its rows in ascending id order. `update_todo`'s loop of `setattr` calls is a
  loop over the update dictionary's items.

How the code behaves where a reader might expect otherwise (the model follows the code):

- On the API-backed page, create and delete are not optimistic. The list and the fallback
  blob change only after the back end confirms; a failed request leaves both as they were.
- The debounced remote update is one function for the whole page, not one per record.
  A second toggle or rename within the window replaces the waiting update, even when it is
  for another record, so only the latest call is sent.
- Toggle and rename on the API-backed page look up the updated record with `find`. When
  no record has the id, that lookup yields `undefined` and reading `.name` throws. The
  list keeps its content, and no update is scheduled and no blob written.
- Delete always sends its request, whether or not a record with that id is shown.
- The error text says "less than 100 characters", but exactly 100 are accepted.
- Nothing makes ids unique: the pages use the clock or the server's value, and the list
  functions act on every record that carries the id.

## Model

| member | source | states |
|---|---|---|
| Text.Trim | 1019-pdf-app-fastapi-vercel-fullstack-master/002-pdf-vercel-frontend/pdf-app/pages/index.js:79 | the trimmed text is the piece of the input after its leading whitespace, followed only by whitespace, and neither starts nor ends with whitespace |
| Text.TrimEmptyIffAllSpace | 1019-pdf-app-fastapi-vercel-fullstack-master/002-pdf-vercel-frontend/components/todo.js:36-42 | trimming leaves nothing exactly when the text is empty or whitespace only |
| Text.TrimIdempotent | 1019-pdf-app-fastapi-vercel-fullstack-master/002-pdf-vercel-frontend/pdf-app/utils/api.js:66-69 | trimming an already trimmed name (the API client trims again) changes nothing |
| Text.ToLower | 1019-pdf-app-fastapi-vercel-fullstack-master/002-pdf-vercel-frontend/pdf-app/pages/index.js:91-93 | same length; each ASCII capital becomes its small letter (code plus 32) and every other character is kept |
| Seqs.Filter | 1019-pdf-app-fastapi-vercel-fullstack-master/002-pdf-vercel-frontend/pdf-app/pages/index.js:145 | `filter` keeps exactly the elements that pass, never lengthens the sequence |
| Seqs.FilterAppend | 1019-pdf-app-fastapi-vercel-fullstack-master/002-pdf-vercel-frontend/pdf-app/pages/index.js:182-192 | filtering a concatenation is concatenating the filtered parts (original order kept) |
| Seqs.FilterPartition | 1019-pdf-app-fastapi-vercel-fullstack-master/002-pdf-vercel-frontend/pdf-app/pages/index.js:195-196 | two complementary filters split a sequence: lengths and multisets add up to the whole |
| Seqs.Map | 1019-pdf-app-fastapi-vercel-fullstack-master/002-pdf-vercel-frontend/pdf-app/pages/index.js:127-131 | `map` keeps the length and applies the function position by position |
| Seqs.FindIndex | 1019-pdf-app-fastapi-vercel-fullstack-master/001-pdf-fastapi-backend/crud.py:83 | the first position that passes, None exactly when none does |
| Seqs.Find | 1019-pdf-app-fastapi-vercel-fullstack-master/002-pdf-vercel-frontend/pdf-app/pages/index.js:135 | `find` returns the first element that passes, None (`undefined`) exactly when none does |
| TodoList.ToggleById | 1019-pdf-app-fastapi-vercel-fullstack-master/002-pdf-vercel-frontend/index.js:66-72 | same length, ids, names and timestamps; `completed` flips exactly on the records with the id |
| TodoList.ToggleTwice | 1019-pdf-app-fastapi-vercel-fullstack-master/002-pdf-vercel-frontend/pdf-app/pages/index.js:125-131 | toggling the same id twice gives back the original list |
| TodoList.ToggleAbsent | 1019-pdf-app-fastapi-vercel-fullstack-master/002-pdf-vercel-frontend/index.js:66-72 | toggling an id no record carries leaves the list unchanged |
| TodoList.RenameById | 1019-pdf-app-fastapi-vercel-fullstack-master/002-pdf-vercel-frontend/pdf-app/pages/index.js:159-165 | same length, ids, flags and timestamps; only records with the id take the new name |
| TodoList.RenameTwice | 1019-pdf-app-fastapi-vercel-fullstack-master/002-pdf-vercel-frontend/pdf-app/pages/index.js:159-165 | a second rename of the same id overrides the first |
| TodoList.RemoveById | 1019-pdf-app-fastapi-vercel-fullstack-master/002-pdf-vercel-frontend/index.js:74-75 | the result holds exactly the records whose id differs |
| TodoList.RemoveAppend | 1019-pdf-app-fastapi-vercel-fullstack-master/002-pdf-vercel-frontend/index.js:74-75 | deleting works piecewise over a concatenation, so the kept records keep their order |
| TodoList.RemoveKeepsCopies | 1019-pdf-app-fastapi-vercel-fullstack-master/002-pdf-vercel-frontend/utils/todoManager.js:51 | the kept records and the records with the id add up to the list in length and multiset, so every copy of a kept record survives |
| TodoList.RemoveAbsent | 1019-pdf-app-fastapi-vercel-fullstack-master/002-pdf-vercel-frontend/index.js:74-75 | deleting an id no record carries leaves the list unchanged |
| TodoList.RemoveAfterAppend | 1019-pdf-app-fastapi-vercel-fullstack-master/002-pdf-vercel-frontend/pdf-app/pages/index.js:145 | deleting commutes with appending a record of another id (order kept) |
| TodoList.ActiveTodos | 1019-pdf-app-fastapi-vercel-fullstack-master/002-pdf-vercel-frontend/pdf-app/pages/index.js:184-185 | the active view holds exactly the records not completed |
| TodoList.CompletedTodos | 1019-pdf-app-fastapi-vercel-fullstack-master/002-pdf-vercel-frontend/pdf-app/pages/index.js:186-187 | the completed view holds exactly the completed records |
| TodoList.ViewsPartition | 1019-pdf-app-fastapi-vercel-fullstack-master/002-pdf-vercel-frontend/index.js:98-108 | the active and completed views together hold every record exactly once |
| TodoList.ViewsKeepOrder | 1019-pdf-app-fastapi-vercel-fullstack-master/002-pdf-vercel-frontend/index.js:100-103 | both views keep the list's order |
| TodoList.AppendActive | 1019-pdf-app-fastapi-vercel-fullstack-master/002-pdf-vercel-frontend/index.js:52-58 | a new (not completed) record extends the active view and leaves the completed view and count alone |
| TodoList.FilteredView | 1019-pdf-app-fastapi-vercel-fullstack-master/002-pdf-vercel-frontend/pdf-app/pages/index.js:182-192 | `active`/`completed` select exactly the records with that flag; `all` and any other name show the whole list |
| TodoList.CompletedCount | 1019-pdf-app-fastapi-vercel-fullstack-master/002-pdf-vercel-frontend/pdf-app/pages/index.js:195 | the size of the completed view, at most the list length, and 0 exactly when no record is completed |
| TodoList.ActiveCount | 1019-pdf-app-fastapi-vercel-fullstack-master/002-pdf-vercel-frontend/index.js:111-112 | total minus completed equals the size of the active view |
| TodoList.HasNameIgnoringCase | 1019-pdf-app-fastapi-vercel-fullstack-master/002-pdf-vercel-frontend/index.js:38-40 | true exactly when some record's name equals the given one ignoring case |
| TodoList.ValidateEntry | 1019-pdf-app-fastapi-vercel-fullstack-master/002-pdf-vercel-frontend/pdf-app/pages/index.js:77-100 | refused as empty exactly for whitespace-only input, as too long exactly above 100 trimmed characters, as duplicate exactly for a case-insensitive match; otherwise accepted as the trimmed text |
| TodoList.FindById | 1019-pdf-app-fastapi-vercel-fullstack-master/002-pdf-vercel-frontend/pdf-app/pages/index.js:135 | the first record carrying the id, None exactly when there is none |
| Storage.BrowserStorage.GetItem | 1019-pdf-app-fastapi-vercel-fullstack-master/002-pdf-vercel-frontend/pdf-app/pages/index.js:45-46 | the stored list exactly when the key was written |
| Storage.BrowserStorage.SetItem | 1019-pdf-app-fastapi-vercel-fullstack-master/002-pdf-vercel-frontend/utils/todoManager.js:22 | the key's blob is replaced whole, no other key changes |
| LocalPage.LocalTodoPage.constructor | 1019-pdf-app-fastapi-vercel-fullstack-master/002-pdf-vercel-frontend/index.js:9-13 | empty input, empty list, no error, filter `all` |
| LocalPage.LocalTodoPage.HandleInputChange | 1019-pdf-app-fastapi-vercel-fullstack-master/002-pdf-vercel-frontend/index.js:16-22 | sets the input and clears the error |
| LocalPage.LocalTodoPage.HandleKeyDown | 1019-pdf-app-fastapi-vercel-fullstack-master/002-pdf-vercel-frontend/index.js:24-49 | Enter with a refused entry records the reason and changes nothing else; an accepted entry is appended as a new record; other keys change nothing |
| LocalPage.LocalTodoPage.CreateTodo | 1019-pdf-app-fastapi-vercel-fullstack-master/002-pdf-vercel-frontend/index.js:52-64 | appends `{id: now, name: text, completed: false}` and clears the input |
| LocalPage.LocalTodoPage.ToggleTodo | 1019-pdf-app-fastapi-vercel-fullstack-master/002-pdf-vercel-frontend/index.js:66-72 | the list becomes its toggled form; nothing else changes |
| LocalPage.LocalTodoPage.DeleteTodo | 1019-pdf-app-fastapi-vercel-fullstack-master/002-pdf-vercel-frontend/index.js:74-78 | the list keeps exactly the records with other ids |
| LocalPage.LocalTodoPage.UpdateTodo | 1019-pdf-app-fastapi-vercel-fullstack-master/002-pdf-vercel-frontend/index.js:80-88 | the list becomes its renamed form, with no duplicate check |
| LocalPage.LocalTodoPage.HandleFilterChange | 1019-pdf-app-fastapi-vercel-fullstack-master/002-pdf-vercel-frontend/index.js:91-95 | sets the filter only |
| LocalPage.LocalTodoPage.FilteredTodos | 1019-pdf-app-fastapi-vercel-fullstack-master/002-pdf-vercel-frontend/index.js:113 | the shown list is the view the current filter selects (exactly the active or completed records, or the whole list) |
| LocalPage.ToggleTwiceRestores | 1019-pdf-app-fastapi-vercel-fullstack-master/002-pdf-vercel-frontend/index.js:66-72 | two toggles of one id restore the page's list |
| SyncedPage.AfterLoad | 1019-pdf-app-fastapi-vercel-fullstack-master/002-pdf-vercel-frontend/pdf-app/pages/index.js:38-48 | the server's list, else the fallback blob when stored, else the list as it was |
| SyncedPage.SyncedTodoPage.constructor | 1019-pdf-app-fastapi-vercel-fullstack-master/002-pdf-vercel-frontend/pdf-app/pages/index.js:12-18 | empty input and list, filter `all`, no error, connection unknown, nothing sent or pending |
| SyncedPage.SyncedTodoPage.CheckApiConnection | 1019-pdf-app-fastapi-vercel-fullstack-master/002-pdf-vercel-frontend/pdf-app/pages/index.js:27-33 | records the probe's outcome and reports a failed one |
| SyncedPage.SyncedTodoPage.LoadTodos | 1019-pdf-app-fastapi-vercel-fullstack-master/002-pdf-vercel-frontend/pdf-app/pages/index.js:35-52 | a failed load marks the page offline, reports it, and shows the fallback blob if one is stored |
| SyncedPage.SyncedTodoPage.HandleInputChange | 1019-pdf-app-fastapi-vercel-fullstack-master/002-pdf-vercel-frontend/pdf-app/pages/index.js:70-75 | sets the input and clears the error |
| SyncedPage.SyncedTodoPage.HandleKeyDown | 1019-pdf-app-fastapi-vercel-fullstack-master/002-pdf-vercel-frontend/pdf-app/pages/index.js:77-102 | a refused entry sends nothing and changes only the error; an accepted one is sent trimmed and handled as a create |
| SyncedPage.SyncedTodoPage.CreateTodo | 1019-pdf-app-fastapi-vercel-fullstack-master/002-pdf-vercel-frontend/pdf-app/pages/index.js:105-123 | on success the returned record is appended and the new list written to the fallback blob; on failure only the error changes |
| SyncedPage.SyncedTodoPage.ToggleTodo | 1019-pdf-app-fastapi-vercel-fullstack-master/002-pdf-vercel-frontend/pdf-app/pages/index.js:125-139 | the list is toggled at once; the waiting update becomes the updated record's state and the blob gets the new list, unless no record has the id |
| SyncedPage.SyncedTodoPage.UpdateTodo | 1019-pdf-app-fastapi-vercel-fullstack-master/002-pdf-vercel-frontend/pdf-app/pages/index.js:159-175 | the list is renamed at once; the waiting update carries the new name and the blob gets the new list, unless no record has the id |
| SyncedPage.SyncedTodoPage.DeleteTodo | 1019-pdf-app-fastapi-vercel-fullstack-master/002-pdf-vercel-frontend/pdf-app/pages/index.js:141-157 | records leave the list and the blob only after the back end confirms; on failure both stay and the error is set |
| SyncedPage.SyncedTodoPage.FlushPendingUpdate | 1019-pdf-app-fastapi-vercel-fullstack-master/002-pdf-vercel-frontend/pdf-app/pages/index.js:55-67 | the waiting update is sent once; a refused update reports the error and reloads |
| SyncedPage.SyncedTodoPage.HandleFilterChange | 1019-pdf-app-fastapi-vercel-fullstack-master/002-pdf-vercel-frontend/pdf-app/pages/index.js:177-179 | sets the filter only |
| SyncedPage.SyncedTodoPage.FilteredTodos | 1019-pdf-app-fastapi-vercel-fullstack-master/002-pdf-vercel-frontend/pdf-app/pages/index.js:197 | the shown list is the view the current filter selects (exactly the active or completed records, or the whole list) |
| SyncedPage.RenamesCollapse | 1019-pdf-app-fastapi-vercel-fullstack-master/002-pdf-vercel-frontend/pdf-app/pages/index.js:55-67 | two renames within the window send nothing yet and leave one update waiting, carrying the later name |
| TodoManager.Merge | 1019-pdf-app-fastapi-vercel-fullstack-master/002-pdf-vercel-frontend/utils/todoManager.js:43 | fields present in the updates win, absent ones keep the record's value |
| TodoManager.MergeById | 1019-pdf-app-fastapi-vercel-fullstack-master/002-pdf-vercel-frontend/utils/todoManager.js:42-44 | records with the id are merged, all others unchanged, length kept |
| TodoManager.MergeEmptyPatch | 1019-pdf-app-fastapi-vercel-fullstack-master/002-pdf-vercel-frontend/utils/todoManager.js:42-44 | merging empty updates changes no record |
| TodoManager.UpdateFindsMerged | 1019-pdf-app-fastapi-vercel-fullstack-master/002-pdf-vercel-frontend/utils/todoManager.js:46 | with the id kept (left out of the updates or repeated in them), the returned record is the first matching record merged, and `undefined` exactly when no record had the id |
| TodoManager.UpdateChangingIdFindsNothing | 1019-pdf-app-fastapi-vercel-fullstack-master/002-pdf-vercel-frontend/utils/todoManager.js:46 | updates that change the id make the lookup return `undefined` |
| TodoManager.LoadTodos | 1019-pdf-app-fastapi-vercel-fullstack-master/002-pdf-vercel-frontend/utils/todoManager.js:9-17 | the stored list when the key is present, otherwise the empty list |
| TodoManager.SaveTodos | 1019-pdf-app-fastapi-vercel-fullstack-master/002-pdf-vercel-frontend/utils/todoManager.js:20-24 | overwrites the blob with the list and returns the list |
| TodoManager.CreateTodo | 1019-pdf-app-fastapi-vercel-fullstack-master/002-pdf-vercel-frontend/utils/todoManager.js:27-38 | builds a record with the trimmed name, `completed` false and the timestamp, and stores the given list plus it |
| TodoManager.UpdateTodo | 1019-pdf-app-fastapi-vercel-fullstack-master/002-pdf-vercel-frontend/utils/todoManager.js:41-47 | stores the merged list and returns its first record with the id |
| TodoManager.DeleteTodo | 1019-pdf-app-fastapi-vercel-fullstack-master/002-pdf-vercel-frontend/utils/todoManager.js:50-54 | stores the list without the id's records and returns the id |
| TodoManager.SaveThenLoad | 1019-pdf-app-fastapi-vercel-fullstack-master/002-pdf-vercel-frontend/utils/todoManager.js:9-24 | loading after saving yields exactly the saved list |
| TodoManager.LoadThenSave | 1019-pdf-app-fastapi-vercel-fullstack-master/002-pdf-vercel-frontend/utils/todoManager.js:9-24 | saving what was loaded leaves the store unchanged once the key exists, and writes the empty list otherwise |
| TodoItem.TodoItemView.constructor | 1019-pdf-app-fastapi-vercel-fullstack-master/002-pdf-vercel-frontend/components/todo.js:7-8 | not editing, edit text equal to the name, no callbacks made |
| TodoItem.TodoItemView.HandleToggle | 1019-pdf-app-fastapi-vercel-fullstack-master/002-pdf-vercel-frontend/components/todo.js:11-13 | always reports a toggle of this record |
| TodoItem.TodoItemView.HandleDelete | 1019-pdf-app-fastapi-vercel-fullstack-master/002-pdf-vercel-frontend/components/todo.js:16-20 | reports a delete only when confirmed |
| TodoItem.TodoItemView.StartEditing | 1019-pdf-app-fastapi-vercel-fullstack-master/002-pdf-vercel-frontend/components/todo.js:23-26 | editing, with the edit text reset to the name |
| TodoItem.TodoItemView.CancelEditing | 1019-pdf-app-fastapi-vercel-fullstack-master/002-pdf-vercel-frontend/components/todo.js:29-32 | not editing, edit text restored, no callback |
| TodoItem.TodoItemView.HandleEditChange | 1019-pdf-app-fastapi-vercel-fullstack-master/002-pdf-vercel-frontend/components/todo.js:75 | sets the edit text only |
| TodoItem.TodoItemView.SaveEdit | 1019-pdf-app-fastapi-vercel-fullstack-master/002-pdf-vercel-frontend/components/todo.js:35-43 | leaves editing; reports one update with the trimmed text, or acts as a cancel for whitespace-only text |
| TodoItem.TodoItemView.HandleEditKeyDown | 1019-pdf-app-fastapi-vercel-fullstack-master/002-pdf-vercel-frontend/components/todo.js:46-57 | Enter (checked first) and Ctrl+s save, Escape cancels, other keys change nothing |
| Crud.NextId | 1019-pdf-app-fastapi-vercel-fullstack-master/001-pdf-fastapi-backend/crud.py:65-68 | a new row's key exceeds every key in the table |
| Crud.RowById | 1019-pdf-app-fastapi-vercel-fullstack-master/001-pdf-fastapi-backend/crud.py:22 | the row with the key, None exactly when there is none |
| Crud.RemoveAtIsFilter | 1019-pdf-app-fastapi-vercel-fullstack-master/001-pdf-fastapi-backend/crud.py:99-104 | with unique keys, deleting the row found is removing every row with its key |
| Crud.RemoveAtKeepsAscending | 1019-pdf-app-fastapi-vercel-fullstack-master/001-pdf-fastapi-backend/crud.py:35-41 | deleting a row keeps the keys ascending |
| Crud.Page | 1019-pdf-app-fastapi-vercel-fullstack-master/001-pdf-fastapi-backend/crud.py:71-72 | at most `limit` rows, a contiguous run of the table starting after `skip` rows, cut short only by the limit |
| Crud.CreatePdf | 1019-pdf-app-fastapi-vercel-fullstack-master/001-pdf-fastapi-backend/crud.py:8-13 | appends a row with the request's columns under a fresh key and returns it |
| Crud.ReadPdfs | 1019-pdf-app-fastapi-vercel-fullstack-master/001-pdf-fastapi-backend/crud.py:15-19 | every row, or exactly the rows whose `selected` matches |
| Crud.ReadPdf | 1019-pdf-app-fastapi-vercel-fullstack-master/001-pdf-fastapi-backend/crud.py:21-22 | the row with the key, None exactly when absent |
| Crud.UpdatePdf | 1019-pdf-app-fastapi-vercel-fullstack-master/001-pdf-fastapi-backend/crud.py:24-33 | None and no change for an absent key; otherwise only that row takes the request's columns |
| Crud.DeletePdf | 1019-pdf-app-fastapi-vercel-fullstack-master/001-pdf-fastapi-backend/crud.py:35-41 | None and no change for an absent key; otherwise exactly that row is removed and the answer is True |
| Crud.CreateTodo | 1019-pdf-app-fastapi-vercel-fullstack-master/001-pdf-fastapi-backend/crud.py:64-69 | appends a row with the given name and flag under a fresh key and returns it |
| Crud.GetTodos | 1019-pdf-app-fastapi-vercel-fullstack-master/001-pdf-fastapi-backend/crud.py:71-72 | a contiguous run of the table starting after `skip` rows (0 when negative), of `limit` rows or all that remain when fewer |
| Crud.ReadTodos | 1019-pdf-app-fastapi-vercel-fullstack-master/001-pdf-fastapi-backend/crud.py:74-79 | every row for None, exactly the rows whose `completed` matches otherwise |
| Crud.ReadTodosPartition | 1019-pdf-app-fastapi-vercel-fullstack-master/001-pdf-fastapi-backend/crud.py:74-79 | the completed and the not-completed reads split the table |
| Crud.GetTodo | 1019-pdf-app-fastapi-vercel-fullstack-master/001-pdf-fastapi-backend/crud.py:81-86 | the row with the key, None exactly when absent |
| Crud.ApplyUpdateData | 1019-pdf-app-fastapi-vercel-fullstack-master/001-pdf-fastapi-backend/crud.py:92-94 | applying the set fields one `setattr` at a time gives the row with exactly those fields overwritten |
| Crud.UpdateTodo | 1019-pdf-app-fastapi-vercel-fullstack-master/001-pdf-fastapi-backend/crud.py:88-97 | None and no change for an absent key; otherwise only the fields sent are overwritten, on that row only |
| Crud.DeleteTodo | 1019-pdf-app-fastapi-vercel-fullstack-master/001-pdf-fastapi-backend/crud.py:99-105 | None and no change for an absent key; otherwise that one row is removed and returned |

## Left out

- Rendering, CSS classes, the texts of error and success messages, the timers that clear
  success messages, and the `loading` flag: they are presentation only.
- The network client: each request is recorded as a `Request` value, and its reply is a
  parameter. Error texts are not modelled.
- The debounce timer: the waiting update is one slot, sent when `FlushPendingUpdate` is
  called. The 500 ms window itself is not modelled.
- Interleavings of asynchronous handlers: each handler runs to completion with its reply
  given. So the model does not capture that `createTodo` and `deleteTodo` build the new
  list from the `todos` captured before their `await`.
- `simulateDelay` and the todo manager's `testConnection`: they only wait and then
  return a constant.
- JSON serialisation: a blob holds the list it encodes. So a blob that fails to parse is
  not modelled.
- `Date.now()` and `toISOString()`: their values are parameters.
- The bulk actions component: it gates callbacks behind `window.confirm`, and no bulk
  operation is implemented in the code.
- `upload_pdf` (it calls S3), the routers' mapping of None to 404, and engine and
  configuration setup.
- Text.ToLower: folds only the ASCII letters A–Z. JavaScript's `toLowerCase` also folds
  other Unicode letters, so names that differ only outside ASCII are not recognised as
  duplicates here.
- TodoList.ValidateEntry: measures length in characters. JavaScript counts UTF-16 code
  units, so a character outside the Basic Multilingual Plane counts once here and twice there.
- TodoManager.Merge: an update object is modelled with the record's four fields, each present
  with a value or absent. The object spread also copies a key present with the value
  `undefined` (which sets the field to `undefined`) and keys the record does not have; neither is modelled.
- Crud.UpdateTodo: a field sent as an explicit `null` is not modelled; an update field is
  either sent with a value or not sent.
- Crud: table order is taken as ascending key order, and a new key is one past the largest.
  This is SQLite's behaviour for an INTEGER PRIMARY KEY. The code promises neither, and
  models.py, the SQLAlchemy model that declares the columns, is not part of this model.
- TodoItem.TodoItemView: the record the item shows is fixed. A re-render with a changed
  record, which does not reset `editValue`, is not modelled.
