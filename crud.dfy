/**
 * The backend's CRUD functions (crud.py) over an in-memory database session. Each table is
 * the sequence of its rows in ascending id order, which is the order SQLite returns them
 * in when a query has no ORDER BY.
 */
module Crud {
  import opened Wrappers
  import opened Seqs

  /** A table row: the primary key and the remaining columns. */
  datatype Row<D> = Row(id: int, data: D)

  datatype TodoData = TodoData(name: string, completed: bool)
  datatype PdfData = PdfData(name: string, selected: bool, file: string)

  /** `schemas.TodoUpdate` as `dict(exclude_unset=True)` sees it: None marks a field the client did not send. */
  datatype TodoUpdate = TodoUpdate(name: Option<string>, completed: Option<bool>)

  /** One `key, value` item of the update dictionary. */
  datatype TodoField = NameField(name: string) | CompletedField(completed: bool)

  /** Primary keys strictly ascending, hence unique. */
  ghost predicate IdsAscending<D>(rows: seq<Row<D>>) {
    forall i, j :: 0 <= i < j < |rows| ==> rows[i].id < rows[j].id
  }

  class Session {
    var todos: seq<Row<TodoData>>
    var pdfs: seq<Row<PdfData>>

    ghost predicate Valid()
      reads this
    {
      IdsAscending(todos) && IdsAscending(pdfs)
    }

    constructor ()
      ensures Valid() && todos == [] && pdfs == []
    {
      todos, pdfs := [], [];
    }
  }

  /**
   * The key SQLite gives a new row of an INTEGER PRIMARY KEY table: one more than the
   * largest key present, 1 in an empty table.
   */
  function NextId<D>(rows: seq<Row<D>>): (id: int)
    requires IdsAscending(rows)
    ensures forall i :: 0 <= i < |rows| ==> rows[i].id < id
    ensures rows == [] ==> id == 1
  {
    if rows == [] then 1 else rows[|rows| - 1].id + 1
  }

  function WithId<D>(id: int): Row<D> -> bool {
    (r: Row<D>) => r.id == id
  }

  function WithoutId<D>(id: int): Row<D> -> bool {
    (r: Row<D>) => r.id != id
  }

  /** `.filter(Model.id == id).first()`: the row with this key, or None. */
  function RowById<D>(rows: seq<Row<D>>, id: int): (r: Option<Row<D>>)
    ensures r.None? <==> forall i :: 0 <= i < |rows| ==> rows[i].id != id
    ensures r.Some? ==> r.value in rows && r.value.id == id
  {
    Find(rows, WithId(id))
  }

  /** With unique keys, cutting out the row at `k` is the same as dropping every row with its key. */
  lemma RemoveAtIsFilter<D>(rows: seq<Row<D>>, k: nat)
    requires IdsAscending(rows) && k < |rows|
    ensures rows[..k] + rows[k + 1..] == Filter(rows, WithoutId(rows[k].id))
  {
    var p := WithoutId<D>(rows[k].id);
    var before, after := rows[..k], rows[k + 1..];
    assert rows == before + [rows[k]] + after;
    forall i | 0 <= i < |before| ensures p(before[i]) {
      assert before[i] == rows[i];
    }
    forall i | 0 <= i < |after| ensures p(after[i]) {
      assert after[i] == rows[k + 1 + i];
    }
    FilterDropsOne(before, rows[k], after, p);
  }

  /** Removing rows keeps the keys ascending. */
  lemma RemoveAtKeepsAscending<D>(rows: seq<Row<D>>, k: nat)
    requires IdsAscending(rows) && k < |rows|
    ensures IdsAscending(rows[..k] + rows[k + 1..])
  {
    var r := rows[..k] + rows[k + 1..];
    forall i, j | 0 <= i < j < |r| ensures r[i].id < r[j].id {
      var i' := if i < k then i else i + 1;
      var j' := if j < k then j else j + 1;
      assert r[i] == rows[i'] && r[j] == rows[j'];
    }
  }

  /** Python's `offset(skip).limit(limit)` on SQLite: a negative offset counts as 0, a negative limit as no limit. */
  function Page<D>(rows: seq<Row<D>>, skip: int, limit: int): (r: seq<Row<D>>)
    ensures limit >= 0 ==> |r| <= limit
    ensures var start := if skip < 0 then 0 else if skip > |rows| then |rows| else skip;
      && start + |r| <= |rows| && r == rows[start..start + |r|]
      && (|r| < |rows| - start ==> 0 <= limit == |r|)
  {
    var start := if skip < 0 then 0 else if skip > |rows| then |rows| else skip;
    var rest := rows[start..];
    if limit < 0 || limit >= |rest| then rest else rest[..limit]
  }

  // ---------------------------------------------------------------- PDFs

  function HasSelected(selected: bool): Row<PdfData> -> bool {
    (r: Row<PdfData>) => r.data.selected == selected
  }

  /** `create_pdf`: inserts a row with the request's columns under a fresh key and returns it. */
  method CreatePdf(db: Session, pdf: PdfData) returns (row: Row<PdfData>)
    requires db.Valid()
    modifies db
    ensures db.Valid()
    ensures row.data == pdf && forall i :: 0 <= i < |old(db.pdfs)| ==> old(db.pdfs)[i].id < row.id
    ensures db.pdfs == old(db.pdfs) + [row] && db.todos == old(db.todos)
  {
    row := Row(NextId(db.pdfs), pdf);
    db.pdfs := db.pdfs + [row];
  }

  /** `read_pdfs`: every row, or exactly the rows whose `selected` matches. */
  function ReadPdfs(db: Session, selected: Option<bool>): (r: seq<Row<PdfData>>)
    reads db
    ensures selected.None? ==> r == db.pdfs
    ensures forall i :: 0 <= i < |r| ==>
      r[i] in db.pdfs && (selected.Some? ==> r[i].data.selected == selected.value)
    ensures forall i :: 0 <= i < |db.pdfs| && (selected.None? || db.pdfs[i].data.selected == selected.value) ==>
      db.pdfs[i] in r
  {
    match selected
    case None => db.pdfs
    case Some(s) => Filter(db.pdfs, HasSelected(s))
  }

  /** `read_pdf`: the row with this key, or None. */
  function ReadPdf(db: Session, id: int): (r: Option<Row<PdfData>>)
    reads db
    ensures r.None? <==> forall i :: 0 <= i < |db.pdfs| ==> db.pdfs[i].id != id
    ensures r.Some? ==> r.value in db.pdfs && r.value.id == id
  {
    RowById(db.pdfs, id)
  }

  /**
   * `update_pdf`: None when the key is absent; otherwise the request's columns replace the
   * row's (a `PDFRequest` sets all three) and the updated row is returned.
   */
  method UpdatePdf(db: Session, id: int, pdf: PdfData) returns (r: Option<Row<PdfData>>)
    requires db.Valid()
    modifies db
    ensures db.Valid() && db.todos == old(db.todos)
    ensures old(ReadPdf(db, id)).None? ==> r.None? && db.pdfs == old(db.pdfs)
    ensures old(ReadPdf(db, id)).Some? ==>
      && r == Some(Row(id, pdf)) && |db.pdfs| == |old(db.pdfs)|
      && forall i :: 0 <= i < |db.pdfs| ==>
           db.pdfs[i] == if old(db.pdfs)[i].id == id then Row(id, pdf) else old(db.pdfs)[i]
  {
    match FindIndex(db.pdfs, WithId(id))
    case None =>
      r := None;
    case Some(k) =>
      db.pdfs := db.pdfs[k := Row(id, pdf)];
      r := Some(Row(id, pdf));
  }

  /** `delete_pdf`: None when the key is absent; otherwise the row is removed and the answer is True. */
  method DeletePdf(db: Session, id: int) returns (r: Option<bool>)
    requires db.Valid()
    modifies db
    ensures db.Valid() && db.todos == old(db.todos)
    ensures r == if old(ReadPdf(db, id)).Some? then Some(true) else None
    ensures db.pdfs == Filter(old(db.pdfs), WithoutId(id))
    ensures r.Some? ==> |db.pdfs| == |old(db.pdfs)| - 1
  {
    match FindIndex(db.pdfs, WithId(id))
    case None =>
      FilterKeepsAll(db.pdfs, WithoutId(id));
      r := None;
    case Some(k) =>
      RemoveAtIsFilter(db.pdfs, k);
      RemoveAtKeepsAscending(db.pdfs, k);
      db.pdfs := db.pdfs[..k] + db.pdfs[k + 1..];
      r := Some(true);
  }

  // ---------------------------------------------------------------- Todos

  function HasCompleted(completed: bool): Row<TodoData> -> bool {
    (r: Row<TodoData>) => r.data.completed == completed
  }

  /** `create_todo`: inserts a row with the given name and flag under a fresh key and returns it. */
  method CreateTodo(db: Session, todo: TodoData) returns (row: Row<TodoData>)
    requires db.Valid()
    modifies db
    ensures db.Valid()
    ensures row.data == todo && forall i :: 0 <= i < |old(db.todos)| ==> old(db.todos)[i].id < row.id
    ensures db.todos == old(db.todos) + [row] && db.pdfs == old(db.pdfs)
  {
    row := Row(NextId(db.todos), todo);
    db.todos := db.todos + [row];
  }

  /** `get_todos`: at most `limit` rows, starting after the first `skip`, in table order. */
  function GetTodos(db: Session, skip: int, limit: int): (r: seq<Row<TodoData>>)
    reads db
    ensures limit >= 0 ==> |r| <= limit
    ensures forall i :: 0 <= i < |r| ==> r[i] in db.todos
    ensures 0 <= skip && 0 <= limit && skip + limit <= |db.todos| ==> r == db.todos[skip..skip + limit]
    ensures skip <= 0 && limit < 0 ==> r == db.todos
    ensures var start := if skip < 0 then 0 else if skip > |db.todos| then |db.todos| else skip;
      && start + |r| <= |db.todos| && r == db.todos[start..start + |r|]
      && (|r| < |db.todos| - start ==> 0 <= limit == |r|)
  {
    Page(db.todos, skip, limit)
  }

  /** `read_todos`: every row, or exactly the rows whose `completed` matches, in table order. */
  function ReadTodos(db: Session, completed: Option<bool>): (r: seq<Row<TodoData>>)
    reads db
    ensures completed.None? ==> r == db.todos
    ensures forall i :: 0 <= i < |r| ==>
      r[i] in db.todos && (completed.Some? ==> r[i].data.completed == completed.value)
    ensures forall i :: 0 <= i < |db.todos| && (completed.None? || db.todos[i].data.completed == completed.value) ==>
      db.todos[i] in r
  {
    match completed
    case None => db.todos
    case Some(c) => Filter(db.todos, HasCompleted(c))
  }

  /** The two filtered reads split the table between them. */
  lemma ReadTodosPartition(db: Session)
    ensures |ReadTodos(db, Some(true))| + |ReadTodos(db, Some(false))| == |db.todos|
    ensures multiset(ReadTodos(db, Some(true))) + multiset(ReadTodos(db, Some(false))) == multiset(db.todos)
  {
    FilterPartition(db.todos, HasCompleted(true), HasCompleted(false));
  }

  /** `get_todo` and `read_todo` (the same query): the row with this key, or None. */
  function GetTodo(db: Session, todoId: int): (r: Option<Row<TodoData>>)
    reads db
    ensures r.None? <==> forall i :: 0 <= i < |db.todos| ==> db.todos[i].id != todoId
    ensures r.Some? ==> r.value in db.todos && r.value.id == todoId
  {
    RowById(db.todos, todoId)
  }

  /** The items of `todo.dict(exclude_unset=True)`, in the schema's field order. */
  function UpdateData(update: TodoUpdate): seq<TodoField> {
    (if update.name.Some? then [NameField(update.name.value)] else [])
    + (if update.completed.Some? then [CompletedField(update.completed.value)] else [])
  }

  /** `setattr(db_todo, key, value)`. */
  function SetAttr(d: TodoData, f: TodoField): TodoData {
    match f
    case NameField(n) => d.(name := n)
    case CompletedField(c) => d.(completed := c)
  }

  /** The columns after the `setattr` calls for `fields`, made in order. */
  function ApplyFields(d: TodoData, fields: seq<TodoField>): TodoData
    decreases |fields|
  {
    if fields == [] then d else SetAttr(ApplyFields(d, fields[..|fields| - 1]), fields[|fields| - 1])
  }

  /** The row the update promises: each field the client sent wins, each field it left out is kept. */
  function Patched(d: TodoData, update: TodoUpdate): TodoData {
    TodoData(update.name.GetOr(d.name), update.completed.GetOr(d.completed))
  }

  /** Applying the update dictionary field by field yields the patched row. */
  lemma ApplyUpdateData(d: TodoData, update: TodoUpdate)
    ensures ApplyFields(d, UpdateData(update)) == Patched(d, update)
  {
    var fs := UpdateData(update);
    if |fs| == 2 {
      assert fs[..1] == [NameField(update.name.value)];
      assert fs[..1][..0] == [];
    } else if |fs| == 1 {
      assert fs[..0] == [];
    }
  }

  /**
   * `update_todo`: None and no change when the key is absent; otherwise only the fields the
   * client sent are overwritten on that row, and the updated row is returned.
   */
  method UpdateTodo(db: Session, todoId: int, update: TodoUpdate) returns (r: Option<Row<TodoData>>)
    requires db.Valid()
    modifies db
    ensures db.Valid() && db.pdfs == old(db.pdfs)
    ensures old(GetTodo(db, todoId)).None? ==> r.None? && db.todos == old(db.todos)
    ensures old(GetTodo(db, todoId)).Some? ==>
      && r == Some(Row(todoId, Patched(old(GetTodo(db, todoId)).value.data, update)))
      && |db.todos| == |old(db.todos)|
      && forall i :: 0 <= i < |db.todos| ==>
           db.todos[i] == if old(db.todos)[i].id == todoId then r.value else old(db.todos)[i]
  {
    match FindIndex(db.todos, WithId(todoId))
    case None =>
      r := None;
    case Some(k) =>
      var original := db.todos[k].data;
      var data := original;
      var updateData := UpdateData(update);
      var i := 0;
      while i < |updateData|
        invariant 0 <= i <= |updateData|
        invariant data == ApplyFields(original, updateData[..i])
      {
        assert updateData[..i + 1][..i] == updateData[..i];
        data := SetAttr(data, updateData[i]);
        i := i + 1;
      }
      assert updateData[..i] == updateData;
      ApplyUpdateData(original, update);
      db.todos := db.todos[k := Row(todoId, data)];
      r := Some(Row(todoId, data));
  }

  /** `delete_todo`: None and no change when the key is absent; otherwise removes that one row and returns it. */
  method DeleteTodo(db: Session, todoId: int) returns (r: Option<Row<TodoData>>)
    requires db.Valid()
    modifies db
    ensures db.Valid() && db.pdfs == old(db.pdfs)
    ensures r == old(GetTodo(db, todoId))
    ensures db.todos == Filter(old(db.todos), WithoutId(todoId))
    ensures r.Some? ==> |db.todos| == |old(db.todos)| - 1
  {
    match FindIndex(db.todos, WithId(todoId))
    case None =>
      FilterKeepsAll(db.todos, WithoutId(todoId));
      r := None;
    case Some(k) =>
      r := Some(db.todos[k]);
      RemoveAtIsFilter(db.todos, k);
      RemoveAtKeepsAscending(db.todos, k);
      db.todos := db.todos[..k] + db.todos[k + 1..];
  }
}
