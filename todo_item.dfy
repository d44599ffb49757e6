/**
 * One list item (components/todo.js): its two pieces of local state, `isEditing` and
 * `editValue`, and the callbacks it invokes on the page, recorded in order in `calls`.
 * The record it shows is fixed for the life of the item.
 */
module TodoItem {
  import opened Text
  import opened TodoList

  /** A callback invocation the item makes on its page. */
  datatype Call = OnToggle(id: int) | OnDelete(id: int) | OnUpdate(id: int, name: string)

  class TodoItemView {
    const todo: Todo
    var isEditing: bool
    var editValue: string
    var calls: seq<Call>

    constructor (todo: Todo)
      ensures this.todo == todo && !isEditing && editValue == todo.name && calls == []
    {
      this.todo := todo;
      isEditing, editValue, calls := false, todo.name, [];
    }

    /** The checkbox always reports a toggle of this record. */
    method HandleToggle()
      modifies this
      ensures calls == old(calls) + [OnToggle(todo.id)]
      ensures isEditing == old(isEditing) && editValue == old(editValue)
    {
      calls := calls + [OnToggle(todo.id)];
    }

    /** The delete button reports a delete only when the user confirms it. */
    method HandleDelete(confirmed: bool)
      modifies this
      ensures calls == if confirmed then old(calls) + [OnDelete(todo.id)] else old(calls)
      ensures isEditing == old(isEditing) && editValue == old(editValue)
    {
      if confirmed {
        calls := calls + [OnDelete(todo.id)];
      }
    }

    /** Enters editing with the field reset to the current name. */
    method StartEditing()
      modifies this
      ensures isEditing && editValue == todo.name && calls == old(calls)
    {
      isEditing := true;
      editValue := todo.name;
    }

    /** Leaves editing, discards the typed text and reports nothing. */
    method CancelEditing()
      modifies this
      ensures !isEditing && editValue == todo.name && calls == old(calls)
    {
      isEditing := false;
      editValue := todo.name;
    }

    /** Typing into the edit field. */
    method HandleEditChange(value: string)
      modifies this
      ensures editValue == value && isEditing == old(isEditing) && calls == old(calls)
    {
      editValue := value;
    }

    /**
     * Saving reports one update with the trimmed text and leaves editing; text that is empty
     * or whitespace only is a cancel instead.
     */
    method SaveEdit()
      modifies this
      ensures !isEditing
      ensures !AllSpace(old(editValue)) ==>
        calls == old(calls) + [OnUpdate(todo.id, Trim(old(editValue)))] && editValue == old(editValue)
      ensures AllSpace(old(editValue)) ==> calls == old(calls) && editValue == todo.name
    {
      TrimEmptyIffAllSpace(editValue);
      var trimmed := Trim(editValue);
      if |trimmed| > 0 {
        calls := calls + [OnUpdate(todo.id, trimmed)];
        isEditing := false;
      } else {
        CancelEditing();
      }
    }

    /** Enter saves (checked first), Escape cancels, Ctrl+s saves, and any other key does nothing. */
    method HandleEditKeyDown(key: string, ctrlKey: bool)
      modifies this
      ensures key == "Enter" || (key != "Escape" && ctrlKey && key == "s") ==>
        && !isEditing
        && (!AllSpace(old(editValue)) ==>
              calls == old(calls) + [OnUpdate(todo.id, Trim(old(editValue)))] && editValue == old(editValue))
        && (AllSpace(old(editValue)) ==> calls == old(calls) && editValue == todo.name)
      ensures key == "Escape" ==> !isEditing && editValue == todo.name && calls == old(calls)
      ensures key != "Enter" && key != "Escape" && !(ctrlKey && key == "s") ==>
        isEditing == old(isEditing) && editValue == old(editValue) && calls == old(calls)
    {
      if key == "Enter" {
        SaveEdit();
      } else if key == "Escape" {
        CancelEditing();
      } else if ctrlKey && key == "s" {
        SaveEdit();
      }
    }
  }
}
