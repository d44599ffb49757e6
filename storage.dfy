/**
 * The browser's `localStorage` as the front end uses it: a map from key to one blob
 * that is always written whole. The JSON text of a blob is abstracted to the list it encodes.
 */
module Storage {
  import opened Wrappers
  import opened TodoList

  class BrowserStorage {
    var items: map<string, seq<Todo>>

    constructor (initial: map<string, seq<Todo>>)
      ensures items == initial
    {
      items := initial;
    }

    /** `getItem(key)`: the stored list, or None (`null`) for a key never written. */
    function GetItem(key: string): (r: Option<seq<Todo>>)
      reads this
      ensures r.Some? <==> key in items
      ensures r.Some? ==> r.value == items[key]
    {
      if key in items then Some(items[key]) else None
    }

    /** `setItem(key, value)`: replaces that key's blob wholesale and touches no other key. */
    method SetItem(key: string, value: seq<Todo>)
      modifies this
      ensures items == old(items)[key := value]
    {
      items := items[key := value];
    }
  }
}
