/** The `TodoItem` component: one row of the list, with its own
    viewing/editing state and the draft title typed while editing. */
module Item {
  import opened Todos

  /** The keys the edit box reacts to; every other key is `OtherKey`. */
  datatype Key = Enter | Escape | OtherKey

  /** The call `onRename(todo._id, value)` the row asks its parent to make. */
  datatype RenameCall = RenameCall(id: Id, title: string)

  class TodoItem {
    var entry: Entry     // the `todo` prop: the record the parent passes in
    var editing: bool
    var value: string    // the draft shown in the edit box

    /** A new row shows the record's title and starts out viewing. */
    constructor (entry: Entry)
      ensures this.entry == entry && !editing && value == entry.todo.title
    {
      this.entry := entry;
      editing := false;
      value := entry.todo.title;
    }

    /** Double-clicking the title opens the edit box on the current draft. */
    method DoubleClick()
      modifies this
      ensures editing && value == old(value) && entry == old(entry)
    {
      editing := true;
    }

    /** Typing in the edit box replaces the draft. The box exists only while editing. */
    method Change(v: string)
      requires editing
      modifies this
      ensures editing && value == v && entry == old(entry)
    {
      value := v;
    }

    /** `handleKeyDown`: Enter commits the draft as it is (the parent decides
        whether it is blank) and closes the box; Escape closes the box and
        throws the draft away without a call; other keys do nothing. */
    method KeyDown(key: Key) returns (call: Option<RenameCall>)
      requires editing
      modifies this
      ensures entry == old(entry)
      ensures key == Enter ==> call == Some(RenameCall(entry.id, old(value))) && !editing && value == old(value)
      ensures key == Escape ==> call == None && !editing && value == entry.todo.title
      ensures key == OtherKey ==> call == None && editing && value == old(value)
    {
      call := None;
      if key == Enter {
        call := Some(RenameCall(entry.id, value));
        editing := false;
      } else if key == Escape {
        editing := false;
        value := entry.todo.title;
      }
    }

    /** Leaving the edit box commits the draft, like Enter. */
    method Blur() returns (call: RenameCall)
      requires editing
      modifies this
      ensures call == RenameCall(entry.id, old(value))
      ensures !editing && value == old(value) && entry == old(entry)
    {
      call := RenameCall(entry.id, value);
      editing := false;
    }

    /** The parent re-renders the row with `next` (same `_id`, as the list is
        keyed by it). The effect on `todo.title` resets the draft when, and
        only when, the title differs from the one the row had. */
    method Receive(next: Entry)
      requires next.id == entry.id
      modifies this
      ensures entry == next && editing == old(editing)
      ensures value == if next.todo.title != old(entry.todo.title) then next.todo.title else old(value)
    {
      if next.todo.title != entry.todo.title {
        value := next.todo.title;
      }
      entry := next;
    }
  }
}
