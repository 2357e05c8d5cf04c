/** The todo record as the store keeps it and as the client receives it in JSON,
    and the JSON values a request body may carry in a field. */
module Todos {

  datatype Option<T> = None | Some(value: T)

  /** The store-assigned identifier (`_id`). Ids are opaque to every caller;
      the store hands them out from a counter, so they are never reused. */
  type Id = nat

  /** The persisted fields of a record: `title` and `completed` from the schema,
      `createdAt` from its timestamps option (a clock reading). */
  datatype Todo = Todo(title: string, completed: bool, createdAt: nat)

  /** A record together with its id: one element of a list response, and one
      element of the client's snapshot. */
  datatype Entry = Entry(id: Id, todo: Todo)

  /** What one field of a parsed JSON request body can hold. `Missing` is a
      field that is not there (`undefined`); `Compound` is an object or array.
      Numbers are kept as integers: only whether one is zero matters here. */
  datatype Json = Missing | Null | Bool(b: bool) | Num(n: int) | Str(s: string) | Compound

  /** JavaScript truthiness of a field value. */
  predicate Truthy(v: Json) {
    match v
    case Missing => false
    case Null => false
    case Bool(b) => b
    case Num(n) => n != 0
    case Str(s) => s != ""
    case Compound => true
  }

  /** A constraint on `completed` (`None`: no constraint) and whether a record meets it. */
  predicate Matches(w: Option<bool>, t: Todo) {
    w.None? || t.completed == w.value
  }

  /** The constraint as a predicate on list entries (one closure, shared by every
      use): `Selects(Some(false))` keeps the active entries, `Selects(Some(true))`
      the completed ones. */
  function Selects(w: Option<bool>): Entry -> bool {
    (e: Entry) => Matches(w, e.todo)
  }
}
