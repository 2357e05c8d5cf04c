/** The browser client: the `api` helper's error rule, the list transforms it
    applies optimistically, the derived counts, and the `App` component's
    handlers over its state (`todos`, `text`, `filter`, `loading`, `error`).
    A call to the server is a parameter of the handler that makes it: the
    reply the network delivered. */
module Client {
  import opened Todos
  import opened Text
  import opened Seqs

  const RequestFailed := "Request failed"

  /** What one `fetch` to the server delivered. */
  datatype Reply<T> =
    | Ok(value: T)                  // a 2xx response whose JSON body is `value`
    | NotOk(error: Option<string>)  // any other status; `error` is the body's `error` field
    | Thrown(message: string)       // the request itself failed, with this message

  /** What `api` resolves to, or the message of the error it throws. */
  datatype Outcome<T> = Success(value: T) | Failure(message: string)

  /** `api`: a 2xx reply yields its body; a refused one throws with the body's
      `error` when that is a non-empty string and with "Request failed"
      otherwise, so a refusal always carries a message to show. */
  function Api<T>(reply: Reply<T>): (o: Outcome<T>)
    ensures o.Success? <==> reply.Ok?
    ensures reply.Ok? ==> o.value == reply.value
    ensures reply.NotOk? ==> o.Failure? && o.message != ""
    ensures reply.NotOk? && reply.error.Some? && reply.error.value != "" ==> o.message == reply.error.value
    ensures reply.NotOk? && (reply.error.None? || reply.error.value == "") ==> o.message == RequestFailed
    ensures reply.Thrown? ==> o == Failure(reply.message)
  {
    match reply
    case Ok(v) => Success(v)
    case NotOk(e) => Failure(if e.Some? && e.value != "" then e.value else RequestFailed)
    case Thrown(m) => Failure(m)
  }

  // ---------------------------------------------------------------------------
  // The list transforms

  /** `todos.map(x => x._id === id ? { ...x, completed } : x)`: the entries with
      that id take the new flag; everything else, and the order, is kept. */
  function Toggled(s: seq<Entry>, id: Id, completed: bool): (r: seq<Entry>)
    ensures |r| == |s|
    ensures forall i :: 0 <= i < |s| ==>
      r[i].id == s[i].id && r[i].todo.title == s[i].todo.title && r[i].todo.createdAt == s[i].todo.createdAt
    ensures forall i :: 0 <= i < |s| && s[i].id == id ==> r[i].todo.completed == completed
    ensures forall i :: 0 <= i < |s| && s[i].id != id ==> r[i] == s[i]
  {
    seq(|s|, i requires 0 <= i < |s| =>
      if s[i].id == id then Entry(id, s[i].todo.(completed := completed)) else s[i])
  }

  /** `todos.map(x => x._id === id ? { ...x, title } : x)`. */
  function Renamed(s: seq<Entry>, id: Id, title: string): (r: seq<Entry>)
    ensures |r| == |s|
    ensures forall i :: 0 <= i < |s| ==>
      r[i].id == s[i].id && r[i].todo.completed == s[i].todo.completed && r[i].todo.createdAt == s[i].todo.createdAt
    ensures forall i :: 0 <= i < |s| && s[i].id == id ==> r[i].todo.title == title
    ensures forall i :: 0 <= i < |s| && s[i].id != id ==> r[i] == s[i]
  {
    seq(|s|, i requires 0 <= i < |s| =>
      if s[i].id == id then Entry(id, s[i].todo.(title := title)) else s[i])
  }

  function IsNot(id: Id): Entry -> bool {
    (e: Entry) => e.id != id
  }

  /** `todos.filter(x => x._id !== id)`: every entry with that id goes, every
      other entry stays, as often as it occurred and in its original order. */
  function Without(s: seq<Entry>, id: Id): (r: seq<Entry>)
    ensures forall e :: e in r <==> e in s && e.id != id
    ensures forall e :: multiset(r)[e] == if e.id != id then multiset(s)[e] else 0
    ensures Subseq(r, s)
  {
    FilterIsSubseq(s, IsNot(id));
    Filter(s, IsNot(id))
  }

  datatype Counts = Counts(all: nat, active: nat, completed: nat)

  /** `counts`: the tab labels. `active` and `completed` count the entries of
      each kind; every entry is one or the other, never both. */
  function Tally(s: seq<Entry>): (c: Counts)
    ensures c.active == Count(s, Selects(Some(false)))
    ensures c.completed == Count(s, Selects(Some(true)))
    ensures c.all == c.active + c.completed == |s|
    ensures c.completed == 0 <==> forall e :: e in s ==> !e.todo.completed
    ensures c.active == 0 <==> forall e :: e in s ==> e.todo.completed
  {
    var active, completed := Filter(s, Selects(Some(false))), Filter(s, Selects(Some(true)));
    FilterSplits(s, Selects(Some(true)), Selects(Some(false)));
    FilterCount(s, Selects(Some(false)));
    FilterCount(s, Selects(Some(true)));
    assert completed != [] ==> completed[0] in completed;
    assert active != [] ==> active[0] in active;
    Counts(|s|, |active|, |completed|)
  }

  // ---------------------------------------------------------------------------

  /** The `App` component's state and handlers. Each handler runs to completion
      with the reply its request received; `shown` is the list displayed while
      an optimistic request is in flight. */
  class App {
    var todos: seq<Entry>
    var text: string
    var filter: string
    var loading: bool
    var error: string

    constructor ()
      ensures todos == [] && text == "" && filter == "all" && loading && error == ""
    {
      todos, text, filter, loading, error := [], "", "all", true, "";
    }

    /** `load`: asks for the current filter's list (`requested` is the `status`
        it sends); a success replaces the list wholesale and leaves no error, a
        failure keeps the list and shows why. */
    method Load(reply: Reply<seq<Entry>>) returns (requested: string)
      modifies this
      ensures requested == filter
      ensures !loading && text == old(text) && filter == old(filter)
      ensures Api(reply).Success? ==> todos == reply.value && error == ""
      ensures Api(reply).Failure? ==> todos == old(todos) && error == Api(reply).message
    {
      loading := true;
      error := "";
      requested := filter;
      var o := Api(reply);
      match o {
        case Success(data) => todos := data;
        case Failure(message) => error := message;
      }
      loading := false;
    }

    /** A filter tab: the list is loaded again only when the filter actually
        changes, since the effect depends on `filter` alone. */
    method SetFilter(f: string, reply: Reply<seq<Entry>>) returns (reloaded: bool)
      modifies this
      ensures filter == f && reloaded == (f != old(filter)) && text == old(text)
      ensures !reloaded ==> todos == old(todos) && error == old(error) && loading == old(loading)
      ensures reloaded ==> !loading
      ensures reloaded && Api(reply).Success? ==> todos == reply.value && error == ""
      ensures reloaded && Api(reply).Failure? ==> todos == old(todos) && error == Api(reply).message
    {
      reloaded := f != filter;
      filter := f;
      if reloaded {
        var _ := Load(reply);
      }
    }

    /** The input's `onChange`. */
    method ChangeText(t: string)
      modifies this
      ensures text == t && todos == old(todos) && filter == old(filter)
      ensures loading == old(loading) && error == old(error)
    {
      text := t;
    }

    /** `addTodo`: a blank input sends nothing and changes nothing. Otherwise the
        trimmed text is sent; on success the record the server returned goes in
        front and the input is cleared, on failure only `error` changes. */
    method AddTodo(reply: Reply<Entry>) returns (sent: Option<string>)
      modifies this
      ensures sent == if Trim(old(text)) == "" then None else Some(Trim(old(text)))
      ensures filter == old(filter) && loading == old(loading)
      ensures sent.None? ==> todos == old(todos) && text == old(text) && error == old(error)
      ensures sent.Some? && Api(reply).Success? ==>
        todos == [reply.value] + old(todos) && text == "" && error == old(error)
      ensures sent.Some? && Api(reply).Failure? ==>
        todos == old(todos) && text == old(text) && error == Api(reply).message
    {
      var title := Trim(text);
      if title == "" {
        return None;
      }
      sent := Some(title);
      var o := Api(reply);
      match o {
        case Success(created) =>
          text := "";
          todos := [created] + todos;
        case Failure(message) =>
          error := message;
      }
    }

    /** `toggleTodo`: the flag changes at once; a failed request puts back the
        whole list as it was before and shows the error. */
    method ToggleTodo(id: Id, completed: bool, reply: Reply<Entry>) returns (ghost shown: seq<Entry>)
      modifies this
      ensures shown == Toggled(old(todos), id, completed)
      ensures text == old(text) && filter == old(filter) && loading == old(loading)
      ensures Api(reply).Success? ==> todos == shown && error == old(error)
      ensures Api(reply).Failure? ==> todos == old(todos) && error == Api(reply).message
    {
      var prev := todos;
      todos := Toggled(todos, id, completed);
      shown := todos;
      var o := Api(reply);
      if o.Failure? {
        error := o.message;
        todos := prev;
      }
    }

    /** `deleteTodo`: the entry disappears at once; a failed request puts back
        the whole list as it was before and shows the error. */
    method DeleteTodo(id: Id, reply: Reply<bool>) returns (ghost shown: seq<Entry>)
      modifies this
      ensures shown == Without(old(todos), id)
      ensures text == old(text) && filter == old(filter) && loading == old(loading)
      ensures Api(reply).Success? ==> todos == shown && error == old(error)
      ensures Api(reply).Failure? ==> todos == old(todos) && error == Api(reply).message
    {
      var prev := todos;
      todos := Without(todos, id);
      shown := todos;
      var o := Api(reply);
      if o.Failure? {
        error := o.message;
        todos := prev;
      }
    }

    /** `renameTodo`: a title that is blank after trimming is ignored and sends
        nothing; otherwise the trimmed title is shown at once and sent, and a
        failed request puts back the whole list and shows the error. */
    method RenameTodo(id: Id, title: string, reply: Reply<Entry>) returns (sent: Option<string>, ghost shown: seq<Entry>)
      modifies this
      ensures sent == if Trim(title) == "" then None else Some(Trim(title))
      ensures text == old(text) && filter == old(filter) && loading == old(loading)
      ensures sent.None? ==> shown == old(todos) && todos == old(todos) && error == old(error)
      ensures sent.Some? ==> shown == Renamed(old(todos), id, sent.value)
      ensures sent.Some? && Api(reply).Success? ==> todos == shown && error == old(error)
      ensures sent.Some? && Api(reply).Failure? ==> todos == old(todos) && error == Api(reply).message
    {
      shown := todos;
      var trimmed := Trim(title);
      if trimmed == "" {
        return None, shown;
      }
      sent := Some(trimmed);
      var prev := todos;
      todos := Renamed(todos, id, trimmed);
      shown := todos;
      var o := Api(reply);
      if o.Failure? {
        error := o.message;
        todos := prev;
      }
    }
  }
}
