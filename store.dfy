/** The server: the `/api/todos` route handlers over the persisted todo
    collection. The collection is a finite map from id to record; each handler
    is first stated as a pure function from the collection (and the request) to
    a response and the new collection, and `TodoStore` then runs the handlers
    step by step on its own fields and is proved to agree with those functions. */
module Store {
  import opened Todos
  import opened Text
  import opened Seqs

  // The error bodies the handlers send, word for word.
  const TitleRequired := "Title is required"
  const TitleEmpty := "Title cannot be empty"
  const NotFound := "Todo not found"
  const FetchFailed := "Failed to fetch todos"
  const CreateFailed := "Failed to create todo"
  const UpdateFailed := "Failed to update todo"
  const DeleteFailed := "Failed to delete todo"
  const ClearFailed := "Failed to clear completed"

  /** The JSON body of a response. */
  datatype Body =
    | Record(entry: Entry)          // one created or updated record
    | Records(entries: seq<Entry>)  // a list of records
    | Deleted                       // `{ ok: true }`
    | Cleared(deletedCount: nat)    // `{ deletedCount }`
    | Error(message: string)        // `{ error }`

  datatype Response = Response(status: nat, body: Body)

  /** The persisted collection, and the next id the store will hand out. */
  datatype Db = Db(table: map<Id, Todo>, nextId: Id)

  /** What a mutating handler produces: its response and the collection after it. */
  datatype Handled = Handled(response: Response, db: Db)

  /** A title as the store keeps it: non-empty and already trimmed. */
  predicate ValidTitle(t: string) {
    t != "" && Trimmed(t)
  }

  /** Every stored id was handed out already, and no stored title is blank. */
  predicate Consistent(db: Db) {
    forall id :: id in db.table ==> id < db.nextId && ValidTitle(db.table[id].title)
  }

  // ---------------------------------------------------------------------------
  // GET /api/todos?status=...

  /** The query filter built from `status`: `{ completed: false }` for "active",
      `{ completed: true }` for "completed", `{}` (no constraint) otherwise. */
  function Where(status: Option<string>): (w: Option<bool>)
    ensures w == Some(false) <==> status == Some("active")
    ensures w == Some(true) <==> status == Some("completed")
    ensures w == None <==> status != Some("active") && status != Some("completed")
  {
    if status == Some("active") then Some(false)
    else if status == Some("completed") then Some(true)
    else None
  }

  /** The collection's records with ids below `n`, in the order they were
      inserted (ascending id): the order a query sees before it sorts. */
  function Natural(table: map<Id, Todo>, n: nat): (r: seq<Entry>)
    ensures forall e :: e in r <==> e.id < n && e.id in table && table[e.id] == e.todo
    ensures forall i, j :: 0 <= i < j < |r| ==> r[i].id < r[j].id
  {
    if n == 0 then []
    else Natural(table, n - 1) + (if n - 1 in table then [Entry(n - 1, table[n - 1])] else [])
  }

  predicate NewestFirst(s: seq<Entry>) {
    forall i, j :: 0 <= i < j < |s| ==> s[i].todo.createdAt >= s[j].todo.createdAt
  }

  predicate DistinctIds(s: seq<Entry>) {
    forall i, j :: 0 <= i < j < |s| ==> s[i].id != s[j].id
  }

  /** Puts `e` in front of the first element that is not newer than it. */
  function Insert(e: Entry, s: seq<Entry>): (r: seq<Entry>)
    ensures |r| == |s| + 1
    ensures forall x :: x in r <==> x == e || x in s
    ensures multiset(r) == multiset(s) + multiset{e}
  {
    if s == [] || s[0].todo.createdAt <= e.todo.createdAt then [e] + s
    else
      assert s == [s[0]] + s[1..];
      [s[0]] + Insert(e, s[1..])
  }

  lemma {:induction false} InsertNewestFirst(e: Entry, s: seq<Entry>)
    requires NewestFirst(s)
    ensures NewestFirst(Insert(e, s))
  {
    if s != [] && s[0].todo.createdAt > e.todo.createdAt {
      var rest := Insert(e, s[1..]);
      InsertNewestFirst(e, s[1..]);
      var r := [s[0]] + rest;
      forall j | 0 < j < |r| ensures r[0].todo.createdAt >= r[j].todo.createdAt {
        var x := rest[j - 1];
        assert x in rest;
        if x != e {
          var k :| 0 <= k < |s[1..]| && s[1..][k] == x;
          assert s[k + 1] == x;
        }
      }
      assert forall i, j :: 0 < i < j < |r| ==> r[i] == rest[i - 1] && r[j] == rest[j - 1];
    }
  }

  lemma {:induction false} InsertDistinct(e: Entry, s: seq<Entry>)
    requires DistinctIds(s)
    requires forall x :: x in s ==> x.id != e.id
    ensures DistinctIds(Insert(e, s))
  {
    if s != [] && s[0].todo.createdAt > e.todo.createdAt {
      var rest := Insert(e, s[1..]);
      InsertDistinct(e, s[1..]);
      var r := [s[0]] + rest;
      forall j | 0 < j < |r| ensures r[0].id != r[j].id {
        var x := rest[j - 1];
        assert x in rest;
        if x != e {
          var k :| 0 <= k < |s[1..]| && s[1..][k] == x;
          assert s[k + 1] == x;
        } else {
          assert s[0] in s;
        }
      }
      assert forall i, j :: 0 < i < j < |r| ==> r[i] == rest[i - 1] && r[j] == rest[j - 1];
    } else if s != [] {
      var r := [e] + s;
      assert forall j :: 0 < j < |r| ==> r[j] == s[j - 1] && s[j - 1] in s;
    }
  }

  /** `.sort({ createdAt: -1 })`: newest first. Records created at the same
      instant keep their relative order. */
  function SortNewestFirst(s: seq<Entry>): (r: seq<Entry>)
    ensures forall x :: x in r <==> x in s
    ensures multiset(r) == multiset(s)
    ensures NewestFirst(r)
  {
    if s == [] then []
    else
      assert s == [s[0]] + s[1..];
      var rest := SortNewestFirst(s[1..]);
      InsertNewestFirst(s[0], rest);
      Insert(s[0], rest)
  }

  lemma {:induction false} SortDistinct(s: seq<Entry>)
    requires DistinctIds(s)
    ensures DistinctIds(SortNewestFirst(s))
  {
    if s != [] {
      assert DistinctIds(s[1..]) by {
        forall i, j | 0 <= i < j < |s[1..]| ensures s[1..][i].id != s[1..][j].id {
          assert s[1..][i] == s[i + 1] && s[1..][j] == s[j + 1];
        }
      }
      SortDistinct(s[1..]);
      forall x | x in s[1..] ensures x.id != s[0].id {
        var k :| 0 <= k < |s[1..]| && s[1..][k] == x;
        assert s[k + 1] == x;
      }
      InsertDistinct(s[0], SortNewestFirst(s[1..]));
    }
  }

  /** `Todo.find(where).sort({ createdAt: -1 })`. */
  function Query(db: Db, w: Option<bool>): seq<Entry> {
    SortNewestFirst(Filter(Natural(db.table, db.nextId), Selects(w)))
  }

  /** A list response holds exactly the stored records the filter selects, each
      once, newest first. */
  lemma ListExact(db: Db, status: Option<string>)
    requires Consistent(db)
    ensures var r := Query(db, Where(status));
      && NewestFirst(r)
      && DistinctIds(r)
      && (forall e :: e in r <==> e.id in db.table && db.table[e.id] == e.todo && Matches(Where(status), e.todo))
  {
    var w := Where(status);
    var inOrder := Natural(db.table, db.nextId);
    var f := Filter(inOrder, Selects(w));
    FilterKeepsPairwise(inOrder, Selects(w), (a: Entry, b: Entry) => a.id < b.id);
    assert DistinctIds(f);
    SortDistinct(f);
  }

  /** The list handler: 500 when the query fails, else 200 with exactly the
      stored records the status selects, each once, newest first. */
  function ListTodos(db: Db, status: Option<string>, fault: bool): (r: Response)
    ensures fault ==> r == Response(500, Error(FetchFailed))
    ensures !fault ==> r.status == 200 && r.body.Records? && r.body.entries == Query(db, Where(status))
    ensures Consistent(db) && !fault ==>
      && NewestFirst(r.body.entries)
      && DistinctIds(r.body.entries)
      && (forall e :: e in r.body.entries <==>
            e.id in db.table && db.table[e.id] == e.todo && Matches(Where(status), e.todo))
  {
    if fault then Response(500, Error(FetchFailed))
    else
      assert Consistent(db) ==> NewestFirst(Query(db, Where(status))) by {
        if Consistent(db) { ListExact(db, status); }
      }
      assert Consistent(db) ==> DistinctIds(Query(db, Where(status))) by {
        if Consistent(db) { ListExact(db, status); }
      }
      assert Consistent(db) ==> forall e :: e in Query(db, Where(status)) <==>
        e.id in db.table && db.table[e.id] == e.todo && Matches(Where(status), e.todo) by {
        if Consistent(db) { ListExact(db, status); }
      }
      Response(200, Records(Query(db, Where(status))))
  }

  // ---------------------------------------------------------------------------
  // POST /api/todos

  /** The create handler. A missing or falsy title is refused with 400 before
      anything else; a truthy title that is not a string makes `title.trim()`
      throw, which the handler reports as 500; a string title that is blank
      after trimming is refused with 400; otherwise a record with the trimmed
      title, `completed == false` and a fresh id is added and returned with 201. */
  function CreateTodo(db: Db, title: Json, now: nat, fault: bool): (h: Handled)
    ensures h.response.status in {201, 400, 500}
    ensures h.response.status == 400 <==> !Truthy(title) || (title.Str? && Trim(title.s) == "")
    ensures h.response.status == 201 <==> title.Str? && Trim(title.s) != "" && !fault
    ensures h.response.status != 201 ==> h.db == db
    ensures h.response.status == 400 ==> h.response.body == Error(TitleRequired)
    ensures h.response.status == 500 ==> h.response.body == Error(CreateFailed)
    ensures h.response.status == 201 ==>
      var e := Entry(db.nextId, Todo(Trim(title.s), false, now));
      && h.response.body == Record(e)
      && h.db.table == db.table[e.id := e.todo]
      && h.db.nextId == db.nextId + 1
    ensures Consistent(db) && h.response.status == 201 ==>
      db.nextId !in db.table && |h.db.table| == |db.table| + 1
    ensures Consistent(db) ==> Consistent(h.db)
  {
    if !Truthy(title) then Handled(Response(400, Error(TitleRequired)), db)
    else if !title.Str? then Handled(Response(500, Error(CreateFailed)), db)
    else if Trim(title.s) == "" then Handled(Response(400, Error(TitleRequired)), db)
    else if fault then Handled(Response(500, Error(CreateFailed)), db)
    else
      var e := Entry(db.nextId, Todo(Trim(title.s), false, now));
      assert db.table.Keys + {e.id} == db.table[e.id := e.todo].Keys;
      Handled(Response(201, Record(e)), Db(db.table[e.id := e.todo], db.nextId + 1))
  }

  // ---------------------------------------------------------------------------
  // PATCH /api/todos/:id

  /** The `updates` object: the fields to `$set`, each one optional. */
  datatype Updates = Updates(title: Option<string>, completed: Option<bool>)

  /** What `findByIdAndUpdate` stores: the supplied fields replaced, the rest kept. */
  function Apply(t: Todo, u: Updates): Todo {
    Todo(if u.title.Some? then u.title.value else t.title,
         if u.completed.Some? then u.completed.value else t.completed,
         t.createdAt)
  }

  predicate BlankTitle(title: Json) {
    title.Str? && Trim(title.s) == ""
  }

  /** The update handler. A string title that is blank after trimming is refused
      with 400 before the id is looked up; otherwise a string title is applied
      trimmed and a boolean `completed` is applied, and values of any other type
      are ignored. An unknown id gives 404. Only the addressed record changes. */
  function UpdateTodo(db: Db, id: Id, title: Json, completed: Json, fault: bool): (h: Handled)
    ensures h.response.status in {200, 400, 404, 500}
    ensures h.response.status == 400 <==> BlankTitle(title)
    ensures h.response.status == 500 <==> !BlankTitle(title) && fault
    ensures h.response.status == 404 <==> !BlankTitle(title) && !fault && id !in db.table
    ensures h.response.status != 200 ==> h.db == db
    ensures h.response.status == 400 ==> h.response.body == Error(TitleEmpty)
    ensures h.response.status == 404 ==> h.response.body == Error(NotFound)
    ensures h.response.status == 500 ==> h.response.body == Error(UpdateFailed)
    ensures h.response.status == 200 ==>
      && id in db.table
      && h.db.nextId == db.nextId
      && h.db.table.Keys == db.table.Keys
      && (forall other :: other in db.table && other != id ==> h.db.table[other] == db.table[other])
      && var before, after := db.table[id], h.db.table[id];
         && after.title == (if title.Str? then Trim(title.s) else before.title)
         && after.completed == (if completed.Bool? then completed.b else before.completed)
         && after.createdAt == before.createdAt
         && h.response.body == Record(Entry(id, after))
    ensures Consistent(db) ==> Consistent(h.db)
  {
    if BlankTitle(title) then Handled(Response(400, Error(TitleEmpty)), db)
    else
      var u := Updates(if title.Str? then Some(Trim(title.s)) else None,
                       if completed.Bool? then Some(completed.b) else None);
      if fault then Handled(Response(500, Error(UpdateFailed)), db)
      else if id !in db.table then Handled(Response(404, Error(NotFound)), db)
      else
        var t := Apply(db.table[id], u);
        assert Consistent(db) ==> ValidTitle(t.title);
        Handled(Response(200, Record(Entry(id, t))), Db(db.table[id := t], db.nextId))
  }

  // ---------------------------------------------------------------------------
  // DELETE /api/todos/:id

  /** The delete handler: 404 for an unknown id, else the record is gone. */
  function DeleteTodo(db: Db, id: Id, fault: bool): (h: Handled)
    ensures h.response.status in {200, 404, 500}
    ensures h.response.status == 500 <==> fault
    ensures h.response.status == 404 <==> !fault && id !in db.table
    ensures h.response.status != 200 ==> h.db == db
    ensures h.response.status == 404 ==> h.response.body == Error(NotFound)
    ensures h.response.status == 500 ==> h.response.body == Error(DeleteFailed)
    ensures h.response.status == 200 ==>
      && h.response.body == Deleted
      && h.db.table == db.table - {id}
      && h.db.nextId == db.nextId
      && |h.db.table| == |db.table| - 1
    ensures Consistent(db) ==> Consistent(h.db)
  {
    if fault then Handled(Response(500, Error(DeleteFailed)), db)
    else if id !in db.table then Handled(Response(404, Error(NotFound)), db)
    else
      assert db.table.Keys == (db.table - {id}).Keys + {id};
      Handled(Response(200, Deleted), Db(db.table - {id}, db.nextId))
  }

  /** A second delete of the same id finds nothing. */
  lemma DeleteTwice(db: Db, id: Id, fault: bool)
    requires DeleteTodo(db, id, false).response.status == 200
    ensures var again := DeleteTodo(DeleteTodo(db, id, false).db, id, fault);
      again.response == (if fault then Response(500, Error(DeleteFailed)) else Response(404, Error(NotFound)))
  {
  }

  // ---------------------------------------------------------------------------
  // DELETE /api/todos

  function CompletedIds(table: map<Id, Todo>): set<Id> {
    set id | id in table && table[id].completed
  }

  function Incomplete(table: map<Id, Todo>): map<Id, Todo> {
    map id | id in table && !table[id].completed :: table[id]
  }

  /** `deleteMany({ completed: true })`: the records kept are exactly the
      incomplete ones, and the count removed is the number of completed ones. */
  lemma ClearSplits(table: map<Id, Todo>)
    ensures Incomplete(table).Keys + CompletedIds(table) == table.Keys
    ensures |table| == |Incomplete(table)| + |CompletedIds(table)|
    ensures |CompletedIds(table)| == 0 <==> forall id :: id in table ==> !table[id].completed
  {
  }

  /** The clear-completed handler: removes every completed record and reports
      how many went; zero is a normal answer. */
  function ClearCompleted(db: Db, fault: bool): (h: Handled)
    ensures fault ==> h == Handled(Response(500, Error(ClearFailed)), db)
    ensures !fault ==>
      && h.response.status == 200
      && h.db.nextId == db.nextId
      && (forall id :: id in h.db.table <==> id in db.table && !db.table[id].completed)
      && (forall id :: id in h.db.table ==> h.db.table[id] == db.table[id])
      && |h.db.table| <= |db.table|
      && h.response.body == Cleared(|db.table| - |h.db.table|)
      && (h.response.body.deletedCount == 0 <==> forall id :: id in db.table ==> !db.table[id].completed)
    ensures Consistent(db) ==> Consistent(h.db)
  {
    if fault then Handled(Response(500, Error(ClearFailed)), db)
    else
      ClearSplits(db.table);
      Handled(Response(200, Cleared(|CompletedIds(db.table)|)), Db(Incomplete(db.table), db.nextId))
  }

  // ---------------------------------------------------------------------------
  // Properties that span several handlers

  /** Filtering commutes with the stable newest-first sort, one insertion at a time. */
  lemma {:induction false} FilterInsert(e: Entry, s: seq<Entry>, p: Entry -> bool)
    requires NewestFirst(s)
    ensures Filter(Insert(e, s), p) == if p(e) then Insert(e, Filter(s, p)) else Filter(s, p)
  {
    if s == [] || s[0].todo.createdAt <= e.todo.createdAt {
      FilterInsertFront(e, s, p);
    } else {
      assert NewestFirst(s[1..]);
      FilterInsert(e, s[1..], p);
      FilterInsertBehind(e, s, p);
    }
  }

  /** `e` goes first, and it still goes first among the filtered records. */
  lemma FilterInsertFront(e: Entry, s: seq<Entry>, p: Entry -> bool)
    requires NewestFirst(s)
    requires s == [] || s[0].todo.createdAt <= e.todo.createdAt
    ensures Filter(Insert(e, s), p) == if p(e) then Insert(e, Filter(s, p)) else Filter(s, p)
  {
    assert Insert(e, s) == [e] + s;
    assert ([e] + s)[1..] == s;
    var f := Filter(s, p);
    if p(e) && f != [] {
      assert f[0] in s;
      var k :| 0 <= k < |s| && s[k] == f[0];
      assert s[0].todo.createdAt >= s[k].todo.createdAt;
    }
  }

  /** `s[0]` is newer than `e`, so it stays in front whether or not it is filtered out. */
  lemma FilterInsertBehind(e: Entry, s: seq<Entry>, p: Entry -> bool)
    requires s != [] && s[0].todo.createdAt > e.todo.createdAt
    requires Filter(Insert(e, s[1..]), p) == if p(e) then Insert(e, Filter(s[1..], p)) else Filter(s[1..], p)
    ensures Filter(Insert(e, s), p) == if p(e) then Insert(e, Filter(s, p)) else Filter(s, p)
  {
  }

  lemma {:induction false} FilterSort(s: seq<Entry>, p: Entry -> bool)
    ensures Filter(SortNewestFirst(s), p) == SortNewestFirst(Filter(s, p))
  {
    if s != [] {
      FilterSort(s[1..], p);
      FilterInsert(s[0], SortNewestFirst(s[1..]), p);
    }
  }

  lemma {:induction false} FilterAll(s: seq<Entry>)
    ensures Filter(s, Selects(None)) == s
  {
    if s != [] {
      FilterAll(s[1..]);
    }
  }

  /** Filtering by status never reorders: the "active" and "completed" lists
      are the unfiltered list with the other records taken out. */
  lemma ListKeepsOrder(db: Db, status: Option<string>)
    ensures Query(db, Where(status)) == Filter(Query(db, None), Selects(Where(status)))
  {
    var n := Natural(db.table, db.nextId);
    FilterAll(n);
    FilterSort(n, Selects(Where(status)));
  }

  /** Marking a record complete moves it from the active list to the completed list. */
  lemma CompletedMovesLists(db: Db, id: Id)
    requires Consistent(db)
    requires UpdateTodo(db, id, Missing, Bool(true), false).response.status == 200
    ensures var after := UpdateTodo(db, id, Missing, Bool(true), false).db;
      && Entry(id, after.table[id]) in Query(after, Where(Some("completed")))
      && (forall e :: e in Query(after, Where(Some("active"))) ==> e.id != id)
  {
  }

  /** A created record is listed once, with its trimmed title, as not completed. */
  lemma CreatedIsListed(db: Db, title: string, now: nat)
    requires Consistent(db)
    requires Trim(title) != ""
    ensures var h := CreateTodo(db, Str(title), now, false);
      && h.response.status == 201
      && Entry(db.nextId, Todo(Trim(title), false, now)) in Query(h.db, Where(Some("active")))
      && Entry(db.nextId, Todo(Trim(title), false, now)) in Query(h.db, None)
  {
  }

  // ---------------------------------------------------------------------------

  /** The running server's collection: the handlers update it in place. */
  class TodoStore {
    var table: map<Id, Todo>
    var nextId: Id

    ghost function State(): Db
      reads this
    {
      Db(table, nextId)
    }

    ghost predicate Valid()
      reads this
    {
      Consistent(State())
    }

    constructor ()
      ensures Valid() && table == map[] && nextId == 0
    {
      table := map[];
      nextId := 0;
    }

    /** GET /api/todos */
    method List(status: Option<string>, fault: bool) returns (r: Response)
      requires Valid()
      ensures r == ListTodos(State(), status, fault)
    {
      var w := None;
      if status == Some("active") { w := Some(false); }
      if status == Some("completed") { w := Some(true); }
      if fault {
        return Response(500, Error(FetchFailed));
      }
      var todos := SortNewestFirst(Filter(Natural(table, nextId), Selects(w)));
      r := Response(200, Records(todos));
    }

    /** POST /api/todos */
    method Create(title: Json, now: nat, fault: bool) returns (r: Response)
      requires Valid()
      modifies this
      ensures Valid()
      ensures Handled(r, State()) == CreateTodo(old(State()), title, now, fault)
    {
      if !Truthy(title) {
        return Response(400, Error(TitleRequired));
      }
      if !title.Str? {
        // `title.trim` is not a function: the TypeError lands in the catch.
        return Response(500, Error(CreateFailed));
      }
      var trimmed := Trim(title.s);
      if trimmed == "" {
        return Response(400, Error(TitleRequired));
      }
      if fault {
        return Response(500, Error(CreateFailed));
      }
      var todo := Todo(trimmed, false, now);
      var id := nextId;
      table := table[id := todo];
      nextId := nextId + 1;
      r := Response(201, Record(Entry(id, todo)));
    }

    /** PATCH /api/todos/:id */
    method Update(id: Id, title: Json, completed: Json, fault: bool) returns (r: Response)
      requires Valid()
      modifies this
      ensures Valid()
      ensures Handled(r, State()) == UpdateTodo(old(State()), id, title, completed, fault)
    {
      var updates := Updates(None, None);
      if title.Str? {
        var trimmed := Trim(title.s);
        if trimmed == "" {
          return Response(400, Error(TitleEmpty));
        }
        updates := updates.(title := Some(trimmed));
      }
      if completed.Bool? {
        updates := updates.(completed := Some(completed.b));
      }
      if fault {
        return Response(500, Error(UpdateFailed));
      }
      if id !in table {
        return Response(404, Error(NotFound));
      }
      var todo := Apply(table[id], updates);
      table := table[id := todo];
      r := Response(200, Record(Entry(id, todo)));
    }

    /** DELETE /api/todos/:id */
    method Delete(id: Id, fault: bool) returns (r: Response)
      requires Valid()
      modifies this
      ensures Valid()
      ensures Handled(r, State()) == DeleteTodo(old(State()), id, fault)
    {
      if fault {
        return Response(500, Error(DeleteFailed));
      }
      if id !in table {
        return Response(404, Error(NotFound));
      }
      table := table - {id};
      r := Response(200, Deleted);
    }

    /** DELETE /api/todos */
    method DeleteCompleted(fault: bool) returns (r: Response)
      requires Valid()
      modifies this
      ensures Valid()
      ensures Handled(r, State()) == ClearCompleted(old(State()), fault)
    {
      if fault {
        return Response(500, Error(ClearFailed));
      }
      var deletedCount := |CompletedIds(table)|;
      table := Incomplete(table);
      r := Response(200, Cleared(deletedCount));
    }
  }
}
