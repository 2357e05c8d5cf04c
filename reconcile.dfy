/** How the client's optimistic list relates to the store: each optimistic
    transform shows exactly what the matching store handler commits, a refused
    request leaves the store as it was (so putting back the previous list puts
    back a faithful picture), and the store's error text is what the client shows. */
module Reconcile {
  import opened Todos
  import opened Text
  import Store
  import opened Client

  /** Every entry of the client's list shows a stored record as it is stored.
      (The list may show fewer records than are stored: it is filtered.) */
  predicate Mirrors(s: seq<Entry>, table: map<Id, Todo>) {
    forall i :: 0 <= i < |s| ==> s[i].id in table && table[s[i].id] == s[i].todo
  }

  /** A list the store sends mirrors the store, and a list loaded for the
      "active" ("completed") tab counts no completed (active) entry. */
  lemma LoadedListMirrors(db: Store.Db, status: Option<string>)
    requires Store.Consistent(db)
    ensures var r := Store.Query(db, Store.Where(status));
      && Mirrors(r, db.table)
      && (status == Some("active") ==> Tally(r).completed == 0 && Tally(r).active == |r|)
      && (status == Some("completed") ==> Tally(r).active == 0 && Tally(r).completed == |r|)
  {
    Store.ListExact(db, status);
  }

  /** The three tabs send `status=all`, `status=active` and `status=completed`
      (`App.Load` reports the `filter` it sends). "all" is no constraint, so that
      tab receives every stored record; the other two receive exactly the records
      of their kind. */
  lemma TabLists(db: Store.Db, f: string)
    requires Store.Consistent(db)
    requires f in {"all", "active", "completed"}
    ensures var r := Store.Query(db, Store.Where(Some(f)));
      forall e :: e in r <==>
        e.id in db.table && db.table[e.id] == e.todo && (f == "all" || e.todo.completed == (f == "completed"))
  {
    Store.ListExact(db, Some(f));
  }

  /** `toggleTodo` sends `{ completed }`. Whatever the store answers, the list the
      client ends with mirrors the store: on 200 the optimistic list is exactly
      what was committed, and the record returned agrees with every entry the
      client changed; on 404, or on 500 when the database fails, nothing was
      stored and the old list the client puts back is still a mirror. */
  lemma ToggleAgrees(s: seq<Entry>, db: Store.Db, id: Id, completed: bool, fault: bool)
    requires Mirrors(s, db.table)
    ensures var h := Store.UpdateTodo(db, id, Missing, Bool(completed), fault);
      && h.response.status in {200, 404, 500}
      && (h.response.status == 200 ==>
            Mirrors(Toggled(s, id, completed), h.db.table)
            && forall i :: 0 <= i < |s| && s[i].id == id ==> Toggled(s, id, completed)[i] == h.response.body.entry)
      && (h.response.status != 200 ==> h.db == db && Mirrors(s, h.db.table))
  {
  }

  /** `renameTodo` sends the trimmed title, which the store trims again to the
      same string, so it is never refused as blank; on 200 the optimistic list
      is exactly what was committed; on 404 or 500 nothing was stored. */
  lemma RenameAgrees(s: seq<Entry>, db: Store.Db, id: Id, title: string, fault: bool)
    requires Mirrors(s, db.table)
    requires Trim(title) != ""
    ensures var h := Store.UpdateTodo(db, id, Str(Trim(title)), Missing, fault);
      && h.response.status in {200, 404, 500}
      && (h.response.status == 200 ==>
            Mirrors(Renamed(s, id, Trim(title)), h.db.table)
            && forall i :: 0 <= i < |s| && s[i].id == id ==> Renamed(s, id, Trim(title))[i] == h.response.body.entry)
      && (h.response.status != 200 ==> h.db == db && Mirrors(s, h.db.table))
  {
  }

  /** `deleteTodo`: on 200 the optimistic list, with the entry gone, mirrors
      the store, in which the record is gone too; on 404 or 500 nothing was
      removed and the old list the client puts back is still a mirror. */
  lemma DeleteAgrees(s: seq<Entry>, db: Store.Db, id: Id, fault: bool)
    requires Mirrors(s, db.table)
    ensures var h := Store.DeleteTodo(db, id, fault);
      && h.response.status in {200, 404, 500}
      && (h.response.status == 200 ==> Mirrors(Without(s, id), h.db.table))
      && (h.response.status != 200 ==> h.db == db && Mirrors(s, h.db.table))
  {
  }

  /** `addTodo` sends the trimmed text, which the store never refuses as missing
      or blank: it answers 201, or 500 when the database fails. On 201 putting
      the returned record in front of the list keeps the list a mirror of the
      store; on 500 nothing was stored and the list is left as it was. */
  lemma AddAgrees(s: seq<Entry>, db: Store.Db, text: string, now: nat, fault: bool)
    requires Store.Consistent(db)
    requires Mirrors(s, db.table)
    requires Trim(text) != ""
    ensures var h := Store.CreateTodo(db, Str(Trim(text)), now, fault);
      && h.response.status == (if fault then 500 else 201)
      && (h.response.status == 201 ==>
            h.response.body.entry == Entry(db.nextId, Todo(Trim(text), false, now))
            && Mirrors([h.response.body.entry] + s, h.db.table))
      && (h.response.status == 500 ==> h.db == db && Mirrors(s, h.db.table))
  {
  }

  /** A refusal's `error` is a non-empty string, so `api` throws with exactly
      that text rather than falling back to "Request failed". */
  predicate ShownAsSent(r: Store.Response) {
    r.body.Error? ==> r.body.message != "" && Api<Entry>(NotOk(Some(r.body.message))) == Failure(r.body.message)
  }

  /** The list handler's one refusal, "Failed to fetch todos", reaches the user as sent. */
  lemma ListRefusalShown(db: Store.Db, status: Option<string>, fault: bool)
    ensures ShownAsSent(Store.ListTodos(db, status, fault))
  {
  }

  /** "Title is required" and "Failed to create todo" reach the user as sent. */
  lemma CreateRefusalShown(db: Store.Db, title: Json, now: nat, fault: bool)
    ensures ShownAsSent(Store.CreateTodo(db, title, now, fault).response)
  {
  }

  /** "Title cannot be empty", "Todo not found" and "Failed to update todo"
      reach the user as sent. */
  lemma UpdateRefusalShown(db: Store.Db, id: Id, title: Json, completed: Json, fault: bool)
    ensures ShownAsSent(Store.UpdateTodo(db, id, title, completed, fault).response)
  {
  }

  /** "Todo not found" and "Failed to delete todo" reach the user as sent. */
  lemma DeleteRefusalShown(db: Store.Db, id: Id, fault: bool)
    ensures ShownAsSent(Store.DeleteTodo(db, id, fault).response)
  {
  }

  /** "Failed to clear completed" reaches the user as sent. */
  lemma ClearRefusalShown(db: Store.Db, fault: bool)
    ensures ShownAsSent(Store.ClearCompleted(db, fault).response)
  {
  }

  /** Every refusal any handler of the store sends, for any input, carries a
      non-empty `error`, so the client shows the store's own text. */
  lemma RefusalTextShown(db: Store.Db, id: Id, title: Json, completed: Json, status: Option<string>,
                         now: nat, fault: bool)
    ensures ShownAsSent(Store.ListTodos(db, status, fault))
    ensures ShownAsSent(Store.CreateTodo(db, title, now, fault).response)
    ensures ShownAsSent(Store.UpdateTodo(db, id, title, completed, fault).response)
    ensures ShownAsSent(Store.DeleteTodo(db, id, fault).response)
    ensures ShownAsSent(Store.ClearCompleted(db, fault).response)
  {
    ListRefusalShown(db, status, fault);
    CreateRefusalShown(db, title, now, fault);
    UpdateRefusalShown(db, id, title, completed, fault);
    DeleteRefusalShown(db, id, fault);
    ClearRefusalShown(db, fault);
  }
}
