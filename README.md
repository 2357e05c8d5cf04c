# todo-fullstack, modelled in Dafny

A model of a small task-list application. It has two halves:

- **the server** (`server/server.js`): five `/api/todos` route handlers over a
  persisted collection of todo records (`title`, `completed`, `createdAt`);
- **the browser client** (`client/src/App.jsx`): the `App` component's list
  snapshot, input text and error banner. It changes the list optimistically and
  puts back the previous list when a request fails. The `TodoItem` row component
  has a viewing/editing state and a draft title.

Files:

- `text.dfy` (module `Text`): JavaScript's `String.prototype.trim`. It removes the
  full ECMAScript white-space and line-terminator set. The module proves that the
  result is the input minus surrounding white space, that trimming is idempotent,
  and that a trimmed string is empty exactly when the input was all white space.
- `seqs.dfy` (module `Seqs`): `Array.prototype.filter`. Proved: membership and
  multiset counts (every passing occurrence is kept, every other one dropped),
  order preservation (subsequence, and preservation of any before/after relation),
  that a filtered list's length is a one-by-one count of the passing elements,
  and that a filter and its negation split the list.
- `todos.dfy` (module `Todos`): the record, the list entry (`_id` plus record) and
  the JSON field values a request body can carry. Field values keep JavaScript
  truthiness and `typeof` exact.
- `store.dfy` (module `Store`): each handler as a pure function from the collection
  and the request to a response (status and body) and the new collection. Each
  function carries its own properties. Lemmas cover properties that span handlers.
  The class `TodoStore` holds the collection as a `map` field and runs the handlers
  step by step. Its methods are proved equal to those functions and keep the store
  invariant: every stored id was already handed out, and no stored title is blank
  or untrimmed.
- `client.dfy` (module `Client`): the `api` error rule, the list transforms
  (`map` for toggle and rename, `filter` for delete, `counts`) and the class `App`.
  `App` has one method per handler. The network reply is a parameter of the method,
  so success and failure are both covered.
- `item.dfy` (module `Item`): the class `TodoItem` and its event handlers.
- `reconcile.dfy` (module `Reconcile`): lemmas that join the two halves. Each
  optimistic change equals what the store commits on success. On refusal the store
  is unchanged, so restoring the captured list restores a faithful picture. The
  store's error text is what the client shows.

Modelling choices:

- Ids are natural numbers handed out from a counter, so an id is never reused.
- `createdAt` is the clock reading `now`, passed to the create handler.
- A failure of the database is the boolean parameter `fault`. Each handler then
  answers 500 with its own message and changes nothing.
- `find` returns records in insertion order (ascending id). `sort({createdAt: -1})`
  is a stable newest-first insertion sort.
- In these cases the model follows the code exactly:
  - `POST` with a truthy title that is not a string (a number, `true`, an object)
    answers 500, not 400: `title.trim` is not a function, and the resulting
    `TypeError` is caught by the handler's `catch`.
  - `PATCH` with a `completed` that is not a boolean, or a `title` that is not a
    string, ignores that field. It answers 200 with the record otherwise
    unchanged, not 400.
  - The row calls `onRename` even with a blank draft. `renameTodo` then ignores
    it, and the row's draft stays blank.

## Model

| member | source | states |
|---|---|---|
| `Text.SkipStart` | server/server.js:49 | where `trim` starts keeping characters: everything skipped is white space, and the character there is not |
| `Text.SkipEnd` | server/server.js:49 | where `trim` stops keeping characters: everything after it is white space, and the character before it is not |
| `Text.Trim` | server/server.js:49 | `title.trim()` is no longer than its input and neither starts nor ends with white space |
| `Text.TrimIsInfix` | server/server.js:50 | what `trim` keeps is one contiguous piece of the input, and what it cuts off on both sides is white space |
| `Text.TrimOfTrimmed` | server/server.js:64 | a string that is already trimmed is unchanged by `trim` |
| `Text.TrimIdempotent` | server/server.js:63-64 | the title the client trims and sends is trimmed to the same string by the server |
| `Text.TrimBlank` | server/server.js:49 | `!title.trim()` holds exactly for titles made only of white space |
| `Seqs.Filter` | client/src/App.jsx:49 | `filter` keeps every occurrence of each element that satisfies the predicate and drops every other one (multiset counts), so it never lengthens the list |
| `Seqs.FilterIsSubseq` | client/src/App.jsx:49 | `filter` keeps the surviving elements in their original order |
| `Seqs.FilterKeepsPairwise` | server/server.js:36-39 | any before/after relation between the elements survives filtering, so the status filter never reorders |
| `Seqs.FilterCount` | client/src/App.jsx:65-66 | a filtered list's `length` is the number of elements that satisfy the predicate, counted one by one |
| `Seqs.FilterSplits` | client/src/App.jsx:63-67 | a predicate and its negation split a list: the two filtered lengths add up to its length |
| `Store.Where` | server/server.js:36-38 | the query filter is `completed: false` exactly for "active", `completed: true` exactly for "completed", and no constraint for any other or absent status |
| `Store.Natural` | server/server.js:39 | the records `find` visits: every stored record exactly once, in ascending id order |
| `Store.Insert` | server/server.js:39 | one insertion step of the newest-first sort adds the record and loses nothing |
| `Store.InsertNewestFirst` | server/server.js:39 | an insertion step keeps a newest-first list newest first |
| `Store.InsertDistinct` | server/server.js:39 | an insertion step keeps ids distinct when the new id is not already present |
| `Store.SortNewestFirst` | server/server.js:39 | `sort({ createdAt: -1 })` returns a permutation of its input ordered by `createdAt` descending |
| `Store.SortDistinct` | server/server.js:39 | sorting keeps ids distinct |
| `Store.ListTodos` | server/server.js:33-44 | the list handler answers 500 with "Failed to fetch todos" when the query fails, else 200 with exactly the stored records the status selects, each once, newest first |
| `Store.ListExact` | server/server.js:35-39 | the list holds exactly the stored records the status selects, each once, newest first |
| `Store.FilterInsert` | server/server.js:39 | filtering commutes with one insertion step of the stable sort |
| `Store.FilterInsertFront` | server/server.js:39 | the insertion case where the new record goes first |
| `Store.FilterInsertBehind` | server/server.js:39 | the insertion case where a newer record stays in front |
| `Store.FilterSort` | server/server.js:36-39 | filter-then-sort equals sort-then-filter |
| `Store.FilterAll` | server/server.js:36 | the empty filter `{}` keeps every record |
| `Store.ListKeepsOrder` | server/server.js:36-39 | the "active" and "completed" lists are the unfiltered list with the other records taken out, in the same order |
| `Store.CreateTodo` | server/server.js:46-55 | 400 exactly for a falsy title or one blank after trimming; 201 exactly for a non-blank string with no fault, adding one record under a fresh id with the trimmed title and `completed == false`; every other outcome changes nothing; a 400 carries "Title is required" and a 500 "Failed to create todo"; the store invariant is kept |
| `Store.UpdateTodo` | server/server.js:57-73 | 400 exactly for a string title that is blank after trimming, whatever the id; then 500 on fault, 404 for an unknown id; on 200 the trimmed title is applied only if it is a string and `completed` only if it is a boolean; other fields and other records are unchanged; refusals change nothing and carry "Title cannot be empty" (400), "Todo not found" (404) or "Failed to update todo" (500) |
| `Store.DeleteTodo` | server/server.js:75-84 | 404 exactly for an unknown id (with no fault), else the record is removed and nothing else; refusals change nothing and carry "Todo not found" (404) or "Failed to delete todo" (500) |
| `Store.DeleteTwice` | server/server.js:78-79 | deleting the same id a second time answers 404 |
| `Store.ClearSplits` | server/server.js:88-89 | the records kept and the completed ones split the collection, and the completed count is zero exactly when none is completed |
| `Store.ClearCompleted` | server/server.js:86-93 | removes exactly the completed records, keeps the rest unchanged, and answers 200 with `deletedCount` equal to the number removed, zero exactly when none was completed; a database failure answers 500 with "Failed to clear completed" and changes nothing |
| `Store.CompletedMovesLists` | server/server.js:33-73 | after `{ completed: true }` is applied, the record is in the "completed" list and not in the "active" list |
| `Store.CreatedIsListed` | server/server.js:33-55 | a created record appears in the unfiltered and the "active" lists with its trimmed title |
| `Store.TodoStore.constructor` | server/server.js:24-28 | an empty collection satisfies the store invariant |
| `Store.TodoStore.List` | server/server.js:33-44 | the GET handler answers as `ListTodos` on the current collection |
| `Store.TodoStore.Create` | server/server.js:46-55 | the POST handler's response and new collection are those of `CreateTodo`, and the invariant is kept |
| `Store.TodoStore.Update` | server/server.js:57-73 | the PATCH handler builds `updates` field by field, and its response and new collection are those of `UpdateTodo` |
| `Store.TodoStore.Delete` | server/server.js:75-84 | the DELETE-by-id handler's response and new collection are those of `DeleteTodo` |
| `Store.TodoStore.DeleteCompleted` | server/server.js:86-93 | the DELETE-all-completed handler's response and new collection are those of `ClearCompleted` |
| `Client.Api` | client/src/App.jsx:5-9 | a 2xx reply yields its body; a refusal fails with the body's `error` when that is a non-empty string, else with "Request failed", so its message is never empty; a failed request fails with its own message |
| `Client.Toggled` | client/src/App.jsx:42 | same length and order; entries with the id take the new `completed`; all other fields and all other entries are unchanged |
| `Client.Renamed` | client/src/App.jsx:58 | same length and order; entries with the id take the new title; all other fields and all other entries are unchanged |
| `Client.Without` | client/src/App.jsx:49 | every entry with that id goes; every entry with another id remains, as often as it occurred, in its original order |
| `Client.Tally` | client/src/App.jsx:63-67 | `active` is the number of entries not completed and `completed` the number completed; `all == active + completed == todos.length`; `completed` is zero exactly when no entry is completed, `active` exactly when every entry is |
| `Client.App.constructor` | client/src/App.jsx:12-16 | the initial state: empty list, empty input, filter "all", loading, no error |
| `Client.App.Load` | client/src/App.jsx:18-26 | the request asks for `status` equal to the current filter; a success replaces the list wholesale and leaves no error; a failure keeps the list and shows the message; loading ends either way |
| `Client.App.SetFilter` | client/src/App.jsx:28 | the list is reloaded exactly when the selected filter differs from the current one |
| `Client.App.ChangeText` | client/src/App.jsx:74 | typing changes only the input text |
| `Client.App.AddTodo` | client/src/App.jsx:30-38 | blank text sends nothing and changes nothing; otherwise the trimmed text is sent; on success the returned record is prepended and the input cleared; on failure only the error changes |
| `Client.App.ToggleTodo` | client/src/App.jsx:40-45 | the toggled list is shown at once; on success it stays; on failure the exact prior list is restored and the error shown |
| `Client.App.DeleteTodo` | client/src/App.jsx:47-52 | the list without the entry is shown at once; on success it stays; on failure the exact prior list is restored and the error shown |
| `Client.App.RenameTodo` | client/src/App.jsx:54-61 | a blank title sends nothing and changes nothing; otherwise the trimmed title is shown at once and sent; on failure the exact prior list is restored and the error shown |
| `Item.TodoItem.constructor` | client/src/App.jsx:107-108 | a new row is viewing, with the record's title as its draft |
| `Item.TodoItem.DoubleClick` | client/src/App.jsx:126 | double-clicking switches to editing and keeps the draft |
| `Item.TodoItem.Change` | client/src/App.jsx:121 | typing while editing replaces the draft |
| `Item.TodoItem.KeyDown` | client/src/App.jsx:112-115 | Enter asks for `onRename(id, draft)` and returns to viewing; Escape returns to viewing with the draft reset to the title and no call; other keys change nothing |
| `Item.TodoItem.Blur` | client/src/App.jsx:122 | leaving the box asks for `onRename(id, draft)` and returns to viewing |
| `Item.TodoItem.Receive` | client/src/App.jsx:110 | a new record resets the draft exactly when its title differs from the previous one |
| `Reconcile.TabLists` | client/src/App.jsx:22 | the "all" tab receives every stored record, the "active" and "completed" tabs exactly the stored records of their kind |
| `Reconcile.LoadedListMirrors` | client/src/App.jsx:22-23 | a loaded list shows stored records as stored; the "active" list counts no completed entry and the "completed" list no active one |
| `Reconcile.ToggleAgrees` | client/src/App.jsx:40-45 | the store answers a toggle with 200, 404, or 500 when the database fails; on 200 the optimistic list is exactly what was committed and equals the returned record; on 404 or 500 nothing was stored and the restored list is faithful |
| `Reconcile.RenameAgrees` | client/src/App.jsx:54-61 | a rename the client sends is never refused as blank: the store answers 200, 404, or 500 when the database fails; on 200 the optimistic list is exactly what was committed; on 404 or 500 nothing was stored |
| `Reconcile.DeleteAgrees` | client/src/App.jsx:47-52 | the store answers 200, 404, or 500 when the database fails; on 200 the list without the entry mirrors the store; on 404 or 500 nothing was removed |
| `Reconcile.AddAgrees` | client/src/App.jsx:30-38 | the trimmed text the client sends is never refused as missing or blank: the store answers 201, or 500 when the database fails; on 201 prepending the returned record keeps the list a mirror of the store; on 500 nothing was stored |
| `Reconcile.ListRefusalShown` | server/server.js:42 | the list handler's refusal text is non-empty, so the client shows it as sent |
| `Reconcile.CreateRefusalShown` | server/server.js:49-53 | the create handler's refusal texts are non-empty, so the client shows them as sent |
| `Reconcile.UpdateRefusalShown` | server/server.js:63-71 | the update handler's refusal texts are non-empty, so the client shows them as sent |
| `Reconcile.DeleteRefusalShown` | server/server.js:79-82 | the delete handler's refusal texts are non-empty, so the client shows them as sent |
| `Reconcile.ClearRefusalShown` | server/server.js:91 | the clear handler's refusal text is non-empty, so the client shows it as sent |
| `Reconcile.RefusalTextShown` | client/src/App.jsx:7 | for every input, each refusal any of the five handlers sends carries a non-empty `error`, so the client shows exactly that text |

## Left out

- Process bootstrapping is not modelled: environment loading, CORS, the JSON body
  parser, the Mongo connection and exit on failure, and `app.listen`
  (server/server.js:1-21, 95).
- The `/api/health` route (server/server.js:31) is not modelled; it only answers
  a constant.
- `updatedAt` is not modelled. It is Mongo bookkeeping that no handler reads.
- A malformed id (a Mongo `CastError`) is not a separate case. It lands in the
  handler's `catch` like any other database error, so it is covered by `fault`
  (500, nothing changes).
- JSON numbers are integers in the model. Only whether a value is zero matters to
  the truthiness test.
- `Client.Api`: a non-string `error` field in a refusal is not modelled; the field
  is an optional string. A body that is not JSON, and a request that never
  reaches the server, both become `Thrown` with the runtime's message.
- React scheduling is not modelled: effects, memoisation, and functional
  `setTodos` updaters. The model is sequential. Each handler runs to completion
  with the reply to its own request. Overlapping requests, and the stale restore
  they can cause, are a concurrency artefact outside the model.
- `Client.App.ToggleTodo`, `Client.App.DeleteTodo`, `Client.App.RenameTodo`: the
  list shown while a request is in flight is given as a ghost result, not as a
  separate step.
- Rendering and styling are not modelled (client/src/App.jsx:69-103, 117-135).
  Neither is the visual use of `loading`; the flag itself is modelled.
- `Item.TodoItem.Blur`: whether the browser also fires `blur` when Enter removes
  the edit box is not modelled. The model gives one call per commit.
- Mongo returns unsorted records in insertion order (here ascending id). Records
  with equal `createdAt` keep that order after sorting. Mongo itself does not
  promise an order for such ties.
