# A verified model of the todo list's optimistic cache and todo router

This project models the two pieces of logic in a small authenticated todo-list
application. Everything else in the application is CRUD glue.

- **The todo router** (`todo_router.dfy`, module `TodoRouter`). These are the server procedures
  `all`, `add`, `toggleCompleted` and `delete`. The database table is a map
  from row id to `Todo` row, held by the `TodoStore` class. Each database call
  (`create`, `update`, `delete`) is a pure function that yields the new table
  or throws. A procedure's `try` block is an `Attempt`, and its `catch` block
  is `Catch`. The caller's identity is an explicit `Option<string>`.
- **The optimistic cache discipline of the todo view** (`content.dfy`, module `Content`).
  Each mutation runs a fixed sequence on the one cached list:
  1. cancel the refetch in flight;
  2. snapshot the list (`?? []`);
  3. apply the list updater;
  4. on error, restore the snapshot and show the message;
  5. on settlement, invalidate the list.

  The cache slot is the `QueryCache` class: its data, a refetch-in-flight flag,
  a stale flag and a ghost log of the calls made on it. List entries are `Item`
  objects, so the snapshot and the updated list can share an entry. The
  `TodoView` class holds the callbacks, the typed title, the messages shown to
  the user and the remote calls issued. The server's reply to a mutation is a
  parameter (`TodoRouter.Result<bool>`).

`wrappers.dfy` holds the `Option` type.

The model keeps these behaviours of the code:
- `toggleCompleted` **sets** `completed` to the value it is given (`set: input.completed`,
  src/server/api/routers/todo.ts:52-54), and the client's toggle updater assigns the given
  value (src/components/Content.tsx:52). Neither flips the flag.
- `toggleCompleted` and `delete` look rows up by id alone (src/server/api/routers/todo.ts:50,
  71). They never consult the caller, so any caller may change or delete any user's row.
- The UNAUTHORIZED error of `add` never reaches the caller. It is thrown inside the `try`
  (src/server/api/routers/todo.ts:17-22), so the `catch` at lines 32-36 replaces it with the
  internal error (see Findings).
- `!ctx.auth.userId` (src/server/api/routers/todo.ts:18) is JavaScript falsiness. A caller
  whose id is the empty string is treated as signed out, the same as an absent caller
  (`SignedIn`).
- The rows that `add` creates have `completed = false`. The `create` call sets only the title
  and the owner (src/server/api/routers/todo.ts:25-30), so the flag is the table's default.

## Model

| member | source | states |
|---|---|---|
| `TodoRouter.SignedIn` | src/server/api/routers/todo.ts:18 | A caller is signed out exactly when its id is absent or the empty string, the two falsy values of `!ctx.auth.userId`. |
| `TodoRouter.All` | src/server/api/routers/todo.ts:6-11 | The result holds exactly the table's rows whose `userId` is the caller, with their stored values. On a table where every row is stored under its own id, so is the result. |
| `TodoRouter.Insert` | src/server/api/routers/todo.ts:25-30 | `create` succeeds iff the id is not already taken. It then adds exactly that one row and keeps every other row. A duplicate id throws a unique-key violation. |
| `TodoRouter.SetCompleted` | src/server/api/routers/todo.ts:49-56 | `update` succeeds iff the row exists. It then sets that row's flag to the given value, keeps every other field and row, and keeps the key set. A missing row throws not-found. |
| `TodoRouter.Remove` | src/server/api/routers/todo.ts:70-72 | `delete` succeeds iff the row exists. It then removes exactly that key and keeps every other row unchanged. A missing row throws not-found. |
| `TodoRouter.Catch` | src/server/api/routers/todo.ts:32-36 | The shared catch block. A completed try passes its value through. Anything thrown becomes INTERNAL_SERVER_ERROR with the procedure's fixed message, so the cause is discarded. The same shape is at lines 58-62 and 74-78. |
| `TodoRouter.AllAfterInsert` | src/server/api/routers/todo.ts:25-30 | A row added for its owner appears in the owner's `all` and in no other user's. |
| `TodoRouter.AllAfterSetCompleted` | src/server/api/routers/todo.ts:49-56 | Setting a flag changes no user's set of visible ids. Apart from that row, every visible row is unchanged. |
| `TodoRouter.AllAfterRemove` | src/server/api/routers/todo.ts:70-72 | After a delete, each user's `all` is the previous list minus that id. |
| `TodoRouter.TodoStore.Add` | src/server/api/routers/todo.ts:14-38 | Replies `true` iff the caller is signed in and the new id is free, and then inserts exactly the row (new id, input title, not completed, caller). Otherwise it replies INTERNAL_SERVER_ERROR "Something went wrong, cannot create Todo." and leaves the table unchanged. A signed-out caller gets this error too. The table stays well keyed. |
| `TodoRouter.TodoStore.ToggleCompleted` | src/server/api/routers/todo.ts:40-64 | Replies `true` iff the id exists, with no owner check, and then sets that row's flag to the input. No other row or field changes. A missing id gives INTERNAL_SERVER_ERROR with the toggle message and leaves the table unchanged. |
| `TodoRouter.TodoStore.Delete` | src/server/api/routers/todo.ts:66-80 | Replies `true` iff the id exists, with no owner check, and then removes exactly that row. A missing id gives INTERNAL_SERVER_ERROR with the delete message and leaves the table unchanged. |
| `TodoRouter.SignedOutAddIsInternalError` | src/server/api/routers/todo.ts:17-36 | A signed-out `add` observes INTERNAL_SERVER_ERROR with the create message, not UNAUTHORIZED, and stores nothing. |
| `TodoRouter.TodoStore.AddChecked` | src/server/api/routers/todo.ts:17-23 | Corrected `add`: a signed-out caller gets UNAUTHORIZED "You must be logged in to create a Todo." and the table is unchanged. Otherwise it behaves as `add`. |
| `TodoRouter.SignedOutAddCheckedIsUnauthorized` | src/server/api/routers/todo.ts:17-23 | A signed-out call to the corrected `add` observes UNAUTHORIZED with the login message. |
| `Content.AppendPlaceholder` | src/components/Content.tsx:18-20 | Add updater. An unset cache gives `[]` with no placeholder. Otherwise the result is the cached list unchanged as a prefix, followed by exactly the placeholder, so the length grows by one. |
| `Content.WithoutId` | src/components/Content.tsx:86 | The filter never grows the list. Its survivors are exactly the cached entries whose id differs. A list without that id comes back unchanged. |
| `Content.OrEmpty` | src/components/Content.tsx:16 | `getData() ?? []`: an unset slot reads as `[]`, and a set list, even an empty one, reads as itself. The same expression is at lines 45 and 83. |
| `Content.DropById` | src/components/Content.tsx:85-87 | Delete updater. An unset cache gives `[]`. Otherwise the result is no longer than the cached list. Every entry in it comes from the cached list and has another id. Every cached entry with another id is in it. A list without that id comes back unchanged. |
| `Content.WithoutIdAppend` | src/components/Content.tsx:86 | Filtering distributes over concatenation, so survivors keep their relative order. |
| `Content.WithoutIdIdempotent` | src/components/Content.tsx:86 | Deleting the same id twice is the same as deleting it once. |
| `Content.AddThenDeleteRestores` | src/components/Content.tsx:18-20 | Deleting a placeholder whose temporary id is fresh gives back exactly the list before the add. |
| `Content.SetFirstCompleted` | src/components/Content.tsx:47-56 | Value view of the toggle updater. It keeps length, order, ids and titles. With no match, the list is unchanged. |
| `Content.SetFirstCompletedAt` | src/components/Content.tsx:49-53 | Exactly the first entry with the id changes, and only its flag, which is set to the given value rather than flipped. |
| `Content.SetFirstCompletedIdempotent` | src/components/Content.tsx:52 | Setting the same flag again changes nothing, because the toggle is a set and not a flip. |
| `Content.SetFirstCompletedUndo` | src/components/Content.tsx:52 | Setting the first match back to its earlier flag restores the list. |
| `Content.FindIndex` | src/components/Content.tsx:49 | `findIndex`: returns -1 iff no entry has the id. Otherwise it returns the first position holding the id. |
| `Content.ToggleInPlace` | src/components/Content.tsx:46-56 | Toggle updater as written. It returns the cached entry objects themselves, and the first entry with the id now has the given flag. No entry with another id changes. If that first object occurs only once in the list, no other position changes, and the list's values are `SetFirstCompleted` of its values before. |
| `Content.WriteFlag` | src/components/Content.tsx:50-52 | The write `item.completed = completed`. Exactly that object gets the flag and no other object changes. If the object occurs only once in the list, the list's values change at that position only. |
| `Content.ToggleByCopy` | src/components/Content.tsx:46-56 | Corrected toggle updater. The result has the same length. Every position but the first match holds the same object as before. The first match is a fresh object with the same id and title and the given flag. No existing object is written. |
| `Content.ReplacedFirstEntries` | src/components/Content.tsx:46-56 | Read as values, the corrected updater's result is `SetFirstCompleted` of the values before, for every list. |
| `Content.QueryCache.constructor` | src/components/Content.tsx:9 | The list's slot starts unset, with its first fetch in flight. |
| `Content.QueryCache.Cancel` | src/components/Content.tsx:14 | `cancel` leaves no refetch in flight and keeps data and staleness. |
| `Content.QueryCache.GetData` | src/components/Content.tsx:16 | `getData` returns the slot's data and changes nothing. |
| `Content.QueryCache.SetData` | src/components/Content.tsx:18 | `setData` replaces the data and keeps the flags. |
| `Content.QueryCache.Invalidate` | src/components/Content.tsx:37 | `invalidate` marks the slot stale, starts a refetch and keeps the data. |
| `Content.QueryCache.RefetchArrives` | src/components/Content.tsx:14 | A refetch result lands only if that refetch is still in flight. After `cancel` it is dropped and the data is kept. |
| `Content.TodoView.constructor` | src/components/Content.tsx:8 | The view starts with an empty title (`useState("")`), no messages shown and no remote calls issued, on the given cache slot. |
| `Content.TodoView.AddEnabled` | src/components/Content.tsx:153 | The Add button is enabled exactly when the title is non-empty (`disabled={!title}`). |
| `Content.TodoView.AddOnMutate` | src/components/Content.tsx:13-23 | Calls cancel, then getData, then setData, in that order. The snapshot is the old list or `[]`. The new list is the add updater applied with a fresh placeholder carrying the temporary id and the submitted title. |
| `Content.TodoView.ToggleOnMutate` | src/components/Content.tsx:41-58 | Calls cancel, then getData, then setData. The cache ends up holding the snapshot's own entry objects. The snapshot's first entry with the id now has the new flag, so the snapshot no longer records the old one. No entry with another id changes. |
| `Content.TodoView.ToggleOnMutateByCopy` | src/components/Content.tsx:41-58 | Corrected toggle `onMutate`: the same call order. The new list is the snapshot with its first match replaced by a fresh copy carrying the new flag, so no snapshot object is written. |
| `Content.TodoView.DeleteOnMutate` | src/components/Content.tsx:80-90 | Calls cancel, then getData, then setData. The snapshot is the old list or `[]`. The new list is the delete updater's result. |
| `Content.TodoView.OnError` | src/components/Content.tsx:24-35 | Sets the slot to the snapshot and appends the error message to the messages shown. The same code is at lines 60-72 and 91-103. |
| `Content.TodoView.OnSettled` | src/components/Content.tsx:36-38 | Invalidates the slot (the same code is at lines 73-76 and 104-107). |
| `Content.TodoView.AddTodo` | src/components/Content.tsx:12-39 | The whole add mutation:<br>- Issues one add request.<br>- On error, the list is the snapshot again: an unset cache comes back as `[]`, not unset. The message is shown.<br>- On success, the list is the old one plus the placeholder.<br>- In both cases it ends stale with a refetch started, and the call log is cancel, get, set, [set], invalidate. |
| `Content.TodoView.ToggleTodo` | src/components/Content.tsx:41-77 | The whole toggle mutation as written. Success and failure both end with the snapshot's list and the new flag. The rollback does not undo the flag. The slot ends stale. |
| `Content.TodoView.ToggleTodoByCopy` | src/components/Content.tsx:41-77 | Corrected toggle mutation. No object of the snapshot is written. On failure the slot holds the snapshot again, so it shows exactly its values from before. On success the first match is replaced by a fresh copy with the flag set. The slot ends stale. |
| `Content.TodoView.DeleteTodo` | src/components/Content.tsx:79-108 | The whole delete mutation. On error the list is the snapshot again and the message is shown. On success it is the filtered list. Either way it ends stale, and the call log is ordered as for add. |
| `Content.TodoView.HandleAdd` | src/components/Content.tsx:110-113 | It runs only while the Add button is enabled, i.e. the title is non-empty. It clears the title and submits the title as it was before clearing; that title is also the placeholder's. |
| `Content.FailedToggleKeepsFlag` | src/components/Content.tsx:45-62 | A one-entry list, not completed; marking it done fails. After the rollback, the entry shows as done. |
| `Content.FailedToggleByCopyRestoresFlag` | src/components/Content.tsx:45-62 | The same failed toggle through the corrected updater leaves the entry not completed. |

## Findings

| source | as written | input that shows it | evidently intended | confidence | as-written member | corrected member |
|---|---|---|---|---|---|---|
| src/components/Content.tsx:45-62 | The toggle updater writes `completed` into the entry object that the snapshot also holds. The rollback restores the snapshot's list, which still shows the new flag. | The cache holds one entry `t1`, not completed. Toggle `t1` to `true`, and the server rejects it. | After a failed toggle the entry shows its old flag. The comment at line 61 says to use the context value, and the other two mutations roll back fully. | high (not executed) | `Content.FailedToggleKeepsFlag` | `Content.TodoView.ToggleTodoByCopy` |
| src/server/api/routers/todo.ts:17-36 | The UNAUTHORIZED error for a signed-out `add` is thrown inside the `try`. The `catch` turns it into INTERNAL_SERVER_ERROR "Something went wrong, cannot create Todo." | `add` with no signed-in user | The caller receives UNAUTHORIZED "You must be logged in to create a Todo." | high (not executed) | `TodoRouter.SignedOutAddIsInternalError` | `TodoRouter.TodoStore.AddChecked` |

## Left out

- Rendering, styling, the account button and the toast's display options (src/components/Content.tsx:26-34, 123-204). They are presentation only. A toast is modelled as its message being appended to `toasts`.
- The query-cache and remote-procedure libraries and the network transport. The cache is the explicit `QueryCache` object. The server's reply is a parameter of each mutation method.
- The database engine. The table is a map. Its only failures are a duplicate id on create and a missing row on update or delete. Other failures, such as a lost connection, would take the same `catch` path and are not modelled separately.
- `all` for a signed-out caller. The code filters on `ctx.auth.userId as string`. What the database client does with a filter value that is absent is library behaviour, so `TodoRouter.All` takes the caller id as a string. The order of the returned rows is not modelled either: `All` returns a sub-table.
- Generated ids. The database's id for a new row is the parameter `newId`. The client's `Math.random()` temporary id is the parameter `tempId`.
- Interleavings of two mutations in flight and the scheduling between `await` points. Each callback is treated as one atomic step.
- Input parsing: inputs are taken as typed.
- `onError` with no context, i.e. when `onMutate` itself failed. In the model `onMutate` always completes.
- `handleToggleCompleted` and `handleDelete` (src/components/Content.tsx:115-121). They only forward their arguments to the mutation, which `ToggleTodo` and `DeleteTodo` model.
- Missing fields of the client's placeholder entry. It has no `completed` or `userId` (they are `undefined`), so it is modelled as not completed. The client never reads `userId`, so client entries do not carry it.
- Content.ToggleInPlace: states the positions other than the first match, and the list's values, only when the first matching object occurs once in the list. A repeated object would show the write at every position it occupies. For any list, it still states that no entry with another id changes.
- Content.WriteFlag: states the list's values only when the written object occurs once in the list, for the same reason.
- Content.TodoView.ToggleOnMutate: the same restriction on positions, for the same reason.
- Content.TodoView.ToggleTodo: the same restriction on positions, for the same reason.
- Convergence with the server after settlement. The model proves that every mutation ends with a refetch in flight, and that `RefetchArrives` then installs the server's list. It does not relate that list to `TodoRouter.All`, because `All` returns a sub-table: `findMany` has no `orderBy` (src/server/api/routers/todo.ts:7-11), so the order of the rows is the database's, and that order is not modelled.
