# To-do records: server controller and dashboard list, in Dafny

This project models the core of a personal to-do web application in two parts.

**The server's to-do controller** handles four requests over a collection of to-do records that are scoped by owner:
- list the caller's records, newest first;
- create a record owned by the caller;
- partially update one record, with a lookup and an ownership check;
- delete one record, with the same checks.

The document collection is modelled as a map from record id to record. It is held in the `todos` field of the class `TodoController.TodoStore`, and the four handlers are methods of that class. Each method answers with an HTTP status and a body: 200, 201, 401, 404 or 500.

Field values are modelled as JavaScript values (`JsValues.JsValue`), so the code's own tests are modelled exactly:
- `x !== undefined` decides whether an update touches a field;
- `x || null` decides whether a due date is kept or cleared.

**The client's dashboard page** keeps a local copy of the caller's list in step with the server. Every event handler is a function from the page state to the next state, together with the request it sends. The page state (`Dashboard.State`) holds:
- the list;
- the new-todo form and the edit form;
- the status message;
- the stored token and the current route.

The server's answer is an input to each transition. The list updates are functions over `seq<Todo>`: prepend, replace by id, set `completed` by id, and filter by id.

**The module `ClientServerSync`** connects the two parts. Start from a client list that holds exactly the caller's records in the store (`TodoController.OwnerListing`). After any successful add, toggle, save or delete, the patched list still holds exactly the caller's records in the store as the controller left it. The module also proves what each payload the page builds does to a record once the controller applies it.

Files: `js_values.dfy` (module `JsValues`), `todo_controller.dfy` (module `TodoController`), `dashboard.dfy` (module `Dashboard`), `sync.dfy` (module `ClientServerSync`).

## Model

| member | source | states |
|---|---|---|
| `JsValues.TrimStart` | client/src/pages/Dashboard.jsx:69 | the result is the suffix of the input after its leading whitespace: everything dropped is JS whitespace and the result does not start with whitespace |
| `JsValues.TrimEnd` | client/src/pages/Dashboard.jsx:69 | the result is the prefix of the input before its trailing whitespace: everything dropped is JS whitespace and the result does not end with whitespace |
| `JsValues.BlankIffAllWhitespace` | client/src/pages/Dashboard.jsx:69 | `!title.trim()` holds exactly when every character of the title is whitespace |
| `JsValues.SliceTo` | client/src/pages/Dashboard.jsx:116 | `slice(0, n)` yields the first n characters of a longer string and the whole of a string no longer than n |
| `TodoController.NewTodo` | server/controllers/todoController.js:16-24 | the created record has the given id, the caller as owner, title and description copied from the body, the schema's `completed` whatever the body says, a `null` due date when the body's is falsy and the body's due date otherwise |
| `TodoController.ApplyUpdate` | server/controllers/todoController.js:49-52 | title, description and completed are overwritten exactly when defined in the body (so `completed: false` applies) and kept otherwise; due date kept when absent, `null` when present but falsy, replaced otherwise; id, owner and creation time never change |
| `TodoController.ApplyUpdateKeepsNormalDueAt` | server/controllers/todoController.js:52 | an update keeps the stored due date either `null` or truthy |
| `TodoController.EmptyUpdateIsIdentity` | server/controllers/todoController.js:49-52 | an update whose body defines no field leaves the record unchanged |
| `TodoController.ApplyUpdateIdempotent` | server/controllers/todoController.js:49-52 | applying the same update twice equals applying it once |
| `TodoController.SuccessiveUpdates` | server/controllers/todoController.js:49-54 | two successive updates equal one update in which the later body's defined fields win (last write wins) |
| `TodoController.NewerStandsEarlier` | server/controllers/todoController.js:6 | in a list sorted by `createdAt` descending, a strictly newer record stands strictly earlier |
| `TodoController.InsertionPoint` | server/controllers/todoController.js:6 | the position found has only records at least as new before it and a strictly older one at it |
| `TodoController.InsertAtPointSorted` | server/controllers/todoController.js:6 | placing a record at its insertion point keeps a newest-first list sorted |
| `TodoController.InsertAtPointDistinct` | server/controllers/todoController.js:6 | placing a record with a fresh id into a list with distinct ids keeps the ids distinct |
| `TodoController.InsertNewest` | server/controllers/todoController.js:6 | inserting into a newest-first list keeps it newest first, adds exactly the one record (the multiset of records grows by it and nothing else), and keeps ids distinct when the new id is fresh |
| `TodoController.TodoStore.GetTodos` | server/controllers/todoController.js:4-12 | answers 200 with exactly the caller's records, each once and as stored, ordered by `createdAt` non-increasing; the store is not modified |
| `TodoController.TodoStore.AddTodo` | server/controllers/todoController.js:15-32 | answers 201 with the new record and inserts it under the generated id, leaving other records alone; answers 500 and changes nothing when the id is already taken |
| `TodoController.TodoStore.UpdateTodo` | server/controllers/todoController.js:35-63 | 404 "Todo not found" for a malformed or unknown id and 401 for a non-owner, both with the store unchanged; for the owner, 200 with the partially updated record, which replaces only that record |
| `TodoController.TodoStore.DeleteTodo` | server/controllers/todoController.js:66-87 | 404 for a malformed or unknown id and 401 for a non-owner, store unchanged; for the owner, "Todo removed" and exactly that id leaves the store |
| `TodoController.TodoStore.DeleteTwice` | server/controllers/todoController.js:66-79 | after a successful delete, deleting the same id again answers 404; after a failed one, the second attempt fails the same way with the store unchanged |
| `Dashboard.Initial` | client/src/pages/Dashboard.jsx:6-15 | the page starts with an empty list, no todo being edited and no message |
| `Dashboard.SetCompleted` | client/src/pages/Dashboard.jsx:100-102 | same length and order; entries with other ids are unchanged; entries with the id get the new `completed` and keep every other field |
| `Dashboard.ReplaceById` | client/src/pages/Dashboard.jsx:140-142 | same length and order; entries with the id become the server's record, all others are unchanged |
| `Dashboard.RemoveId` | client/src/pages/Dashboard.jsx:163 | every entry with the id is gone and every other entry remains exactly as often as before |
| `Dashboard.RemoveIdKeepsOrder` | client/src/pages/Dashboard.jsx:163 | the remaining entries keep their relative order (the result is a subsequence) |
| `Dashboard.RemoveAbsentId` | client/src/pages/Dashboard.jsx:163 | filtering out an id no entry has leaves the list unchanged |
| `Dashboard.PrependThenRemove` | client/src/pages/Dashboard.jsx:83 | prepending a todo with a fresh id and then deleting that id gives back the original list |
| `Dashboard.RemoveAfterReplace` | client/src/pages/Dashboard.jsx:140-163 | deleting an id after its entry was replaced by a record with that id equals deleting it directly |
| `Dashboard.Send` | client/src/pages/Dashboard.jsx:29-40 | a request carries the stored token as bearer exactly when that token is present and non-empty |
| `Dashboard.Rejected` | client/src/pages/Dashboard.jsx:42-52 | on a 401 answer the token is removed and the login page shown; in every failure the handler's own failure message is what remains, and nothing else changes |
| `Dashboard.FetchTodos` | client/src/pages/Dashboard.jsx:55-64 | a loaded list replaces the local one and clears the message; a failure keeps the list and shows the load-failure message, with the 401 effects of `Rejected` |
| `Dashboard.AddPayload` | client/src/pages/Dashboard.jsx:74-80 | the body carries the typed title and description and has a `dueAt` key exactly when the due-date field is non-empty, its value then the ISO conversion of the field; no body exactly when that conversion throws |
| `Dashboard.HandleAddTodo` | client/src/pages/Dashboard.jsx:66-92 | a blank title sets the error message and sends nothing; a request is sent exactly when the title is not blank and the date converts; on success the returned todo heads the list, followed by the old list in order, and the three form fields are emptied, and nothing else on the page changes; otherwise the list and form are unchanged, a failed date conversion shows the add-failure message and changes nothing else, and a failed request is `Rejected` with that message (token removed and login page on a 401) |
| `Dashboard.TogglePayload` | client/src/pages/Dashboard.jsx:97-99 | the toggle sends only `completed`, the negation of the current status |
| `Dashboard.HandleToggleComplete` | client/src/pages/Dashboard.jsx:94-108 | always sends the toggle for that id; on success only the `completed` of entries with that id changes, to the server's value; on failure the list is unchanged and the request is `Rejected` with the toggle-failure message (token removed and login page on a 401) |
| `Dashboard.StartEditing` | client/src/pages/Dashboard.jsx:110-120 | the edit form opens on the todo's id with its title and description; the date field is empty when the todo has no due date, else the first 16 characters of its ISO form (`SliceTo`); nothing else on the page changes |
| `Dashboard.EditPayload` | client/src/pages/Dashboard.jsx:129-137 | the edit body always carries `dueAt`, `null` exactly when the edit date field is empty and otherwise the ISO conversion of the field, plus the form's title and description; no body exactly when that conversion throws |
| `Dashboard.HandleSaveEdit` | client/src/pages/Dashboard.jsx:122-149 | a non-string title stops the handler and a blank one is refused, neither sending a request; on success the entry for the id becomes the server's record, length and order are kept and the form closes; otherwise list and editor are unchanged, a failed date conversion shows the save-failure message and changes nothing else, and a failed request is `Rejected` with that message (token removed and login page on a 401) |
| `Dashboard.CancelEditing` | client/src/pages/Dashboard.jsx:151-156 | no todo is being edited and the three edit fields are empty; nothing else changes |
| `Dashboard.HandleDeleteTodo` | client/src/pages/Dashboard.jsx:158-170 | without confirmation nothing is sent and the list is unchanged; with it, on success every entry with the id is filtered out; on failure the list is unchanged and the request is `Rejected` with the delete-failure message (token removed and login page on a 401) |
| `Dashboard.Logout` | client/src/pages/Dashboard.jsx:172-175 | the token is removed and the login page shown; nothing else changes |
| `ClientServerSync.TogglePayloadOnServer` | client/src/pages/Dashboard.jsx:97-99 | on the server the toggle changes the record's `completed` to the negated status and nothing else |
| `ClientServerSync.EditPayloadOnServer` | client/src/pages/Dashboard.jsx:129-137 | on the server a saved edit stores the form's title and description, keeps `completed`, and clears the due date exactly when the edit date field is empty |
| `ClientServerSync.AddPayloadOnServer` | client/src/pages/Dashboard.jsx:74-80 | on the server an added todo has the typed title and description and a `null` due date exactly when the date field was empty |
| `ClientServerSync.AddKeepsInStep` | client/src/pages/Dashboard.jsx:83 | a refused title sends nothing and the list still matches the unchanged store; otherwise prepending the created record keeps the list exactly the caller's records of the store after the insert |
| `ClientServerSync.PrependKeepsListing` | client/src/pages/Dashboard.jsx:83 | prepending a fresh record owned by the caller keeps the list exactly the caller's records of the store after its insertion |
| `ClientServerSync.ReplaceKeepsListing` | client/src/pages/Dashboard.jsx:140-142 | replacing an owned entry by its updated record keeps the list exactly the caller's records of the updated store |
| `ClientServerSync.SetCompletedIsReplace` | client/src/pages/Dashboard.jsx:100-102 | on a list in step with the store, setting `completed` by id is replacing the entry by the stored record with that `completed` |
| `ClientServerSync.ToggleKeepsInStep` | client/src/pages/Dashboard.jsx:100-102 | after a successful toggle the list is exactly the caller's records of the store as the controller updated it |
| `ClientServerSync.SaveEditKeepsInStep` | client/src/pages/Dashboard.jsx:140-142 | after a successful save the list is exactly the caller's records of the store as the controller updated it |
| `ClientServerSync.RemoveKeepsDistinct` | client/src/pages/Dashboard.jsx:163 | filtering by id keeps the remaining ids distinct |
| `ClientServerSync.DeleteKeepsInStep` | client/src/pages/Dashboard.jsx:163 | after a successful delete the list is exactly the caller's records of the store after the removal |
| `ClientServerSync.NotOwnerToggleLogsOut` | client/src/pages/Dashboard.jsx:45-48 | the controller's 401 for a non-owner is read by the page as an expired session: the token is removed, the login page shown, the list kept |

Behaviours of the code worth noting, which the model follows:
- Create does not set `completed` (server/controllers/todoController.js:19-24); its value comes from the record schema, which is not part of this model. `TodoStore` therefore takes the schema's default as a constructor argument.
- Create and update store `dueAt || null` (server/controllers/todoController.js:22 and 52), so every falsy value clears the due date, `false` and `0` included.
- After a 401 the interceptor's "Session expired" message is overwritten by the handler's own failure message, because the catch block's setter runs after the interceptor's (client/src/pages/Dashboard.jsx:48, then 90, 106, 147 or 167).

## Left out

- The record schema and its casting of field values (`server/models/Todo` is not part of this model): stored values are the request's JSON values, uncast, and the schema's default for `completed` is a parameter.
- Id generation and clocks: the id the store generates and the creation time are parameters of `AddTodo`. A collision with an existing id is answered with 500, as the store's duplicate-key error would be.
- The ObjectId cast of the path parameter is done outside the model. `PathId` says whether it succeeded, and a failed cast answers 404, as the catch blocks do.
- The authorization middleware: the caller's id is a parameter. Its token checks are not part of this model.
- Store failures other than a duplicate id, and the 500 answers they cause in list, update and delete.
- `TodoController.TodoStore.GetTodos`: the order among records with equal `createdAt` is whatever the insertion makes it. The store does not specify that order.
- Numbers are integers. Floating point, `NaN`, and JSON objects or arrays as field values are left out.
- When `fetchTodos` runs. The page builds a new axios instance on every render (client/src/pages/Dashboard.jsx:22), so `useCallback(..., [api])` (line 64) yields a new `fetchTodos` each render and the effect at lines 177-179 runs it after every render; as line 58 always stores a fresh array, the loads never settle. Each handler's patch to the list, and on a successful load its message (line 59), is therefore soon overwritten by the next reload. The model has `Dashboard.FetchTodos` as a single transition and shows that each patch agrees with the server's store; it does not model the effect's firing or that repeated reload.
- Concurrency between requests, and React's asynchronous, batched state updates: handlers run one at a time, and each sees the state it was started in.
- `Dashboard.StartEditing`: `new Date(...).toISOString()` is the parameter `toIso`. The model requires it to succeed on a stored due date; what happens when it throws there is not modelled. The model also requires a truthy stored due date to be a string: the record schema casts `dueAt` to a date, so the page only ever receives an ISO string or `null` for it, although this model's uncast store could hold another value.
- `Dashboard.StartEditing`: date strings are opaque, so the model does not show a time-zone effect in the code. The edit field shows the UTC wall-clock time, and saving reads that field as local time, so for a user outside UTC an unchanged save can move the due date.
- Rendering, styling, `formatDueAt`, the axios instance, `window.confirm` (a boolean input) and local storage (the `token` field of the page state).
- Routing in `client/src/App.jsx`, the login page, the route table and the server bootstrap.
