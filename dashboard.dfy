/** The dashboard page of the client: its local copy of the caller's to-do
    list, the new-todo and edit forms, and the status message, with each
    event handler a transition from one page state to the next. A handler
    returns the request it sends, if any; the server's answer to that
    request is an input of the transition. */
module Dashboard {
  import opened JsValues
  import opened TodoController

  datatype Route = DashboardPage | LoginPage

  /** The page state: the component's state hooks, the token kept in local
      storage and the route the router shows. */
  datatype State = State(
    todos: seq<Todo>,
    newTitle: string,
    newDescription: string,
    newDueAt: string,
    editingTodoId: Option<Id>,
    editTitle: JsValue,
    editDescription: JsValue,
    editDueAt: string,
    message: string,
    token: Option<string>,
    route: Route)

  /** The calls the page makes to the to-do API. */
  datatype Verb =
    | ListTodos
    | CreateTodo(body: RequestBody)
    | ReplaceTodo(id: Id, body: RequestBody)
    | RemoveTodo(id: Id)

  /** A request and the bearer token the request interceptor attached to it. */
  datatype Request = Request(verb: Verb, bearer: Option<string>)

  /** The outcome of a request: a 2xx answer with its data, an answer with an
      error status, or no answer at all. */
  datatype Reply<+T> = Ok(data: T) | Status(code: int) | NoResponse

  /** A handler's effect: the next page state and the request it sent. */
  datatype Step = Step(state: State, sent: Option<Request>)

  /** `new Date(x).toISOString()`, or `None` where it throws a RangeError. */
  type DateToIso = string -> Option<string>

  const TitleEmpty := "Todo title cannot be empty."
  const SessionExpired := "Session expired. Please log in again."
  const LoadFailed := "Failed to load todos. Please try again."
  const Added := "Todo added successfully!"
  const AddFailed := "Failed to add todo. Please try again."
  const Updated := "Todo updated successfully!"
  const ToggleFailed := "Failed to update todo status. Please try again."
  const SaveFailed := "Failed to save todo. Please try again."
  const Deleted := "Todo deleted successfully!"
  const DeleteFailed := "Failed to delete todo. Please try again."

  /** The page as first rendered: every field empty, nothing being edited. */
  function Initial(token: Option<string>): (s: State)
    ensures s.todos == [] && s.editingTodoId == None && s.message == ""
    ensures s.token == token && s.route == DashboardPage
  {
    State([], "", "", "", None, Str(""), Str(""), "", "", token, DashboardPage)
  }

  // ---------------------------------------------------------------------
  // The list updates

  /** `todos.map(todo => todo._id === id ? { ...todo, completed: c } : todo)`. */
  function SetCompleted(s: seq<Todo>, id: Id, c: JsValue): (r: seq<Todo>)
    ensures |r| == |s|
    ensures forall i :: 0 <= i < |s| && s[i].id != id ==> r[i] == s[i]
    ensures forall i :: 0 <= i < |s| && s[i].id == id ==>
      r[i].completed == c && r[i].(completed := s[i].completed) == s[i]
  {
    if s == [] then []
    else [if s[0].id == id then s[0].(completed := c) else s[0]] + SetCompleted(s[1..], id, c)
  }

  /** `todos.map(todo => todo._id === id ? t : todo)`. */
  function ReplaceById(s: seq<Todo>, id: Id, t: Todo): (r: seq<Todo>)
    ensures |r| == |s|
    ensures forall i :: 0 <= i < |s| && s[i].id != id ==> r[i] == s[i]
    ensures forall i :: 0 <= i < |s| && s[i].id == id ==> r[i] == t
  {
    if s == [] then []
    else [if s[0].id == id then t else s[0]] + ReplaceById(s[1..], id, t)
  }

  /** `todos.filter(todo => todo._id !== id)`: every entry with that id goes,
      every other entry stays as often as it occurred. */
  function RemoveId(s: seq<Todo>, id: Id): (r: seq<Todo>)
    ensures forall x :: multiset(r)[x] == if x.id == id then 0 else multiset(s)[x]
  {
    if s == [] then []
    else
      assert s == [s[0]] + s[1..];
      if s[0].id == id then RemoveId(s[1..], id) else [s[0]] + RemoveId(s[1..], id)
  }

  /** `r` is `s` with some entries left out, the rest in their original order. */
  ghost predicate Subsequence(r: seq<Todo>, s: seq<Todo>)
    decreases |s|
  {
    if r == [] then true
    else if s == [] then false
    else (r[0] == s[0] && Subsequence(r[1..], s[1..])) || Subsequence(r, s[1..])
  }

  /** Removal keeps the relative order of the entries that remain. */
  lemma {:induction false} RemoveIdKeepsOrder(s: seq<Todo>, id: Id)
    ensures Subsequence(RemoveId(s, id), s)
  {
    if s != [] {
      RemoveIdKeepsOrder(s[1..], id);
    }
  }

  /** Removing an id no entry has changes nothing. */
  lemma {:induction false} RemoveAbsentId(s: seq<Todo>, id: Id)
    requires forall i :: 0 <= i < |s| ==> s[i].id != id
    ensures RemoveId(s, id) == s
  {
    if s != [] {
      RemoveAbsentId(s[1..], id);
    }
  }

  /** Adding a todo with a fresh id and then deleting it gives back the list
      as it was before the add. */
  lemma PrependThenRemove(s: seq<Todo>, t: Todo)
    requires forall i :: 0 <= i < |s| ==> s[i].id != t.id
    ensures RemoveId([t] + s, t.id) == s
  {
    assert ([t] + s)[1..] == s;
    RemoveAbsentId(s, t.id);
  }

  /** After an edit has replaced the entry for `id`, deleting `id` gives the
      same list as deleting it without the edit. */
  lemma {:induction false} RemoveAfterReplace(s: seq<Todo>, id: Id, t: Todo)
    requires t.id == id
    ensures RemoveId(ReplaceById(s, id, t), id) == RemoveId(s, id)
  {
    if s != [] {
      RemoveAfterReplace(s[1..], id, t);
      assert ReplaceById(s, id, t)[1..] == ReplaceById(s[1..], id, t);
    }
  }

  // ---------------------------------------------------------------------
  // Requests and errors

  /** The request interceptor: the stored token, when non-empty, is sent as
      the bearer token. */
  function Send(s: State, v: Verb): (q: Request)
    ensures q.verb == v
    ensures q.bearer.Some? <==> s.token.Some? && s.token.value != ""
    ensures q.bearer.Some? ==> q.bearer == s.token
  {
    Request(v, if s.token.Some? && s.token.value != "" then s.token else None)
  }

  /** A failed request: on a 401 answer the response interceptor removes the
      token, navigates to the login page and sets the session message; the
      handler's catch block then sets its own failure message, which is what
      remains. */
  function Rejected<T>(s: State, reply: Reply<T>, failure: string): (r: State)
    requires !reply.Ok?
    ensures r.message == failure
    ensures reply == Status(401) ==> r.token == None && r.route == LoginPage
    ensures reply == Status(401) ==> r.(message := s.message, token := s.token, route := s.route) == s
    ensures reply != Status(401) ==> r == s.(message := failure)
  {
    var intercepted :=
      if reply.Status? && reply.code == 401
      then s.(token := None, route := LoginPage, message := SessionExpired)
      else s;
    intercepted.(message := failure)
  }

  // ---------------------------------------------------------------------
  // The handlers

  /** One run of `fetchTodos`, the effect's load of the caller's listing:
      the list becomes the server's. When the effect fires is not modelled. */
  function FetchTodos(s: State, reply: Reply<seq<Todo>>): (r: Step)
    ensures r.sent == Some(Send(s, ListTodos))
    ensures reply.Ok? ==> r.state == s.(todos := reply.data, message := "")
    ensures !reply.Ok? ==> r.state.todos == s.todos && r.state.message == LoadFailed
    ensures !reply.Ok? ==> r.state == Rejected(s, reply, LoadFailed)
  {
    var q := Send(s, ListTodos);
    match reply
    case Ok(list) => Step(s.(todos := list, message := ""), Some(q))
    case _ => Step(Rejected(s, reply, LoadFailed), Some(q))
  }

  /** The body `handleAddTodo` posts: title and description as typed, and a
      due date only when its field is non-empty. `None` when the date cannot
      be converted (the conversion throws inside the try block). */
  function AddPayload(s: State, toIso: DateToIso): (p: Option<RequestBody>)
    ensures p.None? <==> s.newDueAt != "" && toIso(s.newDueAt).None?
    ensures p.Some? && s.newDueAt != "" ==> toIso(s.newDueAt).Some? && p.value.dueAt == Str(toIso(s.newDueAt).value)
    ensures p.Some? ==> p.value.title == Str(s.newTitle) && p.value.description == Str(s.newDescription)
    ensures p.Some? ==> p.value.completed == Undefined
    ensures p.Some? ==> (p.value.dueAt == Undefined <==> s.newDueAt == "")
  {
    if s.newDueAt == "" then
      Some(RequestBody(Str(s.newTitle), Str(s.newDescription), Undefined, Undefined))
    else
      match toIso(s.newDueAt)
      case None => None
      case Some(iso) => Some(RequestBody(Str(s.newTitle), Str(s.newDescription), Undefined, Str(iso)))
  }

  /** `handleAddTodo`. A blank title is refused before any request; a
      created todo goes to the head of the list and the form is cleared. */
  function HandleAddTodo(s: State, toIso: DateToIso, reply: Reply<Todo>): (r: Step)
    ensures Blank(s.newTitle) ==> r == Step(s.(message := TitleEmpty), None)
    ensures r.sent.Some? <==> !Blank(s.newTitle) && AddPayload(s, toIso).Some?
    ensures r.sent.Some? ==> r.sent == Some(Send(s, CreateTodo(AddPayload(s, toIso).value)))
    ensures r.sent.Some? && reply.Ok? ==>
      r.state == s.(todos := [reply.data] + s.todos, newTitle := "", newDescription := "", newDueAt := "", message := Added)
    ensures r.sent.None? || !reply.Ok? ==>
      r.state.todos == s.todos && r.state.newTitle == s.newTitle
      && r.state.newDescription == s.newDescription && r.state.newDueAt == s.newDueAt
    ensures !Blank(s.newTitle) && r.sent.None? ==> r.state == s.(message := AddFailed)
    ensures r.sent.Some? && !reply.Ok? ==> r.state == Rejected(s.(message := ""), reply, AddFailed)
    ensures r.state.editingTodoId == s.editingTodoId
  {
    var s1 := s.(message := "");
    if Blank(s.newTitle) then Step(s1.(message := TitleEmpty), None)
    else
      match AddPayload(s, toIso)
      case None => Step(s1.(message := AddFailed), None)
      case Some(body) =>
        var q := Send(s1, CreateTodo(body));
        match reply
        case Ok(t) =>
          Step(s1.(todos := [t] + s.todos, newTitle := "", newDescription := "", newDueAt := "", message := Added), Some(q))
        case _ => Step(Rejected(s1, reply, AddFailed), Some(q))
  }

  /** The body `handleToggleComplete` sends: only `completed`, negated. */
  function TogglePayload(current: JsValue): (b: RequestBody)
    ensures b.completed == Bool(!Truthy(current))
    ensures b.title == Undefined && b.description == Undefined && b.dueAt == Undefined
  {
    RequestBody(Undefined, Undefined, Bool(!Truthy(current)), Undefined)
  }

  /** `handleToggleComplete`: sends the negated status; on success only the
      `completed` field of the entries with that id changes, to the value the
      server answered with. */
  function HandleToggleComplete(s: State, id: Id, current: JsValue, reply: Reply<Todo>): (r: Step)
    ensures r.sent == Some(Send(s, ReplaceTodo(id, TogglePayload(current))))
    ensures reply.Ok? ==>
      r.state == s.(todos := SetCompleted(s.todos, id, reply.data.completed), message := Updated)
    ensures !reply.Ok? ==> r.state.todos == s.todos && r.state.message == ToggleFailed
    ensures !reply.Ok? ==> r.state == Rejected(s.(message := ""), reply, ToggleFailed)
  {
    var s1 := s.(message := "");
    var q := Send(s1, ReplaceTodo(id, TogglePayload(current)));
    match reply
    case Ok(t) => Step(s1.(todos := SetCompleted(s.todos, id, t.completed), message := Updated), Some(q))
    case _ => Step(Rejected(s1, reply, ToggleFailed), Some(q))
  }

  /** `startEditing`: the edit form opens on `todo`, its fields filled from
      it; a due date is shown as the first 16 characters of its ISO form. */
  function StartEditing(s: State, todo: Todo, toIso: DateToIso): (r: State)
    requires Truthy(todo.dueAt) ==> todo.dueAt.Str? && toIso(todo.dueAt.s).Some?
    ensures r.editingTodoId == Some(todo.id)
    ensures r.editTitle == todo.title && r.editDescription == todo.description
    ensures !Truthy(todo.dueAt) ==> r.editDueAt == ""
    ensures Truthy(todo.dueAt) ==> r.editDueAt == SliceTo(toIso(todo.dueAt.s).value, 16)
    ensures Truthy(todo.dueAt) ==> |r.editDueAt| <= 16 && r.editDueAt <= toIso(todo.dueAt.s).value
    ensures r.(editingTodoId := s.editingTodoId, editTitle := s.editTitle,
               editDescription := s.editDescription, editDueAt := s.editDueAt) == s
  {
    var dueAt := if Truthy(todo.dueAt) then SliceTo(toIso(todo.dueAt.s).value, 16) else "";
    s.(editingTodoId := Some(todo.id), editTitle := todo.title, editDescription := todo.description, editDueAt := dueAt)
  }

  /** The body `handleSaveEdit` sends: title and description from the form,
      and `dueAt` always present, `null` exactly when its field is empty.
      `None` when the date cannot be converted. */
  function EditPayload(s: State, toIso: DateToIso): (p: Option<RequestBody>)
    ensures p.None? <==> s.editDueAt != "" && toIso(s.editDueAt).None?
    ensures p.Some? && s.editDueAt != "" ==> toIso(s.editDueAt).Some? && p.value.dueAt == Str(toIso(s.editDueAt).value)
    ensures p.Some? ==> p.value.title == s.editTitle && p.value.description == s.editDescription
    ensures p.Some? ==> p.value.completed == Undefined && p.value.dueAt != Undefined
    ensures p.Some? ==> (p.value.dueAt == Null <==> s.editDueAt == "")
  {
    if s.editDueAt == "" then
      Some(RequestBody(s.editTitle, s.editDescription, Undefined, Null))
    else
      match toIso(s.editDueAt)
      case None => None
      case Some(iso) => Some(RequestBody(s.editTitle, s.editDescription, Undefined, Str(iso)))
  }

  /** `handleSaveEdit`. A title that is not a string makes `trim` throw and
      the handler stops; a blank title is refused; otherwise the edit is
      sent and, on success, the entry for `id` becomes the server's record
      and the form closes. */
  function HandleSaveEdit(s: State, id: Id, toIso: DateToIso, reply: Reply<Todo>): (r: Step)
    ensures !s.editTitle.Str? ==> r == Step(s.(message := ""), None)
    ensures s.editTitle.Str? && Blank(s.editTitle.s) ==> r == Step(s.(message := TitleEmpty), None)
    ensures r.sent.Some? <==> s.editTitle.Str? && !Blank(s.editTitle.s) && EditPayload(s, toIso).Some?
    ensures r.sent.Some? ==> r.sent == Some(Send(s, ReplaceTodo(id, EditPayload(s, toIso).value)))
    ensures r.sent.Some? && reply.Ok? ==>
      r.state == s.(todos := ReplaceById(s.todos, id, reply.data), editingTodoId := None, message := Updated)
    ensures r.sent.None? || !reply.Ok? ==>
      r.state.todos == s.todos && r.state.editingTodoId == s.editingTodoId
    ensures s.editTitle.Str? && !Blank(s.editTitle.s) && r.sent.None? ==> r.state == s.(message := SaveFailed)
    ensures r.sent.Some? && !reply.Ok? ==> r.state == Rejected(s.(message := ""), reply, SaveFailed)
  {
    var s1 := s.(message := "");
    if !s1.editTitle.Str? then Step(s1, None)
    else if Blank(s1.editTitle.s) then Step(s1.(message := TitleEmpty), None)
    else
      match EditPayload(s, toIso)
      case None => Step(s1.(message := SaveFailed), None)
      case Some(body) =>
        var q := Send(s1, ReplaceTodo(id, body));
        match reply
        case Ok(t) =>
          Step(s1.(todos := ReplaceById(s.todos, id, t), editingTodoId := None, message := Updated), Some(q))
        case _ => Step(Rejected(s1, reply, SaveFailed), Some(q))
  }

  /** `cancelEditing`: closes the edit form and empties its fields. */
  function CancelEditing(s: State): (r: State)
    ensures r.editingTodoId == None && r.editTitle == Str("") && r.editDescription == Str("") && r.editDueAt == ""
    ensures r.(editingTodoId := s.editingTodoId, editTitle := s.editTitle,
               editDescription := s.editDescription, editDueAt := s.editDueAt) == s
  {
    s.(editingTodoId := None, editTitle := Str(""), editDescription := Str(""), editDueAt := "")
  }

  /** `handleDeleteTodo`: nothing is sent unless the user confirms; on
      success every entry with that id leaves the list. */
  function HandleDeleteTodo(s: State, id: Id, confirmed: bool, reply: Reply<ResponseBody>): (r: Step)
    ensures !confirmed ==> r == Step(s.(message := ""), None)
    ensures confirmed ==> r.sent == Some(Send(s, RemoveTodo(id)))
    ensures confirmed && reply.Ok? ==> r.state == s.(todos := RemoveId(s.todos, id), message := Deleted)
    ensures confirmed && !reply.Ok? ==> r.state.todos == s.todos && r.state.message == DeleteFailed
    ensures confirmed && !reply.Ok? ==> r.state == Rejected(s.(message := ""), reply, DeleteFailed)
  {
    var s1 := s.(message := "");
    if !confirmed then Step(s1, None)
    else
      var q := Send(s1, RemoveTodo(id));
      match reply
      case Ok(_) => Step(s1.(todos := RemoveId(s.todos, id), message := Deleted), Some(q))
      case _ => Step(Rejected(s1, reply, DeleteFailed), Some(q))
  }

  /** `handleLogout`: the token is removed and the login page shown. */
  function Logout(s: State): (r: State)
    ensures r.token == None && r.route == LoginPage
    ensures r.(token := s.token, route := s.route) == s
  {
    s.(token := None, route := LoginPage)
  }
}
