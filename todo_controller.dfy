/** The server's to-do controller: list, create, update and delete over a
    to-do collection scoped by owner. The collection is a map from id to
    record held by a `TodoStore` object; the controller's four handlers are
    its methods, each answering with an HTTP status and a body. */
module TodoController {
  import opened JsValues

  /** A record id as it appears in paths and JSON (a serialised ObjectId). */
  type Id = string
  /** The caller's id as resolved from the bearer token. */
  type UserId = string

  /** A stored to-do record. `user` is the owner; `createdAt` is the ordering
      key the store assigns on creation. */
  datatype Todo = Todo(
    id: Id,
    user: UserId,
    title: JsValue,
    description: JsValue,
    completed: JsValue,
    dueAt: JsValue,
    createdAt: int)

  /** The JSON request body; a field is `Undefined` when its key is absent. */
  datatype RequestBody = RequestBody(
    title: JsValue,
    description: JsValue,
    completed: JsValue,
    dueAt: JsValue)

  /** The `:id` path parameter after the store has tried to cast it to an
      ObjectId: either a well-formed id or a string the cast rejects. */
  datatype PathId = ObjectIdParam(id: Id) | Malformed(raw: string)

  datatype ResponseBody =
    | Items(items: seq<Todo>)
    | Item(item: Todo)
    | Message(text: string)   // a JSON object `{ message: text }`
    | Text(content: string)   // a plain-text body

  datatype Response = Response(status: int, body: ResponseBody)

  const TodoNotFound := Response(404, Message("Todo not found"))
  const ServerError := Response(500, Text("Server error"))
  const NotAuthorizedToUpdate := Response(401, Message("Not authorized to update this todo"))
  const NotAuthorizedToDelete := Response(401, Message("Not authorized to delete this todo"))
  const TodoRemoved := Response(200, Message("Todo removed"))

  /** The due date is either cleared (`null`) or a truthy value: no stored
      record ever holds a falsy due date other than `null`. */
  predicate NormalDueAt(t: Todo)
  {
    t.dueAt == Null || Truthy(t.dueAt)
  }

  /** The store's invariant: every record sits under its own id, and its due
      date is normal. */
  ghost predicate WellFormed(todos: map<Id, Todo>)
  {
    forall k :: k in todos ==> todos[k].id == k && NormalDueAt(todos[k])
  }

  /** The record `addTodo` builds: title and description copied from the
      body, a falsy due date turned into `null`, the caller as owner.
      `completed` is not taken from the body; it is the schema's default. */
  function NewTodo(id: Id, caller: UserId, body: RequestBody, completedDefault: JsValue, now: int): (t: Todo)
    ensures t.id == id && t.user == caller && t.createdAt == now
    ensures t.title == body.title && t.description == body.description
    ensures t.completed == completedDefault
    ensures Truthy(body.dueAt) ==> t.dueAt == body.dueAt
    ensures !Truthy(body.dueAt) ==> t.dueAt == Null
    ensures NormalDueAt(t)
  {
    Todo(id, caller, body.title, body.description, completedDefault, Or(body.dueAt, Null), now)
  }

  /** The partial update `updateTodo` applies to an owner's record.
      `title`, `description` and `completed` are overwritten exactly when the
      body defines them (so `completed: false` is applied); `dueAt` is kept
      when absent, cleared to `null` when present but falsy, and replaced
      otherwise. Id, owner and creation time never change. */
  function ApplyUpdate(t: Todo, body: RequestBody): (r: Todo)
    ensures r.id == t.id && r.user == t.user && r.createdAt == t.createdAt
    ensures body.title != Undefined ==> r.title == body.title
    ensures body.title == Undefined ==> r.title == t.title
    ensures body.description != Undefined ==> r.description == body.description
    ensures body.description == Undefined ==> r.description == t.description
    ensures body.completed != Undefined ==> r.completed == body.completed
    ensures body.completed == Undefined ==> r.completed == t.completed
    ensures body.dueAt == Undefined ==> r.dueAt == t.dueAt
    ensures body.dueAt != Undefined && !Truthy(body.dueAt) ==> r.dueAt == Null
    ensures Truthy(body.dueAt) ==> r.dueAt == body.dueAt
  {
    t.(title := if body.title != Undefined then body.title else t.title,
       description := if body.description != Undefined then body.description else t.description,
       completed := if body.completed != Undefined then body.completed else t.completed,
       dueAt := if body.dueAt != Undefined then Or(body.dueAt, Null) else t.dueAt)
  }

  /** An update never produces an abnormal due date from a normal one. */
  lemma ApplyUpdateKeepsNormalDueAt(t: Todo, body: RequestBody)
    requires NormalDueAt(t)
    ensures NormalDueAt(ApplyUpdate(t, body))
  {
  }

  /** An update with an empty body leaves the record as it was. */
  lemma EmptyUpdateIsIdentity(t: Todo)
    ensures ApplyUpdate(t, RequestBody(Undefined, Undefined, Undefined, Undefined)) == t
  {
  }

  /** Sending the same update twice has the effect of sending it once. */
  lemma ApplyUpdateIdempotent(t: Todo, body: RequestBody)
    ensures ApplyUpdate(ApplyUpdate(t, body), body) == ApplyUpdate(t, body)
  {
  }

  /** The body whose defined fields are those of `later`, falling back on
      those of `earlier`. */
  function Overlay(earlier: RequestBody, later: RequestBody): RequestBody
  {
    RequestBody(
      if later.title != Undefined then later.title else earlier.title,
      if later.description != Undefined then later.description else earlier.description,
      if later.completed != Undefined then later.completed else earlier.completed,
      if later.dueAt != Undefined then later.dueAt else earlier.dueAt)
  }

  /** Two successive owner updates are one update in which, field by field,
      the later body wins wherever it defines the field (last write wins). */
  lemma SuccessiveUpdates(t: Todo, earlier: RequestBody, later: RequestBody)
    ensures ApplyUpdate(ApplyUpdate(t, earlier), later) == ApplyUpdate(t, Overlay(earlier, later))
  {
  }

  /** Newest first: `createdAt` never increases along the list. */
  ghost predicate SortedNewestFirst(r: seq<Todo>)
  {
    forall i, j :: 0 <= i < j < |r| ==> r[i].createdAt >= r[j].createdAt
  }

  /** No id appears twice in the list. */
  ghost predicate DistinctIds(r: seq<Todo>)
  {
    forall i, j :: 0 <= i < j < |r| ==> r[i].id != r[j].id
  }

  /** `r` holds exactly the records of `todos` owned by `caller`, each once
      and as stored. */
  ghost predicate OwnerListing(r: seq<Todo>, todos: map<Id, Todo>, caller: UserId)
  {
    && (forall i :: 0 <= i < |r| ==> r[i].id in todos && todos[r[i].id] == r[i] && r[i].user == caller)
    && (forall k :: k in todos && todos[k].user == caller ==> todos[k] in r)
    && DistinctIds(r)
  }

  /** The ordering `sort({ createdAt: -1 })` promises, in the list's own
      terms: in a list sorted newest first, a record created strictly later
      stands strictly earlier. */
  lemma NewerStandsEarlier(r: seq<Todo>, i: nat, j: nat)
    requires SortedNewestFirst(r)
    requires i < |r| && j < |r| && r[i].createdAt > r[j].createdAt
    ensures i < j
  {
  }

  /** The first position at which `t` can enter a list sorted newest first:
      every record before it is at least as new as `t`, the one at it is
      strictly older. */
  function InsertionPoint(s: seq<Todo>, t: Todo): (p: nat)
    ensures p <= |s|
    ensures forall i :: 0 <= i < p ==> s[i].createdAt >= t.createdAt
    ensures p < |s| ==> s[p].createdAt < t.createdAt
  {
    if s == [] || s[0].createdAt < t.createdAt then 0 else 1 + InsertionPoint(s[1..], t)
  }

  /** Inserts `t` into a list sorted newest first, keeping it sorted; the
      result holds exactly the old records and `t`. */
  function InsertNewest(s: seq<Todo>, t: Todo): (r: seq<Todo>)
    requires SortedNewestFirst(s)
    ensures SortedNewestFirst(r)
    ensures |r| == |s| + 1
    ensures forall x :: x in r <==> x in s || x == t
    ensures multiset(r) == multiset(s) + multiset{t}
    ensures DistinctIds(s) && (forall i :: 0 <= i < |s| ==> s[i].id != t.id) ==> DistinctIds(r)
  {
    var p := InsertionPoint(s, t);
    InsertAtPointSorted(s, t, p);
    InsertAtPointDistinct(s, t, p);
    assert s == s[..p] + s[p..];
    s[..p] + [t] + s[p..]
  }

  /** Putting `t` at position `p` of a sorted list, where the records before
      `p` are at least as new as `t` and the one at `p` is older, keeps the
      list sorted. */
  lemma InsertAtPointSorted(s: seq<Todo>, t: Todo, p: nat)
    requires SortedNewestFirst(s) && p <= |s|
    requires forall i :: 0 <= i < p ==> s[i].createdAt >= t.createdAt
    requires p < |s| ==> s[p].createdAt < t.createdAt
    ensures SortedNewestFirst(s[..p] + [t] + s[p..])
  {
    var r := s[..p] + [t] + s[p..];
    forall i, j | 0 <= i < j < |r|
      ensures r[i].createdAt >= r[j].createdAt
    {
      var x := if i < p then s[i] else if i == p then t else s[i - 1];
      var y := if j < p then s[j] else if j == p then t else s[j - 1];
      assert r[i] == x && r[j] == y;
      if i == p && j > p {
        assert s[p].createdAt >= s[j - 1].createdAt;
      }
    }
  }

  /** Putting a record with a fresh id anywhere in a list with distinct ids
      keeps the ids distinct. */
  lemma InsertAtPointDistinct(s: seq<Todo>, t: Todo, p: nat)
    requires p <= |s|
    ensures DistinctIds(s) && (forall i :: 0 <= i < |s| ==> s[i].id != t.id) ==> DistinctIds(s[..p] + [t] + s[p..])
  {
    var r := s[..p] + [t] + s[p..];
    if DistinctIds(s) && (forall i :: 0 <= i < |s| ==> s[i].id != t.id) {
      forall i, j | 0 <= i < j < |r|
        ensures r[i].id != r[j].id
      {
        var x := if i < p then s[i] else if i == p then t else s[i - 1];
        var y := if j < p then s[j] else if j == p then t else s[j - 1];
        assert r[i] == x && r[j] == y;
      }
    }
  }

  /** The to-do collection, scoped by owner. `completedDefault` is the value
      the record schema gives `completed` when a record is created. */
  class TodoStore {
    var todos: map<Id, Todo>
    const completedDefault: JsValue

    ghost predicate Valid()
      reads this
    {
      WellFormed(todos)
    }

    constructor (completedDefault: JsValue)
      ensures Valid()
      ensures todos == map[] && this.completedDefault == completedDefault
    {
      this.completedDefault := completedDefault;
      todos := map[];
    }

    /** `getTodos`: the caller's records, newest first. Changes nothing. */
    method GetTodos(caller: UserId) returns (res: Response)
      requires Valid()
      ensures res.status == 200 && res.body.Items?
      ensures OwnerListing(res.body.items, todos, caller)
      ensures SortedNewestFirst(res.body.items)
    {
      var r: seq<Todo> := [];
      var pending := todos.Keys;
      while pending != {}
        invariant pending <= todos.Keys
        invariant forall i :: 0 <= i < |r| ==>
          r[i].id in todos && r[i].id !in pending && todos[r[i].id] == r[i] && r[i].user == caller
        invariant forall k :: k in todos && k !in pending && todos[k].user == caller ==> todos[k] in r
        invariant DistinctIds(r)
        invariant SortedNewestFirst(r)
        decreases pending
      {
        var k :| k in pending;
        if todos[k].user == caller {
          r := InsertNewest(r, todos[k]);
        }
        pending := pending - {k};
      }
      res := Response(200, Items(r));
    }

    /** `addTodo`: inserts the new record under the id the store generated.
      If that id is already taken the store's insert fails and the answer is
      a server error. */
    method AddTodo(caller: UserId, body: RequestBody, newId: Id, now: int) returns (res: Response)
      requires Valid()
      modifies this
      ensures Valid()
      ensures newId in old(todos) ==> res == ServerError && todos == old(todos)
      ensures newId !in old(todos) ==>
        var t := NewTodo(newId, caller, body, completedDefault, now);
        res == Response(201, Item(t)) && todos == old(todos)[newId := t]
    {
      if newId in todos {
        res := ServerError;
        return;
      }
      var t := NewTodo(newId, caller, body, completedDefault, now);
      todos := todos[newId := t];
      res := Response(201, Item(t));
    }

    /** `updateTodo`: not found (404) for an unknown or malformed id, not
      authorized (401) for a caller who does not own the record, otherwise
      the partial update, saved and returned. */
    method UpdateTodo(caller: UserId, pathId: PathId, body: RequestBody) returns (res: Response)
      requires Valid()
      modifies this
      ensures Valid()
      ensures (pathId.Malformed? || pathId.id !in old(todos)) ==>
        res == TodoNotFound && todos == old(todos)
      ensures pathId.ObjectIdParam? && pathId.id in old(todos) && old(todos)[pathId.id].user != caller ==>
        res == NotAuthorizedToUpdate && todos == old(todos)
      ensures pathId.ObjectIdParam? && pathId.id in old(todos) && old(todos)[pathId.id].user == caller ==>
        var t := ApplyUpdate(old(todos)[pathId.id], body);
        res == Response(200, Item(t)) && todos == old(todos)[pathId.id := t]
    {
      if pathId.Malformed? {
        // the cast of the id fails and the catch block answers 404
        res := TodoNotFound;
        return;
      }
      var id := pathId.id;
      if id !in todos {
        res := TodoNotFound;
        return;
      }
      var todo := todos[id];
      if todo.user != caller {
        res := NotAuthorizedToUpdate;
        return;
      }
      todo := todo.(title := if body.title != Undefined then body.title else todo.title);
      todo := todo.(description := if body.description != Undefined then body.description else todo.description);
      todo := todo.(completed := if body.completed != Undefined then body.completed else todo.completed);
      todo := todo.(dueAt := if body.dueAt != Undefined then Or(body.dueAt, Null) else todo.dueAt);
      todos := todos[id := todo];
      res := Response(200, Item(todo));
    }

    /** `deleteTodo`: the same lookup and ownership check as an update, then
      removal of that one record. */
    method DeleteTodo(caller: UserId, pathId: PathId) returns (res: Response)
      requires Valid()
      modifies this
      ensures Valid()
      ensures (pathId.Malformed? || pathId.id !in old(todos)) ==>
        res == TodoNotFound && todos == old(todos)
      ensures pathId.ObjectIdParam? && pathId.id in old(todos) && old(todos)[pathId.id].user != caller ==>
        res == NotAuthorizedToDelete && todos == old(todos)
      ensures pathId.ObjectIdParam? && pathId.id in old(todos) && old(todos)[pathId.id].user == caller ==>
        res == TodoRemoved && todos == old(todos) - {pathId.id}
    {
      if pathId.Malformed? {
        res := TodoNotFound;
        return;
      }
      var id := pathId.id;
      if id !in todos {
        res := TodoNotFound;
        return;
      }
      if todos[id].user != caller {
        res := NotAuthorizedToDelete;
        return;
      }
      todos := todos - {id};
      res := TodoRemoved;
    }

    /** Deleting the same id twice: once it has been removed, the second
      attempt finds nothing; if the first attempt failed, the second fails
      the same way. */
    method DeleteTwice(caller: UserId, pathId: PathId) returns (first: Response, second: Response)
      requires Valid()
      modifies this
      ensures Valid()
      ensures first == TodoRemoved ==> second == TodoNotFound
      ensures first != TodoRemoved ==> second == first && todos == old(todos)
    {
      first := DeleteTodo(caller, pathId);
      second := DeleteTodo(caller, pathId);
    }
  }
}
