/** How the dashboard's local list stays in step with the server. After each
    successful request a handler patches its copy of the caller's listing.
    The lemmas below show that each patch matches what the controller did
    to its store: if the copy held exactly the caller's records before the
    request, it still does afterwards. They also show what the payloads the page builds do
    once the controller applies them. */
module ClientServerSync {
  import opened JsValues
  import opened TodoController
  import opened Dashboard

  /** The toggle payload changes nothing on the server but `completed`. */
  lemma TogglePayloadOnServer(t: Todo, current: JsValue)
    ensures ApplyUpdate(t, TogglePayload(current)) == t.(completed := Bool(!Truthy(current)))
  {
  }

  /** What a saved edit does to the stored record: the form's title and
      description are stored when they are defined, `completed` is kept, and
      the due date is cleared exactly when the edit's date field is empty. */
  lemma EditPayloadOnServer(s: State, toIso: DateToIso, t: Todo)
    requires EditPayload(s, toIso).Some?
    requires s.editDueAt != "" ==> toIso(s.editDueAt) != Some("")
    ensures var r := ApplyUpdate(t, EditPayload(s, toIso).value);
      && (s.editTitle != Undefined ==> r.title == s.editTitle)
      && (s.editDescription != Undefined ==> r.description == s.editDescription)
      && r.completed == t.completed
      && (r.dueAt == Null <==> s.editDueAt == "")
  {
  }

  /** What an added todo looks like on the server: the typed title and
      description, and no due date exactly when the date field was empty. */
  lemma AddPayloadOnServer(s: State, toIso: DateToIso, id: Id, caller: UserId, completedDefault: JsValue, now: int)
    requires AddPayload(s, toIso).Some?
    requires s.newDueAt != "" ==> toIso(s.newDueAt) != Some("")
    ensures var t := NewTodo(id, caller, AddPayload(s, toIso).value, completedDefault, now);
      && t.title == Str(s.newTitle) && t.description == Str(s.newDescription)
      && (t.dueAt == Null <==> s.newDueAt == "")
  {
  }

  /** Ids on the client list are ids of the store, so a fresh id is on no entry. */
  lemma FreshIdNotListed(l: seq<Todo>, todos: map<Id, Todo>, caller: UserId, newId: Id)
    requires OwnerListing(l, todos, caller) && newId !in todos
    ensures forall i :: 0 <= i < |l| ==> l[i].id != newId
  {
  }

  /** An add keeps the list in step with the store: a refused title sends
      nothing and leaves both as they were; a successful add prepends the
      record the controller inserted. */
  lemma AddKeepsInStep(s: State, toIso: DateToIso, body: RequestBody, todos: map<Id, Todo>, caller: UserId,
                       newId: Id, completedDefault: JsValue, now: int)
    requires WellFormed(todos) && OwnerListing(s.todos, todos, caller)
    requires newId !in todos && AddPayload(s, toIso) == Some(body)
    ensures var t := NewTodo(newId, caller, body, completedDefault, now);
      var r := HandleAddTodo(s, toIso, Ok(t));
      && (Blank(s.newTitle) ==> r.sent.None? && OwnerListing(r.state.todos, todos, caller))
      && (!Blank(s.newTitle) ==> r.sent.Some? && OwnerListing(r.state.todos, todos[newId := t], caller))
  {
    var t := NewTodo(newId, caller, body, completedDefault, now);
    var r := HandleAddTodo(s, toIso, Ok(t));
    if !Blank(s.newTitle) {
      assert r.state.todos == [t] + s.todos;
      PrependKeepsListing(s.todos, todos, caller, t);
    }
  }

  /** Prepending a record with a fresh id owned by the caller keeps the list
      in step with the store after that record's insertion. */
  lemma PrependKeepsListing(l: seq<Todo>, todos: map<Id, Todo>, caller: UserId, t: Todo)
    requires OwnerListing(l, todos, caller)
    requires t.id !in todos && t.user == caller
    ensures OwnerListing([t] + l, todos[t.id := t], caller)
  {
    var after := todos[t.id := t];
    var r := [t] + l;
    FreshIdNotListed(l, todos, caller, t.id);
    forall i | 0 < i < |r|
      ensures r[i].id in after && after[r[i].id] == r[i] && r[i].user == caller && r[i].id != t.id
    {
      assert r[i] == l[i - 1];
    }
    forall k | k in after && after[k].user == caller
      ensures after[k] in r
    {
      if k != t.id {
        assert todos[k] in l;
      }
    }
  }

  /** Replacing the entry for an owned id by its updated record keeps the
      list in step with the store after that record's update. */
  lemma ReplaceKeepsListing(l: seq<Todo>, todos: map<Id, Todo>, caller: UserId, id: Id, t: Todo)
    requires WellFormed(todos) && OwnerListing(l, todos, caller)
    requires id in todos && todos[id].user == caller && t.id == id && t.user == caller
    ensures OwnerListing(ReplaceById(l, id, t), todos[id := t], caller)
  {
    var after := todos[id := t];
    var r := ReplaceById(l, id, t);
    forall i | 0 <= i < |r|
      ensures r[i].id == l[i].id
      ensures r[i].id in after && after[r[i].id] == r[i] && r[i].user == caller
    {
      if l[i].id != id {
        assert r[i] == l[i];
      }
    }
    forall k | k in after && after[k].user == caller
      ensures after[k] in r
    {
      var x := todos[k];
      assert x in l;
      var j :| 0 <= j < |l| && l[j] == x;
      assert l[j].id == k;
      assert r[j] == after[k];
    }
    assert DistinctIds(r);
  }

  /** On a list in step with the store, setting `completed` on the entries
      for an owned id is replacing them by the stored record with that
      `completed`. */
  lemma SetCompletedIsReplace(l: seq<Todo>, todos: map<Id, Todo>, caller: UserId, id: Id, c: JsValue)
    requires OwnerListing(l, todos, caller) && id in todos
    ensures SetCompleted(l, id, c) == ReplaceById(l, id, todos[id].(completed := c))
  {
    var a := SetCompleted(l, id, c);
    var b := ReplaceById(l, id, todos[id].(completed := c));
    forall i | 0 <= i < |l|
      ensures a[i] == b[i]
    {
      if l[i].id == id {
        assert l[i] == todos[id];
      }
    }
  }

  /** A successful toggle keeps the list in step with the store after the
      controller's update with the toggle payload. */
  lemma ToggleKeepsInStep(s: State, id: Id, current: JsValue, todos: map<Id, Todo>, caller: UserId)
    requires WellFormed(todos) && OwnerListing(s.todos, todos, caller)
    requires id in todos && todos[id].user == caller
    ensures var t := ApplyUpdate(todos[id], TogglePayload(current));
      OwnerListing(HandleToggleComplete(s, id, current, Ok(t)).state.todos, todos[id := t], caller)
  {
    var t := ApplyUpdate(todos[id], TogglePayload(current));
    assert HandleToggleComplete(s, id, current, Ok(t)).state.todos == SetCompleted(s.todos, id, t.completed);
    SetCompletedIsReplace(s.todos, todos, caller, id, t.completed);
    ReplaceKeepsListing(s.todos, todos, caller, id, t);
  }

  /** A successful save keeps the list in step with the store after the
      controller's update, whatever the body. */
  lemma SaveEditKeepsInStep(s: State, id: Id, toIso: DateToIso, body: RequestBody,
                            todos: map<Id, Todo>, caller: UserId)
    requires WellFormed(todos) && OwnerListing(s.todos, todos, caller)
    requires id in todos && todos[id].user == caller
    requires s.editTitle.Str? && !Blank(s.editTitle.s) && EditPayload(s, toIso) == Some(body)
    ensures var t := ApplyUpdate(todos[id], body);
      OwnerListing(HandleSaveEdit(s, id, toIso, Ok(t)).state.todos, todos[id := t], caller)
  {
    var t := ApplyUpdate(todos[id], body);
    assert HandleSaveEdit(s, id, toIso, Ok(t)).state.todos == ReplaceById(s.todos, id, t);
    ReplaceKeepsListing(s.todos, todos, caller, id, t);
  }

  /** Removing entries keeps the remaining ids distinct. */
  lemma {:induction false} RemoveKeepsDistinct(l: seq<Todo>, id: Id)
    requires DistinctIds(l)
    ensures DistinctIds(RemoveId(l, id))
  {
    if l != [] {
      assert DistinctIds(l[1..]) by {
        forall i, j | 0 <= i < j < |l[1..]| ensures l[1..][i].id != l[1..][j].id {
          assert l[1..][i] == l[i + 1] && l[1..][j] == l[j + 1];
        }
      }
      RemoveKeepsDistinct(l[1..], id);
      if l[0].id != id {
        var rest := RemoveId(l[1..], id);
        forall i | 0 <= i < |rest| ensures rest[i].id != l[0].id {
          assert multiset(rest)[rest[i]] > 0;
          assert rest[i] in l[1..];
        }
      }
    }
  }

  /** A successful delete keeps the list in step with the store after the
      controller's removal. */
  lemma DeleteKeepsInStep(s: State, id: Id, answer: ResponseBody, todos: map<Id, Todo>, caller: UserId)
    requires WellFormed(todos) && OwnerListing(s.todos, todos, caller)
    requires id in todos && todos[id].user == caller
    ensures OwnerListing(HandleDeleteTodo(s, id, true, Ok(answer)).state.todos, todos - {id}, caller)
  {
    var after := todos - {id};
    var l := HandleDeleteTodo(s, id, true, Ok(answer)).state.todos;
    assert l == RemoveId(s.todos, id);
    forall i | 0 <= i < |l|
      ensures l[i].id in after && after[l[i].id] == l[i] && l[i].user == caller
    {
      assert multiset(l)[l[i]] > 0;
    }
    forall k | k in after && after[k].user == caller
      ensures after[k] in l
    {
      assert multiset(s.todos)[todos[k]] > 0;
    }
    RemoveKeepsDistinct(s.todos, id);
  }

  /** The controller answers a non-owner with 401, and the page reads any
      401 as an expired session: trying to toggle someone else's todo logs
      the caller out. */
  lemma NotOwnerToggleLogsOut(s: State, id: Id, current: JsValue)
    ensures var r := HandleToggleComplete(s, id, current, Status(NotAuthorizedToUpdate.status)).state;
      r.token == None && r.route == LoginPage && r.todos == s.todos
  {
  }
}
