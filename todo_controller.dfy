/**
 * The todo controller: four handlers over the todos collection, each run
 * behind `protect`, so each is called with `req.user` set. A failure of the
 * database is the `fault` parameter; every failure goes to `next` and no
 * response is sent.
 */
module TodoController {
  import opened Wrappers
  import opened Http
  import opened Query
  import opened TodoModel
  import opened AuthController

  const TodosDeleted := "Todos deleted"
  /** What Mongoose refuses a document with when its declared String `_id` is unset. */
  const IdMissing := "document must have an _id before saving"

  /** What the todo handlers send. */
  datatype Payload =
    | Listed(results: nat, todos: seq<Todo>)
    | Created(newTodo: Todo)
    | Removed(message: string)
    | Changed(todo: Option<Todo>)

  /** The filter `{ owner }`. */
  function OwnerIs(owner: string): Todo -> bool
  {
    (t: Todo) => t.owner == Some(owner)
  }

  /** The filter `{ owner, finished: true }`. */
  predicate CompletedBy(t: Todo, owner: string)
  {
    t.owner == Some(owner) && t.finished
  }

  /** What `deleteMany({ owner, finished: true })` leaves. */
  function SurvivesDeletion(owner: string): Todo -> bool
  {
    (t: Todo) => !CompletedBy(t, owner)
  }

  /** The caller's unfinished todos. */
  function OwnedUnfinished(owner: string): Todo -> bool
  {
    (t: Todo) => t.owner == Some(owner) && !t.finished
  }

  /** `Todo.find({ owner })`: exactly the todos of that owner, in natural order. */
  function OwnedBy(todos: seq<Todo>, owner: string): (r: seq<Todo>)
    ensures forall t :: t in r <==> t in todos && t.owner == Some(owner)
  {
    Select(todos, OwnerIs(owner))
  }

  /** The collection after `Todo.deleteMany({ owner, finished: true })`. */
  function RemoveCompleted(todos: seq<Todo>, owner: string): (r: seq<Todo>)
    ensures forall t :: t in r <==> t in todos && !CompletedBy(t, owner)
  {
    Select(todos, SurvivesDeletion(owner))
  }

  /** Deleting todos cannot make two ids collide. */
  lemma RemoveCompletedKeepsUniqueIds(todos: seq<Todo>, owner: string)
    requires UniqueIds(todos)
    ensures UniqueIds(RemoveCompleted(todos, owner))
  {
    SelectKeepsDistinctKeys(todos, SurvivesDeletion(owner), IdOf);
  }

  /** Deleting the completed todos a second time deletes nothing. */
  lemma RemoveCompletedIdempotent(todos: seq<Todo>, owner: string)
    ensures RemoveCompleted(RemoveCompleted(todos, owner), owner) == RemoveCompleted(todos, owner)
  {
    SelectIdempotent(todos, SurvivesDeletion(owner));
  }

  /** Another owner sees exactly the same todos, in the same order, after the caller's deletion. */
  lemma RemoveCompletedSparesOthers(todos: seq<Todo>, caller: string, other: string)
    requires other != caller
    ensures OwnedBy(RemoveCompleted(todos, caller), other) == OwnedBy(todos, other)
  {
    SelectSelect(todos, SurvivesDeletion(caller), OwnerIs(other), OwnerIs(other));
  }

  /** The caller is left with exactly their unfinished todos, in the same order. */
  lemma RemoveCompletedKeepsCallersUnfinished(todos: seq<Todo>, caller: string)
    ensures OwnedBy(RemoveCompleted(todos, caller), caller) == Select(todos, OwnedUnfinished(caller))
  {
    SelectSelect(todos, SurvivesDeletion(caller), OwnerIs(caller), OwnedUnfinished(caller));
  }

  /** A collection where the caller has no finished todo is left as it is. */
  lemma RemoveCompletedWithoutFinished(todos: seq<Todo>, caller: string)
    requires forall t :: t in todos ==> !CompletedBy(t, caller)
    ensures RemoveCompleted(todos, caller) == todos
  {
    SelectAll(todos, SurvivesDeletion(caller));
  }

  /**
   * `Todo.create({ _id, text, owner })` with the body's `_id` and `text` and
   * the caller as owner: validation, then the `_id` check, then the database
   * (which may fail, or refuse a duplicate id).
   */
  function Insert(todos: seq<Todo>, body: Body, owner: string, fault: Option<string>): (r: Result<Todo, Error>)
    ensures r.Success? <==>
      && AcceptableTodo(NewTodo("", Field(body, "text"), Some(owner)))
      && Field(body, "_id").Some? && fault.None? && !IdTaken(todos, Field(body, "_id").value)
    ensures r.Success? ==>
      && r.value.id == Field(body, "_id").value && r.value.text == Field(body, "text")
      && r.value.owner == Some(owner) && !r.value.finished
    ensures r.Failure? && Field(body, "text") == Some("") ==>
      r.error == ValidationFailed([FieldError("text", TextTooShort)])
  {
    var id := Field(body, "_id");
    var errors := Validate(NewTodo(if id.Some? then id.value else "", Field(body, "text"), Some(owner)));
    if errors != [] then Failure(ValidationFailed(errors))
    else if id.None? then Failure(Message(IdMissing))
    else if fault.Some? then Failure(Message(fault.value))
    else if IdTaken(todos, id.value) then Failure(DuplicateKey("_id"))
    else Success(NewTodo(id.value, Field(body, "text"), Some(owner)))
  }

  /** Only `_id` and `text` are read from the body: an `owner` or `finished` there changes nothing. */
  lemma InsertReadsOnlyIdAndText(todos: seq<Todo>, body: Body, body': Body, owner: string, fault: Option<string>)
    requires Field(body, "_id") == Field(body', "_id") && Field(body, "text") == Field(body', "text")
    ensures Insert(todos, body, owner, fault) == Insert(todos, body', owner, fault)
  {
  }

  /** A second create with the same `_id` fails, whoever asks. */
  lemma SecondInsertWithSameIdFails(todos: seq<Todo>, body: Body, body': Body, owner: string, owner': string, fault': Option<string>)
    requires Insert(todos, body, owner, None).Success?
    requires Field(body', "_id") == Field(body, "_id")
    ensures Insert(todos + [Insert(todos, body, owner, None).value], body', owner', fault').Failure?
  {
    var t := Insert(todos, body, owner, None).value;
    assert t in todos + [t];
  }

  /** The filter `{ _id: id }`. */
  function IdIs(id: string): Todo -> bool
  {
    (t: Todo) => t.id == id
  }

  /** `Todo.findById(id)`. */
  function FindTodo(todos: seq<Todo>, id: string): (r: Option<Todo>)
    ensures r.None? <==> !IdTaken(todos, id)
    ensures r.Some? ==> r.value in todos && r.value.id == id
  {
    FindOne(todos, IdIs(id))
  }

  /** The collection after `findByIdAndUpdate(id, patch)`: the first todo with that id gets the patch. */
  function UpdateById(todos: seq<Todo>, id: string, patch: TodoPatch): (r: seq<Todo>)
    ensures |r| == |todos|
    ensures forall i :: 0 <= i < |todos| ==> r[i].id == todos[i].id
    ensures forall i :: 0 <= i < |todos| && todos[i].id != id ==> r[i] == todos[i]
    ensures !IdTaken(todos, id) ==> r == todos
    ensures UniqueIds(todos) ==> UniqueIds(r)
    ensures UniqueIds(todos) ==>
      forall i :: 0 <= i < |todos| && todos[i].id == id ==> r[i] == ApplyPatch(todos[i], patch)
  {
    var i := FirstIndex(todos, IdIs(id));
    if i < |todos| then todos[i := ApplyPatch(todos[i], patch)] else todos
  }

  /** There is no owner check: any stored todo is patched by its id, whoever owns it. */
  lemma UpdateIgnoresOwner(todos: seq<Todo>, t: Todo, patch: TodoPatch)
    requires UniqueIds(todos) && t in todos
    ensures ApplyPatch(t, patch) in UpdateById(todos, t.id, patch)
  {
    var i :| 0 <= i < |todos| && todos[i] == t;
    assert UpdateById(todos, t.id, patch)[i] == ApplyPatch(t, patch);
  }

  /** The todos collection, in natural order. */
  class TodoStore {
    var todos: seq<Todo>

    ghost predicate Valid()
      reads this
    {
      UniqueIds(todos)
    }

    constructor ()
      ensures todos == [] && Valid()
    {
      todos := [];
    }

    /** `getAllTodos`: the caller's todos and their count. */
    method GetAllTodos(req: Request, fault: Option<string>) returns (r: Outcome<Payload>)
      requires req.user.Some?
      ensures fault.Some? ==> r == NextError(Message(fault.value))
      ensures fault.None? ==> r.Sent? && r.status == 200 && r.payload.Listed?
      ensures fault.None? ==> r.payload.todos == OwnedBy(todos, req.user.value.id)
      ensures fault.None? ==> r.payload.results == |r.payload.todos|
    {
      if fault.Some? {
        return NextError(Message(fault.value));
      }
      var mine := OwnedBy(todos, req.user.value.id);
      r := Sent(200, Listed(|mine|, mine));
    }

    /** `createTodo`: insert a todo owned by the caller. */
    method CreateTodo(req: Request, body: Body, fault: Option<string>) returns (r: Outcome<Payload>)
      requires Valid() && req.user.Some?
      modifies this
      ensures Valid()
      ensures r == match Insert(old(todos), body, req.user.value.id, fault)
                   case Success(t) => Sent(200, Created(t))
                   case Failure(e) => NextError(e)
      ensures todos == if r.Sent? then old(todos) + [r.payload.newTodo] else old(todos)
    {
      var created := Insert(todos, body, req.user.value.id, fault);
      if created.Failure? {
        return NextError(created.error);
      }
      var t := created.value;
      assert UniqueIds(todos + [t]) by {
        var s := todos + [t];
        forall i, j | 0 <= i < j < |s| ensures IdOf(s[i]) != IdOf(s[j]) {
          if j == |todos| {
            assert s[i] in todos;
          } else {
            assert s[i] == todos[i] && s[j] == todos[j];
          }
        }
      }
      todos := todos + [t];
      r := Sent(200, Created(t));
    }

    /** `deleteCompleted`: delete the caller's finished todos. */
    method DeleteCompleted(req: Request, fault: Option<string>) returns (r: Outcome<Payload>)
      requires Valid() && req.user.Some?
      modifies this
      ensures Valid()
      ensures fault.Some? ==> r == NextError(Message(fault.value)) && todos == old(todos)
      ensures fault.None? ==> r == Sent(204, Removed(TodosDeleted))
      ensures fault.None? ==> todos == RemoveCompleted(old(todos), req.user.value.id)
    {
      if fault.Some? {
        return NextError(Message(fault.value));
      }
      RemoveCompletedKeepsUniqueIds(todos, req.user.value.id);
      todos := RemoveCompleted(todos, req.user.value.id);
      r := Sent(204, Removed(TodosDeleted));
    }

    /**
     * `changeFinishedStatus`: apply the body to the todo with the given id,
     * whoever owns it, and send the todo as it was before the update.
     */
    method ChangeFinishedStatus(req: Request, id: string, patch: TodoPatch, fault: Option<string>) returns (r: Outcome<Payload>)
      requires Valid() && req.user.Some?
      modifies this
      ensures Valid()
      ensures fault.Some? ==> r == NextError(Message(fault.value)) && todos == old(todos)
      ensures fault.None? ==> r == Sent(200, Changed(FindTodo(old(todos), id)))
      ensures fault.None? ==> todos == UpdateById(old(todos), id, patch)
    {
      if fault.Some? {
        return NextError(Message(fault.value));
      }
      var before := FindTodo(todos, id);
      todos := UpdateById(todos, id, patch);
      r := Sent(200, Changed(before));
    }
  }
}
