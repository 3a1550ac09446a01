/**
 * The Todo model: a document with a string `_id`, an optional non-empty
 * `text`, a `finished` flag that defaults to false and a plain string
 * `owner`, none of them required.
 */
module TodoModel {
  import opened Wrappers
  import opened Query
  import opened Http

  const MinTextLength: nat := 1
  const TextTooShort := "Todos cannot be empty"

  datatype Todo = Todo(id: string, text: Option<string>, finished: bool, owner: Option<string>)

  /** A new document: the given paths, and `finished` at its default, false. */
  function NewTodo(id: string, text: Option<string>, owner: Option<string>): Todo
  {
    Todo(id, text, false, owner)
  }

  /** The schema's one validator: `text`, when given, has at least one character. */
  predicate AcceptableTodo(t: Todo)
  {
    t.text.None? || |t.text.value| >= MinTextLength
  }

  /** Validation on save. */
  function Validate(t: Todo): (errors: seq<FieldError>)
    ensures errors == [] <==> AcceptableTodo(t)
    ensures errors != [] ==> t.text == Some("") && errors == [FieldError("text", TextTooShort)]
  {
    if t.text.Some? && |t.text.value| < MinTextLength then [FieldError("text", TextTooShort)] else []
  }

  function IdOf(t: Todo): string
  {
    t.id
  }

  /** The `_id` index: no two todos share an id. */
  ghost predicate UniqueIds(todos: seq<Todo>)
  {
    DistinctKeys(todos, IdOf)
  }

  /** A stored todo already has this id. */
  predicate IdTaken(todos: seq<Todo>, id: string)
  {
    exists t :: t in todos && t.id == id
  }

  /**
   * An update body cast to the schema: the paths it sets. Paths outside the
   * schema are dropped by Mongoose's strict mode.
   */
  datatype TodoPatch = TodoPatch(text: Option<string>, finished: Option<bool>, owner: Option<string>)

  /** `$set` of the paths the patch gives; the others keep their values. */
  function ApplyPatch(t: Todo, p: TodoPatch): Todo
  {
    Todo(t.id,
         if p.text.Some? then p.text else t.text,
         if p.finished.Some? then p.finished.value else t.finished,
         if p.owner.Some? then p.owner else t.owner)
  }

  /** A patch never touches `_id`, and applying it twice is applying it once. */
  lemma PatchKeepsIdAndIsIdempotent(t: Todo, p: TodoPatch)
    ensures ApplyPatch(t, p).id == t.id
    ensures ApplyPatch(ApplyPatch(t, p), p) == ApplyPatch(t, p)
  {
  }

  /**
   * Update validators are off, so a patch may store an empty text the schema
   * refuses on create, and may hand the todo to another owner.
   */
  lemma PatchBypassesSchema(t: Todo, owner: string)
    ensures !AcceptableTodo(ApplyPatch(t, TodoPatch(Some(""), None, None)))
    ensures ApplyPatch(t, TodoPatch(None, None, Some(owner))).owner == Some(owner)
  {
  }
}
