/** The module-level `todos` array of the server and the route handlers that
    read and change it, each run to completion before the next request. */
module Store {
  import opened JsValues
  import opened Todos
  import opened Prompt
  import Dispatcher

  class TodoStore {
    /** The in-memory list, in insertion order. */
    var todos: seq<Todo>

    /** What every handler keeps: ids are pairwise distinct and no record is
        completed (create stores false and no handler writes the flag). */
    ghost predicate Valid()
      reads this
    {
      IdsDistinct(todos) && NoneCompleted(todos)
    }

    /** `let todos = []`. */
    constructor ()
      ensures Valid() && todos == []
    {
      todos := [];
    }

    /** GET /todos: the whole list. */
    method List() returns (r: seq<Todo>)
      ensures r == todos
    {
      r := todos;
    }

    /** POST /todos. `newId` is the value `uuidv4()` draws, which is only
        drawn once the text has passed the check, and is fresh. */
    method Create(text: Value, newId: string) returns (reply: Reply)
      requires Valid()
      requires Truthy(text) ==> !HasId(todos, newId)
      modifies this
      ensures Valid()
      ensures !Truthy(text) ==> reply == ErrorReply(400, TextRequired) && todos == old(todos)
      ensures Truthy(text) ==>
        && reply == TodoReply(201, Todo(newId, text, false))
        && todos == old(todos) + [reply.todo]
        && FindIndex(todos, newId) == |old(todos)|
    {
      if !Truthy(text) {
        return ErrorReply(400, TextRequired);
      }
      var created := Todo(newId, text, false);
      AppendFresh(todos, created);
      todos := todos + [created];
      reply := TodoReply(201, created);
    }

    /** DELETE /todos/:id: keep the records whose id differs; always 204. */
    method Delete(id: string) returns (reply: Reply)
      requires Valid()
      modifies this
      ensures Valid()
      ensures reply == EmptyReply(204)
      ensures todos == RemoveId(old(todos), id)
      ensures HasId(old(todos), id) ==>
        var k := FindIndex(old(todos), id); todos == old(todos)[..k] + old(todos)[k + 1..]
      ensures !HasId(old(todos), id) ==> todos == old(todos)
    {
      if HasId(todos, id) {
        RemoveIdAtIndex(todos, id);
      } else {
        RemoveIdAbsent(todos, id);
      }
      RemoveIdKeepsDistinct(todos, id);
      todos := RemoveId(todos, id);
      reply := EmptyReply(204);
    }

    /** PUT /todos/:id: overwrite the text of the first record with the id,
        as given and without a check; 404 when there is none. */
    method Update(id: string, text: Value) returns (reply: Reply)
      requires Valid()
      modifies this
      ensures Valid()
      ensures !HasId(old(todos), id) ==> reply == ErrorReply(404, TodoNotFound) && todos == old(todos)
      ensures HasId(old(todos), id) ==>
        var k := FindIndex(old(todos), id);
        && todos == SetText(old(todos), k, text)
        && reply == TodoReply(200, Todo(id, text, false))
    {
      var index := FindIndex(todos, id);
      if index == -1 {
        return ErrorReply(404, TodoNotFound);
      }
      todos := SetText(todos, index, text);
      reply := TodoReply(200, todos[index]);
    }

    /** POST /summarize over the current list; the list is only read. */
    method Summarize(complete: string -> Dispatcher.Outcome<string>,
                     post: string -> Dispatcher.Outcome<()>) returns (run: Dispatcher.Run)
      requires Valid()
      ensures run == Dispatcher.Summarize(todos, complete, post)
      ensures run.calls[0] == Dispatcher.CompletionRequest(Prefix + Join(Texts(todos), "\n"))
    {
      PendingAll(todos);
      run := Dispatcher.Summarize(todos, complete, post);
    }
  }
}
