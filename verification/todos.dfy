/** The todo record, the replies the route handlers send, and the list
    operations the handlers apply to the module-level `todos` array. */
module Todos {
  import opened JsValues

  /** One entry of the in-memory list: `{id, text, completed}`. */
  datatype Todo = Todo(id: string, text: Value, completed: bool)

  /** What a handler sends back: a status with a record, an `{error}` body,
      a `{message}` body, or no body at all. */
  datatype Reply =
    | TodoReply(status: int, todo: Todo)
    | ErrorReply(status: int, error: string)
    | MessageReply(status: int, message: string)
    | EmptyReply(status: int)

  const TextRequired: string := "Text is required"
  const TodoNotFound: string := "Todo not found"

  /** Some record of `todos` carries `id`. */
  predicate HasId(todos: seq<Todo>, id: string)
  {
    exists i :: 0 <= i < |todos| && todos[i].id == id
  }

  /** No two records share an id. */
  predicate IdsDistinct(todos: seq<Todo>)
  {
    forall i, j :: 0 <= i < j < |todos| ==> todos[i].id != todos[j].id
  }

  /** No record is marked completed. */
  predicate NoneCompleted(todos: seq<Todo>)
  {
    forall i :: 0 <= i < |todos| ==> !todos[i].completed
  }

  /** `todos.findIndex(todo => todo.id === id)`: the first position holding
      `id`, or -1 when there is none. */
  function FindIndex(todos: seq<Todo>, id: string): (i: int)
    ensures -1 <= i < |todos|
    ensures i == -1 <==> !HasId(todos, id)
    ensures 0 <= i ==> todos[i].id == id && forall j :: 0 <= j < i ==> todos[j].id != id
  {
    if |todos| == 0 then -1
    else if todos[0].id == id then 0
    else
      var k := FindIndex(todos[1..], id);
      assert forall j :: 1 <= j < |todos| ==> todos[j] == todos[1..][j - 1];
      if k == -1 then -1 else k + 1
  }

  /** `todos.filter(todo => todo.id !== id)`. */
  function RemoveId(todos: seq<Todo>, id: string): (r: seq<Todo>)
    ensures |r| <= |todos|
    ensures !HasId(r, id)
  {
    if |todos| == 0 then []
    else if todos[0].id == id then RemoveId(todos[1..], id)
    else [todos[0]] + RemoveId(todos[1..], id)
  }

  /** The filtered list holds exactly the records whose id differs. */
  lemma {:induction false} RemoveIdMembers(todos: seq<Todo>, id: string, t: Todo)
    ensures t in RemoveId(todos, id) <==> t in todos && t.id != id
  {
    if |todos| > 0 {
      RemoveIdMembers(todos[1..], id, t);
      assert todos == [todos[0]] + todos[1..];
    }
  }

  /** `todos[i].text = text`: the record at `i` gets the new text, as given. */
  function SetText(todos: seq<Todo>, i: nat, text: Value): (r: seq<Todo>)
    requires i < |todos|
    ensures |r| == |todos|
    ensures r[i] == Todo(todos[i].id, text, todos[i].completed)
    ensures forall j :: 0 <= j < |r| && j != i ==> r[j] == todos[j]
  {
    todos[i := todos[i].(text := text)]
  }

  /** Filtering distributes over concatenation: the kept records of each part
      stay in their original order. */
  lemma {:induction false} RemoveIdAppend(a: seq<Todo>, b: seq<Todo>, id: string)
    ensures RemoveId(a + b, id) == RemoveId(a, id) + RemoveId(b, id)
  {
    if |a| == 0 {
      assert a + b == b;
    } else {
      assert (a + b)[1..] == a[1..] + b;
      RemoveIdAppend(a[1..], b, id);
    }
  }

  /** Deleting an id that no record carries leaves the list as it was. */
  lemma {:induction false} RemoveIdAbsent(todos: seq<Todo>, id: string)
    requires !HasId(todos, id)
    ensures RemoveId(todos, id) == todos
  {
    if |todos| > 0 {
      assert todos[0].id != id;
      assert !HasId(todos[1..], id) by {
        forall j | 0 <= j < |todos[1..]| ensures todos[1..][j].id != id {
          assert todos[1..][j] == todos[j + 1];
        }
      }
      RemoveIdAbsent(todos[1..], id);
      assert todos == [todos[0]] + todos[1..];
    }
  }

  /** Deleting twice is the same as deleting once. */
  lemma RemoveIdIdempotent(todos: seq<Todo>, id: string)
    ensures RemoveId(RemoveId(todos, id), id) == RemoveId(todos, id)
  {
    RemoveIdAbsent(RemoveId(todos, id), id);
  }

  /** Deleting keeps the ids distinct. */
  lemma {:induction false} RemoveIdKeepsDistinct(todos: seq<Todo>, id: string)
    requires IdsDistinct(todos)
    ensures IdsDistinct(RemoveId(todos, id))
  {
    if |todos| > 0 {
      var rest := todos[1..];
      assert IdsDistinct(rest) by {
        forall i, j | 0 <= i < j < |rest| ensures rest[i].id != rest[j].id {
          assert rest[i] == todos[i + 1] && rest[j] == todos[j + 1];
        }
      }
      RemoveIdKeepsDistinct(rest, id);
      if todos[0].id != id {
        var r := RemoveId(rest, id);
        forall j | 0 <= j < |r| ensures r[j].id != todos[0].id {
          RemoveIdMembers(rest, id, r[j]);
          var k :| 0 <= k < |rest| && rest[k] == r[j];
          assert rest[k] == todos[k + 1];
        }
        assert RemoveId(todos, id) == [todos[0]] + r;
      }
    }
  }

  /** Deleting the id of the one record that carries it removes just that
      record. */
  lemma RemoveIdSingle(before: seq<Todo>, t: Todo, after: seq<Todo>)
    requires !HasId(before, t.id) && !HasId(after, t.id)
    ensures RemoveId(before + [t] + after, t.id) == before + after
  {
    var front := before + [t];
    assert RemoveId(front, t.id) == before by {
      assert RemoveId([t], t.id) == [] by {
        assert [t][1..] == [];
      }
      RemoveIdAppend(before, [t], t.id);
      RemoveIdAbsent(before, t.id);
    }
    assert RemoveId(front + after, t.id) == RemoveId(front, t.id) + after by {
      RemoveIdAppend(front, after, t.id);
      RemoveIdAbsent(after, t.id);
    }
  }

  /** With distinct ids, deleting a present id removes exactly the record that
      `FindIndex` finds and keeps every other record in order; the list
      shrinks by one. */
  lemma RemoveIdAtIndex(todos: seq<Todo>, id: string)
    requires IdsDistinct(todos) && HasId(todos, id)
    ensures var k := FindIndex(todos, id);
      0 <= k && RemoveId(todos, id) == todos[..k] + todos[k + 1..]
    ensures |RemoveId(todos, id)| == |todos| - 1
  {
    var k := FindIndex(todos, id);
    var before, after := todos[..k], todos[k + 1..];
    assert !HasId(before, id) by {
      forall j | 0 <= j < |before| ensures before[j].id != id {
        assert before[j] == todos[j];
      }
    }
    assert !HasId(after, id) by {
      forall j | 0 <= j < |after| ensures after[j].id != id {
        assert after[j] == todos[k + 1 + j];
      }
    }
    assert todos == before + [todos[k]] + after;
    RemoveIdSingle(before, todos[k], after);
  }

  /** Appending a record whose id is fresh keeps the ids distinct, and a later
      lookup of that id finds the appended record. */
  lemma AppendFresh(todos: seq<Todo>, t: Todo)
    requires IdsDistinct(todos) && !HasId(todos, t.id)
    ensures IdsDistinct(todos + [t])
    ensures FindIndex(todos + [t], t.id) == |todos|
  {
    var s := todos + [t];
    assert s[|todos|].id == t.id;
    forall i | 0 <= i < |todos| ensures s[i].id != t.id {
      assert s[i] == todos[i];
    }
  }
}
