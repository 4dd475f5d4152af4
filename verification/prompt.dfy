/** The text sent to the completion provider: a fixed instruction followed by
    the texts of the records not marked completed, one per line. */
module Prompt {
  import opened JsValues
  import opened Todos

  const Prefix: string := "Summarize the following todos:\n"

  /** `todos.filter(todo => !todo.completed)`. */
  function Pending(todos: seq<Todo>): (r: seq<Todo>)
    ensures |r| <= |todos|
    ensures forall t :: t in r ==> t in todos && !t.completed
    ensures forall t :: t in todos && !t.completed ==> t in r
  {
    if |todos| == 0 then []
    else (if todos[0].completed then [] else [todos[0]]) + Pending(todos[1..])
  }

  /** `.map(t => t.text)`, each element in the form `join` writes it. */
  function Texts(todos: seq<Todo>): (r: seq<string>)
    ensures |r| == |todos|
    ensures forall i :: 0 <= i < |todos| ==> r[i] == Render(todos[i].text)
  {
    seq(|todos|, i requires 0 <= i < |todos| => Render(todos[i].text))
  }

  /** Mapping one more record adds its text at the end. */
  lemma TextsSnoc(todos: seq<Todo>, t: Todo)
    ensures Texts(todos + [t]) == Texts(todos) + [Render(t.text)]
  {
    var l, r := Texts(todos + [t]), Texts(todos) + [Render(t.text)];
    assert |l| == |r|;
    forall i | 0 <= i < |l| ensures l[i] == r[i] {
      if i < |todos| {
        assert (todos + [t])[i] == todos[i];
      }
    }
  }

  /** `parts.join(sep)`. */
  function Join(parts: seq<string>, sep: string): (r: string)
    ensures parts == [] ==> r == ""
    ensures |parts| == 1 ==> r == parts[0]
  {
    if |parts| == 0 then ""
    else if |parts| == 1 then parts[0]
    else parts[0] + sep + Join(parts[1..], sep)
  }

  /** Cuts a string at every newline; the inverse of joining with "\n". */
  function SplitLines(s: string): (parts: seq<string>)
    ensures |parts| >= 1
  {
    if |s| == 0 then [""]
    else
      var rest := SplitLines(s[1..]);
      if s[0] == '\n' then [""] + rest
      else [[s[0]] + rest[0]] + rest[1..]
  }

  /** `"Summarize the following todos:\n" + pendingTodos`. */
  function SummaryPrompt(todos: seq<Todo>): (p: string)
    ensures |Prefix| <= |p| && p[..|Prefix|] == Prefix
  {
    Prefix + Join(Texts(Pending(todos)), "\n")
  }

  /** String concatenation regrouped; stated on variables so that the solver
      does not unfold the literal prefix. */
  lemma Regroup(a: string, b: string, c: string, d: string)
    ensures a + (b + c + d) == (a + b) + c + d
  {
  }

  /** Filtering out completed records distributes over concatenation. */
  lemma {:induction false} PendingAppend(a: seq<Todo>, b: seq<Todo>)
    ensures Pending(a + b) == Pending(a) + Pending(b)
  {
    if |a| == 0 {
      assert a + b == b;
    } else {
      assert (a + b)[1..] == a[1..] + b;
      PendingAppend(a[1..], b);
    }
  }

  /** Nothing is pending exactly when every record is completed. */
  lemma {:induction false} PendingEmpty(todos: seq<Todo>)
    ensures Pending(todos) == [] <==> forall i :: 0 <= i < |todos| ==> todos[i].completed
  {
    if |todos| > 0 {
      PendingEmpty(todos[1..]);
      assert forall i :: 1 <= i < |todos| ==> todos[i] == todos[1..][i - 1];
    }
  }

  /** When no record is completed, as in the store, every record is pending. */
  lemma {:induction false} PendingAll(todos: seq<Todo>)
    requires NoneCompleted(todos)
    ensures Pending(todos) == todos
  {
    if |todos| > 0 {
      assert NoneCompleted(todos[1..]) by {
        assert forall i :: 1 <= i < |todos| ==> todos[i] == todos[1..][i - 1];
      }
      PendingAll(todos[1..]);
      assert todos == [todos[0]] + todos[1..];
    }
  }

  /** The pending records of the pending records are the pending records. */
  lemma PendingIdempotent(todos: seq<Todo>)
    ensures Pending(Pending(todos)) == Pending(todos)
  {
    PendingAll(Pending(todos));
  }

  /** Joining one more part adds the separator and the part. */
  lemma {:induction false} JoinSnoc(parts: seq<string>, s: string, sep: string)
    ensures Join(parts + [s], sep) == if parts == [] then s else Join(parts, sep) + sep + s
  {
    if |parts| == 1 {
      assert parts + [s] == [parts[0], s];
      assert (parts + [s])[1..] == [s];
    } else if |parts| > 1 {
      assert (parts + [s])[1..] == parts[1..] + [s];
      JoinSnoc(parts[1..], s, sep);
    }
  }

  /** A string without a newline splits into itself alone. */
  lemma {:induction false} SplitLinesPlain(p: string)
    requires '\n' !in p
    ensures SplitLines(p) == [p]
  {
    if |p| > 0 {
      assert '\n' !in p[1..] by {
        assert forall i :: 0 <= i < |p[1..]| ==> p[1..][i] == p[i + 1];
      }
      SplitLinesPlain(p[1..]);
      assert [p[0]] + p[1..] == p;
    }
  }

  /** A line followed by a newline splits off as the first part. */
  lemma {:induction false} SplitLinesCons(p: string, q: string)
    requires '\n' !in p
    ensures SplitLines(p + "\n" + q) == [p] + SplitLines(q)
  {
    if |p| == 0 {
      assert p + "\n" + q == "\n" + q;
      assert ("\n" + q)[1..] == q;
    } else {
      assert '\n' !in p[1..] by {
        assert forall i :: 0 <= i < |p[1..]| ==> p[1..][i] == p[i + 1];
      }
      SplitLinesCons(p[1..], q);
      assert (p + "\n" + q)[1..] == p[1..] + "\n" + q;
      assert [p[0]] + p[1..] == p;
    }
  }

  /** Joining with "\n" and splitting at newlines gives back the parts, as long
      as there is at least one part and none contains a newline. */
  lemma {:induction false} SplitJoin(parts: seq<string>)
    requires |parts| >= 1
    requires forall i :: 0 <= i < |parts| ==> '\n' !in parts[i]
    ensures SplitLines(Join(parts, "\n")) == parts
  {
    if |parts| == 1 {
      SplitLinesPlain(parts[0]);
    } else {
      SplitJoin(parts[1..]);
      SplitLinesCons(parts[0], Join(parts[1..], "\n"));
      assert parts == [parts[0]] + parts[1..];
    }
  }

  /** Completed records never contribute: the prompt of a list is the prompt
      of its pending records alone. */
  lemma PromptIgnoresCompleted(todos: seq<Todo>)
    ensures SummaryPrompt(todos) == SummaryPrompt(Pending(todos))
  {
    PendingIdempotent(todos);
  }

  /** Inserting a completed record anywhere leaves the prompt unchanged. */
  lemma PromptSkipsCompleted(a: seq<Todo>, t: Todo, b: seq<Todo>)
    requires t.completed
    ensures SummaryPrompt(a + [t] + b) == SummaryPrompt(a + b)
  {
    assert Pending([t]) == [] by {
      assert [t][1..] == [];
    }
    assert Pending(a + [t] + b) == Pending(a + b) by {
      PendingAppend(a + [t], b);
      PendingAppend(a, [t]);
      PendingAppend(a, b);
    }
  }

  /** With nothing pending, the prompt is the prefix alone. */
  lemma PromptOfNothingPending(todos: seq<Todo>)
    requires forall i :: 0 <= i < |todos| ==> todos[i].completed
    ensures SummaryPrompt(todos) == Prefix
  {
    PendingEmpty(todos);
  }

  /** A pending record at the end adds its text as a last line, after a
      newline unless it is the first pending record. */
  lemma PromptAppendPending(todos: seq<Todo>, t: Todo)
    requires !t.completed
    ensures SummaryPrompt(todos + [t]) ==
      if Pending(todos) == [] then Prefix + Render(t.text)
      else SummaryPrompt(todos) + "\n" + Render(t.text)
  {
    var before := Texts(Pending(todos));
    var line := Render(t.text);
    assert Pending(todos + [t]) == Pending(todos) + [t] by {
      assert Pending([t]) == [t] by {
        assert [t][1..] == [];
      }
      PendingAppend(todos, [t]);
    }
    TextsSnoc(Pending(todos), t);
    JoinSnoc(before, line, "\n");
    var j := Join(before, "\n");
    assert SummaryPrompt(todos + [t]) == Prefix + Join(before + [line], "\n");
    if Pending(todos) == [] {
      assert before == [];
    } else {
      assert before != [];
      assert SummaryPrompt(todos) == Prefix + j;
      Regroup(Prefix, j, "\n", line);
    }
  }

  /** The prompt determines the pending texts, in list order, whenever at
      least one record is pending and no pending text holds a newline. */
  lemma PromptDecodes(todos: seq<Todo>)
    requires Pending(todos) != []
    requires forall t :: t in Pending(todos) ==> '\n' !in Render(t.text)
    ensures SplitLines(SummaryPrompt(todos)[|Prefix|..]) == Texts(Pending(todos))
  {
    var texts := Texts(Pending(todos));
    forall i | 0 <= i < |texts| ensures '\n' !in texts[i] {
      assert Pending(todos)[i] in Pending(todos);
    }
    SplitJoin(texts);
    assert SummaryPrompt(todos)[|Prefix|..] == Join(texts, "\n");
  }

  /** The example of a list with one pending and one completed record: only the
      pending text reaches the prompt. */
  lemma PromptExample(a: string, b: string)
    ensures SummaryPrompt([Todo(a, Str("buy milk"), false), Todo(b, Str("call bob"), true)])
      == Prefix + "buy milk"
  {
    var todos := [Todo(a, Str("buy milk"), false), Todo(b, Str("call bob"), true)];
    PromptSkipsCompleted([todos[0]], todos[1], []);
    assert [todos[0]] + [todos[1]] + [] == todos;
    assert Pending([todos[0]]) == [todos[0]];
  }
}
