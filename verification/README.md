# Todo store and summary dispatcher, modelled in Dafny

The backend of this todo application keeps a list of records `{id, text, completed}` in memory in `backend/server.js`. Its HTTP handlers act on that list:
- GET `/todos` lists it.
- POST `/todos` validates the text and appends a record.
- PUT `/todos/:id` overwrites the text of the first record with the id.
- DELETE `/todos/:id` filters out the records with the id.
- POST `/summarize` builds a prompt from the texts of the pending (not completed) records. It sends the prompt to a text-completion provider, posts the returned summary to a chat webhook, and turns any failure of either step into one generic 500 reply.

Modules:
- `JsValues` (`js_values.dfy`) holds the JSON values a request's `text` can be. It also defines the two JavaScript conversions the server applies to them: truthiness (`!text`) and the way `Array.prototype.join` writes an element, where `undefined` and `null` become "".
- `Todos` (`todos.dfy`) holds the record, the replies, and the list operations as functions: `findIndex`, the id filter and the text overwrite. Lemmas cover order, idempotence and id distinctness.
- `Prompt` (`prompt.dfy`) holds the prompt built at lines 46 and 55. Its lemmas show that completed records never contribute and that pending texts appear in list order. When at least one record is pending and no pending text contains a newline, splitting the prompt body at newlines gives back exactly the pending texts.
- `Dispatcher` (`dispatcher.dfy`) models the `/summarize` try/catch as a function. Its inputs are the list and the two outbound calls, given as functions that return or throw. It returns the calls attempted and the reply.
- `Store` (`store.dfy`) models the module-level list as class `TodoStore`, with one method per handler. The class invariant `Valid()` says that ids are pairwise distinct and that no record is completed.

The model follows the code in two places where a reader might expect otherwise:
- The server does not check the text on update. An empty string, `null` or a missing `text` is stored as given, so a stored text can become empty.
- The two failure kinds of `/summarize` are not told apart. Both give the same 500 reply.

## Model

| member | source | states |
|---|---|---|
| Todos.FindIndex | backend/server.js:84-85 | the result is -1 exactly when no record has the id; otherwise the record there has the id and no earlier record has it |
| Todos.RemoveId | backend/server.js:35 | no record with the id is left and the list never grows |
| Todos.RemoveIdMembers | backend/server.js:35 | a record is in the filtered list exactly when it is in the list and its id differs |
| Todos.SetText | backend/server.js:87 | the record at the index keeps its id and flag and takes the new text; every other record and the length are unchanged |
| Todos.RemoveIdAppend | backend/server.js:35 | filtering distributes over concatenation, so kept records stay in their original order |
| Todos.RemoveIdAbsent | backend/server.js:35 | deleting an id no record carries leaves the list unchanged |
| Todos.RemoveIdIdempotent | backend/server.js:35 | deleting twice equals deleting once |
| Todos.RemoveIdKeepsDistinct | backend/server.js:35 | deleting keeps ids pairwise distinct |
| Todos.RemoveIdSingle | backend/server.js:35 | deleting the id of the one record that carries it removes that record alone and keeps the records before and after it in order |
| Todos.RemoveIdAtIndex | backend/server.js:35 | with distinct ids, deleting a present id removes exactly the record `findIndex` finds, keeps the rest in order, and shrinks the list by one |
| Todos.AppendFresh | backend/server.js:27-28 | appending a record with a fresh id keeps ids distinct, and a lookup of that id finds the new last record |
| JsValues.Truthy | backend/server.js:25 | `!text` is false exactly for values other than undefined, null, false and "" |
| JsValues.Render | backend/server.js:46 | join writes undefined and null as "", a string as itself and a boolean as "true" or "false" |
| JsValues.TruthyRendersNonEmpty | backend/server.js:25 | a text that passes the `!text` check is written as non-empty text in the prompt |
| Prompt.Pending | backend/server.js:46 | the kept records are exactly the list's records that are not completed |
| Prompt.Texts | backend/server.js:46 | `.map(t => t.text)` keeps one text per record, at the same position, in join's rendering; partner lemma TextsSnoc |
| Prompt.Join | backend/server.js:46 | `.join(sep)` of no parts is "" and of one part is that part; partner lemmas JoinSnoc (one more part adds the separator and the part) and SplitJoin (splitting inverts joining) |
| Prompt.TextsSnoc | backend/server.js:46 | mapping one more record to its text adds that text at the end |
| Prompt.SummaryPrompt | backend/server.js:55 | the prompt starts with "Summarize the following todos:\n" |
| Prompt.PendingAppend | backend/server.js:46 | filtering on `completed` distributes over concatenation, so order is kept |
| Prompt.PendingEmpty | backend/server.js:46 | nothing is pending exactly when every record is completed |
| Prompt.PendingAll | backend/server.js:46 | when no record is completed, every record is pending |
| Prompt.PendingIdempotent | backend/server.js:46 | filtering the pending records again changes nothing |
| Prompt.JoinSnoc | backend/server.js:46 | joining one more part adds the separator (unless it is the first part) and the part |
| Prompt.SplitLinesPlain | backend/server.js:46 | a text without a newline splits into itself alone |
| Prompt.SplitLinesCons | backend/server.js:46 | a line followed by "\n" splits off as the first part |
| Prompt.SplitJoin | backend/server.js:46 | splitting at newlines inverts joining with "\n", for one or more parts without newlines |
| Prompt.PromptIgnoresCompleted | backend/server.js:46-55 | the prompt of a list equals the prompt of its pending records alone |
| Prompt.PromptSkipsCompleted | backend/server.js:46-55 | inserting a completed record anywhere leaves the prompt unchanged |
| Prompt.PromptOfNothingPending | backend/server.js:46-55 | with no pending record, the prompt is the prefix alone |
| Prompt.PromptAppendPending | backend/server.js:46-55 | a pending record at the end adds its text as the last line, after "\n" unless it is the only pending one |
| Prompt.PromptDecodes | backend/server.js:46-55 | with one or more pending records and no newline in their texts, the prompt body splits back into the pending texts in list order |
| Prompt.PromptExample | backend/server.js:46-55 | for a pending "buy milk" and a completed "call bob", the prompt is the prefix followed by "buy milk" |
| Dispatcher.Summarize | backend/server.js:41-72 | the provider is always called first with the prompt; the webhook is called, with the summary, exactly when the provider returned; 200 with the success message exactly when both returned, otherwise the one 500 reply |
| Dispatcher.FailuresLookAlike | backend/server.js:69-72 | any run whose provider call threw and any run whose provider returned but whose webhook post threw, over any lists and collaborators, send the same reply |
| Dispatcher.SummarizeIgnoresCompleted | backend/server.js:46-57 | the whole run, calls and reply, is the same for a list and for its pending records alone |
| Store.TodoStore.constructor | backend/server.js:15 | the store starts empty and valid |
| Store.TodoStore.List | backend/server.js:18-20 | the reply is the whole list, in order |
| Store.TodoStore.Create | backend/server.js:23-30 | a falsy text gives 400 "Text is required" and an unchanged list; otherwise exactly one record `{id, text, completed: false}` is appended at the end, earlier records are unchanged, the reply is 201 with that record, and the invariant holds |
| Store.TodoStore.Delete | backend/server.js:33-37 | the reply is always 204; the list becomes the filtered list; a present id removes exactly its one record and keeps the order; an absent id leaves the list unchanged; the invariant holds |
| Store.TodoStore.Update | backend/server.js:80-89 | an unknown id gives 404 "Todo not found" and an unchanged list; otherwise only the text of the first record with the id changes, to the given value without a check, and the reply is 200 with the updated record; the invariant holds |
| Store.TodoStore.Summarize | backend/server.js:40-73 | the run is the dispatcher's run over the current list, which is not modified; since no stored record is completed, the prompt lists every record's text |

## Left out

- Request bodies whose `text` is a number, array or object are not modelled. `text` is undefined, null, a boolean or a string.
- JSON serialisation of replies is not modelled. For example, a record whose text is `undefined` goes out without a `text` key. Express routing, `cors`, `dotenv`, `app.listen` and `console.log` are not modelled either.
- Store.TodoStore.Create: `uuidv4()` is a parameter, and the model requires it to be fresh when the text passes validation. Uniqueness of random UUIDs is assumed, not proved.
- Records are values in a sequence. The aliasing between the record the create reply returns and the one in the list is not modelled. It cannot be observed because replies are serialised at once.
- Dispatcher.Summarize: the completion provider and the webhook are functions that return or throw. Their requests, their responses and the summary's content are not modelled. Creating the provider client, the request and reading `choices[0].message.content` are one step. A `null` content is not modelled. The webhook's response status is not modelled: the webhook step fails exactly when its POST throws.
- Concurrent requests are not modelled. Each handler runs atomically, as it does on the single-threaded event loop. Because the model is atomic, it does not show the list changing during the awaited calls of `/summarize`.
- The React front end (`frontend/src/App.js`) is not part of this model. Its trim checks are client-side only.
