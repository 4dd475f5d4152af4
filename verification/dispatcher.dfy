/** The `/summarize` handler: send the prompt to the completion provider, then
    post the returned summary to the webhook, and collapse any failure of
    either step into one generic 500 reply. */
module Dispatcher {
  import opened Todos
  import opened Prompt

  /** What an awaited outbound call did: it resolved with a value, or it threw
      (a network error, a rejected request, a malformed response). */
  datatype Outcome<T> = Returned(value: T) | Threw

  /** An outbound call the handler attempted, with what it sent. */
  datatype Call = CompletionRequest(prompt: string) | WebhookPost(text: string)

  /** The calls attempted, in order, and the reply sent to the client. */
  datatype Run = Run(calls: seq<Call>, reply: Reply)

  const SentMessage: string := "Summary sent to Slack successfully."
  const FailedMessage: string := "Failed to summarize or send to Slack."

  /** The try/catch of the handler. `complete` stands for creating the
      provider client, requesting the completion and reading the first
      choice's content; `post` stands for the webhook POST. */
  function Summarize(todos: seq<Todo>, complete: string -> Outcome<string>,
                     post: string -> Outcome<()>): (run: Run)
    ensures 1 <= |run.calls| <= 2
    ensures run.calls[0] == CompletionRequest(SummaryPrompt(todos))
    ensures |run.calls| == 2 <==> complete(SummaryPrompt(todos)).Returned?
    ensures |run.calls| == 2 ==> run.calls[1] == WebhookPost(complete(SummaryPrompt(todos)).value)
    ensures run.reply == MessageReply(200, SentMessage) <==>
      complete(SummaryPrompt(todos)).Returned? && post(complete(SummaryPrompt(todos)).value).Returned?
    ensures run.reply != MessageReply(200, SentMessage) ==> run.reply == ErrorReply(500, FailedMessage)
  {
    var prompt := SummaryPrompt(todos);
    match complete(prompt)
    case Threw =>
      Run([CompletionRequest(prompt)], ErrorReply(500, FailedMessage))
    case Returned(summary) =>
      var calls := [CompletionRequest(prompt), WebhookPost(summary)];
      match post(summary)
      case Threw => Run(calls, ErrorReply(500, FailedMessage))
      case Returned(_) => Run(calls, MessageReply(200, SentMessage))
  }

  /** The client cannot tell which step failed: any run whose provider call
      threw and any run whose provider returned but whose webhook post threw
      send the same reply. */
  lemma FailuresLookAlike(todos: seq<Todo>, complete: string -> Outcome<string>,
                          post: string -> Outcome<()>,
                          todos': seq<Todo>, complete': string -> Outcome<string>,
                          post': string -> Outcome<()>)
    requires complete(SummaryPrompt(todos)).Threw?
    requires complete'(SummaryPrompt(todos')).Returned?
    requires post'(complete'(SummaryPrompt(todos')).value).Threw?
    ensures Summarize(todos, complete, post).reply == Summarize(todos', complete', post').reply
  {
  }

  /** Completed records do not reach the provider: summarizing a list is the
      same as summarizing its pending records alone. */
  lemma SummarizeIgnoresCompleted(todos: seq<Todo>, complete: string -> Outcome<string>,
                                  post: string -> Outcome<()>)
    ensures Summarize(todos, complete, post) == Summarize(Pending(todos), complete, post)
  {
    PromptIgnoresCompleted(todos);
  }
}
