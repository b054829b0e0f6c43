/**
 * What both agent revisions share: custom handlers and their registration
 * (a handler maps the conversation state to the messages to append, and may
 * raise), the validation and apology texts of `chat`, and how an answer is
 * drawn from the model and from the final history.
 */
module AgentCommon {
  import opened Models
  import opened Oracle

  const ErrorApology := "I apologize, but I encountered an error while processing your request. Please try again."
  const NoReplyApology := "I apologize, but I couldn't process your request."
  const MessageError := "Message must be a non-empty string"
  const UserIdError := "User ID must be a non-empty string"

  /** What calling a developer's handler does: return messages, or raise. */
  datatype HandlerResult = Returned(response: HandlerResponse) | Raised(error: string)

  type Handler = AgentState -> HandlerResult

  /** The value offered to `register_handler`, which need not be callable. */
  datatype HandlerValue = Callable(run: Handler) | NotCallable

  /** The three `ValueError`s `register_handler` raises, in the order it checks them. */
  datatype RegistrationError = EmptyCategory | NotCallableHandler | AlreadyRegistered

  /** A registration either succeeds, perhaps with a non-fatal warning, or is refused. */
  datatype Registration = Registered(warned: bool) | Refused(error: RegistrationError)

  /** The text of each `ValueError`. */
  function RegistrationErrorText(e: RegistrationError, category: string): string {
    match e
    case EmptyCategory => "Category must be a non-empty string"
    case NotCallableHandler => "Handler must be callable"
    case AlreadyRegistered =>
      "Handler for category '" + category + "' already registered. "
      + "Use a different category name or unregister first."
  }

  /**
   * The outcome of `register_handler(category, handler)` against the current
   * table: refused for an empty name, then for a non-callable handler, then
   * for a name already taken; otherwise accepted, with a warning exactly when
   * categories are declared and the name is not one of them.
   */
  function RegistrationOf(handlers: map<string, Handler>, categories: seq<string>, category: string, handler: HandlerValue)
    : (reg: Registration)
    ensures reg.Refused? <==> category == "" || handler.NotCallable? || category in handlers
    ensures category == "" ==> reg == Refused(EmptyCategory)
    ensures category != "" && handler.NotCallable? ==> reg == Refused(NotCallableHandler)
    ensures category != "" && handler.Callable? && category in handlers ==> reg == Refused(AlreadyRegistered)
    ensures reg.Registered? ==> (reg.warned <==> |categories| > 0 && category !in categories)
  {
    if category == "" then Refused(EmptyCategory)
    else if handler.NotCallable? then Refused(NotCallableHandler)
    else if category in handlers then Refused(AlreadyRegistered)
    else Registered(|categories| > 0 && category !in categories)
  }

  /**
   * Registering the same name twice is refused as "already registered", and
   * after unregistering it the name can be registered again.
   */
  lemma RegisterTwiceThenUnregister(handlers: map<string, Handler>, categories: seq<string>, category: string, f: Handler, g: Handler)
    requires category != "" && category !in handlers
    ensures RegistrationOf(handlers, categories, category, Callable(f)).Registered?
    ensures RegistrationOf(handlers[category := f], categories, category, Callable(g)) == Refused(AlreadyRegistered)
    ensures RegistrationOf(handlers[category := f] - {category}, categories, category, Callable(g)).Registered?
  {
  }

  function Last(ms: seq<Message>): Message
    requires |ms| > 0
  {
    ms[|ms| - 1]
  }

  /** The assistant text `_generate_response` produces: the model's answer, or the error text. */
  function GeneratedText(reply: Reply): (text: string)
    ensures reply.Failure? ==> "Error: " <= text
    ensures reply.Text? ==> text == reply.content
  {
    match reply
    case Text(c) => c
    case Failure(e) => "Error: " + e
  }

  /** The reply `chat` extracts from the final history: the last message's text, or a fixed apology. */
  function ReplyText(ms: seq<Message>): (text: string)
    ensures |ms| > 0 ==> text == Last(ms).content
    ensures |ms| == 0 ==> text == NoReplyApology
  {
    if |ms| > 0 then Last(ms).content else NoReplyApology
  }

  /** The result of running a step that may raise. */
  datatype StepResult = Continue(state: AgentState) | Failed(error: string)

  /** The answer of `chat`, or the `ValueError` it raises for bad input. */
  datatype ChatOutcome = Answer(text: string) | InvalidArgument(reason: string)
}
