/**
 * The language model seen from the agent: every `llm.ainvoke(prompt)` either
 * comes back with a response whose `content` is some text, or raises. Prompt
 * wording carries no checkable behaviour, so a call is identified only by the
 * place in the agent that makes it.
 */
module Oracle {

  /** What one call to the language model produced. */
  datatype Reply = Text(content: string) | Failure(error: string)

  /** The call sites of one conversation turn in the multi-node agent. */
  datatype Call =
    | ThreadCheck      // "NEW" or "CONTINUE"
    | ClassifyCall     // one category name
    | RequirementsCall // missing field names or "NONE"
    | QuestionCall     // a question asking for the missing fields
    | GenerateCall     // the default answer

  /** The replies one turn receives, one per call site. */
  type Replies = Call -> Reply
}
