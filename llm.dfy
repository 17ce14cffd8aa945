/** The completion service as the core sees it (`LlmService`): the HTTP
    exchange is outside the model, only its outcome is an input. */
module Llm {
  import opened Common
  import opened JsValues

  /** What a completion request ends with: an answer whose text parses (or
      not) as JSON, an answer whose first choice has missing, null or empty
      content, or a failed exchange. */
  datatype Completion = Answered(content: Content) | Blank | Unreachable

  /** `callLlm`'s last step: a completion without content is an error. */
  function CompletionContent(c: Completion): (r: Result<Content>)
    ensures r.Success? <==> c.Answered?
    ensures r.Success? ==> r.value == c.content
    ensures c.Blank? ==> r == Failure(EmptyCompletion)
    ensures c.Unreachable? ==> r == Failure(TransportFailure)
  {
    match c
    case Answered(content) => Success(content)
    case Blank => Failure(EmptyCompletion)
    case Unreachable => Failure(TransportFailure)
  }
}
