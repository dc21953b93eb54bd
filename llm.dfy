/** The language-model provider as the routes see it. A call hands over one
    request and either throws or returns a completion whose message content
    may be absent (`choices[0]?.message?.content` is `null` or missing). The
    provider itself is a parameter of every route: a function from request to
    completion. */
module Llm {
  import opened Domain
  import opened Strings

  const TriageModel := "llama3.1-8b"
  /** Used by both summary calls of the analyze route and by the answer call
      of the chat route. */
  const ScoutModel := "llama-4-scout-17b-16e-instruct"
  const ScreenModel := "llama-4-maverick-17b-128e-instruct"

  /** The prompt of each template, by the runtime data interpolated into it;
      the fixed wording of the templates is not modelled. */
  datatype Prompt =
    | FrontPage(scanText: string)
    | IngredientSummary(ingredientData: string)
    | Triage(history: string, question: string)
    | Analyst(ingredientData: string, history: string, question: string)
    | SafetyCheck(answer: string)

  datatype CompletionRequest = CompletionRequest(model: string, prompt: Prompt, maxTokens: nat)

  datatype Completion = Thrown | Returned(content: Option<string>)

  type Provider = CompletionRequest -> Completion

  /** `content?.trim() || fallback`: the trimmed content, or the fallback when
      the content is absent or only white space. */
  function TrimmedOr(content: Option<string>, fallback: string): (r: string)
    ensures content.None? ==> r == fallback
    ensures content.Some? && AllSpace(content.value) ==> r == fallback
    ensures content.Some? && !AllSpace(content.value) ==>
      r != "" && Trimmed(r) && exists p, q :: AllSpace(p) && AllSpace(q) && content.value == p + r + q
  {
    if content.Some? then
      TrimSplit(content.value);
      TrimEmpty(content.value);
      var t := Trim(content.value);
      if t == "" then fallback else t
    else fallback
  }
}
