/**
 * What the two analyzers share: the structured answer the model is asked
 * for, the fixed record returned instead of raising, the limit on how much
 * content is sent, and the model call itself as an oracle from prompts to
 * outcomes. Prompt wording is not modelled: a prompt is the kind of request
 * plus the data it carries.
 */
module Analysis {

  /** The `format_trend_analysis` object: one-sentence context, bullet points, one category. */
  datatype Analysis = Analysis(context: string, summary: seq<string>, category: string)

  const SentinelContext := "Error during analysis."

  /** The record both analyzers return when the model call or the parsing of its answer raises. */
  const Sentinel := Analysis(SentinelContext, ["Could not generate summary points."], "Error")

  /** The number of characters of transcript or scraped text placed in a prompt (`[:15000]`). */
  const MaxContentLength: nat := 15000

  /** The three prompts of the repository, reduced to what each carries. */
  datatype Prompt =
    | TranscriptPrompt(title: string, content: string)
    | TitleOnlyPrompt(title: string)
    | ScrapePrompt(trendQuery: string, content: string)

  /** The model's function call parsed into the three fields, or the exception on the way. */
  datatype LlmOutcome = Answered(analysis: Analysis) | Raised(message: string)

  type Llm = Prompt -> LlmOutcome

  /** The `try` around the model call: its parsed answer, or the sentinel on any exception. */
  function Ask(llm: Llm, prompt: Prompt): (a: Analysis)
    ensures llm(prompt).Answered? ==> a == llm(prompt).analysis
    ensures llm(prompt).Raised? ==> a == Sentinel
  {
    match llm(prompt)
    case Answered(a) => a
    case Raised(_) => Sentinel
  }

  /** Whether a model never answers with the sentinel's context itself. */
  ghost predicate NeverAnswersSentinelContext(llm: Llm)
  {
    forall p :: llm(p).Answered? ==> llm(p).analysis.context != SentinelContext
  }

  /**
   * For such a model, an analysis carries the sentinel's context exactly when
   * the call raised: the sentinel is how callers recognise a failure.
   */
  lemma SentinelMarksFailure(llm: Llm, prompt: Prompt)
    requires NeverAnswersSentinelContext(llm)
    ensures Ask(llm, prompt).context == SentinelContext <==> llm(prompt).Raised?
    ensures llm(prompt).Raised? ==> Ask(llm, prompt) == Sentinel
  {
  }
}
