/** The backend's language-model endpoints: `chat_with_llm`,
    `quick_contract_prompt`, `analyze_clause` and `explain_contract`. Each one
    guards against blank input before calling the model and against a blank
    reply after it. A model reply is a parameter. Every endpoint also returns the
    requests it sent, so "no model call" can be stated. */
module Endpoints {
  import opened Wrappers
  import opened Strings
  import opened LlmText

  /** A request to the language model: a single prompt, or a chat made of a
      system message and a user message. */
  datatype LlmRequest = Prompt(text: string) | Chat(system: string, user: string)

  /** An endpoint's answer together with the model requests made to produce it. */
  datatype Exchange<T> = Exchange(answer: T, requests: seq<LlmRequest>)

  datatype ContractExplanation = ContractExplanation(
    summary: string,
    keyPoints: seq<string>,
    recommendations: string)

  const ASK_FOR_TOPIC := "Please provide " + "a question or topic to discuss."
  const CHAT_APOLOGY :=
    "I'm MyGuard, " + "and I'm sorry, but I couldn't generate a response. Please try rephrasing your question."
  const CHAT_SYSTEM_PROMPT :=
    "You are MyGuard, a helpful contract analysis assistant that specializes in legal document review. "
    + "Provide short and focused answers about contract clauses, legal terms, and document analysis. "
    + "When identifying potentially unfair clauses, be specific about why they might be problematic. "
    + "Keep responses concise (under 200 words) and always identify yourself as MyGuard."
  const EMPTY_PROMPT := "Empty prompt received"
  const EMPTY_RESPONSE := "Received empty response from language model"
  const EMPTY_CLAUSE := "Empty clause received"
  const EMPTY_CONTRACT := "Empty contract text received"

  /** A text that begins with a non-white-space character is not blank. */
  lemma NotBlankWhenFirstIsVisible(s: string)
    requires s != [] && !IsWhitespace(s[0])
    ensures !IsBlank(s)
  {
  }

  /** A trimmed text is blank only when it is empty. */
  lemma TrimmedBlankIsEmpty(s: string)
    requires IsTrimmed(s)
    ensures IsBlank(s) <==> s == []
  {
    TrimmedIsFixpoint(s);
  }

  /** `chat_with_llm`: a blank question gets a fixed request for a topic and is
      not sent to the model; a blank reply gets a fixed apology; any other reply
      is returned as it is. The answer is never blank. */
  function ChatWithLlm(prompt: string, reply: string): (r: Exchange<string>)
    ensures IsBlank(prompt) ==> r == Exchange(ASK_FOR_TOPIC, [])
    ensures !IsBlank(prompt) ==> r.requests == [Chat(CHAT_SYSTEM_PROMPT, prompt)]
    ensures !IsBlank(prompt) && !IsBlank(reply) ==> r.answer == reply
    ensures !IsBlank(prompt) && IsBlank(reply) ==> r.answer == CHAT_APOLOGY
    ensures !IsBlank(r.answer)
  {
    NotBlankWhenFirstIsVisible(ASK_FOR_TOPIC);
    NotBlankWhenFirstIsVisible(CHAT_APOLOGY);
    if IsBlank(prompt) then Exchange(ASK_FOR_TOPIC, [])
    else if IsBlank(reply) then Exchange(CHAT_APOLOGY, [Chat(CHAT_SYSTEM_PROMPT, prompt)])
    else Exchange(reply, [Chat(CHAT_SYSTEM_PROMPT, prompt)])
  }

  function QuickPrompt(prompt: string): string {
    "Answer this contract-related question concisely (under 100 words): " + prompt
  }

  /** `quick_contract_prompt`: an error for a blank question, with no model
      call; otherwise one prompt, and the model's reply unless it is blank. */
  function QuickContractPrompt(prompt: string, reply: string): (r: Exchange<Result<string, string>>)
    ensures IsBlank(prompt) ==> r == Exchange(Failure(EMPTY_PROMPT), [])
    ensures !IsBlank(prompt) ==> r.requests == [Prompt(QuickPrompt(prompt))]
    ensures !IsBlank(prompt) ==> (r.answer.Success? <==> !IsBlank(reply))
    ensures r.answer.Success? ==> r.answer.value == reply && !IsBlank(r.answer.value)
    ensures r.answer.Failure? && !IsBlank(prompt) ==> r.answer.error == EMPTY_RESPONSE
  {
    if IsBlank(prompt) then Exchange(Failure(EMPTY_PROMPT), [])
    else if IsBlank(reply) then Exchange(Failure(EMPTY_RESPONSE), [Prompt(QuickPrompt(prompt))])
    else Exchange(Success(reply), [Prompt(QuickPrompt(prompt))])
  }

  function ClauseVerdictPrompt(clause: string): string {
    "Analyze this contract clause and determine if it is fair or potentially unfair. "
    + "Respond with ONLY 'Allowed' or 'Not Allowed': '" + clause + "'"
  }

  /** The answer `analyze_clause` gives for a cleaned reply. */
  function CleanedAnswer(cleaned: string): (answer: Result<string, string>)
    requires IsTrimmed(cleaned)
    ensures answer.Success? <==> cleaned != []
    ensures answer.Success? ==> answer.value == cleaned
    ensures answer.Failure? ==> answer.error == EMPTY_RESPONSE
  {
    TrimmedBlankIsEmpty(cleaned);
    if IsBlank(cleaned) then Failure(EMPTY_RESPONSE) else Success(cleaned)
  }

  /** `analyze_clause`: an error for a blank clause, with no model call;
      otherwise one prompt, and the cleaned reply unless cleaning leaves nothing.
      A successful answer is non-empty and has no surrounding white space. */
  function AnalyzeClause(clause: string, reply: string): (r: Exchange<Result<string, string>>)
    ensures IsBlank(clause) ==> r == Exchange(Failure(EMPTY_CLAUSE), [])
    ensures !IsBlank(clause) ==> r.requests == [Prompt(ClauseVerdictPrompt(clause))]
    ensures !IsBlank(clause) ==> (r.answer.Success? <==> CleanLlmResponse(reply) != [])
    ensures r.answer.Success? ==>
              r.answer.value == CleanLlmResponse(reply) && r.answer.value != [] && IsTrimmed(r.answer.value)
    ensures r.answer.Failure? && !IsBlank(clause) ==> r.answer.error == EMPTY_RESPONSE
  {
    if IsBlank(clause) then Exchange(Failure(EMPTY_CLAUSE), [])
    else Exchange(CleanedAnswer(CleanLlmResponse(reply)), [Prompt(ClauseVerdictPrompt(clause))])
  }

  function SummaryPrompt(text: string): string {
    "Provide a brief 2-3 sentence summary of this contract clause: '" + text + "'"
  }

  function KeyPointsPrompt(text: string): string {
    "List 3 key points from this contract clause as short bullet points without explanations: '" + text + "'"
  }

  function RecommendationsPrompt(text: string): string {
    "Provide 1-2 recommendations regarding this contract clause: '" + text + "'"
  }

  /** `explain_contract`: an error for a blank text, with no model call;
      otherwise three prompts (summary, key points, recommendations), in that
      order, `replies(k)` answering the k-th. Each part is the cleaned reply;
      the key points are its non-empty lines without their bullets. */
  function ExplainContract(text: string, replies: nat -> string): (r: Exchange<Result<ContractExplanation, string>>)
    ensures IsBlank(text) ==> r == Exchange(Failure(EMPTY_CONTRACT), [])
    ensures !IsBlank(text) ==>
              && r.requests == [Prompt(SummaryPrompt(text)), Prompt(KeyPointsPrompt(text)),
                                Prompt(RecommendationsPrompt(text))]
              && r.answer.Success?
              && r.answer.value.summary == CleanLlmResponse(replies(0))
              && r.answer.value.keyPoints == KeyPoints(CleanLlmResponse(replies(1)))
              && r.answer.value.recommendations == CleanLlmResponse(replies(2))
    ensures r.answer.Success? ==>
              && IsTrimmed(r.answer.value.summary)
              && IsTrimmed(r.answer.value.recommendations)
              && forall i :: 0 <= i < |r.answer.value.keyPoints| ==> IsTrimmed(r.answer.value.keyPoints[i])
  {
    if IsBlank(text) then Exchange(Failure(EMPTY_CONTRACT), [])
    else
      var summary := CleanLlmResponse(replies(0));
      var keyPointsText := CleanLlmResponse(replies(1));
      var recommendations := CleanLlmResponse(replies(2));
      Exchange(Success(ContractExplanation(summary, KeyPoints(keyPointsText), recommendations)),
               [Prompt(SummaryPrompt(text)), Prompt(KeyPointsPrompt(text)), Prompt(RecommendationsPrompt(text))])
  }
}
