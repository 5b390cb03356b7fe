/**
 * Provider selection for the two call-site tiers of `oi`, and the
 * commit-message step on top of whatever text the chosen provider returns.
 */
module Ai {
  import opened Wrappers
  import opened Strings
  import opened OiErrors
  import ClaudeCli

  const SYSTEM_PROMPT: string :=
    "You are a senior engineer writing a git commit message for the staged diff below. "
    + "Produce text in this exact format: A single short first line summary (<=72 chars), then a blank line, "
    + "then a concise list of semantic changes (bullets or short paragraphs). "
    + "Do not add quotes, prefixes, git trailers, or commentary. Only describe changes present in the staged diff."

  const CLAUDE_REVIEW_MODEL: string := "opus"
  const CLAUDE_COMMIT_MODEL: string := "sonnet"
  const OPENAI_MODEL: string := "gpt-4o"

  /** The two call sites that each get a language model. */
  datatype Tier = ReviewTier | CommitTier

  /** The hosted API with a model name, or the local Claude command line with one. */
  datatype Provider = OpenAi(model: string) | ClaudeCliProvider(model: string)

  /** `AiReviewLive` and `AiCommitLive`: a present `OPENAI_API_KEY` (even an empty one) selects the hosted API. */
  function SelectProvider(tier: Tier, openAiKey: Option<string>): (p: Provider)
    ensures p.OpenAi? <==> openAiKey.Some?
    ensures p.OpenAi? ==> p.model == OPENAI_MODEL
    ensures p.ClaudeCliProvider? ==> p.model == if tier.ReviewTier? then CLAUDE_REVIEW_MODEL else CLAUDE_COMMIT_MODEL
  {
    if openAiKey.Some? then OpenAi(OPENAI_MODEL)
    else match tier
      case ReviewTier => ClaudeCliProvider(CLAUDE_REVIEW_MODEL)
      case CommitTier => ClaudeCliProvider(CLAUDE_COMMIT_MODEL)
  }

  /** One environment never mixes providers across the two tiers. */
  lemma TiersAgree(openAiKey: Option<string>)
    ensures SelectProvider(ReviewTier, openAiKey).OpenAi? == SelectProvider(CommitTier, openAiKey).OpenAi?
    ensures SelectProvider(ReviewTier, openAiKey).ClaudeCliProvider? ==>
      SelectProvider(ReviewTier, openAiKey).model != SelectProvider(CommitTier, openAiKey).model
  {
  }

  /** On the command-line path each tier passes its own model flag to `claude`. */
  lemma ClaudeTierArgs(tier: Tier, mode: ClaudeCli.OutputMode)
    ensures var p := SelectProvider(tier, None);
      ClaudeCli.CliArgs(mode, Some(p.model))[5..] == ["--model", if tier.ReviewTier? then "opus" else "sonnet"]
  {
  }

  /** The prompt `generateCommitMessage` hands to the model: the system prompt, then the diff. */
  function CommitPrompt(diff: string): seq<ClaudeCli.Message> {
    [ClaudeCli.SystemMessage(SYSTEM_PROMPT), ClaudeCli.UserMessage([ClaudeCli.TextPart(diff)])]
  }

  /** What the Claude command line receives for a commit message: the labelled system prompt, a blank line, the diff. */
  lemma CommitPromptText(diff: string)
    ensures Join(ClaudeCli.EncodedParagraphs(CommitPrompt(diff), ClaudeCli.TextFormat), "\n\n")
         == "[System]: " + SYSTEM_PROMPT + "\n\n" + diff
  {
    ClaudeCli.SystemThenUser(SYSTEM_PROMPT, diff);
  }

  const GENERATION_FAILED: OiError := AiGenerationError("Failed to generate commit message")
  const EMPTY_MESSAGE: OiError := EmptyCommitMessageError("AI returned an empty commit message")

  /** `generateCommitMessage` after the model call: any failure becomes `AiGenerationError`, the
      text is trimmed, an empty message is `EmptyCommitMessageError`. */
  function GenerateCommitMessage<Cause>(response: Result<string, Cause>): (r: Result<string, OiError>)
    ensures response.Failure? ==> r == Failure(GENERATION_FAILED)
    ensures response.Success? && IsBlank(response.value) ==> r == Failure(EMPTY_MESSAGE)
    ensures r.Success? ==> response.Success? && r.value == Trim(response.value) && r.value != [] && IsTrimmed(r.value)
    ensures response.Success? && !IsBlank(response.value) ==> r.Success?
  {
    TrimIsTrimmedFor(response);
    match response
    case Failure(_) => Failure(GENERATION_FAILED)
    case Success(text) =>
      var message := Trim(text);
      if |message| == 0 then Failure(EMPTY_MESSAGE) else Success(message)
  }

  lemma TrimIsTrimmedFor<Cause>(response: Result<string, Cause>)
    ensures response.Success? ==> IsTrimmed(Trim(response.value))
  {
    if response.Success? {
      TrimIsTrimmed(response.value);
    }
  }

  /** The message is reported empty exactly when the model's text is all whitespace. */
  lemma EmptyExactlyWhenWhitespace(text: string)
    ensures GenerateCommitMessage<()>(Success(text)) == Failure(EMPTY_MESSAGE) <==> forall i | 0 <= i < |text| :: IsWs(text[i])
  {
    TrimEmpty(text);
  }

  /** A generated message, fed back as the model's answer, comes out unchanged. */
  lemma CommitMessageStable<Cause>(response: Result<string, Cause>)
    requires GenerateCommitMessage(response).Success?
    ensures GenerateCommitMessage<Cause>(Success(GenerateCommitMessage(response).value)) == GenerateCommitMessage(response)
  {
    TrimIdempotent(response.value);
  }
}
