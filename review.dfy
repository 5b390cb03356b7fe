/**
 * The review step of `oi`: the structured result the model must return, its
 * getters, and the two prompts `reviewChanges` assembles before asking.
 */
module Review {
  import opened Wrappers
  import opened Strings
  import opened OiErrors

  /** A blocking issue or a warning; `line` is taken to be an integer. */
  datatype ReviewIssue = ReviewIssue(file: Option<string>, line: Option<int>, message: string, suggestion: Option<string>)

  datatype UnstagedSuggestion = UnstagedSuggestion(file: string, reason: string)

  datatype ReviewResult = ReviewResult(
    blocking: seq<ReviewIssue>,
    warnings: seq<ReviewIssue>,
    unstagedSuggestions: seq<UnstagedSuggestion>)
  {
    predicate HasBlocking() {
      |blocking| > 0
    }

    predicate HasWarnings() {
      |warnings| > 0
    }

    predicate HasUnstagedSuggestions() {
      |unstagedSuggestions| > 0
    }

    predicate IsClean() {
      !HasBlocking() && !HasWarnings()
    }
  }

  /** The object as the model returns it, where `unstagedSuggestions` may be missing. */
  datatype RawReviewResult = RawReviewResult(
    blocking: seq<ReviewIssue>,
    warnings: seq<ReviewIssue>,
    unstagedSuggestions: Option<seq<UnstagedSuggestion>>)

  /** The schema's decoding: a missing suggestion list becomes the empty one. */
  function DecodeReviewResult(raw: RawReviewResult): (r: ReviewResult)
    ensures r.blocking == raw.blocking && r.warnings == raw.warnings
    ensures raw.unstagedSuggestions.None? ==> r.unstagedSuggestions == [] && !r.HasUnstagedSuggestions()
    ensures raw.unstagedSuggestions.Some? ==> r.unstagedSuggestions == raw.unstagedSuggestions.value
  {
    ReviewResult(raw.blocking, raw.warnings, raw.unstagedSuggestions.GetOr([]))
  }

  /** Cleanliness looks only at blocking issues and warnings. */
  lemma CleanIgnoresSuggestions(r: ReviewResult, suggestions: seq<UnstagedSuggestion>)
    ensures r.(unstagedSuggestions := suggestions).IsClean() == r.IsClean()
    ensures r.IsClean() <==> r.blocking == [] && r.warnings == []
  {
  }

  const REVIEW_SYSTEM_PROMPT: string := @"You are a senior engineer performing a code review on staged git changes.

Focus your review on the STAGED changes only. Analyze for:

## Blocking issues (must fix before commit)
- Bugs, logical errors, or incorrect behavior
- Security vulnerabilities (injection, XSS, exposed secrets, etc.)
- Breaking changes without migration path
- Critical missing error handling
- Type errors or incorrect type usage

## Warnings (should consider)
- Performance concerns
- Code style inconsistencies with surrounding code
- Missing documentation for public APIs
- Potential edge cases not handled
- TODO/FIXME comments added without tracking

For each issue, provide:
- The file and line number if applicable
- A clear, concise description of the issue
- A suggested fix when possible

## Unstaged suggestions (VERY STRICT criteria)
ONLY report unstaged files if you can verify IN THE DIFF that:
- The staged code directly imports/references a file that appears in the unstaged diff
- The unstaged file modifies the SAME function/class that is modified in staged changes
- The unstaged file is a test file for code that is being modified in staged changes

DO NOT report unstaged files based on:
- Assumptions about what ""might"" be related
- Similar naming patterns
- Being in the same directory
- General topic similarity

If you cannot point to a specific line in the staged diff that references the unstaged file, do NOT include it. When in doubt, leave it out. Return an empty array for unstagedSuggestions unless you have concrete evidence.

Be concise and actionable. Only report genuine issues - do not be overly pedantic."

  /** A JavaScript-truthy optional string: present and non-empty. */
  predicate Given(s: Option<string>) {
    s.Some? && s.value != []
  }

  datatype ReviewOptions = ReviewOptions(context: Option<string>, unstagedDiff: Option<string>, recentCommits: Option<string>)

  const CONTEXT_HEADER: string := "\n\nAdditional context from the developer:\n"
  const RECENT_HEADER: string := "## Recent commit history (for context):\n\n"
  const STAGED_HEADER: string := "## Staged changes (to be committed):\n\n"
  const UNSTAGED_HEADER: string := "\n\n## Unstaged changes (not being committed):\n\n"

  function DiffFence(diff: string): string {
    "```diff\n" + diff + "\n```"
  }

  function RecentSection(commits: string): string {
    RECENT_HEADER + commits + "\n\n"
  }

  function StagedSection(diff: string): string {
    STAGED_HEADER + DiffFence(diff)
  }

  function UnstagedSection(unstaged: string): string {
    UNSTAGED_HEADER + DiffFence(unstaged)
  }

  /** The review system prompt, with the developer's context appended when there is any. */
  function SystemPrompt(context: Option<string>): (p: string)
    ensures StartsWith(p, REVIEW_SYSTEM_PROMPT)
    ensures Given(context) ==> p[|REVIEW_SYSTEM_PROMPT|..] == CONTEXT_HEADER + context.value
    ensures !Given(context) ==> p == REVIEW_SYSTEM_PROMPT
  {
    if Given(context) then REVIEW_SYSTEM_PROMPT + CONTEXT_HEADER + context.value else REVIEW_SYSTEM_PROMPT
  }

  /** The review user prompt: optional recent commits, the staged diff in a fence, optional unstaged diff. */
  function UserPrompt(diff: string, options: ReviewOptions): string {
    (if Given(options.recentCommits) then RecentSection(options.recentCommits.value) else "")
    + StagedSection(diff)
    + (if Given(options.unstagedDiff) then UnstagedSection(options.unstagedDiff.value) else "")
  }

  /** `reviewChanges` building both prompts step by step. */
  method BuildPrompts(diff: string, options: ReviewOptions) returns (systemPrompt: string, prompt: string)
    ensures systemPrompt == SystemPrompt(options.context)
    ensures prompt == UserPrompt(diff, options)
  {
    systemPrompt := REVIEW_SYSTEM_PROMPT;
    if options.context.Some? && options.context.value != [] {
      systemPrompt := systemPrompt + CONTEXT_HEADER + options.context.value;
    }
    assert systemPrompt == SystemPrompt(options.context);
    prompt := "";
    if options.recentCommits.Some? && options.recentCommits.value != [] {
      prompt := prompt + RECENT_HEADER + options.recentCommits.value + "\n\n";
      assert prompt == RecentSection(options.recentCommits.value);
    }
    ghost var head := prompt;
    prompt := prompt + STAGED_HEADER + "```diff\n" + diff + "\n```";
    Regroup(head, STAGED_HEADER, "```diff\n", diff, "\n```");
    if options.unstagedDiff.Some? && options.unstagedDiff.value != [] {
      ghost var body := prompt;
      prompt := prompt + UNSTAGED_HEADER + "```diff\n" + options.unstagedDiff.value + "\n```";
      Regroup(body, UNSTAGED_HEADER, "```diff\n", options.unstagedDiff.value, "\n```");
    }
  }

  lemma Regroup(a: string, b: string, c: string, d: string, e: string)
    ensures a + b + c + d + e == a + (b + (c + d + e))
  {
  }

  /** The context suffix is there exactly when a non-empty context is given. */
  lemma SystemPromptExtended(context: Option<string>)
    ensures |SystemPrompt(context)| > |REVIEW_SYSTEM_PROMPT| <==> Given(context)
  {
  }

  /** Where each section of the user prompt sits: the commits section opens it exactly when given,
      the fenced staged diff always follows, and the unstaged section closes it exactly when given. */
  lemma UserPromptLayout(diff: string, options: ReviewOptions)
    ensures var p := UserPrompt(diff, options);
      var head := if Given(options.recentCommits) then RecentSection(options.recentCommits.value) else "";
      && (StartsWith(p, RECENT_HEADER) <==> Given(options.recentCommits))
      && StartsWith(p, head)
      && p[|head|..|head| + |StagedSection(diff)|] == StagedSection(diff)
      && (|p| > |head| + |StagedSection(diff)| <==> Given(options.unstagedDiff))
      && (Given(options.unstagedDiff) ==> EndsWith(p, UnstagedSection(options.unstagedDiff.value)))
  {
    var p := UserPrompt(diff, options);
    var head := if Given(options.recentCommits) then RecentSection(options.recentCommits.value) else "";
    var tail := if Given(options.unstagedDiff) then UnstagedSection(options.unstagedDiff.value) else "";
    assert p == head + StagedSection(diff) + tail;
    assert Given(options.unstagedDiff) ==> tail != [] by {
      if Given(options.unstagedDiff) {
        assert |tail| >= |UNSTAGED_HEADER|;
      }
    }
    ThreeParts(head, StagedSection(diff), tail);
    if Given(options.recentCommits) {
      assert StartsWith(head, RECENT_HEADER);
      StartsWithTrans(p, head, RECENT_HEADER);
    } else {
      assert p[3] == STAGED_HEADER[3] == 'S';
      assert RECENT_HEADER[3] == 'R';
    }
  }

  /** Where the three pieces of a concatenation sit. */
  lemma ThreeParts(head: string, mid: string, tail: string)
    ensures var p := head + mid + tail;
      && StartsWith(p, head)
      && p[|head|..|head| + |mid|] == mid
      && (|p| > |head| + |mid| <==> tail != [])
      && EndsWith(p, tail)
  {
    var p := head + mid + tail;
    assert p[..|head|] == head;
    assert p[|head|..|head| + |mid|] == mid;
    assert p[|p| - |tail|..] == tail;
  }

  const REVIEW_FAILED: OiError := AiGenerationError("Failed to review changes")

  /** `reviewChanges` after the model call: any failure becomes `AiGenerationError`. */
  function ReviewChanges<Cause>(response: Result<ReviewResult, Cause>): (r: Result<ReviewResult, OiError>)
    ensures r.Failure? <==> response.Failure?
    ensures r.Failure? ==> r.error == REVIEW_FAILED
    ensures r.Success? ==> r.value == response.value
  {
    match response
    case Success(v) => Success(v)
    case Failure(_) => Failure(REVIEW_FAILED)
  }
}
