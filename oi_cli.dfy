/**
 * The `oi` command line: how review results are printed, and the order of
 * the steps of `oi commit` (hook, review gate, message, commit). Git, the
 * model and the terminal are parameters; the commit handler is modelled as
 * the trace of steps it takes and the error it ends with.
 *
 * The non-ASCII markers are the characters the source file holds, which are
 * emoji and symbols decoded in the wrong character set; they are kept as is.
 */
module OiCli {
  import opened Wrappers
  import opened Strings
  import opened OiErrors
  import opened Review
  import Ai

  const ARROW: string := "\U{201A}\U{00DC}\U{00ED}"
  const FOLDER: string := "\U{F8FF}\U{00FC}\U{00EC}\U{00C5}"
  const BULLET: string := "\U{201A}\U{00C4}\U{00A2}"
  const CROSS: string := "\U{201A}\U{00F9}\U{00E5}"
  const WARNING_SIGN: string := "\U{201A}\U{00F6}\U{2020}\U{00D4}\U{220F}\U{00E8}"
  const CHECK: string := "\U{201A}\U{00FA}\U{00D6}"

  const BLOCKING_LABEL: string := CROSS + " Blocking issues (must fix before commit):"
  const WARNINGS_LABEL: string := WARNING_SIGN + "  Warnings (consider fixing):"
  const UNSTAGED_TITLE: string := "\n" + FOLDER + " Related unstaged files to consider:\n"
  const NO_ISSUES: string := CHECK + " No issues found in review"
  const NO_CODE_ISSUES: string := "\n" + CHECK + " No code issues found"

  // ---------------------------------------------------------------------
  // Formatting review issues
  // ---------------------------------------------------------------------

  /** `file:line`, or the file alone; nothing without a file, even when a line is known. */
  function FormatLocation(issue: ReviewIssue): (r: Option<string>)
    ensures r.Some? <==> issue.file.Some?
    ensures issue.file.Some? && issue.line.None? ==> r == issue.file
    ensures issue.file.Some? && issue.line.Some? ==> r == Some(issue.file.value + ":" + IntToString(issue.line.value))
  {
    match issue.file
    case None => None
    case Some(file) =>
      match issue.line
      case Some(line) => Some(file + ":" + IntToString(line))
      case None => Some(file)
  }

  /** The lines of one issue: number and location, the indented message, the suggestion if any. */
  function IssueBlockLines(issue: ReviewIssue, index: int): (lines: seq<string>)
    ensures |lines| == if issue.suggestion.Some? then 3 else 2
    ensures lines[0] == IntToString(index) + ". " + FormatLocation(issue).GetOr("General")
    ensures lines[1] == "   " + issue.message
    ensures issue.suggestion.Some? ==> lines[2] == "   " + ARROW + " " + issue.suggestion.value
  {
    [IntToString(index) + ". " + FormatLocation(issue).GetOr("General"), "   " + issue.message]
    + (if issue.suggestion.Some? then ["   " + ARROW + " " + issue.suggestion.value] else [])
  }

  function FormatIssueBlock(issue: ReviewIssue, index: int): string {
    Join(IssueBlockLines(issue, index), "\n")
  }

  /** An issue whose fields hold no line break prints as exactly its block lines. */
  lemma IssueBlockLinesBack(issue: ReviewIssue, index: int)
    requires FreeOf(IssueBlockLines(issue, index), '\n')
    ensures Split(FormatIssueBlock(issue, index), '\n') == IssueBlockLines(issue, index)
  {
    JoinSplit(IssueBlockLines(issue, index), '\n');
  }

  function IssuesHeader(heading: string): string {
    "\n" + heading + "\n"
  }

  /** The entries after the header once the loop has handled the first `k` issues: the block
      of each, numbered from 1, and after it a blank line unless it is the last issue. */
  function IssueEntriesUpTo(issues: seq<ReviewIssue>, k: nat): (entries: seq<string>)
    requires k <= |issues|
    ensures |entries| == if k == |issues| && k > 0 then 2 * k - 1 else 2 * k
    ensures forall j | 0 <= j < k :: entries[2 * j] == FormatIssueBlock(issues[j], j + 1)
    ensures forall j | 0 <= j < k && j < |issues| - 1 :: entries[2 * j + 1] == ""
    decreases k
  {
    if k == 0 then []
    else IssueEntriesUpTo(issues, k - 1) + [FormatIssueBlock(issues[k - 1], k)] + (if k < |issues| then [""] else [])
  }

  /** The entries after the header: one block per issue, a blank line between consecutive blocks. */
  function IssueEntries(issues: seq<ReviewIssue>): (entries: seq<string>)
    requires |issues| > 0
    ensures |entries| == 2 * |issues| - 1
    ensures forall i | 0 <= i < |issues| :: entries[2 * i] == FormatIssueBlock(issues[i], i + 1)
    ensures forall i | 0 <= i < |issues| - 1 :: entries[2 * i + 1] == ""
  {
    IssueEntriesUpTo(issues, |issues|)
  }

  /** The printed list: nothing for no issues, else the header and the entries, one per line. */
  function IssuesListText(issues: seq<ReviewIssue>, heading: string): string {
    if |issues| == 0 then "" else Join([IssuesHeader(heading)] + IssueEntries(issues), "\n")
  }

  /** `formatIssuesList` */
  method FormatIssuesList(issues: seq<ReviewIssue>, heading: string) returns (text: string)
    ensures text == IssuesListText(issues, heading)
  {
    if |issues| == 0 {
      return "";
    }
    var lines := [IssuesHeader(heading)];
    for i := 0 to |issues|
      invariant lines == [IssuesHeader(heading)] + IssueEntriesUpTo(issues, i)
    {
      ghost var before := lines;
      ghost var sep: seq<string> := if i + 1 < |issues| then [""] else [];
      IssueEntriesStep(issues, i);
      lines := lines + [FormatIssueBlock(issues[i], i + 1)];
      if i < |issues| - 1 {
        lines := lines + [""];
      }
      assert lines == before + [FormatIssueBlock(issues[i], i + 1)] + sep;
      EntryAppended([IssuesHeader(heading)], IssueEntriesUpTo(issues, i), FormatIssueBlock(issues[i], i + 1), sep);
    }
    text := Join(lines, "\n");
  }

  lemma EntryAppended(head: seq<string>, entries: seq<string>, block: string, sep: seq<string>)
    ensures head + entries + [block] + sep == head + (entries + [block] + sep)
  {
  }

  lemma IssueEntriesStep(issues: seq<ReviewIssue>, i: nat)
    requires i < |issues|
    ensures IssueEntriesUpTo(issues, i + 1) ==
      IssueEntriesUpTo(issues, i) + [FormatIssueBlock(issues[i], i + 1)] + (if i + 1 < |issues| then [""] else [])
  {
  }

  /** The lines for the suggestions: a bulleted file name, then the indented reason, for each. */
  function SuggestionLines(suggestions: seq<UnstagedSuggestion>): (lines: seq<string>)
    ensures |lines| == 2 * |suggestions|
    ensures forall i | 0 <= i < |suggestions| ::
      lines[2 * i] == "  " + BULLET + " " + suggestions[i].file && lines[2 * i + 1] == "    " + suggestions[i].reason
  {
    if suggestions == [] then []
    else
      var last := suggestions[|suggestions| - 1];
      SuggestionLines(suggestions[..|suggestions| - 1]) + ["  " + BULLET + " " + last.file, "    " + last.reason]
  }

  function UnstagedSuggestionsText(suggestions: seq<UnstagedSuggestion>): string {
    if |suggestions| == 0 then "" else Join([UNSTAGED_TITLE] + SuggestionLines(suggestions), "\n")
  }

  /** `formatUnstagedSuggestions` */
  method FormatUnstagedSuggestions(suggestions: seq<UnstagedSuggestion>) returns (text: string)
    ensures text == UnstagedSuggestionsText(suggestions)
  {
    if |suggestions| == 0 {
      return "";
    }
    var lines := [UNSTAGED_TITLE];
    for i := 0 to |suggestions|
      invariant lines == [UNSTAGED_TITLE] + SuggestionLines(suggestions[..i])
    {
      ghost var before := lines;
      lines := lines + ["  " + BULLET + " " + suggestions[i].file];
      lines := lines + ["    " + suggestions[i].reason];
      assert suggestions[..i + 1][..i] == suggestions[..i];
      assert lines == before + ["  " + BULLET + " " + suggestions[i].file, "    " + suggestions[i].reason];
    }
    assert suggestions[..|suggestions|] == suggestions;
    text := Join(lines, "\n");
  }

  // ---------------------------------------------------------------------
  // Displaying a review
  // ---------------------------------------------------------------------

  /** The texts `displayReviewResults` logs, one per `Console.log` call. */
  function DisplayLogs(r: ReviewResult): seq<string> {
    IssuesLogs(r.blocking, BLOCKING_LABEL) + IssuesLogs(r.warnings, WARNINGS_LABEL)
    + SuggestionLogs(r.unstagedSuggestions) + NoteLogs(r) + [""]
  }

  /** The list of issues under its heading, when there are any. */
  function IssuesLogs(issues: seq<ReviewIssue>, heading: string): seq<string> {
    if |issues| > 0 then [IssuesListText(issues, heading)] else []
  }

  function SuggestionLogs(suggestions: seq<UnstagedSuggestion>): seq<string> {
    if |suggestions| > 0 then [UnstagedSuggestionsText(suggestions)] else []
  }

  /** The closing note: all clear, no code issues, or none. */
  function NoteLogs(r: ReviewResult): seq<string> {
    if r.IsClean() && !r.HasUnstagedSuggestions() then [NO_ISSUES]
    else if r.IsClean() && r.HasUnstagedSuggestions() then [NO_CODE_ISSUES]
    else []
  }

  /** `displayReviewResults` */
  method DisplayReviewResults(r: ReviewResult) returns (logs: seq<string>)
    ensures logs == DisplayLogs(r)
  {
    logs := [];
    logs := LogIssues(logs, r.blocking, BLOCKING_LABEL);
    assert logs == IssuesLogs(r.blocking, BLOCKING_LABEL);
    logs := LogIssues(logs, r.warnings, WARNINGS_LABEL);
    logs := LogSuggestions(logs, r.unstagedSuggestions);
    if r.IsClean() && !r.HasUnstagedSuggestions() {
      logs := logs + [NO_ISSUES];
    } else if r.IsClean() && r.HasUnstagedSuggestions() {
      logs := logs + [NO_CODE_ISSUES];
    }
    assert logs == IssuesLogs(r.blocking, BLOCKING_LABEL) + IssuesLogs(r.warnings, WARNINGS_LABEL)
      + SuggestionLogs(r.unstagedSuggestions) + NoteLogs(r);
    logs := logs + [""];
  }

  /** One `if (issues.length > 0) console.log(formatIssuesList(issues, heading))` of `displayReviewResults`. */
  method LogIssues(logs: seq<string>, issues: seq<ReviewIssue>, heading: string) returns (logs': seq<string>)
    ensures logs' == logs + IssuesLogs(issues, heading)
  {
    logs' := logs;
    if |issues| > 0 {
      var text := FormatIssuesList(issues, heading);
      logs' := logs' + [text];
    }
  }

  /** The `if (suggestions.length > 0) console.log(formatUnstagedSuggestions(suggestions))` of `displayReviewResults`. */
  method LogSuggestions(logs: seq<string>, suggestions: seq<UnstagedSuggestion>) returns (logs': seq<string>)
    ensures logs' == logs + SuggestionLogs(suggestions)
  {
    logs' := logs;
    if |suggestions| > 0 {
      var text := FormatUnstagedSuggestions(suggestions);
      logs' := logs' + [text];
    }
  }

  /** The issue and suggestion texts never read as one of the two all-clear notes. */
  lemma SectionsAreNotNotes(issues: seq<ReviewIssue>, heading: string, suggestions: seq<UnstagedSuggestion>)
    requires heading == BLOCKING_LABEL || heading == WARNINGS_LABEL
    ensures |issues| > 0 ==> IssuesListText(issues, heading) !in {NO_ISSUES, NO_CODE_ISSUES}
    ensures |suggestions| > 0 ==> UnstagedSuggestionsText(suggestions) !in {NO_ISSUES, NO_CODE_ISSUES}
  {
    if |issues| > 0 {
      var t := IssuesListText(issues, heading);
      JoinStartsWith([IssuesHeader(heading)] + IssueEntries(issues), "\n");
      assert t[0] == '\n' && t[2] == heading[1];
      assert NO_ISSUES[0] != '\n' && NO_CODE_ISSUES[2] != heading[1];
    }
    if |suggestions| > 0 {
      var t := UnstagedSuggestionsText(suggestions);
      JoinStartsWith([UNSTAGED_TITLE] + SuggestionLines(suggestions), "\n");
      assert t[0] == '\n' && t[1] == FOLDER[0];
      assert NO_ISSUES[0] != '\n' && NO_CODE_ISSUES[1] != FOLDER[0];
    }
  }

  /** The all-clear note is printed only for a clean review without suggestions, the no-code-issues note only
      for a clean review with suggestions; blocking issues come first; the output always ends with an empty line. */
  lemma DisplayNotes(r: ReviewResult)
    ensures var logs := DisplayLogs(r);
      && logs[|logs| - 1] == ""
      && (NO_ISSUES in logs <==> r.IsClean() && !r.HasUnstagedSuggestions())
      && (NO_CODE_ISSUES in logs <==> r.IsClean() && r.HasUnstagedSuggestions())
      && (r.HasBlocking() ==> logs[0] == IssuesListText(r.blocking, BLOCKING_LABEL))
  {
    var sections := IssuesLogs(r.blocking, BLOCKING_LABEL) + IssuesLogs(r.warnings, WARNINGS_LABEL) + SuggestionLogs(r.unstagedSuggestions);
    SectionsHoldNoNote(r);
    NoteChoice(r);
    NotesAtEnd(sections, NoteLogs(r));
    if r.HasBlocking() {
      assert sections[0] == IssuesListText(r.blocking, BLOCKING_LABEL);
    }
  }

  lemma SectionsHoldNoNote(r: ReviewResult)
    ensures var sections := IssuesLogs(r.blocking, BLOCKING_LABEL) + IssuesLogs(r.warnings, WARNINGS_LABEL) + SuggestionLogs(r.unstagedSuggestions);
      NO_ISSUES !in sections && NO_CODE_ISSUES !in sections
  {
    SectionsAreNotNotes(r.blocking, BLOCKING_LABEL, r.unstagedSuggestions);
    SectionsAreNotNotes(r.warnings, WARNINGS_LABEL, r.unstagedSuggestions);
    var b, w, s := IssuesLogs(r.blocking, BLOCKING_LABEL), IssuesLogs(r.warnings, WARNINGS_LABEL), SuggestionLogs(r.unstagedSuggestions);
    assert NO_ISSUES !in b && NO_CODE_ISSUES !in b by {
      if r.HasBlocking() {
        assert b == [IssuesListText(r.blocking, BLOCKING_LABEL)];
      }
    }
    assert NO_ISSUES !in w && NO_CODE_ISSUES !in w by {
      if r.HasWarnings() {
        assert w == [IssuesListText(r.warnings, WARNINGS_LABEL)];
      }
    }
    assert NO_ISSUES !in s && NO_CODE_ISSUES !in s by {
      if r.HasUnstagedSuggestions() {
        assert s == [UnstagedSuggestionsText(r.unstagedSuggestions)];
      }
    }
    NotInAppend(b, w, s, NO_ISSUES);
    NotInAppend(b, w, s, NO_CODE_ISSUES);
  }

  lemma NotInAppend(a: seq<string>, b: seq<string>, c: seq<string>, x: string)
    requires x !in a && x !in b && x !in c
    ensures x !in a + b + c
  {
  }

  lemma NoteChoice(r: ReviewResult)
    ensures NO_ISSUES in NoteLogs(r) <==> r.IsClean() && !r.HasUnstagedSuggestions()
    ensures NO_CODE_ISSUES in NoteLogs(r) <==> r.IsClean() && r.HasUnstagedSuggestions()
  {
    assert NO_ISSUES != NO_CODE_ISSUES by {
      assert NO_ISSUES[0] != NO_CODE_ISSUES[0];
    }
  }

  lemma NotesAtEnd(sections: seq<string>, notes: seq<string>)
    requires NO_ISSUES !in sections && NO_CODE_ISSUES !in sections
    ensures var logs := sections + notes + [""];
      && logs[|logs| - 1] == ""
      && (NO_ISSUES in logs <==> NO_ISSUES in notes)
      && (NO_CODE_ISSUES in logs <==> NO_CODE_ISSUES in notes)
      && (sections != [] ==> logs[0] == sections[0])
  {
  }

  // ---------------------------------------------------------------------
  // The commit command
  // ---------------------------------------------------------------------

  datatype CommitFlags = CommitFlags(noVerify: bool, skipReview: bool, context: Option<string>)

  /** The answers of git, the model and the terminal, in the order `oi commit` asks for them.
      `reviewResponse` is the model's answer to the review prompt, or the failure of that call;
      `proceed` is the confirmation answer; quitting the prompt counts as declining; `response`
      is the model's answer to the commit-message prompt, or the failure of that call. */
  datatype CommitEnv = CommitEnv(
    repoCheck: Option<OiError>,
    staged: Result<string, OiError>,
    hook: Option<OiError>,
    unstagedDiff: Result<string, OiError>,
    recentCommits: Result<string, OiError>,
    reviewResponse: Result<ReviewResult, OiError>,
    proceed: bool,
    response: Result<string, OiError>,
    commit: Option<OiError>)

  /** The review `reviewChanges` makes of the model's answer. */
  function ReviewOf(env: CommitEnv): Result<ReviewResult, OiError> {
    ReviewChanges(env.reviewResponse)
  }

  /** The commit message `generateCommitMessage` makes of the model's answer. */
  function Message(env: CommitEnv): Result<string, OiError> {
    Ai.GenerateCommitMessage(env.response)
  }

  /** The observable steps of the command. */
  datatype Step =
    | Log(text: string)
    | RunHook
    | ReadUnstagedDiff
    | ReadRecentCommits(count: nat)
    | AskReview(systemPrompt: string, prompt: string)
    | AskConfirm
    | AskCommitMessage(diff: string)
    | GitCommit(message: string, noVerify: bool)

  /** The steps taken and the error the command ends with, if any. */
  datatype Run = Run(steps: seq<Step>, error: Option<OiError>)

  function Then(steps: seq<Step>, run: Run): Run {
    Run(steps + run.steps, run.error)
  }

  function Logs(texts: seq<string>): (steps: seq<Step>)
    ensures |steps| == |texts|
    ensures forall i | 0 <= i < |texts| :: steps[i] == Log(texts[i])
  {
    seq(|texts|, i requires 0 <= i < |texts| => Log(texts[i]))
  }

  /** `s || undefined` */
  function OrUndefined(s: string): Option<string> {
    if s == [] then None else Some(s)
  }

  const BLOCKED: OiError := ReviewAbortedError("Commit aborted due to blocking issues")
  const DECLINED: OiError := ReviewAbortedError("Commit aborted by user")

  /** Every `git commit` of the steps carries the model's answer, trimmed, and it is not empty. */
  predicate CommitsTrimmed(steps: seq<Step>, env: CommitEnv) {
    forall i | 0 <= i < |steps| && steps[i].GitCommit? ::
      && env.response.Success?
      && steps[i].message == Trim(env.response.value)
      && steps[i].message != []
      && Trim(steps[i].message) == steps[i].message
  }

  lemma CommitsTrimmedAppend(head: seq<Step>, tail: seq<Step>, env: CommitEnv)
    requires CommitsTrimmed(tail, env)
    ensures NoCommit(head) ==> CommitsTrimmed(head + tail, env)
  {
    if NoCommit(head) {
      forall i | 0 <= i < |head + tail| && (head + tail)[i].GitCommit?
        ensures (head + tail)[i] == tail[i - |head|]
      {
      }
    }
  }

  /** Steps 3 and 4: generate the message, show it, commit. Only a trimmed, non-empty answer of
      the model is committed; the step ends without error exactly when a message came out and
      the commit succeeded; a failed model call is reported as a generation failure. */
  function GenerateAndCommit(flags: CommitFlags, env: CommitEnv, diff: string): (r: Run)
    ensures CommitsTrimmed(r.steps, env)
    ensures r.error.None? <==> Message(env).Success? && env.commit.None?
    ensures env.response.Failure? ==> r.error == Some(Ai.GENERATION_FAILED)
  {
    var asked := [Log("Generating commit message..."), AskCommitMessage(diff)];
    match Message(env)
    case Failure(e) => Run(asked, Some(e))
    case Success(message) =>
      TrimFixpoint(message);
      var committed := asked + [Log("\nGenerated commit message:"), Log("---"), Log(message), Log("---"), GitCommit(message, flags.noVerify)];
      if env.commit.Some? then Run(committed, env.commit)
      else Run(committed + [Log("\n" + CHECK + " Committed successfully!")], None)
  }

  /** Step 2: review, show the results, stop on blocking issues, ask on warnings. The model's
      answer goes through `reviewChanges`, so a failed call ends the step with its error. It
      ends without error only when the review passed and the commit went through, and any
      commit it leads to carries the trimmed answer of the model. */
  function ReviewGate(flags: CommitFlags, env: CommitEnv, diff: string): (r: Run)
    ensures CommitsTrimmed(r.steps, env)
    ensures r.error.None? ==> ReviewPasses(env) && Message(env).Success? && env.commit.None?
    ensures env.unstagedDiff.Success? && env.recentCommits.Success? && env.reviewResponse.Failure? ==>
      r.error == Some(REVIEW_FAILED)
  {
    var reading := [Log("Reviewing staged changes..."), ReadUnstagedDiff];
    if env.unstagedDiff.Failure? then Run(reading, Some(env.unstagedDiff.error))
    else if env.recentCommits.Failure? then Run(reading + [ReadRecentCommits(5)], Some(env.recentCommits.error))
    else
      var options := ReviewOptions(flags.context, OrUndefined(env.unstagedDiff.value), OrUndefined(env.recentCommits.value));
      var asked := reading + [ReadRecentCommits(5), AskReview(SystemPrompt(options.context), UserPrompt(diff, options))];
      match ReviewOf(env)
      case Failure(e) => Run(asked, Some(e))
      case Success(review) =>
        NoCommitThenLogs(asked, DisplayLogs(review));
        Decide(flags, env, diff, review, asked + Logs(DisplayLogs(review)))
  }

  lemma NoCommitThenLogs(head: seq<Step>, texts: seq<string>)
    requires NoCommit(head)
    ensures NoCommit(head + Logs(texts))
  {
    forall i | |head| <= i < |head + Logs(texts)|
      ensures (head + Logs(texts))[i] == Log(texts[i - |head|])
    {
    }
  }

  /** After the review is shown: stop on blocking issues, ask on warnings, else go on. */
  function Decide(flags: CommitFlags, env: CommitEnv, diff: string, review: ReviewResult, shown: seq<Step>): (r: Run)
    ensures NoCommit(shown) ==> CommitsTrimmed(r.steps, env)
    ensures r.error.None? ==>
      !review.HasBlocking() && (review.HasWarnings() ==> env.proceed) && Message(env).Success? && env.commit.None?
  {
    var gen := GenerateAndCommit(flags, env, diff);
    CommitsTrimmedAppend(shown, gen.steps, env);
    CommitsTrimmedAppend(shown + [AskConfirm], gen.steps, env);
    assert NoCommit(shown) ==> NoCommit(shown + [AskConfirm]) by {
      assert forall i | 0 <= i < |shown| :: (shown + [AskConfirm])[i] == shown[i];
    }
    if review.HasBlocking() then Run(shown, Some(BLOCKED))
    else if !review.HasWarnings() then Then(shown, GenerateAndCommit(flags, env, diff))
    else if env.proceed then Then(shown + [AskConfirm], GenerateAndCommit(flags, env, diff))
    else Run(shown + [AskConfirm], Some(DECLINED))
  }

  /** The handler of `oi commit`. Whatever the answers, it only ever commits a non-empty
      message with no surrounding whitespace, the model's answer trimmed, and it ends without
      error only when every step up to the commit went through and the commit did too. */
  function CommitCommand(flags: CommitFlags, env: CommitEnv): (r: Run)
    ensures CommitsTrimmed(r.steps, env)
    ensures r.error.None? ==> ReachesCommit(flags, env) && env.commit.None?
  {
    if env.repoCheck.Some? then Run([], env.repoCheck)
    else match env.staged
      case Failure(e) => Run([], Some(e))
      case Success(diff) =>
        var hooked := if flags.noVerify then [] else [Log("Running pre-commit hook..."), RunHook];
        if !flags.noVerify && env.hook.Some? then Run(hooked, env.hook)
        else
          var rest := if flags.skipReview then GenerateAndCommit(flags, env, diff) else ReviewGate(flags, env, diff);
          CommitsTrimmedAppend(hooked, rest.steps, env);
          Then(hooked, rest)
  }

  /** The review lets the commit go ahead: both diffs read, the model answered, no blocking issue,
      and no warning unless the user confirmed. */
  predicate ReviewPasses(env: CommitEnv) {
    && env.unstagedDiff.Success? && env.recentCommits.Success? && env.reviewResponse.Success?
    && !env.reviewResponse.value.HasBlocking()
    && (env.reviewResponse.value.HasWarnings() ==> env.proceed)
  }

  /** Everything before `git commit` went through. */
  predicate ReachesCommit(flags: CommitFlags, env: CommitEnv) {
    && env.repoCheck.None? && env.staged.Success?
    && (flags.noVerify || env.hook.None?)
    && (flags.skipReview || ReviewPasses(env))
    && Message(env).Success?
  }

  predicate NoCommit(steps: seq<Step>) {
    forall i | 0 <= i < |steps| :: !steps[i].GitCommit?
  }

  predicate NoMessageRequest(steps: seq<Step>) {
    forall i | 0 <= i < |steps| :: !steps[i].AskCommitMessage? && !steps[i].GitCommit?
  }

  predicate NoReview(steps: seq<Step>) {
    forall i | 0 <= i < |steps| ::
      !steps[i].ReadUnstagedDiff? && !steps[i].ReadRecentCommits? && !steps[i].AskReview? && !steps[i].AskConfirm?
  }

  predicate NoHook(steps: seq<Step>) {
    forall i | 0 <= i < |steps| :: !steps[i].RunHook?
  }

  /** Where each kind of step belongs in the command; log lines have no place of their own. */
  function Rank(s: Step): nat {
    match s
    case Log(_) => 0
    case RunHook => 1
    case ReadUnstagedDiff => 2
    case ReadRecentCommits(_) => 3
    case AskReview(_, _) => 4
    case AskConfirm => 5
    case AskCommitMessage(_) => 6
    case GitCommit(_, _) => 7
  }

  predicate InOrder(steps: seq<Step>) {
    forall i, j | 0 <= i < j < |steps| && !steps[i].Log? && !steps[j].Log? :: Rank(steps[i]) <= Rank(steps[j])
  }

  predicate RanksIn(steps: seq<Step>, lo: nat, hi: nat) {
    forall i | 0 <= i < |steps| :: steps[i].Log? || lo <= Rank(steps[i]) <= hi
  }

  lemma InOrderAppend(a: seq<Step>, b: seq<Step>, m: nat)
    requires InOrder(a) && InOrder(b)
    requires RanksIn(a, 0, m) && RanksIn(b, m, 7)
    ensures InOrder(a + b)
  {
    forall i, j | 0 <= i < j < |a + b| && !(a + b)[i].Log? && !(a + b)[j].Log?
      ensures Rank((a + b)[i]) <= Rank((a + b)[j])
    {
      if j < |a| {
        assert (a + b)[i] == a[i] && (a + b)[j] == a[j];
      } else if i >= |a| {
        assert (a + b)[i] == b[i - |a|] && (a + b)[j] == b[j - |a|];
      } else {
        assert (a + b)[i] == a[i] && (a + b)[j] == b[j - |a|];
      }
    }
  }

  /** Message generation and commit: their steps come in order, the commit carries the flag, and the
      commit happens exactly when a message was generated. */
  lemma GenerateAndCommitShape(flags: CommitFlags, env: CommitEnv, diff: string)
    ensures var run := GenerateAndCommit(flags, env, diff);
      && InOrder(run.steps) && RanksIn(run.steps, 6, 7) && NoReview(run.steps) && NoHook(run.steps)
      && (Message(env).Success? ==> GitCommit(Message(env).value, flags.noVerify) in run.steps)
      && (Message(env).Failure? ==> NoCommit(run.steps) && run.error == Some(Message(env).error))
      && (forall i | 0 <= i < |run.steps| :: run.steps[i].GitCommit? ==> run.steps[i] == GitCommit(Message(env).value, flags.noVerify))
      && (run.error.None? <==> Message(env).Success? && env.commit.None?)
  {
    var asked := [Log("Generating commit message..."), AskCommitMessage(diff)];
    if Message(env).Success? {
      var message := Message(env).value;
      var committed := asked + [Log("\nGenerated commit message:"), Log("---"), Log(message), Log("---"), GitCommit(message, flags.noVerify)];
      CommittedShape(committed, 6);
      assert committed[6] == GitCommit(message, flags.noVerify);
      if env.commit.None? {
        var done := committed + [Log("\n" + CHECK + " Committed successfully!")];
        CommittedShape(done, 6);
        assert done[6] == GitCommit(message, flags.noVerify);
      }
    } else {
      CommittedShape(asked, 2);
    }
  }

  /** Log lines, a message request at index 1, and nothing but a commit at index `at`. */
  lemma CommittedShape(steps: seq<Step>, at: nat)
    requires |steps| >= 2 && steps[0].Log? && steps[1].AskCommitMessage?
    requires forall i | 2 <= i < |steps| :: steps[i].Log? || (i == at && steps[i].GitCommit?)
    ensures InOrder(steps) && RanksIn(steps, 6, 7) && NoReview(steps) && NoHook(steps)
    ensures forall i | 0 <= i < |steps| :: steps[i].GitCommit? ==> i == at
  {
  }

  /** The steps up to the displayed review, and with the confirmation after them. */
  lemma ShownShape(systemPrompt: string, prompt: string, texts: seq<string>)
    ensures var shown := [Log("Reviewing staged changes..."), ReadUnstagedDiff, ReadRecentCommits(5), AskReview(systemPrompt, prompt)] + Logs(texts);
      && InOrder(shown) && RanksIn(shown, 2, 4) && NoMessageRequest(shown) && NoHook(shown)
      && InOrder(shown + [AskConfirm]) && RanksIn(shown + [AskConfirm], 2, 5)
      && NoMessageRequest(shown + [AskConfirm]) && NoHook(shown + [AskConfirm])
  {
  }

  /** The review part's steps before message generation. */
  function ReviewPrefix(flags: CommitFlags, env: CommitEnv, diff: string): seq<Step>
    requires ReviewPasses(env)
  {
    var options := ReviewOptions(flags.context, OrUndefined(env.unstagedDiff.value), OrUndefined(env.recentCommits.value));
    var shown := [Log("Reviewing staged changes..."), ReadUnstagedDiff, ReadRecentCommits(5),
                  AskReview(SystemPrompt(options.context), UserPrompt(diff, options))] + Logs(DisplayLogs(env.reviewResponse.value));
    if env.reviewResponse.value.HasWarnings() then shown + [AskConfirm] else shown
  }

  /** A passing review: its own steps come in order and ask for no message, and generation follows. */
  lemma ReviewGatePasses(flags: CommitFlags, env: CommitEnv, diff: string)
    requires ReviewPasses(env)
    ensures ReviewGate(flags, env, diff) == Then(ReviewPrefix(flags, env, diff), GenerateAndCommit(flags, env, diff))
    ensures var prefix := ReviewPrefix(flags, env, diff);
      InOrder(prefix) && RanksIn(prefix, 2, 5) && NoMessageRequest(prefix) && NoHook(prefix)
  {
    var options := ReviewOptions(flags.context, OrUndefined(env.unstagedDiff.value), OrUndefined(env.recentCommits.value));
    var request := AskReview(SystemPrompt(options.context), UserPrompt(diff, options));
    ShownShape(request.systemPrompt, request.prompt, DisplayLogs(env.reviewResponse.value));
    assert [Log("Reviewing staged changes..."), ReadUnstagedDiff] + [ReadRecentCommits(5), request]
      == [Log("Reviewing staged changes..."), ReadUnstagedDiff, ReadRecentCommits(5), request];
  }

  /** A review that does not pass ends the command with an error before any message is asked for. */
  lemma ReviewGateStops(flags: CommitFlags, env: CommitEnv, diff: string)
    requires !ReviewPasses(env)
    ensures var run := ReviewGate(flags, env, diff);
      run.error.Some? && NoMessageRequest(run.steps) && NoHook(run.steps) && InOrder(run.steps) && RanksIn(run.steps, 2, 5)
  {
    if env.unstagedDiff.Success? && env.recentCommits.Success? && env.reviewResponse.Success? {
      ReviewGateStopsAfterReview(flags, env, diff);
    } else {
      ReviewGateStopsEarly(flags, env, diff);
    }
  }

  /** A diff that cannot be read, or a failed model call, ends the step before any result
      is shown. */
  lemma ReviewGateStopsEarly(flags: CommitFlags, env: CommitEnv, diff: string)
    requires !(env.unstagedDiff.Success? && env.recentCommits.Success? && env.reviewResponse.Success?)
    ensures var run := ReviewGate(flags, env, diff);
      run.error.Some? && NoMessageRequest(run.steps) && NoHook(run.steps) && InOrder(run.steps) && RanksIn(run.steps, 2, 5)
  {
    var reading := [Log("Reviewing staged changes..."), ReadUnstagedDiff];
    if env.unstagedDiff.Failure? {
      assert ReviewGate(flags, env, diff) == Run(reading, Some(env.unstagedDiff.error));
      ReadingShape(reading);
    } else if env.recentCommits.Failure? {
      assert ReviewGate(flags, env, diff) == Run(reading + [ReadRecentCommits(5)], Some(env.recentCommits.error));
      ReadingShape(reading + [ReadRecentCommits(5)]);
    } else {
      var options := ReviewOptions(flags.context, OrUndefined(env.unstagedDiff.value), OrUndefined(env.recentCommits.value));
      var request := AskReview(SystemPrompt(options.context), UserPrompt(diff, options));
      assert ReviewGate(flags, env, diff) == Run(reading + [ReadRecentCommits(5), request], Some(REVIEW_FAILED));
      ReadingShape(reading + [ReadRecentCommits(5), request]);
    }
  }

  /** The reading steps of the review, up to and including the request, alone. */
  lemma ReadingShape(steps: seq<Step>)
    requires 2 <= |steps| <= 4 && steps[0].Log? && steps[1] == ReadUnstagedDiff
    requires |steps| >= 3 ==> steps[2] == ReadRecentCommits(5)
    requires |steps| == 4 ==> steps[3].AskReview?
    ensures NoMessageRequest(steps) && NoHook(steps) && InOrder(steps) && RanksIn(steps, 2, 5)
  {
  }

  lemma ReviewGateStopsAfterReview(flags: CommitFlags, env: CommitEnv, diff: string)
    requires !ReviewPasses(env) && env.unstagedDiff.Success? && env.recentCommits.Success? && env.reviewResponse.Success?
    ensures var run := ReviewGate(flags, env, diff);
      run.error.Some? && NoMessageRequest(run.steps) && NoHook(run.steps) && InOrder(run.steps) && RanksIn(run.steps, 2, 5)
  {
    var options := ReviewOptions(flags.context, OrUndefined(env.unstagedDiff.value), OrUndefined(env.recentCommits.value));
    var request := AskReview(SystemPrompt(options.context), UserPrompt(diff, options));
    var shown := [Log("Reviewing staged changes..."), ReadUnstagedDiff, ReadRecentCommits(5), request] + Logs(DisplayLogs(env.reviewResponse.value));
    assert [Log("Reviewing staged changes..."), ReadUnstagedDiff] + [ReadRecentCommits(5), request]
      == [Log("Reviewing staged changes..."), ReadUnstagedDiff, ReadRecentCommits(5), request];
    assert ReviewGate(flags, env, diff) == Decide(flags, env, diff, env.reviewResponse.value, shown);
    ShownShape(request.systemPrompt, request.prompt, DisplayLogs(env.reviewResponse.value));
  }

  /** Which abort a shown review ends with: blocking issues first, then a declined confirmation. */
  lemma DecideAborts(flags: CommitFlags, env: CommitEnv, diff: string, review: ReviewResult, shown: seq<Step>)
    ensures review.HasBlocking() ==> Decide(flags, env, diff, review, shown) == Run(shown, Some(BLOCKED))
    ensures !review.HasBlocking() && review.HasWarnings() && !env.proceed ==>
      Decide(flags, env, diff, review, shown) == Run(shown + [AskConfirm], Some(DECLINED))
    ensures AskConfirm in Decide(flags, env, diff, review, shown).steps[|shown|..] <==> !review.HasBlocking() && review.HasWarnings()
  {
    var run := Decide(flags, env, diff, review, shown);
    GenerateAndCommitShape(flags, env, diff);
    var gen := GenerateAndCommit(flags, env, diff);
    if !review.HasBlocking() && !review.HasWarnings() {
      assert run.steps[|shown|..] == gen.steps;
    } else if !review.HasBlocking() && env.proceed {
      assert run.steps[|shown|..] == [AskConfirm] + gen.steps;
    } else if review.HasBlocking() {
      assert run.steps[|shown|..] == [];
    } else {
      assert run.steps[|shown|..] == [AskConfirm];
    }
  }

  /** The hook steps, when the hook runs. */
  function HookSteps(flags: CommitFlags): seq<Step> {
    if flags.noVerify then [] else [Log("Running pre-commit hook..."), RunHook]
  }

  lemma HookStepsShape(flags: CommitFlags)
    ensures InOrder(HookSteps(flags)) && RanksIn(HookSteps(flags), 0, 1) && NoMessageRequest(HookSteps(flags)) && NoReview(HookSteps(flags))
    ensures flags.noVerify ==> NoHook(HookSteps(flags))
  {
  }

  /** The remainder after the hook, with or without review. */
  function AfterHook(flags: CommitFlags, env: CommitEnv, diff: string): Run {
    if flags.skipReview then GenerateAndCommit(flags, env, diff) else ReviewGate(flags, env, diff)
  }

  lemma CommitCommandUnfold(flags: CommitFlags, env: CommitEnv)
    requires env.repoCheck.None? && env.staged.Success? && (flags.noVerify || env.hook.None?)
    ensures CommitCommand(flags, env) == Then(HookSteps(flags), AfterHook(flags, env, env.staged.value))
  {
  }

  /** What the commit gate promises about a run of the command. */
  predicate GateHolds(flags: CommitFlags, env: CommitEnv, run: Run) {
    && InOrder(run.steps)
    && (ReachesCommit(flags, env) ==> GitCommit(Message(env).value, flags.noVerify) in run.steps)
    && (!ReachesCommit(flags, env) ==> NoCommit(run.steps) && run.error.Some?)
    && (run.error.None? <==> ReachesCommit(flags, env) && env.commit.None?)
    && (forall i | 0 <= i < |run.steps| :: run.steps[i].GitCommit? ==>
          Message(env).Success? && run.steps[i] == GitCommit(Message(env).value, flags.noVerify))
  }

  /** `git commit` runs exactly when every earlier step went through, with the generated message and the
      `--no-verify` flag as given; the command succeeds exactly when that commit succeeds; the steps keep
      their order (hook, review, confirmation, message, commit). */
  lemma CommitGate(flags: CommitFlags, env: CommitEnv)
    ensures GateHolds(flags, env, CommitCommand(flags, env))
  {
    if env.repoCheck.None? && env.staged.Success? && (flags.noVerify || env.hook.None?) {
      if flags.skipReview {
        CommitGateSkipping(flags, env);
      } else if ReviewPasses(env) {
        CommitGatePassing(flags, env);
      } else {
        CommitGateStopping(flags, env);
      }
    }
  }

  lemma CommitGateSkipping(flags: CommitFlags, env: CommitEnv)
    requires env.repoCheck.None? && env.staged.Success? && (flags.noVerify || env.hook.None?) && flags.skipReview
    ensures GateHolds(flags, env, CommitCommand(flags, env))
  {
    CommitCommandUnfold(flags, env);
    HookStepsShape(flags);
    GateAfter(flags, env, HookSteps(flags), env.staged.value);
  }

  lemma CommitGatePassing(flags: CommitFlags, env: CommitEnv)
    requires env.repoCheck.None? && env.staged.Success? && (flags.noVerify || env.hook.None?)
    requires !flags.skipReview && ReviewPasses(env)
    ensures GateHolds(flags, env, CommitCommand(flags, env))
  {
    var diff := env.staged.value;
    var hook := HookSteps(flags);
    var prefix := ReviewPrefix(flags, env, diff);
    PassingRun(flags, env);
    HookStepsShape(flags);
    ReviewGatePasses(flags, env, diff);
    InOrderAppend(hook, prefix, 1);
    AppendKeeps(hook, prefix, 0, 5);
    GateAfter(flags, env, hook + prefix, diff);
  }

  /** With a passing review, the command runs the hook steps, the review steps, then generation. */
  lemma PassingRun(flags: CommitFlags, env: CommitEnv)
    requires env.repoCheck.None? && env.staged.Success? && (flags.noVerify || env.hook.None?)
    requires !flags.skipReview && ReviewPasses(env)
    ensures CommitCommand(flags, env) ==
      Then(HookSteps(flags) + ReviewPrefix(flags, env, env.staged.value), GenerateAndCommit(flags, env, env.staged.value))
  {
    var diff := env.staged.value;
    CommitCommandUnfold(flags, env);
    ReviewGatePasses(flags, env, diff);
    ThenThen(HookSteps(flags), ReviewPrefix(flags, env, diff), GenerateAndCommit(flags, env, diff));
  }

  lemma ThenThen(a: seq<Step>, b: seq<Step>, run: Run)
    ensures Then(a, Then(b, run)) == Then(a + b, run)
  {
    assert a + (b + run.steps) == (a + b) + run.steps;
  }

  /** Whatever steps precede message generation, if they come in order, rank below it and
      commit nothing, the gate holds for the whole run. */
  lemma GateAfter(flags: CommitFlags, env: CommitEnv, head: seq<Step>, diff: string)
    requires InOrder(head) && RanksIn(head, 0, 5) && NoCommit(head)
    requires ReachesCommit(flags, env) <==> Message(env).Success?
    ensures GateHolds(flags, env, Then(head, GenerateAndCommit(flags, env, diff)))
  {
    GenerateAndCommitShape(flags, env, diff);
    var gen := GenerateAndCommit(flags, env, diff);
    InOrderAppend(head, gen.steps, 5);
    AppendKeeps(head, gen.steps, 0, 7);
    HookCommitSteps(head, gen.steps, flags, env);
    if Message(env).Success? {
      var k :| 0 <= k < |gen.steps| && gen.steps[k] == GitCommit(Message(env).value, flags.noVerify);
      assert (head + gen.steps)[|head| + k] == gen.steps[k];
    }
  }

  /** Ranks within bounds and the absence of a commit carry over to a concatenation. */
  lemma AppendKeeps(a: seq<Step>, b: seq<Step>, lo: nat, hi: nat)
    ensures RanksIn(a, lo, hi) && RanksIn(b, lo, hi) ==> RanksIn(a + b, lo, hi)
    ensures NoCommit(a) && NoCommit(b) ==> NoCommit(a + b)
  {
    forall i | 0 <= i < |a + b|
      ensures (a + b)[i] == if i < |a| then a[i] else b[i - |a|]
    {
    }
  }

  lemma CommitGateStopping(flags: CommitFlags, env: CommitEnv)
    requires env.repoCheck.None? && env.staged.Success? && (flags.noVerify || env.hook.None?)
    requires !flags.skipReview && !ReviewPasses(env)
    ensures GateHolds(flags, env, CommitCommand(flags, env))
  {
    var diff := env.staged.value;
    CommitCommandUnfold(flags, env);
    HookStepsShape(flags);
    ReviewGateStops(flags, env, diff);
    InOrderAppend(HookSteps(flags), ReviewGate(flags, env, diff).steps, 1);
  }

  /** Commit steps in the tail carry over to the whole trace. */
  lemma HookCommitSteps(head: seq<Step>, tail: seq<Step>, flags: CommitFlags, env: CommitEnv)
    requires NoCommit(head)
    requires forall i | 0 <= i < |tail| :: tail[i].GitCommit? ==> Message(env).Success? && tail[i] == GitCommit(Message(env).value, flags.noVerify)
    ensures forall i | 0 <= i < |head + tail| :: (head + tail)[i].GitCommit? ==>
      Message(env).Success? && (head + tail)[i] == GitCommit(Message(env).value, flags.noVerify)
  {
    forall i | 0 <= i < |head + tail| && (head + tail)[i].GitCommit?
      ensures Message(env).Success? && (head + tail)[i] == GitCommit(Message(env).value, flags.noVerify)
    {
      assert i >= |head|;
      assert (head + tail)[i] == tail[i - |head|];
    }
  }

  /** `--skip-review` skips the diffs, the review and the confirmation. */
  lemma SkipReviewSkips(flags: CommitFlags, env: CommitEnv)
    requires flags.skipReview
    ensures NoReview(CommitCommand(flags, env).steps)
  {
    if env.repoCheck.None? && env.staged.Success? && (flags.noVerify || env.hook.None?) {
      CommitCommandUnfold(flags, env);
      HookStepsShape(flags);
      GenerateAndCommitShape(flags, env, env.staged.value);
    }
  }

  /** `--no-verify` skips the hook (and is passed to the commit, as `CommitGate` states). */
  lemma NoVerifySkipsHook(flags: CommitFlags, env: CommitEnv)
    requires flags.noVerify
    ensures NoHook(CommitCommand(flags, env).steps)
  {
    if env.repoCheck.None? && env.staged.Success? {
      CommitCommandUnfold(flags, env);
      var rest := AfterHook(flags, env, env.staged.value);
      assert HookSteps(flags) == [];
      assert CommitCommand(flags, env).steps == [] + rest.steps;
      AfterHookNoHook(flags, env, env.staged.value);
    }
  }

  /** Nothing after the hook step runs the hook. */
  lemma AfterHookNoHook(flags: CommitFlags, env: CommitEnv, diff: string)
    ensures NoHook(AfterHook(flags, env, diff).steps)
  {
    GenerateAndCommitShape(flags, env, diff);
    if !flags.skipReview {
      if ReviewPasses(env) {
        ReviewGatePasses(flags, env, diff);
        HookFreeThen(ReviewPrefix(flags, env, diff), GenerateAndCommit(flags, env, diff).steps);
      } else {
        ReviewGateStops(flags, env, diff);
      }
    }
  }

  lemma HookFreeThen(a: seq<Step>, b: seq<Step>)
    requires NoHook(a) && NoHook(b)
    ensures NoHook(a + b)
  {
    assert forall i | 0 <= i < |a + b| :: (a + b)[i] == if i < |a| then a[i] else b[i - |a|];
  }

  /** A failing hook ends the command right after it runs. */
  lemma HookFailureStops(flags: CommitFlags, env: CommitEnv)
    requires !flags.noVerify && env.repoCheck.None? && env.staged.Success? && env.hook.Some?
    ensures CommitCommand(flags, env) == Run([Log("Running pre-commit hook..."), RunHook], env.hook)
  {
  }

  /** Everything before the review went through and the model answered. */
  predicate ReviewShown(flags: CommitFlags, env: CommitEnv) {
    && !flags.skipReview && env.repoCheck.None? && env.staged.Success? && (flags.noVerify || env.hook.None?)
    && env.unstagedDiff.Success? && env.recentCommits.Success? && env.reviewResponse.Success?
  }

  /** A failed model call during the review ends the command as `reviewChanges` reports it,
      before a message is asked for. */
  lemma FailedReviewAborts(flags: CommitFlags, env: CommitEnv)
    requires env.repoCheck.None? && env.staged.Success? && (flags.noVerify || env.hook.None?)
    requires !flags.skipReview && env.unstagedDiff.Success? && env.recentCommits.Success?
    requires env.reviewResponse.Failure?
    ensures CommitCommand(flags, env).error == Some(REVIEW_FAILED)
    ensures NoMessageRequest(CommitCommand(flags, env).steps)
  {
    CommitCommandUnfold(flags, env);
    HookStepsShape(flags);
    ReviewGateStops(flags, env, env.staged.value);
  }

  /** Blocking issues abort the commit before a message is asked for. */
  lemma BlockingAborts(flags: CommitFlags, env: CommitEnv)
    requires ReviewShown(flags, env) && env.reviewResponse.value.HasBlocking()
    ensures CommitCommand(flags, env).error == Some(BLOCKED)
    ensures NoMessageRequest(CommitCommand(flags, env).steps)
  {
    CommitCommandUnfold(flags, env);
    HookStepsShape(flags);
    ReviewGateStops(flags, env, env.staged.value);
    ReviewDecided(flags, env);
  }

  /** Warnings without blocking issues ask for confirmation, and a declined (or quit) prompt aborts. */
  lemma DeclinedWarningsAbort(flags: CommitFlags, env: CommitEnv)
    requires ReviewShown(flags, env) && !env.reviewResponse.value.HasBlocking() && env.reviewResponse.value.HasWarnings() && !env.proceed
    ensures CommitCommand(flags, env).error == Some(DECLINED)
    ensures NoMessageRequest(CommitCommand(flags, env).steps)
    ensures AskConfirm in CommitCommand(flags, env).steps
  {
    CommitCommandUnfold(flags, env);
    HookStepsShape(flags);
    ReviewGateStops(flags, env, env.staged.value);
    ReviewDecided(flags, env);
  }

  /** Once the review is shown, the gate's outcome is its decision. */
  lemma ReviewDecided(flags: CommitFlags, env: CommitEnv)
    requires ReviewShown(flags, env)
    ensures var diff := env.staged.value;
      var options := ReviewOptions(flags.context, OrUndefined(env.unstagedDiff.value), OrUndefined(env.recentCommits.value));
      var shown := [Log("Reviewing staged changes..."), ReadUnstagedDiff, ReadRecentCommits(5),
                    AskReview(SystemPrompt(options.context), UserPrompt(diff, options))] + Logs(DisplayLogs(env.reviewResponse.value));
      && ReviewGate(flags, env, diff) == Decide(flags, env, diff, env.reviewResponse.value, shown)
      && (!env.reviewResponse.value.HasBlocking() && env.reviewResponse.value.HasWarnings() && !env.proceed ==>
           ReviewGate(flags, env, diff) == Run(shown + [AskConfirm], Some(DECLINED)))
      && (env.reviewResponse.value.HasBlocking() ==> ReviewGate(flags, env, diff) == Run(shown, Some(BLOCKED)))
  {
    var diff := env.staged.value;
    var options := ReviewOptions(flags.context, OrUndefined(env.unstagedDiff.value), OrUndefined(env.recentCommits.value));
    var request := AskReview(SystemPrompt(options.context), UserPrompt(diff, options));
    assert [Log("Reviewing staged changes..."), ReadUnstagedDiff] + [ReadRecentCommits(5), request]
      == [Log("Reviewing staged changes..."), ReadUnstagedDiff, ReadRecentCommits(5), request];
    var shown := [Log("Reviewing staged changes..."), ReadUnstagedDiff, ReadRecentCommits(5), request] + Logs(DisplayLogs(env.reviewResponse.value));
    DecideAborts(flags, env, diff, env.reviewResponse.value, shown);
  }
}
