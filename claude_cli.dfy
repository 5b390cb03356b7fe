/**
 * The Claude-CLI language-model adapter: it flattens a prompt into the text
 * written to the `claude` command's standard input, builds the command's
 * arguments, reads the single-shot JSON output into one text result, and
 * maps the streamed JSON lines onto text-start / text-delta / text-end /
 * finish parts.
 *
 * The process itself is not modelled: the single-shot call receives the
 * collected standard output and the exit code, the streaming call receives
 * the lines of standard output, and `JSON.parse` is a `decode` parameter
 * that yields a `Decoded` record.
 */
module ClaudeCli {
  import opened Wrappers
  import opened Strings

  // ---------------------------------------------------------------------
  // Prompt
  // ---------------------------------------------------------------------

  /** A part of a user or assistant message; only text parts are read. */
  datatype ContentPart = TextPart(text: string) | NonTextPart

  datatype Message =
    | SystemMessage(content: string)
    | UserMessage(parts: seq<ContentPart>)
    | AssistantMessage(parts: seq<ContentPart>)
    | ToolMessage

  /** `schema` is the serialized JSON schema (`JSON.stringify(JSONSchema.make(...), null, 2)`). */
  datatype ResponseFormat = TextFormat | JsonFormat(schema: string)

  const SYSTEM_LABEL: string := "[System]: "
  const ASSISTANT_LABEL: string := "[Assistant]: "
  const PARAGRAPH_SEPARATOR: string := "\n\n"

  const CRITICAL_PREFIX: string := "[System]: CRITICAL:"

  /** The instruction paragraph a JSON response format adds, before the schema. */
  const JSON_INSTRUCTION: string :=
    CRITICAL_PREFIX + " Your response must be ONLY raw JSON. Do NOT use markdown code blocks (```). "
    + "Do NOT add any explanation before or after. Start your response with { and end with }. "
    + "The JSON must conform to this schema:\n"

  /** The paragraphs contributed by the text parts of one message, each behind `tag`. */
  function TextParagraphs(parts: seq<ContentPart>, tag: string): seq<string> {
    if parts == [] then []
    else
      var last := parts[|parts| - 1];
      TextParagraphs(parts[..|parts| - 1], tag) + (if last.TextPart? then [tag + last.text] else [])
  }

  function MessageParagraphs(m: Message): seq<string> {
    match m
    case SystemMessage(content) => [SYSTEM_LABEL + content]
    case UserMessage(parts) => TextParagraphs(parts, "")
    case AssistantMessage(parts) => TextParagraphs(parts, ASSISTANT_LABEL)
    case ToolMessage => []
  }

  function PromptParagraphs(messages: seq<Message>): seq<string> {
    if messages == [] then []
    else PromptParagraphs(messages[..|messages| - 1]) + MessageParagraphs(messages[|messages| - 1])
  }

  /** Every paragraph of the encoded prompt, in order. */
  function EncodedParagraphs(messages: seq<Message>, format: ResponseFormat): seq<string> {
    PromptParagraphs(messages) + (if format.JsonFormat? then [JSON_INSTRUCTION + format.schema] else [])
  }

  /** `promptToString`: the paragraphs collected one push at a time, then joined. */
  method PromptToString(messages: seq<Message>, format: ResponseFormat) returns (text: string)
    ensures text == Join(EncodedParagraphs(messages, format), PARAGRAPH_SEPARATOR)
  {
    var parts: seq<string> := [];
    for i := 0 to |messages|
      invariant parts == PromptParagraphs(messages[..i])
    {
      PromptParagraphsPrefix(messages, i);
      ghost var before := parts;
      var message := messages[i];
      match message {
        case SystemMessage(content) =>
          parts := parts + [SYSTEM_LABEL + content];
        case UserMessage(contents) =>
          parts := PushTexts(parts, contents, "");
        case AssistantMessage(contents) =>
          parts := PushTexts(parts, contents, ASSISTANT_LABEL);
        case ToolMessage =>
      }
      assert parts == before + MessageParagraphs(message);
    }
    assert messages[..|messages|] == messages;
    assert parts == PromptParagraphs(messages);
    if format.JsonFormat? {
      parts := parts + [JSON_INSTRUCTION + format.schema];
    }
    assert parts == EncodedParagraphs(messages, format);
    text := Join(parts, PARAGRAPH_SEPARATOR);
  }

  /** The inner loop of `promptToString` over one message's content parts: each text part
      is pushed behind the message's label, and other parts are skipped. */
  method PushTexts(parts: seq<string>, contents: seq<ContentPart>, tag: string) returns (pushed: seq<string>)
    ensures pushed == parts + TextParagraphs(contents, tag)
  {
    pushed := parts;
    for j := 0 to |contents|
      invariant pushed == parts + TextParagraphs(contents[..j], tag)
    {
      TextParagraphsPrefix(contents, j, tag);
      if contents[j].TextPart? {
        pushed := pushed + [tag + contents[j].text];
      }
    }
    assert contents[..|contents|] == contents;
  }

  lemma PromptParagraphsPrefix(messages: seq<Message>, i: nat)
    requires i < |messages|
    ensures PromptParagraphs(messages[..i + 1]) == PromptParagraphs(messages[..i]) + MessageParagraphs(messages[i])
  {
    assert messages[..i + 1][..i] == messages[..i];
  }

  lemma TextParagraphsPrefix(parts: seq<ContentPart>, j: nat, tag: string)
    requires j < |parts|
    ensures TextParagraphs(parts[..j + 1], tag)
      == TextParagraphs(parts[..j], tag) + (if parts[j].TextPart? then [tag + parts[j].text] else [])
  {
    assert parts[..j + 1][..j] == parts[..j];
  }

  /** Messages are encoded in order: a prompt's paragraphs are those of its halves, one after the other. */
  lemma {:induction false} PromptParagraphsAppend(a: seq<Message>, b: seq<Message>)
    ensures PromptParagraphs(a + b) == PromptParagraphs(a) + PromptParagraphs(b)
    decreases |b|
  {
    if b == [] {
      assert a + b == a;
    } else {
      var b' := b[..|b| - 1];
      var x := b[|b| - 1];
      assert b == b' + [x];
      assert a + b == (a + b') + [x];
      PromptParagraphsSnoc(a + b', x);
      PromptParagraphsSnoc(b', x);
      PromptParagraphsAppend(a, b');
      SeqAssoc(PromptParagraphs(a), PromptParagraphs(b'), MessageParagraphs(x));
    }
  }

  lemma PromptParagraphsSnoc(m: seq<Message>, x: Message)
    ensures PromptParagraphs(m + [x]) == PromptParagraphs(m) + MessageParagraphs(x)
  {
    var mx := m + [x];
    assert mx[..|mx| - 1] == m && mx[|mx| - 1] == x;
  }

  lemma SeqAssoc<T>(a: seq<T>, b: seq<T>, c: seq<T>)
    ensures a + (b + c) == (a + b) + c
  {
  }

  /** The text parts of a message, in order, each behind the tag; other parts leave no trace. */
  lemma {:induction false} TextParagraphsAppend(a: seq<ContentPart>, b: seq<ContentPart>, tag: string)
    ensures TextParagraphs(a + b, tag) == TextParagraphs(a, tag) + TextParagraphs(b, tag)
    decreases |b|
  {
    if b == [] {
      assert a + b == a;
    } else {
      var b' := b[..|b| - 1];
      assert (a + b)[..|a + b| - 1] == a + b';
      TextParagraphsAppend(a, b', tag);
    }
  }

  /** A message with no text parts contributes no paragraph. */
  lemma {:induction false} NonTextDropped(parts: seq<ContentPart>, tag: string)
    requires forall i | 0 <= i < |parts| :: !parts[i].TextPart?
    ensures TextParagraphs(parts, tag) == []
  {
    if parts != [] {
      NonTextDropped(parts[..|parts| - 1], tag);
    }
  }

  /** Only the JSON format adds a paragraph: exactly one, last, opening with the CRITICAL instruction and closing with the schema. */
  lemma JsonInstructionLast(messages: seq<Message>, format: ResponseFormat)
    ensures format.TextFormat? ==> EncodedParagraphs(messages, format) == PromptParagraphs(messages)
    ensures format.JsonFormat? ==>
      var ps := EncodedParagraphs(messages, format);
      && ps[..|ps| - 1] == PromptParagraphs(messages)
      && StartsWith(ps[|ps| - 1], CRITICAL_PREFIX)
      && EndsWith(ps[|ps| - 1], format.schema)
  {
    if format.JsonFormat? {
      var ps := EncodedParagraphs(messages, format);
      var last := JSON_INSTRUCTION + format.schema;
      assert ps[..|ps| - 1] == PromptParagraphs(messages);
      assert last[..|CRITICAL_PREFIX|] == CRITICAL_PREFIX;
      assert last[|last| - |format.schema|..] == format.schema;
    }
  }

  /** The prompt of a system message and a user message is "[System]: s", a blank line, then the user text. */
  lemma SystemThenUser(system: string, user: string)
    ensures Join(EncodedParagraphs([SystemMessage(system), UserMessage([TextPart(user)])], TextFormat), PARAGRAPH_SEPARATOR)
         == SYSTEM_LABEL + system + PARAGRAPH_SEPARATOR + user
  {
    var ms := [SystemMessage(system), UserMessage([TextPart(user)])];
    assert ms[..1] == [SystemMessage(system)];
    assert [SystemMessage(system)][..0] == [];
    assert [TextPart(user)][..0] == [];
    assert "" + user == user;
    assert TextParagraphs([TextPart(user)], "") == [user];
    assert PromptParagraphs(ms[..1]) == [SYSTEM_LABEL + system];
    assert MessageParagraphs(ms[1]) == [user];
    assert PromptParagraphs(ms) == [SYSTEM_LABEL + system, user];
  }

  // ---------------------------------------------------------------------
  // Markdown fence stripping (JSON mode)
  // ---------------------------------------------------------------------
  // The regex is /^```(?:json)?\s*\n?([\s\S]*?)\n?```$/m. The functions below
  // follow its backtracking order: the leftmost line start first; there,
  // `json` before no tag, the longest whitespace run first, a newline before
  // none, the shortest body first.

  /** Three backticks begin at `i`. */
  predicate FenceAt(s: string, i: int) {
    0 <= i && i + 3 <= |s| && s[i] == '`' && s[i + 1] == '`' && s[i + 2] == '`'
  }

  predicate HasNoFence(s: string) {
    forall i | 0 <= i < |s| :: !FenceAt(s, i)
  }

  /** "```$" at `i`: a fence followed by the end of the text or of the line. */
  predicate ClosingFenceAt(s: string, i: int) {
    FenceAt(s, i) && (i + 3 == |s| || IsLineTerminator(s[i + 3]))
  }

  /** "\n?```$" matches at `e`. */
  predicate ClosingAt(s: string, e: nat)
    requires e <= |s|
  {
    (e < |s| && s[e] == '\n' && ClosingFenceAt(s, e + 1)) || ClosingFenceAt(s, e)
  }

  /** The lazy body group starting at `c`, having rejected every end before `e`. */
  function LazyBody(s: string, c: nat, e: nat): Option<string>
    requires c <= e <= |s|
    decreases |s| - e
  {
    if ClosingAt(s, e) then Some(s[c..e])
    else if e == |s| then None
    else LazyBody(s, c, e + 1)
  }

  /** "\n?" then the body, from `r`. */
  function AfterSpaces(s: string, r: nat): Option<string>
    requires r <= |s|
  {
    if r < |s| && s[r] == '\n' && LazyBody(s, r + 1, r + 1).Some? then LazyBody(s, r + 1, r + 1)
    else LazyBody(s, r, r)
  }

  /** Length of the whitespace run starting at `q`. */
  function WsRun(s: string, q: nat): (n: nat)
    requires q <= |s|
    ensures q + n <= |s|
    ensures forall i | q <= i < q + n :: IsWs(s[i])
    ensures q + n < |s| ==> !IsWs(s[q + n])
    decreases |s| - q
  {
    if q < |s| && IsWs(s[q]) then 1 + WsRun(s, q + 1) else 0
  }

  /** "\s*" taking `k` characters, then backing off one at a time. */
  function TrySpaces(s: string, q: nat, k: nat): Option<string>
    requires q + k <= |s|
    decreases k
  {
    var m := AfterSpaces(s, q + k);
    if m.Some? || k == 0 then m else TrySpaces(s, q, k - 1)
  }

  function AfterTag(s: string, q: nat): Option<string>
    requires q <= |s|
  {
    TrySpaces(s, q, WsRun(s, q))
  }

  /** The capture of the regex when its match starts at `p`, if it does. */
  function MatchAt(s: string, p: nat): Option<string>
    requires p <= |s|
  {
    if !FenceAt(s, p) then None
    else if p + 7 <= |s| && s[p + 3..p + 7] == "json" && AfterTag(s, p + 7).Some? then AfterTag(s, p + 7)
    else AfterTag(s, p + 3)
  }

  /** The leftmost match: `^` under the m flag holds at 0 and after a line terminator. */
  function FirstMatch(s: string, p: nat): Option<string>
    requires p <= |s|
    decreases |s| - p
  {
    if (p == 0 || IsLineTerminator(s[p - 1])) && MatchAt(s, p).Some? then MatchAt(s, p)
    else if p == |s| then None
    else FirstMatch(s, p + 1)
  }

  /** `stripMarkdownCodeBlocks`: a non-empty capture, trimmed; otherwise the whole text, trimmed. */
  function StripMarkdownCodeBlocks(text: string): (r: string)
    ensures IsTrimmed(r)
  {
    var m := FirstMatch(text, 0);
    var r := if m.Some? && m.value != [] then Trim(m.value) else Trim(text);
    TrimIsTrimmed(if m.Some? && m.value != [] then m.value else text);
    r
  }

  lemma {:induction false} NoFenceNoMatch(s: string, p: nat)
    requires p <= |s| && HasNoFence(s)
    ensures FirstMatch(s, p) == None
    decreases |s| - p
  {
    if p < |s| {
      NoFenceNoMatch(s, p + 1);
    }
  }

  /** Text without a fence comes back trimmed, and stripping it again changes nothing. */
  lemma StripWithoutFence(text: string)
    requires HasNoFence(text)
    ensures StripMarkdownCodeBlocks(text) == Trim(text)
    ensures StripMarkdownCodeBlocks(StripMarkdownCodeBlocks(text)) == StripMarkdownCodeBlocks(text)
  {
    NoFenceNoMatch(text, 0);
    var t := Trim(text);
    TrimSlice(text);
    var lo := Lead(text);
    forall i | 0 <= i < |t| ensures !FenceAt(t, i) {
      if i + 3 <= |t| {
        FenceInside(text, lo, t, i);
      }
    }
    NoFenceNoMatch(t, 0);
    TrimIdempotent(text);
  }

  /** The lazy body stops at the first end where "\n?```$" matches. */
  lemma {:induction false} LazyBodyStops(s: string, c: nat, e: nat, stop: nat)
    requires c <= e <= stop <= |s|
    requires forall k | e <= k < stop :: !ClosingAt(s, k)
    requires ClosingAt(s, stop)
    ensures LazyBody(s, c, e) == Some(s[c..stop])
    decreases stop - e
  {
    if e < stop {
      LazyBodyStops(s, c, e + 1, stop);
    }
  }

  /** A fence wholly inside a slice of `s` is a fence of the slice, and conversely. */
  lemma FenceInside(s: string, lo: nat, t: string, i: nat)
    requires lo + |t| <= |s| && t == s[lo..lo + |t|] && i + 3 <= |t|
    ensures FenceAt(t, i) == FenceAt(s, lo + i)
  {
    assert t[i] == s[lo + i] && t[i + 1] == s[lo + i + 1] && t[i + 2] == s[lo + i + 2];
  }

  /** In `head + t + "\n```"` the only place "\n?```$" matches is just after `t`. */
  lemma ClosingOnlyAfter(head: string, t: string)
    requires t != [] && IsTrimmed(t) && HasNoFence(t)
    ensures var s := head + t + "\n```";
      && (forall k | |head| <= k < |head| + |t| :: !ClosingAt(s, k))
      && ClosingAt(s, |head| + |t|)
  {
    var s := head + t + "\n```";
    var n := |head| + |t|;
    assert s[n] == '\n' && s[n + 1] == '`' && s[n + 2] == '`' && s[n + 3] == '`';
    assert |s| == n + 4;
    assert s[|head|..n] == t;
    forall k | |head| <= k < n ensures !ClosingAt(s, k) {
      if k + 3 <= n {
        FenceInside(s, |head|, t, k - |head|);
      } else {
        assert s[n] == '\n';
      }
      if k + 4 <= n {
        FenceInside(s, |head|, t, k + 1 - |head|);
      } else if k + 1 == n {
        assert s[k] == t[|t| - 1];
      } else {
        assert s[n] == '\n';
      }
    }
  }

  /** After an opening line `head` that ends in a newline, the body is `t`. */
  lemma TagThenBody(head: string, t: string)
    requires |head| >= 1 && head[|head| - 1] == '\n'
    requires t != [] && IsTrimmed(t) && HasNoFence(t)
    ensures AfterTag(head + t + "\n```", |head| - 1) == Some(t)
  {
    var s := head + t + "\n```";
    var h := |head|;
    ClosingOnlyAfter(head, t);
    assert s[h] == t[0];
    assert s[h - 1] == '\n';
    assert WsRun(s, h) == 0;
    assert WsRun(s, h - 1) == 1;
    LazyBodyStops(s, h, h, h + |t|);
    assert s[h..h + |t|] == t;
    assert AfterSpaces(s, h) == Some(t);
  }

  /** Fence-wrapping with the `json` tag is undone by stripping. */
  lemma StripJsonFenced(t: string)
    requires t != [] && IsTrimmed(t) && HasNoFence(t)
    ensures StripMarkdownCodeBlocks("```json\n" + t + "\n```") == t
  {
    TrimFixpoint(t);
    var s := "```json\n" + t + "\n```";
    TagThenBody("```json\n", t);
    assert s[3..7] == "json";
    assert MatchAt(s, 0) == Some(t);
  }

  /** Fence-wrapping without a tag is undone by stripping. */
  lemma StripPlainFenced(t: string)
    requires t != [] && IsTrimmed(t) && HasNoFence(t)
    ensures StripMarkdownCodeBlocks("```\n" + t + "\n```") == t
  {
    TrimFixpoint(t);
    var s := "```\n" + t + "\n```";
    TagThenBody("```\n", t);
    assert s[3] == '\n';
    assert MatchAt(s, 0) == Some(t);
  }

  // ---------------------------------------------------------------------
  // Command arguments
  // ---------------------------------------------------------------------

  datatype OutputMode = SingleShot | Streaming

  function OutputFormatFlag(mode: OutputMode): string {
    if mode.SingleShot? then "json" else "stream-json"
  }

  /** `if (options.model)`: only a non-empty model name adds a flag. */
  predicate HasModel(model: Option<string>) {
    model.Some? && model.value != []
  }

  /** The `claude` arguments: print mode, the output format, no tools, then the model if one is set. */
  function CliArgs(mode: OutputMode, model: Option<string>): (args: seq<string>)
    ensures |args| == if HasModel(model) then 7 else 5
    ensures args[..5] == ["-p", "--output-format", OutputFormatFlag(mode), "--tools", ""]
    ensures HasModel(model) ==> args[5..] == ["--model", model.value]
  {
    var base := ["-p", "--output-format", OutputFormatFlag(mode), "--tools", ""];
    if HasModel(model) then base + ["--model", model.value] else base
  }

  // ---------------------------------------------------------------------
  // Output records and parts
  // ---------------------------------------------------------------------

  /** `AiError.UnknownError`: the one error kind the adapter reports. */
  datatype AiError = UnknownError(moduleName: string, methodName: string, description: string)

  /** The fields of one decoded output line that the adapter reads:
      `type`, `subtype`, `result`, `message.content` (when a string) and `delta.text`. */
  datatype Record = Record(
    kind: Option<string>,
    subtype: Option<string>,
    result: Option<string>,
    messageContent: Option<string>,
    deltaText: Option<string>)

  /** What `JSON.parse` makes of a line: it throws, or yields a record. */
  datatype Decoded = Unparsable | Parsed(record: Record)

  datatype Usage = Usage(inputTokens: Option<nat>, outputTokens: Option<nat>, totalTokens: Option<nat>)

  datatype Part =
    | Text(text: string)
    | TextStart(id: string)
    | TextDelta(id: string, delta: string)
    | TextEnd(id: string)
    | Finish(reason: string, usage: Usage)

  const TEXT_ID: string := "text-0"

  /** The finish part both calls end with: reason `stop`, no usage reported. */
  const FINISH: Part := Finish("stop", Usage(None, None, None))

  predicate IsSuccessResult(r: Record) {
    r.kind == Some("result") && r.subtype == Some("success") && r.result.Some? && r.result.value != []
  }

  predicate IsErrorResult(r: Record) {
    r.kind == Some("result") && r.subtype == Some("error")
  }

  predicate IsSuccessLine(line: string, decode: string -> Decoded) {
    !IsBlank(line) && decode(line).Parsed? && IsSuccessResult(decode(line).record)
  }

  predicate IsErrorLine(line: string, decode: string -> Decoded) {
    !IsBlank(line) && decode(line).Parsed? && IsErrorResult(decode(line).record)
  }

  /** The index of the first error-result line, if there is one. */
  function FirstError(lines: seq<string>, decode: string -> Decoded): (k: Option<nat>)
    ensures k.Some? ==> k.value < |lines| && IsErrorLine(lines[k.value], decode)
    ensures k.Some? ==> forall j | 0 <= j < k.value :: !IsErrorLine(lines[j], decode)
    ensures k.None? ==> forall j | 0 <= j < |lines| :: !IsErrorLine(lines[j], decode)
  {
    if lines == [] then None
    else if IsErrorLine(lines[0], decode) then Some(0)
    else
      var rest := FirstError(lines[1..], decode);
      assert forall j | 1 <= j < |lines| :: lines[j] == lines[1..][j - 1];
      if rest.None? then None else Some(rest.value + 1)
  }

  /** The result text of the last success-result line, if there is one. */
  function LastSuccess(lines: seq<string>, decode: string -> Decoded): (t: Option<string>)
    ensures t.Some? ==> t.value != [] && exists k | 0 <= k < |lines| :: IsSuccessLine(lines[k], decode) && decode(lines[k]).record.result == t
    ensures t.None? ==> forall k | 0 <= k < |lines| :: !IsSuccessLine(lines[k], decode)
  {
    if lines == [] then None
    else
      var later := LastSuccess(lines[1..], decode);
      if later.Some? then
        var k :| 0 <= k < |lines[1..]| && IsSuccessLine(lines[1..][k], decode) && decode(lines[1..][k]).record.result == later;
        assert lines[k + 1] == lines[1..][k];
        later
      else if IsSuccessLine(lines[0], decode) then decode(lines[0]).record.result
      else
        assert forall k | 1 <= k < |lines| :: lines[k] == lines[1..][k - 1];
        None
  }

  // ---------------------------------------------------------------------
  // Single-shot generation
  // ---------------------------------------------------------------------

  function ExitError(code: int): AiError {
    UnknownError("claude-cli", "generateText", "Claude CLI exited with code " + IntToString(code))
  }

  function ReturnedError(r: Record): AiError {
    UnknownError("claude-cli", "generateText", "Claude CLI returned error: " + r.result.GetOr("Unknown error"))
  }

  const NO_RESULT_ERROR: AiError := UnknownError("claude-cli", "generateText", "Claude CLI returned no result")

  /** The line scan from a given candidate: success records replace it, an error record stops the scan. */
  function ScanFrom(lines: seq<string>, decode: string -> Decoded, candidate: string): Result<string, AiError>
    decreases |lines|
  {
    if lines == [] then Success(candidate)
    else if IsErrorLine(lines[0], decode) then Failure(ReturnedError(decode(lines[0]).record))
    else if IsSuccessLine(lines[0], decode) then ScanFrom(lines[1..], decode, decode(lines[0]).record.result.value)
    else ScanFrom(lines[1..], decode, candidate)
  }

  /** `result.stdout.trim().split('\n')` */
  function StdoutLines(stdout: string): (lines: seq<string>)
    ensures |lines| >= 1 && FreeOf(lines, '\n')
    ensures Join(lines, "\n") == Trim(stdout)
  {
    SplitJoin(Trim(stdout), '\n');
    Split(Trim(stdout), '\n')
  }

  /** The parts of a single-shot call: a nonzero exit fails first, then the scan; an empty
      candidate is "no result"; JSON mode strips a fence; the text is followed by the finish part. */
  function GenerateTextSpec(stdout: string, exitCode: int, format: ResponseFormat, decode: string -> Decoded): Result<seq<Part>, AiError> {
    if exitCode != 0 then Failure(ExitError(exitCode))
    else match ScanFrom(StdoutLines(stdout), decode, [])
      case Failure(e) => Failure(e)
      case Success(t) =>
        if t == [] then Failure(NO_RESULT_ERROR)
        else Success([Text(if format.JsonFormat? then StripMarkdownCodeBlocks(t) else t), FINISH])
  }

  /** The single-shot `generateText` after the process has run. */
  method GenerateText(stdout: string, exitCode: int, format: ResponseFormat, decode: string -> Decoded)
    returns (r: Result<seq<Part>, AiError>)
    ensures r == GenerateTextSpec(stdout, exitCode, format, decode)
  {
    if exitCode != 0 {
      return Failure(ExitError(exitCode));
    }
    var lines := Split(Trim(stdout), '\n');
    var resultText := "";
    var i := 0;
    while i < |lines|
      invariant 0 <= i <= |lines|
      invariant ScanFrom(lines, decode, []) == ScanFrom(lines[i..], decode, resultText)
    {
      var line := lines[i];
      assert lines[i..][0] == line && lines[i..][1..] == lines[i + 1..];
      if Trim(line) != [] {
        var parsed := decode(line);
        if parsed.Parsed? {
          var rec := parsed.record;
          if IsSuccessResult(rec) {
            resultText := rec.result.value;
          } else if IsErrorResult(rec) {
            assert IsErrorLine(line, decode);
            return Failure(ReturnedError(rec));
          }
        }
      }
      i := i + 1;
    }
    if resultText == [] {
      return Failure(NO_RESULT_ERROR);
    }
    var finalText := if format.JsonFormat? then StripMarkdownCodeBlocks(resultText) else resultText;
    r := Success([Text(finalText), FINISH]);
  }

  /** The scan fails with the first error record, wherever successes stand; otherwise the last success wins. */
  lemma {:induction false} ScanCharacterisation(lines: seq<string>, decode: string -> Decoded, candidate: string)
    ensures ScanFrom(lines, decode, candidate) == ScanSpec(lines, decode, candidate)
    decreases |lines|
  {
    if lines != [] && !IsErrorLine(lines[0], decode) {
      var next := if IsSuccessLine(lines[0], decode) then decode(lines[0]).record.result.value else candidate;
      ScanCharacterisation(lines[1..], decode, next);
      ScanStep(lines, decode, candidate);
    }
  }

  /** The scan's reference definition: the first error record, else the last success or the candidate. */
  function ScanSpec(lines: seq<string>, decode: string -> Decoded, candidate: string): Result<string, AiError> {
    match FirstError(lines, decode)
    case Some(k) => Failure(ReturnedError(decode(lines[k]).record))
    case None => Success(LastSuccess(lines, decode).GetOr(candidate))
  }

  /** One step of ScanCharacterisation: past a line that is no error, agreement on the tail carries over. */
  lemma ScanStep(lines: seq<string>, decode: string -> Decoded, candidate: string)
    requires lines != [] && !IsErrorLine(lines[0], decode)
    requires var next := if IsSuccessLine(lines[0], decode) then decode(lines[0]).record.result.value else candidate;
      ScanFrom(lines[1..], decode, next) == ScanSpec(lines[1..], decode, next)
    ensures ScanFrom(lines, decode, candidate) == ScanSpec(lines, decode, candidate)
  {
    var tail := lines[1..];
    var next := if IsSuccessLine(lines[0], decode) then decode(lines[0]).record.result.value else candidate;
    assert ScanFrom(lines, decode, candidate) == ScanFrom(tail, decode, next);
    FirstErrorStep(lines, decode);
    var later := FirstError(tail, decode);
    if later.Some? {
      assert tail[later.value] == lines[later.value + 1];
    } else {
      LastSuccessStep(lines, decode, candidate);
    }
  }

  /** Past a first line that is no error, the first error is one further on than in the tail. */
  lemma FirstErrorStep(lines: seq<string>, decode: string -> Decoded)
    requires lines != [] && !IsErrorLine(lines[0], decode)
    ensures var later := FirstError(lines[1..], decode);
      FirstError(lines, decode) == if later.None? then None else Some(later.value + 1)
  {
  }

  /** The last success of a non-empty list is that of its tail, else the first line's own. */
  lemma LastSuccessStep(lines: seq<string>, decode: string -> Decoded, candidate: string)
    requires lines != []
    ensures var next := if IsSuccessLine(lines[0], decode) then decode(lines[0]).record.result.value else candidate;
      LastSuccess(lines, decode).GetOr(candidate) == LastSuccess(lines[1..], decode).GetOr(next)
  {
  }

  /** A single-shot call, stated against the first error and the last success of the output lines. */
  lemma GenerateTextOutcome(stdout: string, exitCode: int, format: ResponseFormat, decode: string -> Decoded)
    ensures var lines := StdoutLines(stdout);
      GenerateTextSpec(stdout, exitCode, format, decode) ==
        if exitCode != 0 then Failure(ExitError(exitCode))
        else match FirstError(lines, decode)
          case Some(k) => Failure(ReturnedError(decode(lines[k]).record))
          case None =>
            match LastSuccess(lines, decode)
            case None => Failure(NO_RESULT_ERROR)
            case Some(t) => Success([Text(if format.JsonFormat? then StripMarkdownCodeBlocks(t) else t), FINISH])
  {
    ScanCharacterisation(StdoutLines(stdout), decode, []);
  }

  /** A line that is neither a success nor an error record leaves the scan unchanged. */
  lemma {:induction false} ScanIgnoresNoise(a: seq<string>, noise: string, b: seq<string>, decode: string -> Decoded, candidate: string)
    requires !IsErrorLine(noise, decode) && !IsSuccessLine(noise, decode)
    ensures ScanFrom(a + [noise] + b, decode, candidate) == ScanFrom(a + b, decode, candidate)
    decreases |a|
  {
    if a == [] {
      assert (a + [noise] + b)[1..] == a + b;
    } else {
      assert (a + [noise] + b)[0] == (a + b)[0] == a[0];
      assert (a + [noise] + b)[1..] == a[1..] + [noise] + b;
      assert (a + b)[1..] == a[1..] + b;
      var next := if IsSuccessLine(a[0], decode) then decode(a[0]).record.result.value else candidate;
      ScanIgnoresNoise(a[1..], noise, b, decode, next);
    }
  }

  /** A progress line, then a success record with "Looks good", exit code 0: the text "Looks good", then finish. */
  lemma SingleShotExample(progress: string, result: string, decode: string -> Decoded)
    requires !IsBlank(progress) && decode(progress) == Unparsable
    requires !IsBlank(result)
    requires decode(result) == Parsed(Record(Some("result"), Some("success"), Some("Looks good"), None, None))
    ensures ScanFrom([progress, result], decode, []) == Success("Looks good")
    ensures GenerateTextOutcomeOf([progress, result], TextFormat, decode) == Success([Text("Looks good"), FINISH])
  {
    assert [progress, result][1..] == [result];
    assert [result][1..] == [];
    assert ScanFrom([result], decode, []) == ScanFrom([], decode, "Looks good");
  }

  /** The outcome of a zero-exit single-shot call over given output lines. */
  function GenerateTextOutcomeOf(lines: seq<string>, format: ResponseFormat, decode: string -> Decoded): Result<seq<Part>, AiError> {
    match ScanFrom(lines, decode, [])
    case Failure(e) => Failure(e)
    case Success(t) =>
      if t == [] then Failure(NO_RESULT_ERROR)
      else Success([Text(if format.JsonFormat? then StripMarkdownCodeBlocks(t) else t), FINISH])
  }

  // ---------------------------------------------------------------------
  // Streaming
  // ---------------------------------------------------------------------

  function StreamError(r: Record): AiError {
    UnknownError("claude-cli", "streamText", "Claude CLI error: " + r.result.GetOr("Unknown"))
  }

  /** The text of an assistant record with string content, or of a content-block delta. */
  function ContentText(r: Record): Option<string> {
    if r.kind == Some("assistant") && r.messageContent.Some? && r.messageContent.value != [] then r.messageContent
    else if r.kind == Some("content_block_delta") && r.deltaText.Some? && r.deltaText.value != [] then r.deltaText
    else None
  }

  predicate IsContentLine(line: string, decode: string -> Decoded) {
    !IsBlank(line) && decode(line).Parsed? && ContentText(decode(line).record).Some?
  }

  /** A line that produces no part and does not fail the stream. */
  predicate IsNoiseLine(line: string, decode: string -> Decoded) {
    !IsContentLine(line, decode) && !IsSuccessLine(line, decode) && !IsErrorLine(line, decode)
  }

  function StartIfNeeded(started: bool): seq<Part> {
    if started then [] else [TextStart(TEXT_ID)]
  }

  /** What one line does: the parts it emits, the flag afterwards, and a failure. */
  datatype LineStep = LineStep(parts: seq<Part>, started: bool, failure: Option<AiError>)

  /** The per-line mapper, as a function of the flag before the line. */
  function MapDecoded(started: bool, parsed: Decoded): LineStep {
    if parsed.Unparsable? then LineStep([], started, None)
    else
      var r := parsed.record;
      if ContentText(r).Some? then LineStep(StartIfNeeded(started) + [TextDelta(TEXT_ID, ContentText(r).value)], true, None)
      else if IsSuccessResult(r) then
        LineStep(StartIfNeeded(started) + [TextDelta(TEXT_ID, r.result.value), TextEnd(TEXT_ID)], started, None)
      else if IsErrorResult(r) then LineStep([], started, Some(StreamError(r)))
      else LineStep([], started, None)
  }

  /** The parts a stream delivers, and the failure that ends it instead of the finish part. */
  datatype StreamRun = StreamRun(parts: seq<Part>, failure: Option<AiError>)

  function Prepend(ps: seq<Part>, run: StreamRun): StreamRun {
    StreamRun(ps + run.parts, run.failure)
  }

  /** The stream from the remaining lines, given the flag: blank lines are filtered out, a failure
      ends the stream, and the finish part follows the last line. */
  function StreamFrom(lines: seq<string>, started: bool, decode: string -> Decoded): StreamRun
    decreases |lines|
  {
    if lines == [] then StreamRun([FINISH], None)
    else if IsBlank(lines[0]) then StreamFrom(lines[1..], started, decode)
    else
      var step := MapDecoded(started, decode(lines[0]));
      if step.failure.Some? then StreamRun(step.parts, step.failure)
      else Prepend(step.parts, StreamFrom(lines[1..], step.started, decode))
  }

  /** The start flag of one `streamText` invocation. */
  class StreamState {
    var startEmitted: bool

    constructor ()
      ensures !startEmitted
    {
      startEmitted := false;
    }

    /** The mapper applied to one non-blank line. */
    method MapLine(line: string, decode: string -> Decoded) returns (parts: seq<Part>, failure: Option<AiError>)
      modifies this
      ensures MapDecoded(old(startEmitted), decode(line)) == LineStep(parts, startEmitted, failure)
    {
      parts, failure := [], None;
      var parsed := decode(line);
      if parsed.Unparsable? {
        return;
      }
      var rec := parsed.record;
      if rec.kind == Some("assistant") && rec.messageContent.Some? && rec.messageContent.value != [] {
        if !startEmitted {
          parts := parts + [TextStart(TEXT_ID)];
          startEmitted := true;
        }
        parts := parts + [TextDelta(TEXT_ID, rec.messageContent.value)];
        return;
      }
      if rec.kind == Some("content_block_delta") && rec.deltaText.Some? && rec.deltaText.value != [] {
        if !startEmitted {
          parts := parts + [TextStart(TEXT_ID)];
          startEmitted := true;
        }
        parts := parts + [TextDelta(TEXT_ID, rec.deltaText.value)];
        return;
      }
      if rec.kind == Some("result") {
        if rec.subtype == Some("success") && rec.result.Some? && rec.result.value != [] {
          if !startEmitted {
            parts := parts + [TextStart(TEXT_ID)];
          }
          parts := parts + [TextDelta(TEXT_ID, rec.result.value), TextEnd(TEXT_ID)];
          return;
        }
        if rec.subtype == Some("error") {
          failure := Some(StreamError(rec));
          return;
        }
      }
    }
  }

  /** `streamText` over the lines of the process output, with a fresh flag. */
  method StreamText(lines: seq<string>, decode: string -> Decoded) returns (run: StreamRun)
    ensures run == StreamFrom(lines, false, decode)
  {
    var state := new StreamState();
    var emitted: seq<Part> := [];
    var i := 0;
    while i < |lines|
      invariant 0 <= i <= |lines|
      invariant StreamFrom(lines, false, decode) == Prepend(emitted, StreamFrom(lines[i..], state.startEmitted, decode))
    {
      StreamFromAt(lines, i, state.startEmitted, decode);
      if !IsBlank(lines[i]) {
        var parts, failure := state.MapLine(lines[i], decode);
        if failure.Some? {
          return StreamRun(emitted + parts, failure);
        }
        PrependTwice(emitted, parts, StreamFrom(lines[i + 1..], state.startEmitted, decode));
        emitted := emitted + parts;
      }
      i := i + 1;
    }
    run := StreamRun(emitted + [FINISH], None);
  }

  /** One step of the stream, taken at position `i` of the lines. */
  lemma StreamFromAt(lines: seq<string>, i: nat, started: bool, decode: string -> Decoded)
    requires i < |lines|
    ensures StreamFrom(lines[i..], started, decode) ==
      if IsBlank(lines[i]) then StreamFrom(lines[i + 1..], started, decode)
      else
        var step := MapDecoded(started, decode(lines[i]));
        if step.failure.Some? then StreamRun(step.parts, step.failure)
        else Prepend(step.parts, StreamFrom(lines[i + 1..], step.started, decode))
  {
    assert lines[i..][1..] == lines[i + 1..];
  }

  lemma PrependTwice(a: seq<Part>, b: seq<Part>, run: StreamRun)
    ensures Prepend(a, Prepend(b, run)) == Prepend(a + b, run)
  {
    assert a + (b + run.parts) == (a + b) + run.parts;
  }

  predicate NoFinish(ps: seq<Part>) {
    forall i | 0 <= i < |ps| :: !ps[i].Finish?
  }

  /** The parts end with the finish part and hold no other. */
  predicate FinishedOnce(ps: seq<Part>) {
    |ps| > 0 && ps[|ps| - 1] == FINISH && NoFinish(ps[..|ps| - 1])
  }

  lemma FinishedOncePrepend(a: seq<Part>, b: seq<Part>)
    requires NoFinish(a) && FinishedOnce(b)
    ensures FinishedOnce(a + b)
  {
    assert (a + b)[..|a + b| - 1] == a + b[..|b| - 1];
  }

  lemma StepNoFinish(started: bool, parsed: Decoded)
    ensures NoFinish(MapDecoded(started, parsed).parts)
  {
  }

  /** A stream that does not fail ends with exactly one finish part; a failing one has none. */
  lemma {:induction false} StreamFinishOnce(lines: seq<string>, started: bool, decode: string -> Decoded)
    ensures StreamFrom(lines, started, decode).failure.None? ==> FinishedOnce(StreamFrom(lines, started, decode).parts)
    ensures StreamFrom(lines, started, decode).failure.Some? ==> NoFinish(StreamFrom(lines, started, decode).parts)
    decreases |lines|
  {
    if lines == [] {
      assert [FINISH][..0] == [];
    } else if IsBlank(lines[0]) {
      StreamFinishOnce(lines[1..], started, decode);
    } else {
      var step := MapDecoded(started, decode(lines[0]));
      StepNoFinish(started, decode(lines[0]));
      if step.failure.None? {
        StreamFinishOnce(lines[1..], step.started, decode);
        var rest := StreamFrom(lines[1..], step.started, decode);
        if rest.failure.None? {
          FinishedOncePrepend(step.parts, rest.parts);
        } else {
          assert NoFinish(step.parts + rest.parts);
        }
      }
    }
  }

  /** A line fails the stream exactly when it is an error record. */
  lemma StepFailsOnError(started: bool, line: string, decode: string -> Decoded)
    requires !IsBlank(line)
    ensures MapDecoded(started, decode(line)).failure ==
      if IsErrorLine(line, decode) then Some(StreamError(decode(line).record)) else None
  {
  }

  /** The stream fails exactly when an error record appears, with the first one's message. */
  lemma {:induction false} StreamFailure(lines: seq<string>, started: bool, decode: string -> Decoded)
    ensures StreamFrom(lines, started, decode).failure ==
      match FirstError(lines, decode)
      case None => None
      case Some(k) => Some(StreamError(decode(lines[k]).record))
    decreases |lines|
  {
    if lines != [] {
      var next := if IsBlank(lines[0]) then started else MapDecoded(started, decode(lines[0])).started;
      StreamFailure(lines[1..], next, decode);
      if !IsBlank(lines[0]) {
        StepFailsOnError(started, lines[0], decode);
      }
      if !IsErrorLine(lines[0], decode) {
        match FirstError(lines[1..], decode)
        case Some(k) => assert lines[1..][k] == lines[k + 1];
        case None =>
      }
    }
  }

  /** Every text delta comes after a text start, or after the point where the flag was already set. */
  predicate DeltasOpened(ps: seq<Part>, open: bool)
    decreases |ps|
  {
    ps == [] || ((ps[0].TextDelta? ==> open) && DeltasOpened(ps[1..], open || ps[0] == TextStart(TEXT_ID)))
  }

  lemma {:induction false} DeltasOpenedAppend(a: seq<Part>, b: seq<Part>, open: bool)
    requires DeltasOpened(a, open)
    requires DeltasOpened(b, open || TextStart(TEXT_ID) in a)
    ensures DeltasOpened(a + b, open)
    decreases |a|
  {
    if a != [] {
      assert (a + b)[1..] == a[1..] + b;
      assert TextStart(TEXT_ID) in a <==> a[0] == TextStart(TEXT_ID) || TextStart(TEXT_ID) in a[1..];
      DeltasOpenedAppend(a[1..], b, open || a[0] == TextStart(TEXT_ID));
    } else {
      assert a + b == b;
    }
  }

  /** The stream never emits a delta before its text start. */
  lemma {:induction false} StreamDeltasOpened(lines: seq<string>, started: bool, open: bool, decode: string -> Decoded)
    requires started ==> open
    ensures DeltasOpened(StreamFrom(lines, started, decode).parts, open)
    decreases |lines|
  {
    if lines == [] {
      assert DeltasOpened([FINISH][1..], open);
    } else if IsBlank(lines[0]) {
      StreamDeltasOpened(lines[1..], started, open, decode);
    } else {
      var step := MapDecoded(started, decode(lines[0]));
      var ps := step.parts;
      var ss := StartIfNeeded(started);
      if ps != [] {
        assert ps == ss + ps[|ss|..];
        if !started {
          assert ps[0] == TextStart(TEXT_ID);
          assert DeltasOpened(ps[1..], true) by {
            OpenedAll(ps[1..]);
          }
        } else {
          OpenedAll(ps);
        }
      }
      if step.failure.None? {
        var open' := open || TextStart(TEXT_ID) in ps;
        assert step.started ==> open' by {
          if step.started && !started {
            assert ps[0] == TextStart(TEXT_ID);
          }
        }
        StreamDeltasOpened(lines[1..], step.started, open', decode);
        DeltasOpenedAppend(ps, StreamFrom(lines[1..], step.started, decode).parts, open);
      }
    }
  }

  /** Every sequence has its deltas opened once the flag is true. */
  lemma {:induction false} OpenedAll(ps: seq<Part>)
    ensures DeltasOpened(ps, true)
    decreases |ps|
  {
    if ps != [] {
      OpenedAll(ps[1..]);
    }
  }

  /** Spelled out for a fresh stream: no text delta is ever delivered before a text start. */
  lemma StreamStartsBeforeDeltas(lines: seq<string>, decode: string -> Decoded)
    ensures DeltasOpened(StreamFrom(lines, false, decode).parts, false)
  {
    StreamDeltasOpened(lines, false, false, decode);
  }


  function StartCount(ps: seq<Part>): nat
    decreases |ps|
  {
    if ps == [] then 0 else (if ps[0].TextStart? then 1 else 0) + StartCount(ps[1..])
  }

  function EndCount(ps: seq<Part>): nat
    decreases |ps|
  {
    if ps == [] then 0 else (if ps[0].TextEnd? then 1 else 0) + EndCount(ps[1..])
  }

  function SuccessCount(lines: seq<string>, decode: string -> Decoded): nat
    decreases |lines|
  {
    if lines == [] then 0 else (if IsSuccessLine(lines[0], decode) then 1 else 0) + SuccessCount(lines[1..], decode)
  }

  lemma {:induction false} CountsAppend(a: seq<Part>, b: seq<Part>)
    ensures StartCount(a + b) == StartCount(a) + StartCount(b)
    ensures EndCount(a + b) == EndCount(a) + EndCount(b)
    decreases |a|
  {
    if a == [] {
      assert a + b == b;
    } else {
      assert (a + b)[1..] == a[1..] + b;
      CountsAppend(a[1..], b);
    }
  }

  /** The parts of one line: a start only when the flag was clear, an end only for a success record. */
  lemma StepCounts(started: bool, line: string, decode: string -> Decoded)
    requires !IsBlank(line)
    ensures var step := MapDecoded(started, decode(line));
      && StartCount(step.parts) == (if !started && (IsContentLine(line, decode) || IsSuccessLine(line, decode)) then 1 else 0)
      && EndCount(step.parts) == (if IsSuccessLine(line, decode) then 1 else 0)
      && step.started == (started || IsContentLine(line, decode))
  {
    var ss := StartIfNeeded(started);
    assert StartCount(ss) == (if started then 0 else 1) && EndCount(ss) == 0 by {
      if !started {
        assert ss[1..] == [];
      }
    }
    if IsContentLine(line, decode) {
      var d := [TextDelta(TEXT_ID, ContentText(decode(line).record).value)];
      assert d[1..] == [];
      CountsAppend(ss, d);
    } else if IsSuccessLine(line, decode) {
      var d := [TextDelta(TEXT_ID, decode(line).record.result.value), TextEnd(TEXT_ID)];
      assert d[1..][1..] == [];
      CountsAppend(ss, d);
    }
  }

  /** Text starts: at most one per success record, plus one if the flag begins clear. */
  lemma {:induction false} StreamStartBound(lines: seq<string>, started: bool, decode: string -> Decoded)
    ensures StartCount(StreamFrom(lines, started, decode).parts) <= (if started then 0 else 1) + SuccessCount(lines, decode)
    decreases |lines|
  {
    if lines == [] {
      assert [FINISH][1..] == [];
    } else if IsBlank(lines[0]) {
      StreamStartBound(lines[1..], started, decode);
    } else {
      var step := MapDecoded(started, decode(lines[0]));
      StepCounts(started, lines[0], decode);
      if step.failure.None? {
        StreamStartBound(lines[1..], step.started, decode);
        CountsAppend(step.parts, StreamFrom(lines[1..], step.started, decode).parts);
      }
    }
  }

  /** Without success records the stream holds at most one text start. */
  lemma StreamSingleStart(lines: seq<string>, decode: string -> Decoded)
    requires forall k | 0 <= k < |lines| :: !IsSuccessLine(lines[k], decode)
    ensures StartCount(StreamFrom(lines, false, decode).parts) <= 1
  {
    StreamStartBound(lines, false, decode);
    NoSuccessCount(lines, decode);
  }

  /** Once the flag is set no line emits a text start: not a content line, not a success record. */
  lemma {:induction false} StartedEmitsNoStart(lines: seq<string>, decode: string -> Decoded)
    ensures StartCount(StreamFrom(lines, true, decode).parts) == 0
    decreases |lines|
  {
    if lines == [] {
      assert [FINISH][1..] == [];
    } else if IsBlank(lines[0]) {
      StartedEmitsNoStart(lines[1..], decode);
    } else {
      var step := MapDecoded(true, decode(lines[0]));
      StepCounts(true, lines[0], decode);
      if step.failure.None? {
        StartedEmitsNoStart(lines[1..], decode);
        CountsAppend(step.parts, StreamFrom(lines[1..], true, decode).parts);
      }
    }
  }

  /** Lines without content, read from a clear flag, leave it clear and emit a start only for
      a success record. */
  lemma {:induction false} NoContentStarts(pre: seq<string>, rest: seq<string>, decode: string -> Decoded)
    requires forall k | 0 <= k < |pre| :: !IsContentLine(pre[k], decode)
    ensures StartCount(StreamFrom(pre + rest, false, decode).parts)
         <= SuccessCount(pre, decode) + StartCount(StreamFrom(rest, false, decode).parts)
    decreases |pre|
  {
    if pre == [] {
      assert pre + rest == rest;
    } else {
      var lines := pre + rest;
      assert lines[0] == pre[0] && lines[1..] == pre[1..] + rest;
      assert forall k | 0 <= k < |pre[1..]| :: pre[1..][k] == pre[k + 1];
      NoContentStarts(pre[1..], rest, decode);
      if !IsBlank(pre[0]) {
        var step := MapDecoded(false, decode(pre[0]));
        StepCounts(false, pre[0], decode);
        if step.failure.None? {
          CountsAppend(step.parts, StreamFrom(lines[1..], false, decode).parts);
        }
      }
    }
  }

  /** From a clear flag, content lines emit one text start between them: the first content line
      emits it, and after that line no part of the stream is a start; before it only success
      records emit one each. */
  lemma FirstContentStartsOnce(pre: seq<string>, line: string, post: seq<string>, decode: string -> Decoded)
    requires forall k | 0 <= k < |pre| :: !IsContentLine(pre[k], decode)
    requires IsContentLine(line, decode)
    ensures var first := MapDecoded(false, decode(line));
      && StartCount(first.parts) == 1 && first.started
      && StartCount(StreamFrom(post, first.started, decode).parts) == 0
      && StartCount(StreamFrom(pre + [line] + post, false, decode).parts) <= SuccessCount(pre, decode) + 1
  {
    StepCounts(false, line, decode);
    StartedEmitsNoStart(post, decode);
    var first := MapDecoded(false, decode(line));
    CountsAppend(first.parts, StreamFrom(post, true, decode).parts);
    assert ([line] + post)[1..] == post;
    assert pre + [line] + post == pre + ([line] + post);
    NoContentStarts(pre, [line] + post, decode);
  }

  lemma {:induction false} NoSuccessCount(lines: seq<string>, decode: string -> Decoded)
    requires forall k | 0 <= k < |lines| :: !IsSuccessLine(lines[k], decode)
    ensures SuccessCount(lines, decode) == 0
    decreases |lines|
  {
    if lines != [] {
      assert forall k | 0 <= k < |lines[1..]| :: lines[1..][k] == lines[k + 1];
      NoSuccessCount(lines[1..], decode);
    }
  }

  /** A stream that does not fail closes its text once per success record. */
  lemma {:induction false} StreamEndCount(lines: seq<string>, started: bool, decode: string -> Decoded)
    ensures StreamFrom(lines, started, decode).failure.None? ==>
      EndCount(StreamFrom(lines, started, decode).parts) == SuccessCount(lines, decode)
    decreases |lines|
  {
    if lines == [] {
      assert [FINISH][1..] == [];
    } else if IsBlank(lines[0]) {
      StreamEndCount(lines[1..], started, decode);
    } else {
      var step := MapDecoded(started, decode(lines[0]));
      StepCounts(started, lines[0], decode);
      if step.failure.None? {
        StreamEndCount(lines[1..], step.started, decode);
        CountsAppend(step.parts, StreamFrom(lines[1..], step.started, decode).parts);
      }
    }
  }

  /** The texts of the content lines, in order. */
  function ContentTexts(lines: seq<string>, decode: string -> Decoded): seq<string>
    decreases |lines|
  {
    if lines == [] then []
    else if IsContentLine(lines[0], decode) then [ContentText(decode(lines[0]).record).value] + ContentTexts(lines[1..], decode)
    else ContentTexts(lines[1..], decode)
  }

  function DeltaParts(texts: seq<string>): (ps: seq<Part>)
    ensures |ps| == |texts|
    ensures forall i | 0 <= i < |texts| :: ps[i] == TextDelta(TEXT_ID, texts[i])
  {
    seq(|texts|, i requires 0 <= i < |texts| => TextDelta(TEXT_ID, texts[i]))
  }

  /** A content line emits a start if the flag is clear, then its delta, and sets the flag. */
  lemma StreamContentStep(line: string, rest: seq<string>, started: bool, decode: string -> Decoded)
    requires IsContentLine(line, decode)
    ensures StreamFrom([line] + rest, started, decode) ==
      Prepend(StartIfNeeded(started) + [TextDelta(TEXT_ID, ContentText(decode(line).record).value)], StreamFrom(rest, true, decode))
  {
    assert ([line] + rest)[1..] == rest;
  }

  /** A noise line emits nothing and leaves the flag. */
  lemma StreamNoiseStep(line: string, rest: seq<string>, started: bool, decode: string -> Decoded)
    requires IsNoiseLine(line, decode)
    ensures StreamFrom([line] + rest, started, decode) == StreamFrom(rest, started, decode)
  {
    assert ([line] + rest)[1..] == rest;
    if !IsBlank(line) {
      assert MapDecoded(started, decode(line)) == LineStep([], started, None);
    }
  }

  /** Content and noise lines, the body of a stream before its result. */
  predicate IsBodyLine(line: string, decode: string -> Decoded) {
    IsContentLine(line, decode) || IsNoiseLine(line, decode)
  }

  /** The parts a body emits, from a given flag. */
  function BodyParts(texts: seq<string>, started: bool): seq<Part> {
    (if !started && texts != [] then [TextStart(TEXT_ID)] else []) + DeltaParts(texts)
  }

  /** Lines holding only content and noise emit a start (if the flag was clear and there is content) and one delta per content line. */
  lemma {:induction false} ContentPrefix(body: seq<string>, rest: seq<string>, started: bool, decode: string -> Decoded)
    requires forall k | 0 <= k < |body| :: IsBodyLine(body[k], decode)
    ensures StreamFrom(body + rest, started, decode) ==
      Prepend(BodyParts(ContentTexts(body, decode), started), StreamFrom(rest, started || ContentTexts(body, decode) != [], decode))
    decreases |body|, 1
  {
    if body == [] {
      assert body + rest == rest;
      assert BodyParts([], started) == [];
    } else {
      var line, more := body[0], body[1..];
      assert forall k | 0 <= k < |more| :: more[k] == body[k + 1];
      assert body == [line] + more;
      assert body + rest == [line] + (more + rest);
      if IsContentLine(line, decode) {
        ContentPrefixContent(line, more, rest, started, decode);
        ContentTextsCons(line, more, decode);
        assert ContentTexts(body, decode) != [];
      } else {
        ContentPrefixNoise(line, more, rest, started, decode);
      }
    }
  }

  lemma {:induction false} ContentPrefixNoise(line: string, more: seq<string>, rest: seq<string>, started: bool, decode: string -> Decoded)
    requires IsNoiseLine(line, decode)
    requires forall k | 0 <= k < |more| :: IsBodyLine(more[k], decode)
    ensures StreamFrom([line] + (more + rest), started, decode) ==
      Prepend(BodyParts(ContentTexts([line] + more, decode), started),
              StreamFrom(rest, started || ContentTexts([line] + more, decode) != [], decode))
    decreases |more| + 1, 0
  {
    StreamNoiseStep(line, more + rest, started, decode);
    ContentPrefix(more, rest, started, decode);
    ContentTextsNoise(line, more, decode);
  }

  lemma ContentTextsNoise(line: string, more: seq<string>, decode: string -> Decoded)
    requires !IsContentLine(line, decode)
    ensures ContentTexts([line] + more, decode) == ContentTexts(more, decode)
  {
    assert ([line] + more)[1..] == more;
  }

  lemma {:induction false} ContentPrefixContent(line: string, more: seq<string>, rest: seq<string>, started: bool, decode: string -> Decoded)
    requires IsContentLine(line, decode)
    requires forall k | 0 <= k < |more| :: IsBodyLine(more[k], decode)
    ensures StreamFrom([line] + (more + rest), started, decode) ==
      Prepend(BodyParts(ContentTexts([line] + more, decode), started), StreamFrom(rest, true, decode))
    decreases |more| + 1, 0
  {
    var c := ContentText(decode(line).record).value;
    var texts' := ContentTexts(more, decode);
    var tail := StreamFrom(rest, true, decode);
    StreamContentStep(line, more + rest, started, decode);
    ContentPrefix(more, rest, true, decode);
    ContentTextsCons(line, more, decode);
    BodyPartsCons(c, texts', started);
    PrependAppend(StartIfNeeded(started) + [TextDelta(TEXT_ID, c)], BodyParts(texts', true), tail);
  }

  lemma PrependAppend(a: seq<Part>, b: seq<Part>, run: StreamRun)
    ensures Prepend(a, Prepend(b, run)) == Prepend(a + b, run)
  {
    assert a + (b + run.parts) == (a + b) + run.parts;
  }

  lemma ContentTextsCons(line: string, more: seq<string>, decode: string -> Decoded)
    requires IsContentLine(line, decode)
    ensures ContentTexts([line] + more, decode) == [ContentText(decode(line).record).value] + ContentTexts(more, decode)
  {
    assert ([line] + more)[1..] == more;
  }

  lemma BodyPartsCons(c: string, texts: seq<string>, started: bool)
    ensures BodyParts([c] + texts, started) == StartIfNeeded(started) + [TextDelta(TEXT_ID, c)] + BodyParts(texts, true)
  {
    assert DeltaParts([c] + texts) == [TextDelta(TEXT_ID, c)] + DeltaParts(texts);
  }

  /** After the last content or result line, noise only leaves the finish part. */
  lemma {:induction false} NoiseTail(tail: seq<string>, started: bool, decode: string -> Decoded)
    requires forall k | 0 <= k < |tail| :: IsNoiseLine(tail[k], decode)
    ensures StreamFrom(tail, started, decode) == StreamRun([FINISH], None)
    decreases |tail|
  {
    if tail != [] {
      assert forall k | 0 <= k < |tail[1..]| :: tail[1..][k] == tail[k + 1];
      assert tail == [tail[0]] + tail[1..];
      StreamNoiseStep(tail[0], tail[1..], started, decode);
      NoiseTail(tail[1..], started, decode);
    }
  }

  /** Content, one success record, then noise: one start, the content deltas, the result as a delta,
      one end, one finish. */
  lemma WellBehavedStream(body: seq<string>, result: string, tail: seq<string>, decode: string -> Decoded)
    requires forall k | 0 <= k < |body| :: IsContentLine(body[k], decode) || IsNoiseLine(body[k], decode)
    requires IsSuccessLine(result, decode)
    requires forall k | 0 <= k < |tail| :: IsNoiseLine(tail[k], decode)
    ensures StreamFrom(body + [result] + tail, false, decode) ==
      StreamRun([TextStart(TEXT_ID)] + DeltaParts(ContentTexts(body, decode))
                + [TextDelta(TEXT_ID, decode(result).record.result.value), TextEnd(TEXT_ID), FINISH], None)
  {
    var texts := ContentTexts(body, decode);
    var started := texts != [];
    var r := decode(result).record.result.value;
    var mid := StartIfNeeded(started) + [TextDelta(TEXT_ID, r), TextEnd(TEXT_ID)];
    assert body + [result] + tail == body + ([result] + tail);
    ContentPrefix(body, [result] + tail, false, decode);
    SuccessStep(result, tail, started, decode);
    NoiseTail(tail, started, decode);
    assert StreamFrom([result] + tail, started, decode) == StreamRun(mid + [FINISH], None);
    PrependRun(BodyParts(texts, false), mid + [FINISH]);
    ShapeAssembly(texts, r);
  }

  lemma PrependRun(a: seq<Part>, b: seq<Part>)
    ensures Prepend(a, StreamRun(b, None)) == StreamRun(a + b, None)
  {
  }

  lemma ShapeAssembly(texts: seq<string>, r: string)
    ensures BodyParts(texts, false) + (StartIfNeeded(texts != []) + [TextDelta(TEXT_ID, r), TextEnd(TEXT_ID)] + [FINISH])
      == [TextStart(TEXT_ID)] + DeltaParts(texts) + [TextDelta(TEXT_ID, r), TextEnd(TEXT_ID), FINISH]
  {
    if texts == [] {
      assert DeltaParts(texts) == [];
    }
  }

  /** A success record emits a start if the flag is clear, its result as a delta and an end; the flag stays. */
  lemma SuccessStep(line: string, rest: seq<string>, started: bool, decode: string -> Decoded)
    requires IsSuccessLine(line, decode)
    ensures StreamFrom([line] + rest, started, decode) ==
      Prepend(StartIfNeeded(started) + [TextDelta(TEXT_ID, decode(line).record.result.value), TextEnd(TEXT_ID)],
              StreamFrom(rest, started, decode))
  {
    assert ([line] + rest)[1..] == rest;
  }

  /** Two assistant records "Hel" and "lo", then the success record "Hello". */
  lemma StreamingExample(first: string, second: string, result: string, decode: string -> Decoded)
    requires !IsBlank(first) && decode(first) == Parsed(Record(Some("assistant"), None, None, Some("Hel"), None))
    requires !IsBlank(second) && decode(second) == Parsed(Record(Some("assistant"), None, None, Some("lo"), None))
    requires !IsBlank(result) && decode(result) == Parsed(Record(Some("result"), Some("success"), Some("Hello"), None, None))
    ensures StreamFrom([first, second, result], false, decode) ==
      StreamRun([TextStart(TEXT_ID), TextDelta(TEXT_ID, "Hel"), TextDelta(TEXT_ID, "lo"),
                 TextDelta(TEXT_ID, "Hello"), TextEnd(TEXT_ID), FINISH], None)
  {
    var body := [first, second];
    assert body + [result] + [] == [first, second, result];
    assert ContentTexts(body, decode) == ["Hel", "lo"] by {
      assert body[1..] == [second];
      assert [second][1..] == [];
      assert IsContentLine(first, decode) && IsContentLine(second, decode);
      assert ContentTexts([second], decode) == ["lo"];
    }
    WellBehavedStream(body, result, [], decode);
  }

  /** The success branch does not set the flag: an assistant record after a result opens a second text. */
  lemma ResultThenContentStartsTwice(result: string, late: string, decode: string -> Decoded)
    requires !IsBlank(result) && decode(result) == Parsed(Record(Some("result"), Some("success"), Some("A"), None, None))
    requires !IsBlank(late) && decode(late) == Parsed(Record(Some("assistant"), None, None, Some("B"), None))
    ensures StreamFrom([result, late], false, decode) ==
      StreamRun([TextStart(TEXT_ID), TextDelta(TEXT_ID, "A"), TextEnd(TEXT_ID),
                 TextStart(TEXT_ID), TextDelta(TEXT_ID, "B"), FINISH], None)
    ensures StartCount(StreamFrom([result, late], false, decode).parts) == 2
  {
    assert [result, late][1..] == [late];
    assert [late][1..] == [];
    var ps := [TextStart(TEXT_ID), TextDelta(TEXT_ID, "A"), TextEnd(TEXT_ID), TextStart(TEXT_ID), TextDelta(TEXT_ID, "B"), FINISH];
    assert StreamFrom([late], false, decode) == StreamRun([TextStart(TEXT_ID), TextDelta(TEXT_ID, "B"), FINISH], None);
    assert StartCount(ps[5..]) == 0 by { assert ps[5..][1..] == []; }
    assert StartCount(ps[4..]) == 0 by { assert ps[4..][1..] == ps[5..]; }
    assert StartCount(ps[3..]) == 1 by { assert ps[3..][1..] == ps[4..]; }
    assert StartCount(ps[2..]) == 1 by { assert ps[2..][1..] == ps[3..]; }
    assert StartCount(ps[1..]) == 1 by { assert ps[1..][1..] == ps[2..]; }
  }

  /** A noise line anywhere leaves the stream unchanged. */
  lemma {:induction false} StreamIgnoresNoise(a: seq<string>, noise: string, b: seq<string>, started: bool, decode: string -> Decoded)
    requires IsNoiseLine(noise, decode)
    ensures StreamFrom(a + [noise] + b, started, decode) == StreamFrom(a + b, started, decode)
    decreases |a|
  {
    if a == [] {
      assert (a + [noise] + b)[1..] == a + b;
      if !IsBlank(noise) {
        assert MapDecoded(started, decode(noise)) == LineStep([], started, None);
      }
    } else {
      assert (a + [noise] + b)[0] == (a + b)[0] == a[0];
      assert (a + [noise] + b)[1..] == a[1..] + [noise] + b;
      assert (a + b)[1..] == a[1..] + b;
      var next := if IsBlank(a[0]) then started else MapDecoded(started, decode(a[0])).started;
      StreamIgnoresNoise(a[1..], noise, b, next, decode);
    }
  }
}
