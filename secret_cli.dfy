/**
 * The `op-secret-cache` command line: where the cache lives, the default time to
 * live, size rendering, and the `get`, `inject` and `clear` commands as
 * transitions of the cache directories plus what they print and which `op`
 * commands they run.
 */
module SecretCli {
  import opened Wrappers
  import opened Strings
  import Duration
  import opened Cache
  import opened Op

  const DEFAULT_CACHE_DIR: string := ".direnv/secrets"

  /** `OP_SECRET_CACHE_DIR` and `OP_SECRET_CACHE_TTL`. */
  datatype Env = Env(cacheDir: Option<string>, ttl: Option<string>)

  /** `getCacheDir`: `override ?? env ?? default`. `??` only skips an absent value, so a
      given but empty override or variable still wins. */
  function GetCacheDir(override: Option<string>, env: Env): (dir: string)
    ensures override.Some? ==> dir == override.value
    ensures override.None? ==> dir == env.cacheDir.GetOr(DEFAULT_CACHE_DIR)
  {
    override.GetOr(env.cacheDir.GetOr(DEFAULT_CACHE_DIR))
  }

  /** An empty `--cache-dir` is not replaced by the variable or the default. */
  lemma EmptyOverrideWins(env: Env)
    ensures GetCacheDir(Some(""), env) == ""
    ensures GetCacheDir(None, Env(Some(""), env.ttl)) == ""
  {
  }

  /** `getDefaultTtl`: nothing for an unset or empty variable, and nothing for one that
      does not parse; otherwise its duration in milliseconds. */
  function GetDefaultTtl(env: Env): (ttl: Option<nat>)
    ensures ttl.Some? <==> env.ttl.Some? && Duration.Matches(env.ttl.value)
    ensures ttl.Some? ==> Duration.ParseDuration(env.ttl.value) == Success(ttl.value)
  {
    if env.ttl.None? || env.ttl.value == "" then None
    else match Duration.ParseDuration(env.ttl.value)
      case Success(ms) => Some(ms)
      case Failure(_) => None
  }

  /** The time to live of `get` and `inject`: an explicit `--ttl` must parse, or the
      command fails; without one the variable's value, if it parses, is used. */
  function TtlFor(ttlFlag: Option<string>, env: Env): (r: Result<Option<nat>, Duration.DurationError>)
    ensures ttlFlag.Some? ==> (r.Failure? <==> !Duration.Matches(ttlFlag.value))
    ensures ttlFlag.Some? && r.Success? ==> r.value.Some?
    ensures ttlFlag.None? ==> r == Success(GetDefaultTtl(env))
  {
    match ttlFlag
    case Some(text) =>
      (match Duration.ParseDuration(text)
       case Success(ms) => Success(Some(ms))
       case Failure(e) => Failure(e))
    case None => Success(GetDefaultTtl(env))
  }

  /** A bad explicit `--ttl` fails, while the same text in the variable only means "no expiry". */
  lemma BadTtlFailsOnlyWhenExplicit(text: string, dirVar: Option<string>)
    requires !Duration.Matches(text)
    ensures TtlFor(Some(text), Env(dirVar, None)).Failure?
    ensures TtlFor(None, Env(dirVar, Some(text))) == Success(None)
  {
  }

  // ---------------------------------------------------------------------------
  // Sizes

  /** `x.toFixed(1)` for `x = bytes / unit`, as tenths: the integer nearest to
      `10 * bytes / unit`, the larger one on a tie. Both divisions by a power of two
      are exact in floating point for the sizes of real files. */
  function Tenths(bytes: nat, unit: nat): nat
    requires unit > 0
  {
    (20 * bytes + unit) / (2 * unit)
  }

  /** The tenths are the nearest ones to the exact quotient, ties rounded up. */
  lemma TenthsNearest(bytes: nat, unit: nat)
    requires unit > 0
    ensures var n := Tenths(bytes, unit);
      unit * (2 * n - 1) <= 20 * bytes < unit * (2 * n + 1)
  {
    var n := Tenths(bytes, unit);
    var q := 2 * unit;
    var a := 20 * bytes + unit;
    assert q * n <= a < q * n + q;
    assert unit * (2 * n - 1) == q * n - unit;
    assert unit * (2 * n + 1) == q * n + unit;
  }

  /** A number of tenths as `toFixed(1)` writes it: whole part, point, one digit. */
  function Fixed1(tenths: nat): (s: string)
    ensures |s| >= 3 && s[|s| - 2] == '.' && IsDigit(s[|s| - 1])
    ensures AllDigits(s[..|s| - 2]) && 10 * DigitsValue(s[..|s| - 2]) + DigitValue(s[|s| - 1]) == tenths
  {
    var whole := NatToString(tenths / 10);
    var s := whole + "." + [DigitChar(tenths % 10)];
    NatToStringValue(tenths / 10);
    assert s[..|s| - 2] == whole;
    assert DigitValue(DigitChar(tenths % 10)) == tenths % 10;
    s
  }

  /** `formatSize`. */
  function FormatSize(bytes: nat): (s: string)
    ensures EndsWith(s, " B") <==> bytes < 1024
    ensures EndsWith(s, " KB") <==> 1024 <= bytes < 1024 * 1024
    ensures EndsWith(s, " MB") <==> bytes >= 1024 * 1024
    ensures bytes < 1024 ==> AllDigits(s[..|s| - 2]) && DigitsValue(s[..|s| - 2]) == bytes
    ensures 1024 <= bytes < 1024 * 1024 ==> s == Fixed1(Tenths(bytes, 1024)) + " KB"
    ensures bytes >= 1024 * 1024 ==> s == Fixed1(Tenths(bytes, 1024 * 1024)) + " MB"
  {
    if bytes < 1024 then
      NatToStringValue(bytes);
      UnitSuffix(NatToString(bytes), " B")
    else if bytes < 1024 * 1024 then
      UnitSuffix(Fixed1(Tenths(bytes, 1024)), " KB")
    else
      UnitSuffix(Fixed1(Tenths(bytes, 1024 * 1024)), " MB")
  }

  /** Above a kilobyte, the printed number read back as tenths is the one nearest to
      the size in the unit of its suffix, ties rounded up. */
  lemma FormatSizeNearest(bytes: nat)
    requires bytes >= 1024
    ensures var unit := if bytes < 1024 * 1024 then 1024 else 1024 * 1024;
      var s := FormatSize(bytes);
      var number := s[..|s| - 3];
      && |number| >= 3 && number[|number| - 2] == '.'
      && AllDigits(number[..|number| - 2]) && IsDigit(number[|number| - 1])
      && var n := 10 * DigitsValue(number[..|number| - 2]) + DigitValue(number[|number| - 1]);
         unit * (2 * n - 1) <= 20 * bytes < unit * (2 * n + 1)
  {
    var unit := if bytes < 1024 * 1024 then 1024 else 1024 * 1024;
    var s := FormatSize(bytes);
    var f := Fixed1(Tenths(bytes, unit));
    assert s == f + (if bytes < 1024 * 1024 then " KB" else " MB");
    assert s[..|s| - 3] == f;
    TenthsNearest(bytes, unit);
  }

  /** A number and one of the unit suffixes " B", " KB", " MB"; the number ends in a digit,
      so the suffix can be read off. */
  function UnitSuffix(number: string, suffix: string): (s: string)
    requires |number| >= 1 && IsDigit(number[|number| - 1])
    requires suffix == " B" || suffix == " KB" || suffix == " MB"
    ensures s == number + suffix && s[..|number|] == number
    ensures EndsWith(s, " B") <==> suffix == " B"
    ensures EndsWith(s, " KB") <==> suffix == " KB"
    ensures EndsWith(s, " MB") <==> suffix == " MB"
  {
    var s := number + suffix;
    assert s[|s| - 1] == 'B';
    assert s[|s| - 2] == suffix[|suffix| - 2];
    assert suffix == " B" ==> s[|s| - 3] == number[|number| - 1];
    s
  }

  /** The kilobyte branch can print "1024.0 KB": just under a megabyte rounds up. */
  lemma AlmostAMegabyte()
    ensures FormatSize(1024 * 1024 - 1) == "1024.0 KB"
  {
    assert Tenths(1024 * 1024 - 1, 1024) == 10240;
    assert FormatSize(1024 * 1024 - 1) == UnitSuffix(Fixed1(10240), " KB");
    KiloText();
  }

  lemma KiloText()
    ensures UnitSuffix(Fixed1(10240), " KB") == "1024.0 KB"
  {
    assert NatToString(1024) == "1024";
    assert DigitChar(0) == '0';
    assert Fixed1(10240) == "1024" + "." + "0";
  }

  // ---------------------------------------------------------------------------
  // The commands

  /** What a command prints: a line on standard output or standard error, or one of
      the JSON objects (`JSON.stringify` itself is not modelled). */
  datatype Printed =
    | Stdout(text: string)
    | Stderr(text: string)
    | EntryJson(key: string, value: string, path: string, cachedAt: int, expiresAt: Option<int>, fromCache: bool)
    | ClearedJson(cleared: seq<string>, count: nat)
    | ListedJson(entries: seq<Listed>)
    | InfoJson(info: CacheInfo)

  /** One element of `list --json`: the metadata and the length of the value. */
  datatype Listed = Listed(key: string, path: string, cachedAt: int, expiresAt: Option<int>, size: nat)

  datatype CliError = OpFailed(opError: OpError) | BadDuration(durationError: Duration.DurationError)

  /** How a command ends: normally (the `ExitWithCode` failures of `inject` and `clear`
      are caught and end normally too), with an error, or killed by a defect. */
  datatype Status = Exited | Failed(error: CliError) | Crashed

  /** One run of a command: how it ended, what it printed, the cache directories
      afterwards, and the `op` command lines it ran in order. */
  datatype CommandRun = CommandRun(status: Status, printed: seq<Printed>, fs: map<string, Dir>, commands: seq<seq<string>>)

  /** Everything a command run depends on besides its arguments: the directories by
      path, the environment, one clock reading, the JSON codec of entries, whether
      writing the cache file succeeds, what `op` prints (absent when it fails), and
      for `inject` standard input, the template file's text, the temporary directory
      and whether the temporary template could be written. */
  datatype World = World(
    fs: map<string, Dir>,
    env: Env,
    now: int,
    decode: string -> Decoded,
    encode: CacheEntry -> string,
    writeOk: bool,
    opOutput: Option<string>,
    stdin: string,
    templateText: Option<string>,
    tmpDir: Option<string>,
    tmpWritten: bool)

  /** The directory at a path; a path with no directory is an absent one. */
  function DirAt(fs: map<string, Dir>, path: string): Dir {
    if path in fs then fs[path] else ABSENT
  }

  /** The directories with the one at `path` replaced; nothing changes when it is equal. */
  function Store(fs: map<string, Dir>, path: string, d: Dir): (r: map<string, Dir>)
    ensures DirAt(r, path) == d
    ensures forall p | p != path :: DirAt(r, p) == DirAt(fs, p)
    ensures d == DirAt(fs, path) ==> r == fs
  {
    if d == DirAt(fs, path) then fs else fs[path := d]
  }

  function Commands(run: OpRun): seq<seq<string>> {
    if run.command.Some? then [run.command.value] else []
  }

  /** An entry as `get` and `inject` print it. */
  function EntryOutput(e: CacheEntry, json: bool, fromCache: bool): Printed {
    if json then EntryJson(e.metadata.key, e.value, e.metadata.path, e.metadata.cachedAt, e.metadata.expiresAt, fromCache)
    else Stdout(e.value)
  }

  /** The expiry of an entry cached at `now`. */
  function ExpiryOf(now: int, ttl: Option<nat>): Option<int> {
    if ttl.Some? then Some(now + ttl.value) else None
  }

  /** The cache look-up both `get` and `inject` begin with, unless `--refresh`: a hit
      ends the command with the cached entry; a miss (after evicting an expired entry)
      goes on with `fetch`. */
  function Lookup(
    refresh: bool, json: bool, dir: string, key: string, w: World,
    fetch: Dir -> CommandRun): CommandRun
  {
    var d := DirAt(w.fs, dir);
    if refresh then fetch(d)
    else
      var read := ReadCacheEntry(d, key, w.now, w.decode);
      match read.outcome
      case Died => CommandRun(Crashed, [], Store(w.fs, dir, read.after), [])
      case Done(Some(e)) => CommandRun(Exited, [EntryOutput(e, json, true)], Store(w.fs, dir, read.after), [])
      case Done(None) => fetch(read.after)
  }

  /** The common tail of `get` and `inject`, after the secret text was obtained: the
      time to live, the entry, the write, the output. */
  function Save(
    key: string, path: string, ttlFlag: Option<string>, json: bool, dir: string, w: World, d: Dir,
    printed: seq<Printed>, value: string, commands: seq<seq<string>>): (r: CommandRun)
    ensures forall p | p != dir :: DirAt(r.fs, p) == DirAt(w.fs, p)
    ensures r.commands == commands
    ensures r.status == Exited || (r.status.Failed? && r.status.error.BadDuration?)
  {
    match TtlFor(ttlFlag, w.env)
    case Failure(e) => CommandRun(Failed(BadDuration(e)), printed, Store(w.fs, dir, d), commands)
    case Success(ttl) =>
      var entry := CacheEntry(CacheMetadata(key, path, w.now, ExpiryOf(w.now, ttl)), value);
      var d2 := WriteCacheEntry(d, entry, w.encode, w.writeOk);
      CommandRun(Exited, printed + [EntryOutput(entry, json, false)], Store(w.fs, dir, d2), commands)
  }

  datatype GetArgs = GetArgs(path: string, key: Option<string>, ttl: Option<string>, refresh: bool, cacheDir: Option<string>, json: bool)

  /** `get`'s key: `--key`, or the slug of the path. */
  function GetKey(args: GetArgs): string {
    args.key.GetOr(SlugifyPath(args.path))
  }

  /** `get` after the look-up missed: `op read`, then the time to live (so a bad `--ttl`
      is found only after the secret was read), then the entry is written. */
  function GetFetch(args: GetArgs, w: World, d: Dir): (r: CommandRun)
    ensures forall p | p != GetCacheDir(args.cacheDir, w.env) :: DirAt(r.fs, p) == DirAt(w.fs, p)
    ensures r.commands == [] || r.commands == [["op", "read", args.path]]
    ensures r.status.Failed? && r.status.error.BadDuration? ==> r.commands == [["op", "read", args.path]]
  {
    var dir := GetCacheDir(args.cacheDir, w.env);
    var read := ReadSecret(args.path, w.opOutput);
    match read.result
    case Failure(e) => CommandRun(Failed(OpFailed(e)), [], Store(w.fs, dir, d), Commands(read))
    case Success(value) => Save(GetKey(args), args.path, args.ttl, args.json, dir, w, d, [], value, Commands(read))
  }

  /** The `get` command: it changes no directory but the cache directory, runs `op read` on
      the path or nothing, and fails on a bad `--ttl` only once `op read` has run. */
  function Get(args: GetArgs, w: World): (r: CommandRun)
    ensures forall p | p != GetCacheDir(args.cacheDir, w.env) :: DirAt(r.fs, p) == DirAt(w.fs, p)
    ensures r.commands == [] || r.commands == [["op", "read", args.path]]
    ensures r.status.Failed? && r.status.error.BadDuration? ==> r.commands == [["op", "read", args.path]]
  {
    Lookup(args.refresh, args.json, GetCacheDir(args.cacheDir, w.env), GetKey(args), w, d => GetFetch(args, w, d))
  }

  /** Without `--refresh`, a cache hit prints the cached entry and neither runs `op` nor
      changes any directory. */
  lemma GetHit(args: GetArgs, w: World, e: CacheEntry)
    requires !args.refresh
    requires ReadCacheEntry(DirAt(w.fs, GetCacheDir(args.cacheDir, w.env)), GetKey(args), w.now, w.decode).outcome == Done(Some(e))
    ensures Get(args, w) == CommandRun(Exited, [EntryOutput(e, args.json, true)], w.fs, [])
  {
  }

  /** Otherwise `get` reads the secret with `op read` and caches the trimmed value under its
      key, with the path, the time of the call and the expiry the time to live gives. */
  lemma GetFetches(args: GetArgs, w: World, d: Dir, ttl: Option<nat>)
    requires StartsWith(args.path, "op://") && w.opOutput.Some?
    requires TtlFor(args.ttl, w.env) == Success(ttl)
    ensures var dir := GetCacheDir(args.cacheDir, w.env);
      var entry := CacheEntry(CacheMetadata(GetKey(args), args.path, w.now, ExpiryOf(w.now, ttl)), Trim(w.opOutput.value));
      var run := GetFetch(args, w, d);
      && run.status == Exited
      && run.commands == [["op", "read", args.path]]
      && run.printed == [EntryOutput(entry, args.json, false)]
      && DirAt(run.fs, dir) == WriteCacheEntry(d, entry, w.encode, w.writeOk)
  {
  }

  /** The exit status of `op read` is not checked: when it prints nothing, the empty
      value is cached and printed like any secret. */
  lemma GetCachesEmptyOutput(args: GetArgs, w: World, d: Dir, ttl: Option<nat>)
    requires StartsWith(args.path, "op://") && w.opOutput == Some("")
    requires TtlFor(args.ttl, w.env) == Success(ttl)
    ensures var entry := CacheEntry(CacheMetadata(GetKey(args), args.path, w.now, ExpiryOf(w.now, ttl)), "");
      var run := GetFetch(args, w, d);
      && run.status == Exited
      && run.printed == [EntryOutput(entry, args.json, false)]
      && DirAt(run.fs, GetCacheDir(args.cacheDir, w.env)) == WriteCacheEntry(d, entry, w.encode, w.writeOk)
  {
    GetFetches(args, w, d, ttl);
    TrimEmpty("");
  }

  /** A `--ttl` that does not parse fails `get` after `op read` has run, and nothing is written. */
  lemma GetBadTtl(args: GetArgs, w: World, d: Dir)
    requires StartsWith(args.path, "op://") && w.opOutput.Some?
    requires args.ttl.Some? && !Duration.Matches(args.ttl.value)
    ensures var run := GetFetch(args, w, d);
      && run.status == Failed(BadDuration(Duration.InvalidDurationError(Duration.FORMAT_MESSAGE, args.ttl.value)))
      && run.commands == [["op", "read", args.path]]
      && DirAt(run.fs, GetCacheDir(args.cacheDir, w.env)) == d
  {
  }

  /** A path without the `op://` scheme fails `get` without running `op` or writing. */
  lemma GetInvalidPath(args: GetArgs, w: World, d: Dir)
    requires !StartsWith(args.path, "op://")
    ensures var run := GetFetch(args, w, d);
      && run.status == Failed(OpFailed(InvalidSecretPathError(INVALID_PATH_MESSAGE, args.path)))
      && run.commands == []
      && DirAt(run.fs, GetCacheDir(args.cacheDir, w.env)) == d
  {
  }

  /** Once `get` has cached a secret, the same `get` without `--refresh` is answered from
      the cache, without `op`, until the entry expires, provided the cache file was
      written and its JSON reads back as the entry. */
  lemma GetThenGetHits(args: GetArgs, w: World, d: Dir, ttl: Option<nat>, later: int)
    requires StartsWith(args.path, "op://") && w.opOutput.Some? && w.writeOk
    requires TtlFor(args.ttl, w.env) == Success(ttl)
    requires w.now <= later && (ttl.Some? ==> later <= w.now + ttl.value)
    requires var entry := CacheEntry(CacheMetadata(GetKey(args), args.path, w.now, ExpiryOf(w.now, ttl)), Trim(w.opOutput.value));
      w.encode(entry) != [] && w.decode(w.encode(entry)) == Decoded(entry)
    ensures var first := GetFetch(args, w, d);
      var entry := CacheEntry(CacheMetadata(GetKey(args), args.path, w.now, ExpiryOf(w.now, ttl)), Trim(w.opOutput.value));
      var again := Get(args.(refresh := false), w.(fs := first.fs, now := later));
      again == CommandRun(Exited, [EntryOutput(entry, args.json, true)], first.fs, [])
  {
    var dir := GetCacheDir(args.cacheDir, w.env);
    var entry := CacheEntry(CacheMetadata(GetKey(args), args.path, w.now, ExpiryOf(w.now, ttl)), Trim(w.opOutput.value));
    GetFetches(args, w, d, ttl);
    var first := GetFetch(args, w, d);
    WriteThenRead(d, entry, w.encode, w.decode, later);
    GetHit(args.(refresh := false), w.(fs := first.fs, now := later), entry);
  }

  datatype InjectArgs = InjectArgs(template: string, key: Option<string>, ttl: Option<string>, refresh: bool, cacheDir: Option<string>, json: bool)

  const STDIN_TEMPLATE: string := "-"
  const STDIN_PATH: string := "<stdin>"
  const KEY_REQUIRED: string := "Error: --key is required when reading from stdin"

  /** The three warning lines for placeholders inside double quotes. */
  const QUOTE_WARNING: seq<Printed> := [
    Stderr("Warning: Template uses double quotes around {{ }} placeholders."),
    Stderr("         Use single quotes to prevent $VAR interpolation in secrets."),
    Stderr("         Example: export KEY='{{ op://Vault/Item/field }}'")]

  /** The template text: standard input for "-", otherwise the file's text or "" when
      it cannot be read. */
  function TemplateContent(args: InjectArgs, w: World): string {
    if args.template == STDIN_TEMPLATE then w.stdin else w.templateText.GetOr("")
  }

  /** The warning is printed exactly when the template has `"{{` or `}}"`. */
  function QuoteWarning(content: string): (lines: seq<Printed>)
    ensures lines != [] <==> Contains(content, "\"{{") || Contains(content, "}}\"")
  {
    if Contains(content, "\"{{") || Contains(content, "}}\"") then QUOTE_WARNING else []
  }

  function InjectKey(args: InjectArgs): string {
    args.key.GetOr(SlugifyPath(args.template))
  }

  /** `inject` after the look-up missed: the warning check, `op inject` on the file or on a
      temporary copy of standard input, then the entry is written. */
  function InjectFetch(args: InjectArgs, w: World, d: Dir): (r: CommandRun)
    ensures forall p | p != GetCacheDir(args.cacheDir, w.env) :: DirAt(r.fs, p) == DirAt(w.fs, p)
    ensures |r.commands| <= 1
    ensures r.commands != [] && args.template != STDIN_TEMPLATE ==> r.commands == [["op", "inject", "-i", args.template]]
    ensures r.commands != [] && args.template == STDIN_TEMPLATE ==>
      w.tmpDir.Some? && r.commands == [["op", "inject", "-i", w.tmpDir.value + "/" + TEMPLATE_FILE_NAME]]
    ensures r.status.Failed? && r.status.error.BadDuration? ==> r.commands != []
  {
    var dir := GetCacheDir(args.cacheDir, w.env);
    var isStdin := args.template == STDIN_TEMPLATE;
    var warning := QuoteWarning(TemplateContent(args, w));
    var run := if isStdin then InjectTemplateContent(w.tmpDir, w.tmpWritten, w.opOutput)
               else InjectTemplateFile(args.template, w.opOutput);
    match run.result
    case Failure(e) => CommandRun(Failed(OpFailed(e)), warning, Store(w.fs, dir, d), Commands(run))
    case Success(value) =>
      Save(InjectKey(args), if isStdin then STDIN_PATH else args.template, args.ttl, args.json, dir, w, d,
           warning, value, Commands(run))
  }

  /** The `inject` command: it changes no directory but the cache directory, runs at most one
      `op inject`, on the template file or on the temporary copy of standard input, and fails on
      a bad `--ttl` only once that has run. */
  function Inject(args: InjectArgs, w: World): (r: CommandRun)
    ensures forall p | p != GetCacheDir(args.cacheDir, w.env) :: DirAt(r.fs, p) == DirAt(w.fs, p)
    ensures |r.commands| <= 1
    ensures r.commands != [] && args.template != STDIN_TEMPLATE ==> r.commands == [["op", "inject", "-i", args.template]]
    ensures r.commands != [] && args.template == STDIN_TEMPLATE ==>
      w.tmpDir.Some? && r.commands == [["op", "inject", "-i", w.tmpDir.value + "/" + TEMPLATE_FILE_NAME]]
    ensures r.status.Failed? && r.status.error.BadDuration? ==> r.commands != []
  {
    if args.template == STDIN_TEMPLATE && args.key.None? then
      CommandRun(Exited, [Stderr(KEY_REQUIRED)], w.fs, [])
    else
      Lookup(args.refresh, args.json, GetCacheDir(args.cacheDir, w.env), InjectKey(args), w, d => InjectFetch(args, w, d))
  }

  /** `inject -` without `--key` prints an error and ends without touching the cache or
      running `op`. */
  lemma InjectStdinNeedsKey(args: InjectArgs, w: World)
    requires args.template == "-" && args.key.None?
    ensures Inject(args, w) == CommandRun(Exited, [Stderr(KEY_REQUIRED)], w.fs, [])
  {
  }

  /** A template read from standard input is recorded with the path "<stdin>", and its
      rendered text is cached verbatim, untrimmed. */
  lemma InjectStdinRecordsPath(args: InjectArgs, w: World, d: Dir, ttl: Option<nat>)
    requires args.template == "-" && args.key.Some?
    requires w.tmpDir.Some? && w.tmpWritten && w.opOutput.Some?
    requires TtlFor(args.ttl, w.env) == Success(ttl)
    ensures var run := InjectFetch(args, w, d);
      var entry := CacheEntry(CacheMetadata(args.key.value, STDIN_PATH, w.now, ExpiryOf(w.now, ttl)), w.opOutput.value);
      && run.status == Exited
      && run.commands == [["op", "inject", "-i", w.tmpDir.value + "/" + TEMPLATE_FILE_NAME]]
      && run.printed == QuoteWarning(w.stdin) + [EntryOutput(entry, args.json, false)]
      && DirAt(run.fs, GetCacheDir(args.cacheDir, w.env)) == WriteCacheEntry(d, entry, w.encode, w.writeOk)
  {
  }

  /** A template file is injected in place, recorded with its own path, and keyed by the
      slug of that path unless `--key` is given. */
  lemma InjectFileRecordsPath(args: InjectArgs, w: World, d: Dir, ttl: Option<nat>)
    requires args.template != "-" && w.opOutput.Some?
    requires TtlFor(args.ttl, w.env) == Success(ttl)
    ensures var run := InjectFetch(args, w, d);
      var entry := CacheEntry(CacheMetadata(args.key.GetOr(SlugifyPath(args.template)), args.template, w.now,
                                            ExpiryOf(w.now, ttl)), w.opOutput.value);
      && run.status == Exited
      && run.commands == [["op", "inject", "-i", args.template]]
      && DirAt(run.fs, GetCacheDir(args.cacheDir, w.env)) == WriteCacheEntry(d, entry, w.encode, w.writeOk)
  {
  }

  datatype ClearArgs = ClearArgs(key: Option<string>, all: bool, cacheDir: Option<string>, json: bool)

  const KEY_OR_ALL: string := "Error: Provide a key to clear, or use --all to clear everything."

  /** What `clear --all` prints for the keys it cleared (the loop over them included). */
  function ClearedLines(cleared: seq<string>, json: bool): (lines: seq<Printed>)
    ensures json ==> lines == [ClearedJson(cleared, |cleared|)]
    ensures !json && cleared != [] ==>
      (&& |lines| == |cleared| + 1
       && lines[0] == Stdout("Cleared " + NatToString(|cleared|) + " cached secret(s):")
       && forall i | 0 <= i < |cleared| :: lines[i + 1] == Stdout("  - " + cleared[i]))
    ensures !json && cleared == [] ==> lines == [Stdout("No cached secrets to clear.")]
  {
    if json then [ClearedJson(cleared, |cleared|)]
    else if |cleared| > 0 then
      [Stdout("Cleared " + NatToString(|cleared|) + " cached secret(s):")]
        + seq(|cleared|, i requires 0 <= i < |cleared| => Stdout("  - " + cleared[i]))
    else [Stdout("No cached secrets to clear.")]
  }

  /** The `clear` command: it always ends normally, runs no `op`, and only removes files
      of the cache directory, changing no other file and no other directory. */
  function Clear(args: ClearArgs, w: World): (r: CommandRun)
    ensures r.status == Exited && r.commands == []
    ensures forall p | p != GetCacheDir(args.cacheDir, w.env) :: DirAt(r.fs, p) == DirAt(w.fs, p)
    ensures var before := DirAt(w.fs, GetCacheDir(args.cacheDir, w.env));
      var after := DirAt(r.fs, GetCacheDir(args.cacheDir, w.env));
      forall n | n in after.files :: n in before.files && after.files[n] == before.files[n]
  {
    var dir := GetCacheDir(args.cacheDir, w.env);
    var d := DirAt(w.fs, dir);
    if args.all then
      var r := ClearAllCacheEntries(d);
      CommandRun(Exited, ClearedLines(r.0, args.json), Store(w.fs, dir, r.1), [])
    else if args.key.None? then
      CommandRun(Exited, [Stderr(KEY_OR_ALL)], w.fs, [])
    else
      var key := args.key.value;
      var r := ClearCacheEntry(d, key);
      var printed :=
        if args.json then ClearedJson(if r.0 then [key] else [], if r.0 then 1 else 0)
        else if r.0 then Stdout("Cleared: " + key)
        else Stdout("Not found: " + key);
      CommandRun(Exited, [printed], Store(w.fs, dir, r.1), [])
  }

  /** `clear` with neither a key nor `--all` prints an error and removes nothing. */
  lemma ClearNeedsKeyOrAll(args: ClearArgs, w: World)
    requires !args.all && args.key.None?
    ensures Clear(args, w) == CommandRun(Exited, [Stderr(KEY_OR_ALL)], w.fs, [])
  {
  }

  /** `clear <key>` reports the key as cleared exactly when its file existed and was
      removed, and changes no other directory. */
  lemma ClearOneReports(args: ClearArgs, w: World)
    requires !args.all && args.key.Some?
    ensures var dir := GetCacheDir(args.cacheDir, w.env);
      var name := FileName(args.key.value);
      var gone := Exists(DirAt(w.fs, dir), name) && DirAt(w.fs, dir).files[name].removable;
      var run := Clear(args, w);
      && (args.json ==> run.printed == [ClearedJson(if gone then [args.key.value] else [], if gone then 1 else 0)])
      && (!args.json ==> run.printed == [Stdout((if gone then "Cleared: " else "Not found: ") + args.key.value)])
      && (gone <==> name !in DirAt(run.fs, dir).files && name in DirAt(w.fs, dir).files)
      && (forall p | p != dir :: DirAt(run.fs, p) == DirAt(w.fs, p))
  {
  }

  /** `clear --all` reports, in directory order, the key of every listed `.json` file, and
      only the cache directory changes. */
  lemma ClearAllReports(args: ClearArgs, w: World)
    requires args.all && args.json
    ensures var d := DirAt(w.fs, GetCacheDir(args.cacheDir, w.env));
      var keys := if d.present then JsonKeys(Listing(d)) else [];
      var run := Clear(args, w);
      && run.printed == [ClearedJson(keys, |keys|)]
      && (forall p | p != GetCacheDir(args.cacheDir, w.env) :: DirAt(run.fs, p) == DirAt(w.fs, p))
  {
    ClearAllEffect(DirAt(w.fs, GetCacheDir(args.cacheDir, w.env)));
  }

  datatype ListArgs = ListArgs(cacheDir: Option<string>, json: bool, verbose: bool)

  function ListedOf(e: CacheEntry): Listed {
    Listed(e.metadata.key, e.metadata.path, e.metadata.cachedAt, e.metadata.expiresAt, |e.value|)
  }

  /** When an entry expires, as `list` says it: relative to now, or "never". */
  function ExpiryText(e: CacheEntry, now: int): string {
    if e.metadata.expiresAt.Some? then Duration.FormatRelativeTime(e.metadata.expiresAt.value, now) else "never"
  }

  /** The lines `list` prints for one entry: six in the verbose form (the last one empty),
      one otherwise. */
  function EntryLines(e: CacheEntry, now: int, verbose: bool): (lines: seq<Printed>)
    ensures |lines| == if verbose then 6 else 1
    ensures forall i | 0 <= i < |lines| :: lines[i].Stdout?
    ensures StartsWith(lines[0].text, "  " + e.metadata.key)
  {
    var head := "  " + e.metadata.key;
    if verbose then
      VerboseLines(head, e.metadata.path, Duration.FormatRelativeTime(e.metadata.cachedAt, now),
                   ExpiryText(e, now), FormatSize(|e.value|))
    else [CompactLine(head, e, now)]
  }

  /** The verbose form: the key, then path, cache time, expiry and size, then an empty line. */
  function VerboseLines(head: string, path: string, cached: string, expires: string, size: string): (lines: seq<Printed>)
    ensures |lines| == 6 && forall i | 0 <= i < 6 :: lines[i].Stdout?
    ensures StartsWith(lines[0].text, head)
  {
    [Stdout(Headed(head, "")), Stdout("    Path: " + path), Stdout("    Cached: " + cached),
     Stdout("    Expires: " + expires), Stdout("    Size: " + size), Stdout("")]
  }

  /** The compact form: the key, with the cache time and the expiry in parentheses. */
  function CompactLine(head: string, e: CacheEntry, now: int): (line: Printed)
    ensures line.Stdout? && StartsWith(line.text, head)
  {
    var cachedAgo := Duration.FormatRelativeTime(e.metadata.cachedAt, now);
    Stdout(Headed(head, " (cached " + cachedAgo + ", expires " + ExpiryText(e, now) + ")"))
  }

  /** A line that starts with `head`. */
  function Headed(head: string, rest: string): (line: string)
    ensures StartsWith(line, head)
  {
    assert (head + rest)[..|head|] == head;
    head + rest
  }

  /** The loop of `list` over the entries, in order. */
  function EntriesLines(entries: seq<CacheEntry>, now: int, verbose: bool): (lines: seq<Printed>)
    ensures |lines| == |entries| * (if verbose then 6 else 1)
  {
    if entries == [] then []
    else EntryLines(entries[0], now, verbose) + EntriesLines(entries[1..], now, verbose)
  }

  /** Without `--verbose`, line `i` of the loop is the one for entry `i`, and it starts
      with that entry's key. */
  lemma {:induction false} EntriesLinesOneEach(entries: seq<CacheEntry>, now: int)
    ensures var lines := EntriesLines(entries, now, false);
      forall i | 0 <= i < |entries| :: lines[i].Stdout? && StartsWith(lines[i].text, "  " + entries[i].metadata.key)
  {
    if entries != [] {
      EntriesLinesOneEach(entries[1..], now);
      var first := EntryLines(entries[0], now, false);
      var rest := EntriesLines(entries[1..], now, false);
      var lines := EntriesLines(entries, now, false);
      assert lines == first + rest;
      forall i | 0 <= i < |entries|
        ensures lines[i].Stdout? && StartsWith(lines[i].text, "  " + entries[i].metadata.key)
      {
        if i == 0 {
          assert lines[0] == first[0];
        } else {
          assert lines[i] == rest[i - 1];
          assert entries[1..][i - 1] == entries[i];
        }
      }
    }
  }

  /** What `list` prints for the entries it found. */
  function ListPrinted(entries: seq<CacheEntry>, now: int, json: bool, verbose: bool): seq<Printed> {
    if json then [ListedJson(seq(|entries|, i requires 0 <= i < |entries| => ListedOf(entries[i])))]
    else if entries == [] then [Stdout("No cached secrets found.")]
    else [Stdout("Cached secrets (" + NatToString(|entries|) + "):"), Stdout("")] + EntriesLines(entries, now, verbose)
  }

  /** The `list` command. A defect while reading an entry ends it before it prints. */
  function List(args: ListArgs, w: World): (r: CommandRun)
    ensures r.commands == [] && (r.status == Exited || r.status == Crashed)
    ensures forall p | p != GetCacheDir(args.cacheDir, w.env) :: DirAt(r.fs, p) == DirAt(w.fs, p)
    ensures EvictsOnly(DirAt(w.fs, GetCacheDir(args.cacheDir, w.env)), DirAt(r.fs, GetCacheDir(args.cacheDir, w.env)), w.now, w.decode)
  {
    var dir := GetCacheDir(args.cacheDir, w.env);
    var r := ListCacheEntries(DirAt(w.fs, dir), w.now, w.decode);
    var fs := Store(w.fs, dir, r.after);
    match r.outcome
    case Died => CommandRun(Crashed, [], fs, [])
    case Done(entries) => CommandRun(Exited, ListPrinted(entries, w.now, args.json, args.verbose), fs, [])
  }

  /** `list` shows exactly the entries that are valid and unexpired and held by a listed
      `.json` file of the cache directory, in listing order; the only files it removes are expired ones, and
      when it completes every removable expired `.json` file of the listing is gone; no other
      directory changes, and it runs no `op` command. */
  lemma ListShowsLiveEntries(args: ListArgs, w: World)
    ensures var dir := GetCacheDir(args.cacheDir, w.env);
      var d := DirAt(w.fs, dir);
      var r := ListCacheEntries(d, w.now, w.decode);
      var run := List(args, w);
      && run.commands == []
      && EvictsOnly(d, DirAt(run.fs, dir), w.now, w.decode)
      && (forall p | p != dir :: DirAt(run.fs, p) == DirAt(w.fs, p))
      && (r.outcome.Done? ==> forall e | e in r.outcome.value ::
            !IsExpired(e.metadata, w.now) && exists n | n in d.names :: IsJsonName(n) && Holds(d, n, w.decode, e))
      && (r.outcome.Done? ==> forall n | Evictable(Listing(d), d, n, w.now, w.decode) :: n !in DirAt(run.fs, dir).files)
      && (r.outcome.Done? ==> forall n, e | n in Listing(d) && IsJsonName(n) && Holds(d, n, w.decode, e) && !IsExpired(e.metadata, w.now) ::
            e in r.outcome.value)
      && (r.outcome.Done? ==> r.outcome.value == LiveIn(Listing(d), d, w.now, w.decode))
      && (r.outcome.Done? ==> run.status == Exited && run.printed == ListPrinted(r.outcome.value, w.now, args.json, args.verbose))
  {
    var dir := GetCacheDir(args.cacheDir, w.env);
    ListSound(DirAt(w.fs, dir), w.now, w.decode);
  }

  /** Without `--verbose` and `--json`, `list` prints two heading lines and then one line
      per entry, in order, each starting with the entry's key. */
  lemma ListOneLinePerEntry(entries: seq<CacheEntry>, now: int)
    requires entries != []
    ensures var printed := ListPrinted(entries, now, false, false);
      && |printed| == |entries| + 2
      && printed[0] == Stdout("Cached secrets (" + NatToString(|entries|) + "):")
      && forall i | 0 <= i < |entries| ::
           printed[i + 2].Stdout? && StartsWith(printed[i + 2].text, "  " + entries[i].metadata.key)
  {
    EntriesLinesOneEach(entries, now);
    var lines := EntriesLines(entries, now, false);
    var printed := ListPrinted(entries, now, false, false);
    assert printed == [Stdout("Cached secrets (" + NatToString(|entries|) + "):"), Stdout("")] + lines;
    assert forall i | 0 <= i < |entries| :: printed[i + 2] == lines[i];
  }

  /** With `--json`, `list` prints one array with an element per entry, in order, giving
      its metadata and the length of its value, but not the value. */
  lemma ListJsonHidesValues(entries: seq<CacheEntry>, now: int, verbose: bool)
    ensures var printed := ListPrinted(entries, now, true, verbose);
      && |printed| == 1 && printed[0].ListedJson?
      && |printed[0].entries| == |entries|
      && forall i | 0 <= i < |entries| ::
           printed[0].entries[i].key == entries[i].metadata.key
           && printed[0].entries[i].expiresAt == entries[i].metadata.expiresAt
           && printed[0].entries[i].size == |entries[i].value|
  {
  }

  datatype InfoArgs = InfoArgs(cacheDir: Option<string>, json: bool)

  /** The `info` command: it changes nothing, runs no `op`, and prints one JSON object or
      three lines: the cache directory, the number of `.json` files in it and their total
      size. A missing or unreadable directory shows zeros. */
  function Info(args: InfoArgs, w: World): (r: CommandRun)
    ensures r.fs == w.fs && r.commands == [] && r.status == Exited
    ensures |r.printed| == if args.json then 1 else 3
    ensures var dir := GetCacheDir(args.cacheDir, w.env);
      var d := DirAt(w.fs, dir);
      var count := if d.present then |JsonKeys(Listing(d))| else 0;
      var size := if d.present && d.listable then SizeSum(JsonNames(d.names), d) else 0;
      if args.json then r.printed == [InfoJson(CacheInfo(dir, count, size))]
      else r.printed == [Stdout("Cache directory: " + dir),
                         Stdout("Cached secrets:  " + NatToString(count)),
                         Stdout("Total size:      " + FormatSize(size))]
  {
    var dir := GetCacheDir(args.cacheDir, w.env);
    var info := GetCacheInfo(dir, DirAt(w.fs, dir));
    var printed :=
      if args.json then [InfoJson(info)]
      else [Stdout("Cache directory: " + info.cacheDir),
            Stdout("Cached secrets:  " + NatToString(info.count)),
            Stdout("Total size:      " + FormatSize(info.totalSize))];
    CommandRun(Exited, printed, w.fs, [])
  }

  /** `info` changes nothing, and the count it reports is the count `clear --all` would
      report on the same directories. */
  lemma InfoCountsWhatClearAllClears(cacheDir: Option<string>, w: World)
    ensures var run := Info(InfoArgs(cacheDir, true), w);
      var cleared := Clear(ClearArgs(None, true, cacheDir, true), w);
      && run.fs == w.fs && run.commands == []
      && run.printed[0].InfoJson? && cleared.printed[0].ClearedJson?
      && run.printed[0].info.count == cleared.printed[0].count
  {
    var dir := GetCacheDir(cacheDir, w.env);
    InfoCountsClearable(dir, DirAt(w.fs, dir));
  }
}
