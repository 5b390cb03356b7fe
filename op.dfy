/**
 * The 1Password command line as the secret cache calls it: path validation,
 * `op read` and the two forms of `op inject`. What the command prints is a
 * parameter; each operation also reports the command it ran, if any.
 *
 * Every call collects the standard output of `op` without looking at its exit
 * status. The output parameter is absent only when `op` cannot be run at all; an
 * `op` that runs and exits non-zero gives whatever it printed, usually nothing.
 */
module Op {
  import opened Wrappers
  import opened Strings

  /** `OpCliError` (its cause is left out) and `InvalidSecretPathError`. */
  datatype OpError = OpCliError(message: string) | InvalidSecretPathError(message: string, path: string)

  const INVALID_PATH_MESSAGE: string := "Invalid secret path: must start with 'op://'"
  const TEMPLATE_FILE_NAME: string := "template.tpl"

  /** An operation's outcome and the `op` command line it ran, absent when it ran none. */
  datatype OpRun = OpRun(command: Option<seq<string>>, result: Result<string, OpError>)

  /** `validateSecretPath`. */
  function ValidateSecretPath(path: string): (r: Result<string, OpError>)
    ensures r.Success? <==> StartsWith(path, "op://")
    ensures r.Success? ==> r.value == path
    ensures r.Failure? ==> r.error == InvalidSecretPathError(INVALID_PATH_MESSAGE, path)
  {
    if !StartsWith(path, "op://") then Failure(InvalidSecretPathError(INVALID_PATH_MESSAGE, path))
    else Success(path)
  }

  /** `readSecret`: validate, then `op read <path>`, then trim; `output` is what the
      command prints, absent when `op` cannot be run. */
  function ReadSecret(path: string, output: Option<string>): (r: OpRun)
    ensures r.command.Some? <==> StartsWith(path, "op://")
    ensures r.command.Some? ==> r.command.value == ["op", "read", path]
    ensures r.command.None? ==> r.result == Failure(InvalidSecretPathError(INVALID_PATH_MESSAGE, path))
    ensures r.command.Some? && output.None? ==>
      r.result == Failure(OpCliError("Failed to read secret from 1Password: " + path))
    ensures r.result.Success? ==> output.Some? && r.result.value == Trim(output.value) && IsTrimmed(r.result.value)
  {
    match ValidateSecretPath(path)
    case Failure(e) => OpRun(None, Failure(e))
    case Success(_) =>
      var command := ["op", "read", path];
      match output
      case None => OpRun(Some(command), Failure(OpCliError("Failed to read secret from 1Password: " + path)))
      case Some(text) =>
        TrimIsTrimmed(text);
        OpRun(Some(command), Success(Trim(text)))
  }

  /** `injectTemplateFile`: `op inject -i <template>`, whose output is returned as it is;
      `output` is absent when `op` cannot be run. */
  function InjectTemplateFile(templatePath: string, output: Option<string>): (r: OpRun)
    ensures r.command == Some(["op", "inject", "-i", templatePath])
    ensures output.Some? ==> r.result == Success(output.value)
    ensures output.None? ==> r.result == Failure(OpCliError("Failed to inject secrets from template: " + templatePath))
  {
    var command := ["op", "inject", "-i", templatePath];
    match output
    case None => OpRun(Some(command), Failure(OpCliError("Failed to inject secrets from template: " + templatePath)))
    case Some(text) => OpRun(Some(command), Success(text))
  }

  /** `injectTemplateContent`: a scoped temporary directory (`tmpDir`, absent when it
      cannot be made), the content written to `template.tpl` in it (`written` says
      whether that worked), then `op inject -i` on that file, output untrimmed; `output`
      is absent when `op` cannot be run. */
  function InjectTemplateContent(tmpDir: Option<string>, written: bool, output: Option<string>): (r: OpRun)
    ensures r.command.Some? <==> tmpDir.Some? && written
    ensures r.command.Some? ==> r.command.value == ["op", "inject", "-i", tmpDir.value + "/" + TEMPLATE_FILE_NAME]
    ensures tmpDir.None? ==> r.result == Failure(OpCliError("Failed to create temp directory"))
    ensures tmpDir.Some? && !written ==> r.result == Failure(OpCliError("Failed to write temp file"))
    ensures r.command.Some? ==> r.result == (if output.Some? then Success(output.value)
                                             else Failure(OpCliError("Failed to inject secrets from template")))
  {
    match tmpDir
    case None => OpRun(None, Failure(OpCliError("Failed to create temp directory")))
    case Some(dir) =>
      if !written then OpRun(None, Failure(OpCliError("Failed to write temp file")))
      else
        var command := ["op", "inject", "-i", dir + "/" + TEMPLATE_FILE_NAME];
        match output
        case None => OpRun(Some(command), Failure(OpCliError("Failed to inject secrets from template")))
        case Some(text) => OpRun(Some(command), Success(text))
  }

  /** Given the same command output, `readSecret` returns the trimmed text where the
      inject operations return it verbatim; their values differ exactly when the output
      has surrounding whitespace. */
  lemma ReadTrimsInjectDoesNot(path: string, templatePath: string, text: string)
    requires StartsWith(path, "op://")
    ensures ReadSecret(path, Some(text)).result == Success(Trim(text))
    ensures InjectTemplateFile(templatePath, Some(text)).result == Success(text)
    ensures ReadSecret(path, Some(text)).result == InjectTemplateFile(templatePath, Some(text)).result
        <==> IsTrimmed(text)
  {
    TrimFixpoint(text);
  }
}
