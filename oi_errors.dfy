/**
 * The tagged errors of the `oi` tool. Their `cause` fields carry foreign
 * values and are not modelled.
 */
module OiErrors {
  datatype OiError =
    | NotInGitRepoError(message: string)
    | NoStagedChangesError(message: string)
    | GitCommandError(command: string, message: string)
    | AiGenerationError(message: string)
    | EmptyCommitMessageError(message: string)
    | ReviewAbortedError(message: string)
    | PreCommitHookError(message: string)
}
