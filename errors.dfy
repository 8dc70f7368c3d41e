/**
 * The exceptions the orchestration code raises, one constructor per distinct
 * cause. Most are CriticalException with a message; the rest are the Python
 * exceptions the code lets escape.
 */
module Errors {

  datatype Error =
      /** A deployment whose type is not "docker". */
    | UnsupportedDeploymentType(kind: string)
      /** get_docker_client could not reach the engine. */
    | EngineUnreachable
      /** The build script exited with a non-zero code. */
    | BuildScriptFailed(code: int)
      /** The build stream carried an "error" entry. */
    | BuildFailed(explanation: string)
      /** An image path that is a regular file: NotImplementedError. */
    | ArchiveImportNotImplemented
      /** A derived image tag that the engine does not list. */
    | MissingImage(tag: string)
    | MissingNetwork(name: string)
    | MissingVolume(name: string)
    | MissingSolutionImage(tag: string)
      /** format_user_service: ValueError for a type nobody declares. */
    | UnknownServiceType(kind: string)
      /** UnboundLocalError: a local variable read before it is assigned. */
    | UnboundLocal(variable: string)
      /** TypeError: the configuration's absent deployment indexed as a mapping. */
    | NoDeployment
}
