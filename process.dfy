/**
 * What a route sees of a subprocess or a file operation it starts: the
 * completed run, or the exception raised, and what the route shows the user
 * in return (a flashed message with its category).
 */
module Process {

  /**
   * The exceptions the routes tell apart. A `detail` or `reason` string is
   * str(e), the text the route puts into its messages.
   */
  datatype Failure =
    | CommandNotFound(detail: string)   // FileNotFoundError
    | PermissionDenied(detail: string)  // PermissionError
    | NonZeroExit(reason: string, stderr: string)
        // subprocess.CalledProcessError (check=True): str(e), which names the
        // command and its exit status, and the captured stderr
    | TimedOut                          // subprocess.TimeoutExpired
    | Unexpected(detail: string)        // any other Exception

  /** subprocess.run(...) seen from the caller: it completed with this stdout, or raised. */
  datatype Run = Completed(stdout: string) | Raised(failure: Failure)

  /** A flash(message, category) call. */
  datatype Flash = Flash(message: string, category: string)
}
