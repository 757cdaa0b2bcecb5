/**
 * The /drive_auth route of app.py (app.py:505-541): on GET the
 * authorisation URL picked out of `rclone authorize drive` output, on POST
 * the hand-over of the pasted token to rclone, each with the messages and
 * notifications of every outcome.
 */
module DriveAuth {

  import opened Options
  import opened Text
  import opened Bus
  import opened Process

  /** os.getenv('RCLONE_REMOTE_NAME', 'gdrive'): a set but empty variable stays empty. */
  function RemoteName(env: map<string, string>): (r: string)
    ensures "RCLONE_REMOTE_NAME" in env ==> r == env["RCLONE_REMOTE_NAME"]
    ensures "RCLONE_REMOTE_NAME" !in env ==> r == "gdrive"
  {
    if "RCLONE_REMOTE_NAME" in env then env["RCLONE_REMOTE_NAME"] else "gdrive"
  }

  /** A line the route takes for the URL: it starts with "http" once stripped. */
  predicate IsUrlLine(line: string)
  {
    StartsWith(Strip(line), "http")
  }

  /** Index of the first URL line of `lines`, |lines| when there is none. */
  function FirstUrlLine(lines: seq<string>): (i: nat)
    ensures i <= |lines| && (i < |lines| ==> IsUrlLine(lines[i]))
    ensures forall j :: 0 <= j < i ==> !IsUrlLine(lines[j])
  {
    if lines == [] || IsUrlLine(lines[0]) then 0 else 1 + FirstUrlLine(lines[1..])
  }

  /**
   * The loop of app.py:533-534 over stdout.splitlines(), with its break: the
   * stripped form of the first line that starts with "http", or, when no
   * line does, the whole output with `extracted` false (app.py:535).
   */
  method ExtractAuthUrl(stdout: string) returns (url: string, extracted: bool)
    ensures extracted <==> FirstUrlLine(SplitLines(stdout)) < |SplitLines(stdout)|
    ensures extracted ==> url == Strip(SplitLines(stdout)[FirstUrlLine(SplitLines(stdout))]) && StartsWith(url, "http")
    ensures !extracted ==> url == stdout
  {
    var lines := SplitLines(stdout);
    url, extracted := "", false;
    var i := 0;
    while i < |lines|
      invariant 0 <= i <= |lines|
      invariant forall j :: 0 <= j < i ==> !IsUrlLine(lines[j])
    {
      if StartsWith(Strip(lines[i]), "http") {
        url, extracted := Strip(lines[i]), true;
        FirstUrlLineIs(lines, i);
        return;
      }
      i := i + 1;
    }
    FirstUrlLineIs(lines, i);
    url := stdout;
  }

  /** The first URL line is the one after the non-URL lines, found or not. */
  lemma {:induction false} FirstUrlLineIs(lines: seq<string>, i: nat)
    requires i <= |lines| && (i < |lines| ==> IsUrlLine(lines[i]))
    requires forall j :: 0 <= j < i ==> !IsUrlLine(lines[j])
    ensures FirstUrlLine(lines) == i
  {
    if i > 0 {
      FirstUrlLineIs(lines[1..], i - 1);
    }
  }

  /** What GET /drive_auth renders and flashes, and the notifications it publishes. */
  datatype AuthPage = AuthPage(authUrl: string, errorMessage: string, remote: string, flash: seq<Flash>, events: seq<Event>)

  /** The page for a run of `rclone authorize` that raised `f`. */
  function UrlFailurePage(remote: string, f: Failure): (p: AuthPage)
    ensures p.authUrl == "" && p.errorMessage != "" && p.remote == remote
    ensures p.flash == [Flash(p.errorMessage, "error")] && |p.events| == 1
  {
    match f
    case CommandNotFound(_) =>
      var m := "Error: 'rclone' command not found.";
      AuthPage("", m, remote, [Flash(m, "error")], [Note(m, "error")])
    case NonZeroExit(_, err) =>
      var m := "Error generating auth URL. Is rclone config ok for '" + remote + "'? Error: " + Prefix(err, 200) + "...";
      AuthPage("", m, remote, [Flash(m, "error")], [Note("Drive Auth URL Error: " + Prefix(err, 100) + "...", "error")])
    case TimedOut =>
      var m := "Rclone command timed out generating auth URL.";
      AuthPage("", m, remote, [Flash(m, "error")], [Note(m, "error")])
    case PermissionDenied(e) =>
      var m := "An unexpected error occurred: " + e;
      AuthPage("", m, remote, [Flash(m, "error")], [Note("Drive Auth URL Error: " + e, "error")])
    case Unexpected(e) =>
      var m := "An unexpected error occurred: " + e;
      AuthPage("", m, remote, [Flash(m, "error")], [Note("Drive Auth URL Error: " + e, "error")])
  }

  /**
   * GET /drive_auth. A completed run shows the extracted URL, or the raw
   * output with a warning, and publishes nothing; a failed run shows an
   * error message and publishes exactly one error notification.
   */
  method DriveAuthGet(env: map<string, string>, run: Run) returns (page: AuthPage)
    ensures page.remote == RemoteName(env)
    ensures run.Completed? ==>
              page.errorMessage == "" && page.events == [] &&
              (page.flash == [] <==> FirstUrlLine(SplitLines(run.stdout)) < |SplitLines(run.stdout)|)
    ensures run.Completed? && page.flash != [] ==>
              page.authUrl == run.stdout && page.flash == [Flash("Could not auto-extract URL, see text below.", "warning")]
    ensures run.Completed? && page.flash == [] ==>
              page.authUrl == Strip(SplitLines(run.stdout)[FirstUrlLine(SplitLines(run.stdout))]) &&
              StartsWith(page.authUrl, "http")
    ensures run.Raised? ==> page == UrlFailurePage(RemoteName(env), run.failure)
  {
    var remote := RemoteName(env);
    match run
    case Completed(out) =>
      var url, extracted := ExtractAuthUrl(out);
      var flash := if extracted then [] else [Flash("Could not auto-extract URL, see text below.", "warning")];
      page := AuthPage(url, "", remote, flash, []);
    case Raised(f) =>
      page := UrlFailurePage(remote, f);
  }

  /** What POST /drive_auth feeds rclone on stdin (None: rclone is not run), flashes and publishes. */
  datatype TokenResult = TokenResult(stdin: Option<string>, flash: Flash, events: seq<Event>)

  /**
   * POST /drive_auth with the pasted token. A missing or empty token runs
   * nothing and publishes nothing; otherwise rclone receives the token and a
   * newline, and every outcome publishes exactly one notification, a success
   * exactly when rclone completed.
   */
  function DriveAuthPost(env: map<string, string>, token: Option<string>, run: Run): (r: TokenResult)
    ensures Blank(token) ==> r == TokenResult(None, Flash("Please enter the authentication token from Google.", "error"), [])
    ensures !Blank(token) ==> r.stdin == Some(token.value + "\n") && |r.events| == 1
    ensures !Blank(token) ==> (r.flash.category == "success" <==> run.Completed?)
  {
    var remote := RemoteName(env);
    if Blank(token) then TokenResult(None, Flash("Please enter the authentication token from Google.", "error"), [])
    else
      var stdin := Some(token.value + "\n");
      match run
      case Completed(_) =>
        TokenResult(stdin, Flash("Google Drive token submitted for remote '" + remote + "'. Test upload.", "success"),
                    [Note("Google Drive token submitted for remote '" + remote + "'.", "success")])
      case Raised(CommandNotFound(_)) =>
        TokenResult(stdin, Flash("Error: 'rclone' command not found.", "error"), [Note("Drive Auth Error: rclone not found", "error")])
      case Raised(NonZeroExit(_, err)) =>
        TokenResult(stdin, Flash("Rclone auth failed. Check token/setup. Error: " + Prefix(err, 200) + "...", "error"),
                    [Note("GDrive auth failed: " + Prefix(err, 100) + "...", "error")])
      case Raised(TimedOut) =>
        TokenResult(stdin, Flash("Rclone cmd timed out during authorization.", "error"), [Note("GDrive auth timed out.", "error")])
      case Raised(PermissionDenied(e)) =>
        TokenResult(stdin, Flash("Unexpected error during authorization: " + e, "error"), [Note("Drive auth unexpected error: " + e, "error")])
      case Raised(Unexpected(e)) =>
        TokenResult(stdin, Flash("Unexpected error during authorization: " + e, "error"), [Note("Drive auth unexpected error: " + e, "error")])
  }
}
