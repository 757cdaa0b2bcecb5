/**
 * The /run/<action> route of app.py (app.py:422-456): the table of actions,
 * the choice between a shell command, a script and a refusal, and the
 * notifications of every outcome.
 */
module Actions {

  import opened Options
  import opened Bus
  import opened Process

  /** os.path.join(dir, name) for a relative name. */
  function PathJoin(dir: string, name: string): (r: string)
    ensures dir == "" ==> r == name
    ensures dir != "" && dir[|dir| - 1] == '/' ==> r == dir + name
    ensures dir != "" && dir[|dir| - 1] != '/' ==> r == dir + "/" + name
  {
    if dir == "" then name
    else if dir[|dir| - 1] == '/' then dir + name
    else dir + "/" + name
  }

  /** The actions that power the machine off or restart it, run through the shell without any check. */
  predicate IsPowerAction(action: string)
  {
    action == "reboot" || action == "shutdown"
  }

  /** The `scripts` table of the route: a script in the project directory, or a shell command line. */
  function CommandFor(dir: string, action: string): Option<string>
  {
    if action == "upload" then Some(PathJoin(dir, "upload_and_cleanup.sh"))
    else if action == "offload" then Some(PathJoin(dir, "offload.sh"))
    else if action == "retry" then Some(PathJoin(dir, "retry_offload.sh"))
    else if action == "eject" then Some(PathJoin(dir, "safe_eject.sh"))
    else if action == "reboot" then Some("sudo /sbin/reboot")
    else if action == "shutdown" then Some("sudo /sbin/shutdown now")
    else None
  }

  /** What subprocess.Popen does when called: the process starts, or it raises PermissionError or another exception (with str(e)). */
  datatype Launch = Launched | Denied(detail: string) | Failed(detail: string)

  /** What the route starts: a command line through the shell, or a script run directly from the project directory. */
  datatype Started = Shell(line: string) | Script(path: string, cwd: string)

  datatype Target = ToIndex | ToTestEmail

  /** Where the route redirects, what it flashes, what it publishes, and the process it tried to start. */
  datatype Outcome = Outcome(target: Target, flash: seq<Flash>, events: seq<Event>, started: Option<Started>)

  /** The message of a Popen that raised. */
  function LaunchError(action: string, launch: Launch): string
  {
    if launch.Denied? then "Permission denied running " + action + ". Check sudoers/permissions."
    else if launch.Failed? then "Failed to run action '" + action + "': " + launch.detail
    else ""
  }

  /**
   * GET /run/<action>, with whether the script file is present and executable
   * and what Popen does. `started` is the process Popen was asked for,
   * whether or not it then raised.
   */
  function RunAction(dir: string, action: string, present: bool, executable: bool, launch: Launch): (o: Outcome)
    ensures action == "send_test_email" ==> o == Outcome(ToTestEmail, [], [], None)
    ensures action != "send_test_email" ==> o.target == ToIndex
    ensures o.started.Some? <==>
              action != "send_test_email" && CommandFor(dir, action).Some? && (IsPowerAction(action) || (present && executable))
    ensures o.started.Some? && IsPowerAction(action) ==> o.started == Some(Shell(CommandFor(dir, action).value))
    ensures o.started.Some? && !IsPowerAction(action) ==> o.started == Some(Script(CommandFor(dir, action).value, dir))
    ensures action != "send_test_email" ==> 1 <= |o.events| <= 2
  {
    if action == "send_test_email" then Outcome(ToTestEmail, [], [], None)
    else match CommandFor(dir, action)
    case None =>
      Outcome(ToIndex, [Flash("Unknown action: " + action, "error")], [Note("Attempted unknown action: " + action, "warning")], None)
    case Some(cmd) =>
      if IsPowerAction(action) then
        var notice := Note("Action '" + action + "' initiated by user.", "warning");
        match launch
        case Launched => Outcome(ToIndex, [], [notice], Some(Shell(cmd)))
        case _ =>
          var m := LaunchError(action, launch);
          Outcome(ToIndex, [Flash(m, "error")], [notice, Note(m, "error")], Some(Shell(cmd)))
      else if present && executable then
        match launch
        case Launched =>
          Outcome(ToIndex, [Flash("Action '" + action + "' started in background.", "success")],
                  [Note("Action '" + action + "' started by user.", "info")], Some(Script(cmd, dir)))
        case _ =>
          var m := LaunchError(action, launch);
          Outcome(ToIndex, [Flash(m, "error")], [Note(m, "error")], Some(Script(cmd, dir)))
      else
        var m := "Script for action '" + action + "' not found or not executable at " + cmd;
        Outcome(ToIndex, [Flash(m, "error")], [Note(m, "error")], None)
  }

  /** The only processes the route can start are the ones listed in its table. */
  lemma StartsOnlyListedCommands(dir: string, action: string, present: bool, executable: bool, launch: Launch)
    requires RunAction(dir, action, present, executable, launch).started.Some?
    ensures action in {"upload", "offload", "retry", "eject", "reboot", "shutdown"}
    ensures var s := RunAction(dir, action, present, executable, launch).started.value;
      s in {Script(PathJoin(dir, "upload_and_cleanup.sh"), dir), Script(PathJoin(dir, "offload.sh"), dir),
            Script(PathJoin(dir, "retry_offload.sh"), dir), Script(PathJoin(dir, "safe_eject.sh"), dir),
            Shell("sudo /sbin/reboot"), Shell("sudo /sbin/shutdown now")}
  {
  }

  /** A power action is announced as a warning before the shell is asked to run it, whatever Popen then does. */
  lemma PowerActionAnnouncedFirst(dir: string, action: string, present: bool, executable: bool, launch: Launch)
    requires IsPowerAction(action)
    ensures var o := RunAction(dir, action, present, executable, launch);
      o.events[0] == Note("Action '" + action + "' initiated by user.", "warning") &&
      (|o.events| == 2 <==> !launch.Launched?)
  {
  }

  /** The script outcomes: started and announced, refused before any launch, or failed at launch. */
  lemma ScriptOutcomes(dir: string, action: string, present: bool, executable: bool, launch: Launch)
    requires CommandFor(dir, action).Some? && !IsPowerAction(action) && action != "send_test_email"
    ensures var o := RunAction(dir, action, present, executable, launch);
      var cmd := CommandFor(dir, action).value;
      && (!(present && executable) ==>
            o.events == [Note("Script for action '" + action + "' not found or not executable at " + cmd, "error")])
      && (present && executable && launch.Launched? ==> o.events == [Note("Action '" + action + "' started by user.", "info")])
      && (present && executable && !launch.Launched? ==> o.events == [Note(LaunchError(action, launch), "error")])
  {
  }
}
