/** The pure parts of `LaunchClaudeCliWindow`: the working directory a new
    terminal starts in, the process it asks for, and when a launch opens a new
    session. */
module Launcher {
  import opened Wrappers
  import opened Schedule

  /** `GetEffectiveWorkingDirectory`: the configured directory when it is set and
      still exists (`existing` stands for `Directory.Exists`), else the user's
      profile directory. */
  function GetEffectiveWorkingDirectory(configured: string, existing: set<string>, home: string): (dir: string)
    ensures configured != "" && configured in existing ==> dir == configured
    ensures configured == "" || configured !in existing ==> dir == home
    ensures dir == configured || dir == home
  {
    if configured == "" then home
    else if configured in existing then configured
    else home
  }

  /** A request to start a process with `Process.Start`. */
  datatype SpawnRequest = SpawnRequest(fileName: string, arguments: string, workingDirectory: string)

  /** The command shell the launcher starts, kept open (`/k`) after printing a
      banner and running the CLI command. */
  function LaunchRequest(command: string, dir: string): (req: SpawnRequest)
    ensures req.fileName == "cmd.exe" && req.workingDirectory == dir
    ensures |req.arguments| >= 3 && req.arguments[..3] == "/k "
    ensures |req.arguments| >= |command| && req.arguments[|req.arguments| - |command|..] == command
  {
    var switch, banner := "/k ", "echo Starting Claude CLI session... && echo. && ";
    assert (switch + banner + command)[..3] == switch;
    SpawnRequest("cmd.exe", switch + banner + command, dir)
  }

  /** A successful launch starts a new session when none is open: the start is
      unset, or the session that began there has run its full duration. */
  predicate StartsNewSession(now: Time, sessionStart: Option<Time>, duration: int) {
    sessionStart.None? || now >= sessionStart.value + duration
  }

  /** A session start after a successful launch: `now` for a new session, the old
      start otherwise. It never lies in the future when the old one did not, and a
      session still running keeps its start. */
  function SessionAfterLaunch(now: Time, sessionStart: Option<Time>, duration: int): (s: Option<Time>)
    ensures s.Some?
    ensures sessionStart.Some? && sessionStart.value <= now ==> s.value <= now
    ensures sessionStart.Some? && now < sessionStart.value + duration ==> s == sessionStart
    ensures s.value == now || s == sessionStart
    ensures StartsNewSession(now, sessionStart, duration) ==> s == Some(now)
  {
    if StartsNewSession(now, sessionStart, duration) then Some(now) else sessionStart
  }
}
