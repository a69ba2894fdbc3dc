/** The tray controller's scheduling and session-keeping state machine: one
    object whose fields are the source's controller fields, the three files it
    persists to, and logs of the processes it asked to start and the keystrokes
    it dispatched. Win32, the clock, the file system and `Process.Start` are
    inputs: `now`, the window enumerations, whether a spawn succeeds, and which
    directories exist. */
module Tray {
  import opened Wrappers
  import opened Text
  import opened Schedule
  import opened ResetParser
  import opened WindowLocator
  import opened Launcher
  import opened Persistence

  /** The files present when the controller starts. */
  datatype Disk = Disk(session: FileState, lastSent: FileState, config: FileState)

  /** What the operating system will report during one send cycle: the window
      enumeration of the first attempt, whether launching a terminal succeeds,
      the enumeration of the retry, the enumeration that counts windows for the
      success message, the existing directories and the profile directory. */
  datatype World = World(firstScan: seq<Window>, spawnOk: bool, secondScan: seq<Window>,
                         recount: seq<Window>, existingDirs: set<string>, homeDir: string)

  /** The instant `ScheduleNextSend` picks: a reset time found in the response,
      otherwise one session duration from now. */
  function NextSendTime(now: Time, response: string, matches: seq<Option<seq<string>>>, duration: int): (t: Time)
    ensures duration > 0 ==> t > now
    ensures SessionReset(response, matches, now).None? ==> t == now + duration
    ensures SessionReset(response, matches, now).Some? ==> t == SessionReset(response, matches, now).value
    ensures t <= now + Max(duration, SecondsPerDay)
  {
    match SessionReset(response, matches, now)
    case Some(reset) => assert reset == FirstMatch(matches, now).value; FirstMatchBound(matches, now); reset
    case None => now + duration
  }

  lemma {:induction false} FirstMatchBound(matches: seq<Option<seq<string>>>, now: Time)
    ensures FirstMatch(matches, now).Some? ==> now < FirstMatch(matches, now).value <= now + SecondsPerDay
  {
    if matches != [] && matches[0].None? {
      FirstMatchBound(matches[1..], now);
    }
  }

  /** The send cycle launches a terminal exactly when the first attempt reached
      no window and a command is configured. */
  predicate LaunchesIn(w: World, command: string) {
    !Delivered(w.firstScan) && command != ""
  }

  /** The cycle's outcome: the retry's when it launched, else the first attempt's. */
  predicate CycleSucceeds(w: World, command: string) {
    if LaunchesIn(w, command) then Delivered(w.secondScan) else Delivered(w.firstScan)
  }

  /** The outcome texts the controller shows and persists as its last response. */
  datatype Report =
    | Launched                 // a terminal was started
    | Launching                // no window: a terminal is about to be started
    | LaunchedAndSent          // the retry after a launch reached a window
    | LaunchedNotSent          // the retry after a launch reached none
    | NotConfigured            // no window and no command to launch
    | NoWindows                // no window although a command is configured
    | Sent(count: nat)         // the first attempt reached `count` windows

  function ReportText(r: Report, message: string, now: Time): (s: string)
  {
    var at := ClockText(now);
    match r
    case Launched => "Claude CLI window launched at " + at
    case Launching => "No Claude CLI windows found. Launching new CLI window at " + at
    case LaunchedAndSent => "New CLI launched and message '" + message + "' sent at " + at
    case LaunchedNotSent => "New CLI launched but failed to send message '" + message + "' at " + at
    case NotConfigured => "No Claude CLI configured and no windows found at " + at
    case NoWindows => "No Claude CLI windows found to send message to at " + at
    case Sent(n) => "Message '" + message + "' sent to " + IntToString(n) + " CLI window(s) at " + at
  }

  /** The controller's last response: text read back from the session file, or an
      outcome report of its own. */
  datatype Response = Restored(text: string) | Reported(report: Report, message: string, at: Time)

  function ResponseText(r: Response): string {
    match r
    case Restored(t) => t
    case Reported(k, m, at) => ReportText(k, m, at)
  }

  /** The report a send cycle ends with, given what the system reports. The
      "no windows although a command is configured" report is never produced:
      the branch that would pick it is reached only with an empty command. */
  function CycleReport(w: World, command: string): (r: Report)
    ensures r.Sent? <==> Delivered(w.firstScan)
    ensures r.Sent? ==> r.count == |Qualifying(w.recount)|
    ensures r == LaunchedAndSent <==> LaunchesIn(w, command) && Delivered(w.secondScan)
    ensures r == LaunchedNotSent <==> LaunchesIn(w, command) && !Delivered(w.secondScan)
    ensures r == NotConfigured <==> !Delivered(w.firstScan) && command == ""
    ensures !r.NoWindows? && !r.Launched? && !r.Launching?
    ensures CycleSucceeds(w, command) <==> r.Sent? || r == LaunchedAndSent
  {
    if Delivered(w.firstScan) then Sent(|Qualifying(w.recount)|)
    else if command != "" then (if Delivered(w.secondScan) then LaunchedAndSent else LaunchedNotSent)
    else if command == "" then NotConfigured
    else NoWindows
  }

  /** The session start after a send cycle: opened at `now` when unset, then moved
      by a successful launch. */
  function StartAfterCycle(now: Time, w: World, command: string, start: Option<Time>, duration: int): (s: Option<Time>)
    ensures s.Some? && (s.value == now || s == start)
    ensures start.None? ==> s == Some(now)
    ensures start.Some? && !(LaunchesIn(w, command) && w.spawnOk) ==> s == start
    ensures start.Some? && start.value <= now ==> s.value <= now
    ensures start.Some? && LaunchesIn(w, command) && w.spawnOk ==>
      s == (if now >= start.value + duration then Some(now) else start)
  {
    var begun := if start.None? then Some(now) else start;
    if LaunchesIn(w, command) && w.spawnOk then SessionAfterLaunch(now, begun, duration) else begun
  }

  class TrayController {
    var sessionDuration: int
    var lastSentTime: Option<Time>
    var currentSessionStartTime: Option<Time>
    var nextScheduledSend: Option<Time>
    var lastResponse: Response
    var lastCommandSuccessful: bool
    var cliCommand: string
    var workingDirectory: string
    var autoLaunchOnStartup: bool
    var messageToSend: string
    /** The deadline of the one timer object, if one exists. */
    var commandTimer: Option<Time>
    var sessionFile: FileState
    var lastSentFile: FileState
    var configFile: FileState
    /** Every `Process.Start` request made, in order. */
    var spawned: seq<SpawnRequest>
    /** Every injection dispatched to a window, in order. */
    var typed: seq<Injection>
    /** Timer objects created and not yet disposed. */
    ghost var liveTimers: nat

    /** At most one timer exists, and it is the one `commandTimer` names. */
    ghost predicate Valid()
      reads this`commandTimer, this`liveTimers
    {
      liveTimers == (if commandTimer.Some? then 1 else 0)
    }

    /** The five fields the session file holds. */
    function Session(): SessionRecord
      reads this`currentSessionStartTime, this`lastResponse, this`lastCommandSuccessful,
            this`nextScheduledSend, this`sessionDuration
    {
      SessionRecord(currentSessionStartTime, ResponseText(lastResponse), lastCommandSuccessful, nextScheduledSend, sessionDuration)
    }

    /** The four settings the configuration file holds. */
    function Config(): CliConfig
      reads this`cliCommand, this`workingDirectory, this`autoLaunchOnStartup, this`messageToSend
    {
      CliConfig(cliCommand, workingDirectory, autoLaunchOnStartup, messageToSend)
    }

    /** The controller's constructor: field defaults, then the three loads, the
        initial timer, and the optional launch when no terminal is open. */
    constructor (disk: Disk, now: Time, scan: seq<Window>, spawnOk: bool, existingDirs: set<string>, homeDir: string)
      ensures Valid()
      ensures Config() == LoadConfigFile(DefaultConfig, disk.config)
      ensures configFile == disk.config && typed == []
      ensures var ses := LoadSessionFile(DefaultSession, disk.session);
        var sent := LoadLastSentFile(None, disk.lastSent);
        var launch := Config().autoLaunch && Config().command != "" && Qualifying(scan) == [];
        && commandTimer == Some(now + InitialDelay(now, ses.next, sent, ses.start, ses.duration))
        && spawned == (if launch then [LaunchRequest(cliCommand, GetEffectiveWorkingDirectory(workingDirectory, existingDirs, homeDir))] else [])
        && (!(launch && spawnOk) ==>
              && currentSessionStartTime == ses.start && lastResponse == Restored(ses.response)
              && lastCommandSuccessful == ses.success && nextScheduledSend == ses.next && sessionDuration == ses.duration
              && lastSentTime == sent && sessionFile == disk.session && lastSentFile == disk.lastSent)
        && (launch && spawnOk ==>
              && lastSentTime == Some(now) && lastCommandSuccessful
              && currentSessionStartTime == SessionAfterLaunch(now, ses.start, ses.duration)
              && nextScheduledSend == ses.next && sessionDuration == ses.duration
              && lastResponse == Reported(Launched, messageToSend, now)
              && lastSentFile == SaveLastSentFile(Some(now))
              && sessionFile == (if StartsNewSession(now, ses.start, ses.duration)
                                 then SaveSessionFile(ses.(start := Some(now))) else disk.session))
    {
      // The three loads and the first timer, applied to the field defaults.
      var config := LoadConfigFile(DefaultConfig, disk.config);
      var sent := LoadLastSentFile(None, disk.lastSent);
      var ses := LoadSessionFile(DefaultSession, disk.session);
      cliCommand, workingDirectory := config.command, config.workingDirectory;
      autoLaunchOnStartup, messageToSend := config.autoLaunch, config.message;
      lastSentTime := sent;
      currentSessionStartTime, lastResponse, lastCommandSuccessful := ses.start, Restored(ses.response), ses.success;
      nextScheduledSend, sessionDuration := ses.next, ses.duration;
      commandTimer := Some(now + InitialDelay(now, ses.next, sent, ses.start, ses.duration));
      liveTimers := 1;
      sessionFile, lastSentFile, configFile := disk.session, disk.lastSent, disk.config;
      spawned, typed := [], [];
      new;
      assert Config() == config;
      AutoLaunch(now, scan, spawnOk, existingDirs, homeDir);
    }

    /** The constructor's last step: launch a terminal when asked to and none is open. */
    method AutoLaunch(now: Time, scan: seq<Window>, spawnOk: bool, existingDirs: set<string>, homeDir: string)
      modifies this`spawned, this`currentSessionStartTime, this`sessionFile, this`lastSentTime,
               this`lastResponse, this`lastCommandSuccessful, this`lastSentFile
      ensures var launch := autoLaunchOnStartup && cliCommand != "" && Qualifying(scan) == [];
        && spawned == (if launch then old(spawned) + [LaunchRequest(cliCommand, GetEffectiveWorkingDirectory(workingDirectory, existingDirs, homeDir))] else old(spawned))
        && (!(launch && spawnOk) ==>
              && currentSessionStartTime == old(currentSessionStartTime) && lastResponse == old(lastResponse)
              && lastCommandSuccessful == old(lastCommandSuccessful) && lastSentTime == old(lastSentTime)
              && sessionFile == old(sessionFile) && lastSentFile == old(lastSentFile))
        && (launch && spawnOk ==>
              && lastSentTime == Some(now) && lastCommandSuccessful
              && currentSessionStartTime == SessionAfterLaunch(now, old(currentSessionStartTime), sessionDuration)
              && lastResponse == Reported(Launched, messageToSend, now)
              && lastSentFile == SaveLastSentFile(Some(now))
              && sessionFile == (if StartsNewSession(now, old(currentSessionStartTime), sessionDuration)
                                 then SaveSessionFile(SessionRecord(Some(now), ResponseText(old(lastResponse)),
                                        old(lastCommandSuccessful), nextScheduledSend, sessionDuration))
                                 else old(sessionFile)))
      ensures commandTimer == old(commandTimer) && nextScheduledSend == old(nextScheduledSend)
      ensures sessionDuration == old(sessionDuration) && Config() == old(Config())
      ensures configFile == old(configFile) && typed == old(typed)
    {
      if autoLaunchOnStartup && cliCommand != "" {
        var existing := FindClaudeCliWindows(scan);
        if |existing| == 0 {
          LaunchClaudeCliWindow(now, spawnOk, existingDirs, homeDir);
        }
      }
    }

    // ---- persistence ----

    method LoadCliConfiguration()
      modifies this`cliCommand, this`workingDirectory, this`autoLaunchOnStartup, this`messageToSend
      ensures Config() == LoadConfigFile(old(Config()), configFile)
    {
      var c := LoadConfigFile(Config(), configFile);
      cliCommand, workingDirectory, autoLaunchOnStartup, messageToSend := c.command, c.workingDirectory, c.autoLaunch, c.message;
    }

    method SaveCliConfiguration()
      modifies this`configFile
      ensures configFile == SaveConfigFile(Config())
    {
      configFile := SaveConfigFile(Config());
    }

    method LoadLastSentTime()
      modifies this`lastSentTime
      ensures lastSentTime == LoadLastSentFile(old(lastSentTime), lastSentFile)
    {
      lastSentTime := LoadLastSentFile(lastSentTime, lastSentFile);
    }

    method SaveLastSentTime()
      modifies this`lastSentFile
      ensures lastSentFile == SaveLastSentFile(lastSentTime)
    {
      lastSentFile := SaveLastSentFile(lastSentTime);
    }

    method LoadSessionData()
      modifies this`currentSessionStartTime, this`lastResponse, this`lastCommandSuccessful,
               this`nextScheduledSend, this`sessionDuration
      ensures Session() == LoadSessionFile(old(Session()), sessionFile)
    {
      var r := LoadSessionFile(Session(), sessionFile);
      currentSessionStartTime, lastResponse, lastCommandSuccessful := r.start, Restored(r.response), r.success;
      nextScheduledSend, sessionDuration := r.next, r.duration;
    }

    method SaveSessionData()
      modifies this`sessionFile
      ensures sessionFile == SaveSessionFile(Session())
    {
      sessionFile := SaveSessionFile(Session());
    }

    // ---- the timer ----

    /** `_commandTimer?.Dispose()`. */
    method DisposeTimer()
      requires Valid()
      modifies this`commandTimer, this`liveTimers
      ensures Valid() && commandTimer.None?
    {
      commandTimer := None;
      liveTimers := 0;
    }

    /** Creating a one-shot timer; only allowed once the previous one is gone. */
    method ArmTimer(deadline: Time)
      requires Valid() && commandTimer.None?
      modifies this`commandTimer, this`liveTimers
      ensures Valid() && commandTimer == Some(deadline)
    {
      commandTimer := Some(deadline);
      liveTimers := liveTimers + 1;
    }

    /** `StartTimer`: arms the first timer with `CalculateNextSendTime`'s delay. */
    method StartTimer(now: Time)
      requires Valid() && commandTimer.None?
      modifies this`commandTimer, this`liveTimers
      ensures Valid()
      ensures commandTimer == Some(now + InitialDelay(now, nextScheduledSend, lastSentTime, currentSessionStartTime, sessionDuration))
      ensures commandTimer.value >= now
    {
      var dueTime := InitialDelay(now, nextScheduledSend, lastSentTime, currentSessionStartTime, sessionDuration);
      ArmTimer(now + dueTime);
    }

    /** `RestartTimer`: disposes the current timer and starts a fresh one. */
    method RestartTimer(now: Time)
      requires Valid()
      modifies this`commandTimer, this`liveTimers
      ensures Valid()
      ensures commandTimer == Some(now + InitialDelay(now, nextScheduledSend, lastSentTime, currentSessionStartTime, sessionDuration))
    {
      DisposeTimer();
      StartTimer(now);
    }

    /** `ScheduleNextSend`: records the next send instant, saves the session and
        replaces the timer when that instant lies ahead; otherwise the old timer
        stays as it is. */
    method ScheduleNextSend(now: Time, response: string, matches: seq<Option<seq<string>>>)
      requires Valid()
      modifies this`nextScheduledSend, this`sessionFile, this`commandTimer, this`liveTimers
      ensures Valid()
      ensures nextScheduledSend == Some(NextSendTime(now, response, matches, sessionDuration))
      ensures sessionFile == SaveSessionFile(Session())
      ensures commandTimer == if nextScheduledSend.value > now then nextScheduledSend else old(commandTimer)
    {
      var scheduled: Option<Time> := None;
      if response != "" {
        scheduled := ParseClaudeSessionReset(response, matches, now);
      }
      var t := if scheduled.None? then now + sessionDuration else scheduled.value;
      nextScheduledSend := Some(t);
      SaveSessionData();
      var delay := t - now;
      if delay > 0 {
        DisposeTimer();
        ArmTimer(t);
      }
    }

    // ---- launching ----

    /** `LaunchClaudeCliWindow`: with no command nothing happens. Otherwise a
        command shell is requested in the effective working directory; when it
        starts, a new session begins if none is open, and the launch counts as a
        successful send. A failed start changes nothing else. */
    method LaunchClaudeCliWindow(now: Time, spawnOk: bool, existingDirs: set<string>, homeDir: string)
      modifies this`spawned, this`currentSessionStartTime, this`sessionFile, this`lastSentTime,
               this`lastResponse, this`lastCommandSuccessful, this`lastSentFile
      ensures cliCommand == "" ==> spawned == old(spawned)
      ensures cliCommand != "" ==>
        spawned == old(spawned) + [LaunchRequest(cliCommand, GetEffectiveWorkingDirectory(workingDirectory, existingDirs, homeDir))]
      ensures !(cliCommand != "" && spawnOk) ==>
        && currentSessionStartTime == old(currentSessionStartTime) && sessionFile == old(sessionFile)
        && lastSentTime == old(lastSentTime) && lastResponse == old(lastResponse)
        && lastCommandSuccessful == old(lastCommandSuccessful) && lastSentFile == old(lastSentFile)
      ensures cliCommand != "" && spawnOk ==>
        && currentSessionStartTime == SessionAfterLaunch(now, old(currentSessionStartTime), sessionDuration)
        && sessionFile == (if StartsNewSession(now, old(currentSessionStartTime), sessionDuration)
                           then SaveSessionFile(SessionRecord(Some(now), ResponseText(old(lastResponse)), old(lastCommandSuccessful), nextScheduledSend, sessionDuration)) else old(sessionFile))
        && lastSentTime == Some(now)
        && lastResponse == Reported(Launched, messageToSend, now)
        && lastCommandSuccessful
        && lastSentFile == SaveLastSentFile(Some(now))
      ensures typed == old(typed)
    {
      if cliCommand == "" {
        return;
      }
      var dir := GetEffectiveWorkingDirectory(workingDirectory, existingDirs, homeDir);
      RequestSpawn(dir);
      if spawnOk {
        RecordLaunch(now);
      }
    }

    /** `Process.Start` of the command shell in `dir`. */
    method RequestSpawn(dir: string)
      modifies this`spawned
      ensures spawned == old(spawned) + [LaunchRequest(cliCommand, dir)]
    {
      spawned := spawned + [LaunchRequest(cliCommand, dir)];
    }

    /** What a started terminal records: a new session if none is open, and the
        launch as the latest successful send. */
    method RecordLaunch(now: Time)
      modifies this`currentSessionStartTime, this`sessionFile, this`lastSentTime,
               this`lastResponse, this`lastCommandSuccessful, this`lastSentFile
      ensures currentSessionStartTime == SessionAfterLaunch(now, old(currentSessionStartTime), sessionDuration)
      ensures sessionFile == (if StartsNewSession(now, old(currentSessionStartTime), sessionDuration)
                              then SaveSessionFile(SessionRecord(Some(now), ResponseText(old(lastResponse)), old(lastCommandSuccessful), nextScheduledSend, sessionDuration)) else old(sessionFile))
      ensures lastSentTime == Some(now)
      ensures lastResponse == Reported(Launched, messageToSend, now)
      ensures lastCommandSuccessful
      ensures lastSentFile == SaveLastSentFile(Some(now))
    {
      if StartsNewSession(now, currentSessionStartTime, sessionDuration) {
        currentSessionStartTime := Some(now);
        SaveSessionData();
      }
      lastSentTime := Some(now);
      lastResponse := Reported(Launched, messageToSend, now);
      lastCommandSuccessful := true;
      SaveLastSentTime();
    }

    // ---- the send cycle ----

    /** `SendHiCommand`, the timer's callback: opens a session if none is set,
        sends to the discovered windows, launches once and retries once when that
        reached no window and a command is configured, records the outcome, saves
        both files and schedules the next send one duration from now. */
    method SendHiCommand(now: Time, w: World)
      requires Valid()
      modifies this`currentSessionStartTime, this`typed, this`lastResponse, this`spawned,
               this`sessionFile, this`lastSentTime, this`lastCommandSuccessful, this`lastSentFile,
               this`nextScheduledSend, this`commandTimer, this`liveTimers
      ensures Valid()
      ensures lastCommandSuccessful == CycleSucceeds(w, old(cliCommand))
      ensures lastResponse == Reported(CycleReport(w, old(cliCommand)), old(messageToSend), now)
      ensures spawned == if LaunchesIn(w, old(cliCommand))
        then old(spawned) + [LaunchRequest(old(cliCommand), GetEffectiveWorkingDirectory(old(workingDirectory), w.existingDirs, w.homeDir))]
        else old(spawned)
      ensures typed == if LaunchesIn(w, old(cliCommand))
        then old(typed) + InjectionsInto(Qualifying(w.firstScan), old(messageToSend)) + InjectionsInto(Qualifying(w.secondScan), old(messageToSend))
        else old(typed) + InjectionsInto(Qualifying(w.firstScan), old(messageToSend))
      ensures currentSessionStartTime == StartAfterCycle(now, w, old(cliCommand), old(currentSessionStartTime), old(sessionDuration))
      ensures lastSentTime == Some(now) && lastSentFile == SaveLastSentFile(Some(now))
      ensures nextScheduledSend == Some(now + sessionDuration)
      ensures commandTimer == if sessionDuration > 0 then nextScheduledSend else old(commandTimer)
      ensures sessionFile == SaveSessionFile(Session())
    {
      var success := Attempt(now, w);
      Finish(now, success);
    }

    /** The sending part of `SendHiCommand`: open a session if none is set, the
        first attempt, the launch and retry when it reached nothing, and the
        report that describes the result. */
    method Attempt(now: Time, w: World) returns (success: bool)
      modifies this`typed, this`lastResponse, this`spawned, this`currentSessionStartTime,
               this`sessionFile, this`lastSentTime, this`lastCommandSuccessful, this`lastSentFile
      ensures success == CycleSucceeds(w, old(cliCommand))
      ensures lastResponse == Reported(CycleReport(w, old(cliCommand)), old(messageToSend), now)
      ensures spawned == if LaunchesIn(w, old(cliCommand))
        then old(spawned) + [LaunchRequest(old(cliCommand), GetEffectiveWorkingDirectory(old(workingDirectory), w.existingDirs, w.homeDir))]
        else old(spawned)
      ensures typed == if LaunchesIn(w, old(cliCommand))
        then old(typed) + InjectionsInto(Qualifying(w.firstScan), old(messageToSend)) + InjectionsInto(Qualifying(w.secondScan), old(messageToSend))
        else old(typed) + InjectionsInto(Qualifying(w.firstScan), old(messageToSend))
      ensures currentSessionStartTime == StartAfterCycle(now, w, old(cliCommand), old(currentSessionStartTime), old(sessionDuration))
      ensures var begun := if old(currentSessionStartTime).None? then Some(now) else old(currentSessionStartTime);
        LaunchesIn(w, old(cliCommand)) && w.spawnOk ==>
        && lastSentTime == Some(now) && lastCommandSuccessful && lastSentFile == SaveLastSentFile(Some(now))
        && sessionFile == (if StartsNewSession(now, begun, sessionDuration)
                           then SaveSessionFile(SessionRecord(Some(now), ResponseText(Reported(Launching, old(messageToSend), now)),
                                  old(lastCommandSuccessful), nextScheduledSend, sessionDuration))
                           else old(sessionFile))
      ensures !(LaunchesIn(w, old(cliCommand)) && w.spawnOk) ==>
        && lastSentTime == old(lastSentTime) && lastCommandSuccessful == old(lastCommandSuccessful)
        && sessionFile == old(sessionFile) && lastSentFile == old(lastSentFile)
    {
      if currentSessionStartTime.None? {
        currentSessionStartTime := Some(now);
      }
      success := Deliver(now, w);
    }

    /** The first attempt, and the launch and retry when it reached nothing. */
    method Deliver(now: Time, w: World) returns (success: bool)
      modifies this`typed, this`lastResponse, this`spawned, this`currentSessionStartTime,
               this`sessionFile, this`lastSentTime, this`lastCommandSuccessful, this`lastSentFile
      ensures success == CycleSucceeds(w, cliCommand)
      ensures lastResponse == Reported(CycleReport(w, cliCommand), messageToSend, now)
      ensures spawned == if LaunchesIn(w, cliCommand)
        then old(spawned) + [LaunchRequest(cliCommand, GetEffectiveWorkingDirectory(workingDirectory, w.existingDirs, w.homeDir))]
        else old(spawned)
      ensures typed == if LaunchesIn(w, cliCommand)
        then old(typed) + InjectionsInto(Qualifying(w.firstScan), messageToSend) + InjectionsInto(Qualifying(w.secondScan), messageToSend)
        else old(typed) + InjectionsInto(Qualifying(w.firstScan), messageToSend)
      ensures currentSessionStartTime ==
        if LaunchesIn(w, cliCommand) && w.spawnOk
        then SessionAfterLaunch(now, old(currentSessionStartTime), sessionDuration)
        else old(currentSessionStartTime)
      ensures LaunchesIn(w, cliCommand) && w.spawnOk ==>
        && lastSentTime == Some(now) && lastCommandSuccessful && lastSentFile == SaveLastSentFile(Some(now))
        && sessionFile == (if StartsNewSession(now, old(currentSessionStartTime), sessionDuration)
                           then SaveSessionFile(SessionRecord(Some(now), ResponseText(Reported(Launching, messageToSend, now)),
                                  old(lastCommandSuccessful), nextScheduledSend, sessionDuration))
                           else old(sessionFile))
      ensures !(LaunchesIn(w, cliCommand) && w.spawnOk) ==>
        && lastSentTime == old(lastSentTime) && lastCommandSuccessful == old(lastCommandSuccessful)
        && sessionFile == old(sessionFile) && lastSentFile == old(lastSentFile)
    {
      success := Dispatch(w.firstScan);
      if !success && cliCommand != "" {
        success := RecoverByLaunch(now, w);
      } else if !success {
        lastResponse := Reported(if cliCommand == "" then NotConfigured else NoWindows, messageToSend, now);
      } else {
        var windows := FindClaudeCliWindows(w.recount);
        lastResponse := Reported(Sent(|windows|), messageToSend, now);
      }
    }

    /** One `SendMessageToManualWindows` call against `scan`, logging what it typed. */
    method Dispatch(scan: seq<Window>) returns (success: bool)
      modifies this`typed
      ensures success == Delivered(scan)
      ensures typed == old(typed) + InjectionsInto(Qualifying(scan), messageToSend)
    {
      var sent;
      success, sent := SendMessageToManualWindows(scan, messageToSend);
      typed := typed + sent;
    }

    /** The recovery path of `SendHiCommand`: launch a terminal and try once more. */
    method RecoverByLaunch(now: Time, w: World) returns (success: bool)
      requires cliCommand != ""
      modifies this`lastResponse, this`spawned, this`currentSessionStartTime, this`sessionFile,
               this`lastSentTime, this`lastCommandSuccessful, this`lastSentFile, this`typed
      ensures success == Delivered(w.secondScan)
      ensures lastResponse == Reported(if success then LaunchedAndSent else LaunchedNotSent, messageToSend, now)
      ensures spawned == old(spawned) + [LaunchRequest(cliCommand, GetEffectiveWorkingDirectory(workingDirectory, w.existingDirs, w.homeDir))]
      ensures typed == old(typed) + InjectionsInto(Qualifying(w.secondScan), messageToSend)
      ensures currentSessionStartTime ==
        if w.spawnOk then SessionAfterLaunch(now, old(currentSessionStartTime), sessionDuration) else old(currentSessionStartTime)
      ensures w.spawnOk ==>
        && lastSentTime == Some(now) && lastCommandSuccessful && lastSentFile == SaveLastSentFile(Some(now))
        && sessionFile == (if StartsNewSession(now, old(currentSessionStartTime), sessionDuration)
                           then SaveSessionFile(SessionRecord(Some(now), ResponseText(Reported(Launching, messageToSend, now)),
                                  old(lastCommandSuccessful), nextScheduledSend, sessionDuration))
                           else old(sessionFile))
      ensures !w.spawnOk ==>
        && lastSentTime == old(lastSentTime) && lastCommandSuccessful == old(lastCommandSuccessful)
        && sessionFile == old(sessionFile) && lastSentFile == old(lastSentFile)
    {
      LaunchAfterMiss(now, w);
      success := Dispatch(w.secondScan);
      lastResponse := Reported(if success then LaunchedAndSent else LaunchedNotSent, messageToSend, now);
    }

    /** The first half of the recovery: announce the launch, then launch. */
    method LaunchAfterMiss(now: Time, w: World)
      requires cliCommand != ""
      modifies this`lastResponse, this`spawned, this`currentSessionStartTime, this`sessionFile,
               this`lastSentTime, this`lastCommandSuccessful, this`lastSentFile
      ensures spawned == old(spawned) + [LaunchRequest(cliCommand, GetEffectiveWorkingDirectory(workingDirectory, w.existingDirs, w.homeDir))]
      ensures currentSessionStartTime ==
        if w.spawnOk then SessionAfterLaunch(now, old(currentSessionStartTime), sessionDuration) else old(currentSessionStartTime)
      ensures w.spawnOk ==>
        && lastSentTime == Some(now) && lastCommandSuccessful && lastSentFile == SaveLastSentFile(Some(now))
        && sessionFile == (if StartsNewSession(now, old(currentSessionStartTime), sessionDuration)
                           then SaveSessionFile(SessionRecord(Some(now), ResponseText(Reported(Launching, messageToSend, now)),
                                  old(lastCommandSuccessful), nextScheduledSend, sessionDuration))
                           else old(sessionFile))
      ensures !w.spawnOk ==>
        && lastSentTime == old(lastSentTime) && lastCommandSuccessful == old(lastCommandSuccessful)
        && sessionFile == old(sessionFile) && lastSentFile == old(lastSentFile)
      ensures typed == old(typed)
      ensures w.spawnOk ==> lastResponse == Reported(Launched, messageToSend, now)
      ensures !w.spawnOk ==> lastResponse == Reported(Launching, messageToSend, now)
    {
      lastResponse := Reported(Launching, messageToSend, now);
      LaunchClaudeCliWindow(now, w.spawnOk, w.existingDirs, w.homeDir);
    }

    /** The bookkeeping that closes every send cycle: record the outcome, save
        both files, and schedule the next send one session from now. */
    method Finish(now: Time, success: bool)
      requires Valid()
      modifies this`lastCommandSuccessful, this`lastSentTime, this`lastSentFile, this`sessionFile,
               this`nextScheduledSend, this`commandTimer, this`liveTimers
      ensures Valid()
      ensures lastCommandSuccessful == success
      ensures lastSentTime == Some(now) && lastSentFile == SaveLastSentFile(Some(now))
      ensures nextScheduledSend == Some(now + sessionDuration)
      ensures commandTimer == if sessionDuration > 0 then nextScheduledSend else old(commandTimer)
      ensures sessionFile == SaveSessionFile(Session())
      ensures spawned == old(spawned) && typed == old(typed) && lastResponse == old(lastResponse)
      ensures currentSessionStartTime == old(currentSessionStartTime)
    {
      RecordOutcome(now, success);
      ScheduleNextSend(now, "", []);
    }

    method RecordOutcome(now: Time, success: bool)
      modifies this`lastCommandSuccessful, this`lastSentTime, this`lastSentFile, this`sessionFile
      ensures lastCommandSuccessful == success && lastSentTime == Some(now)
      ensures lastSentFile == SaveLastSentFile(Some(now))
      ensures sessionFile == SaveSessionFile(Session())
    {
      lastCommandSuccessful := success;
      lastSentTime := Some(now);
      SaveLastSentTime();
      SaveSessionData();
    }
  }

  /** A first start with only a command configured: the command is read back,
      nothing is launched, and the first timer fires at once. */
  method FirstStart(now: Time, command: string, homeDir: string) returns (c: TrayController)
    requires command != "" && StoresAsLine(command)
    ensures c.Valid() && c.cliCommand == command && c.workingDirectory == ""
    ensures c.spawned == [] && c.currentSessionStartTime.None? && c.sessionDuration == DefaultSessionDuration
    ensures c.commandTimer == Some(now)
  {
    var file := Present(command + "\r\n");
    ReadOneLine(command);
    c := new TrayController(Disk(Missing, Missing, file), now, [], false, {}, homeDir);
  }

  /** The first cycle after such a start, with no terminal open: one terminal
      is launched in the home folder, the session starts now, and the next
      send is a default session later. */
  method FirstCycle(c: TrayController, now: Time, w: World)
    requires c.Valid() && c.cliCommand != "" && c.workingDirectory == ""
    requires c.spawned == [] && c.currentSessionStartTime.None? && c.sessionDuration == DefaultSessionDuration
    requires Qualifying(w.firstScan) == [] && w.existingDirs == {}
    modifies c`currentSessionStartTime, c`typed, c`lastResponse, c`spawned,
             c`sessionFile, c`lastSentTime, c`lastCommandSuccessful, c`lastSentFile,
             c`nextScheduledSend, c`commandTimer, c`liveTimers
    ensures c.spawned == [LaunchRequest(old(c.cliCommand), w.homeDir)]
    ensures c.nextScheduledSend == Some(now + DefaultSessionDuration) == c.commandTimer
    ensures c.lastSentTime == Some(now) && c.currentSessionStartTime == Some(now)
    ensures c.lastCommandSuccessful == Delivered(w.secondScan)
  {
    DeliveredIff(w.firstScan);
    c.SendHiCommand(now, w);
  }

  lemma ReadOneLine(line: string)
    requires NoLineBreaks(line)
    ensures TextFile.ReadAllLines(line + "\r\n") == [line]
  {
    TextFile.ReadWriteRoundTrip([line]);
    assert TextFile.WriteAllLines([line]) == line + "\r\n" by {
      assert [line][1..] == [];
      assert TextFile.WriteAllLines([]) == "";
    }
  }
}
