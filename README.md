# Claude session keeper: tray controller model

A Dafny model of the scheduling and session-keeping core of the Windows tray
application that keeps a Claude CLI session alive. Its controller
(`TrayApplicationContext`) does the following:
- It sends a short message ("hi" by default) to every window it takes for a CLI terminal. That is a visible, unowned top-level window whose title names a terminal or the CLI and whose process is one of a fixed list of shells. The CLI need not actually run in it.
- When the send reaches no window and a CLI command is configured, it launches one and retries once.
- It schedules the next send one session length (5 h 1 min by default) later.
- It keeps its state in three small text files.

What the model covers:

- `schedule.dfy` (`Schedule`): time as whole seconds, the start-up delay
  `CalculateNextSendTime`, and the "HH:mm:ss" text.
- `reset_parser.dfy` (`ResetParser`): `ParseClaudeSessionReset`, which turns the
  regular-expression results into the next reset instant. It is reached only
  through `ScheduleNextSend(response)`, and the one caller passes no response
  (TrayApplicationContext.cs:592), so the running program never uses the parser.
- `window_locator.dfy` (`WindowLocator`): the `FindClaudeCliWindows` filter over an
  enumeration of window records, and the per-window injection loop of
  `SendMessageToManualWindows`.
- `launcher.dfy` (`Launcher`): `GetEffectiveWorkingDirectory`, the shell
  request of `LaunchClaudeCliWindow`, and its rule for when a new session starts.
- `persistence.dfy` (`Persistence`): the formats of the three files:
  - session.txt, 5 lines;
  - lastsent.txt;
  - cli_config.txt, 4 lines, trimmed on load, deleted when the command is empty.
- `text_file.dfy` (`TextFile`): the `File.WriteAllLines` / `File.ReadAllLines` line layer.
- `text.dfy` (`Text`): ordinal substring search, ASCII case folding, `String.Trim`,
  and decimal integer text.
- `tray_controller.dfy` (`Tray`): the controller as a class. Its fields are:
  - the source's fields;
  - the three files, as `FileState` values;
  - `spawned`, the processes it asked to start;
  - `typed`, the keystroke injections it dispatched;
  - `commandTimer`, the single timer, as an optional deadline;
  - a ghost count of live timers, which `Valid()` keeps equal to 1 when a timer is set and 0 otherwise, so at most one timer exists.

  The methods are the constructor, the load and save methods, `StartTimer`,
  `RestartTimer`, `ScheduleNextSend`, `LaunchClaudeCliWindow` and the send
  cycle `SendHiCommand`.

The things the controller asks the operating system become inputs:
- the clock, as `now`;
- each window enumeration, as a sequence of `Window` records;
- whether `Process.Start` succeeds;
- which directories exist;
- the user's profile directory;
- the files' contents, as `Missing`, `Unreadable` or `Present(text)`.

`World` bundles what one send cycle observes:
- the first enumeration;
- the launch outcome;
- the enumeration of the retry;
- the enumeration that counts windows for the success message.

Timestamps are integer seconds. `DateTime.MinValue` ("unset") is `None`.

In these places the code behaves in ways its comments and messages do not suggest; the model follows the code:
- A 24-hour reading of "12:30" becomes 00:30:01 (`ResetParser.TwentyFourHourNoonBecomesMidnight`). The 24-hour pattern has no meridiem group, so the "not pm and hour 12" rule applies to it too.
- The third reset pattern is shadowed. Any text it matches also matches the first pattern, whose minute group may be empty and whose colon is optional. Taken on its own it would read "1pm" as 01:00:01, because its meridiem lands in the minute group (`ResetParser.ShortPatternIgnoresMeridiem`).
- The outcome text "No Claude CLI windows found to send message to" is never produced. The branch that picks it runs only when the command is empty, and then the "not configured" text wins (`Tray.CycleReport`).
- The success count in "sent to N CLI window(s)" comes from a fresh enumeration. It can differ from the number of windows that were typed into, and it can be 0.
- After a successful launch inside a send cycle, the intermediate "Launching…" and "launched" texts are overwritten by the final report. When the launch opened a new session, session.txt is saved with the "Launching…" text.

## Model

| member | source | states |
|---|---|---|
| Schedule.StartOfDay | TrayApplicationContext.cs:489-490 | midnight of the day holding `t`: at most `t`, less than a day before it, a whole number of days |
| Schedule.ClockText | TrayApplicationContext.cs:557-583 | the `HH:mm:ss` text is eight characters with colons at positions 2 and 5. Its three digit pairs parse to the hour, the minute and the second of `t`'s time of day |
| Schedule.ClockFields | TrayApplicationContext.cs:583 | the hour is below 24, the minute and second below 60, and the three make up the time of day |
| Schedule.InitialDelay | TrayApplicationContext.cs:299-330 | the start-up delay is never negative |
| Schedule.InitialDelayCases | TrayApplicationContext.cs:299-330 | the delay's cases: 0 when the scheduled send is at or before now; the gap when it is ahead; 0 when nothing was sent; otherwise max(0, session start + duration − now). The timer fires at the target or at once, and the delay is positive exactly when a target lies ahead |
| ResetParser.NormalizeHourIsClock | TrayApplicationContext.cs:478-487 | on a 12-hour reading 1..12, pm hours land in 12..23, am hours in 0..11, and distinct readings stay distinct |
| ResetParser.ResetSecondOfDay | TrayApplicationContext.cs:489-491 | the reset time of day is less than a day and decodes back to the given hour and minute, with seconds field 1 |
| ResetParser.NextOccurrence | TrayApplicationContext.cs:489-499 | the instant is after `now`, at most a day later, and at the requested time of day |
| ResetParser.ResetFromGroups | TrayApplicationContext.cs:458-501 | a reading yields an instant after `now`, within a day, with seconds field 1 |
| ResetParser.ResetInstant | TrayApplicationContext.cs:458-501 | there is no result exactly when the hour does not parse or the normalised hour or minute is out of range; otherwise the result is today's instant, or exactly one day later when today's is not after `now` |
| ResetParser.FirstMatchWins | TrayApplicationContext.cs:455-503 | the first pattern that matched decides the result, even when its reading fails; later patterns are ignored |
| ResetParser.ParseClaudeSessionReset | TrayApplicationContext.cs:440-508 | the loop returns the first match's reading; an empty response or no match gives none; a result lies after `now` and within a day |
| ResetParser.TwentyFourHourNoonBecomesMidnight | TrayApplicationContext.cs:474-487 | "12:30" through the 24-hour pattern gives 00:30:01 |
| ResetParser.TwentyFourHourAfternoon | TrayApplicationContext.cs:451-499 | "13:30" through the 24-hour pattern gives 13:30:01 |
| ResetParser.TwelveHourPm | TrayApplicationContext.cs:450-499 | "1pm" with an empty minute group gives 13:00:01, today or tomorrow |
| ResetParser.ShortPatternIgnoresMeridiem | TrayApplicationContext.cs:452-476 | the third pattern alone reads "1pm" as 01:00:01 |
| ResetParser.OutOfRangeStops | TrayApplicationContext.cs:489-505 | "24:00" gives no result and hides every later pattern |
| Text.AsciiLower | TrayApplicationContext.cs:734 | same length, each character lower-cased |
| Text.ContainsAt | TrayApplicationContext.cs:722-727 | an occurrence at any position makes `Contains` hold |
| Text.ContainsOccurs | TrayApplicationContext.cs:722-727 | `Contains` holds only where the text occurs: it yields the position |
| Text.ContainsIff | TrayApplicationContext.cs:722-727 | ordinal `Contains` holds exactly when the text occurs at some position |
| Text.Trim | TrayApplicationContext.cs:1628-1643 | a non-empty trimmed text neither starts nor ends with white space |
| Text.TrimIsInfix | TrayApplicationContext.cs:1628-1643 | the trim is the infix `s[i..j]`, everything before `i` and from `j` on is white space, and a non-empty result starts and ends with a character that is not |
| Text.TrimOfTrimmed | TrayApplicationContext.cs:1628-1643 | a text that starts and ends with a non-white character is its own trim |
| Text.ParseNat | TrayApplicationContext.cs:459-470 | parsing succeeds exactly on a non-empty string of ASCII digits |
| Text.NatToString | TrayApplicationContext.cs:583 | a non-empty string of digits |
| Text.ParseNatToString | TrayApplicationContext.cs:1128-1134 | the decimal text of a natural number parses back to it |
| Text.IntToString | TrayApplicationContext.cs:1128-1134 | non-empty, no line break, digits after an optional sign |
| Text.IntToStringRoundTrip | TrayApplicationContext.cs:1128-1134 | the decimal text of an integer parses back to it |
| Text.TwoDigits | TrayApplicationContext.cs:583 | the two-digit text of `n < 100` parses back to `n` |
| TextFile.ReadWriteCons | TrayApplicationContext.cs:1069-1136 | a written line without breaks is read back first, followed by the remaining lines |
| TextFile.ReadWriteRoundTrip | TrayApplicationContext.cs:1069-1136 | written lines without line breaks are read back unchanged |
| TextFile.EmbeddedBreakSplitsLine | TrayApplicationContext.cs:1130 | a line holding "\n" is read back as two lines |
| Persistence.EncodeTime | TrayApplicationContext.cs:1048 | a timestamp's text holds no line break |
| Persistence.TimeRoundTrip | TrayApplicationContext.cs:1025-1048 | every timestamp, unset included, parses back from its text |
| Persistence.ParseBool | TrayApplicationContext.cs:1081-1084 | the flag's text trimmed of white space and NUL parses exactly when it equals "True" or "False" ignoring case, and then to that value |
| Persistence.ParseBoolPadded | TrayApplicationContext.cs:1636 | "True" or "False" in any case, padded on both sides with white space or NUL, parses to its value |
| Persistence.BoolRoundTrip | TrayApplicationContext.cs:1081-1131 | `bool.ToString()` parses back and is its own trim |
| Persistence.SessionLines | TrayApplicationContext.cs:1127-1134 | the session is saved as exactly 5 lines |
| Persistence.LoadSessionLines | TrayApplicationContext.cs:1069-1105 | each field is taken only when enough lines are present: start from 1 line, response and outcome from 3, next send from 4, duration from 5. A field that does not parse keeps its prior value |
| Persistence.SessionRoundTrip | TrayApplicationContext.cs:1056-1142 | the record survives a save and a load, whatever was loaded before, when the response has no line break |
| Persistence.SessionResponseBreakIsCut | TrayApplicationContext.cs:1078-1085 | a response with a "\n" comes back cut at the break, so the record does not survive |
| Persistence.SessionDefaults | TrayApplicationContext.cs:1107-1112 | no file keeps the defaults; an unreadable one unsets the start and the next send and restores the default duration |
| Persistence.LastSentDefaults | TrayApplicationContext.cs:1021-1034 | no file keeps the last send time in memory; an unreadable file resets it to unset |
| Persistence.LastSentRoundTrip | TrayApplicationContext.cs:1011-1054 | the last send time survives a save and a load |
| Persistence.ConfigLines | TrayApplicationContext.cs:1679-1685 | the configuration is saved as exactly 4 lines |
| Persistence.SaveConfigFile | TrayApplicationContext.cs:1660-1693 | the file is deleted exactly when the command is empty |
| Persistence.LoadConfigLines | TrayApplicationContext.cs:1625-1648 | every line is trimmed. Each field is taken only when its line exists. An unparsable flag keeps its prior value, and so does an empty message |
| Persistence.ConfigRoundTrip | TrayApplicationContext.cs:1612-1693 | a configuration with a command and a message, whose texts are single trimmed lines, survives a save and a load |
| Persistence.ConfigDefaults | TrayApplicationContext.cs:1622-1657 | no file keeps the settings in memory; an unreadable file restores "claude", no directory, no auto-launch and "hi" |
| Persistence.EmptyCommandKeepsPrior | TrayApplicationContext.cs:1672-1676 | saving with an empty command makes the next load keep what is in memory |
| Persistence.EmptyMessageKeepsPrior | TrayApplicationContext.cs:1641-1648 | an empty message is written but ignored on load |
| Launcher.GetEffectiveWorkingDirectory | TrayApplicationContext.cs:1588-1610 | the configured directory when it is set and exists, otherwise the profile directory |
| Launcher.LaunchRequest | TrayApplicationContext.cs:647-654 | the request starts cmd.exe in the given directory, with arguments that begin with the `/k ` switch and end in the CLI command |
| Launcher.SessionAfterLaunch | TrayApplicationContext.cs:662-669 | after a launch a start is always set. It is `now`, or the old start when a session is still running. It is exactly `now` when a new session starts (no start, or the old one has run its full duration). It is never in the future when the old start was not |
| WindowLocator.ContainsAnyIff | TrayApplicationContext.cs:722-726 | the title check holds exactly when one of the signatures occurs in the title |
| WindowLocator.OneOfIff | TrayApplicationContext.cs:734-739 | the process check holds exactly when the lower-cased name is in the allow-list |
| WindowLocator.QualifiesIff | TrayApplicationContext.cs:712-739 | a window is taken exactly when it is visible, unowned, has a non-empty title containing one of the signatures (or "claude" in any case), and its process resolves to a lower-cased name in the allow-list |
| WindowLocator.OwnedNeverQualifies | TrayApplicationContext.cs:712 | a window with an owner is never taken, whatever its title and process |
| WindowLocator.Qualifying | TrayApplicationContext.cs:706-755 | discovery finds no more windows than were enumerated |
| WindowLocator.QualifyingExactly | TrayApplicationContext.cs:710-742 | discovery is sound and complete: every window found qualifies and was enumerated, and every qualifying enumerated window is found |
| WindowLocator.QualifyingIsSubsequence | TrayApplicationContext.cs:706-755 | discovery keeps enumeration order: a subsequence of the input |
| WindowLocator.QualifyingAppend | TrayApplicationContext.cs:740 | one more enumerated window adds itself to the result exactly when it qualifies |
| WindowLocator.FindClaudeCliWindows | TrayApplicationContext.cs:706-755 | the callback loop builds exactly the qualifying windows in order |
| WindowLocator.InjectionsInto | TrayApplicationContext.cs:766-790 | one injection per window, in order |
| WindowLocator.CountAcceptedPositive | TrayApplicationContext.cs:796 | the success count is positive exactly when some window accepted the message |
| WindowLocator.CountAcceptedAppend | TrayApplicationContext.cs:784 | one more window adds one to the count exactly when it accepts |
| WindowLocator.DeliveredWitness | TrayApplicationContext.cs:757-798 | a successful send reached a qualifying window that accepted input |
| WindowLocator.DeliveredFrom | TrayApplicationContext.cs:757-798 | a qualifying window that accepts input makes the send succeed |
| WindowLocator.DeliveredIff | TrayApplicationContext.cs:757-798 | the send succeeds exactly when some enumerated window qualifies and accepts; with no qualifying window it fails |
| WindowLocator.InjectAll | TrayApplicationContext.cs:766-796 | every window is tried, a failure does not stop the others, and `successCount` counts the completed injections |
| WindowLocator.SendMessageToManualWindows | TrayApplicationContext.cs:757-805 | the result is false with no windows, otherwise true exactly when some injection completed; one injection per discovered window, in order |
| Tray.NextSendTime | TrayApplicationContext.cs:511-525 | the next send is the parsed reset when there is one, else now + duration; it is after `now` when the duration is positive and at most max(duration, one day) ahead |
| Tray.FirstMatchBound | TrayApplicationContext.cs:489-499 | the first match's reading lies after `now` and within a day |
| Tray.CycleReport | TrayApplicationContext.cs:552-584 | the cycle reports a count exactly when the first attempt succeeded. It reports "launched and sent" or "launched but failed" by the retry's outcome when it launched, and "not configured" exactly when there was no window and no command. It never reports "no windows found". A count is the number of windows qualifying on the recount. The report means success exactly when the cycle succeeded |
| Tray.StartAfterCycle | TrayApplicationContext.cs:546-548 | after a cycle the session start is set, either to `now` or to the old start. An unset start becomes `now`. A set start changes only through a successful launch, and after one it becomes `now` exactly when the old session has run its full duration |
| Tray.TrayController.constructor | TrayApplicationContext.cs:70-116 | the configuration, the last send time and the session are loaded over the defaults. One timer is armed with the start-up delay. A terminal is launched only when auto-launch is on, a command is set and no window qualifies. A started terminal sets the session start by the new-session rule, the last send time, the outcome and the response, writes lastsent.txt, and writes session.txt when a session opens. Without one, every loaded value and both files stay as read |
| Tray.TrayController.AutoLaunch | TrayApplicationContext.cs:107-115 | the start-up launch happens exactly under those three conditions. A started terminal records the launch: session rule, last send time, outcome, response and both files. Otherwise nothing changes, and the timer, schedule and settings never do |
| Tray.TrayController.LoadCliConfiguration | TrayApplicationContext.cs:1612-1657 | the settings become the configuration file's reading over the current ones; its fall-backs for no file and an unreadable file are `Persistence.ConfigDefaults` |
| Tray.TrayController.SaveCliConfiguration | TrayApplicationContext.cs:1660-1693 | the configuration file becomes the save of the current settings |
| Tray.TrayController.LoadLastSentTime | TrayApplicationContext.cs:1011-1035 | the last send time becomes the file's reading over the current one; its fall-backs for no file and an unreadable file are `Persistence.LastSentDefaults` |
| Tray.TrayController.SaveLastSentTime | TrayApplicationContext.cs:1037-1054 | the last-sent file becomes the save of the last send time |
| Tray.TrayController.LoadSessionData | TrayApplicationContext.cs:1056-1113 | the five session fields become the session file's reading over the current ones |
| Tray.TrayController.SaveSessionData | TrayApplicationContext.cs:1115-1142 | the session file becomes the save of the five session fields |
| Tray.TrayController.DisposeTimer | TrayApplicationContext.cs:533 | no timer remains |
| Tray.TrayController.ArmTimer | TrayApplicationContext.cs:534 | a timer is created only when none exists, and it holds the deadline |
| Tray.TrayController.StartTimer | TrayApplicationContext.cs:271-285 | the single timer is armed at now + the start-up delay, never in the past |
| Tray.TrayController.RestartTimer | TrayApplicationContext.cs:287-291 | the old timer is disposed, then a fresh one is armed with the start-up delay |
| Tray.TrayController.ScheduleNextSend | TrayApplicationContext.cs:511-537 | the next send is recorded and saved. The timer is replaced by one at that instant exactly when it lies ahead, and otherwise stays as it was. At most one timer exists |
| Tray.TrayController.LaunchClaudeCliWindow | TrayApplicationContext.cs:631-691 | with no command nothing changes. Otherwise one cmd.exe request is made in the effective directory. After a successful start, a new session begins only when none is running (and only then is session.txt saved), and the launch is recorded as a successful send at `now`. A failed start changes nothing else |
| Tray.TrayController.RequestSpawn | TrayApplicationContext.cs:647-656 | exactly one request is appended |
| Tray.TrayController.RecordLaunch | TrayApplicationContext.cs:658-674 | the bookkeeping of a started terminal: session rule, last send time, outcome and files |
| Tray.TrayController.SendHiCommand | TrayApplicationContext.cs:539-592 | a launch happens at most once, and only when the first attempt failed and a command is set; exactly one retry follows it. The outcome flag is the final attempt's result, and the last send time is `now`. The session start is set when it was unset. The report, the injections, both files, the next send (now + duration) and the timer are all stated |
| Tray.TrayController.Attempt | TrayApplicationContext.cs:543-584 | the sending half of the cycle: the session start, the outcome, the report, the requests and the injections. It also gives the last send time, outcome flag and both files after a launch, and says they are unchanged without one |
| Tray.TrayController.Deliver | TrayApplicationContext.cs:552-584 | the first attempt, then the launch and retry when it reached nothing and a command is set. It gives the launch's effect on the last send time, outcome flag and both files, and says they are unchanged without one |
| Tray.TrayController.Dispatch | TrayApplicationContext.cs:552 | one send attempt: its result and the injections it dispatched |
| Tray.TrayController.RecoverByLaunch | TrayApplicationContext.cs:555-571 | the recovery: one launch, one retry, and the report chosen by the retry. A started terminal sets the last send time, the outcome and lastsent.txt, and saves session.txt with the "Launching…" text when it opens a session. A failed start leaves them as they were |
| Tray.TrayController.LaunchAfterMiss | TrayApplicationContext.cs:557-558 | the "Launching…" text is set, then one launch with its bookkeeping. The response ends as "Launched" when the spawn succeeded and stays "Launching…" when it failed |
| Tray.TrayController.Finish | TrayApplicationContext.cs:585-592 | the outcome and last send time are recorded, both files saved and the next send scheduled a duration ahead; nothing else changes |
| Tray.TrayController.RecordOutcome | TrayApplicationContext.cs:585-589 | the outcome and the last send time are recorded and both files saved |
| Tray.FirstStart | TrayApplicationContext.cs:70-116 | a start with only a command configured reads the command back, launches nothing and arms the timer for `now` |
| Tray.FirstCycle | TrayApplicationContext.cs:539-592 | the first cycle after that start, with no window open: one terminal is launched in the profile directory, the session starts now, and the next send is a default session later. Its frame is the cycle's own fields, so the configuration, the duration and the configuration file stay as they were |

## Left out

- Win32 calls, `SendKeys` and `keybd_event` are not modelled. The window enumeration and each window's injection outcome are inputs, and an injection is logged as a record. Special characters that `SendKeys` would interpret in the message are not modelled.
- `Task.Delay` waits, `async` continuations and the timer thread are not modelled. Each operation reads one `now`, so the several `DateTime.Now` reads within one send cycle collapse to one instant.
- `Process.Start` is not modelled: its success is an input. The `--version` probe of the configuration dialog is not modelled.
- The exception handlers around a whole send cycle, around `SendMessageToManualWindows` and around the launch's balloon tip are not modelled. Neither are write failures of the three files. Their texts would come from exception messages.
- The regular-expression engine is not modelled: its match groups are inputs, in pattern order. `\d` matching non-ASCII digits is not modelled either.
- The ISO-8601 round-trip text of timestamps is not modelled. Signed decimal seconds stand in for it, and the unset timestamp keeps the text of `DateTime.MinValue`. `DateTime.TryParse` leniency, time zones and daylight saving are not modelled.
- The session duration line is written as decimal seconds instead of fractional hours (`TotalHours`, `double.TryParse`), because it is floating point. A line that `double.TryParse` accepts but `TimeSpan.FromHours` rejects ("NaN", "1e300", a decimal comma read under another culture) throws at TrayApplicationContext.cs:1101. The catch at :1106-1110 then unsets the session start and the next send and restores the default duration; the model has no such line and keeps the values already loaded.
- `int.Parse` overflow is not modelled, and neither is its leniency about white space and signs: the groups hold one or two ASCII digits.
- Only ASCII case folding is modelled for `ToLower` and `OrdinalIgnoreCase`.
- The UI is not modelled: tray icon, menus, tooltips, balloon tips, dialogs and the startup registry key.
- `CalculateNextSendTime` with a send recorded but no session start is modelled without adding the duration to `DateTime.MinValue`: that session is treated as long over.
- `Tray.TrayController.constructor`: the three load methods are applied to the field defaults and the first timer is armed before the object exists, with the same functions the load methods and `StartTimer` use. The constructor does not call those methods.
- `Tray.ReportText` has no contract of its own. The last response is kept as a `Response` value, and the text is derived from it only where session.txt is written.
- `WindowLocator.Qualifying`: its own contract states only the length bound. Soundness, completeness and order are stated by `WindowLocator.QualifyingExactly` and `WindowLocator.QualifyingIsSubsequence`.
- A timer due time beyond the range `System.Threading.Timer` accepts (about 49.7 days) is not modelled. In the source it throws. A far next-send date chosen in the schedule dialog or written into session.txt can reach that case. `Tray.TrayController.StartTimer`, `Tray.TrayController.ScheduleNextSend` and `Tray.TrayController.ArmTimer` always arm.
- `Schedule.InitialDelay`: adding a negative duration read from session.txt to an unset session start (`DateTime.MinValue`) throws in the source. The model returns 0 there as for any unset start.
- `Text.Trim`: its own contract states only that a non-empty result has kept ends. That the result is the infix left after removing white space at both ends, and nothing else, is stated by `Text.TrimIsInfix`.
- `Text.ContainsAt`: states one direction. The converse is `Text.ContainsOccurs`, and the equivalence with an occurrence at some position is `Text.ContainsIff`.
