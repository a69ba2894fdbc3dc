/** The three files the controller keeps under its application-data folder:
    session.txt (start, last response, last outcome, next send, duration), the
    legacy lastsent.txt (last send time) and cli_config.txt (command, working
    directory, auto-launch flag, message).

    Timestamps are written as signed decimal seconds in place of the ISO-8601
    round-trip text, and the unset timestamp as the text `DateTime.MinValue`
    has, which reads back as unset. The duration is written as signed decimal
    seconds in place of fractional hours. */
module Persistence {
  import opened Wrappers
  import opened Text
  import opened TextFile
  import opened Schedule

  /** What the file system holds under one path: nothing, a file whose reading
      throws, or a file with this text. */
  datatype FileState = Missing | Unreadable | Present(text: string)

  // ---- field codecs ----

  /** The round-trip text of `DateTime.MinValue`, the unset timestamp. */
  const MinValueText: string := "0001-01-01T00:00:00.0000000"

  function EncodeTime(t: Option<Time>): (s: string)
    ensures NoLineBreaks(s)
  {
    match t
    case None => MinValueText
    case Some(v) => IntToString(v)
  }

  /** `DateTime.TryParse`: `None` when the text is not a timestamp, otherwise the
      timestamp read (which is unset for the text of `DateTime.MinValue`). */
  function DecodeTime(s: string): Option<Option<Time>> {
    if s == MinValueText then Some(None)
    else match ParseInt(s)
      case None => None
      case Some(v) => Some(Some(v))
  }

  lemma TimeRoundTrip(t: Option<Time>)
    ensures DecodeTime(EncodeTime(t)) == Some(t)
  {
    if t.Some? {
      IntToStringRoundTrip(t.value);
      assert !IsDigit(MinValueText[4]);
      assert IntToString(t.value) != MinValueText;
    }
  }

  /** `bool.ToString()`. */
  function BoolText(b: bool): string {
    if b then "True" else "False"
  }

  /** `bool.TryParse`: "True" or "False" in any case, surrounded by any white
      space or NUL characters. */
  function ParseBool(s: string): (r: Option<bool>)
    ensures r.Some? ==> EqualsIgnoreCase(TrimEnd(TrimStart(s, true), true), BoolText(r.value))
    ensures EqualsIgnoreCase(TrimEnd(TrimStart(s, true), true), "True") ==> r == Some(true)
    ensures EqualsIgnoreCase(TrimEnd(TrimStart(s, true), true), "False") ==> r == Some(false)
  {
    var t := TrimEnd(TrimStart(s, true), true);
    if EqualsIgnoreCase(t, "True") then Some(true)
    else if EqualsIgnoreCase(t, "False") then Some(false)
    else None
  }

  /** "True" or "False" in any case, padded on both sides with white space or
      NUL characters, parses to its value. */
  lemma ParseBoolPadded(pre: string, word: string, post: string, b: bool)
    requires forall k :: 0 <= k < |pre| ==> Strippable(pre[k], true)
    requires forall k :: 0 <= k < |post| ==> Strippable(post[k], true)
    requires EqualsIgnoreCase(word, BoolText(b))
    ensures ParseBool(pre + word + post) == Some(b)
  {
    assert !Strippable(word[0], true) && !Strippable(word[|word| - 1], true) by {
      assert LowerChar(word[0]) == LowerChar(BoolText(b)[0]);
      assert LowerChar(word[|word| - 1]) == LowerChar(BoolText(b)[|word| - 1]);
    }
    assert pre + word + post == pre + (word + post);
    TrimStartSkips(pre, word + post, true);
    TrimEndSkips(word, post, true);
    assert !EqualsIgnoreCase(word, BoolText(!b)) by {
      if b { assert |word| != |"False"|; } else { assert |word| != |"True"|; }
    }
  }

  lemma TrueTextParses()
    ensures ParseBool("True") == Some(true)
  {
    TrimNoop("True", true);
  }

  lemma FalseTextParses()
    ensures ParseBool("False") == Some(false)
  {
    TrimNoop("False", true);
  }

  lemma BoolRoundTrip(b: bool)
    ensures ParseBool(BoolText(b)) == Some(b)
    ensures Trim(BoolText(b)) == BoolText(b)
  {
    if b {
      TrueTextParses();
      TrimOfTrimmed("True");
    } else {
      FalseTextParses();
      TrimOfTrimmed("False");
    }
  }

  // ---- session record ----

  datatype SessionRecord = SessionRecord(start: Option<Time>, response: string, success: bool,
                                         next: Option<Time>, duration: int)

  /** The in-memory values before anything is loaded. */
  const DefaultSession := SessionRecord(None, "", false, None, DefaultSessionDuration)

  /** `SaveSessionData`'s lines. */
  function SessionLines(r: SessionRecord): (lines: seq<string>)
    ensures |lines| == 5
  {
    [EncodeTime(r.start), r.response, BoolText(r.success), EncodeTime(r.next), IntToString(r.duration)]
  }

  function SaveSessionFile(r: SessionRecord): FileState {
    Present(WriteAllLines(SessionLines(r)))
  }

  /** `LoadSessionData` on the lines read: each field is taken only when the file
      is long enough to hold it (the response and outcome together, from three
      lines), and a field that does not parse keeps its prior value. */
  function LoadSessionLines(prior: SessionRecord, lines: seq<string>): (r: SessionRecord)
    ensures |lines| == 0 ==> r == prior
    ensures |lines| >= 1 ==> r.start == DecodeTime(lines[0]).GetOr(prior.start)
    ensures |lines| < 3 ==> r.response == prior.response && r.success == prior.success
    ensures |lines| >= 3 ==> r.response == lines[1] && r.success == ParseBool(lines[2]).GetOr(prior.success)
    ensures |lines| < 4 ==> r.next == prior.next
    ensures |lines| >= 4 ==> r.next == DecodeTime(lines[3]).GetOr(prior.next)
    ensures |lines| < 5 ==> r.duration == prior.duration
    ensures |lines| >= 5 ==> r.duration == ParseInt(lines[4]).GetOr(prior.duration)
  {
    if |lines| < 1 then prior
    else
      var start := DecodeTime(lines[0]).GetOr(prior.start);
      var response := if |lines| >= 3 then lines[1] else prior.response;
      var success := if |lines| >= 3 then ParseBool(lines[2]).GetOr(prior.success) else prior.success;
      var next := if |lines| >= 4 then DecodeTime(lines[3]).GetOr(prior.next) else prior.next;
      var duration := if |lines| >= 5 then ParseInt(lines[4]).GetOr(prior.duration) else prior.duration;
      SessionRecord(start, response, success, next, duration)
  }

  /** `LoadSessionData`: a missing file changes nothing; a file that cannot be
      read resets the start, the next send and the duration to their defaults. */
  function LoadSessionFile(prior: SessionRecord, f: FileState): SessionRecord {
    match f
    case Missing => prior
    case Unreadable => prior.(start := None, next := None, duration := DefaultSessionDuration)
    case Present(text) => LoadSessionLines(prior, ReadAllLines(text))
  }

  /** The session record survives a save and a load whatever was in memory
      before, provided the response holds no line break. */
  lemma SessionRoundTrip(prior: SessionRecord, r: SessionRecord)
    requires NoLineBreaks(r.response)
    ensures LoadSessionFile(prior, SaveSessionFile(r)) == r
  {
    var lines := SessionLines(r);
    assert NoLineBreaks(BoolText(r.success));
    ReadWriteRoundTrip(lines);
    assert ReadAllLines(WriteAllLines(lines)) == lines;
    TimeRoundTrip(r.start);
    TimeRoundTrip(r.next);
    BoolRoundTrip(r.success);
    IntToStringRoundTrip(r.duration);
    var loaded := LoadSessionLines(prior, lines);
    assert loaded == r;
  }

  /** A response with a line break in it does not survive: it comes back cut at
      the break. */
  lemma SessionResponseBreakIsCut(prior: SessionRecord, r: SessionRecord, a: string, b: string)
    requires r.response == a + "\n" + b && NoLineBreaks(a) && NoLineBreaks(b)
    ensures LoadSessionFile(prior, SaveSessionFile(r)).response == a
    ensures LoadSessionFile(prior, SaveSessionFile(r)) != r
  {
    var l := SessionLines(r);
    var rest := l[2..];
    assert l == [l[0]] + ([a + "\n" + b] + rest);
    ReadWriteCons(l[0], [a + "\n" + b] + rest);
    EmbeddedBreakSplitsLine(a, b, rest);
    var read := ReadAllLines(WriteAllLines(l));
    assert read[..3] == [l[0], a, b];
    assert |read| >= 3;
    assert read[1] == a;
    assert |a| < |r.response|;
  }

  /** Loading at start-up with no session file, or an unreadable one, leaves the
      defaults: every timestamp unset and the 5 h 1 min duration. */
  lemma SessionDefaults(prior: SessionRecord)
    ensures LoadSessionFile(DefaultSession, Missing) == DefaultSession
    ensures var r := LoadSessionFile(prior, Unreadable);
      r.start.None? && r.next.None? && r.duration == DefaultSessionDuration
  {
  }

  // ---- last-sent file ----

  /** `SaveLastSentTime`: the whole file is the timestamp's text. */
  function SaveLastSentFile(t: Option<Time>): FileState {
    Present(EncodeTime(t))
  }

  /** `LoadLastSentTime`: a missing file or unparsable text keeps the prior value;
      a file that cannot be read resets it to unset. */
  function LoadLastSentFile(prior: Option<Time>, f: FileState): Option<Time> {
    match f
    case Missing => prior
    case Unreadable => None
    case Present(text) => DecodeTime(text).GetOr(prior)
  }

  /** The fall-backs of `LoadLastSentTime`: no file keeps the value in memory, and
      a file that cannot be read resets it to unset. */
  lemma LastSentDefaults(prior: Option<Time>)
    ensures LoadLastSentFile(prior, Missing) == prior
    ensures LoadLastSentFile(prior, Unreadable) == None
  {
  }

  lemma LastSentRoundTrip(prior: Option<Time>, t: Option<Time>)
    ensures LoadLastSentFile(prior, SaveLastSentFile(t)) == t
  {
    TimeRoundTrip(t);
  }

  // ---- CLI configuration ----

  datatype CliConfig = CliConfig(command: string, workingDirectory: string, autoLaunch: bool, message: string)

  const DefaultConfig := CliConfig("claude", "", false, "hi")

  function ConfigLines(c: CliConfig): (lines: seq<string>)
    ensures |lines| == 4
  {
    [c.command, c.workingDirectory, BoolText(c.autoLaunch), c.message]
  }

  /** `SaveCliConfiguration`: an empty command deletes the file, otherwise the
      four lines are written. */
  function SaveConfigFile(c: CliConfig): (f: FileState)
    ensures f.Missing? <==> c.command == ""
  {
    if c.command == "" then Missing else Present(WriteAllLines(ConfigLines(c)))
  }

  /** `LoadCliConfiguration` on the lines read: every line is trimmed, each field
      taken only when its line is present, an unparsable flag and an empty
      message keep their prior values. */
  function LoadConfigLines(prior: CliConfig, lines: seq<string>): (c: CliConfig)
    ensures c.command == (if |lines| > 0 then Trim(lines[0]) else prior.command)
    ensures c.workingDirectory == (if |lines| > 1 then Trim(lines[1]) else prior.workingDirectory)
    ensures |lines| <= 2 ==> c.autoLaunch == prior.autoLaunch
    ensures |lines| > 2 ==> c.autoLaunch == ParseBool(Trim(lines[2])).GetOr(prior.autoLaunch)
    ensures |lines| <= 3 || Trim(lines[3]) == "" ==> c.message == prior.message
    ensures |lines| > 3 && Trim(lines[3]) != "" ==> c.message == Trim(lines[3])
  {
    var command := if |lines| > 0 then Trim(lines[0]) else prior.command;
    var dir := if |lines| > 1 then Trim(lines[1]) else prior.workingDirectory;
    var auto := if |lines| > 2 then ParseBool(Trim(lines[2])).GetOr(prior.autoLaunch) else prior.autoLaunch;
    var message := if |lines| > 3 && Trim(lines[3]) != "" then Trim(lines[3]) else prior.message;
    CliConfig(command, dir, auto, message)
  }

  /** `LoadCliConfiguration`: a missing file keeps the in-memory values, a file
      that cannot be read restores the defaults. */
  function LoadConfigFile(prior: CliConfig, f: FileState): CliConfig {
    match f
    case Missing => prior
    case Unreadable => DefaultConfig
    case Present(text) => LoadConfigLines(prior, ReadAllLines(text))
  }

  /** The fall-backs of `LoadCliConfiguration`: no file keeps the settings in
      memory, and a file that cannot be read restores "claude", no directory, no
      auto-launch and "hi". */
  lemma ConfigDefaults(prior: CliConfig)
    ensures LoadConfigFile(prior, Missing) == prior
    ensures LoadConfigFile(prior, Unreadable) == CliConfig("claude", "", false, "hi")
  {
  }

  /** A text field that survives being written as a line and trimmed on load. */
  predicate StoresAsLine(s: string) {
    NoLineBreaks(s) && Trim(s) == s
  }

  /** A configuration with a command survives a save and a load, provided its
      texts are single trimmed lines and the message is not empty. */
  lemma ConfigRoundTrip(prior: CliConfig, c: CliConfig)
    requires c.command != "" && c.message != ""
    requires StoresAsLine(c.command) && StoresAsLine(c.workingDirectory) && StoresAsLine(c.message)
    ensures LoadConfigFile(prior, SaveConfigFile(c)) == c
  {
    var lines := ConfigLines(c);
    ConfigLinesReadBack(c);
    BoolRoundTrip(c.autoLaunch);
    var loaded := LoadConfigLines(prior, lines);
    assert loaded.command == c.command;
    assert loaded.workingDirectory == c.workingDirectory;
    assert loaded.autoLaunch == c.autoLaunch;
    assert loaded.message == c.message;
  }

  lemma ConfigLinesReadBack(c: CliConfig)
    requires c.command != ""
    requires NoLineBreaks(c.command) && NoLineBreaks(c.workingDirectory) && NoLineBreaks(c.message)
    ensures SaveConfigFile(c) == Present(WriteAllLines(ConfigLines(c)))
    ensures ReadAllLines(WriteAllLines(ConfigLines(c))) == ConfigLines(c)
  {
    assert NoLineBreaks(BoolText(c.autoLaunch));
    ReadWriteRoundTrip(ConfigLines(c));
  }

  /** Saving with an empty command deletes the file, so the next load keeps
      whatever is in memory (at start-up, the defaults). */
  lemma EmptyCommandKeepsPrior(prior: CliConfig, c: CliConfig)
    requires c.command == ""
    ensures LoadConfigFile(prior, SaveConfigFile(c)) == prior
  {
  }

  /** An empty message is written but ignored on load. */
  lemma EmptyMessageKeepsPrior(prior: CliConfig, c: CliConfig)
    requires c.command != "" && c.message == ""
    requires StoresAsLine(c.command) && StoresAsLine(c.workingDirectory)
    ensures LoadConfigFile(prior, SaveConfigFile(c)) == c.(message := prior.message)
  {
    var lines := ConfigLines(c);
    ConfigLinesReadBack(c);
    BoolRoundTrip(c.autoLaunch);
    assert Trim("") == "";
    var loaded := LoadConfigLines(prior, lines);
    assert loaded.command == c.command;
    assert loaded.workingDirectory == c.workingDirectory;
    assert loaded.autoLaunch == c.autoLaunch;
    assert loaded.message == prior.message;
  }
}
