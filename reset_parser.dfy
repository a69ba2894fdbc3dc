/** `ParseClaudeSessionReset`: turns a "resets 1pm" / "resets at 13:30" phrase of a
    response into the next absolute instant with that time of day.

    The regular-expression engine is not modelled. Its results come in as one
    entry per pattern, in the source's priority order: `None` when that pattern
    does not match, otherwise the match's groups, `groups[0]` being the whole
    match. The 12-hour pattern with minutes has groups hour, minute (possibly
    empty) and meridiem; the 24-hour pattern has hour and minute; the 12-hour
    pattern without minutes has hour and meridiem. */
module ResetParser {
  import opened Wrappers
  import opened Text
  import opened Schedule

  /** `match.Groups[k].Value`: the empty string for a group the pattern lacks. */
  function Group(groups: seq<string>, k: nat): string {
    if k < |groups| then groups[k] else ""
  }

  /** The 12-hour to 24-hour conversion as the source writes it: "pm" adds 12 to
      any hour but 12, and without "pm" hour 12 becomes 0. */
  function NormalizeHour(hour: nat, isPm: bool): nat {
    if isPm && hour != 12 then hour + 12
    else if !isPm && hour == 12 then 0
    else hour
  }

  /** On a 12-hour clock reading 1..12 the conversion is the usual one: am hours
      land in 0..11, pm hours in 12..23, and distinct readings stay distinct. */
  lemma NormalizeHourIsClock(h1: nat, pm1: bool, h2: nat, pm2: bool)
    requires 1 <= h1 <= 12 && 1 <= h2 <= 12
    ensures pm1 ==> 12 <= NormalizeHour(h1, pm1) <= 23
    ensures !pm1 ==> NormalizeHour(h1, pm1) <= 11
    ensures NormalizeHour(h1, pm1) == NormalizeHour(h2, pm2) ==> h1 == h2 && pm1 == pm2
  {
  }

  /** The time of day, in seconds, a normalised hour and minute denote; the
      seconds field is fixed at 1. */
  function ResetSecondOfDay(hour: nat, minute: nat): (sod: nat)
    requires hour <= 23 && minute <= 59
    ensures sod < SecondsPerDay && sod % 60 == 1
    ensures sod / 3600 == hour && sod % 3600 / 60 == minute
  {
    hour * 3600 + minute * 60 + 1
  }

  /** The first instant after `now` whose time of day is `sod`: today's, or the
      same time a day later when today's is not after `now`. */
  function NextOccurrence(now: Time, sod: nat): (t: Time)
    requires sod < SecondsPerDay
    ensures now < t <= now + SecondsPerDay
    ensures t % SecondsPerDay == sod
  {
    var today := StartOfDay(now) + sod;
    assert today % SecondsPerDay == sod by {
      assert today == (now / SecondsPerDay) * SecondsPerDay + sod;
    }
    if today <= now then today + SecondsPerDay else today
  }

  /** Two instants with the same time of day agree in their seconds field. */
  lemma SameMinuteSecond(t: Time, sod: nat)
    requires t % SecondsPerDay == sod
    ensures t % 60 == sod % 60
  {
    var days := t / SecondsPerDay;
    assert t == days * SecondsPerDay + sod;
    assert t == (days * 1440) * 60 + sod;
  }

  /** The minute a match denotes: a minute group that does not parse counts as 0. */
  function MinuteOf(groups: seq<string>): nat {
    if |groups| > 2 && Group(groups, 2) != "" then ParseNat(Group(groups, 2)).GetOr(0) else 0
  }

  /** Only a fourth group equal to "pm" in any case selects the afternoon. */
  predicate IsPmOf(groups: seq<string>) {
    |groups| > 3 && Group(groups, 3) != "" && AsciiLower(Group(groups, 3)) == "pm"
  }

  /** The reading of one successful match: the hour group must parse (`int.Parse`
      throws otherwise), a minute group that does not parse counts as 0, and only
      a fourth group equal to "pm" in any case selects the afternoon. A normalised
      hour above 23 or minute above 59 makes the `DateTime` constructor throw,
      which yields no result. The instant is today's, moved one day on when it is
      not after `now`. */
  function ResetFromGroups(groups: seq<string>, now: Time): (r: Option<Time>)
    ensures r.Some? ==> now < r.value <= now + SecondsPerDay
    ensures r.Some? ==> r.value % 60 == 1
  {
    match ParseNat(Group(groups, 1))
    case None => None
    case Some(hour) =>
      var minute := MinuteOf(groups);
      var h := NormalizeHour(hour, IsPmOf(groups));
      if h > 23 || minute > 59 then None
      else
        var t := NextOccurrence(now, ResetSecondOfDay(h, minute));
        SameMinuteSecond(t, ResetSecondOfDay(h, minute));
        Some(t)
  }

  /** The first pattern that matched decides; later entries are not consulted. */
  function FirstMatch(matches: seq<Option<seq<string>>>, now: Time): Option<Time> {
    if matches == [] then None
    else match matches[0]
      case Some(groups) => ResetFromGroups(groups, now)
      case None => FirstMatch(matches[1..], now)
  }

  /** The parser's result for a response, the specification of the method below. */
  function SessionReset(response: string, matches: seq<Option<seq<string>>>, now: Time): Option<Time> {
    if response == "" then None else FirstMatch(matches, now)
  }

  /** `ParseClaudeSessionReset`: tries the patterns' results in order and returns
      at the first that matched. */
  method ParseClaudeSessionReset(response: string, matches: seq<Option<seq<string>>>, now: Time)
    returns (r: Option<Time>)
    ensures r == SessionReset(response, matches, now)
    ensures r.Some? ==> now < r.value <= now + SecondsPerDay
    ensures response == "" || (forall k :: 0 <= k < |matches| ==> matches[k].None?) ==> r.None?
  {
    if response == "" {
      return None;
    }
    var i := 0;
    while i < |matches|
      invariant 0 <= i <= |matches|
      invariant forall k :: 0 <= k < i ==> matches[k].None?
      invariant FirstMatch(matches, now) == FirstMatch(matches[i..], now)
    {
      if matches[i].Some? {
        r := ResetFromGroups(matches[i].value, now);
        return;
      }
      assert matches[i..][1..] == matches[i + 1..];
      i := i + 1;
    }
    r := None;
  }

  /** Priority: when entry `k` is the first that matched, its reading is the
      result, whatever the later entries hold, even when that reading fails. */
  lemma {:induction false} FirstMatchWins(matches: seq<Option<seq<string>>>, k: nat, now: Time)
    requires k < |matches| && matches[k].Some?
    requires forall j :: 0 <= j < k ==> matches[j].None?
    ensures FirstMatch(matches, now) == ResetFromGroups(matches[k].value, now)
  {
    if k > 0 {
      FirstMatchWins(matches[1..], k - 1, now);
    }
  }

  /** Where a result lies: at the normalised time of day plus one second, today
      when that is still ahead of `now` and exactly one day later otherwise; and
      no result exactly when the hour group does not parse or the normalised
      values are out of range. */
  lemma ResetInstant(groups: seq<string>, now: Time)
    ensures ResetFromGroups(groups, now).None? <==>
      (ParseNat(Group(groups, 1)).None? ||
       NormalizeHour(ParseNat(Group(groups, 1)).value, IsPmOf(groups)) > 23 || MinuteOf(groups) > 59)
    ensures ResetFromGroups(groups, now).Some? ==>
      var h := NormalizeHour(ParseNat(Group(groups, 1)).value, IsPmOf(groups));
      var today := StartOfDay(now) + ResetSecondOfDay(h, MinuteOf(groups));
      && ResetFromGroups(groups, now).value == (if today <= now then today + SecondsPerDay else today)
      && ResetFromGroups(groups, now).value % SecondsPerDay == ResetSecondOfDay(h, MinuteOf(groups))
  {
  }

  /** "resets at 12:30" read by the 24-hour pattern (no meridiem group) yields
      00:30:01, since hour 12 without "pm" becomes 0. */
  lemma TwentyFourHourNoonBecomesMidnight(whole: string, now: Time)
    ensures ResetFromGroups([whole, "12", "30"], now).Some?
    ensures ResetFromGroups([whole, "12", "30"], now).value % SecondsPerDay == 30 * 60 + 1
  {
    assert ParseNat("12") == Some(12) by {
      assert "12"[..1] == "1";
    }
    assert ParseNat("30") == Some(30) by {
      assert "30"[..1] == "3";
    }
    ResetInstant([whole, "12", "30"], now);
  }

  /** "resets at 13:30" read by the 24-hour pattern yields 13:30:01. */
  lemma TwentyFourHourAfternoon(whole: string, now: Time)
    ensures ResetFromGroups([whole, "13", "30"], now).Some?
    ensures ResetFromGroups([whole, "13", "30"], now).value % SecondsPerDay == 13 * 3600 + 30 * 60 + 1
  {
    assert ParseNat("13") == Some(13) by {
      assert "13"[..1] == "1";
    }
    assert ParseNat("30") == Some(30) by {
      assert "30"[..1] == "3";
    }
    ResetInstant([whole, "13", "30"], now);
  }

  /** "resets 1pm" read by the 12-hour pattern with an empty minute group yields
      13:00:01, today before that instant and tomorrow from it on. */
  lemma TwelveHourPm(whole: string, now: Time)
    ensures var today := StartOfDay(now) + 13 * 3600 + 1;
      ResetFromGroups([whole, "1", "", "pm"], now) == Some(if today <= now then today + SecondsPerDay else today)
  {
    assert AsciiLower("pm") == "pm";
    assert ParseNat("1") == Some(1);
    ResetInstant([whole, "1", "", "pm"], now);
  }

  /** The 12-hour pattern without minutes has only two groups, so its meridiem
      lands in the minute slot, fails to parse there and is otherwise ignored:
      "1pm" read by that pattern yields 01:00:01. */
  lemma ShortPatternIgnoresMeridiem(whole: string, now: Time)
    ensures ResetFromGroups([whole, "1", "pm"], now).Some?
    ensures ResetFromGroups([whole, "1", "pm"], now).value % SecondsPerDay == 3600 + 1
  {
    assert ParseNat("pm") == None;
    assert ParseNat("1") == Some(1);
    ResetInstant([whole, "1", "pm"], now);
  }

  /** An out-of-range reading gives no result and hides every later pattern. */
  lemma OutOfRangeStops(whole: string, rest: seq<Option<seq<string>>>, now: Time)
    ensures FirstMatch([Some([whole, "24", "00"])] + rest, now) == None
  {
    assert ParseNat("24") == Some(24) by {
      assert "24"[..1] == "2";
    }
    assert ParseNat("00") == Some(0) by {
      assert "00"[..1] == "0";
    }
    ResetInstant([whole, "24", "00"], now);
  }
}
