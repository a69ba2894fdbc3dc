/** `FindClaudeCliWindows` and `SendMessageToManualWindows`: which top-level windows
    count as terminals running the CLI, and the per-window injection of the
    keep-alive message.

    The window enumeration is an input: one record per top-level window in
    enumeration order, carrying what the Win32 queries report for it. */
module WindowLocator {
  import opened Wrappers
  import opened Text

  /** One enumerated top-level window. `processName` is `None` when looking up the
      owning process throws (it already exited); `acceptsInput` says whether the
      restore / foreground / type / Enter sequence would run without throwing. */
  datatype Window = Window(handle: int, visible: bool, hasOwner: bool, title: string,
                           processName: Option<string>, acceptsInput: bool)

  /** Product names a terminal's title may contain, matched case-sensitively. */
  const TitleSignatures: seq<string> := [
    "Command Prompt", "cmd.exe", "Windows PowerShell", "PowerShell", "Windows Terminal",
    "Terminal", "ConEmu", "Cmder", "GitBash", "Git Bash"]

  /** The CLI's own name, matched case-insensitively. */
  const CliName: string := "claude"

  /** Lower-cased names of the shell and terminal processes that may own such a window. */
  const ShellProcesses: seq<string> := [
    "cmd", "powershell", "pwsh", "windowsterminal", "wt", "conemu", "conemu64",
    "cmder", "mintty", "bash", "git-bash"]

  /** Some entry of `needles` occurs in `s` (the `Any(...Contains...)` of the filter). */
  predicate ContainsAny(s: string, needles: seq<string>) {
    needles != [] && (Contains(s, needles[0]) || ContainsAny(s, needles[1..]))
  }

  lemma {:induction false} ContainsAnyIff(s: string, needles: seq<string>)
    ensures ContainsAny(s, needles) <==> exists k :: 0 <= k < |needles| && Contains(s, needles[k])
  {
    if needles != [] {
      ContainsAnyIff(s, needles[1..]);
      if exists k :: 0 <= k < |needles| && Contains(s, needles[k]) {
        var k :| 0 <= k < |needles| && Contains(s, needles[k]);
        if k > 0 {
          assert needles[1..][k - 1] == needles[k];
        }
      }
    }
  }

  /** `name` is one of `names` (the list lookup of the filter). */
  predicate OneOf(name: string, names: seq<string>) {
    names != [] && (name == names[0] || OneOf(name, names[1..]))
  }

  lemma {:induction false} OneOfIff(name: string, names: seq<string>)
    ensures OneOf(name, names) <==> name in names
  {
    if names != [] {
      OneOfIff(name, names[1..]);
      assert names == [names[0]] + names[1..];
    }
  }

  predicate TitleMatches(title: string) {
    ContainsAny(title, TitleSignatures) || ContainsIgnoreCase(title, CliName)
  }

  /** The filter the enumeration callback applies to one window. */
  predicate Qualifies(w: Window) {
    && w.visible
    && !w.hasOwner
    && |w.title| > 0
    && TitleMatches(w.title)
    && w.processName.Some?
    && OneOf(AsciiLower(w.processName.value), ShellProcesses)
  }

  /** The filter in plain terms: a visible, unowned window with a non-empty title
      holding one of the signatures (or the CLI's name in any case), whose owning
      process resolves to a lower-cased name in the allow-list. */
  lemma QualifiesIff(w: Window)
    ensures Qualifies(w) <==>
      && w.visible
      && !w.hasOwner
      && |w.title| > 0
      && ((exists k :: 0 <= k < |TitleSignatures| && Contains(w.title, TitleSignatures[k]))
          || ContainsIgnoreCase(w.title, CliName))
      && w.processName.Some?
      && AsciiLower(w.processName.value) in ShellProcesses
  {
    ContainsAnyIff(w.title, TitleSignatures);
    if w.processName.Some? {
      OneOfIff(AsciiLower(w.processName.value), ShellProcesses);
    }
  }

  /** An owned window is never taken, whatever its title and process. */
  lemma OwnedNeverQualifies(w: Window)
    requires w.hasOwner
    ensures !Qualifies(w)
  {
  }

  /** The qualifying windows of an enumeration, in enumeration order. */
  function Qualifying(scan: seq<Window>): (found: seq<Window>)
    ensures |found| <= |scan|
  {
    if scan == [] then []
    else if Qualifies(scan[0]) then [scan[0]] + Qualifying(scan[1..])
    else Qualifying(scan[1..])
  }

  /** Discovery is sound and complete: it finds qualifying windows of the scan,
      and every one of them. */
  lemma {:induction false} QualifyingExactly(scan: seq<Window>)
    ensures forall i :: 0 <= i < |Qualifying(scan)| ==> Qualifies(Qualifying(scan)[i]) && Qualifying(scan)[i] in scan
    ensures forall i :: 0 <= i < |scan| && Qualifies(scan[i]) ==> scan[i] in Qualifying(scan)
  {
    if scan != [] {
      QualifyingExactly(scan[1..]);
      var rest := Qualifying(scan[1..]);
      forall i | 0 <= i < |scan| && Qualifies(scan[i])
        ensures scan[i] in Qualifying(scan)
      {
        if i > 0 {
          assert scan[1..][i - 1] == scan[i];
        }
      }
      forall i | 0 <= i < |Qualifying(scan)|
        ensures Qualifies(Qualifying(scan)[i]) && Qualifying(scan)[i] in scan
      {
        if Qualifies(scan[0]) && i > 0 {
          assert Qualifying(scan)[i] == rest[i - 1];
        }
      }
    }
  }

  /** `a` is `b` with some elements left out, order kept. */
  predicate IsSubsequence<T(==)>(a: seq<T>, b: seq<T>)
    decreases |b|
  {
    a == [] || (b != [] && ((a[0] == b[0] && IsSubsequence(a[1..], b[1..])) || IsSubsequence(a, b[1..])))
  }

  /** Discovery keeps enumeration order: its result is a subsequence of the scan. */
  lemma {:induction false} QualifyingIsSubsequence(scan: seq<Window>)
    ensures IsSubsequence(Qualifying(scan), scan)
  {
    if scan != [] {
      QualifyingIsSubsequence(scan[1..]);
    }
  }

  lemma {:induction false} QualifyingAppend(scan: seq<Window>, w: Window)
    ensures Qualifying(scan + [w]) == Qualifying(scan) + (if Qualifies(w) then [w] else [])
  {
    if scan != [] {
      assert (scan + [w])[1..] == scan[1..] + [w];
      QualifyingAppend(scan[1..], w);
    } else {
      assert [w][1..] == [];
    }
  }

  /** `FindClaudeCliWindows`: the enumeration callback appends each qualifying
      window to the result list. */
  method FindClaudeCliWindows(scan: seq<Window>) returns (found: seq<Window>)
    ensures found == Qualifying(scan)
  {
    found := [];
    var i := 0;
    while i < |scan|
      invariant 0 <= i <= |scan|
      invariant found == Qualifying(scan[..i])
    {
      assert scan[..i + 1] == scan[..i] + [scan[i]];
      QualifyingAppend(scan[..i], scan[i]);
      if Qualifies(scan[i]) {
        found := found + [scan[i]];
      }
      i := i + 1;
    }
    assert scan[..i] == scan;
  }

  /** One injection attempt: the message typed into a window, and whether the
      sequence ran to the end without an exception. */
  datatype Injection = Injection(handle: int, text: string, completed: bool)

  function InjectionInto(w: Window, message: string): Injection {
    Injection(w.handle, message, w.acceptsInput)
  }

  /** One injection per window, in order. */
  function InjectionsInto(ws: seq<Window>, message: string): (r: seq<Injection>)
    ensures |r| == |ws|
    ensures forall i :: 0 <= i < |ws| ==> r[i] == InjectionInto(ws[i], message)
  {
    if ws == [] then [] else [InjectionInto(ws[0], message)] + InjectionsInto(ws[1..], message)
  }

  /** The number of windows whose injection completes (`successCount`). */
  function CountAccepted(ws: seq<Window>): nat {
    if ws == [] then 0 else (if ws[0].acceptsInput then 1 else 0) + CountAccepted(ws[1..])
  }

  lemma {:induction false} CountAcceptedPositive(ws: seq<Window>)
    ensures CountAccepted(ws) > 0 <==> exists i :: 0 <= i < |ws| && ws[i].acceptsInput
  {
    if ws != [] {
      CountAcceptedPositive(ws[1..]);
      if !ws[0].acceptsInput && exists i :: 0 <= i < |ws| && ws[i].acceptsInput {
        var i :| 0 <= i < |ws| && ws[i].acceptsInput;
        assert ws[1..][i - 1].acceptsInput;
      }
    }
  }

  lemma {:induction false} CountAcceptedAppend(ws: seq<Window>, w: Window)
    ensures CountAccepted(ws + [w]) == CountAccepted(ws) + (if w.acceptsInput then 1 else 0)
  {
    if ws != [] {
      assert (ws + [w])[1..] == ws[1..] + [w];
      CountAcceptedAppend(ws[1..], w);
    } else {
      assert [w][1..] == [];
    }
  }

  /** The send attempt's outcome for one enumeration: some discovered window took
      the message. */
  predicate Delivered(scan: seq<Window>) {
    CountAccepted(Qualifying(scan)) > 0
  }

  /** A send that succeeds reached a qualifying window that accepted input. */
  lemma DeliveredWitness(scan: seq<Window>) returns (i: nat)
    requires Delivered(scan)
    ensures i < |scan| && Qualifies(scan[i]) && scan[i].acceptsInput
  {
    var found := Qualifying(scan);
    QualifyingExactly(scan);
    CountAcceptedPositive(found);
    var k :| 0 <= k < |found| && found[k].acceptsInput;
    assert found[k] in scan;
    i :| 0 <= i < |scan| && scan[i] == found[k];
  }

  /** A qualifying window that accepts input makes the send succeed. */
  lemma DeliveredFrom(scan: seq<Window>, i: nat)
    requires i < |scan| && Qualifies(scan[i]) && scan[i].acceptsInput
    ensures Delivered(scan)
  {
    var found := Qualifying(scan);
    QualifyingExactly(scan);
    assert scan[i] in found;
    var k :| 0 <= k < |found| && found[k] == scan[i];
    CountAcceptedPositive(found);
  }

  /** A send succeeds exactly when some window of the scan qualifies and accepts
      the injection; with no qualifying window it fails. */
  lemma DeliveredIff(scan: seq<Window>)
    ensures Delivered(scan) <==> exists i :: 0 <= i < |scan| && Qualifies(scan[i]) && scan[i].acceptsInput
    ensures Qualifying(scan) == [] ==> !Delivered(scan)
  {
    if Delivered(scan) {
      var i := DeliveredWitness(scan);
    }
    if exists i :: 0 <= i < |scan| && Qualifies(scan[i]) && scan[i].acceptsInput {
      var i :| 0 <= i < |scan| && Qualifies(scan[i]) && scan[i].acceptsInput;
      DeliveredFrom(scan, i);
    }
  }

  /** The loop of `SendMessageToManualWindows`: every window is tried in turn,
      and `successCount` counts those whose injection completed. */
  method InjectAll(windows: seq<Window>, message: string)
    returns (successCount: nat, sent: seq<Injection>)
    ensures successCount == CountAccepted(windows)
    ensures |sent| == |windows|
    ensures forall k :: 0 <= k < |sent| ==> sent[k] == InjectionInto(windows[k], message)
  {
    successCount := 0;
    sent := [];
    var i := 0;
    while i < |windows|
      invariant 0 <= i <= |windows|
      invariant successCount == CountAccepted(windows[..i])
      invariant |sent| == i
      invariant forall k :: 0 <= k < i ==> sent[k] == InjectionInto(windows[k], message)
    {
      assert windows[..i + 1] == windows[..i] + [windows[i]];
      CountAcceptedAppend(windows[..i], windows[i]);
      sent := sent + [InjectionInto(windows[i], message)];
      if windows[i].acceptsInput {
        successCount := successCount + 1;
      }
      i := i + 1;
    }
    assert windows[..i] == windows;
  }

  /** `SendMessageToManualWindows`: discover, then inject into every discovered
      window in turn; a window that fails does not stop the others. The result is
      false for no windows and otherwise true exactly when some injection
      completed. `sent` lists the injections dispatched, in order. */
  method SendMessageToManualWindows(scan: seq<Window>, message: string)
    returns (success: bool, sent: seq<Injection>)
    ensures success == Delivered(scan)
    ensures |sent| == |Qualifying(scan)|
    ensures forall i :: 0 <= i < |sent| ==> sent[i] == InjectionInto(Qualifying(scan)[i], message)
    ensures sent == InjectionsInto(Qualifying(scan), message)
  {
    var windows := FindClaudeCliWindows(scan);
    if |windows| == 0 {
      return false, [];
    }
    var successCount;
    successCount, sent := InjectAll(windows, message);
    success := successCount > 0;
  }
}
