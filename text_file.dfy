/** The line layer of `File.WriteAllLines` / `File.ReadAllLines`: writing puts
    "\r\n" after every line; reading splits at "\r\n", "\n" or a lone "\r", and
    a final terminator does not start an extra line. */
module TextFile {
  import opened Text

  /** Index of the first line terminator in `s`, or `|s|` when there is none. */
  function LineEnd(s: string): (k: nat)
    ensures k <= |s|
  {
    if s == [] || IsLineBreak(s[0]) then 0 else 1 + LineEnd(s[1..])
  }

  /** `File.ReadAllLines` on the file's text. */
  function ReadAllLines(s: string): seq<string>
    decreases |s|
  {
    if s == [] then []
    else
      var k := LineEnd(s);
      if k == |s| then [s]
      else
        var skip := if s[k] == '\r' && k + 1 < |s| && s[k + 1] == '\n' then 2 else 1;
        [s[..k]] + ReadAllLines(s[k + skip..])
  }

  /** `File.WriteAllLines`: the file's text for `lines`. */
  function WriteAllLines(lines: seq<string>): string {
    if lines == [] then "" else lines[0] + "\r\n" + WriteAllLines(lines[1..])
  }

  lemma {:induction false} LineEndAt(line: string, rest: string)
    requires NoLineBreaks(line) && rest != [] && IsLineBreak(rest[0])
    ensures LineEnd(line + rest) == |line|
    decreases |line|
  {
    if line != [] {
      assert (line + rest)[1..] == line[1..] + rest;
      LineEndAt(line[1..], rest);
    }
  }

  lemma LineEndOfWritten(line: string, rest: string)
    requires NoLineBreaks(line)
    ensures LineEnd(line + "\r\n" + rest) == |line|
  {
    assert line + "\r\n" + rest == line + ("\r\n" + rest);
    LineEndAt(line, "\r\n" + rest);
  }

  /** A line without breaks, written and read back, comes back first. */
  lemma ReadWriteCons(line: string, rest: seq<string>)
    requires NoLineBreaks(line)
    ensures ReadAllLines(WriteAllLines([line] + rest)) == [line] + ReadAllLines(WriteAllLines(rest))
  {
    var tail := WriteAllLines(rest);
    assert ([line] + rest)[1..] == rest;
    var s := WriteAllLines([line] + rest);
    assert s == line + "\r\n" + tail;
    LineEndOfWritten(line, tail);
    var k := |line|;
    assert s[k] == '\r' && s[k + 1] == '\n';
    assert s[..k] == line;
    assert s[k + 2..] == tail;
  }

  /** Reading back what was written gives the same lines, provided no line holds a
      line break of its own. */
  lemma {:induction false} ReadWriteRoundTrip(lines: seq<string>)
    requires forall i :: 0 <= i < |lines| ==> NoLineBreaks(lines[i])
    ensures ReadAllLines(WriteAllLines(lines)) == lines
  {
    if lines != [] {
      assert lines == [lines[0]] + lines[1..];
      ReadWriteCons(lines[0], lines[1..]);
      ReadWriteRoundTrip(lines[1..]);
    }
  }

  /** A line ended by a bare "\n" is read as one line, the rest after it. */
  lemma ReadLineFeed(line: string, tail: string)
    requires NoLineBreaks(line)
    ensures ReadAllLines(line + "\n" + tail) == [line] + ReadAllLines(tail)
  {
    var s := line + "\n" + tail;
    assert s == line + ("\n" + tail);
    LineEndAt(line, "\n" + tail);
    assert s[|line|] == '\n';
    assert s[..|line|] == line;
    assert s[|line| + 1..] == tail;
  }

  /** A line that holds a "\n" comes back as two lines. */
  lemma EmbeddedBreakSplitsLine(a: string, b: string, rest: seq<string>)
    requires NoLineBreaks(a) && NoLineBreaks(b)
    ensures ReadAllLines(WriteAllLines([a + "\n" + b] + rest)) == [a, b] + ReadAllLines(WriteAllLines(rest))
  {
    var tail := WriteAllLines([b] + rest);
    assert ([b] + rest)[1..] == rest;
    assert ([a + "\n" + b] + rest)[1..] == rest;
    assert WriteAllLines([a + "\n" + b] + rest) == a + "\n" + tail;
    ReadLineFeed(a, tail);
    ReadWriteCons(b, rest);
  }
}
