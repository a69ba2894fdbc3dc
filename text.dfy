/** Character and string helpers with the .NET semantics the controller relies on:
    ordinal substring search, ASCII case folding, `String.Trim`, and decimal text
    for integers. */
module Text {
  import opened Wrappers

  /** ASCII lower-casing of one character; other characters are left as they are. */
  function LowerChar(c: char): char {
    if 'A' <= c <= 'Z' then (c as int + 32) as char else c
  }

  function AsciiLower(s: string): (r: string)
    ensures |r| == |s|
    ensures forall i :: 0 <= i < |s| ==> r[i] == LowerChar(s[i])
  {
    if s == [] then [] else [LowerChar(s[0])] + AsciiLower(s[1..])
  }

  /** Ordinal comparison ignoring ASCII case. */
  predicate EqualsIgnoreCase(a: string, b: string) {
    |a| == |b| && forall i :: 0 <= i < |a| ==> LowerChar(a[i]) == LowerChar(b[i])
  }

  predicate IsPrefix(p: string, s: string) {
    |p| <= |s| && s[..|p|] == p
  }

  /** Ordinal `String.Contains`: `sub` occurs in `s` at some position. */
  predicate Contains(s: string, sub: string)
    decreases |s|
  {
    IsPrefix(sub, s) || (s != [] && Contains(s[1..], sub))
  }

  /** `String.Contains(sub, StringComparison.OrdinalIgnoreCase)` for an ASCII `sub`. */
  predicate ContainsIgnoreCase(s: string, sub: string) {
    Contains(AsciiLower(s), AsciiLower(sub))
  }

  lemma {:induction false} ContainsAt(s: string, sub: string, k: nat)
    requires k + |sub| <= |s| && s[k..k + |sub|] == sub
    ensures Contains(s, sub)
    decreases k
  {
    if k > 0 {
      assert s[1..][k - 1..k - 1 + |sub|] == sub;
      ContainsAt(s[1..], sub, k - 1);
    }
  }

  /** The converse: `Contains` holds only where `sub` occurs at some position. */
  lemma {:induction false} ContainsOccurs(s: string, sub: string) returns (k: nat)
    requires Contains(s, sub)
    ensures k + |sub| <= |s| && s[k..k + |sub|] == sub
    decreases |s|
  {
    if IsPrefix(sub, s) {
      k := 0;
    } else {
      var k' := ContainsOccurs(s[1..], sub);
      assert s[1..][k'..k' + |sub|] == s[k' + 1..k' + 1 + |sub|];
      k := k' + 1;
    }
  }

  /** `sub` occurs in `s` at position `k`. */
  predicate OccursAt(s: string, sub: string, k: nat) {
    k + |sub| <= |s| && s[k..k + |sub|] == sub
  }

  /** Ordinal `String.Contains` holds exactly when `sub` occurs at some position. */
  lemma ContainsIff(s: string, sub: string)
    ensures Contains(s, sub) <==> exists k: nat :: OccursAt(s, sub, k)
  {
    if Contains(s, sub) {
      var k := ContainsOccurs(s, sub);
      assert OccursAt(s, sub, k);
    }
    if exists k: nat :: OccursAt(s, sub, k) {
      var k: nat :| OccursAt(s, sub, k);
      ContainsAt(s, sub, k);
    }
  }

  /** `char.IsWhiteSpace`: the Unicode separators and the control characters 9-13, 0x85. */
  predicate IsWhiteSpace(c: char) {
    c == ' ' || ('\t' <= c <= '\r') || c == '\U{85}' || c == '\U{A0}' || c == '\U{1680}'
    || ('\U{2000}' <= c <= '\U{200A}') || c == '\U{2028}' || c == '\U{2029}' || c == '\U{202F}'
    || c == '\U{205F}' || c == '\U{3000}'
  }

  predicate IsLineBreak(c: char) {
    c == '\n' || c == '\r'
  }

  predicate NoLineBreaks(s: string) {
    forall i :: 0 <= i < |s| ==> !IsLineBreak(s[i])
  }

  /** The characters a trim removes: white space, and NUL too when `andNul`. */
  predicate Strippable(c: char, andNul: bool) {
    IsWhiteSpace(c) || (andNul && c == '\0')
  }

  function TrimStart(s: string, andNul: bool): (r: string)
    ensures |r| <= |s|
    ensures r != [] ==> !Strippable(r[0], andNul)
  {
    if s != [] && Strippable(s[0], andNul) then TrimStart(s[1..], andNul) else s
  }

  function TrimEnd(s: string, andNul: bool): (r: string)
    ensures |r| <= |s|
    ensures r != [] ==> !Strippable(r[|r| - 1], andNul)
  {
    if s != [] && Strippable(s[|s| - 1], andNul) then TrimEnd(s[..|s| - 1], andNul) else s
  }

  /** Trimming the start keeps a suffix. */
  lemma {:induction false} TrimStartSuffix(s: string, andNul: bool)
    ensures TrimStart(s, andNul) == s[|s| - |TrimStart(s, andNul)|..]
  {
    if s != [] && Strippable(s[0], andNul) {
      TrimStartSuffix(s[1..], andNul);
    }
  }

  /** Trimming the end keeps a prefix. */
  lemma {:induction false} TrimEndPrefix(s: string, andNul: bool)
    ensures TrimEnd(s, andNul) == s[..|TrimEnd(s, andNul)|]
  {
    if s != [] && Strippable(s[|s| - 1], andNul) {
      TrimEndPrefix(s[..|s| - 1], andNul);
    }
  }

  /** Every character a start trim drops is strippable. */
  lemma {:induction false} TrimStartDropsStrippable(s: string, andNul: bool)
    ensures forall k :: 0 <= k < |s| - |TrimStart(s, andNul)| ==> Strippable(s[k], andNul)
  {
    if s != [] && Strippable(s[0], andNul) {
      TrimStartDropsStrippable(s[1..], andNul);
      forall k | 0 < k < |s| - |TrimStart(s, andNul)|
        ensures Strippable(s[k], andNul)
      {
        assert s[k] == s[1..][k - 1];
      }
    }
  }

  /** Every character an end trim drops is strippable. */
  lemma {:induction false} TrimEndDropsStrippable(s: string, andNul: bool)
    ensures forall k :: |TrimEnd(s, andNul)| <= k < |s| ==> Strippable(s[k], andNul)
  {
    if s != [] && Strippable(s[|s| - 1], andNul) {
      TrimEndDropsStrippable(s[..|s| - 1], andNul);
      forall k | |TrimEnd(s, andNul)| <= k < |s| - 1
        ensures Strippable(s[k], andNul)
      {
        assert s[k] == s[..|s| - 1][k];
      }
    }
  }

  /** A start trim skips a strippable prefix and stops at a kept character. */
  lemma {:induction false} TrimStartSkips(pre: string, rest: string, andNul: bool)
    requires forall k :: 0 <= k < |pre| ==> Strippable(pre[k], andNul)
    requires rest != [] && !Strippable(rest[0], andNul)
    ensures TrimStart(pre + rest, andNul) == rest
  {
    if pre != [] {
      assert (pre + rest)[1..] == pre[1..] + rest;
      TrimStartSkips(pre[1..], rest, andNul);
    } else {
      assert pre + rest == rest;
    }
  }

  /** An end trim skips a strippable suffix and stops at a kept character. */
  lemma {:induction false} TrimEndSkips(rest: string, post: string, andNul: bool)
    requires forall k :: 0 <= k < |post| ==> Strippable(post[k], andNul)
    requires rest != [] && !Strippable(rest[|rest| - 1], andNul)
    ensures TrimEnd(rest + post, andNul) == rest
  {
    if post != [] {
      assert (rest + post)[..|rest + post| - 1] == rest + post[..|post| - 1];
      TrimEndSkips(rest, post[..|post| - 1], andNul);
    } else {
      assert rest + post == rest;
    }
  }

  /** `String.Trim()`: leading and trailing white space removed. */
  function Trim(s: string): (r: string)
    ensures r != [] ==> !IsWhiteSpace(r[0]) && !IsWhiteSpace(r[|r| - 1])
  {
    var t := TrimStart(s, false);
    TrimEndPrefix(t, false);
    TrimEnd(t, false)
  }

  /** `Trim` keeps the infix `s[i..j]` and removes only white space: every
      character before `i` and from `j` on is white space, and a non-empty result
      starts and ends with a character that is not. */
  lemma TrimIsInfix(s: string) returns (i: nat, j: nat)
    ensures i <= j <= |s| && Trim(s) == s[i..j]
    ensures forall k :: 0 <= k < i ==> IsWhiteSpace(s[k])
    ensures forall k :: j <= k < |s| ==> IsWhiteSpace(s[k])
    ensures i < j ==> !IsWhiteSpace(s[i]) && !IsWhiteSpace(s[j - 1])
  {
    var t := TrimStart(s, false);
    TrimStartSuffix(s, false);
    TrimStartDropsStrippable(s, false);
    TrimEndPrefix(t, false);
    TrimEndDropsStrippable(t, false);
    var r := TrimEnd(t, false);
    i := |s| - |t|;
    j := i + |r|;
    assert t == s[i..];
    assert r == t[..|r|];
    assert r == s[i..j];
    forall k | j <= k < |s|
      ensures IsWhiteSpace(s[k])
    {
      assert s[k] == t[k - i];
    }
  }

  /** A trim of a string that starts and ends with a kept character removes nothing. */
  lemma TrimNoop(s: string, andNul: bool)
    requires s != [] ==> !Strippable(s[0], andNul) && !Strippable(s[|s| - 1], andNul)
    ensures TrimStart(s, andNul) == s && TrimEnd(s, andNul) == s
  {
  }

  /** A string that starts and ends with a non-white character is its own trim. */
  lemma TrimOfTrimmed(s: string)
    requires s != [] ==> !IsWhiteSpace(s[0]) && !IsWhiteSpace(s[|s| - 1])
    ensures Trim(s) == s
  {
  }

  // ---- decimal text of integers ----

  predicate IsDigit(c: char) {
    '0' <= c <= '9'
  }

  function DigitChar(d: nat): (c: char)
    requires d < 10
    ensures IsDigit(c)
  {
    ('0' as int + d) as char
  }

  function DigitValue(c: char): (d: nat)
    requires IsDigit(c)
    ensures d < 10 && DigitChar(d) == c
  {
    c as int - '0' as int
  }

  /** Shortest decimal digits of `n`. */
  function NatToString(n: nat): (s: string)
    ensures s != [] && forall i :: 0 <= i < |s| ==> IsDigit(s[i])
  {
    if n < 10 then [DigitChar(n)] else NatToString(n / 10) + [DigitChar(n % 10)]
  }

  /** Parse a non-empty string made only of ASCII digits. */
  function ParseNat(s: string): (r: Option<nat>)
    ensures r.Some? <==> s != [] && forall i :: 0 <= i < |s| ==> IsDigit(s[i])
  {
    if s == [] then None
    else if !IsDigit(s[|s| - 1]) then None
    else if |s| == 1 then Some(DigitValue(s[0]))
    else match ParseNat(s[..|s| - 1])
      case None => None
      case Some(v) => Some(v * 10 + DigitValue(s[|s| - 1]))
  }

  lemma {:induction false} ParseNatToString(n: nat)
    ensures ParseNat(NatToString(n)) == Some(n)
  {
    if n >= 10 {
      var s := NatToString(n);
      assert s[..|s| - 1] == NatToString(n / 10);
      ParseNatToString(n / 10);
    }
  }

  /** Decimal text of an integer with a leading '-' when negative. */
  function IntToString(i: int): (s: string)
    ensures s != [] && NoLineBreaks(s)
    ensures forall k :: 0 < k < |s| ==> IsDigit(s[k])
  {
    if i < 0 then "-" + NatToString(-i) else NatToString(i)
  }

  function ParseInt(s: string): Option<int> {
    if s != [] && s[0] == '-' then
      match ParseNat(s[1..])
      case None => None
      case Some(v) => Some(-(v as int))
    else match ParseNat(s)
      case None => None
      case Some(v) => Some(v)
  }

  lemma {:induction false} IntToStringRoundTrip(i: int)
    ensures ParseInt(IntToString(i)) == Some(i)
  {
    if i < 0 {
      var t := NatToString(-i);
      assert IntToString(i) == "-" + t;
      assert ("-" + t)[1..] == t;
      ParseNatToString(-i);
      assert ParseNat(t) == Some(-i);
    } else {
      var t := NatToString(i);
      assert IntToString(i) == t && IsDigit(t[0]);
      ParseNatToString(i);
    }
  }

  /** Two-digit zero-padded text of `n < 100` (the "HH", "mm" and "ss" of a time format). */
  function TwoDigits(n: nat): (s: string)
    requires n < 100
    ensures |s| == 2 && ParseNat(s) == Some(n)
  {
    [DigitChar(n / 10), DigitChar(n % 10)]
  }
}
