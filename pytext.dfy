/** The parts of Python's `str` the handlers rely on: `strip()` with no
    argument, `splitlines()`, `startswith`, `split(":", 1)[1]` and the
    substring test `needle in haystack`. Strings are sequences of Unicode
    scalar values, as Python's `str` is a sequence of code points. */
module PyText {

  /** Python's `str.isspace()` for one character: the characters `strip()`
      removes when it is given no argument. */
  predicate IsSpace(c: char) {
    || ('\t' <= c <= '\r')
    || ('\U{1C}' <= c <= '\U{1F}')
    || c == ' '
    || c == '\U{85}'
    || c == '\U{A0}'
    || c == '\U{1680}'
    || ('\U{2000}' <= c <= '\U{200A}')
    || c == '\U{2028}'
    || c == '\U{2029}'
    || c == '\U{202F}'
    || c == '\U{205F}'
    || c == '\U{3000}'
  }

  /** The line boundaries recognised by Python's `str.splitlines()`
      (`\r\n` is one boundary made of two of them). */
  predicate IsLineBreak(c: char) {
    || c == '\n'
    || c == '\r'
    || c == '\U{B}'
    || c == '\U{C}'
    || ('\U{1C}' <= c <= '\U{1E}')
    || c == '\U{85}'
    || c == '\U{2028}'
    || c == '\U{2029}'
  }

  predicate AllSpace(s: string) {
    forall k | 0 <= k < |s| :: IsSpace(s[k])
  }

  predicate NoLineBreak(s: string) {
    forall k | 0 <= k < |s| :: !IsLineBreak(s[k])
  }

  /** Neither end of `s` is whitespace. */
  predicate IsTrimmed(s: string) {
    s == [] || (!IsSpace(s[0]) && !IsSpace(s[|s| - 1]))
  }

  /** `s.strip()`: drops whitespace from both ends until neither end is
      whitespace. Dropping it from the left first and then from the right,
      as `lstrip` followed by `rstrip` would, gives the same string. */
  function Strip(s: string): (r: string)
    ensures IsTrimmed(r)
    ensures |r| <= |s|
  {
    if s != [] && IsSpace(s[0]) then Strip(s[1..])
    else if s != [] && IsSpace(s[|s| - 1]) then Strip(s[..|s| - 1])
    else s
  }

  /** Where the result of `strip()` lies in `s`. */
  lemma {:induction false} StripBounds(s: string) returns (i: nat, j: nat)
    ensures i <= j <= |s| && Strip(s) == s[i..j]
    ensures forall k | 0 <= k < i :: IsSpace(s[k])
    ensures forall k | j <= k < |s| :: IsSpace(s[k])
  {
    if s != [] && IsSpace(s[0]) {
      var i', j' := StripBounds(s[1..]);
      i, j := i' + 1, j' + 1;
      assert s[1..][i'..j'] == s[i..j];
    } else if s != [] && IsSpace(s[|s| - 1]) {
      i, j := StripBounds(s[..|s| - 1]);
    } else {
      i, j := 0, |s|;
    }
  }

  /** `strip()` removes whitespace and nothing else: its result is a slice
      of `s` with only whitespace on either side of it. */
  lemma StripIsSlice(s: string)
    ensures exists i, j | 0 <= i <= j <= |s| ::
      Strip(s) == s[i..j] && AllSpace(s[..i]) && AllSpace(s[j..])
  {
    var i, j := StripBounds(s);
    assert AllSpace(s[..i]) && AllSpace(s[j..]);
  }

  /** Leading whitespace (indentation) does not change what `strip()` gives. */
  lemma {:induction false} StripIgnoresIndent(indent: string, s: string)
    requires AllSpace(indent)
    ensures Strip(indent + s) == Strip(s)
  {
    if indent != [] {
      assert (indent + s)[0] == indent[0];
      assert (indent + s)[1..] == indent[1..] + s;
      StripIgnoresIndent(indent[1..], s);
    } else {
      assert indent + s == s;
    }
  }

  /** Index of the first line boundary of `s`, or `|s|` when there is none. */
  function LineEnd(s: string): (k: nat)
    ensures k <= |s|
    ensures NoLineBreak(s[..k])
    ensures k < |s| ==> IsLineBreak(s[k])
  {
    if s == [] || IsLineBreak(s[0]) then 0
    else
      var k := 1 + LineEnd(s[1..]);
      assert forall i | 1 <= i < k :: s[..k][i] == s[1..][..k - 1][i - 1];
      k
  }

  /** `s.splitlines()`: the lines of `s` without their boundaries; `\r\n`
      ends a single line, and a boundary at the very end of `s` does not
      start an empty last line. */
  function SplitLines(s: string): (lines: seq<string>)
    ensures |lines| <= |s|
    ensures forall i | 0 <= i < |lines| :: NoLineBreak(lines[i])
    ensures NoLineBreak(s) && s != [] ==> lines == [s]
    decreases |s|
  {
    if s == [] then []
    else
      var k := LineEnd(s);
      if k == |s| then
        assert s[..k] == s;
        [s]
      else
        var width := if s[k] == '\r' && k + 1 < |s| && s[k + 1] == '\n' then 2 else 1;
        [s[..k]] + SplitLines(s[k + width..])
  }

  /** The first boundary of `a + rest` is the one that starts `rest` when
      `a` has none. */
  lemma {:induction false} LineEndAfter(a: string, rest: string)
    requires NoLineBreak(a)
    requires rest != [] && IsLineBreak(rest[0])
    ensures LineEnd(a + rest) == |a|
  {
    if a == [] {
      assert a + rest == rest;
    } else {
      assert (a + rest)[0] == a[0];
      assert (a + rest)[1..] == a[1..] + rest;
      LineEndAfter(a[1..], rest);
    }
  }

  /** `splitlines()` ends a line at a single boundary character (one that
      is not the `\r` of a `\r\n` pair) and goes on after it. */
  lemma SplitLinesAtBreak(a: string, c: char, b: string)
    requires NoLineBreak(a) && IsLineBreak(c)
    requires !(c == '\r' && b != [] && b[0] == '\n')
    ensures SplitLines(a + [c] + b) == [a] + SplitLines(b)
  {
    var s := a + [c] + b;
    assert a + [c] + b == a + ([c] + b);
    LineEndAfter(a, [c] + b);
    assert s[..|a|] == a;
    assert s[|a| + 1..] == b;
  }

  /** `splitlines()` ends a line at a `\r\n` pair as a whole, so no empty
      line appears between the two characters. */
  lemma SplitLinesAtCrLf(a: string, b: string)
    requires NoLineBreak(a)
    ensures SplitLines(a + "\r\n" + b) == [a] + SplitLines(b)
  {
    var rest := "\r\n" + b;
    var s := a + rest;
    assert a + "\r\n" + b == s;
    assert rest[0] == '\r' && rest[1] == '\n' && rest[2..] == b;
    LineEndAfter(a, rest);
    assert s[..|a|] == a;
    assert s[|a|..] == rest;
    assert s[|a| + 2..] == b;
  }

  /** `s.split(":", 1)[1]`: what follows the first colon of `s`. */
  function AfterFirstColon(s: string): (r: string)
    requires ':' in s
    ensures |r| < |s| && r == s[|s| - |r|..]
    ensures s[|s| - |r| - 1] == ':'
    ensures ':' !in s[..|s| - |r| - 1]
  {
    if s[0] == ':' then s[1..]
    else
      var r := AfterFirstColon(s[1..]);
      assert s[..|s| - |r| - 1] == [s[0]] + s[1..][..|s| - 1 - |r| - 1];
      r
  }

  /** On a line that starts with `Type:`, the first colon is the one after
      `Type`, so `split(":", 1)[1]` is everything after that prefix. */
  lemma AfterTypePrefix(s: string)
    requires "Type:" <= s
    ensures ':' in s
    ensures AfterFirstColon(s) == s[5..]
  {
    assert s[..5] == "Type:";
    assert s[4] == ':';
    assert forall i | 0 <= i < 4 :: s[i] != ':';
  }

  /** Python's `needle in haystack` for two strings. */
  predicate Contains(haystack: string, needle: string)
    decreases |haystack|
  {
    needle <= haystack || (haystack != [] && Contains(haystack[1..], needle))
  }

  /** `needle` occurs in `haystack` starting at index `i`. */
  predicate OccursAt(haystack: string, needle: string, i: nat) {
    i + |needle| <= |haystack| && haystack[i..i + |needle|] == needle
  }

  /** `needle in haystack` holds exactly when `needle` occurs somewhere in
      `haystack`. */
  lemma {:induction false} ContainsIffOccurs(haystack: string, needle: string)
    ensures Contains(haystack, needle) <==> exists i: nat :: OccursAt(haystack, needle, i)
    decreases |haystack|
  {
    if needle <= haystack {
      assert haystack[0..|needle|] == needle;
      assert OccursAt(haystack, needle, 0);
    } else if haystack == [] {
      assert |needle| > 0;
    } else {
      ContainsIffOccurs(haystack[1..], needle);
      forall i: nat | OccursAt(haystack[1..], needle, i)
        ensures OccursAt(haystack, needle, i + 1)
      {
        assert haystack[i + 1..i + 1 + |needle|] == haystack[1..][i..i + |needle|];
      }
      forall i: nat | OccursAt(haystack, needle, i)
        ensures Contains(haystack, needle)
      {
        if i == 0 {
          assert haystack[..|needle|] == needle;
        } else {
          assert haystack[1..][i - 1..i - 1 + |needle|] == haystack[i..i + |needle|];
          assert OccursAt(haystack[1..], needle, i - 1);
        }
      }
    }
  }
}
