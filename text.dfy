/**
 * The parts of Python's `str` that the notifier relies on, as functions over `seq<char>`:
 * `isspace`, `strip`, `splitlines`, `lower` (on ASCII letters), `in`, `find`,
 * `split(c, 1)`, `replace(pat, "")` and `sep.join`.
 */
module Text {
  import opened Wrappers

  /** Python's `str.isspace()` for a single character. */
  predicate IsSpace(c: char) {
    c == ' ' || ('\t' <= c <= '\r') || ('\U{1C}' <= c <= '\U{1F}')
    || c == '\U{85}' || c == '\U{A0}' || c == '\U{1680}'
    || ('\U{2000}' <= c <= '\U{200A}') || c == '\U{2028}' || c == '\U{2029}'
    || c == '\U{202F}' || c == '\U{205F}' || c == '\U{3000}'
  }

  /** The characters at which `str.splitlines()` ends a line. */
  predicate IsLineBreak(c: char) {
    ('\n' <= c <= '\r') || ('\U{1C}' <= c <= '\U{1E}')
    || c == '\U{85}' || c == '\U{2028}' || c == '\U{2029}'
  }

  predicate AllSpace(s: string) {
    forall k :: 0 <= k < |s| ==> IsSpace(s[k])
  }

  predicate NoLineBreak(s: string) {
    forall k :: 0 <= k < |s| ==> !IsLineBreak(s[k])
  }

  /** A string that `strip()` leaves alone. */
  predicate IsStripped(s: string) {
    s == [] || (!IsSpace(s[0]) && !IsSpace(s[|s| - 1]))
  }

  /** The number of whitespace characters `lstrip()` removes. */
  function LeadingSpace(s: string): (n: nat)
    ensures n <= |s|
  {
    if s != [] && IsSpace(s[0]) then 1 + LeadingSpace(s[1..]) else 0
  }

  /** `LeadingSpace` counts exactly the whitespace run at the start. */
  lemma {:induction false} LeadingSpaceRun(s: string)
    ensures forall k :: 0 <= k < LeadingSpace(s) ==> IsSpace(s[k])
    ensures LeadingSpace(s) < |s| ==> !IsSpace(s[LeadingSpace(s)])
  {
    if s != [] && IsSpace(s[0]) {
      LeadingSpaceRun(s[1..]);
      assert forall k :: 1 <= k < LeadingSpace(s) ==> s[k] == s[1..][k - 1];
    }
  }

  /** The number of whitespace characters `rstrip()` removes. */
  function TrailingSpace(s: string): (n: nat)
    ensures n <= |s|
  {
    if s != [] && IsSpace(s[|s| - 1]) then 1 + TrailingSpace(s[..|s| - 1]) else 0
  }

  /** `TrailingSpace` counts exactly the whitespace run at the end. */
  lemma {:induction false} TrailingSpaceRun(s: string)
    ensures forall k :: |s| - TrailingSpace(s) <= k < |s| ==> IsSpace(s[k])
    ensures TrailingSpace(s) < |s| ==> !IsSpace(s[|s| - 1 - TrailingSpace(s)])
  {
    if s != [] && IsSpace(s[|s| - 1]) {
      TrailingSpaceRun(s[..|s| - 1]);
    }
  }

  /** Python's `s.strip()`: the infix left after removing leading and trailing whitespace. */
  function Strip(s: string): (r: string)
    ensures |r| <= |s|
  {
    var t := s[LeadingSpace(s)..];
    t[..|t| - TrailingSpace(t)]
  }

  /** `strip()` leaves no whitespace at either end. */
  lemma StripStripped(s: string)
    ensures IsStripped(Strip(s))
  {
    var n := LeadingSpace(s);
    var t := s[n..];
    var m := TrailingSpace(t);
    var r := t[..|t| - m];
    LeadingSpaceRun(s);
    TrailingSpaceRun(t);
    if r != [] {
      assert r[0] == t[0] == s[n];
      assert r[|r| - 1] == t[|t| - 1 - m];
    }
  }

  lemma StripSlice(s: string)
    ensures LeadingSpace(s) + |Strip(s)| <= |s|
    ensures Strip(s) == s[LeadingSpace(s)..LeadingSpace(s) + |Strip(s)|]
  {
  }

  lemma StripSpaceBefore(s: string)
    ensures AllSpace(s[..LeadingSpace(s)])
  {
    LeadingSpaceRun(s);
  }

  lemma StripSpaceAfter(s: string)
    ensures LeadingSpace(s) + |Strip(s)| <= |s|
    ensures AllSpace(s[LeadingSpace(s) + |Strip(s)|..])
  {
    var n := LeadingSpace(s);
    var t := s[n..];
    var m := TrailingSpace(t);
    TrailingSpaceRun(t);
    assert s[n + |Strip(s)|..] == t[|t| - m..];
  }

  /** `strip()` keeps an infix of `s` and removes only whitespace around it. */
  lemma StripInfix(s: string)
    ensures IsStripped(Strip(s))
    ensures LeadingSpace(s) + |Strip(s)| <= |s|
    ensures Strip(s) == s[LeadingSpace(s)..LeadingSpace(s) + |Strip(s)|]
    ensures AllSpace(s[..LeadingSpace(s)]) && AllSpace(s[LeadingSpace(s) + |Strip(s)|..])
  {
    StripStripped(s);
    StripSlice(s);
    StripSpaceBefore(s);
    StripSpaceAfter(s);
  }

  /** Whitespace around a stripped core is exactly what `strip()` removes. */
  lemma StripFrame(a: string, c: string, b: string)
    requires AllSpace(a) && AllSpace(b) && IsStripped(c)
    ensures Strip(a + c + b) == c
  {
    var s := a + c + b;
    var n := LeadingSpace(s);
    LeadingSpaceRun(s);
    if c == [] {
      assert AllSpace(s);
      assert n == |s|;
    } else {
      assert s[|a|] == c[0];
      assert n == |a|;
      var t := s[n..];
      assert t == c + b;
      var m := TrailingSpace(t);
      TrailingSpaceRun(t);
      assert t[|t| - 1 - |b|] == c[|c| - 1];
      assert m == |b|;
      assert t[..|t| - m] == c;
    }
  }

  lemma StripIdentity(s: string)
    requires IsStripped(s)
    ensures Strip(s) == s
  {
    StripFrame([], s, []);
    assert [] + s + [] == s;
  }

  lemma StripEmptyIff(s: string)
    ensures Strip(s) == [] <==> AllSpace(s)
  {
    StripInfix(s);
  }

  /** `strip()` leaves a stripped string, free of line breaks and of `c` when `s` is. */
  lemma StripKeeps(s: string, c: char)
    ensures IsStripped(Strip(s))
    ensures NoLineBreak(s) ==> NoLineBreak(Strip(s))
    ensures c !in s ==> c !in Strip(s)
  {
    StripInfix(s);
    var n := LeadingSpace(s);
    var r := Strip(s);
    assert forall k :: 0 <= k < |r| ==> r[k] == s[n + k];
  }

  /** A concatenation is free of line breaks exactly when both halves are. */
  lemma NoLineBreakConcat(a: string, b: string)
    ensures NoLineBreak(a + b) <==> NoLineBreak(a) && NoLineBreak(b)
  {
    assert forall k :: 0 <= k < |b| ==> b[k] == (a + b)[|a| + k];
    assert forall k :: 0 <= k < |a + b| ==> (a + b)[k] == if k < |a| then a[k] else b[k - |a|];
  }

  /** The index at which the first line of `s` ends. */
  function LineEnd(s: string): (i: nat)
    ensures i <= |s|
    ensures forall k :: 0 <= k < i ==> !IsLineBreak(s[k])
    ensures i < |s| ==> IsLineBreak(s[i])
  {
    if s == [] || IsLineBreak(s[0]) then 0 else 1 + LineEnd(s[1..])
  }

  /** "\r\n" is one line boundary; every other break character is one on its own. */
  function BreakWidth(s: string, i: nat): (w: nat)
    requires i < |s|
    ensures 1 <= w && i + w <= |s|
  {
    if s[i] == '\r' && i + 1 < |s| && s[i + 1] == '\n' then 2 else 1
  }

  /** Python's `s.splitlines()`: no trailing empty line, and "" gives []. */
  function SplitLines(s: string): (lines: seq<string>)
    ensures forall l :: l in lines ==> NoLineBreak(l)
    ensures lines == [] <==> s == []
    decreases |s|
  {
    if s == [] then []
    else
      var i := LineEnd(s);
      if i == |s| then [s]
      else [s[..i]] + SplitLines(s[i + BreakWidth(s, i)..])
  }

  /** Python's `sep.join(parts)`. */
  function Join(parts: seq<string>, sep: string): string
  {
    if parts == [] then []
    else if |parts| == 1 then parts[0]
    else parts[0] + sep + Join(parts[1..], sep)
  }

  /** Lines without break characters survive a join on "\n" and a `splitlines()`. */
  lemma {:induction false} SplitLinesOfJoin(lines: seq<string>)
    requires forall i :: 0 <= i < |lines| ==> lines[i] != [] && NoLineBreak(lines[i])
    ensures SplitLines(Join(lines, "\n")) == lines
  {
    if lines == [] {
    } else if |lines| == 1 {
      var l := lines[0];
      assert NoLineBreak(l);
      assert LineEnd(l) == |l|;
      assert Join(lines, "\n") == l;
      assert SplitLines(l) == [l];
      assert [l] == lines;
    } else {
      var l := lines[0];
      assert NoLineBreak(l);
      var rest := Join(lines[1..], "\n");
      var s := l + "\n" + rest;
      assert s[|l|] == '\n';
      assert LineEnd(s) == |l|;
      assert BreakWidth(s, |l|) == 1;
      assert s[|l| + 1..] == rest;
      assert s[..|l|] == l;
      assert Join(lines, "\n") == s;
      SplitLinesOfJoin(lines[1..]);
      assert SplitLines(s) == [l] + SplitLines(rest);
      assert lines == [l] + lines[1..];
    }
  }

  /** A join of non-empty stripped parts starts with the first part and ends with the last. */
  lemma {:induction false} JoinEnds(parts: seq<string>, sep: string)
    requires |parts| > 0 && forall i :: 0 <= i < |parts| ==> parts[i] != []
    ensures |Join(parts, sep)| > 0
    ensures Join(parts, sep)[0] == parts[0][0]
    ensures Join(parts, sep)[|Join(parts, sep)| - 1] == parts[|parts| - 1][|parts[|parts| - 1]| - 1]
  {
    if |parts| > 1 {
      JoinEnds(parts[1..], sep);
    }
  }

  lemma JoinOfStrippedIsStripped(parts: seq<string>, sep: string)
    requires forall i :: 0 <= i < |parts| ==> parts[i] != [] && IsStripped(parts[i])
    ensures IsStripped(Join(parts, sep))
  {
    if parts != [] {
      JoinEnds(parts, sep);
      assert IsStripped(parts[0]) && IsStripped(parts[|parts| - 1]);
    }
  }

  /** Joining one more part appends the separator and that part. */
  lemma {:induction false} JoinSnoc(parts: seq<string>, part: string, sep: string)
    requires parts != []
    ensures Join(parts + [part], sep) == Join(parts, sep) + sep + part
  {
    if |parts| > 1 {
      assert (parts + [part])[1..] == parts[1..] + [part];
      JoinSnoc(parts[1..], part, sep);
    }
  }

  /** The first index of `c` in `s`, or `|s|` when there is none. */
  function IndexOf(s: string, c: char): (i: nat)
    ensures i <= |s|
  {
    if s == [] || s[0] == c then 0 else 1 + IndexOf(s[1..], c)
  }

  /** `IndexOf` finds the first occurrence. */
  lemma {:induction false} IndexOfFirst(s: string, c: char)
    ensures forall k :: 0 <= k < IndexOf(s, c) ==> s[k] != c
    ensures IndexOf(s, c) < |s| ==> s[IndexOf(s, c)] == c
  {
    if s != [] && s[0] != c {
      IndexOfFirst(s[1..], c);
      assert forall k :: 1 <= k < IndexOf(s, c) ==> s[k] == s[1..][k - 1];
    }
  }

  /**
   * Python's `s.split(c, 1)` as (the first part, the second part when `c` occurs):
   * the first part never contains `c`, and the two parts rebuild `s`.
   */
  function SplitOnce(s: string, c: char): (string, Option<string>)
  {
    var i := IndexOf(s, c);
    if i == |s| then (s, None) else (s[..i], Some(s[i + 1..]))
  }

  /** The first part never contains `c`, and the parts rebuild `s`. */
  lemma SplitOnceParts(s: string, c: char)
    ensures c !in SplitOnce(s, c).0
    ensures SplitOnce(s, c).1.None? <==> c !in s
    ensures SplitOnce(s, c).1.None? ==> SplitOnce(s, c).0 == s
    ensures SplitOnce(s, c).1.Some? ==> s == SplitOnce(s, c).0 + [c] + SplitOnce(s, c).1.value
  {
    IndexOfFirst(s, c);
    var i := IndexOf(s, c);
    if i < |s| {
      assert s == s[..i] + [c] + s[i + 1..];
    }
  }

  /** Splitting at a separator that the first part does not contain recovers both parts. */
  lemma SplitOnceAt(a: string, c: char, b: string)
    requires c !in a
    ensures SplitOnce(a + [c] + b, c) == (a, Some(b))
  {
    var s := a + [c] + b;
    var i := IndexOf(s, c);
    IndexOfFirst(s, c);
    assert s[|a|] == c;
    assert forall k :: 0 <= k < |a| ==> s[k] == a[k];
    assert i == |a|;
    assert s[..i] == a;
    assert s[i + 1..] == b;
  }

  predicate OccursAt(s: string, sub: string, i: int) {
    0 <= i && i + |sub| <= |s| && s[i..i + |sub|] == sub
  }

  /** Python's `sub in s` on strings; the empty string occurs everywhere. */
  predicate Contains(s: string, sub: string) {
    exists i | 0 <= i <= |s| - |sub| :: OccursAt(s, sub, i)
  }

  function FindFrom(s: string, sub: string, from: nat): (r: int)
    requires from <= |s|
    ensures r == -1 || (from <= r && OccursAt(s, sub, r))
    ensures r == -1 ==> forall j :: from <= j ==> !OccursAt(s, sub, j)
    ensures r != -1 ==> forall j :: from <= j < r ==> !OccursAt(s, sub, j)
    decreases |s| - from
  {
    if from + |sub| > |s| then -1
    else if s[from..from + |sub|] == sub then from
    else FindFrom(s, sub, from + 1)
  }

  /** Python's `s.find(sub)`: the first occurrence, or -1. */
  function Find(s: string, sub: string): (r: int)
    ensures r == -1 <==> !Contains(s, sub)
    ensures r != -1 ==> OccursAt(s, sub, r) && forall j :: 0 <= j < r ==> !OccursAt(s, sub, j)
  {
    FindFrom(s, sub, 0)
  }

  function LowerChar(c: char): char {
    if 'A' <= c <= 'Z' then (c as int + 32) as char else c
  }

  /** Python's `s.lower()` restricted to ASCII letters; it keeps the length. */
  function Lower(s: string): (r: string)
    ensures |r| == |s|
  {
    seq(|s|, k requires 0 <= k < |s| => LowerChar(s[k]))
  }

  lemma LowerSlice(s: string, i: nat, j: nat)
    requires i <= j <= |s|
    ensures Lower(s)[i..j] == Lower(s[i..j])
  {
  }

  /** `kw.lower() in text.lower()`. */
  predicate ContainsIgnoreCase(text: string, kw: string) {
    Contains(Lower(text), Lower(kw))
  }

  /** Python's `s.replace(pat, "")`: occurrences removed left to right, without overlap. */
  function RemoveAll(s: string, pat: string): (r: string)
    requires pat != []
    ensures |r| <= |s|
    ensures !Contains(s, pat) ==> r == s
    ensures Contains(s, pat) ==> |r| < |s|
    decreases |s|
  {
    if |s| < |pat| then s
    else if s[..|pat|] == pat then
      assert OccursAt(s, pat, 0);
      RemoveAll(s[|pat|..], pat)
    else
      var rest := RemoveAll(s[1..], pat);
      assert Contains(s, pat) && !OccursAt(s, pat, 0) ==> Contains(s[1..], pat) by {
        if Contains(s, pat) && !OccursAt(s, pat, 0) {
          var i :| 0 <= i <= |s| - |pat| && OccursAt(s, pat, i);
          assert OccursAt(s[1..], pat, i - 1);
        }
      }
      assert !Contains(s, pat) ==> !Contains(s[1..], pat) by {
        if Contains(s[1..], pat) {
          var i :| 0 <= i <= |s| - 1 - |pat| && OccursAt(s[1..], pat, i);
          assert OccursAt(s, pat, i + 1);
        }
      }
      [s[0]] + rest
  }
}
