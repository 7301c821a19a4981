/**
 * The parts of Python's string library the tool relies on: `str.split("\n")`,
 * `str.strip()`, the regular-expression class `\s`, and `[0-9]`.
 */
module Text {
  import opened Wrappers


  /** Python 3's `str.isspace()`, which is also what `\s` matches in a `str` pattern. */
  predicate IsSpace(c: char) {
    || c == ' '
    || '\t' <= c <= '\r'
    || '\U{1c}' <= c <= '\U{1f}'
    || c == '\U{85}' || c == '\U{a0}' || c == '\U{1680}'
    || '\U{2000}' <= c <= '\U{200a}'
    || c == '\U{2028}' || c == '\U{2029}' || c == '\U{202f}' || c == '\U{205f}'
    || c == '\U{3000}'
  }

  /** `[0-9]` */
  predicate IsDigit(c: char) {
    '0' <= c <= '9'
  }

  predicate NoSpace(s: string) {
    forall k :: 0 <= k < |s| ==> !IsSpace(s[k])
  }

  predicate AllSpace(s: string) {
    forall k :: 0 <= k < |s| ==> IsSpace(s[k])
  }

  predicate AllDigits(s: string) {
    forall k :: 0 <= k < |s| ==> IsDigit(s[k])
  }

  /** Index of the first occurrence of `c` in `s`. */
  function IndexOf(s: string, c: char): (i: nat)
    requires c in s
    ensures i < |s| && s[i] == c && c !in s[..i]
  {
    if s[0] == c then 0 else IndexOf(s[1..], c) + 1
  }

  /** Index of the first whitespace character of `s`, or `|s|` when there is none. */
  function FirstSpace(s: string): (i: nat)
    ensures i <= |s| && NoSpace(s[..i])
    ensures i < |s| ==> IsSpace(s[i])
  {
    if s == [] || IsSpace(s[0]) then 0 else FirstSpace(s[1..]) + 1
  }

  /** Length of the longest prefix of `s` made of decimal digits. */
  function DigitRun(s: string): (n: nat)
    ensures n <= |s| && AllDigits(s[..n])
    ensures n < |s| ==> !IsDigit(s[n])
  {
    if s != [] && IsDigit(s[0]) then DigitRun(s[1..]) + 1 else 0
  }

  /** Python's `s.split(sep)` for a one-character separator: never empty, one piece more than separators. */
  function Split(s: string, sep: char): (parts: seq<string>)
    ensures |parts| >= 1
    ensures forall k :: 0 <= k < |parts| ==> sep !in parts[k]
    decreases |s|
  {
    if sep in s then
      var i := IndexOf(s, sep);
      [s[..i]] + Split(s[i + 1..], sep)
    else
      [s]
  }

  /** Python's `sep.join(parts)`. */
  function Join(parts: seq<string>, sep: char): string
    requires |parts| >= 1
  {
    if |parts| == 1 then parts[0] else parts[0] + [sep] + Join(parts[1..], sep)
  }

  /** One step of `Join`: the first part, the separator, then the rest joined. */
  lemma JoinCons(first: string, rest: seq<string>, sep: char)
    requires |rest| >= 1
    ensures Join([first] + rest, sep) == first + [sep] + Join(rest, sep)
  {
    assert ([first] + rest)[1..] == rest;
  }

  /** Splitting loses nothing: joining the pieces with the separator gives the text back. */
  lemma {:induction false} SplitJoin(s: string, sep: char)
    ensures Join(Split(s, sep), sep) == s
    decreases |s|
  {
    if sep in s {
      var i := IndexOf(s, sep);
      var tail := s[i + 1..];
      var rest := Split(tail, sep);
      assert Split(s, sep) == [s[..i]] + rest;
      JoinCons(s[..i], rest, sep);
      SplitJoin(tail, sep);
      assert s == s[..i] + [sep] + tail;
    } else {
      assert Split(s, sep) == [s];
    }
  }

  /** Pieces without the separator, joined and then split, come back unchanged. */
  lemma {:induction false} JoinSplit(parts: seq<string>, sep: char)
    requires |parts| >= 1
    requires forall k :: 0 <= k < |parts| ==> sep !in parts[k]
    ensures Split(Join(parts, sep), sep) == parts
  {
    if |parts| > 1 {
      var first, tail := parts[0], parts[1..];
      assert parts == [first] + tail;
      var rest := Join(tail, sep);
      var s := first + [sep] + rest;
      JoinCons(first, tail, sep);
      assert sep in s by { assert s[|first|] == sep; }
      assert IndexOf(s, sep) == |first| by {
        IndexOfPast(first, sep, [sep] + rest);
      }
      assert s[..|first|] == first;
      assert s[|first| + 1..] == rest;
      assert Split(s, sep) == [first] + Split(rest, sep);
      JoinSplit(tail, sep);
    } else {
      assert Join(parts, sep) == parts[0];
    }
  }

  lemma {:induction false} IndexOfPast(a: string, c: char, b: string)
    requires c !in a && c in b
    ensures IndexOf(a + b, c) == |a| + IndexOf(b, c)
  {
    if a != [] {
      assert (a + b)[1..] == a[1..] + b;
      IndexOfPast(a[1..], c, b);
    } else {
      assert a + b == b;
    }
  }

  /** `s.lstrip()` */
  function TrimStart(s: string): (r: string)
    ensures |r| <= |s| && r == s[|s| - |r|..]
    ensures AllSpace(s[..|s| - |r|])
    ensures r == [] || !IsSpace(r[0])
  {
    if s != [] && IsSpace(s[0]) then TrimStart(s[1..]) else s
  }

  /** `s.rstrip()` */
  function TrimEnd(s: string): (r: string)
    ensures |r| <= |s| && r == s[..|r|]
    ensures AllSpace(s[|r|..])
    ensures r == [] || !IsSpace(r[|r| - 1])
  {
    if s != [] && IsSpace(s[|s| - 1]) then
      var r := TrimEnd(s[..|s| - 1]);
      TrailingSpace(s, |r|);
      r
    else s
  }

  /** Whitespace followed by a whitespace character is whitespace. */
  lemma TrailingSpace(s: string, n: nat)
    requires n < |s| && IsSpace(s[|s| - 1]) && AllSpace(s[..|s| - 1][n..])
    ensures AllSpace(s[n..]) && s[..|s| - 1][..n] == s[..n]
  {
    forall k | 0 <= k < |s| - 1 - n
      ensures IsSpace(s[n..][k])
    {
      assert s[n..][k] == s[..|s| - 1][n..][k];
    }
  }

  /** `s.strip()`: the output of every successful git call passes through it. */
  function Strip(s: string): string {
    TrimEnd(TrimStart(s))
  }

  /** Stripping keeps a text that neither begins nor ends with whitespace, and removes any whitespace appended to it. */
  lemma {:induction false} StripAppended(s: string, ws: string)
    requires s != [] && !IsSpace(s[0]) && !IsSpace(s[|s| - 1])
    requires AllSpace(ws)
    ensures Strip(s + ws) == s
    decreases |ws|
  {
    assert TrimStart(s + ws) == s + ws;
    if ws != [] {
      assert (s + ws)[..|s + ws| - 1] == s + ws[..|ws| - 1];
      StripAppended(s, ws[..|ws| - 1]);
    } else {
      assert s + ws == s;
    }
  }

  /** The first whitespace character is the one after a whitespace-free prefix. */
  lemma {:induction false} FirstSpaceAt(s: string, i: nat)
    requires i < |s| && NoSpace(s[..i]) && IsSpace(s[i])
    ensures FirstSpace(s) == i
  {
    if i > 0 {
      assert !IsSpace(s[..i][0]);
      assert s[1..][..i - 1] == s[..i][1..];
      FirstSpaceAt(s[1..], i - 1);
    }
  }

  /** The digit run of a text is the digit prefix that a non-digit ends. */
  lemma {:induction false} DigitRunAt(s: string, n: nat)
    requires n < |s| && AllDigits(s[..n]) && !IsDigit(s[n])
    ensures DigitRun(s) == n
  {
    if n > 0 {
      assert IsDigit(s[..n][0]);
      assert s[1..][..n - 1] == s[..n][1..];
      DigitRunAt(s[1..], n - 1);
    }
  }

  /** The first occurrence of `c` is the one after a prefix without it. */
  lemma {:induction false} IndexOfAt(s: string, c: char, i: nat)
    requires i < |s| && c !in s[..i] && s[i] == c
    ensures IndexOf(s, c) == i
  {
    if i > 0 {
      assert s[..i][0] == s[0];
      assert s[1..][..i - 1] == s[..i][1..];
      IndexOfAt(s[1..], c, i - 1);
    }
  }

  /** Line `k` is the first line `f` accepts, and `f` makes `v` of it. */
  ghost predicate FirstHit<T>(f: string -> Option<T>, lines: seq<string>, k: int, v: T) {
    0 <= k < |lines| && f(lines[k]) == Some(v) && forall j :: 0 <= j < k ==> f(lines[j]).None?
  }

  /** A successful scan stops at the first line `f` accepts. */
  lemma FirstMatchHit<T>(f: string -> Option<T>, lines: seq<string>)
    requires FirstMatch(f, lines).Some?
    ensures exists k :: FirstHit(f, lines, k, FirstMatch(f, lines).value)
  {
    var k :| 0 <= k < |lines| && f(lines[k]) == FirstMatch(f, lines) && forall j :: 0 <= j < k ==> f(lines[j]).None?;
    assert FirstHit(f, lines, k, FirstMatch(f, lines).value);
  }

  /** The result for the first line `f` accepts, as a `for` loop over the lines that returns on the first `.match` does. */
  function FirstMatch<T>(f: string -> Option<T>, lines: seq<string>): (r: Option<T>)
    ensures r.None? <==> forall k :: 0 <= k < |lines| ==> f(lines[k]).None?
    ensures r.Some? ==> exists k :: 0 <= k < |lines| && f(lines[k]) == r
                                     && forall j :: 0 <= j < k ==> f(lines[j]).None?
  {
    if lines == [] then None
    else if f(lines[0]).Some? then f(lines[0])
    else
      assert forall k :: 1 <= k < |lines| ==> lines[k] == lines[1..][k - 1];
      FirstMatch(f, lines[1..])
  }

  /** Lines `f` rejects before an accepted line do not matter, nor does anything after it. */
  lemma {:induction false} FirstMatchAfter<T>(f: string -> Option<T>, before: seq<string>, line: string, after: seq<string>)
    requires forall k :: 0 <= k < |before| ==> f(before[k]).None?
    requires f(line).Some?
    ensures FirstMatch(f, before + [line] + after) == f(line)
  {
    if before == [] {
      assert before + [line] + after == [line] + after;
    } else {
      assert (before + [line] + after)[1..] == before[1..] + [line] + after;
      FirstMatchAfter(f, before[1..], line, after);
    }
  }
}
