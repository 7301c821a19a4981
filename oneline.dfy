/**
 * The nested `extract` of `listing`: the parser of `git log --oneline`
 * output, where each line is an abbreviated hash, a space and the subject.
 */
module Oneline {
  import opened Wrappers
  import opened Text
  import opened Interfaces
  import opened Settings
  import opened Codec

  /** One parsed line: the commit, the issue number (git_review.py only) and the rest of the subject. */
  datatype LogLine = LogLine(commit: string, issue: Option<string>, message: string)

  /**
   * The language of `^([^\s]*)\s([0-9]+):\s(.*)$` over newline-free lines,
   * written out position by position.
   */
  predicate CurrentShape(line: string, l: LogLine) {
    && l.issue.Some?
    && var c, n, m := l.commit, l.issue.value, l.message;
    && |line| == |c| + |n| + |m| + 3
    && NoSpace(c) && n != "" && AllDigits(n)
    && line[..|c|] == c
    && IsSpace(line[|c|])
    && line[|c| + 1..|c| + 1 + |n|] == n
    && line[|c| + 1 + |n|] == ':'
    && IsSpace(line[|c| + 2 + |n|])
    && line[|c| + 3 + |n|..] == m
  }

  /** The language of `^([^\s]*)\s(.*)$` over newline-free lines. */
  predicate LegacyShape(line: string, l: LogLine) {
    && l.issue.None?
    && |line| == |l.commit| + 1 + |l.message|
    && NoSpace(l.commit)
    && line[..|l.commit|] == l.commit
    && IsSpace(line[|l.commit|])
    && line[|l.commit| + 1..] == l.message
  }

  /*
   * The recognisers below only ever see single lines of the output, so they
   * are written for newline-free text; the exactness lemmas state the match
   * against the patterns under that condition.
   */

  /**
   * `onelinePattern` of git_review.py: the hash runs to the first whitespace
   * character, the issue is the digit run after it, then `:` and one more
   * whitespace character; the message is the rest of the line.
   */
  function ParseCurrent(line: string): (r: Option<LogLine>)
    ensures r.Some? ==> CurrentShape(line, r.value)
  {
    var i := FirstSpace(line);
    if i == |line| then None
    else
      var rest := line[i + 1..];
      match IssueAndMessage(rest)
      case None => None
      case Some((n, m)) =>
        assert line[i + 1..i + 1 + |n|] == rest[..|n|];
        Some(LogLine(line[..i], Some(n), m))
  }

  /** The part of the current pattern after the hash's whitespace: `([0-9]+):\s(.*)`. */
  function IssueAndMessage(rest: string): (r: Option<(string, string)>)
    ensures r.Some? ==>
      var (n, m) := r.value;
      && n != "" && AllDigits(n) && |rest| == |n| + 2 + |m|
      && rest[..|n|] == n && rest[|n|] == ':' && IsSpace(rest[|n| + 1]) && rest[|n| + 2..] == m
  {
    var d := DigitRun(rest);
    if 0 < d && d + 1 < |rest| && rest[d] == ':' && IsSpace(rest[d + 1]) then
      Some((rest[..d], rest[d + 2..]))
    else None
  }

  /** `onelinePattern` of git-review.py: hash up to the first whitespace character, message after it. */
  function ParseLegacy(line: string): (r: Option<LogLine>)
    ensures r.Some? ==> LegacyShape(line, r.value)
  {
    var i := FirstSpace(line);
    if i == |line| then None else Some(LogLine(line[..i], None, line[i + 1..]))
  }

  /** Both recognisers accept exactly their pattern's language. */
  lemma ParseCurrentExact(line: string, l: LogLine)
    requires '\n' !in line
    ensures ParseCurrent(line) == Some(l) <==> CurrentShape(line, l)
  {
    if CurrentShape(line, l) {
      CurrentShapeParses(line, l);
    }
  }

  /** A line of the current pattern's shape is parsed into its three parts. */
  lemma CurrentShapeParses(line: string, l: LogLine)
    requires '\n' !in line && CurrentShape(line, l)
    ensures ParseCurrent(line) == Some(l)
  {
    var c, n, m := l.commit, l.issue.value, l.message;
    FirstSpaceAt(line, |c|);
    var rest := line[|c| + 1..];
    assert rest[..|n|] == n && rest[|n| + 2..] == m;
    IssueAndMessageAt(rest, n, m);
    assert line[..|c|] == c;
  }

  /** The digits, the colon and the whitespace character are found where they are. */
  lemma IssueAndMessageAt(rest: string, n: string, m: string)
    requires n != "" && AllDigits(n) && |rest| == |n| + 2 + |m|
    requires rest[..|n|] == n && rest[|n|] == ':' && IsSpace(rest[|n| + 1]) && rest[|n| + 2..] == m
    ensures IssueAndMessage(rest) == Some((n, m))
  {
    DigitRunAt(rest, |n|);
  }

  /** The line `<hash> <rest>` splits at the space after a whitespace-free hash. */
  lemma HashThenRest(hash: string, rest: string)
    requires NoSpace(hash)
    ensures FirstSpace(hash + " " + rest) == |hash|
    ensures (hash + " " + rest)[..|hash|] == hash && (hash + " " + rest)[|hash| + 1..] == rest
    ensures '\n' !in rest ==> '\n' !in hash + " " + rest
  {
    var line := hash + " " + rest;
    assert line[..|hash|] == hash;
    FirstSpaceAt(line, |hash|);
    assert line[|hash| + 1..] == rest;
    assert '\n' !in hash by {
      assert forall k :: 0 <= k < |hash| ==> hash[k] != '\n';
    }
  }

  lemma ParseLegacyExact(line: string, l: LogLine)
    requires '\n' !in line
    ensures ParseLegacy(line) == Some(l) <==> LegacyShape(line, l)
  {
    if LegacyShape(line, l) {
      FirstSpaceAt(line, |l.commit|);
    }
  }

  /** The recogniser of the variant's `onelinePattern`. */
  function LineParser(variant: Variant): string -> Option<LogLine> {
    match variant
    case Current => ParseCurrent
    case Legacy => ParseLegacy
  }

  /** The non-empty lines, in order. */
  function NonEmpty(lines: seq<string>): (r: seq<string>)
    ensures forall k :: 0 <= k < |r| ==> r[k] != "" && r[k] in lines
  {
    if lines == [] then []
    else NonEmpty(lines[..|lines| - 1]) + (if lines[|lines| - 1] == "" then [] else [lines[|lines| - 1]])
  }

  /**
   * What the loop of `extract` computes over the lines of the output, given
   * the line recogniser: empty lines are dropped, every other line must
   * parse, and the first one that does not ends the listing with an error.
   */
  function ParseLog(parse: string -> Option<LogLine>, lines: seq<string>): Result<seq<LogLine>, Error> {
    if lines == [] then Success([])
    else
      var init, line := lines[..|lines| - 1], lines[|lines| - 1];
      match ParseLog(parse, init)
      case Failure(e) => Failure(e)
      case Success(acc) =>
        if line == "" then Success(acc)
        else
          match parse(line)
          case None => Failure(OnelineUnparsable(line))
          case Some(l) => Success(acc + [l])
  }

  /** Every non-empty line is recognised. */
  predicate AllParse(parse: string -> Option<LogLine>, lines: seq<string>) {
    forall k :: 0 <= k < |lines| && lines[k] != "" ==> parse(lines[k]).Some?
  }

  /**
   * Parsing succeeds exactly when every non-empty line is recognised; it then
   * yields the parse of each non-empty line, in order, and otherwise names the
   * first non-empty line that is not recognised.
   */
  lemma {:induction false} ParseLogSpec(parse: string -> Option<LogLine>, lines: seq<string>)
    ensures ParseLog(parse, lines).Success? <==> AllParse(parse, lines)
    ensures ParseLog(parse, lines).Success? ==>
      var parsed := ParseLog(parse, lines).value;
      && |parsed| == |NonEmpty(lines)|
      && forall k :: 0 <= k < |parsed| ==> parse(NonEmpty(lines)[k]) == Some(parsed[k])
    ensures ParseLog(parse, lines).Failure? ==>
      exists k :: 0 <= k < |lines| && lines[k] != "" && parse(lines[k]).None?
                  && ParseLog(parse, lines).error == OnelineUnparsable(lines[k])
                  && AllParse(parse, lines[..k])
  {
    if lines != [] {
      var init, line := lines[..|lines| - 1], lines[|lines| - 1];
      assert forall k :: 0 <= k < |init| ==> init[k] == lines[k];
      ParseLogSpec(parse, init);
      var prev := ParseLog(parse, init);
      assert NonEmpty(lines) == NonEmpty(init) + (if line == "" then [] else [line]);
      if prev.Failure? {
        var k :| 0 <= k < |init| && init[k] != "" && parse(init[k]).None?
                 && prev.error == OnelineUnparsable(init[k]) && AllParse(parse, init[..k]);
        assert lines[k] == init[k] && lines[..k] == init[..k];
      } else if line == "" {
        assert AllParse(parse, lines) <==> AllParse(parse, init);
      } else if parse(line).None? {
        assert lines[|lines| - 1] == line && lines[..|lines| - 1] == init;
      } else {
        assert AllParse(parse, lines) <==> AllParse(parse, init);
      }
    }
  }

  /** Once a prefix of the lines fails to parse, the whole output fails with the same error. */
  lemma {:induction false} ParseLogFailurePersists(parse: string -> Option<LogLine>, lines: seq<string>, n: nat)
    requires n <= |lines|
    requires ParseLog(parse, lines[..n]).Failure?
    ensures ParseLog(parse, lines) == ParseLog(parse, lines[..n])
    decreases |lines|
  {
    if n < |lines| {
      var init := lines[..|lines| - 1];
      assert init[..n] == lines[..n];
      ParseLogFailurePersists(parse, init, n);
    } else {
      assert lines[..n] == lines;
    }
  }

  /**
   * `extract` in `listing`: walk the lines of the (stripped) output, skip
   * empty ones, and append each parsed line; an unparsable line is fatal.
   */
  method ExtractLog(variant: Variant, output: string) returns (r: Result<seq<LogLine>, Error>)
    ensures r == ParseLog(LineParser(variant), Split(output, '\n'))
  {
    var lines := Split(output, '\n');
    var res: seq<LogLine> := [];
    var i := 0;
    while i < |lines|
      invariant 0 <= i <= |lines|
      invariant ParseLog(LineParser(variant), lines[..i]) == Success(res)
    {
      var line := lines[i];
      assert lines[..i + 1][..i] == lines[..i];
      if line != "" {
        var parsed := LineParser(variant)(line);
        if parsed.None? {
          ParseLogFailurePersists(LineParser(variant), lines, i + 1);
          return Failure(OnelineUnparsable(line));
        }
        res := res + [parsed.value];
      }
      i := i + 1;
    }
    assert lines[..i] == lines;
    r := Success(res);
  }

  /** No output (an empty stack) lists no commits rather than failing. */
  lemma EmptyOutputParses(variant: Variant)
    ensures ParseLog(LineParser(variant), Split("", '\n')) == Success([])
  {
    assert Split("", '\n') == [""];
  }

  /**
   * In git_review.py the subject that `new` writes, `wip: <issue>: <message>`,
   * never fits the pattern: after the hash comes `w`, not a digit. A listing
   * whose output contains a freshly created commit therefore fails.
   */
  lemma FreshCommitUnparsableCurrent(hash: string, issue: string, message: string)
    requires NoSpace(hash) && '\n' !in issue && '\n' !in message
    ensures '\n' !in hash + " " + Subject(issue, message)
    ensures ParseCurrent(hash + " " + Subject(issue, message)) == None
  {
    var subject := Subject(issue, message);
    SubjectShape(issue, message);
    HashThenRest(hash, subject);
    assert !IsDigit(subject[0]);
    assert DigitRun(subject) == 0;
    assert IssueAndMessage(subject) == None;
  }

  /**
   * In git-review.py the same subject parses, and the parsed message keeps
   * its `wip` prefix, so the export gate holds the commit back.
   */
  lemma FreshCommitParsesLegacy(hash: string, issue: string, message: string)
    requires NoSpace(hash) && '\n' !in issue && '\n' !in message
    ensures '\n' !in hash + " " + Subject(issue, message)
    ensures ParseLegacy(hash + " " + Subject(issue, message)) == Some(LogLine(hash, None, Subject(issue, message)))
    ensures IsWorkInProgress(ParseLegacy(hash + " " + Subject(issue, message)).value.message)
  {
    var subject := Subject(issue, message);
    SubjectShape(issue, message);
    HashThenRest(hash, subject);
    assert ParseLegacy(hash + " " + subject) == Some(LogLine(hash, None, subject));
    FreshSubjectIsWorkInProgress(issue, message);
  }
}
