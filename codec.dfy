/**
 * The commit-message metadata codec: `new` writes the review branch into a
 * `PR_BRANCH=<value>` trailer line, and `review_branch` / `reviewBranch` read
 * it back from the commit message.
 */
module Codec {
  import opened Wrappers
  import opened Text

  const WipTag := "wip"
  const MetaVar := "PR_BRANCH"
  const MetaPrefix := MetaVar + "="
  const TagLength := 8

  /** A character of `string.ascii_lowercase + string.digits`. */
  predicate IsTagChar(c: char) {
    'a' <= c <= 'z' || '0' <= c <= '9'
  }

  /** A random tag as `new` draws it: 8 characters from the tag alphabet. */
  predicate ValidTag(tag: string) {
    |tag| == TagLength && forall k :: 0 <= k < |tag| ==> IsTagChar(tag[k])
  }

  /** The review branch recorded for a commit: `<issue>-<tag>`. */
  function BranchName(issue: string, tag: string): string {
    issue + "-" + tag
  }

  /** The first line of a fresh commit: `wip: <issue>: <message>`. */
  function Subject(issue: string, message: string): string {
    WipTag + ": " + issue + ": " + message
  }

  /** The subject of a one-line issue and message is a single line that starts with `wip: `. */
  lemma SubjectShape(issue: string, message: string)
    requires '\n' !in issue && '\n' !in message
    ensures '\n' !in Subject(issue, message)
    ensures |Subject(issue, message)| > 0 && Subject(issue, message)[0] == 'w'
  {
    assert Subject(issue, message) == "wip: " + issue + ": " + message;
  }

  /** The trailer line of a fresh commit: `PR_BRANCH=<issue>-<tag>`. */
  function Trailer(issue: string, tag: string): string {
    MetaPrefix + BranchName(issue, tag)
  }

  /**
   * `new_command` / `newCommand`: the message handed to `git commit
   * --allow-empty -F -`. With a one-line issue and message it consists of the
   * subject, a blank line, the trailer, and a final newline.
   */
  function NewMessage(issue: string, message: string, tag: string): (m: string)
    requires ValidTag(tag)
    ensures '\n' !in issue && '\n' !in message ==>
      Split(m, '\n') == [Subject(issue, message), "", Trailer(issue, tag), ""]
  {
    var m := Subject(issue, message) + "\n\n" + Trailer(issue, tag) + "\n";
    if '\n' !in issue && '\n' !in message then
      FreshLines(issue, message, tag);
      JoinSplit([Subject(issue, message), "", Trailer(issue, tag), ""], '\n');
      m
    else
      m
  }

  /** The four lines of `NewMessage`'s contract determine the whole message. */
  lemma NewMessageFromLines(issue: string, message: string, tag: string)
    requires ValidTag(tag)
    requires '\n' !in issue && '\n' !in message
    ensures NewMessage(issue, message, tag) == Join([Subject(issue, message), "", Trailer(issue, tag), ""], '\n')
  {
    SplitJoin(NewMessage(issue, message, tag), '\n');
  }

  /** The lines of a fresh message, joined back together. */
  lemma FreshLines(issue: string, message: string, tag: string)
    requires ValidTag(tag)
    requires '\n' !in issue && '\n' !in message
    ensures '\n' !in Subject(issue, message) && '\n' !in Trailer(issue, tag)
    ensures Join([Subject(issue, message), "", Trailer(issue, tag)], '\n')
         == Subject(issue, message) + "\n\n" + Trailer(issue, tag)
    ensures Join([Subject(issue, message), "", Trailer(issue, tag), ""], '\n')
         == Subject(issue, message) + "\n\n" + Trailer(issue, tag) + "\n"
  {
    var subject, trailer := Subject(issue, message), Trailer(issue, tag);
    assert subject == "wip: " + issue + ": " + message;
    assert trailer == "PR_BRANCH=" + issue + "-" + tag;
    assert forall k :: 0 <= k < |tag| ==> tag[k] != '\n';
    assert Join([trailer], '\n') == trailer;
    assert Join(["", trailer], '\n') == "\n" + trailer by {
      assert ["", trailer][1..] == [trailer];
    }
    assert Join([subject, "", trailer], '\n') == subject + "\n\n" + trailer by {
      assert [subject, "", trailer][1..] == ["", trailer];
    }
    assert Join([trailer, ""], '\n') == trailer + "\n" by {
      assert [trailer, ""][1..] == [""];
    }
    assert Join(["", trailer, ""], '\n') == "\n" + trailer + "\n" by {
      assert ["", trailer, ""][1..] == [trailer, ""];
    }
    assert Join([subject, "", trailer, ""], '\n') == subject + "\n\n" + trailer + "\n" by {
      assert [subject, "", trailer, ""][1..] == ["", trailer, ""];
    }
  }

  /** `^PR_BRANCH=(.*)$` matched against one line of a commit message. */
  function MetaValue(line: string): (v: Option<string>)
    ensures v.Some? <==> MetaPrefix <= line
    ensures v.Some? ==> line == MetaPrefix + v.value
  {
    if MetaPrefix <= line then Some(line[|MetaPrefix|..]) else None
  }

  /** The nested `extract` of `review_branch` / `reviewBranch`, applied to a commit message. */
  function Decode(message: string): (r: Option<string>)
    ensures var lines := Split(message, '\n');
      && (r.None? <==> forall k :: 0 <= k < |lines| ==> !(MetaPrefix <= lines[k]))
      && (r.Some? ==> exists k :: 0 <= k < |lines| && lines[k] == MetaPrefix + r.value
                                  && forall j :: 0 <= j < k ==> !(MetaPrefix <= lines[j]))
  {
    var lines := Split(message, '\n');
    var r := FirstMatch(MetaValue, lines);
    assert r.None? <==> forall k :: 0 <= k < |lines| ==> !(MetaPrefix <= lines[k]) by {
      forall k | 0 <= k < |lines|
        ensures MetaValue(lines[k]).None? <==> !(MetaPrefix <= lines[k])
      {
      }
    }
    assert r.Some? ==> exists k :: 0 <= k < |lines| && lines[k] == MetaPrefix + r.value
                                   && forall j :: 0 <= j < k ==> !(MetaPrefix <= lines[j]) by {
      if r.Some? {
        FirstMatchHit(MetaValue, lines);
        var k :| FirstHit(MetaValue, lines, k, r.value);
        assert lines[k] == MetaPrefix + r.value;
      }
    }
    r
  }

  /** Decoding finds the trailer after any number of lines that do not start with `PR_BRANCH=`, whatever follows it. */
  lemma {:induction false} DecodeFindsFirstTrailer(before: seq<string>, value: string, after: seq<string>)
    requires forall k :: 0 <= k < |before| ==> '\n' !in before[k] && !(MetaPrefix <= before[k])
    requires '\n' !in value
    requires forall k :: 0 <= k < |after| ==> '\n' !in after[k]
    ensures Decode(Join(before + [MetaPrefix + value] + after, '\n')) == Some(value)
  {
    assert forall k :: 0 <= k < |before| ==> MetaValue(before[k]).None?;
    var lines := before + [MetaPrefix + value] + after;
    assert forall k :: 0 <= k < |lines| ==> '\n' !in lines[k] by {
      assert '\n' !in MetaPrefix;
      forall k | 0 <= k < |lines| ensures '\n' !in lines[k] {
        if k < |before| { assert lines[k] == before[k]; }
        else if k > |before| { assert lines[k] == after[k - |before| - 1]; }
      }
    }
    JoinSplit(lines, '\n');
    FirstMatchAfter(MetaValue, before, MetaPrefix + value, after);
  }

  /**
   * Round trip: reading back the message written by `new` (after the strip
   * the git wrapper applies to `git show` output) yields `<issue>-<tag>`.
   */
  lemma DecodeNewMessage(issue: string, message: string, tag: string)
    requires ValidTag(tag)
    requires '\n' !in issue && '\n' !in message
    ensures Decode(Strip(NewMessage(issue, message, tag))) == Some(BranchName(issue, tag))
  {
    StripFresh(issue, message, tag);
    DecodeFreshBody(issue, message, tag);
  }

  /** The subject, a blank line and the trailer decode to the branch the trailer names. */
  lemma DecodeFreshBody(issue: string, message: string, tag: string)
    requires ValidTag(tag)
    requires '\n' !in issue && '\n' !in message
    ensures Decode(Subject(issue, message) + "\n\n" + Trailer(issue, tag)) == Some(BranchName(issue, tag))
  {
    var subject, trailer := Subject(issue, message), Trailer(issue, tag);
    var before := [subject, ""];
    FreshLines(issue, message, tag);
    FreshPrecedingLines(issue, message, tag);
    assert trailer == MetaPrefix + BranchName(issue, tag);
    assert before + [MetaPrefix + BranchName(issue, tag)] + [] == [subject, "", trailer];
    DecodeFindsFirstTrailer(before, BranchName(issue, tag), []);
  }

  /** The lines before the trailer of a fresh message do not carry it. */
  lemma FreshPrecedingLines(issue: string, message: string, tag: string)
    requires ValidTag(tag)
    requires '\n' !in issue && '\n' !in message
    ensures '\n' !in BranchName(issue, tag)
    ensures forall k :: 0 <= k < 2 ==>
      '\n' !in [Subject(issue, message), ""][k] && !(MetaPrefix <= [Subject(issue, message), ""][k])
  {
    var subject := Subject(issue, message);
    FreshLines(issue, message, tag);
    assert Trailer(issue, tag) == MetaPrefix + BranchName(issue, tag);
    assert BranchName(issue, tag) == Trailer(issue, tag)[|MetaPrefix|..];
    assert !(MetaPrefix <= subject) by {
      assert subject[0] == 'w' && MetaPrefix[0] == 'P';
    }
    forall k | 0 <= k < 2 ensures '\n' !in [subject, ""][k] && !(MetaPrefix <= [subject, ""][k]) {
      if k == 0 { assert [subject, ""][k] == subject; } else { assert [subject, ""][k] == ""; }
    }
  }

  /** The git wrapper's strip removes exactly the final newline of a fresh message. */
  lemma StripFresh(issue: string, message: string, tag: string)
    requires ValidTag(tag)
    ensures Strip(NewMessage(issue, message, tag)) == Subject(issue, message) + "\n\n" + Trailer(issue, tag)
  {
    var body := Subject(issue, message) + "\n\n" + Trailer(issue, tag);
    assert NewMessage(issue, message, tag) == body + "\n";
    assert body[0] == 'w';
    var last := tag[TagLength - 1];
    assert body[|body| - 1] == last;
    assert IsTagChar(last);
    assert AllSpace("\n");
    StripAppended(body, "\n");
  }

  /** ASCII case folding, all that `str.lower()` changes in the three characters the gate inspects. */
  function LowerChar(c: char): char {
    if 'A' <= c <= 'Z' then (c as int + 32) as char else c
  }

  function Lower(s: string): (r: string)
    ensures |r| == |s| && forall k :: 0 <= k < |s| ==> r[k] == LowerChar(s[k])
  {
    seq(|s|, k requires 0 <= k < |s| => LowerChar(s[k]))
  }

  /**
   * `message.lower().startswith(WIP_TAG)`: the first three characters,
   * lowered, spell `wip`. Unicode lowering maps no character other than `W`,
   * `I` and `P` to a text starting with `w`, `i` or `p` that could complete
   * the prefix (the only multi-character lowering, of U+0130, yields `i`
   * followed by U+0307), so ASCII folding decides it exactly.
   */
  predicate IsWorkInProgress(message: string) {
    |message| >= |WipTag| && forall k :: 0 <= k < |WipTag| ==> LowerChar(message[k]) == WipTag[k]
  }

  /** The gate is the prefix test on the lowered message. */
  lemma WorkInProgressIsLoweredPrefix(message: string)
    ensures IsWorkInProgress(message) <==> WipTag <= Lower(message)
  {
    if |message| >= |WipTag| {
      assert WipTag <= Lower(message) <==> Lower(message)[..|WipTag|] == WipTag;
    }
  }

  /** The gate looks at three letters only: any subject starting with `wip` in any case is held back, with or without a colon. */
  lemma WorkInProgressIff(message: string)
    ensures IsWorkInProgress(message) <==>
      |message| >= 3 && message[0] in "wW" && message[1] in "iI" && message[2] in "pP"
  {
  }

  /** Every commit written by `new` is work in progress, and so is a subject such as `Wipe caches`. */
  lemma FreshSubjectIsWorkInProgress(issue: string, message: string)
    ensures IsWorkInProgress(Subject(issue, message))
    ensures IsWorkInProgress("Wipe caches")
  {
    WorkInProgressIff(Subject(issue, message));
    WorkInProgressIff("Wipe caches");
  }
}
