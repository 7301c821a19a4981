/**
 * `listing`: the commits between the integration branch and the working
 * branch, each with the review branch recorded in its message.
 */
module Stack {
  import opened Wrappers
  import opened Text
  import opened Interfaces
  import opened Settings
  import opened Codec
  import opened Oneline

  /** A commit of the stack; `pullRequest` is filled in later by the correlation. */
  datatype Entry = Entry(
    commit: string,
    branch: Option<string>,
    issue: Option<string>,
    message: string,
    pullRequest: Option<string>)

  /** `review_branch` / `reviewBranch`: `git show -s --format=%B <commit>`, stripped, then decoded. */
  function ReviewBranch(repo: Repository, commit: string): (r: Result<Option<string>, Error>)
    ensures repo(ShowMessage(commit)).code != 0 ==>
      r == Failure(CallFailed(Git(ShowMessage(commit)), repo(ShowMessage(commit)).code))
    ensures repo(ShowMessage(commit)).code == 0 ==> r == Success(Decode(Strip(repo(ShowMessage(commit)).stdout)))
  {
    match RunGit(ShowMessage(commit), repo(ShowMessage(commit)), None)
    case Failure(e) => Failure(e)
    case Success(message) => Success(Decode(message))
  }

  /** Round trip through git: the review branch of a commit that `new` made is the branch its trailer names. */
  lemma ReviewBranchOfNewCommit(repo: Repository, commit: string, issue: string, message: string, tag: string)
    requires ValidTag(tag)
    requires '\n' !in issue && '\n' !in message
    requires repo(ShowMessage(commit)) == GitOutput(0, NewMessage(issue, message, tag))
    ensures ReviewBranch(repo, commit) == Success(Some(BranchName(issue, tag)))
  {
    DecodeNewMessage(issue, message, tag);
  }

  /** The review branch of each commit, as `listing` looks it up. */
  function BranchLookup(repo: Repository): string -> Result<Option<string>, Error> {
    commit => ReviewBranch(repo, commit)
  }

  /** The entry `listing` builds for one parsed line whose review branch is known: no pull request yet. */
  function NewEntry(l: LogLine, branch: Option<string>): Entry {
    Entry(l.commit, branch, l.issue, l.message, None)
  }

  /**
   * What the second loop of `listing` computes: one entry per parsed line,
   * in the same order, none with a pull request yet; the first commit whose
   * message cannot be read ends the listing with that error.
   */
  function Entries(branchOf: string -> Result<Option<string>, Error>, lines: seq<LogLine>): Result<seq<Entry>, Error> {
    if lines == [] then Success([])
    else
      var init, l := lines[..|lines| - 1], lines[|lines| - 1];
      match Entries(branchOf, init)
      case Failure(e) => Failure(e)
      case Success(acc) =>
        match branchOf(l.commit)
        case Failure(e) => Failure(e)
        case Success(branch) => Success(acc + [NewEntry(l, branch)])
  }

  /**
   * The entries exist exactly when every commit's message can be read; then
   * there is one per parsed line, carrying that line's fields and decoded
   * branch; otherwise the error is the one reading the first unreadable commit gave.
   */
  lemma {:induction false} EntriesSpec(branchOf: string -> Result<Option<string>, Error>, lines: seq<LogLine>)
    ensures Entries(branchOf, lines).Success? <==> forall k :: 0 <= k < |lines| ==> branchOf(lines[k].commit).Success?
    ensures Entries(branchOf, lines).Success? ==>
      var es := Entries(branchOf, lines).value;
      && |es| == |lines|
      && forall k :: 0 <= k < |lines| ==>
           es[k] == NewEntry(lines[k], es[k].branch) && branchOf(lines[k].commit) == Success(es[k].branch)
    ensures Entries(branchOf, lines).Failure? ==>
      exists k :: 0 <= k < |lines| && branchOf(lines[k].commit) == Failure(Entries(branchOf, lines).error)
                  && forall j :: 0 <= j < k ==> branchOf(lines[j].commit).Success?
  {
    if lines != [] {
      var init, l := lines[..|lines| - 1], lines[|lines| - 1];
      assert forall k :: 0 <= k < |init| ==> init[k] == lines[k];
      EntriesSpec(branchOf, init);
      var prev := Entries(branchOf, init);
      if prev.Failure? {
        var k :| 0 <= k < |init| && branchOf(init[k].commit) == Failure(prev.error)
                 && forall j :: 0 <= j < k ==> branchOf(init[j].commit).Success?;
        assert lines[k] == init[k];
      } else if branchOf(l.commit).Failure? {
        assert lines[|lines| - 1] == l;
      } else {
        var es := prev.value + [NewEntry(l, branchOf(l.commit).value)];
        assert Entries(branchOf, lines) == Success(es);
        assert forall k :: 0 <= k < |init| ==> es[k] == prev.value[k];
      }
    }
  }

  lemma {:induction false} EntriesFailurePersists(branchOf: string -> Result<Option<string>, Error>, lines: seq<LogLine>, n: nat)
    requires n <= |lines| && Entries(branchOf, lines[..n]).Failure?
    ensures Entries(branchOf, lines) == Entries(branchOf, lines[..n])
    decreases |lines|
  {
    if n < |lines| {
      var init := lines[..|lines| - 1];
      assert init[..n] == lines[..n];
      EntriesFailurePersists(branchOf, init, n);
    } else {
      assert lines[..n] == lines;
    }
  }

  /** What `listing` computes: `git log --oneline <main>..<branch>`, parsed, then one entry per line. */
  function ListingOf(variant: Variant, config: Config, repo: Repository): Result<seq<Entry>, Error> {
    var cmd := LogOneline(config.main, config.branch);
    match RunGit(cmd, repo(cmd), None)
    case Failure(e) => Failure(e)
    case Success(output) =>
      match ParseLog(LineParser(variant), Split(output, '\n'))
      case Failure(e) => Failure(e)
      case Success(lines) => Entries(BranchLookup(repo), lines)
  }

  /** `listing` / `listing`: the log, its parse, then the loop over the parsed lines. */
  method Listing(variant: Variant, config: Config, repo: Repository) returns (r: Result<seq<Entry>, Error>)
    ensures r == ListingOf(variant, config, repo)
  {
    var cmd := LogOneline(config.main, config.branch);
    var output := RunGit(cmd, repo(cmd), None);
    if output.Failure? {
      return Failure(output.error);
    }
    var parsed := ExtractLog(variant, output.value);
    if parsed.Failure? {
      return Failure(parsed.error);
    }
    r := CollectEntries(repo, parsed.value);
  }

  /** The second loop of `listing`: one entry per parsed line, its review branch read from the commit. */
  method CollectEntries(repo: Repository, lines: seq<LogLine>) returns (r: Result<seq<Entry>, Error>)
    ensures r == Entries(BranchLookup(repo), lines)
  {
    var res: seq<Entry> := [];
    var i := 0;
    while i < |lines|
      invariant 0 <= i <= |lines|
      invariant Entries(BranchLookup(repo), lines[..i]) == Success(res)
    {
      assert lines[..i + 1][..i] == lines[..i];
      var branch := ReviewBranch(repo, lines[i].commit);
      assert BranchLookup(repo)(lines[i].commit) == branch;
      if branch.Failure? {
        EntriesFailurePersists(BranchLookup(repo), lines, i + 1);
        return Failure(branch.error);
      }
      res := res + [NewEntry(lines[i], branch.value)];
      i := i + 1;
    }
    assert lines[..i] == lines;
    r := Success(res);
  }

  /** An empty range (git prints nothing, or only whitespace) lists no entries and is not an error. */
  lemma EmptyStack(variant: Variant, config: Config, repo: Repository)
    requires repo(LogOneline(config.main, config.branch)).code == 0
    requires AllSpace(repo(LogOneline(config.main, config.branch)).stdout)
    ensures ListingOf(variant, config, repo) == Success([])
  {
    AllSpaceStrip(repo(LogOneline(config.main, config.branch)).stdout);
    EmptyOutputParses(variant);
  }

  /**
   * In git_review.py a stack holding a commit freshly made by `new` cannot be
   * listed: its log line is rejected as unparsable.
   */
  lemma FreshCommitBreaksListing(config: Config, repo: Repository, k: nat, hash: string, issue: string, message: string)
    requires repo(LogOneline(config.main, config.branch)).code == 0
    requires k < |Split(Strip(repo(LogOneline(config.main, config.branch)).stdout), '\n')|
    requires NoSpace(hash) && '\n' !in issue && '\n' !in message
    requires Split(Strip(repo(LogOneline(config.main, config.branch)).stdout), '\n')[k] == hash + " " + Subject(issue, message)
    ensures ListingOf(Current, config, repo).Failure?
    ensures ListingOf(Current, config, repo).error.OnelineUnparsable?
  {
    var cmd := LogOneline(config.main, config.branch);
    var output := Strip(repo(cmd).stdout);
    var lines := Split(output, '\n');
    assert RunGit(cmd, repo(cmd), None) == Success(output);
    FreshCommitUnparsableCurrent(hash, issue, message);
    assert lines[k] != "" && ParseCurrent(lines[k]).None?;
    var parsed := ParseLog(ParseCurrent, lines);
    ParseLogSpec(ParseCurrent, lines);
    assert !AllParse(ParseCurrent, lines);
    assert parsed.Failure? && parsed.error.OnelineUnparsable?;
    assert ListingOf(Current, config, repo) == Failure(parsed.error);
  }
}
