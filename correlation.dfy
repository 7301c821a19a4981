/**
 * `augmented_listing` / `augmentedListing`: the listing of the stack, with
 * each entry that has a review branch matched to the open pull request whose
 * head is `<owner>:<branch>`.
 */
module Correlation {
  import opened Wrappers
  import opened Interfaces
  import opened Settings
  import opened Stack
  import opened Remote

  /** One element of the list `GET repos/<owner>/<repo>/pulls` answers: its `head.label` and its `html_url`. */
  datatype PullRequest = PullRequest(head: string, url: string)

  /** GitHub's answer to that GET: the HTTP status and the decoded list. */
  datatype Reply = Reply(status: int, pulls: seq<PullRequest>)

  /** The open pull requests of a repository, by owner and repository name. */
  type PullsService = (string, string) -> Reply

  /** `as_dict` / `asDict`: each head label mapped to a URL, later pull requests overwriting earlier ones. */
  function LabelMap(prs: seq<PullRequest>): map<string, string> {
    if prs == [] then map[]
    else
      var last := prs[|prs| - 1];
      LabelMap(prs[..|prs| - 1])[last.head := last.url]
  }

  /** A head label is a key exactly when some pull request carries it. */
  lemma {:induction false} LabelMapKeys(prs: seq<PullRequest>, head: string)
    ensures head in LabelMap(prs) <==> exists k :: 0 <= k < |prs| && prs[k].head == head
  {
    if prs != [] {
      var init := prs[..|prs| - 1];
      LabelMapKeys(init, head);
      assert forall k :: 0 <= k < |init| ==> init[k] == prs[k];
    }
  }

  /** A head label maps to the URL of the last pull request that carries it. */
  lemma {:induction false} LabelMapLastWins(prs: seq<PullRequest>, head: string)
    requires head in LabelMap(prs)
    ensures exists k :: 0 <= k < |prs| && prs[k].head == head && LabelMap(prs)[head] == prs[k].url
                        && forall j :: k < j < |prs| ==> prs[j].head != head
  {
    var init, last := prs[..|prs| - 1], prs[|prs| - 1];
    if last.head == head {
      assert prs[|prs| - 1].head == head;
    } else {
      LabelMapLastWins(init, head);
      var k :| 0 <= k < |init| && init[k].head == head && LabelMap(init)[head] == init[k].url
               && forall j :: k < j < |init| ==> init[j].head != head;
      assert prs[k].head == head && LabelMap(prs)[head] == prs[k].url;
      assert forall j :: k < j < |prs| ==> prs[j].head != head by {
        assert forall j :: k < j < |init| ==> prs[j] == init[j];
      }
    }
  }

  /** The loop that fills `as_dict`, one pull request at a time. */
  method BuildLabelMap(prs: seq<PullRequest>) returns (m: map<string, string>)
    ensures m == LabelMap(prs)
  {
    m := map[];
    var i := 0;
    while i < |prs|
      invariant 0 <= i <= |prs|
      invariant m == LabelMap(prs[..i])
    {
      assert prs[..i + 1][..i] == prs[..i];
      m := m[prs[i].head := prs[i].url];
      i := i + 1;
    }
    assert prs[..i] == prs;
  }

  /** The head label GitHub gives a pull request from `<owner>`'s branch `<branch>`. */
  function HeadLabel(owner: string, branch: string): string {
    owner + ":" + branch
  }

  /** The URL recorded for an entry: `as_dict.get(owner + ":" + branch)`, or untouched when the entry has no review branch. */
  function PullRequestOf(m: map<string, string>, owner: string, e: Entry): Option<string> {
    match e.branch
    case None => e.pullRequest
    case Some(b) => if HeadLabel(owner, b) in m then Some(m[HeadLabel(owner, b)]) else None
  }

  /** The entries after the correlation loop: only `pullRequest` changes. */
  function Correlated(m: map<string, string>, owner: string, entries: seq<Entry>): (r: seq<Entry>)
    ensures |r| == |entries|
    ensures forall k :: 0 <= k < |r| ==> r[k] == entries[k].(pullRequest := PullRequestOf(m, owner, entries[k]))
  {
    seq(|entries|, k requires 0 <= k < |entries| => entries[k].(pullRequest := PullRequestOf(m, owner, entries[k])))
  }

  /** The loop that sets `pull_request` / `pullRequest` on each entry with a review branch. */
  method Correlate(m: map<string, string>, owner: string, entries: seq<Entry>) returns (r: seq<Entry>)
    ensures r == Correlated(m, owner, entries)
  {
    r := entries;
    var i := 0;
    while i < |r|
      invariant 0 <= i <= |r| == |entries|
      invariant forall k :: 0 <= k < i ==> r[k] == entries[k].(pullRequest := PullRequestOf(m, owner, entries[k]))
      invariant forall k :: i <= k < |r| ==> r[k] == entries[k]
    {
      if r[i].branch.Some? {
        var head := HeadLabel(owner, r[i].branch.value);
        r := r[i := r[i].(pullRequest := if head in m then Some(m[head]) else None)];
      }
      i := i + 1;
    }
  }

  /**
   * An entry with a review branch ends up with the URL of the last pull
   * request labelled `<owner>:<branch>`, or with none when there is no such
   * pull request; an entry without one keeps what it had.
   */
  lemma {:induction false} CorrelationFindsLastPullRequest(prs: seq<PullRequest>, owner: string, e: Entry)
    ensures e.branch.None? ==> PullRequestOf(LabelMap(prs), owner, e) == e.pullRequest
    ensures e.branch.Some? ==>
      (PullRequestOf(LabelMap(prs), owner, e).None? <==>
         forall k :: 0 <= k < |prs| ==> prs[k].head != HeadLabel(owner, e.branch.value))
    ensures e.branch.Some? && PullRequestOf(LabelMap(prs), owner, e).Some? ==>
      exists k :: 0 <= k < |prs| && prs[k].head == HeadLabel(owner, e.branch.value)
        && PullRequestOf(LabelMap(prs), owner, e) == Some(prs[k].url)
        && forall j :: k < j < |prs| ==> prs[j].head != HeadLabel(owner, e.branch.value)
  {
    if e.branch.Some? {
      var head := HeadLabel(owner, e.branch.value);
      LabelMapKeys(prs, head);
      if head in LabelMap(prs) {
        LabelMapLastWins(prs, head);
      }
    }
  }

  /** What `augmented_listing` computes; the second component is the `(owner, repository)` pair it looked up. */
  function AugmentedListingOf(variant: Variant, config: Config, repo: Repository, pulls: PullsService)
    : Result<(seq<Entry>, (string, string)), Error>
  {
    match ListingOf(variant, config, repo)
    case Failure(e) => Failure(e)
    case Success(entries) =>
      match RemoteOrigin(repo, config.origin)
      case Failure(e) => Failure(e)
      case Success(org) => AugmentedWith(entries, org, pulls(org.0, org.1))
  }

  /** The last step of `augmented_listing`: the GET's status checked, then the pull requests matched to the entries. */
  function AugmentedWith(entries: seq<Entry>, org: (string, string), reply: Reply)
    : Result<(seq<Entry>, (string, string)), Error>
  {
    if reply.status != ExpectedStatus(ListPullRequests(org.0, org.1)) then
      Failure(CallFailed(ListPullRequests(org.0, org.1), reply.status))
    else
      Success((Correlated(LabelMap(reply.pulls), org.0, entries), org))
  }

  /** `augmented_listing` / `augmentedListing`: the listing, the remote, the GET, then the two loops. */
  method AugmentedListing(variant: Variant, config: Config, repo: Repository, pulls: PullsService)
    returns (r: Result<(seq<Entry>, (string, string)), Error>)
    ensures r == AugmentedListingOf(variant, config, repo, pulls)
  {
    var entries := Listing(variant, config, repo);
    if entries.Failure? {
      return Failure(entries.error);
    }
    var org := RemoteOrigin(repo, config.origin);
    if org.Failure? {
      return Failure(org.error);
    }
    var reply := pulls(org.value.0, org.value.1);
    r := Augment(entries.value, org.value, reply);
  }

  /** The status check of the GET and the two loops that follow it. */
  method Augment(entries: seq<Entry>, org: (string, string), reply: Reply)
    returns (r: Result<(seq<Entry>, (string, string)), Error>)
    ensures r == AugmentedWith(entries, org, reply)
  {
    var owner, name := org.0, org.1;
    if reply.status != 200 {
      return Failure(CallFailed(ListPullRequests(owner, name), reply.status));
    }
    var m := BuildLabelMap(reply.pulls);
    var correlated := Correlate(m, owner, entries);
    r := Success((correlated, org));
  }

  /**
   * On success the augmented listing is the plain listing, entry for entry,
   * with only the pull request filled in; any GitHub status other than 200
   * is an error carrying that status.
   */
  lemma AugmentedListingKeepsStack(variant: Variant, config: Config, repo: Repository, pulls: PullsService)
    ensures AugmentedListingOf(variant, config, repo, pulls).Success? ==>
      && ListingOf(variant, config, repo).Success?
      && var before, after := ListingOf(variant, config, repo).value, AugmentedListingOf(variant, config, repo, pulls).value.0;
      && |after| == |before|
      && forall k :: 0 <= k < |after| ==>
           after[k].commit == before[k].commit && after[k].branch == before[k].branch
           && after[k].issue == before[k].issue && after[k].message == before[k].message
    ensures ListingOf(variant, config, repo).Success? && RemoteOrigin(repo, config.origin).Success? ==>
      var org := RemoteOrigin(repo, config.origin).value;
      pulls(org.0, org.1).status != 200 ==>
        AugmentedListingOf(variant, config, repo, pulls) == Failure(CallFailed(ListPullRequests(org.0, org.1), pulls(org.0, org.1).status))
  {
  }
}
