/**
 * `remote_origin` / `origin`: the GitHub owner and repository of the
 * configured remote, read from `git remote show -n <remote>`.
 */
module Remote {
  import opened Wrappers
  import opened Text
  import opened Interfaces

  /**
   * The literal start of `repoPattern` after its leading `^\s*`. The pattern's
   * dots are unescaped, so the `.` of `github.com` and of `.git` match any
   * character (on a newline-free line).
   */
  const FetchPrefix := "Fetch URL: git@github"

  /** The length of `Fetch URL: git@github.com:`. */
  const HostLength := |FetchPrefix| + 5

  /** The text a matching line holds after its leading whitespace: both unescaped dots stand for any one character. */
  function FetchUrlLine(x: char, owner: string, repo: string, y: char): string {
    FetchPrefix + [x] + "com:" + owner + "/" + repo + [y] + "git"
  }

  /** `Fetch URL: git@github.com:` with its dot matched by any character. */
  predicate HostMatches(t: string) {
    |t| >= HostLength && t[..|FetchPrefix|] == FetchPrefix && t[|FetchPrefix| + 1..HostLength] == "com:"
  }

  /** `([^\.]*).git$` on what follows the owner's `/`: the repository, if the text fits. */
  function RepoOf(tail: string): (r: Option<string>)
    ensures r.Some? ==> |tail| >= 4 && '.' !in r.value && tail == r.value + [tail[|tail| - 4]] + "git"
  {
    if |tail| >= 4 && tail[|tail| - 3..] == "git" && '.' !in tail[..|tail| - 4] then
      assert tail == tail[..|tail| - 4] + [tail[|tail| - 4]] + tail[|tail| - 3..];
      Some(tail[..|tail| - 4])
    else None
  }

  /**
   * `repoPattern` matched against one line: after the leading whitespace, the
   * owner runs to the first `/`; the repository is the rest of the line
   * without its last four characters and must not contain a `.`.
   */
  function ParseFetchUrl(line: string): (r: Option<(string, string)>)
    ensures r.Some? ==> '/' !in r.value.0 && '.' !in r.value.1
  {
    ParseHostPath(TrimStart(line))
  }

  /** The pattern after its leading `\s*`. */
  function ParseHostPath(t: string): (r: Option<(string, string)>)
    ensures r.Some? ==> '/' !in r.value.0 && '.' !in r.value.1
  {
    if HostMatches(t) then
      var path := t[HostLength..];
      if '/' in path then
        var k := IndexOf(path, '/');
        match RepoOf(path[k + 1..])
        case Some(repo) => Some((path[..k], repo))
        case None => None
      else None
    else None
  }

  /** A recognised line is, after its leading whitespace, the owner and repository framed by the pattern. */
  lemma FetchUrlSound(line: string)
    requires ParseFetchUrl(line).Some?
    ensures var t, r := TrimStart(line), ParseFetchUrl(line).value;
      && '/' !in r.0 && '.' !in r.1
      && t == FetchUrlLine(t[|FetchPrefix|], r.0, r.1, t[|t| - 4])
  {
    var t := TrimStart(line);
    assert ParseFetchUrl(line) == ParseHostPath(t);
    HostPathSound(t);
  }

  /** What `ParseFetchUrl` does after the leading whitespace. */
  lemma HostPathSound(t: string)
    requires ParseHostPath(t).Some?
    ensures var r := ParseHostPath(t).value;
      && '/' !in r.0 && '.' !in r.1
      && t == FetchUrlLine(t[|FetchPrefix|], r.0, r.1, t[|t| - 4])
  {
    var path := t[HostLength..];
    var k := IndexOf(path, '/');
    var owner, tail := path[..k], path[k + 1..];
    var repo := RepoOf(tail).value;
    var x, y := t[|FetchPrefix|], tail[|tail| - 4];
    HostSplit(t);
    assert path == owner + "/" + tail;
    Framed(FetchPrefix, x, "com:", owner, repo, y, "git");
    assert t[|t| - 4] == y;
  }

  /** The fixed parts of a line, in the order the pattern reads them. */
  lemma Framed(p: string, x: char, h: string, owner: string, repo: string, y: char, g: string)
    ensures p + [x] + h + owner + "/" + repo + [y] + g == p + [x] + h + (owner + "/" + (repo + [y] + g))
  {
  }

  lemma HostSplit(t: string)
    requires HostMatches(t)
    ensures t == FetchPrefix + [t[|FetchPrefix|]] + "com:" + t[HostLength..]
  {
    assert t == t[..|FetchPrefix|] + [t[|FetchPrefix|]] + t[|FetchPrefix| + 1..HostLength] + t[HostLength..];
  }

  /**
   * Conversely, every line of that shape is recognised, with the owner and
   * repository it spells. `x` and `y` are arbitrary: `github-com` and `-git`
   * pass as well as `github.com` and `.git`.
   */
  lemma FetchUrlAccepts(ws: string, x: char, owner: string, repo: string, y: char)
    requires AllSpace(ws) && '/' !in owner && '.' !in repo
    ensures ParseFetchUrl(ws + FetchUrlLine(x, owner, repo, y)) == Some((owner, repo))
  {
    var tail := repo + [y] + "git";
    var rest := owner + "/" + tail;
    var t := FetchUrlLine(x, owner, repo, y);
    Framed(FetchPrefix, x, "com:", owner, repo, y, "git");
    assert t == FetchPrefix + [x] + "com:" + rest;
    HostOf(x, rest);
    TrimStartPrefix(ws, t);
    OwnerOf(owner, tail);
    RepoOfFramed(repo, y);
    assert ParseHostPath(t) == Some((owner, repo));
  }

  lemma RepoOfFramed(repo: string, y: char)
    requires '.' !in repo
    ensures RepoOf(repo + [y] + "git") == Some(repo)
  {
    var tail := repo + [y] + "git";
    assert tail[|tail| - 3..] == "git";
    assert tail[..|tail| - 4] == repo;
  }

  lemma HostOf(x: char, rest: string)
    ensures HostMatches(FetchPrefix + [x] + "com:" + rest)
    ensures (FetchPrefix + [x] + "com:" + rest)[HostLength..] == rest
    ensures !IsSpace((FetchPrefix + [x] + "com:" + rest)[0])
  {
    var t := FetchPrefix + [x] + "com:" + rest;
    assert t[..|FetchPrefix|] == FetchPrefix;
    assert t[|FetchPrefix| + 1..HostLength] == "com:";
  }

  lemma OwnerOf(owner: string, tail: string)
    requires '/' !in owner
    ensures '/' in owner + "/" + tail
    ensures IndexOf(owner + "/" + tail, '/') == |owner|
    ensures (owner + "/" + tail)[..|owner|] == owner && (owner + "/" + tail)[|owner| + 1..] == tail
  {
    var path := owner + "/" + tail;
    assert path[..|owner|] == owner;
    IndexOfAt(path, '/', |owner|);
  }

  lemma {:induction false} TrimStartPrefix(ws: string, t: string)
    requires AllSpace(ws) && t != [] && !IsSpace(t[0])
    ensures TrimStart(ws + t) == t
    decreases |ws|
  {
    if ws != [] {
      assert (ws + t)[0] == ws[0] && (ws + t)[1..] == ws[1..] + t;
      TrimStartPrefix(ws[1..], t);
    } else {
      assert ws + t == t;
    }
  }

  /**
   * `remote_origin` / `origin`: `git remote show -n <remote>` must succeed and
   * one of its lines must name a GitHub repository; the first such line wins.
   */
  function RemoteOrigin(repo: Repository, remote: string): (r: Result<(string, string), Error>)
    ensures r.Success? ==>
      && repo(RemoteShow(remote)).code == 0
      && exists k :: FirstHit(ParseFetchUrl, Split(Strip(repo(RemoteShow(remote)).stdout), '\n'), k, r.value)
  {
    var cmd := RemoteShow(remote);
    match RunGit(cmd, repo(cmd), None)
    case Failure(e) => Failure(e)
    case Success(output) =>
      assert repo(cmd).code == 0 && output == Strip(repo(cmd).stdout);
      var lines := Split(output, '\n');
      match FirstMatch(ParseFetchUrl, lines)
      case None => Failure(FetchUrlMissing(output))
      case Some(org) =>
        FirstMatchHit(ParseFetchUrl, lines);
        Success(org)
  }

  /** The owner and repository come from the first `Fetch URL` line of the stripped output, whatever surrounds it. */
  lemma RemoteOriginReadsFetchUrl(repo: Repository, remote: string, before: seq<string>, ws: string,
                                  x: char, owner: string, name: string, y: char, after: seq<string>)
    requires repo(RemoteShow(remote)).code == 0
    requires Split(Strip(repo(RemoteShow(remote)).stdout), '\n') == before + [ws + FetchUrlLine(x, owner, name, y)] + after
    requires forall k :: 0 <= k < |before| ==> ParseFetchUrl(before[k]).None?
    requires AllSpace(ws) && '/' !in owner && '.' !in name
    ensures RemoteOrigin(repo, remote) == Success((owner, name))
  {
    FetchUrlAccepts(ws, x, owner, name, y);
    FirstMatchAfter(ParseFetchUrl, before, ws + FetchUrlLine(x, owner, name, y), after);
  }

  /** A failing `git remote show` is fatal. */
  lemma RemoteOriginGitFails(repo: Repository, remote: string)
    requires repo(RemoteShow(remote)).code != 0
    ensures RemoteOrigin(repo, remote) == Failure(CallFailed(Git(RemoteShow(remote)), repo(RemoteShow(remote)).code))
  {
  }

  /** Output without any matching line is an error that carries the output. */
  lemma RemoteOriginMissing(repo: Repository, remote: string)
    requires repo(RemoteShow(remote)).code == 0
    requires var lines := Split(Strip(repo(RemoteShow(remote)).stdout), '\n');
      forall k :: 0 <= k < |lines| ==> ParseFetchUrl(lines[k]).None?
    ensures RemoteOrigin(repo, remote) == Failure(FetchUrlMissing(Strip(repo(RemoteShow(remote)).stdout)))
  {
    var output := Strip(repo(RemoteShow(remote)).stdout);
    assert RunGit(RemoteShow(remote), repo(RemoteShow(remote)), None) == Success(output);
    assert FirstMatch(ParseFetchUrl, Split(output, '\n')).None?;
  }
}
