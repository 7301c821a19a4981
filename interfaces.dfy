/**
 * The tool's boundary with its two collaborators, the `git` binary and the
 * GitHub REST API: the calls it makes, the replies it sees, and the wrapper
 * contract of `git(cmdline, default=...)`.
 */
module Interfaces {
  import opened Wrappers
  import opened Text

  /** The git command lines the modelled core issues. */
  datatype GitCmd =
    | LogOneline(main: string, branch: string)      // log --oneline <main>..<branch>
    | ShowMessage(commit: string)                   // show -s --format=%B <commit>
    | RemoteShow(remote: string)                    // remote show -n <remote>
    | BranchDelete(branch: string)                  // branch -D <branch>
    | CheckoutNew(branch: string, commit: string)   // checkout -b <branch> <commit>
    | PushForce(remote: string, branch: string)     // push --force --set-upstream <remote> <branch>
    | Checkout(branch: string)                      // checkout <branch>

  /** The JSON body of `POST repos/<owner>/<repo>/pulls`. */
  datatype Payload = Payload(title: string, body: string, head: string, base: string)

  /** One call to a collaborator. */
  datatype Call =
    | Git(cmd: GitCmd)
    | ListPullRequests(owner: string, repo: string)
    | CreatePullRequest(owner: string, repo: string, payload: Payload)

  /** What a finished git process hands back: its exit status and its standard output. */
  datatype GitOutput = GitOutput(code: int, stdout: string)

  /** The repository as seen by read-only git commands: how each one exits and what it prints. */
  type Repository = GitCmd -> GitOutput

  /** The reasons the tool stops with exit status 1. */
  datatype Error =
    | CallFailed(call: Call, code: int)   // git exited non-zero without a default, or GitHub answered an unexpected status
    | OnelineUnparsable(line: string)     // a `git log --oneline` line of the wrong shape
    | FetchUrlMissing(output: string)     // no `Fetch URL: git@github.com:...` line
    | ConfigMissing(key: string)          // a required configuration key resolves to ""

  /** The status each collaborator answers on success: exit 0 for git, 201 Created for a new pull request, 200 otherwise. */
  function ExpectedStatus(call: Call): int {
    match call
    case Git(_) => 0
    case ListPullRequests(_, _) => 200
    case CreatePullRequest(_, _, _) => 201
  }

  /**
   * The wrapper `git(cmdline, default=...)`: a failure yields the default when
   * there is one and is fatal otherwise; a success yields the stripped output.
   */
  function RunGit(cmd: GitCmd, out: GitOutput, default: Option<string>): (r: Result<string, Error>)
    ensures out.code == 0 ==> r == Success(Strip(out.stdout))
    ensures out.code != 0 && default.Some? ==> r == Success(default.value)
    ensures out.code != 0 && default.None? ==> r == Failure(CallFailed(Git(cmd), out.code))
  {
    if out.code != 0 then
      match default
      case Some(d) => Success(d)
      case None => Failure(CallFailed(Git(cmd), out.code))
    else
      Success(Strip(out.stdout))
  }
}
