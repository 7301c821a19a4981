# git-review, modelled in Dafny

`git-review` keeps a stack of commits on a working branch and turns each of
them into its own GitHub pull request. The tool comes in two variants: the
current Python 3 script `git_review.py` and the older Python 2 script
`git-review.py`. Both share one design, and this model covers that design's
text and bookkeeping core. Where the two scripts differ, the model takes a
`Settings.Variant` (`Current` or `Legacy`).

The model covers:

- **Commit-message codec** (`codec.dfy`). `new` writes
  `wip: <issue>: <message>`, a blank line and a `PR_BRANCH=<issue>-<tag>`
  trailer. `review_branch` reads the trailer back. The gate that holds back
  work in progress is here too.
- **`git log --oneline` parser and `listing`** (`oneline.dfy`, `stack.dfy`).
  Each line is parsed by hand-written recognisers for the two variants'
  patterns. Each commit's review branch is then looked up with `git show`.
- **Remote URL parser** (`remote.dfy`). The GitHub owner and repository come
  from the first `Fetch URL` line of `git remote show -n <origin>`.
- **Pull-request correlation** (`correlation.dfy`). A head-label-to-URL
  dictionary is built from GitHub's pull-request list. Each entry with a
  review branch is matched to the pull request labelled `<owner>:<branch>`.
- **Export protocol** (`export.dfy`). The two skip gates come first. Then
  come the five git commands, and a pull-request POST for entries that have
  none. The loop of `export_command` stops at the first failure.
- **Configuration loader** (`settings.dfy`). This covers the required keys,
  the order in which they are checked, and the defaults.
- **Shared pieces.** `text.dfy` holds the parts of Python's string library
  the scripts rely on: `str.split`, `str.strip`, `\s` and `[0-9]`.
  `interfaces.dfy` holds the commands, the errors and the `git` wrapper's
  contract.

**How the outside world is modelled.**

- **Read-only git queries** (`log`, `show`, `remote show`) are answered by
  a `Repository`. This is a function from command to exit code and output.
- **The local configuration** (`git config --local --get review.<key>`) is
  a key-to-value map, `section`, that `Settings.LoadConfig` reads.
- **GitHub's pull-request list** comes from a `PullsService`. This is a
  function from owner and repository to status and list.
- **Commands with effects** (`branch -D`, `checkout`, `push`, and the POST
  that creates a pull request) go through `Export.Session`. Each one is
  appended to `trace` and answered by a `Responder`. A responder sees
  everything issued before, so a `branch -D` can fail before `checkout -b`
  and succeed after it.
- **Fatal exits.** Every `sys.exit(1)` on an error path becomes an `Error`
  result.

## Model

| member | source | states |
|---|---|---|
| Interfaces.RunGit | git_review.py:90-113 | A failing git command yields the default when one is given and is fatal with its exit code otherwise; a successful one yields its output, stripped. |
| Settings.Lookup | git_review.py:141-146 | A key missing from the local config section yields the default; a present one yields its stripped value. |
| Settings.StripValue | git_review.py:141-146 | The newline git prints after a config value disappears in the strip. |
| Settings.LoadConfig | git_review.py:160-197 | Loading succeeds exactly when `branch`, `api-token` and `user` are all non-blank. Otherwise it fails on the first blank one, in that order. On success the three keep their stripped values, `main` defaults to `"main"` and `origin` defaults to `"origin"`. In `git-review.py` (lines 146-182): in the legacy variant the integration branch is read from `master` and defaults to `"master"`; the required keys and their order are the same. |
| Codec.NewMessage | git_review.py:277-280 | For a one-line issue and message, the commit message splits into exactly four lines: the subject `wip: <issue>: <message>`, a blank line, the trailer `PR_BRANCH=<issue>-<tag>`, and the empty remainder after the final newline. In `git-review.py` (lines 237-246): the legacy message has the same four lines. |
| Codec.NewMessageFromLines | git_review.py:277-280 | Those four lines determine the whole message: it is them joined with newlines. |
| Codec.MetaValue | git_review.py:288 | A line yields a value exactly when it starts with `PR_BRANCH=`, and the value is everything after that prefix. |
| Codec.Decode | git_review.py:309-313 | A message yields no branch exactly when none of its lines starts with `PR_BRANCH=`. Otherwise it yields the rest of the first line that does; the round trip is `Codec.DecodeNewMessage`. |
| Text.FirstMatch | git_review.py:309-313 | The scan yields nothing exactly when no line matches. Otherwise it yields the result of a matching line before which no line matches. |
| Text.SplitJoin | git_review.py:310 | `split("\n")` loses nothing: joining its pieces with the separator gives the text back. |
| Text.JoinSplit | git_review.py:310 | Pieces without the separator, joined and split again, come back unchanged. |
| Codec.DecodeFindsFirstTrailer | git_review.py:306-315 | Decoding a message whose lines are some non-trailer lines, a trailer and anything after returns that trailer's value. |
| Codec.DecodeNewMessage | git_review.py:306-315 | Round trip: decoding the message `new` writes, after the wrapper's strip, yields `<issue>-<tag>`. In `git-review.py` (lines 270-280): the same round trip holds for the legacy `reviewBranch`. |
| Codec.DecodeFreshBody | git_review.py:306-315 | The subject, a blank line and the trailer decode to the branch named by the trailer. |
| Codec.WorkInProgressIff | git_review.py:420 | The gate holds back exactly the messages whose first three characters are `w`, `i`, `p` in any case (`wip`, not `wip:`). |
| Codec.WorkInProgressIsLoweredPrefix | git_review.py:420 | The gate is the prefix test `wip` on the lowered message. |
| Codec.FreshSubjectIsWorkInProgress | git_review.py:277 | Every subject `new` writes is held back as work in progress, and so is an ordinary subject such as `Wipe caches`. |
| Oneline.ParseCurrent | git_review.py:290 | A recognised line is the hash up to the first whitespace character, one whitespace character, a non-empty digit run, a colon, one whitespace character, and the message. |
| Oneline.IssueAndMessage | git_review.py:290 | What follows the hash's whitespace is recognised as a non-empty digit run, a colon, one whitespace character and the message, and split into the issue and the message. |
| Oneline.CurrentShapeParses | git_review.py:290 | Every line of the current pattern's shape is parsed into exactly its hash, issue and message. |
| Oneline.ParseLegacy | git-review.py:257-258 | A recognised legacy line is the hash up to the first whitespace character, that character, and the message, with no issue. |
| Oneline.ParseCurrentExact | git_review.py:290 | The recogniser accepts a line with given hash, issue and message exactly when the line has that shape. |
| Oneline.ParseLegacyExact | git-review.py:257-258 | The legacy recogniser accepts a line exactly when it is a hash up to the first whitespace character, that character, and the message; there is no issue. |
| Oneline.ParseLogSpec | git_review.py:321-333 | Parsing succeeds exactly when every non-empty line is recognised. It then yields one parsed line per non-empty line, in order. A failure names the first unrecognised non-empty line: every non-empty line before it parses. |
| Oneline.ParseLogFailurePersists | git_review.py:326-330 | Once a line fails to parse, the lines after it do not change the outcome: parsing stops at the first unrecognised line. |
| Oneline.ExtractLog | git_review.py:321-333 | The loop that appends one parsed line per non-empty line computes exactly `ParseLog` of the output's lines. |
| Oneline.EmptyOutputParses | git_review.py:321-333 | Empty output parses to an empty list. |
| Oneline.FreshCommitUnparsableCurrent | git_review.py:290 | The `--oneline` line of a commit `new` wrote, `<hash> wip: <issue>: <message>`, never fits the current pattern. |
| Oneline.FreshCommitParsesLegacy | git-review.py:257-258 | The legacy pattern accepts that line, and the parsed message keeps its `wip` prefix. |
| Stack.EntriesSpec | git_review.py:337-341 | Succeeds exactly when every commit's message can be read. It then yields one entry per parsed line, in order, with the line's commit, issue and message, the decoded branch and no pull request. A failure carries the error of the first commit whose message cannot be read. |
| Stack.EntriesFailurePersists | git_review.py:338-340 | Once a commit's message cannot be read, the commits after it do not change the outcome. |
| Stack.CollectEntries | git_review.py:337-341 | The loop that appends one entry per parsed line, looking up each commit's review branch, computes exactly `Entries`. |
| Stack.Listing | git_review.py:318-341 | `listing` computes exactly `ListingOf`: the log, parsed, then one entry per commit. In `git-review.py` (lines 282-305): the legacy `listing` is the same function with the legacy recogniser. |
| Stack.ReviewBranch | git_review.py:306-315 | A failing `git show -s --format=%B` is fatal with its exit code. Otherwise the review branch is the decoding of the stripped message; the round trip through git is `Stack.ReviewBranchOfNewCommit`. |
| Stack.ReviewBranchOfNewCommit | git_review.py:306-315 | Round trip through git: when `git show` prints the message `new` wrote for a one-line issue and message, the commit's review branch is `<issue>-<tag>`. |
| Stack.EmptyStack | git_review.py:318-341 | When git prints only whitespace for the range, the listing is empty and not an error. |
| Stack.FreshCommitBreaksListing | git_review.py:321-330 | In the current variant, a stack holding a commit written by `new` makes `listing` fail with a parse error. |
| Remote.FetchUrlSound | git_review.py:292 | A recognised line is, after its leading whitespace, `Fetch URL: git@github`, any character, `com:`, an owner without `/`, `/`, a repository without `.`, any character and `git`. |
| Remote.ParseFetchUrl | git_review.py:292 | A recognised owner contains no `/` and a recognised repository no `.`; the exact language, in both directions, is `Remote.FetchUrlSound` and `Remote.FetchUrlAccepts`. |
| Remote.RemoteOrigin | git_review.py:344-355 | A result is only found when `git remote show -n` succeeded, and it is what the pattern makes of the first line of the stripped output that it accepts. The converse and the two errors are `Remote.RemoteOriginReadsFetchUrl`, `Remote.RemoteOriginGitFails` and `Remote.RemoteOriginMissing`. |
| Remote.FetchUrlAccepts | git_review.py:292 | Conversely, every line of that shape is recognised with exactly that owner and repository. The unescaped dots match any character. |
| Remote.RemoteOriginReadsFetchUrl | git_review.py:344-355 | `remote_origin` yields the owner and repository of the first Fetch-URL line of the stripped output, whatever precedes or follows it. |
| Remote.RemoteOriginGitFails | git_review.py:355 | A failing `git remote show -n` is fatal with its exit code. |
| Remote.RemoteOriginMissing | git_review.py:352-353 | Output without any matching line is an error carrying that output. |
| Correlation.LabelMapKeys | git_review.py:364-366 | A label is a key of the dictionary exactly when some pull request carries it. |
| Correlation.LabelMapLastWins | git_review.py:364-366 | A label maps to the URL of the last pull request that carries it. |
| Correlation.BuildLabelMap | git_review.py:364-366 | The loop that fills the dictionary computes `LabelMap`. |
| Correlation.Correlated | git_review.py:368-370 | Correlation keeps the number and order of entries and changes only their pull-request field. |
| Correlation.Correlate | git_review.py:368-370 | The loop that assigns `pull_request` in place computes `Correlated`. |
| Correlation.CorrelationFindsLastPullRequest | git_review.py:364-370 | An entry with branch `b` gets no URL exactly when no pull request is labelled `<owner>:b`. Otherwise it gets the URL of the last one that is. An entry without a branch keeps its value. In `git-review.py` (lines 325-331): the same holds for `asDict` and `pullRequest` in the legacy variant. |
| Correlation.AugmentedListing | git_review.py:358-371 | `augmented_listing` computes `AugmentedListingOf`: listing, remote, GET, then correlation, in that order, each error ending it. |
| Correlation.Augment | git_review.py:362-371 | After the GET, a status other than 200 is an error carrying it; otherwise the result is the listing correlated with the dictionary of the reply's pull requests, together with the `(owner, repository)` pair. |
| Correlation.AugmentedListingKeepsStack | git_review.py:358-371 | A successful augmented listing has the plain listing's entries, with the same commit, branch, issue and message. Any GET status other than 200 is an error carrying that status. |
| Export.Skip | git_review.py:414-424 | An entry is skipped exactly when it has no review branch or its message is work in progress. It is skipped for lacking a branch exactly when it has none, and as work in progress exactly when it has a branch and a work-in-progress message. |
| Export.PullRequestPayload | git_review.py:395-409 | The pull request has the commit message as title, the review branch as head and the integration branch as base; its body is `Export.PayloadContents`. |
| Export.PayloadContents | git_review.py:395-409 | The body is `Closes #<issue>` exactly when the entry has a non-empty issue, and is empty otherwise. In `git-review.py` (lines 350-361): in the legacy variant the body is always `Please review only the bottom-most commit`. |
| Export.ExecuteStopsAtFirstRejection | git_review.py:428-440 | The commands issued are a prefix of the plan, each seeing the ones before it. All of them are issued when nothing fails. Otherwise the last one issued is the first command answered with an unexpected status, and the error carries that status. |
| Export.ExecuteIssuesPrefix | git_review.py:428-440 | The commands issued are the plan's, in order from the first: all of them when nothing fails, and at least one when something does. |
| Export.ExecuteAcceptance | git_review.py:428-440 | Every command issued was answered as expected given the ones before it, except the last one of a failed run, whose unexpected status is the error. |
| Export.ExecuteAllAccepted | git_review.py:428-440 | When every command is answered as expected, the whole plan is issued and nothing fails. |
| Export.ExportProtocol | git_review.py:412-444 | A skipped entry issues no command. Any other issues a prefix of its plan, and all of it when it is exported. A pull request is requested exactly when the entry has none and every git command went through. |
| Export.ExportOf | git_review.py:412-444 | A skipped entry issues no command. What the other entries issue and report is `Export.ExportProtocol`, `Export.ExportIssuesPlan`, `Export.ExportRequestsPullRequest` and `Export.ExportInTwoPhases`. |
| Export.ExportIssuesPlan | git_review.py:426-444 | An entry that is not skipped issues a prefix of its plan, and the whole plan when it is exported; a newly created pull request is reported as such. |
| Export.ExportRequestsPullRequest | git_review.py:442-444 | An entry that is not skipped requests a pull request exactly when it has none and all five git commands went through. |
| Export.ExportInTwoPhases | git_review.py:426-444 | The export of an entry that is not skipped is its git commands, then, when they all went through and the entry has no pull request, the POST; a POST status other than 201 is an error carrying it. |
| Export.Session.Publish | git_review.py:427-440 | The git part of `export` appends to the trace exactly the run of the five commands: `branch -D b` (failure tolerated), `checkout -b b <commit>`, `push --force --set-upstream <origin> b`, `checkout <working branch>`, `branch -D b`. |
| Export.Session.Export | git_review.py:412-444 | `export` appends to the trace exactly the commands of `ExportOf`, and its result is `ExportOf`'s. In `git-review.py` (lines 364-397): the legacy `export` is the same, with the legacy payload. |
| Export.ExportAllFailurePersists | git_review.py:451-452 | Once an entry has failed, no later entry issues a command. |
| Export.Session.ExportAll | git_review.py:451-452 | The loop over the listing appends exactly the commands of `ExportAllOf` and returns its result. |
| Export.Session.ExportNext | git_review.py:451-452 | One pass of the loop appends the next entry's commands to the trace and extends the loop's outcome with that entry's. |
| Export.ExportAllAccepted | git_review.py:447-452 | When git and GitHub accept every command, every entry is exported or skipped by the gate, in order. The commands issued are the plans of the exported entries, one after the other. |
| Export.ExportAccepted | git_review.py:412-444 | When every command is accepted, an entry that is not skipped issues its whole plan and is exported; a skipped one issues nothing. |
| Export.ExportCommandStages | git_review.py:447-452 | A configuration error ends `export_command` before any command is issued, carrying the error of the first blank required key (`Settings.LoadConfig`). A listing error after a good configuration does the same with its own error. Otherwise the command is the loop over the augmented listing, with the loaded configuration and the owner and repository found. |
| Export.Session.ExportCommand | git_review.py:447-452 | `export_command` appends exactly the commands of `ExportCommandOf` and returns its result; `Export.ExportCommandStages` says what that is in each stage. |

## Left out

- The `git` wrapper's process handling (`subprocess`, `shlex`, `os.execv`, stdin) is not modelled. A read-only git query is a lookup in `Repository`, and an effectful command is a `Session` event.
- The `github` HTTP layer (`requests`, authentication, URLs, JSON encoding and decoding) is not modelled. The pull-request list is an input of `(head.label, html_url)` pairs. The POST is a `CreatePullRequest` event carrying its payload fields. GitHub's pagination of the list is not modelled.
- `create_pull_request` / `createPr` run `git remote show -n` a second time. The model reuses the owner and repository that the augmented listing found. The query is read-only, so a `Repository` gives the same answer again.
- The `git config --local --get` queries are a key-to-value map, `section`. A key missing from it stands for git exiting non-zero, and a present value is what git prints before its newline.
- The random tag of `new` is taken as a parameter: 8 characters from `[a-z0-9]`. The `git commit` that stores the message, and the issue-title fetch from GitHub when no message is given, are not modelled.
- Git's own commit-message cleanup is not modelled, so the message read back is the one written.
- `ensure_clean_state` / `ensureCleanState` is not modelled: the check that HEAD is the working branch and that `git status --porcelain` is empty. `Export.Session.ExportCommand` goes from the loaded configuration straight to the augmented listing, as if that check had passed.
- `sync`, `rebase`, `config`, argument parsing, dispatch in `main`, and the `tabulate` output of `log`, including its reversed display order, are not modelled.
- All messages written to stdout and stderr are not modelled. Their fatal exits are `Error` results.
- Whitespace is Python 3's `str.isspace()` in both variants. In the Python 2 script, `\s` and `strip()` work on byte strings and know only ASCII whitespace. Non-ASCII whitespace therefore differs between the variants, and that difference is not modelled.
- `Codec.IsWorkInProgress` folds case in ASCII only. For this test that is exact: no other character lowers to something that could complete the prefix `wip`.
- `Remote.ParseFetchUrl` models the pattern on single lines; it is only applied to pieces of `split("\n")`.
- Oneline.ParseCurrentExact and Oneline.ParseLegacyExact are stated for lines without a newline, the only lines `split("\n")` hands to the patterns; on such lines Python's `.` and `$` need no special case.
