/**
 * `export` / `exportCommand`: each commit of the stack that has a review
 * branch and is not work in progress is force-pushed to its review branch,
 * and a pull request is opened for it when none exists yet.
 */
module Export {
  import opened Wrappers
  import opened Interfaces
  import opened Settings
  import opened Codec
  import opened Stack
  import opened Correlation

  /** One command of the export sequence; a tolerated command may fail without stopping the export. */
  datatype Step = Step(call: Call, tolerated: bool)

  /** What happened to one entry. */
  datatype Status = SkippedNoBranch | SkippedWorkInProgress | Exported(createdPullRequest: bool)

  /** The commands issued, and the error that ended the run, if any. */
  datatype Run = Run(events: seq<Call>, failure: Option<Error>)

  /** The commands issued for one entry and how the entry ended. */
  datatype Outcome<T> = Outcome(events: seq<Call>, result: Result<T, Error>)

  /**
   * The outside world's answer to each command: git's exit code or GitHub's
   * HTTP status, given everything issued before it (so that `branch -D`
   * may fail before `checkout -b` has created the branch and succeed after).
   */
  type Responder = (seq<Call>, Call) -> int

  /** The two early returns of `export`: no review branch, or a work-in-progress subject. */
  function Skip(e: Entry): (s: Option<Status>)
    ensures s.Some? <==> e.branch.None? || IsWorkInProgress(e.message)
    ensures s == Some(SkippedNoBranch) <==> e.branch.None?
    ensures s == Some(SkippedWorkInProgress) <==> e.branch.Some? && IsWorkInProgress(e.message)
  {
    if e.branch.None? then Some(SkippedNoBranch)
    else if IsWorkInProgress(e.message) then Some(SkippedWorkInProgress)
    else None
  }

  /** `create_pull_request` / `createPr`: the JSON payload of the POST. */
  function PullRequestPayload(variant: Variant, config: Config, e: Entry): (p: Payload)
    requires e.branch.Some?
    ensures p.title == e.message && p.head == e.branch.value && p.base == config.main
  {
    var body := match variant
      case Current => if e.issue.Some? && e.issue.value != "" then "Closes #" + e.issue.value else ""
      case Legacy => "Please review only the bottom-most commit";
    Payload(e.message, body, e.branch.value, config.main)
  }

  /**
   * The pull request asks to merge the review branch into the integration
   * branch under the commit's subject; only the current variant links the
   * issue, and only when the entry has a non-empty one.
   */
  lemma PayloadContents(variant: Variant, config: Config, e: Entry)
    requires e.branch.Some?
    ensures var p := PullRequestPayload(variant, config, e);
      && (variant == Legacy ==> p.body == "Please review only the bottom-most commit")
      && (variant == Current ==> (p.body != "" <==> e.issue.Some? && e.issue.value != ""))
      && (variant == Current && p.body != "" ==> p.body[..8] == "Closes #" && p.body[8..] == e.issue.value)
  {
  }

  /** The git commands of `export`, in order: only the first `branch -D` may fail. */
  function PublishSteps(config: Config, e: Entry): seq<Step>
    requires e.branch.Some?
  {
    var b := e.branch.value;
    [ Step(Git(BranchDelete(b)), true),
      Step(Git(CheckoutNew(b, e.commit)), false),
      Step(Git(PushForce(config.origin, b)), false),
      Step(Git(Checkout(config.branch)), false),
      Step(Git(BranchDelete(b)), false) ]
  }

  /** The POST of `create_pull_request` / `createPr`, for an entry without a pull request. */
  function OpenSteps(variant: Variant, config: Config, org: (string, string), e: Entry): seq<Step>
    requires e.branch.Some?
  {
    if e.pullRequest.None? then [Step(CreatePullRequest(org.0, org.1, PullRequestPayload(variant, config, e)), false)] else []
  }

  /** The commands `export` issues for an entry it does not skip, in order. */
  function Plan(variant: Variant, config: Config, org: (string, string), e: Entry): seq<Step>
    requires e.branch.Some?
  {
    PublishSteps(config, e) + OpenSteps(variant, config, org, e)
  }

  /** Whether the world accepts a step: the expected status, or any answer when the step is tolerated. */
  predicate Accepted(respond: Responder, history: seq<Call>, s: Step) {
    s.tolerated || respond(history, s.call) == ExpectedStatus(s.call)
  }

  /**
   * The steps issued one by one, each seeing everything issued before it,
   * stopping after the first one that is not accepted.
   */
  function Execute(respond: Responder, history: seq<Call>, plan: seq<Step>): Run
    decreases |plan|
  {
    if plan == [] then Run([], None)
    else
      var s := plan[0];
      if Accepted(respond, history, s) then
        Then([s.call], Execute(respond, history + [s.call], plan[1..]))
      else
        Run([s.call], Some(CallFailed(s.call, respond(history, s.call))))
  }

  /**
   * A run issues a prefix of the plan's commands, each seeing everything
   * issued before it: all of them when it succeeds, and otherwise up to and
   * including the first step that is not accepted, whose answer is the
   * error.
   */
  lemma ExecuteStopsAtFirstRejection(respond: Responder, history: seq<Call>, plan: seq<Step>)
    ensures var run := Execute(respond, history, plan);
      && |run.events| <= |plan|
      && (forall k :: 0 <= k < |run.events| ==> run.events[k] == plan[k].call)
      && (run.failure.None? ==> |run.events| == |plan|)
      && (forall k :: 0 <= k < |run.events| && (run.failure.None? || k < |run.events| - 1) ==>
            Accepted(respond, history + run.events[..k], plan[k]))
      && (run.failure.Some? ==>
            var n := |run.events| - 1;
            && 0 <= n
            && !Accepted(respond, history + run.events[..n], plan[n])
            && run.failure.value == CallFailed(plan[n].call, respond(history + run.events[..n], plan[n].call)))
  {
    ExecuteIssuesPrefix(respond, history, plan);
    ExecuteAcceptance(respond, history, plan);
  }

  /** A run issues the plan's commands in order from the first, all of them when it succeeds, and at least one when it fails. */
  lemma {:induction false} ExecuteIssuesPrefix(respond: Responder, history: seq<Call>, plan: seq<Step>)
    ensures var run := Execute(respond, history, plan);
      && |run.events| <= |plan|
      && (forall k :: 0 <= k < |run.events| ==> run.events[k] == plan[k].call)
      && (run.failure.None? ==> |run.events| == |plan|)
      && (run.failure.Some? ==> |run.events| > 0)
    decreases |plan|
  {
    if plan != [] && Accepted(respond, history, plan[0]) {
      var s := plan[0];
      var rest := Execute(respond, history + [s.call], plan[1..]);
      ExecuteIssuesPrefix(respond, history + [s.call], plan[1..]);
      assert Execute(respond, history, plan).events == [s.call] + rest.events;
      assert forall k :: 1 <= k < 1 + |rest.events| ==> plan[k] == plan[1..][k - 1];
    }
  }

  /**
   * Every command of a run was accepted given the ones before it, except
   * the last command of a failed run, which was not and whose answer is the
   * error.
   */
  lemma {:induction false} ExecuteAcceptance(respond: Responder, history: seq<Call>, plan: seq<Step>)
    ensures var run := Execute(respond, history, plan);
      && (forall k :: 0 <= k < |run.events| && k < |plan| && (run.failure.None? || k < |run.events| - 1) ==>
            Accepted(respond, history + run.events[..k], plan[k]))
      && (run.failure.Some? && 0 < |run.events| <= |plan| ==>
            var n := |run.events| - 1;
            && !Accepted(respond, history + run.events[..n], plan[n])
            && run.failure.value == CallFailed(plan[n].call, respond(history + run.events[..n], plan[n].call)))
    decreases |plan|
  {
    if plan != [] {
      var s := plan[0];
      var run := Execute(respond, history, plan);
      assert history + run.events[..0] == history;
      if Accepted(respond, history, s) {
        var rest := Execute(respond, history + [s.call], plan[1..]);
        ExecuteAcceptance(respond, history + [s.call], plan[1..]);
        ExecuteIssuesPrefix(respond, history + [s.call], plan[1..]);
        assert run.events == [s.call] + rest.events && run.failure == rest.failure;
        forall k | 1 <= k < |run.events| && k < |plan| && (run.failure.None? || k < |run.events| - 1)
          ensures Accepted(respond, history + run.events[..k], plan[k])
        {
          SeenBefore(history, s.call, rest.events, k - 1);
          assert plan[k] == plan[1..][k - 1];
        }
        if run.failure.Some? && |run.events| <= |plan| {
          var n := |run.events| - 1;
          SeenBefore(history, s.call, rest.events, n - 1);
          assert plan[n] == plan[1..][n - 1];
        }
      }
    }
  }

  /** What a command after the first of a run has seen: the history, the first command, then the others before it. */
  lemma SeenBefore(history: seq<Call>, first: Call, rest: seq<Call>, k: nat)
    requires k <= |rest|
    ensures history + ([first] + rest)[..k + 1] == (history + [first]) + rest[..k]
  {
    assert ([first] + rest)[..k + 1] == [first] + rest[..k];
  }

  /** The calls of a list of steps. */
  function Calls(plan: seq<Step>): (calls: seq<Call>)
    ensures |calls| == |plan| && forall k :: 0 <= k < |plan| ==> calls[k] == plan[k].call
  {
    seq(|plan|, k requires 0 <= k < |plan| => plan[k].call)
  }

  /** Commands already issued, followed by a run. */
  function Then(done: seq<Call>, run: Run): Run {
    Run(done + run.events, run.failure)
  }

  /** What `export` does to one entry: nothing for a skipped entry, otherwise its plan, executed. */
  function ExportOf(respond: Responder, history: seq<Call>, variant: Variant, config: Config,
                    org: (string, string), e: Entry): (o: Outcome<Status>)
    ensures Skip(e).Some? ==> o.events == []
  {
    match Skip(e)
    case Some(s) => Outcome([], Success(s))
    case None =>
      var run := Execute(respond, history, Plan(variant, config, org, e));
      match run.failure
      case Some(err) => Outcome(run.events, Failure(err))
      case None => Outcome(run.events, Success(Exported(e.pullRequest.None?)))
  }

  /** An accepted first step is followed by the rest of the plan. */
  lemma Advance(respond: Responder, now: seq<Call>, plan: seq<Step>)
    requires plan != [] && Accepted(respond, now, plan[0])
    ensures Execute(respond, now, plan) == Then([plan[0].call], Execute(respond, now + [plan[0].call], plan[1..]))
  {
  }

  /** A first step that is not accepted ends the run with its own failure. */
  lemma Stop(respond: Responder, now: seq<Call>, plan: seq<Step>)
    requires plan != [] && !Accepted(respond, now, plan[0])
    ensures Execute(respond, now, plan) == Run([plan[0].call], Some(CallFailed(plan[0].call, respond(now, plan[0].call))))
  {
  }

  lemma ThenThen(done: seq<Call>, more: seq<Call>, run: Run)
    ensures Then(done, Then(more, run)) == Then(done + more, run)
  {
    assert done + (more + run.events) == done + more + run.events;
  }

  /** Running two plans back to back: the second starts only if the first succeeded. */
  lemma {:induction false} ExecuteAppend(respond: Responder, history: seq<Call>, first: seq<Step>, second: seq<Step>)
    ensures var run := Execute(respond, history, first);
      Execute(respond, history, first + second)
        == if run.failure.Some? then run else Then(run.events, Execute(respond, history + run.events, second))
    decreases |first|
  {
    if first == [] {
      assert first + second == second;
      assert history + [] == history;
    } else {
      var s := first[0];
      assert (first + second)[0] == s && (first + second)[1..] == first[1..] + second;
      if Accepted(respond, history, s) {
        ExecuteAppend(respond, history + [s.call], first[1..], second);
        var rest := Execute(respond, history + [s.call], first[1..]);
        assert history + [s.call] + rest.events == history + ([s.call] + rest.events);
        ThenThen([s.call], rest.events, Execute(respond, history + [s.call] + rest.events, second));
      }
    }
  }

  /**
   * `export_command`'s loop: the entries exported in order, each seeing
   * what the earlier ones issued; the first error ends the command.
   */
  function ExportAllOf(respond: Responder, history: seq<Call>, variant: Variant, config: Config,
                       org: (string, string), entries: seq<Entry>): Outcome<seq<Status>>
    decreases |entries|
  {
    if entries == [] then Outcome([], Success([]))
    else
      var prior := ExportAllOf(respond, history, variant, config, org, entries[..|entries| - 1]);
      match prior.result
      case Failure(_) => prior
      case Success(statuses) =>
        Extend(prior.events, statuses, ExportOf(respond, history + prior.events, variant, config, org, entries[|entries| - 1]))
  }

  /** The loop so far, followed by one more entry: its commands are appended, and its error or status. */
  function Extend(events: seq<Call>, statuses: seq<Status>, last: Outcome<Status>): Outcome<seq<Status>> {
    match last.result
    case Failure(err) => Outcome(events + last.events, Failure(err))
    case Success(s) => Outcome(events + last.events, Success(statuses + [s]))
  }

  /** The loop over a non-empty list: the loop over all but the last entry, then the last entry unless an error came first. */
  lemma ExportAllLast(respond: Responder, history: seq<Call>, variant: Variant, config: Config,
                      org: (string, string), entries: seq<Entry>)
    requires entries != []
    ensures var prior := ExportAllOf(respond, history, variant, config, org, entries[..|entries| - 1]);
      ExportAllOf(respond, history, variant, config, org, entries)
        == if prior.result.Failure? then prior
           else Extend(prior.events, prior.result.value,
                       ExportOf(respond, history + prior.events, variant, config, org, entries[|entries| - 1]))
  {
  }

  /** Once an entry has failed, the later entries issue nothing. */
  lemma {:induction false} ExportAllFailurePersists(respond: Responder, history: seq<Call>, variant: Variant, config: Config,
                                                    org: (string, string), entries: seq<Entry>, n: nat)
    requires n <= |entries| && ExportAllOf(respond, history, variant, config, org, entries[..n]).result.Failure?
    ensures ExportAllOf(respond, history, variant, config, org, entries) == ExportAllOf(respond, history, variant, config, org, entries[..n])
    decreases |entries| - n
  {
    if n < |entries| {
      var init := entries[..|entries| - 1];
      assert init[..n] == entries[..n];
      ExportAllFailurePersists(respond, history, variant, config, org, init, n);
    } else {
      assert entries[..n] == entries;
    }
  }

  /**
   * The export of one entry: a skipped entry issues no command at all; any
   * other issues a prefix of its plan, all of it when it is exported, and
   * the pull request is requested exactly when the entry has none yet and
   * every git command of the plan went through.
   */
  lemma ExportProtocol(respond: Responder, history: seq<Call>, variant: Variant, config: Config,
                       org: (string, string), e: Entry)
    ensures var o := ExportOf(respond, history, variant, config, org, e);
      && (Skip(e).Some? ==> o == Outcome([], Success(Skip(e).value)))
      && (Skip(e).None? ==>
            var plan := Plan(variant, config, org, e);
            && |o.events| <= |plan|
            && (forall k :: 0 <= k < |o.events| ==> o.events[k] == plan[k].call)
            && (o.result.Success? ==> o.events == Calls(plan) && o.result.value == Exported(e.pullRequest.None?))
            && ((exists p :: CreatePullRequest(org.0, org.1, p) in o.events) <==>
                  e.pullRequest.None? && Execute(respond, history, PublishSteps(config, e)).failure.None?))
  {
    if Skip(e).None? {
      ExportIssuesPlan(respond, history, variant, config, org, e);
      ExportRequestsPullRequest(respond, history, variant, config, org, e);
    }
  }

  /** An entry that is not skipped issues a prefix of its plan, and the whole plan when it is exported. */
  lemma ExportIssuesPlan(respond: Responder, history: seq<Call>, variant: Variant, config: Config,
                         org: (string, string), e: Entry)
    requires Skip(e).None?
    ensures var o, plan := ExportOf(respond, history, variant, config, org, e), Plan(variant, config, org, e);
      && |o.events| <= |plan|
      && (forall k :: 0 <= k < |o.events| ==> o.events[k] == plan[k].call)
      && (o.result.Success? ==> o.events == Calls(plan) && o.result.value == Exported(e.pullRequest.None?))
  {
    var plan := Plan(variant, config, org, e);
    var run := Execute(respond, history, plan);
    assert ExportOf(respond, history, variant, config, org, e).events == run.events;
    ExecuteIssuesPrefix(respond, history, plan);
    if run.failure.None? {
      assert run.events == Calls(plan);
    }
  }

  /** An entry that is not skipped requests a pull request exactly when it has none and all of its git commands went through. */
  lemma ExportRequestsPullRequest(respond: Responder, history: seq<Call>, variant: Variant, config: Config,
                                  org: (string, string), e: Entry)
    requires Skip(e).None?
    ensures var o := ExportOf(respond, history, variant, config, org, e);
      (exists p :: CreatePullRequest(org.0, org.1, p) in o.events) <==>
        e.pullRequest.None? && Execute(respond, history, PublishSteps(config, e)).failure.None?
  {
    var o := ExportOf(respond, history, variant, config, org, e);
    var published := Execute(respond, history, PublishSteps(config, e));
    ExportInTwoPhases(respond, history, variant, config, org, e);
    ExecuteIssuesPrefix(respond, history, PublishSteps(config, e));
    assert forall k :: 0 <= k < |published.events| ==> published.events[k].Git?;
    if published.failure.None? && e.pullRequest.None? {
      assert o.events[|published.events|] == CreatePullRequest(org.0, org.1, PullRequestPayload(variant, config, e));
    } else {
      assert o.events == published.events;
    }
  }

  /**
   * The export of an entry that is not skipped, in two phases: its git
   * commands, then, when they all went through and the entry has no pull
   * request, the POST, whose status decides the outcome.
   */
  lemma ExportInTwoPhases(respond: Responder, history: seq<Call>, variant: Variant, config: Config,
                          org: (string, string), e: Entry)
    requires Skip(e).None?
    ensures var published := Execute(respond, history, PublishSteps(config, e));
      var post := CreatePullRequest(org.0, org.1, PullRequestPayload(variant, config, e));
      ExportOf(respond, history, variant, config, org, e)
        == if published.failure.Some? then Outcome(published.events, Failure(published.failure.value))
           else if e.pullRequest.Some? then Outcome(published.events, Success(Exported(false)))
           else if respond(history + published.events, post) != 201 then
             Outcome(published.events + [post], Failure(CallFailed(post, respond(history + published.events, post))))
           else Outcome(published.events + [post], Success(Exported(true)))
  {
    var publish, open := PublishSteps(config, e), OpenSteps(variant, config, org, e);
    ExecuteAppend(respond, history, publish, open);
    var published := Execute(respond, history, publish);
    if published.failure.None? {
      var asked := Execute(respond, history + published.events, open);
      if e.pullRequest.None? {
        assert open[1..] == [];
      } else {
        assert asked == Run([], None);
      }
    }
  }

  /** Every step answered as expected: the whole plan is issued and nothing fails. */
  lemma {:induction false} ExecuteAllAccepted(respond: Responder, history: seq<Call>, plan: seq<Step>)
    requires forall h, c :: respond(h, c) == ExpectedStatus(c)
    ensures Execute(respond, history, plan) == Run(Calls(plan), None)
    decreases |plan|
  {
    if plan != [] {
      ExecuteAllAccepted(respond, history + [plan[0].call], plan[1..]);
      assert Calls(plan) == [plan[0].call] + Calls(plan[1..]);
    }
  }

  /** The commands a whole stack issues when every command succeeds: the plans of the entries not skipped, in order. */
  function PlannedCalls(variant: Variant, config: Config, org: (string, string), entries: seq<Entry>): seq<Call>
    decreases |entries|
  {
    if entries == [] then []
    else
      var e := entries[|entries| - 1];
      PlannedCalls(variant, config, org, entries[..|entries| - 1])
        + if Skip(e).None? then Calls(Plan(variant, config, org, e)) else []
  }

  /**
   * When git and GitHub accept every command, every entry is exported or
   * skipped by the gate, in order, and the commands issued are exactly the
   * plans of the exported entries, one after the other.
   */
  lemma {:induction false} ExportAllAccepted(respond: Responder, history: seq<Call>, variant: Variant, config: Config,
                                             org: (string, string), entries: seq<Entry>)
    requires forall h, c :: respond(h, c) == ExpectedStatus(c)
    ensures var o := ExportAllOf(respond, history, variant, config, org, entries);
      && o.events == PlannedCalls(variant, config, org, entries)
      && o.result.Success? && |o.result.value| == |entries|
      && forall k :: 0 <= k < |entries| ==> o.result.value[k] == AcceptedStatus(entries[k])
    decreases |entries|
  {
    if entries != [] {
      var init, e := entries[..|entries| - 1], entries[|entries| - 1];
      ExportAllAccepted(respond, history, variant, config, org, init);
      var prior := ExportAllOf(respond, history, variant, config, org, init);
      var last := ExportOf(respond, history + prior.events, variant, config, org, e);
      ExportAccepted(respond, history + prior.events, variant, config, org, e);
      ExportAllLast(respond, history, variant, config, org, entries);
      assert forall k :: 0 <= k < |init| ==> init[k] == entries[k];
      AcceptedStep(variant, config, org, entries, prior, last, ExportAllOf(respond, history, variant, config, org, entries));
    }
  }

  /** One more entry, accepted: its plan, if it is not skipped, is appended to the commands, and its status to the statuses. */
  lemma AcceptedStep(variant: Variant, config: Config, org: (string, string), entries: seq<Entry>,
                     prior: Outcome<seq<Status>>, last: Outcome<Status>, all: Outcome<seq<Status>>)
    requires entries != []
    requires prior.events == PlannedCalls(variant, config, org, entries[..|entries| - 1])
    requires prior.result.Success? && |prior.result.value| == |entries| - 1
    requires forall k :: 0 <= k < |entries| - 1 ==> prior.result.value[k] == AcceptedStatus(entries[k])
    requires var e := entries[|entries| - 1];
      last == Outcome(if Skip(e).None? then Calls(Plan(variant, config, org, e)) else [], Success(AcceptedStatus(e)))
    requires all == Extend(prior.events, prior.result.value, last)
    ensures all.events == PlannedCalls(variant, config, org, entries)
    ensures all.result.Success? && |all.result.value| == |entries|
    ensures forall k :: 0 <= k < |entries| ==> all.result.value[k] == AcceptedStatus(entries[k])
  {
  }

  /** How an entry ends when every command is accepted: skipped by the gate, or exported. */
  function AcceptedStatus(e: Entry): Status {
    if Skip(e).Some? then Skip(e).value else Exported(e.pullRequest.None?)
  }

  /** When every command is accepted, an entry that is not skipped issues its whole plan and is exported. */
  lemma ExportAccepted(respond: Responder, history: seq<Call>, variant: Variant, config: Config,
                       org: (string, string), e: Entry)
    requires forall h, c :: respond(h, c) == ExpectedStatus(c)
    ensures ExportOf(respond, history, variant, config, org, e)
         == Outcome(if Skip(e).None? then Calls(Plan(variant, config, org, e)) else [], Success(AcceptedStatus(e)))
  {
    if Skip(e).None? {
      ExecuteAllAccepted(respond, history, Plan(variant, config, org, e));
    }
  }

  /** What `export_command` needs before the loop: the configuration, the augmented listing and the `(owner, repository)` pair. */
  function PreparationOf(variant: Variant, section: map<string, string>, repo: Repository, pulls: PullsService)
    : Result<(Config, seq<Entry>, (string, string)), Error>
  {
    match LoadConfig(variant, section)
    case Failure(err) => Failure(err)
    case Success(config) =>
      match AugmentedListingOf(variant, config, repo, pulls)
      case Failure(err) => Failure(err)
      case Success(listing) => Success((config, listing.0, listing.1))
  }

  /** The configuration, then the augmented listing; the first error stops before any effect. */
  /**
   * `export_command` in three stages: a configuration error, and then a
   * listing error, ends it before any command is issued; otherwise it is the
   * loop over the augmented listing with the loaded configuration.
   */
  lemma ExportCommandStages(respond: Responder, history: seq<Call>, variant: Variant, section: map<string, string>,
                            repo: Repository, pulls: PullsService)
    ensures var o := ExportCommandOf(respond, history, variant, section, repo, pulls);
      && (LoadConfig(variant, section).Failure? ==>
            o == Outcome([], Failure(LoadConfig(variant, section).error)))
      && (LoadConfig(variant, section).Success? ==>
            var config := LoadConfig(variant, section).value;
            && (AugmentedListingOf(variant, config, repo, pulls).Failure? ==>
                  o == Outcome([], Failure(AugmentedListingOf(variant, config, repo, pulls).error)))
            && (AugmentedListingOf(variant, config, repo, pulls).Success? ==>
                  var listing := AugmentedListingOf(variant, config, repo, pulls).value;
                  o == ExportAllOf(respond, history, variant, config, listing.1, listing.0)))
  {
  }

  method Prepare(variant: Variant, section: map<string, string>, repo: Repository, pulls: PullsService)
    returns (r: Result<(Config, seq<Entry>, (string, string)), Error>)
    ensures r == PreparationOf(variant, section, repo, pulls)
  {
    var config := LoadConfig(variant, section);
    if config.Failure? {
      return Failure(config.error);
    }
    var listing := AugmentedListing(variant, config.value, repo, pulls);
    if listing.Failure? {
      return Failure(listing.error);
    }
    r := Success((config.value, listing.value.0, listing.value.1));
  }

  /** What `export_command` does: a configuration or listing error issues nothing; otherwise the loop runs. */
  function ExportCommandOf(respond: Responder, history: seq<Call>, variant: Variant, section: map<string, string>,
                           repo: Repository, pulls: PullsService): Outcome<seq<Status>>
  {
    match PreparationOf(variant, section, repo, pulls)
    case Failure(err) => Outcome([], Failure(err))
    case Success(p) => ExportAllOf(respond, history, variant, p.0, p.2, p.1)
  }

  /**
   * The session in which the commands run: `trace` is every effectful
   * command issued so far, in order, and `respond` is how the outside world
   * answers them.
   */
  class Session {
    var trace: seq<Call>
    const respond: Responder

    constructor (respond: Responder)
      ensures trace == [] && this.respond == respond
    {
      trace := [];
      this.respond := respond;
    }

    /** Runs one command: it is recorded, and the world's answer is returned. */
    method Perform(call: Call) returns (code: int)
      modifies this
      ensures trace == old(trace) + [call] && code == respond(old(trace), call)
    {
      code := respond(trace, call);
      trace := trace + [call];
    }

    /**
     * Runs the next step of a plan whose run began at `history` and has
     * issued `done` so far, keeping the run of the whole plan equal to what
     * has been issued followed by the run of what remains.
     */
    method Issue(call: Call, ghost history: seq<Call>, ghost plan: seq<Step>, ghost done: seq<Call>, ghost rest: seq<Step>)
      returns (code: int)
      requires rest != [] && rest[0].call == call && trace == history + done
      requires Execute(respond, history, plan) == Then(done, Execute(respond, trace, rest))
      modifies this
      ensures trace == history + (done + [call]) && code == respond(old(trace), call)
      ensures Accepted(respond, old(trace), rest[0]) ==>
        Execute(respond, history, plan) == Then(done + [call], Execute(respond, trace, rest[1..]))
      ensures !Accepted(respond, old(trace), rest[0]) ==>
        Execute(respond, history, plan) == Run(done + [call], Some(CallFailed(call, code)))
    {
      ghost var before := trace;
      code := Perform(call);
      if Accepted(respond, before, rest[0]) {
        Advance(respond, before, rest);
        ThenThen(done, [call], Execute(respond, trace, rest[1..]));
      } else {
        Stop(respond, before, rest);
      }
    }

    /** The git part of `export`: recreate the review branch at the commit, force-push it, and go back. */
    method Publish(config: Config, e: Entry) returns (failure: Option<Error>)
      requires e.branch.Some?
      modifies this
      ensures trace == old(trace) + Execute(respond, old(trace), PublishSteps(config, e)).events
      ensures failure == Execute(respond, old(trace), PublishSteps(config, e)).failure
    {
      var b := e.branch.value;
      ghost var history := trace;
      ghost var plan := PublishSteps(config, e);
      ghost var done: seq<Call> := [];
      assert Execute(respond, history, plan) == Then(done, Execute(respond, history, plan));
      // remove the local review branch; failure is tolerated, the branch may not exist
      var code := Issue(Git(BranchDelete(b)), history, plan, done, plan);
      done := done + [Git(BranchDelete(b))];
      // create the local review branch at the commit
      code := Issue(Git(CheckoutNew(b, e.commit)), history, plan, done, plan[1..]);
      done := done + [Git(CheckoutNew(b, e.commit))];
      if code != 0 {
        return Some(CallFailed(Git(CheckoutNew(b, e.commit)), code));
      }
      assert plan[1..][1..] == plan[2..];
      // push it, overwriting the upstream branch
      code := Issue(Git(PushForce(config.origin, b)), history, plan, done, plan[2..]);
      done := done + [Git(PushForce(config.origin, b))];
      if code != 0 {
        return Some(CallFailed(Git(PushForce(config.origin, b)), code));
      }
      assert plan[2..][1..] == plan[3..];
      // go back to the working branch
      code := Issue(Git(Checkout(config.branch)), history, plan, done, plan[3..]);
      done := done + [Git(Checkout(config.branch))];
      if code != 0 {
        return Some(CallFailed(Git(Checkout(config.branch)), code));
      }
      assert plan[3..][1..] == plan[4..];
      // remove the local review branch
      code := Issue(Git(BranchDelete(b)), history, plan, done, plan[4..]);
      done := done + [Git(BranchDelete(b))];
      if code != 0 {
        return Some(CallFailed(Git(BranchDelete(b)), code));
      }
      assert plan[4..][1..] == [];
      failure := None;
    }

    /** `export`: skip the entry, or publish its review branch and open a pull request when it has none. */
    method Export(variant: Variant, config: Config, org: (string, string), e: Entry) returns (r: Result<Status, Error>)
      modifies this
      ensures trace == old(trace) + ExportOf(respond, old(trace), variant, config, org, e).events
      ensures r == ExportOf(respond, old(trace), variant, config, org, e).result
    {
      if e.branch.None? {
        return Success(SkippedNoBranch);
      }
      if IsWorkInProgress(e.message) {
        return Success(SkippedWorkInProgress);
      }
      ExportInTwoPhases(respond, trace, variant, config, org, e);
      var failure := Publish(config, e);
      if failure.Some? {
        return Failure(failure.value);
      }
      if e.pullRequest.None? {
        var payload := PullRequestPayload(variant, config, e);
        var code := Perform(CreatePullRequest(org.0, org.1, payload));
        if code != 201 {
          return Failure(CallFailed(CreatePullRequest(org.0, org.1, payload), code));
        }
      }
      r := Success(Exported(e.pullRequest.None?));
    }

    /** `export_command`'s loop over the augmented listing. */
    method ExportAll(variant: Variant, config: Config, org: (string, string), entries: seq<Entry>)
      returns (r: Result<seq<Status>, Error>)
      modifies this
      ensures trace == old(trace) + ExportAllOf(respond, old(trace), variant, config, org, entries).events
      ensures r == ExportAllOf(respond, old(trace), variant, config, org, entries).result
    {
      ghost var history := trace;
      ghost var done: seq<Call> := [];
      var statuses: seq<Status> := [];
      var i := 0;
      while i < |entries|
        invariant 0 <= i <= |entries|
        invariant trace == history + done
        invariant ExportAllOf(respond, history, variant, config, org, entries[..i]) == Outcome(done, Success(statuses))
      {
        var status;
        status, done := ExportNext(variant, config, org, entries, i, history, done, statuses);
        if status.Failure? {
          ExportAllFailurePersists(respond, history, variant, config, org, entries, i + 1);
          return Failure(status.error);
        }
        statuses := statuses + [status.value];
        i := i + 1;
      }
      assert entries[..i] == entries;
      r := Success(statuses);
    }

    /** One pass of the loop: the next entry exported, and the loop's outcome so far extended with it. */
    method ExportNext(variant: Variant, config: Config, org: (string, string), entries: seq<Entry>, i: nat,
                      ghost history: seq<Call>, ghost done: seq<Call>, statuses: seq<Status>)
      returns (status: Result<Status, Error>, ghost done': seq<Call>)
      requires i < |entries| && trace == history + done
      requires ExportAllOf(respond, history, variant, config, org, entries[..i]) == Outcome(done, Success(statuses))
      modifies this
      ensures trace == history + done'
      ensures ExportAllOf(respond, history, variant, config, org, entries[..i + 1])
           == Outcome(done', if status.Success? then Success(statuses + [status.value]) else Failure(status.error))
    {
      assert entries[..i + 1][..i] == entries[..i] && entries[..i + 1][i] == entries[i];
      ghost var last := ExportOf(respond, trace, variant, config, org, entries[i]);
      ExportAllLast(respond, history, variant, config, org, entries[..i + 1]);
      status := Export(variant, config, org, entries[i]);
      assert status == last.result;
      done' := done + last.events;
    }

    /** `export_command`: load the configuration, list the stack with its pull requests, and export every entry. */
    method ExportCommand(variant: Variant, section: map<string, string>, repo: Repository, pulls: PullsService)
      returns (r: Result<seq<Status>, Error>)
      modifies this
      ensures trace == old(trace) + ExportCommandOf(respond, old(trace), variant, section, repo, pulls).events
      ensures r == ExportCommandOf(respond, old(trace), variant, section, repo, pulls).result
    {
      var prepared := Prepare(variant, section, repo, pulls);
      if prepared.Failure? {
        return Failure(prepared.error);
      }
      var (config, entries, org) := prepared.value;
      r := ExportAll(variant, config, org, entries);
    }
  }
}
