/**
 What each handler does to the sessions table (app/handlers.py), as functions.  The imperative
 versions are in Orchestrator.dfy and are proved to compute exactly these.

 A ledger is the sessions table together with the log of calls that cost money or are visible
 outside: sessions created, sessions terminated, comments posted.
 */
module Handlers {
  import opened Base
  import opened Devin
  import opened Sessions
  import opened WorkKeys
  import IssueBody
  import Poller

  datatype Call =
    | Create(key: string, result: Option<string>)   // create_session, and the id it returned
    | Terminate(sid: string)                        // terminate_session, whether or not it worked
    | Comment(pk: nat)                              // escalation comment about this row

  datatype Ledger = Ledger(rows: seq<Row>, log: seq<Call>)

  datatype Config = Config(
    maxConcurrent: int,
    maxPerDay: int,
    timeout: int,
    maxFix: int,
    devinLogins: set<string>)

  const SECURITY_LABEL := "devin-security"
  const CI_FIX_LABEL := "devin-ci-fix"

  /** An issue payload, with the repository name already resolved. */
  datatype Issue = Issue(url: string, number: int, repo: string, body: string)

  datatype Commit = Commit(committer: Option<string>, author: Option<string>)

  /** A workflow_run payload. */
  datatype WorkflowRun = WorkflowRun(id: int, repo: string, trigger: string, prNumbers: seq<Option<int>>)

  datatype PrFetch = PrFailed | PrMissing | PrFound(url: string, branch: string)
  datatype CommitFetch = CommitsFailed | Commits(commits: seq<Commit>)

  /** What the outside world answers during one handler call. */
  datatype Env = Env(
    now: int,
    created: Option<string>,   // the id create_session would return; None if it would fail
    pr: PrFetch,
    commits: CommitFetch)

  datatype Skip =
    | NotPrTriggered | NoPrInPayload | NoPrNumber | PrNotFound | NotDevinBranch | NoTrackedSession
    | ParentStillActive(status: Status) | HumanCommits | ConcurrencyCap | DailyCap
    | AlreadyReserved(key: string) | NotCve | Incomplete(names: seq<string>)
    | IssueAction | NoGateLabel | WorkflowAction | WorkflowConclusion | UnhandledEvent

  datatype Outcome =
    | Queued(key: string)
    | Skipped(why: Skip)
    | Errored
    | Escalated(attempts: nat)
    | CreatedSession(sid: string)
    | Stub
    | Pong

  // ---------- security issues ----------

  datatype Vetting = NotACve | Lacking(names: seq<string>) | Good

  function Vet(issue: Issue): Vetting {
    match IssueBody.ParseIssue(issue.body, issue.url, issue.number)
    case None => NotACve
    case Some(ctx) => if IssueBody.Missing(ctx) != [] then Lacking(IssueBody.Missing(ctx)) else Good
  }

  function SecurityKey(issue: Issue): string { MakeWorkKey(issue.repo, issue.number, SECURITY_LABEL) }

  function SecurityJob(issue: Issue, now: int): Job {
    Job(SecurityKey(issue), CveIssue, issue.url, issue.number, SECURITY_LABEL, None, 0, now)
  }

  /** From a fresh reservation to the end: call Devin, then activate the row or mark it failed. */
  function Spend(rows: seq<Row>, log: seq<Call>, job: Job, env: Env): (Ledger, Outcome) {
    var pk := |rows|;
    var reserved := rows + [Reserved(job)];
    var spent := log + [Create(job.workKey, env.created)];
    match env.created
    case None => (Ledger(Update(reserved, pk, FailPatch(CreateFailed, env.now)), spent), Errored)
    case Some(sid) => (Ledger(Update(reserved, pk, ActivatePatch(sid)), spent), CreatedSession(sid))
  }

  /** Once the row is reserved: refuse the issue and mark the row failed, or spend. */
  function Admit(rows: seq<Row>, log: seq<Call>, job: Job, vetting: Vetting, env: Env): (Ledger, Outcome) {
    match vetting
    case NotACve =>
      (Ledger(Update(rows + [Reserved(job)], |rows|, FailPatch(NotACveIssue, env.now)), log), Skipped(NotCve))
    case Lacking(names) =>
      (Ledger(Update(rows + [Reserved(job)], |rows|, FailPatch(MissingFields(names), env.now)), log),
       Skipped(Incomplete(names)))
    case Good => Spend(rows, log, job, env)
  }

  function HandleSecurity(cfg: Config, l: Ledger, issue: Issue, env: Env): (Ledger, Outcome) {
    var key := SecurityKey(issue);
    if CountActive(l.rows) >= cfg.maxConcurrent then (l, Queued(key))
    else if CountStartedOn(l.rows, Day(env.now)) >= cfg.maxPerDay then (l, Skipped(DailyCap))
    else if KeyTaken(l.rows, key) then (l, Skipped(AlreadyReserved(key)))
    else Admit(l.rows, l.log, SecurityJob(issue, env.now), Vet(issue), env)
  }

  // ---------- CI failures ----------

  predicate HasNonDevinCommits(commits: seq<Commit>, devin: set<string>) {
    exists i :: 0 <= i < |commits| &&
      (Human(commits[i].committer, devin) || Human(commits[i].author, devin))
  }

  predicate Human(login: Option<string>, devin: set<string>) {
    login.Some? && login.value != "" && login.value !in devin
  }

  function CancelChildren(rows: seq<Row>, sid: Option<string>): seq<Row> {
    seq(|rows|, i requires 0 <= i < |rows| =>
      if ActiveChild(rows[i], sid) then Apply(rows[i], CANCEL_PATCH) else rows[i])
  }

  /** The terminate calls for the first n of these rows: those with a Devin handle. */
  function Terminations(rows: seq<Row>, kids: seq<nat>, n: nat): seq<Call>
    requires n <= |kids| && forall a :: 0 <= a < |kids| ==> kids[a] < |rows|
  {
    if n == 0 then []
    else Terminations(rows, kids, n - 1) + Termination(rows[kids[n - 1]])
  }

  function Termination(row: Row): seq<Call> {
    if row.devinId.Some? then [Terminate(row.devinId.value)] else []
  }

  function Escalate(l: Ledger, p: nat, attempts: nat): Ledger
    requires p < |l.rows|
  {
    if l.rows[p].status == NeedsAttention then l
    else
      var sid := l.rows[p].devinId;
      var marked := Update(l.rows, p, EscalatePatch(attempts));
      var kids := ActiveChildren(marked, sid);
      Ledger(CancelChildren(marked, sid), l.log + Terminations(marked, kids, |kids|) + [Comment(p)])
  }

  function CiJob(run: WorkflowRun, pr: int, url: string, parent: Option<string>, attempt: nat, now: int): Job {
    Job(MakeCiFixWorkKey(run.repo, run.id), CiFailure, url, pr, CI_FIX_LABEL, parent, attempt, now)
  }

  /** The guards that look only at the payload: the pull request number, or why there is none. */
  function PrOf(run: WorkflowRun): Option<int> {
    if run.trigger == "pull_request" && run.prNumbers != [] && run.prNumbers[0] != Some(0) then run.prNumbers[0]
    else None
  }

  function PayloadSkip(run: WorkflowRun): Skip {
    if run.trigger != "pull_request" then NotPrTriggered
    else if run.prNumbers == [] then NoPrInPayload
    else NoPrNumber
  }

  function HandleCi(cfg: Config, l: Ledger, run: WorkflowRun, env: Env): (Ledger, Outcome) {
    if PrOf(run).None? then (l, Skipped(PayloadSkip(run)))
    else if env.pr.PrFailed? then (l, Errored)
    else if env.pr.PrMissing? then (l, Skipped(PrNotFound))
    else if !("devin/" <= env.pr.branch) then (l, Skipped(NotDevinBranch))
    else
      match FindByPr(l.rows, env.pr.url)
      case None => (l, Skipped(NoTrackedSession))
      case Some(p) => HandleTracked(cfg, l, run, env, p)
  }

  function HandleTracked(cfg: Config, l: Ledger, run: WorkflowRun, env: Env, p: nat): (Ledger, Outcome)
    requires p < |l.rows| && PrOf(run).Some? && env.pr.PrFound?
  {
    var parent := l.rows[p];
    var highest := MaxFixAttempt(l.rows, parent.devinId);
    if !Terminal(parent.status) then (l, Skipped(ParentStillActive(parent.status)))
    else if highest >= cfg.maxFix then (Escalate(l, p, highest), Escalated(highest))
    else if env.commits.CommitsFailed? then (l, Errored)
    else if HasNonDevinCommits(env.commits.commits, cfg.devinLogins) then (l, Skipped(HumanCommits))
    else if CountActive(l.rows) >= cfg.maxConcurrent then (l, Skipped(ConcurrencyCap))
    else
      var job := CiJob(run, PrOf(run).value, env.pr.url, parent.devinId, highest + 1, env.now);
      if KeyTaken(l.rows, job.workKey) then (l, Skipped(AlreadyReserved(job.workKey)))
      else Spend(l.rows, l.log, job, env)
  }

  // ---------- one poll, on the ledger ----------

  function PollStep(cfg: Config, l: Ledger, i: nat, s: Poller.Sample): Ledger {
    if i < |l.rows| && Active(l.rows[i].status) then
      var e := Poller.Poll(cfg.timeout, l.rows[i], s.reply, s.now);
      Ledger(Update(l.rows, i, e.patch),
             if e.terminate && l.rows[i].devinId.Some? then l.log + [Terminate(l.rows[i].devinId.value)] else l.log)
    else l
  }

  /** A poll makes a call exactly if it has to stop the session, and then it terminates that session. */
  lemma PollStops(cfg: Config, l: Ledger, i: nat, s: Poller.Sample)
    ensures PollStep(cfg, l, i, s).log ==
            if i < |l.rows| && Active(l.rows[i].status) && Poller.StopsRemote(cfg.timeout, l.rows[i], s)
            then l.log + [Terminate(l.rows[i].devinId.value)] else l.log
  {
  }

  /** A poll changes its own row alone. */
  lemma PollsRow(cfg: Config, l: Ledger, i: nat, s: Poller.Sample)
    requires i < |l.rows|
    ensures PollStep(cfg, l, i, s).rows == l.rows[i := Poller.PollRow(cfg.timeout, l.rows[i], s)]
  {
    if Active(l.rows[i].status) {
    } else {
      assert l.rows[i := l.rows[i]] == l.rows;
    }
  }
}
