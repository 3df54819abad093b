/**
 What the two handlers decide, told from the tables and the payload alone: each answer, and each new row column by
 column.
 */
module Decisions {
  import opened Base
  import opened Devin
  import opened Sessions
  import opened Handlers
  import opened WorkKeys
  import opened Spending
  import IssueBody

  function FailedRow(job: Job, reason: Reason, now: int): Row {
    Row(job, Failed, None, None, None, None, 0.0, Some(now), None, Some(reason), None)
  }

  function StartedRow(job: Job, sid: string): Row {
    Row(job, Pending, Some(sid), None, None, None, 0.0, None, None, None, None)
  }

  /** Nothing happens but the answer. */
  predicate Declines(l: Ledger, r: Ledger, answer: Outcome, why: Skip) {
    r == l && answer == Skipped(why)
  }

  /** The unit of work is claimed and then refused: the row stays, as failed, and nothing is paid. */
  predicate Refuses(l: Ledger, r: Ledger, answer: Outcome, row: Row, why: Skip) {
    r == Ledger(l.rows + [row], l.log) && answer == Skipped(why)
  }

  /** The unit of work is claimed and Devin is called for it, once: the row is started or has failed. */
  predicate Calls(l: Ledger, r: Ledger, answer: Outcome, job: Job, env: Env) {
    && r.log == l.log + [Create(job.workKey, env.created)]
    && match env.created
       case Some(sid) => r.rows == l.rows + [StartedRow(job, sid)] && answer == CreatedSession(sid)
       case None => r.rows == l.rows + [FailedRow(job, CreateFailed, env.now)] && answer == Errored
  }

  ghost predicate Known(rows: seq<Row>, key: string) {
    exists i :: 0 <= i < |rows| && rows[i].job.workKey == key
  }

  // ---------- security issues ----------

  function SecurityWork(issue: Issue, now: int): Job {
    Job("issue:" + issue.repo + ":" + Numeral(issue.number) + ":devin-security", CveIssue, issue.url, issue.number,
        "devin-security", None, 0, now)
  }

  lemma SecurityJobIs(issue: Issue, now: int)
    ensures SecurityJob(issue, now) == SecurityWork(issue, now)
  {
    KeyShapes(issue.repo, issue.number, "devin-security", 0);
  }

  lemma AdmitDecides(l: Ledger, job: Job, issue: Issue, env: Env)
    ensures var (r, answer) := Admit(l.rows, l.log, job, Vet(issue), env);
            var parsed := IssueBody.ParseIssue(issue.body, issue.url, issue.number);
            if parsed.None? then Refuses(l, r, answer, FailedRow(job, NotACveIssue, env.now), NotCve)
            else
              var missing := IssueBody.Missing(parsed.value);
              if missing != [] then
                Refuses(l, r, answer, FailedRow(job, MissingFields(missing), env.now), Incomplete(missing))
              else Calls(l, r, answer, job, env)
  {
  }

  /** A security issue with room in both limits and a new key: refused and on record if its body is no finding or
      lacks fields, paid for otherwise. */
  lemma NewIssueDecides(cfg: Config, l: Ledger, issue: Issue, env: Env)
    requires CountActive(l.rows) < cfg.maxConcurrent
    requires |StartedBetween(l.rows, env.now - env.now % 86400, env.now - env.now % 86400 + 86400)| < cfg.maxPerDay
    requires !Known(l.rows, SecurityWork(issue, env.now).workKey)
    ensures var (r, answer) := HandleSecurity(cfg, l, issue, env);
            var parsed := IssueBody.ParseIssue(issue.body, issue.url, issue.number);
            var job := SecurityWork(issue, env.now);
            if parsed.None? then Refuses(l, r, answer, FailedRow(job, NotACveIssue, env.now), NotCve)
            else
              var missing := IssueBody.Missing(parsed.value);
              if missing != [] then
                Refuses(l, r, answer, FailedRow(job, MissingFields(missing), env.now), Incomplete(missing))
              else Calls(l, r, answer, job, env)
  {
    CountsToday(l.rows, env.now);
    SecurityJobIs(issue, env.now);
    AdmitDecides(l, SecurityJob(issue, env.now), issue, env);
    assert !KeyTaken(l.rows, SecurityKey(issue));
    assert HandleSecurity(cfg, l, issue, env) ==
           Admit(l.rows, l.log, SecurityJob(issue, env.now), Vet(issue), env);
  }

  /** Without that it changes nothing: queued if no slot is free, else dropped if the day is full, else a duplicate. */
  lemma OtherIssueDecides(cfg: Config, l: Ledger, issue: Issue, env: Env)
    ensures var (r, answer) := HandleSecurity(cfg, l, issue, env);
            var key := SecurityWork(issue, env.now).workKey;
            var today := StartedBetween(l.rows, env.now - env.now % 86400, env.now - env.now % 86400 + 86400);
            if CountActive(l.rows) >= cfg.maxConcurrent then r == l && answer == Queued(key)
            else if |today| >= cfg.maxPerDay then Declines(l, r, answer, DailyCap)
            else Known(l.rows, key) ==> Declines(l, r, answer, AlreadyReserved(key))
  {
    CountsToday(l.rows, env.now);
    SecurityJobIs(issue, env.now);
    assert SecurityKey(issue) == SecurityJob(issue, env.now).workKey;
  }

  // ---------- CI failures ----------

  /** The run belongs to a pull request with a number, on a Devin branch. */
  predicate OnDevinBranch(run: WorkflowRun, env: Env) {
    && run.trigger == "pull_request"
    && run.prNumbers != [] && run.prNumbers[0].Some? && run.prNumbers[0].value != 0
    && env.pr.PrFound? && |env.pr.branch| >= 6 && env.pr.branch[..6] == "devin/"
  }

  /** Any other run is declined, with the first reason there is. */
  lemma OtherRunDecides(cfg: Config, l: Ledger, run: WorkflowRun, env: Env)
    requires !OnDevinBranch(run, env)
    ensures var (r, answer) := HandleCi(cfg, l, run, env);
            if run.trigger != "pull_request" then Declines(l, r, answer, NotPrTriggered)
            else if run.prNumbers == [] then Declines(l, r, answer, NoPrInPayload)
            else if run.prNumbers[0].None? || run.prNumbers[0].value == 0 then Declines(l, r, answer, NoPrNumber)
            else if env.pr.PrFailed? then r == l && answer == Errored
            else if env.pr.PrMissing? then Declines(l, r, answer, PrNotFound)
            else Declines(l, r, answer, NotDevinBranch)
  {
    assert env.pr.PrFound? ==>
             ("devin/" <= env.pr.branch <==> |env.pr.branch| >= 6 && env.pr.branch[..6] == "devin/");
  }

  lemma UntrackedDecides(cfg: Config, l: Ledger, run: WorkflowRun, env: Env)
    requires OnDevinBranch(run, env) && forall i :: 0 <= i < |l.rows| ==> l.rows[i].prUrl != Some(env.pr.url)
    ensures var (r, answer) := HandleCi(cfg, l, run, env); Declines(l, r, answer, NoTrackedSession)
  {
    assert FindByPr(l.rows, env.pr.url).None?;
  }

  function FixWork(run: WorkflowRun, pr: int, url: string, parent: Option<string>, attempt: nat, now: int): Job {
    Job("ci_fix:" + run.repo + ":" + Numeral(run.id), CiFailure, url, pr, "devin-ci-fix", parent, attempt, now)
  }

  lemma CiJobIs(run: WorkflowRun, pr: int, url: string, parent: Option<string>, attempt: nat, now: int)
    ensures CiJob(run, pr, url, parent, attempt, now) == FixWork(run, pr, url, parent, attempt, now)
  {
    KeyShapes(run.repo, 0, "", run.id);
  }

  lemma SpendCalls(l: Ledger, job: Job, env: Env)
    ensures var (r, answer) := Spend(l.rows, l.log, job, env); Calls(l, r, answer, job, env)
  {
  }

  /** What happens to a tracked run once row p is found, `highest` being the highest attempt of its chain. */
  ghost predicate Fixes(cfg: Config, l: Ledger, env: Env, p: nat, highest: nat, job: Job, r: Ledger, answer: Outcome)
    requires p < |l.rows|
  {
    if !Terminal(l.rows[p].status) then Declines(l, r, answer, ParentStillActive(l.rows[p].status))
    else if highest >= cfg.maxFix then r == Escalate(l, p, highest) && answer == Escalated(highest)
    else if env.commits.CommitsFailed? then r == l && answer == Errored
    else if exists i :: 0 <= i < |env.commits.commits| && !DevinsOwn(env.commits.commits[i], cfg.devinLogins) then
      Declines(l, r, answer, HumanCommits)
    else if CountActive(l.rows) >= cfg.maxConcurrent then Declines(l, r, answer, Skip.ConcurrencyCap)
    else if Known(l.rows, job.workKey) then Declines(l, r, answer, AlreadyReserved(job.workKey))
    else Calls(l, r, answer, job, env)
  }

  lemma TrackedDecides(cfg: Config, l: Ledger, run: WorkflowRun, env: Env, p: nat, highest: nat, job: Job)
    requires p < |l.rows| && PrOf(run).Some? && env.pr.PrFound?
    requires highest == MaxFixAttempt(l.rows, l.rows[p].devinId)
    requires job == CiJob(run, PrOf(run).value, env.pr.url, l.rows[p].devinId, highest + 1, env.now)
    ensures var (r, answer) := HandleTracked(cfg, l, run, env, p); Fixes(cfg, l, env, p, highest, job, r, answer)
  {
    if env.commits.Commits? {
      NoHumanMeansDevins(env.commits.commits, cfg.devinLogins);
    }
    SpendCalls(l, job, env);
  }

  /** A failed run on a pull request the service knows: the newest session of that pull request decides, and a new
      fix session carries that session's id, the next attempt, the pull request and the run's own key. */
  lemma TrackedRunDecides(cfg: Config, l: Ledger, run: WorkflowRun, env: Env, p: nat)
    requires OnDevinBranch(run, env) && Newest(l.rows, env.pr.url, p)
    ensures var (r, answer) := HandleCi(cfg, l, run, env);
            var highest := MaxFixAttempt(l.rows, l.rows[p].devinId);
            Fixes(cfg, l, env, p, highest,
                  FixWork(run, run.prNumbers[0].value, env.pr.url, l.rows[p].devinId, highest + 1, env.now), r, answer)
  {
    var highest := MaxFixAttempt(l.rows, l.rows[p].devinId);
    NewestIsFound(l.rows, env.pr.url, p);
    CiJobIs(run, run.prNumbers[0].value, env.pr.url, l.rows[p].devinId, highest + 1, env.now);
    TrackedDecides(cfg, l, run, env, p, highest,
                   CiJob(run, run.prNumbers[0].value, env.pr.url, l.rows[p].devinId, highest + 1, env.now));
    assert "devin/" <= env.pr.branch;
    assert HandleCi(cfg, l, run, env) == HandleTracked(cfg, l, run, env, p);
  }
}
