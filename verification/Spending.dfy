/**
 Exactly when money is spent, told without the handlers' control flow.
 */
module Spending {
  import opened Base
  import opened Devin
  import opened Sessions
  import opened Handlers
  import opened WorkKeys
  import Summaries
  import IssueBody

  /** Calls to create_session in a log, successful or not. */
  function Creates(log: seq<Call>): nat { Count(log, IS_CREATE) }

  const IS_CREATE: Call -> bool := (c: Call) => c.Create?

  predicate Spends(before: Ledger, after: Ledger) { Creates(after.log) > Creates(before.log) }

  lemma LogGrowsByOne(log: seq<Call>, c: Call)
    ensures Creates(log + [c]) == Creates(log) + One(c.Create?)
  {
    CountAppend(log, c, IS_CREATE);
  }

  lemma {:induction false} TerminationsTerminate(rows: seq<Row>, kids: seq<nat>, n: nat)
    requires n <= |kids| && forall a :: 0 <= a < |kids| ==> kids[a] < |rows|
    ensures forall k :: 0 <= k < |Terminations(rows, kids, n)| ==> Terminations(rows, kids, n)[k].Terminate?
  {
    if n == 0 {
    } else {
      TerminationsTerminate(rows, kids, n - 1);
    }
  }

  lemma StoppingCreatesNothing(log: seq<Call>, rows: seq<Row>, kids: seq<nat>)
    requires forall a :: 0 <= a < |kids| ==> kids[a] < |rows|
    ensures Creates(log + Terminations(rows, kids, |kids|)) == Creates(log)
  {
    var calls := Terminations(rows, kids, |kids|);
    TerminationsTerminate(rows, kids, |kids|);
    CountConcat(log, calls, IS_CREATE);
    CountNone(calls, IS_CREATE);
  }

  lemma EscalationCreatesNothing(l: Ledger, p: nat, attempts: nat)
    requires p < |l.rows|
    ensures Creates(Escalate(l, p, attempts).log) == Creates(l.log)
  {
    var marked := Update(l.rows, p, EscalatePatch(attempts));
    var kids := ActiveChildren(marked, l.rows[p].devinId);
    StoppingCreatesNothing(l.log, marked, kids);
    LogGrowsByOne(l.log + Terminations(marked, kids, |kids|), Comment(p));
  }

  lemma AdmitSpendsExactly(rows: seq<Row>, log: seq<Call>, job: Job, vetting: Vetting, env: Env)
    ensures Creates(Admit(rows, log, job, vetting, env).0.log) == Creates(log) + One(vetting.Good?)
  {
    LogGrowsByOne(log, Create(job.workKey, env.created));
  }

  lemma GoodMeansComplete(issue: Issue, parsed: Option<IssueBody.CveContext>)
    requires parsed == IssueBody.ParseIssue(issue.body, issue.url, issue.number)
    ensures Vet(issue).Good? <==> parsed.Some? && IssueBody.Missing(parsed.value) == []
  {
  }

  /** A security issue is paid for exactly if both limits leave room, its key is new, and its body parses to
      a complete finding. */
  lemma SecuritySpendsExactly(cfg: Config, l: Ledger, issue: Issue, env: Env)
    ensures var parsed := IssueBody.ParseIssue(issue.body, issue.url, issue.number);
            Spends(l, HandleSecurity(cfg, l, issue, env).0) <==>
              && CountActive(l.rows) < cfg.maxConcurrent
              && |StartedBetween(l.rows, env.now - env.now % 86400, env.now - env.now % 86400 + 86400)| < cfg.maxPerDay
              && !KeyTaken(l.rows, MakeWorkKey(issue.repo, issue.number, SECURITY_LABEL))
              && parsed.Some? && IssueBody.Missing(parsed.value) == []
  {
    CountsToday(l.rows, env.now);
    GoodMeansComplete(issue, IssueBody.ParseIssue(issue.body, issue.url, issue.number));
    AdmitSpendsExactly(l.rows, l.log, SecurityJob(issue, env.now), Vet(issue), env);
  }

  /** End to end: an issue the filing script wrote for a finding with real versions is paid for as soon as the
      limits leave room and its key is new. */
  lemma FiledFindingIsPaidFor(cfg: Config, l: Ledger, f: IssueBody.Finding, issue: Issue, env: Env)
    requires IssueBody.Filed(f) && Summaries.Unforged(f) && issue.body == IssueBody.Body(f) && issue.url != ""
    requires !IssueBody.Placeholder(IssueBody.Strip(f.cve)) && !IssueBody.Placeholder(IssueBody.Strip(f.installed))
    requires !IssueBody.Placeholder(IssueBody.Strip(f.fix))
    ensures Spends(l, HandleSecurity(cfg, l, issue, env).0) <==>
              && CountActive(l.rows) < cfg.maxConcurrent
              && |StartedBetween(l.rows, env.now - env.now % 86400, env.now - env.now % 86400 + 86400)| < cfg.maxPerDay
              && !KeyTaken(l.rows, MakeWorkKey(issue.repo, issue.number, SECURITY_LABEL))
  {
    Summaries.FiledIssueIsComplete(f, issue.url, issue.number);
    SecuritySpendsExactly(cfg, l, issue, env);
  }

  /** Every login on the commit is Devin's own, or absent. */
  predicate DevinsOwn(c: Commit, devin: set<string>) {
    && (c.committer.None? || c.committer.value == "" || c.committer.value in devin)
    && (c.author.None? || c.author.value == "" || c.author.value in devin)
  }

  lemma NoHumanMeansDevins(commits: seq<Commit>, devin: set<string>)
    ensures !HasNonDevinCommits(commits, devin) <==> forall i :: 0 <= i < |commits| ==> DevinsOwn(commits[i], devin)
  {
    if HasNonDevinCommits(commits, devin) {
      var i :| 0 <= i < |commits| && (Human(commits[i].committer, devin) || Human(commits[i].author, devin));
      assert !DevinsOwn(commits[i], devin);
    }
  }

  /** The failed run belongs to a pull request on a Devin branch, and nobody else has committed to it. */
  predicate DevinsPr(run: WorkflowRun, env: Env, devin: set<string>) {
    && run.trigger == "pull_request"
    && run.prNumbers != [] && run.prNumbers[0].Some? && run.prNumbers[0].value != 0
    && env.pr.PrFound? && |env.pr.branch| >= 6 && env.pr.branch[..6] == "devin/"
    && env.commits.Commits? && forall i :: 0 <= i < |env.commits.commits| ==> DevinsOwn(env.commits.commits[i], devin)
  }

  /** Row p is the newest session of this pull request. */
  ghost predicate Newest(rows: seq<Row>, url: string, p: int) {
    && 0 <= p < |rows| && rows[p].prUrl == Some(url)
    && forall i :: p < i < |rows| ==> rows[i].prUrl != Some(url)
  }

  lemma NewestIsFound(rows: seq<Row>, url: string, p: int)
    ensures Newest(rows, url, p) <==> FindByPr(rows, url) == Some(p)
  {
    var f := FindByPr(rows, url);
    assert f.Some? ==> f.value < |rows| && rows[f.value].prUrl == Some(url);
  }

  lemma TrackedSpendsExactly(cfg: Config, l: Ledger, run: WorkflowRun, env: Env, p: nat)
    requires p < |l.rows| && PrOf(run).Some? && env.pr.PrFound?
    ensures Spends(l, HandleTracked(cfg, l, run, env, p).0) <==>
              && Terminal(l.rows[p].status) && MaxFixAttempt(l.rows, l.rows[p].devinId) < cfg.maxFix
              && env.commits.Commits? && !HasNonDevinCommits(env.commits.commits, cfg.devinLogins)
              && CountActive(l.rows) < cfg.maxConcurrent
              && !KeyTaken(l.rows, MakeCiFixWorkKey(run.repo, run.id))
  {
    var highest := MaxFixAttempt(l.rows, l.rows[p].devinId);
    if Terminal(l.rows[p].status) && highest >= cfg.maxFix {
      EscalationCreatesNothing(l, p, highest);
    }
    LogGrowsByOne(l.log, Create(MakeCiFixWorkKey(run.repo, run.id), env.created));
  }

  /** A CI failure is paid for exactly if it is on Devin's own pull request, the newest session of that pull
      request has ended, no session of its chain carries the last allowed attempt, a slot is free, and the run
      is new. */
  lemma CiSpendsExactly(cfg: Config, l: Ledger, run: WorkflowRun, env: Env)
    ensures Spends(l, HandleCi(cfg, l, run, env).0) <==>
              && DevinsPr(run, env, cfg.devinLogins)
              && (exists p :: Newest(l.rows, env.pr.url, p) && Terminal(l.rows[p].status)
                              && MaxFixAttempt(l.rows, l.rows[p].devinId) < cfg.maxFix)
              && CountActive(l.rows) < cfg.maxConcurrent
              && !KeyTaken(l.rows, MakeCiFixWorkKey(run.repo, run.id))
  {
    if env.pr.PrFound? && PrOf(run).Some? {
      forall p ensures Newest(l.rows, env.pr.url, p) <==> FindByPr(l.rows, env.pr.url) == Some(p) {
        NewestIsFound(l.rows, env.pr.url, p);
      }
      if FindByPr(l.rows, env.pr.url).Some? {
        TrackedSpendsExactly(cfg, l, run, env, FindByPr(l.rows, env.pr.url).value);
      }
      if env.commits.Commits? {
        NoHumanMeansDevins(env.commits.commits, cfg.devinLogins);
      }
      assert "devin/" <= env.pr.branch <==> |env.pr.branch| >= 6 && env.pr.branch[..6] == "devin/";
    }
  }
}
