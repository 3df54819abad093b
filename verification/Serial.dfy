/**
 Runs of the service in which every handler call and every poll of a row is one step.

 `Does` says, as a relation, what one step may do to the ledger; `NextDoes` proves it of the handler
 functions, and everything about runs is then proved from the relation.
 */
module Serial {
  import opened Base
  import opened Devin
  import opened Sessions
  import opened Handlers
  import opened Poller

  datatype Step =
    | Security(issue: Issue, env: Env)
    | CiRun(run: WorkflowRun, env: Env)
    | PollOne(i: nat, sample: Sample)

  function Next(cfg: Config, l: Ledger, step: Step): Ledger {
    match step
    case Security(issue, env) => HandleSecurity(cfg, l, issue, env).0
    case CiRun(run, env) => HandleCi(cfg, l, run, env).0
    case PollOne(i, s) => PollStep(cfg, l, i, s)
  }

  function Run(cfg: Config, l: Ledger, steps: seq<Step>): Ledger {
    if steps == [] then l else Next(cfg, Run(cfg, l, steps[..|steps| - 1]), steps[|steps| - 1])
  }

  predicate FreshId(rows: seq<Row>, sid: Option<string>) {
    sid.Some? ==> forall i :: 0 <= i < |rows| ==> rows[i].devinId != sid
  }

  /** The one assumption about the outside: Devin never hands out an id twice. */
  predicate Legal(rows: seq<Row>, step: Step) {
    match step
    case Security(_, env) => FreshId(rows, env.created)
    case CiRun(_, env) => FreshId(rows, env.created)
    case PollOne(_, _) => true
  }

  /** The tables a run goes through: entry k is the table after k steps. */
  function Tables(cfg: Config, l: Ledger, steps: seq<Step>): (t: seq<seq<Row>>)
    ensures |t| == |steps| + 1
  {
    if steps == [] then [l.rows]
    else Tables(cfg, l, steps[..|steps| - 1]) + [Run(cfg, l, steps).rows]
  }

  predicate LegalRun(cfg: Config, l: Ledger, steps: seq<Step>) {
    forall k :: 0 <= k < |steps| ==> Legal(Tables(cfg, l, steps)[k], steps[k])
  }

  lemma {:induction false} TableAt(cfg: Config, l: Ledger, steps: seq<Step>, k: nat)
    requires k <= |steps|
    ensures Tables(cfg, l, steps)[k] == Run(cfg, l, steps[..k]).rows
  {
    if k == |steps| {
      assert steps[..k] == steps;
    } else {
      var init := steps[..|steps| - 1];
      TableAt(cfg, l, init, k);
      assert init[..k] == steps[..k];
    }
  }

  lemma LegalSplit(cfg: Config, l: Ledger, steps: seq<Step>)
    requires steps != [] && LegalRun(cfg, l, steps)
    ensures var init := steps[..|steps| - 1];
            LegalRun(cfg, l, init) && Legal(Run(cfg, l, init).rows, steps[|steps| - 1])
  {
    var init := steps[..|steps| - 1];
    TableAt(cfg, l, init, |init|);
    assert init[..|init|] == init;
    forall k | 0 <= k < |init| ensures Legal(Tables(cfg, l, init)[k], init[k]) {
      assert Legal(Tables(cfg, l, steps)[k], steps[k]);
    }
    assert Legal(Tables(cfg, l, steps)[|init|], steps[|init|]);
  }

  const NOTHING := Ledger([], [])

  // ---------- one step, as a relation ----------

  datatype Change =
    | Unchanged
    | Added(row: Row, parentAt: Option<nat>)
    | Raised(p: nat, url: string, attempts: nat)
    | Polled(i: nat, sample: Sample)

  predicate NewRow(rows: seq<Row>, row: Row) {
    && !KeyTaken(rows, row.job.workKey) && FreshId(rows, row.devinId)
    && row.prUrl.None? && row.output.None? && row.lastPolled.None?
    && ((row.status.Failed? && row.devinId.None? && row.completedAt.Some?) ||
        (row.status.Pending? && row.devinId.Some? && row.completedAt.None?))
  }

  predicate NewJob(cfg: Config, rows: seq<Row>, job: Job, parentAt: Option<nat>) {
    match parentAt
    case None => job.kind.CveIssue? && job.parent.None? && job.attempt == 0
    case Some(p) =>
      && job.kind.CiFailure? && p < |rows| && rows[p].prUrl == Some(job.triggerRef)
      && FindByPr(rows, job.triggerRef) == Some(p) && Terminal(rows[p].status)
      && job.parent == rows[p].devinId
      && job.attempt == MaxFixAttempt(rows, rows[p].devinId) + 1 <= cfg.maxFix
  }

  predicate Does(cfg: Config, l: Ledger, ch: Change, r: Ledger) {
    match ch
    case Unchanged => r == l
    case Added(row, parentAt) =>
      && r.rows == l.rows + [row] && NewRow(l.rows, row) && NewJob(cfg, l.rows, row.job, parentAt)
      && CountActive(l.rows) < cfg.maxConcurrent
      && (r.log == l.log + [Create(row.job.workKey, row.devinId)] || (r.log == l.log && row.devinId.None?))
    case Raised(p, url, attempts) =>
      && p < |l.rows| && FindByPr(l.rows, url) == Some(p) && Terminal(l.rows[p].status)
      && attempts == MaxFixAttempt(l.rows, l.rows[p].devinId) && attempts >= cfg.maxFix
      && r == Escalate(l, p, attempts)
    case Polled(i, s) =>
      && i < |l.rows| && Active(l.rows[i].status)
      && r.rows == l.rows[i := PollRow(cfg.timeout, l.rows[i], s)]
      && r.log == if StopsRemote(cfg.timeout, l.rows[i], s) then l.log + [Terminate(l.rows[i].devinId.value)]
                  else l.log
  }

  function ChangeOf(cfg: Config, l: Ledger, step: Step): Change {
    match step
    case Security(issue, env) =>
      var r := HandleSecurity(cfg, l, issue, env).0;
      if |r.rows| > |l.rows| then Added(r.rows[|l.rows|], None) else Unchanged
    case CiRun(run, env) =>
      var (r, outcome) := HandleCi(cfg, l, run, env);
      if outcome.Escalated? && env.pr.PrFound? && FindByPr(l.rows, env.pr.url).Some? then
        Raised(FindByPr(l.rows, env.pr.url).value, env.pr.url, outcome.attempts)
      else if |r.rows| > |l.rows| && env.pr.PrFound? then Added(r.rows[|l.rows|], FindByPr(l.rows, env.pr.url))
      else Unchanged
    case PollOne(i, s) =>
      if i < |l.rows| && Active(l.rows[i].status) then Polled(i, s) else Unchanged
  }

  lemma SpendAdds(rows: seq<Row>, log: seq<Call>, job: Job, env: Env)
    requires !KeyTaken(rows, job.workKey) && FreshId(rows, env.created)
    ensures var r := Spend(rows, log, job, env).0;
            && |r.rows| == |rows| + 1
            && var row := r.rows[|rows|];
               && r.rows == rows + [row] && NewRow(rows, row) && row.job == job
               && r.log == log + [Create(job.workKey, row.devinId)]
    ensures !Spend(rows, log, job, env).1.Escalated?
  {
  }

  lemma AdmitAdds(rows: seq<Row>, log: seq<Call>, job: Job, vetting: Vetting, env: Env)
    requires !KeyTaken(rows, job.workKey) && FreshId(rows, env.created)
    ensures var r := Admit(rows, log, job, vetting, env).0;
            && |r.rows| == |rows| + 1
            && var row := r.rows[|rows|];
               && r.rows == rows + [row] && NewRow(rows, row) && row.job == job
               && (r.log == log + [Create(job.workKey, row.devinId)] || (r.log == log && row.devinId.None?))
  {
    if vetting.Good? {
      SpendAdds(rows, log, job, env);
    }
  }

  lemma SecurityDoes(cfg: Config, l: Ledger, issue: Issue, env: Env)
    requires FreshId(l.rows, env.created)
    ensures Does(cfg, l, ChangeOf(cfg, l, Security(issue, env)), HandleSecurity(cfg, l, issue, env).0)
  {
    if CountActive(l.rows) < cfg.maxConcurrent && CountStartedOn(l.rows, Day(env.now)) < cfg.maxPerDay
       && !KeyTaken(l.rows, SecurityKey(issue)) {
      AdmitAdds(l.rows, l.log, SecurityJob(issue, env.now), Vet(issue), env);
    }
  }

  lemma TrackedDoes(cfg: Config, l: Ledger, run: WorkflowRun, env: Env, p: nat)
    requires FreshId(l.rows, env.created) && p < |l.rows| && PrOf(run).Some? && env.pr.PrFound?
    requires FindByPr(l.rows, env.pr.url) == Some(p)
    ensures var (r, outcome) := HandleTracked(cfg, l, run, env, p);
            if outcome.Escalated? then Does(cfg, l, Raised(p, env.pr.url, outcome.attempts), r)
            else if |r.rows| > |l.rows| then Does(cfg, l, Added(r.rows[|l.rows|], Some(p)), r)
            else Does(cfg, l, Unchanged, r)
  {
    var highest := MaxFixAttempt(l.rows, l.rows[p].devinId);
    var job := CiJob(run, PrOf(run).value, env.pr.url, l.rows[p].devinId, highest + 1, env.now);
    if Terminal(l.rows[p].status) && highest < cfg.maxFix && CountActive(l.rows) < cfg.maxConcurrent
       && !KeyTaken(l.rows, job.workKey) {
      SpendAdds(l.rows, l.log, job, env);
    }
  }

  lemma NextDoes(cfg: Config, l: Ledger, step: Step)
    requires Legal(l.rows, step)
    ensures Does(cfg, l, ChangeOf(cfg, l, step), Next(cfg, l, step))
  {
    match step {
      case Security(issue, env) => SecurityDoes(cfg, l, issue, env);
      case CiRun(run, env) =>
        if env.pr.PrFound? && FindByPr(l.rows, env.pr.url).Some? && PrOf(run).Some? {
          TrackedDoes(cfg, l, run, env, FindByPr(l.rows, env.pr.url).value);
        }
      case PollOne(i, s) =>
    }
  }

  lemma PolledIsPoll(cfg: Config, l: Ledger, step: Step)
    ensures var ch := ChangeOf(cfg, l, step);
            if step.PollOne? && step.i < |l.rows| && Active(l.rows[step.i].status)
            then ch == Polled(step.i, step.sample)
            else !ch.Polled?
  {
  }

  /** A row after an escalation: the parent is marked, its active children are cancelled. */
  lemma EscalatedRow(l: Ledger, p: nat, attempts: nat, i: nat)
    requires p < |l.rows| && i < |l.rows| && Terminal(l.rows[p].status)
    ensures var r := Escalate(l, p, attempts);
            var sid := l.rows[p].devinId;
            var marked := if i == p then Apply(l.rows[p], EscalatePatch(attempts)) else l.rows[i];
            && |r.rows| == |l.rows|
            && r.rows[i] == if ActiveChild(marked, sid) then Apply(marked, CANCEL_PATCH) else marked
  {
  }

  // ---------- rows only grow ----------

  lemma DoesExtends(cfg: Config, l: Ledger, ch: Change, r: Ledger)
    requires Does(cfg, l, ch, r)
    ensures Extends(l.rows, r.rows) && l.log <= r.log
  {
    if ch.Raised? {
      forall i | 0 <= i < |l.rows| ensures Keeps(l.rows[i], r.rows[i]) {
        EscalatedRow(l, ch.p, ch.attempts, i);
      }
    }
  }

  lemma {:induction false} RunExtends(cfg: Config, l: Ledger, steps: seq<Step>)
    requires LegalRun(cfg, l, steps)
    ensures Extends(l.rows, Run(cfg, l, steps).rows) && l.log <= Run(cfg, l, steps).log
  {
    if steps == [] {
    } else {
      var init, last := steps[..|steps| - 1], steps[|steps| - 1];
      LegalSplit(cfg, l, steps);
      RunExtends(cfg, l, init);
      NextDoes(cfg, Run(cfg, l, init), last);
      DoesExtends(cfg, Run(cfg, l, init), ChangeOf(cfg, Run(cfg, l, init), last), Run(cfg, l, steps));
    }
  }

  lemma {:induction false} LegalPrefix(cfg: Config, l: Ledger, steps: seq<Step>, k: nat)
    requires k <= |steps| && LegalRun(cfg, l, steps)
    ensures LegalRun(cfg, l, steps[..k])
    decreases |steps|
  {
    if k < |steps| {
      var init := steps[..|steps| - 1];
      LegalSplit(cfg, l, steps);
      LegalPrefix(cfg, l, init, k);
      assert init[..k] == steps[..k];
    } else {
      assert steps[..k] == steps;
    }
  }
}
