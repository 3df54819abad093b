/**
 Routing by event, action and label (app/dispatcher.py).
 */
module Dispatcher {
  import opened Base
  import opened Handlers
  import opened Sessions

  const GATE_LABEL := "devin-remediate"

  datatype Event =
    | Issues(action: string, labels: set<string>, issue: Issue)
    | WorkflowRunEvent(action: string, conclusion: string, run: WorkflowRun)
    | Ping
    | Unhandled(kind: string)

  datatype Route = Answer(outcome: Outcome) | ToSecurity(issue: Issue) | ToCi(run: WorkflowRun)

  function RouteOf(e: Event): Route {
    match e
    case Issues(action, labels, issue) =>
      if action !in {"opened", "labeled", "reopened"} then Answer(Skipped(IssueAction))
      else if GATE_LABEL !in labels then Answer(Skipped(NoGateLabel))
      else if SECURITY_LABEL in labels then ToSecurity(issue)
      else Answer(Stub)   // quality and generic handlers, which only return a string
    case WorkflowRunEvent(action, conclusion, run) =>
      if action != "completed" then Answer(Skipped(WorkflowAction))
      else if conclusion != "failure" then Answer(Skipped(WorkflowConclusion))
      else ToCi(run)
    case Ping => Answer(Pong)
    case Unhandled(_) => Answer(Skipped(UnhandledEvent))
  }

  function Dispatch(cfg: Config, l: Ledger, e: Event, env: Env): (Ledger, Outcome) {
    match RouteOf(e)
    case Answer(outcome) => (l, outcome)
    case ToSecurity(issue) => HandleSecurity(cfg, l, issue, env)
    case ToCi(run) => HandleCi(cfg, l, run, env)
  }

  /** An issue event that carries the gate label and the security label, in any of the three actions. */
  predicate GatedSecurity(e: Event) {
    e.Issues? && (e.action == "opened" || e.action == "labeled" || e.action == "reopened")
    && {"devin-remediate", "devin-security"} <= e.labels
  }

  predicate FailedRun(e: Event) {
    e.WorkflowRunEvent? && e.action == "completed" && e.conclusion == "failure"
  }

  /** Only gated security issues and failed runs reach a handler, each its own, with their payload. */
  lemma RoutedExactly(e: Event)
    ensures RouteOf(e).ToSecurity? <==> GatedSecurity(e)
    ensures RouteOf(e).ToCi? <==> FailedRun(e)
    ensures GatedSecurity(e) ==> RouteOf(e) == ToSecurity(e.issue)
    ensures FailedRun(e) ==> RouteOf(e) == ToCi(e.run)
  {
  }

  /** Every other event is answered at once, and the answer tells why. */
  lemma AnsweredExactly(e: Event)
    ensures e.Issues? && e.action != "opened" && e.action != "labeled" && e.action != "reopened" ==>
              RouteOf(e) == Answer(Skipped(IssueAction))
    ensures e.Issues? && e.action in {"opened", "labeled", "reopened"} && "devin-remediate" !in e.labels ==>
              RouteOf(e) == Answer(Skipped(NoGateLabel))
    ensures e.Issues? && e.action in {"opened", "labeled", "reopened"} && "devin-remediate" in e.labels
            && "devin-security" !in e.labels ==>
              RouteOf(e) == Answer(Stub)
    ensures e.WorkflowRunEvent? && e.action != "completed" ==> RouteOf(e) == Answer(Skipped(WorkflowAction))
    ensures e.WorkflowRunEvent? && e.action == "completed" && e.conclusion != "failure" ==>
              RouteOf(e) == Answer(Skipped(WorkflowConclusion))
    ensures e.Ping? ==> RouteOf(e) == Answer(Pong)
    ensures e.Unhandled? ==> RouteOf(e) == Answer(Skipped(UnhandledEvent))
  {
  }

  /** An event is queued exactly if it is a gated security issue and no slot is free; queueing changes
      nothing else. */
  lemma QueuedExactly(cfg: Config, l: Ledger, e: Event, env: Env)
    ensures Dispatch(cfg, l, e, env).1.Queued? <==> GatedSecurity(e) && CountActive(l.rows) >= cfg.maxConcurrent
    ensures Dispatch(cfg, l, e, env).1.Queued? ==> Dispatch(cfg, l, e, env).0 == l
  {
    RoutedExactly(e);
  }

  lemma AdmitAddsAtMostOne(rows: seq<Row>, log: seq<Call>, job: Job, vetting: Vetting, env: Env)
    ensures CountActive(Admit(rows, log, job, vetting, env).0.rows) <= CountActive(rows) + 1
  {
    var after := Admit(rows, log, job, vetting, env).0.rows;
    assert after == rows + [after[|rows|]];
    CountAppend(rows, after[|rows|], IS_ACTIVE);
  }

  lemma SecurityAddsAtMostOne(cfg: Config, l: Ledger, issue: Issue, env: Env)
    ensures CountActive(HandleSecurity(cfg, l, issue, env).0.rows) <= CountActive(l.rows) + 1
  {
    AdmitAddsAtMostOne(l.rows, l.log, SecurityJob(issue, env.now), Vet(issue), env);
  }
}
