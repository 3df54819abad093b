/**
 The two layers are one model: a handler or a poll that nobody interrupts does, call by call, what the
 serial specification says it does in one step.
 */
module ThreadSolo {
  import opened Base
  import opened Devin
  import opened Sessions
  import opened Handlers
  import Queue
  import Orchestrator
  import opened Threads
  import Poller

  function StepsLeft(slot: Slot): nat {
    match slot
    case Idle => 0
    case SecStart(_) => 9
    case SecRoom(_) => 8
    case SecToday(_) => 7
    case CiStart(_) => 9
    case CiTracked(_, _, _, _) => 8
    case CiCounted(_, _, _, _, _) => 7
    case CiRoom(_, _, _, _, _) => 6
    case Calling(_, _) => 5
    case Failing(_, _) => 4
    case Holding(_, _) => 4
    case EscMark(_, _) => 7
    case EscList(_) => 6
    case EscKids(_, _) => 5
  }

  predicate Closer(slot: Slot, next: Slot) {
    || StepsLeft(next) < StepsLeft(slot)
    || (slot.EscKids? && next.EscKids? && |next.kids| < |slot.kids|)
  }

  lemma VettedIsCloser(vetting: Vetting, pk: nat, key: string)
    ensures StepsLeft(Vetted(vetting, pk, key)) <= 5
  {
  }

  lemma SecurityProgress(cfg: Config, l: Ledger, slot: Slot, env: Env)
    requires slot.SecStart? || slot.SecRoom? || slot.SecToday?
    ensures Closer(slot, Advance(cfg, l, slot, env).1)
  {
    if slot.SecToday? {
      VettedIsCloser(Vet(slot.issue), |l.rows|, SecurityKey(slot.issue));
    }
  }

  lemma CiProgress(cfg: Config, l: Ledger, slot: Slot, env: Env)
    requires slot.CiStart? || slot.CiTracked? || slot.CiCounted? || slot.CiRoom?
    ensures Closer(slot, Advance(cfg, l, slot, env).1)
  {
  }

  lemma Progress(cfg: Config, l: Ledger, slot: Slot, env: Env)
    requires !slot.Idle?
    ensures Closer(slot, Advance(cfg, l, slot, env).1)
  {
    if slot.SecStart? || slot.SecRoom? || slot.SecToday? {
      SecurityProgress(cfg, l, slot, env);
    } else if slot.CiStart? || slot.CiTracked? || slot.CiCounted? || slot.CiRoom? {
      CiProgress(cfg, l, slot, env);
    }
  }

  /** Run one handler to its end with nobody else stepping in. */
  function Finish(cfg: Config, l: Ledger, slot: Slot, env: Env): Ledger
    decreases StepsLeft(slot), if slot.EscKids? then |slot.kids| else 0
  {
    if slot.Idle? then l
    else
      Progress(cfg, l, slot, env);
      var (r, next) := Advance(cfg, l, slot, env);
      Finish(cfg, r, next, env)
  }

  lemma FinishStep(cfg: Config, l: Ledger, slot: Slot, env: Env, r: Ledger, next: Slot)
    requires !slot.Idle? && Advance(cfg, l, slot, env) == (r, next)
    ensures Finish(cfg, l, slot, env) == Finish(cfg, r, next, env)
  {
  }

  lemma FinishFailing(cfg: Config, l: Ledger, pk: nat, reason: Reason, env: Env)
    ensures Finish(cfg, l, Failing(pk, reason), env) == Ledger(Update(l.rows, pk, FailPatch(reason, env.now)), l.log)
  {
    FinishStep(cfg, l, Failing(pk, reason), env, Ledger(Update(l.rows, pk, FailPatch(reason, env.now)), l.log), Idle);
  }

  lemma FinishHolding(cfg: Config, l: Ledger, pk: nat, sid: string, env: Env)
    ensures Finish(cfg, l, Holding(pk, sid), env) == Ledger(Update(l.rows, pk, ActivatePatch(sid)), l.log)
  {
    FinishStep(cfg, l, Holding(pk, sid), env, Ledger(Update(l.rows, pk, ActivatePatch(sid)), l.log), Idle);
  }

  lemma FinishCalling(cfg: Config, rows: seq<Row>, log: seq<Call>, job: Job, env: Env)
    ensures Finish(cfg, Ledger(rows + [Reserved(job)], log), Calling(|rows|, job.workKey), env) ==
            Spend(rows, log, job, env).0
  {
    var reserved, pk := rows + [Reserved(job)], |rows|;
    var spent := Ledger(reserved, log + [Create(job.workKey, env.created)]);
    var next := if env.created.Some? then Holding(pk, env.created.value) else Failing(pk, CreateFailed);
    FinishStep(cfg, Ledger(reserved, log), Calling(pk, job.workKey), env, spent, next);
    if env.created.Some? {
      FinishHolding(cfg, spent, pk, env.created.value, env);
    } else {
      FinishFailing(cfg, spent, pk, CreateFailed, env);
    }
  }

  lemma FinishVetted(cfg: Config, rows: seq<Row>, log: seq<Call>, job: Job, vetting: Vetting, env: Env)
    ensures Finish(cfg, Ledger(rows + [Reserved(job)], log), Vetted(vetting, |rows|, job.workKey), env) ==
            Admit(rows, log, job, vetting, env).0
  {
    match vetting {
      case NotACve => FinishFailing(cfg, Ledger(rows + [Reserved(job)], log), |rows|, NotACveIssue, env);
      case Lacking(names) => FinishFailing(cfg, Ledger(rows + [Reserved(job)], log), |rows|, MissingFields(names), env);
      case Good => FinishCalling(cfg, rows, log, job, env);
    }
  }

  lemma FinishToday(cfg: Config, l: Ledger, issue: Issue, env: Env, key: string, job: Job, vetting: Vetting)
    requires key == SecurityKey(issue) && job == SecurityJob(issue, env.now) && vetting == Vet(issue)
    ensures Finish(cfg, l, SecToday(issue), env) ==
            if KeyTaken(l.rows, key) then l else Admit(l.rows, l.log, job, vetting, env).0
  {
    assert job.workKey == key;
    if KeyTaken(l.rows, key) {
      FinishStep(cfg, l, SecToday(issue), env, l, Idle);
    } else {
      var next := Vetted(vetting, |l.rows|, key);
      FinishStep(cfg, l, SecToday(issue), env, Ledger(l.rows + [Reserved(job)], l.log), next);
      FinishVetted(cfg, l.rows, l.log, job, vetting, env);
    }
  }

  lemma SoloSecurity(cfg: Config, l: Ledger, issue: Issue, env: Env)
    ensures Finish(cfg, l, SecStart(issue), env) == HandleSecurity(cfg, l, issue, env).0
  {
    if CountActive(l.rows) >= cfg.maxConcurrent {
      FinishStep(cfg, l, SecStart(issue), env, l, Idle);
    } else {
      FinishStep(cfg, l, SecStart(issue), env, l, SecRoom(issue));
      if CountStartedOn(l.rows, Day(env.now)) >= cfg.maxPerDay {
        FinishStep(cfg, l, SecRoom(issue), env, l, Idle);
      } else {
        FinishStep(cfg, l, SecRoom(issue), env, l, SecToday(issue));
        FinishToday(cfg, l, issue, env, SecurityKey(issue), SecurityJob(issue, env.now), Vet(issue));
      }
    }
  }

  // ---------- CI failures ----------

  lemma FinishRoom(cfg: Config, l: Ledger, run: WorkflowRun, pr: int, url: string, parent: Option<string>, attempt: nat,
                   env: Env)
    ensures var job := CiJob(run, pr, url, parent, attempt, env.now);
            Finish(cfg, l, CiRoom(run, pr, url, parent, attempt), env) ==
            if KeyTaken(l.rows, job.workKey) then l else Spend(l.rows, l.log, job, env).0
  {
    var job := CiJob(run, pr, url, parent, attempt, env.now);
    var slot := CiRoom(run, pr, url, parent, attempt);
    if KeyTaken(l.rows, job.workKey) {
      FinishStep(cfg, l, slot, env, l, Idle);
    } else {
      FinishStep(cfg, l, slot, env, Ledger(l.rows + [Reserved(job)], l.log), Calling(|l.rows|, job.workKey));
      FinishCalling(cfg, l.rows, l.log, job, env);
    }
  }

  lemma FinishKid(cfg: Config, rows: seq<Row>, log: seq<Call>, seen: Seen, kid: Seen, rest: seq<Seen>, env: Env)
    ensures Finish(cfg, Ledger(rows, log), EscKids(seen, [kid] + rest), env) ==
            Finish(cfg, Ledger(Update(rows, kid.pk, CANCEL_PATCH), log + Termination(kid.row)),
                   EscKids(seen, rest), env)
  {
    assert ([kid] + rest)[1..] == rest;
    FinishStep(cfg, Ledger(rows, log), EscKids(seen, [kid] + rest), env,
               Ledger(Update(rows, kid.pk, CANCEL_PATCH), log + Termination(kid.row)), EscKids(seen, rest));
  }

  lemma NextKid(rows: seq<Row>, log: seq<Call>, kids: seq<nat>, n: nat)
    requires n < |kids| && forall a :: 0 <= a < |kids| ==> kids[a] < |rows|
    ensures Look(rows, kids)[n..] == [Seen(kids[n], rows[kids[n]])] + Look(rows, kids)[n + 1..]
    ensures (log + Terminations(rows, kids, n)) + Termination(rows[kids[n]]) == log + Terminations(rows, kids, n + 1)
  {
  }

  /** Cancelling the listed children one by one, from the n-th on. */
  lemma {:induction false} FinishKids(cfg: Config, rows: seq<Row>, log: seq<Call>, seen: Seen, kids: seq<nat>, n: nat,
                                    env: Env)
    requires n <= |kids| && forall a :: 0 <= a < |kids| ==> kids[a] < |rows|
    ensures Finish(cfg, Ledger(Orchestrator.CancelFirst(rows, kids, n), log + Terminations(rows, kids, n)),
                   EscKids(seen, Look(rows, kids)[n..]), env) ==
            Ledger(Orchestrator.CancelFirst(rows, kids, |kids|),
                   log + Terminations(rows, kids, |kids|) + [Comment(seen.pk)])
    decreases |kids| - n
  {
    var left := Look(rows, kids)[n..];
    var some, calls := Orchestrator.CancelFirst(rows, kids, n), log + Terminations(rows, kids, n);
    if n < |kids| {
      var kid, rest := Seen(kids[n], rows[kids[n]]), Look(rows, kids)[n + 1..];
      NextKid(rows, log, kids, n);
      FinishKid(cfg, some, calls, seen, kid, rest, env);
      FinishKids(cfg, rows, log, seen, kids, n + 1, env);
    } else {
      assert left == [];
      FinishStep(cfg, Ledger(some, calls), EscKids(seen, []), env, Ledger(some, calls + [Comment(seen.pk)]), Idle);
    }
  }

  lemma FinishEscalation(cfg: Config, l: Ledger, p: nat, attempts: nat, env: Env)
    requires p < |l.rows| && Terminal(l.rows[p].status)
    ensures Finish(cfg, l, EscMark(Seen(p, l.rows[p]), attempts), env) == Escalate(l, p, attempts)
  {
    var seen := Seen(p, l.rows[p]);
    var marked := Update(l.rows, p, EscalatePatch(attempts));
    var kids := ActiveChildren(marked, l.rows[p].devinId);
    FinishStep(cfg, l, EscMark(seen, attempts), env, Ledger(marked, l.log), EscList(seen));
    FinishStep(cfg, Ledger(marked, l.log), EscList(seen), env, Ledger(marked, l.log),
               EscKids(seen, Look(marked, kids)));
    FinishKids(cfg, marked, l.log, seen, kids, 0, env);
    assert l.log + Terminations(marked, kids, 0) == l.log && Look(marked, kids)[0..] == Look(marked, kids);
    Orchestrator.CancelFirstIsAll(marked, l.rows[p].devinId);
  }

  lemma FinishCounted(cfg: Config, l: Ledger, run: WorkflowRun, pr: int, url: string, parent: Option<string>,
                      attempt: nat, env: Env)
    ensures var job := CiJob(run, pr, url, parent, attempt, env.now);
            Finish(cfg, l, CiCounted(run, pr, url, parent, attempt), env) ==
            if HandsOff(cfg, env) || CountActive(l.rows) >= cfg.maxConcurrent || KeyTaken(l.rows, job.workKey) then l
            else Spend(l.rows, l.log, job, env).0
  {
    var slot := CiCounted(run, pr, url, parent, attempt);
    if HandsOff(cfg, env) || CountActive(l.rows) >= cfg.maxConcurrent {
      FinishStep(cfg, l, slot, env, l, Idle);
    } else {
      FinishStep(cfg, l, slot, env, l, CiRoom(run, pr, url, parent, attempt));
      FinishRoom(cfg, l, run, pr, url, parent, attempt, env);
    }
  }

  lemma FinishTracked(cfg: Config, l: Ledger, run: WorkflowRun, env: Env, p: nat)
    requires p < |l.rows| && Terminal(l.rows[p].status) && PrOf(run).Some? && env.pr.PrFound?
    ensures Finish(cfg, l, CiTracked(run, PrOf(run).value, env.pr.url, Seen(p, l.rows[p])), env) ==
            HandleTracked(cfg, l, run, env, p).0
  {
    var pr, parent := PrOf(run).value, l.rows[p].devinId;
    var highest := MaxFixAttempt(l.rows, parent);
    var slot := CiTracked(run, pr, env.pr.url, Seen(p, l.rows[p]));
    if highest >= cfg.maxFix {
      FinishStep(cfg, l, slot, env, l, EscMark(slot.seen, highest));
      FinishEscalation(cfg, l, p, highest, env);
    } else {
      FinishStep(cfg, l, slot, env, l, CiCounted(run, pr, env.pr.url, parent, highest + 1));
      FinishCounted(cfg, l, run, pr, env.pr.url, parent, highest + 1, env);
    }
  }

  lemma SoloCi(cfg: Config, l: Ledger, run: WorkflowRun, env: Env)
    ensures Finish(cfg, l, CiStart(run), env) == HandleCi(cfg, l, run, env).0
  {
    FinishStep(cfg, l, CiStart(run), env, l, Track(l, run, env));
    if PrOf(run).Some? && env.pr.PrFound? && FindByPr(l.rows, env.pr.url).Some? {
      var p := FindByPr(l.rows, env.pr.url).value;
      if Terminal(l.rows[p].status) {
        FinishTracked(cfg, l, run, env, p);
      }
    }
  }

  // ---------- the poller ----------

  /** Take the listed rows one after the other. */
  function Visit<S>(v: (S, Seen) -> S, s: S, list: seq<Seen>): S
    decreases |list|
  {
    if list == [] then s else Visit(v, v(s, list[0]), list[1..])
  }

  ghost predicate Listed(list: seq<Seen>, i: nat) {
    exists a :: 0 <= a < |list| && list[a].pk == i
  }

  predicate Leads<S(==)>(v: (S, Seen) -> S, st: nat -> S, x: Seen) { st(x.pk + 1) == v(st(x.pk), x) }

  predicate Rests<S(==)>(st: nat -> S, i: nat) { st(i + 1) == st(i) }

  lemma ListedInRest(list: seq<Seen>, lo: nat, i: nat)
    requires list != [] && list[0].pk == lo < i && Listed(list, i)
    ensures Listed(list[1..], i)
  {
    var a :| 0 <= a < |list| && list[a].pk == i;
    assert list[1..][a - 1].pk == i;
  }

  lemma VisitFirst<S>(v: (S, Seen) -> S, st: nat -> S, list: seq<Seen>)
    requires list != [] && Leads(v, st, list[0])
    ensures Visit(v, st(list[0].pk), list) == Visit(v, st(list[0].pk + 1), list[1..])
  {
  }

  /** If visiting a listed position leads from its state to the next, and positions that are not listed do not
      change the state, then visiting the list leads from the first state to the last. */
  lemma {:induction false} VisitReaches<S>(v: (S, Seen) -> S, st: nat -> S, list: seq<Seen>, lo: nat, hi: nat)
    requires lo <= hi && forall a :: 0 <= a < |list| ==> lo <= list[a].pk < hi
    requires forall a, b :: 0 <= a < b < |list| ==> list[a].pk < list[b].pk
    requires forall a :: 0 <= a < |list| ==> Leads(v, st, list[a])
    requires forall i: nat :: lo <= i < hi && !Listed(list, i) ==> Rests(st, i)
    ensures Visit(v, st(lo), list) == st(hi)
    decreases hi - lo
  {
    if lo == hi {
    } else {
      if list != [] && list[0].pk == lo {
        forall i: nat | lo + 1 <= i < hi && !Listed(list[1..], i) ensures Rests(st, i) {
          if Listed(list, i) {
            ListedInRest(list, lo, i);
          }
        }
        VisitReaches(v, st, list[1..], lo + 1, hi);
        VisitFirst(v, st, list);
      } else {
        assert !Listed(list, lo);
        assert Rests(st, lo);
        VisitReaches(v, st, list, lo + 1, hi);
      }
    }
  }

  function Visitor(cfg: Config, samples: seq<Poller.Sample>): (Ledger, Seen) -> Ledger {
    (l: Ledger, seen: Seen) => Poll(cfg, l, seen, Queue.SampleAt(samples, seen.pk))
  }

  function Reached(cfg: Config, l: Ledger, samples: seq<Poller.Sample>): nat -> Ledger {
    (i: nat) => if i <= |l.rows| then Queue.PollFirst(cfg, l, samples, i) else l
  }

  lemma ReachedNext(cfg: Config, l: Ledger, samples: seq<Poller.Sample>, i: nat)
    requires i < |l.rows|
    ensures if Active(l.rows[i].status) then Leads(Visitor(cfg, samples), Reached(cfg, l, samples), Seen(i, l.rows[i]))
            else Rests(Reached(cfg, l, samples), i)
  {
    var before, after := Queue.PollFirst(cfg, l, samples, i), Queue.PollFirst(cfg, l, samples, i + 1);
    assert before.rows[i] == l.rows[i];
    assert after == PollStep(cfg, before, i, Queue.SampleAt(samples, i));
  }

  /** A tick nobody interrupts polls exactly as the serial specification says. */
  lemma SoloPoll(cfg: Config, l: Ledger, samples: seq<Poller.Sample>)
    ensures Visit(Visitor(cfg, samples), l, Look(l.rows, ListNonTerminal(l.rows))) == Queue.PollAll(cfg, l, samples)
  {
    var v, st := Visitor(cfg, samples), Reached(cfg, l, samples);
    forall i: nat | i < |l.rows|
      ensures if Active(l.rows[i].status) then Leads(v, st, Seen(i, l.rows[i])) else Rests(st, i) {
      ReachedNext(cfg, l, samples, i);
    }
    VisitsReach(v, st, l.rows);
    assert st(0) == l && st(|l.rows|) == Queue.PollAll(cfg, l, samples);
  }

  lemma VisitsReach<S>(v: (S, Seen) -> S, st: nat -> S, rows: seq<Row>)
    requires forall i: nat :: i < |rows| ==>
               if Active(rows[i].status) then Leads(v, st, Seen(i, rows[i])) else Rests(st, i)
    ensures Visit(v, st(0), Look(rows, ListNonTerminal(rows))) == st(|rows|)
  {
    var list := Look(rows, ListNonTerminal(rows));
    forall i: nat | 0 <= i < |rows| && !Listed(list, i) ensures Rests(st, i) {
      NotListedIsIdle(rows, i);
    }
    VisitReaches(v, st, list, 0, |rows|);
  }

  lemma NotListedIsIdle(rows: seq<Row>, i: nat)
    requires i < |rows| && !Listed(Look(rows, ListNonTerminal(rows)), i)
    ensures !Active(rows[i].status)
  {
    var pks := ListNonTerminal(rows);
    assert forall a :: 0 <= a < |pks| ==> Look(rows, pks)[a].pk == pks[a];
  }
}
