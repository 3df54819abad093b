/**
 The handlers and the poller as threads.  Every database call opens its own autocommit connection
 (app/db/connection.py), so a handler is a program that makes one database call per step, and between two
 of its steps anything may happen.

 A slot is one thread that may run a handler; the poller's own retries of queued deliveries occupy a slot
 too.  A call to Devin or GitHub touches no table and is folded into the step it feeds, except the call
 that creates a session.
 */
module Threads {
  import opened Base
  import opened Devin
  import opened Sessions
  import opened Handlers
  import Poller

  /** A row as it was when a query returned it. */
  datatype Seen = Seen(pk: nat, row: Row)

  /** Where a handler stands: what it will do next, and what it remembers. */
  datatype Slot =
    | Idle
    | SecStart(issue: Issue)                                    // count the active rows
    | SecRoom(issue: Issue)                                     // count the rows started today
    | SecToday(issue: Issue)                                    // reserve
    | CiStart(run: WorkflowRun)                                 // find the session of the pull request
    | CiTracked(run: WorkflowRun, pr: int, url: string, seen: Seen)   // ask for the highest attempt
    | CiCounted(run: WorkflowRun, pr: int, url: string, parent: Option<string>, attempt: nat)  // count the active rows
    | CiRoom(run: WorkflowRun, pr: int, url: string, parent: Option<string>, attempt: nat)     // reserve
    | Calling(pk: nat, key: string)                             // create the session
    | Failing(pk: nat, reason: Reason)                          // mark the row failed
    | Holding(pk: nat, sid: string)                             // activate the row
    | EscMark(seen: Seen, attempts: nat)                        // mark the parent
    | EscList(seen: Seen)                                       // list its active children
    | EscKids(seen: Seen, kids: seq<Seen>)                      // cancel them one by one, then comment

  function Reserve(l: Ledger, job: Job, won: Slot): (Ledger, Slot) {
    if KeyTaken(l.rows, job.workKey) then (l, Idle) else (Ledger(l.rows + [Reserved(job)], l.log), won)
  }

  function Vetted(vetting: Vetting, pk: nat, key: string): Slot {
    match vetting
    case NotACve => Failing(pk, NotACveIssue)
    case Lacking(names) => Failing(pk, MissingFields(names))
    case Good => Calling(pk, key)
  }

  function Track(l: Ledger, run: WorkflowRun, env: Env): Slot {
    if PrOf(run).None? || !env.pr.PrFound? || !("devin/" <= env.pr.branch) then Idle
    else
      match FindByPr(l.rows, env.pr.url)
      case None => Idle
      case Some(p) =>
        if Terminal(l.rows[p].status) then CiTracked(run, PrOf(run).value, env.pr.url, Seen(p, l.rows[p])) else Idle
  }

  predicate HandsOff(cfg: Config, env: Env) {
    env.commits.CommitsFailed? || HasNonDevinCommits(env.commits.commits, cfg.devinLogins)
  }

  function Look(rows: seq<Row>, pks: seq<nat>): (r: seq<Seen>)
    requires forall a :: 0 <= a < |pks| ==> pks[a] < |rows|
    ensures |r| == |pks| && forall a :: 0 <= a < |r| ==> r[a] == Seen(pks[a], rows[pks[a]])
  {
    seq(|pks|, a requires 0 <= a < |pks| => Seen(pks[a], rows[pks[a]]))
  }

  /** One step of one handler. */
  function Advance(cfg: Config, l: Ledger, slot: Slot, env: Env): (Ledger, Slot) {
    match slot
    case Idle => (l, Idle)
    case SecStart(issue) => (l, if CountActive(l.rows) >= cfg.maxConcurrent then Idle else SecRoom(issue))
    case SecRoom(issue) => (l, if CountStartedOn(l.rows, Day(env.now)) >= cfg.maxPerDay then Idle else SecToday(issue))
    case SecToday(issue) => Reserve(l, SecurityJob(issue, env.now), Vetted(Vet(issue), |l.rows|, SecurityKey(issue)))
    case CiStart(run) => (l, Track(l, run, env))
    case CiTracked(run, pr, url, seen) =>
      var highest := MaxFixAttempt(l.rows, seen.row.devinId);
      (l, if highest >= cfg.maxFix then EscMark(seen, highest)
          else CiCounted(run, pr, url, seen.row.devinId, highest + 1))
    case CiCounted(run, pr, url, parent, attempt) =>
      (l, if HandsOff(cfg, env) || CountActive(l.rows) >= cfg.maxConcurrent then Idle
          else CiRoom(run, pr, url, parent, attempt))
    case CiRoom(run, pr, url, parent, attempt) =>
      var job := CiJob(run, pr, url, parent, attempt, env.now);
      Reserve(l, job, Calling(|l.rows|, job.workKey))
    case Calling(pk, key) =>
      (Ledger(l.rows, l.log + [Create(key, env.created)]),
       if env.created.Some? then Holding(pk, env.created.value) else Failing(pk, CreateFailed))
    case Failing(pk, reason) => (Ledger(Update(l.rows, pk, FailPatch(reason, env.now)), l.log), Idle)
    case Holding(pk, sid) => (Ledger(Update(l.rows, pk, ActivatePatch(sid)), l.log), Idle)
    case EscMark(seen, attempts) => (Ledger(Update(l.rows, seen.pk, EscalatePatch(attempts)), l.log), EscList(seen))
    case EscList(seen) => (l, EscKids(seen, Look(l.rows, ActiveChildren(l.rows, seen.row.devinId))))
    case EscKids(seen, kids) =>
      if kids == [] then (Ledger(l.rows, l.log + [Comment(seen.pk)]), Idle)
      else
        (Ledger(Update(l.rows, kids[0].pk, CANCEL_PATCH), l.log + Termination(kids[0].row)), EscKids(seen, kids[1..]))
  }

  /** The shared tables, the handlers in flight, and the rows the poller has listed and not yet polled.
      `touched` is history: the rows an escalation has written to, as parent or as cancelled child. */
  datatype State = State(l: Ledger, slots: seq<Slot>, polling: seq<Seen>, clock: int, touched: set<nat>)

  function Touches(slot: Slot): set<nat> {
    if slot.EscMark? then {slot.seen.pk}
    else if slot.EscKids? && slot.kids != [] then {slot.kids[0].pk}
    else {}
  }

  datatype Task = Security(issue: Issue) | CiRun(run: WorkflowRun)

  datatype Step =
    | Start(k: nat, task: Task)
    | Act(k: nat, env: Env)
    | List
    | PollNext(sample: Poller.Sample)

  function Poll(cfg: Config, l: Ledger, seen: Seen, s: Poller.Sample): Ledger {
    var e := Poller.Poll(cfg.timeout, seen.row, s.reply, s.now);
    Ledger(Update(l.rows, seen.pk, e.patch),
           if e.terminate && seen.row.devinId.Some? then l.log + [Terminate(seen.row.devinId.value)] else l.log)
  }

  function Next(cfg: Config, s: State, step: Step): State {
    match step
    case Start(k, task) =>
      if k < |s.slots| && s.slots[k].Idle?
      then s.(slots := s.slots[k := match task case Security(issue) => SecStart(issue) case CiRun(run) => CiStart(run)])
      else s
    case Act(k, env) =>
      if k < |s.slots| then
        var (l, slot) := Advance(cfg, s.l, s.slots[k], env);
        State(l, s.slots[k := slot], s.polling, env.now, s.touched + Touches(s.slots[k]))
      else s
    case List => if s.polling == [] then s.(polling := Look(s.l.rows, ListNonTerminal(s.l.rows))) else s
    case PollNext(sample) =>
      if s.polling == [] then s
      else State(Poll(cfg, s.l, s.polling[0], sample), s.slots, s.polling[1..], sample.now, s.touched)
  }

  function Run(cfg: Config, s: State, steps: seq<Step>): State {
    if steps == [] then s else Next(cfg, Run(cfg, s, steps[..|steps| - 1]), steps[|steps| - 1])
  }

  /** Devin hands out fresh ids, and the clock does not run backwards. */
  ghost predicate Legal(s: State, step: Step) {
    match step
    case Act(_, env) =>
      && s.clock <= env.now
      && (env.created.Some? ==> forall key :: Create(key, env.created) !in s.l.log)
    case PollNext(sample) => s.clock <= sample.now
    case _ => true
  }

  /** The states a run goes through: entry k is the state after k steps. */
  function States(cfg: Config, s: State, steps: seq<Step>): (t: seq<State>)
    ensures |t| == |steps| + 1
  {
    if steps == [] then [s] else States(cfg, s, steps[..|steps| - 1]) + [Run(cfg, s, steps)]
  }

  ghost predicate LegalRun(cfg: Config, s: State, steps: seq<Step>) {
    forall k :: 0 <= k < |steps| ==> Legal(States(cfg, s, steps)[k], steps[k])
  }

  lemma LastState(cfg: Config, s: State, steps: seq<Step>)
    ensures States(cfg, s, steps)[|steps|] == Run(cfg, s, steps)
  {
  }

  lemma LegalSplit(cfg: Config, s: State, steps: seq<Step>)
    requires steps != [] && LegalRun(cfg, s, steps)
    ensures var init := steps[..|steps| - 1];
            LegalRun(cfg, s, init) && Legal(Run(cfg, s, init), steps[|steps| - 1])
  {
    var init := steps[..|steps| - 1];
    LastState(cfg, s, init);
    forall k | 0 <= k < |init| ensures Legal(States(cfg, s, init)[k], init[k]) {
      assert Legal(States(cfg, s, steps)[k], steps[k]);
    }
    assert Legal(States(cfg, s, steps)[|init|], steps[|init|]);
  }

  /** Empty tables and n idle slots. */
  function Fresh(n: nat, clock: int): State {
    State(Ledger([], []), seq(n, _ => Idle), [], clock, {})
  }

  // ---------- what a step may do to the table ----------

  /** The table is unchanged, has one reservation more, or has one row patched. */
  datatype Write = Nothing | Insert(job: Job) | Edit(pk: nat, patch: Patch)

  function Written(rows: seq<Row>, w: Write): seq<Row> {
    match w
    case Nothing => rows
    case Insert(job) => rows + [Reserved(job)]
    case Edit(pk, patch) => Update(rows, pk, patch)
  }

  function WriteOf(l: Ledger, slot: Slot, env: Env): Write {
    match slot
    case SecToday(issue) =>
      if KeyTaken(l.rows, SecurityKey(issue)) then Nothing else Insert(SecurityJob(issue, env.now))
    case CiRoom(run, pr, url, parent, attempt) =>
      var job := CiJob(run, pr, url, parent, attempt, env.now);
      if KeyTaken(l.rows, job.workKey) then Nothing else Insert(job)
    case Failing(pk, reason) => Edit(pk, FailPatch(reason, env.now))
    case Holding(pk, sid) => Edit(pk, ActivatePatch(sid))
    case EscMark(seen, attempts) => Edit(seen.pk, EscalatePatch(attempts))
    case EscKids(seen, kids) => if kids == [] then Nothing else Edit(kids[0].pk, CANCEL_PATCH)
    case _ => Nothing
  }

  lemma AdvanceWrites(cfg: Config, l: Ledger, slot: Slot, env: Env)
    ensures Advance(cfg, l, slot, env).0.rows == Written(l.rows, WriteOf(l, slot, env))
    ensures l.log <= Advance(cfg, l, slot, env).0.log
  {
  }

  lemma WriteExtends(rows: seq<Row>, w: Write)
    ensures Extends(rows, Written(rows, w))
  {
  }

  lemma NextExtends(cfg: Config, s: State, step: Step)
    ensures Extends(s.l.rows, Next(cfg, s, step).l.rows) && s.l.log <= Next(cfg, s, step).l.log
    ensures |Next(cfg, s, step).slots| == |s.slots|
  {
    match step {
      case Act(k, env) =>
        if k < |s.slots| {
          AdvanceWrites(cfg, s.l, s.slots[k], env);
          WriteExtends(s.l.rows, WriteOf(s.l, s.slots[k], env));
        }
      case PollNext(sample) =>
        if s.polling != [] {
          WriteExtends(s.l.rows, Edit(s.polling[0].pk,
            Poller.Poll(cfg.timeout, s.polling[0].row, sample.reply, sample.now).patch));
        }
      case _ =>
    }
  }

  /** Under every interleaving rows are never removed, their identity never changes, and what was set is
      never null again; the log of calls only grows. */
  lemma {:induction false} RunExtends(cfg: Config, s: State, steps: seq<Step>)
    ensures Extends(s.l.rows, Run(cfg, s, steps).l.rows) && s.l.log <= Run(cfg, s, steps).l.log
    ensures |Run(cfg, s, steps).slots| == |s.slots|
  {
    if steps == [] {
    } else {
      RunExtends(cfg, s, steps[..|steps| - 1]);
      NextExtends(cfg, Run(cfg, s, steps[..|steps| - 1]), steps[|steps| - 1]);
    }
  }

  predicate WereActive(listed: seq<Seen>) {
    forall a :: 0 <= a < |listed| ==> Active(listed[a].row.status)
  }

  lemma NextListsActive(cfg: Config, s: State, step: Step)
    requires WereActive(s.polling)
    ensures WereActive(Next(cfg, s, step).polling)
  {
  }

  lemma {:induction false} ListedWereActive(cfg: Config, n: nat, clock: int, steps: seq<Step>)
    ensures WereActive(Run(cfg, Fresh(n, clock), steps).polling)
  {
    if steps == [] {
    } else {
      ListedWereActive(cfg, n, clock, steps[..|steps| - 1]);
      NextListsActive(cfg, Run(cfg, Fresh(n, clock), steps[..|steps| - 1]), steps[|steps| - 1]);
    }
  }

  /** Under every interleaving the poll of a listed row makes a call exactly if it has to stop the session, going by
      the row as it was listed, and then it terminates that session. */
  lemma PollStopsListed(cfg: Config, n: nat, clock: int, steps: seq<Step>, sample: Poller.Sample)
    requires Run(cfg, Fresh(n, clock), steps).polling != []
    ensures var s := Run(cfg, Fresh(n, clock), steps);
            var seen := s.polling[0].row;
            Next(cfg, s, PollNext(sample)).l.log ==
            if Poller.StopsRemote(cfg.timeout, seen, sample) then s.l.log + [Terminate(seen.devinId.value)]
            else s.l.log
  {
    ListedWereActive(cfg, n, clock, steps);
  }

  /** How many of these steps poll a listed row. */
  function Polls(steps: seq<Step>): nat {
    if steps == [] then 0 else Polls(steps[..|steps| - 1]) + One(steps[|steps| - 1].PollNext?)
  }

  lemma NextTakesFront(cfg: Config, s: State, step: Step)
    requires s.polling != []
    ensures Next(cfg, s, step).polling == if step.PollNext? then s.polling[1..] else s.polling
  {
  }

  lemma DropOneMore(listed: seq<Seen>, n: nat)
    requires n < |listed|
    ensures listed[n..] != [] && listed[n..][1..] == listed[n + 1..]
  {
  }

  /** A tick is one pass: whatever happens in between, the rows it listed are polled one by one, in order and as they
      were listed, before any row is listed again. */
  lemma {:induction false} TickIsOnePass(cfg: Config, s: State, steps: seq<Step>)
    requires Polls(steps) < |s.polling|
    ensures Run(cfg, s, steps).polling == s.polling[Polls(steps)..]
  {
    if steps == [] {
    } else {
      var init, last := steps[..|steps| - 1], steps[|steps| - 1];
      TickIsOnePass(cfg, s, init);
      DropOneMore(s.polling, Polls(init));
      NextTakesFront(cfg, Run(cfg, s, init), last);
    }
  }

  /** In this step an escalation marks row pk, or cancels it. */
  predicate EscalatesRow(slots: seq<Slot>, step: Step, pk: nat) {
    step.Act? && step.k < |slots| &&
    var slot := slots[step.k];
    || (slot.EscMark? && slot.seen.pk == pk)
    || (slot.EscKids? && slot.kids != [] && slot.kids[0].pk == pk)
  }

  predicate EverEscalated(cfg: Config, s: State, steps: seq<Step>, pk: nat) {
    steps != [] &&
    var init := steps[..|steps| - 1];
    EverEscalated(cfg, s, init, pk) || EscalatesRow(Run(cfg, s, init).slots, steps[|steps| - 1], pk)
  }

  /** The rows called touched are exactly those an escalation has written to. */
  lemma {:induction false} TouchedExactly(cfg: Config, n: nat, clock: int, steps: seq<Step>, pk: nat)
    ensures pk in Run(cfg, Fresh(n, clock), steps).touched <==> EverEscalated(cfg, Fresh(n, clock), steps, pk)
  {
    if steps == [] {
    } else {
      TouchedExactly(cfg, n, clock, steps[..|steps| - 1], pk);
    }
  }
}
