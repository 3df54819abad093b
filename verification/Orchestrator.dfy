/**
 The service itself: the two tables and the log of outside calls, and the methods that change them.
 Each method is proved to leave exactly the state its specification function gives.
 */
module Orchestrator {
  import opened Base
  import opened Devin
  import opened Sessions
  import opened Handlers
  import opened Dispatcher
  import opened Poller
  import opened Queue
  import opened Service
  import opened Spending
  import opened WorkKeys
  import IssueBody

  class Database {
    const cfg: Config
    var rows: seq<Row>
    var log: seq<Call>
    var deliveries: seq<Delivery>

    constructor (cfg: Config)
      ensures this.cfg == cfg && State() == EMPTY
    {
      this.cfg := cfg;
      rows, log, deliveries := [], [], [];
    }

    function Books(): Ledger
      reads this
    {
      Ledger(rows, log)
    }

    function State(): World
      reads this
    {
      World(Books(), deliveries)
    }

    // ---------- app/db/sessions.py ----------

    /** The atomic claim: a new row, unless the work key is taken. */
    method TryReserve(job: Job) returns (pk: Option<nat>)
      modifies this`rows
      ensures pk.None? <==> KeyTaken(old(rows), job.workKey)
      ensures pk.None? ==> rows == old(rows)
      ensures pk.Some? ==> pk.value == |old(rows)| && rows == old(rows) + [Reserved(job)]
    {
      if KeyTaken(rows, job.workKey) {
        return None;
      }
      pk := Some(|rows|);
      rows := rows + [Reserved(job)];
    }

    /** The columns that say where the work stands, one assignment for each that is given. */
    static method SetProgress(row: Row, p: Patch) returns (r: Row)
      ensures r == Apply(row, p.(devinId := None, rawStatus := None, prUrl := None, prUrls := None, output := None))
    {
      r := row;
      if p.status.Some? { r := r.(status := p.status.value); }
      if p.acus.Some? { r := r.(acus := p.acus.value); }
      if p.completedAt.Some? { r := r.(completedAt := p.completedAt); }
      if p.lastPolled.Some? { r := r.(lastPolled := p.lastPolled); }
      if p.error.Some? { r := r.(error := p.error); }
    }

    /** The columns copied from Devin, likewise. */
    static method SetRemote(row: Row, p: Patch) returns (r: Row)
      ensures r == Apply(row, p.(status := None, acus := None, completedAt := None, lastPolled := None, error := None))
    {
      r := row;
      if p.devinId.Some? { r := r.(devinId := p.devinId); }
      if p.rawStatus.Some? { r := r.(rawStatus := p.rawStatus); }
      if p.prUrl.Some? { r := r.(prUrl := p.prUrl); }
      if p.prUrls.Some? { r := r.(prUrls := p.prUrls); }
      if p.output.Some? { r := r.(output := p.output); }
    }

    /** UPDATE with one assignment for each column that is given. */
    method UpdateRow(pk: nat, p: Patch)
      modifies this`rows
      ensures rows == Update(old(rows), pk, p)
    {
      if pk < |rows| {
        var row := SetProgress(rows[pk], p);
        row := SetRemote(row, p);
        rows := rows[pk := row];
      }
    }

    /** The reservation ends: its slot is free again, its work key is not. */
    method MarkFailed(pk: nat, reason: Reason, now: int)
      modifies this`rows
      ensures rows == Update(old(rows), pk, FailPatch(reason, now))
      ensures pk < |old(rows)| && Active(old(rows)[pk].status) ==>
                && Terminal(rows[pk].status) && rows[pk].error == Some(reason)
                && CountActive(rows) == CountActive(old(rows)) - 1
                && forall key :: KeyTaken(rows, key) <==> KeyTaken(old(rows), key)
    {
      if pk < |rows| && Active(rows[pk].status) {
        FailureFreesSlot(rows, pk, reason, now);
      }
      UpdateRow(pk, FailPatch(reason, now));
    }

    /** create_session: the paid call. */
    method CreateSession(key: string, env: Env) returns (sid: Option<string>)
      modifies this`log
      ensures sid == env.created && log == old(log) + [Create(key, sid)]
    {
      sid := env.created;
      log := log + [Create(key, sid)];
    }

    // ---------- app/handlers.py ----------

    /** How both handlers end: call Devin, then activate the reserved row or mark it failed. */
    method CallDevin(pk: nat, key: string, env: Env) returns (outcome: Outcome)
      modifies this`rows, this`log
      ensures log == old(log) + [Create(key, env.created)]
      ensures rows == Update(old(rows), pk, if env.created.Some? then ActivatePatch(env.created.value)
                                            else FailPatch(CreateFailed, env.now))
      ensures outcome == if env.created.Some? then CreatedSession(env.created.value) else Errored
    {
      var sid := CreateSession(key, env);
      if sid.None? {
        MarkFailed(pk, CreateFailed, env.now);
        return Errored;
      }
      UpdateRow(pk, ActivatePatch(sid.value));
      return CreatedSession(sid.value);
    }

    method HandleSecurityIssue(issue: Issue, env: Env) returns (outcome: Outcome)
      modifies this`rows, this`log
      ensures (Books(), outcome) == HandleSecurity(cfg, old(Books()), issue, env)
      ensures var parsed := IssueBody.ParseIssue(issue.body, issue.url, issue.number);
              Spends(old(Books()), Books()) <==>
                && CountActive(old(rows)) < cfg.maxConcurrent
                && |StartedBetween(old(rows), env.now - env.now % 86400, env.now - env.now % 86400 + 86400)| <
                   cfg.maxPerDay
                && !KeyTaken(old(rows), MakeWorkKey(issue.repo, issue.number, SECURITY_LABEL))
                && parsed.Some? && IssueBody.Missing(parsed.value) == []
    {
      SecuritySpendsExactly(cfg, Books(), issue, env);
      var key := SecurityKey(issue);
      if CountActive(rows) >= cfg.maxConcurrent {
        return Queued(key);
      }
      if CountStartedOn(rows, Day(env.now)) >= cfg.maxPerDay {
        return Skipped(DailyCap);
      }
      var reserved := TryReserve(SecurityJob(issue, env.now));
      if reserved.None? {
        return Skipped(AlreadyReserved(key));
      }
      var pk := reserved.value;
      match Vet(issue)
      case NotACve =>
        MarkFailed(pk, NotACveIssue, env.now);
        return Skipped(NotCve);
      case Lacking(names) =>
        MarkFailed(pk, MissingFields(names), env.now);
        return Skipped(Incomplete(names));
      case Good =>
        outcome := CallDevin(pk, key, env);
    }

    /** Mark the parent, stop its active children one by one, comment on the pull request. */
    method EscalateToHuman(p: nat, attempts: nat)
      requires p < |rows|
      modifies this`rows, this`log
      ensures Books() == Escalate(old(Books()), p, attempts)
    {
      if rows[p].status == NeedsAttention {
        return;
      }
      var sid := rows[p].devinId;
      UpdateRow(p, EscalatePatch(attempts));
      TerminateChildren(sid);
      log := log + [Comment(p)];
    }

    method TerminateChildren(sid: Option<string>)
      modifies this`rows, this`log
      ensures rows == CancelChildren(old(rows), sid)
      ensures var kids := ActiveChildren(old(rows), sid); log == old(log) + Terminations(old(rows), kids, |kids|)
    {
      ghost var before := rows;
      StopListed(ActiveChildren(rows, sid));
      CancelFirstIsAll(before, sid);
    }

    /** The loop over the children, as the query returned them. */
    method StopListed(kids: seq<nat>)
      requires forall a :: 0 <= a < |kids| ==> kids[a] < |rows|
      modifies this`rows, this`log
      ensures rows == CancelFirst(old(rows), kids, |kids|)
      ensures log == old(log) + Terminations(old(rows), kids, |kids|)
    {
      var children := rows;
      for n := 0 to |kids|
        invariant rows == CancelFirst(children, kids, n)
        invariant log == old(log) + Terminations(children, kids, n)
      {
        StopChild(kids[n], children[kids[n]]);
      }
    }

    method StopChild(pk: nat, child: Row)
      modifies this`rows, this`log
      ensures rows == Update(old(rows), pk, CANCEL_PATCH) && log == old(log) + Termination(child)
    {
      if child.devinId.Some? {
        log := log + [Terminate(child.devinId.value)];
      }
      UpdateRow(pk, CANCEL_PATCH);
    }

    method HandleCiFailure(run: WorkflowRun, env: Env) returns (outcome: Outcome)
      modifies this`rows, this`log
      ensures (Books(), outcome) == HandleCi(cfg, old(Books()), run, env)
      ensures Spends(old(Books()), Books()) <==>
                && DevinsPr(run, env, cfg.devinLogins)
                && (exists p :: Newest(old(rows), env.pr.url, p) && Terminal(old(rows)[p].status)
                                && MaxFixAttempt(old(rows), old(rows)[p].devinId) < cfg.maxFix)
                && CountActive(old(rows)) < cfg.maxConcurrent
                && !KeyTaken(old(rows), MakeCiFixWorkKey(run.repo, run.id))
    {
      CiSpendsExactly(cfg, Books(), run, env);
      if run.trigger != "pull_request" {
        return Skipped(NotPrTriggered);
      }
      if run.prNumbers == [] {
        return Skipped(NoPrInPayload);
      }
      var number := run.prNumbers[0];
      if number.None? || number == Some(0) {
        return Skipped(NoPrNumber);
      }
      match env.pr {
        case PrFailed => return Errored;
        case PrMissing => return Skipped(PrNotFound);
        case PrFound(_, _) =>
      }
      if !("devin/" <= env.pr.branch) {
        return Skipped(NotDevinBranch);
      }
      var found := FindByPr(rows, env.pr.url);
      if found.None? {
        return Skipped(NoTrackedSession);
      }
      outcome := RepairTracked(found.value, run, number.value, env);
    }

    /** From here on the failure is one on a pull request of ours: row p is its newest session. */
    method RepairTracked(p: nat, run: WorkflowRun, number: int, env: Env) returns (outcome: Outcome)
      requires p < |rows| && PrOf(run) == Some(number) && env.pr.PrFound?
      modifies this`rows, this`log
      ensures (Books(), outcome) == HandleTracked(cfg, old(Books()), run, env, p)
    {
      var parent := rows[p];
      if !Terminal(parent.status) {
        return Skipped(ParentStillActive(parent.status));
      }
      var highest := MaxFixAttempt(rows, parent.devinId);
      if highest >= cfg.maxFix {
        EscalateToHuman(p, highest);
        return Escalated(highest);
      }
      match env.commits {
        case CommitsFailed => return Errored;
        case Commits(commits) =>
          if HasNonDevinCommits(commits, cfg.devinLogins) {
            return Skipped(HumanCommits);
          }
      }
      if CountActive(rows) >= cfg.maxConcurrent {
        return Skipped(ConcurrencyCap);
      }
      var job := CiJob(run, number, env.pr.url, parent.devinId, highest + 1, env.now);
      var reserved := TryReserve(job);
      if reserved.None? {
        return Skipped(AlreadyReserved(job.workKey));
      }
      outcome := CallDevin(reserved.value, job.workKey, env);
    }

    method DispatchEvent(e: Event, env: Env) returns (outcome: Outcome)
      modifies this`rows, this`log
      ensures (Books(), outcome) == Dispatch(cfg, old(Books()), e, env)
    {
      match RouteOf(e)
      case Answer(o) => return o;
      case ToSecurity(issue) => outcome := HandleSecurityIssue(issue, env);
      case ToCi(run) => outcome := HandleCiFailure(run, env);
    }

    // ---------- app/db/webhook_events.py and app/routes/webhook.py ----------

    method RecordDelivery(id: string, event: Event) returns (isNew: bool)
      modifies this`deliveries
      ensures isNew <==> forall k :: 0 <= k < |old(deliveries)| ==> old(deliveries)[k].id != id
      ensures deliveries == if isNew then old(deliveries) + [Delivery(id, event, None)] else old(deliveries)
      ensures deliveries == Record(old(deliveries), id, event)
    {
      isNew := !Known(deliveries, id);
      if isNew {
        deliveries := deliveries + [Delivery(id, event, None)];
      }
    }

    /** UPDATE ... WHERE delivery_id = id, row by row. */
    method SetResult(id: string, outcome: Outcome)
      modifies this`deliveries
      ensures |deliveries| == |old(deliveries)|
      ensures forall k :: 0 <= k < |deliveries| ==>
                if old(deliveries)[k].id == id
                then deliveries[k] == Delivery(id, old(deliveries)[k].event, Some(outcome))
                else deliveries[k] == old(deliveries)[k]
    {
      for n := 0 to |deliveries|
        invariant |deliveries| == |old(deliveries)|
        invariant forall k :: n <= k < |deliveries| ==> deliveries[k] == old(deliveries)[k]
        invariant forall k :: 0 <= k < n ==>
                    if old(deliveries)[k].id == id
                    then deliveries[k] == Delivery(id, old(deliveries)[k].event, Some(outcome))
                    else deliveries[k] == old(deliveries)[k]
      {
        if deliveries[n].id == id {
          deliveries := deliveries[n := deliveries[n].(result := Some(outcome))];
        }
      }
    }

    method ProcessInBackground(k: nat, a: Attempt)
      requires k < |deliveries|
      modifies this
      ensures State() == ProcessDelivery(Front(cfg), old(State()), k, a)
      ensures var d := old(deliveries)[k];
              var answer := if a.Crash? then Errored else Dispatch(cfg, old(Books()), d.event, a.env).1;
              && Books() == (if a.Crash? then old(Books()) else Dispatch(cfg, old(Books()), d.event, a.env).0)
              && |deliveries| == |old(deliveries)|
              && forall j :: 0 <= j < |deliveries| ==>
                   deliveries[j] == if old(deliveries)[j].id == d.id
                                    then Delivery(d.id, old(deliveries)[j].event, Some(answer)) else old(deliveries)[j]
    {
      var outcome := Errored;
      if a.Runs? {
        outcome := DispatchEvent(deliveries[k].event, a.env);
      }
      ghost var before := deliveries;
      SetResult(deliveries[k].id, outcome);
      assert deliveries == MarkProcessed(before, before[k].id, outcome);
    }

    // ---------- app/orchestrator.py ----------

    method DrainQueue(attempts: seq<Attempt>)
      modifies this
      ensures State() == Drain(Front(cfg), old(State()), attempts)
    {
      var capacity := cfg.maxConcurrent - CountActive(rows);
      if capacity <= 0 {
        return;
      }
      var queued := ListQueued(deliveries, capacity);
      RetryAll(queued, attempts);
    }

    method RetryAll(queued: seq<nat>, attempts: seq<Attempt>)
      requires forall a :: 0 <= a < |queued| ==> queued[a] < |deliveries|
      modifies this
      ensures State() == RetryFirst(Front(cfg), old(State()), queued, attempts, |queued|)
    {
      ghost var before := State();
      for n := 0 to |queued|
        invariant |deliveries| == |before.deliveries|
        invariant State() == RetryFirst(Front(cfg), before, queued, attempts, n)
      {
        RetryNth(queued, n, attempts, before);
      }
    }

    method RetryNth(queued: seq<nat>, n: nat, attempts: seq<Attempt>, ghost before: World)
      requires n < |queued| && forall a :: 0 <= a < |queued| ==> queued[a] < |before.deliveries|
      requires |deliveries| == |before.deliveries| && State() == RetryFirst(Front(cfg), before, queued, attempts, n)
      modifies this
      ensures |deliveries| == |before.deliveries|
      ensures State() == RetryFirst(Front(cfg), before, queued, attempts, n + 1)
    {
      RetryDelivery(queued[n], AttemptAt(attempts, n));
    }

    method RetryDelivery(k: nat, a: Attempt)
      requires k < |deliveries|
      modifies this
      ensures State() == Retry(Front(cfg), old(State()), k, a)
      ensures a.Crash? ==> State() == old(State())
      ensures a.Runs? ==>
                var d := old(deliveries)[k];
                var answer := Dispatch(cfg, old(Books()), d.event, a.env).1;
                && Books() == Dispatch(cfg, old(Books()), d.event, a.env).0
                && |deliveries| == |old(deliveries)|
                && forall j :: 0 <= j < |deliveries| ==>
                     deliveries[j] == if !answer.Queued? && old(deliveries)[j].id == d.id
                                      then Delivery(d.id, old(deliveries)[j].event, Some(answer))
                                      else old(deliveries)[j]
    {
      if a.Runs? {
        var row := deliveries[k];
        var outcome := DispatchEvent(row.event, a.env);
        if !outcome.Queued? {
          ghost var before := deliveries;
          SetResult(row.id, outcome);
          assert deliveries == MarkProcessed(before, row.id, outcome);
        }
      }
    }

    /** The loop body of poll_once for one listed row. */
    method PollListed(i: nat, row: Row, s: Sample)
      requires i < |rows| && row == rows[i] && Active(row.status)
      modifies this`rows, this`log
      ensures Books() == PollStep(cfg, old(Books()), i, s)
      ensures rows == old(rows)[i := PollRow(cfg.timeout, row, s)]
      ensures log == if StopsRemote(cfg.timeout, row, s) then old(log) + [Terminate(row.devinId.value)] else old(log)
    {
      PollStops(cfg, Books(), i, s);
      if row.devinId.None? || s.reply.Down? {
        assert rows[i] == Apply(rows[i], NO_CHANGE);
        return;
      }
      var sid, remote, now := row.devinId.value, s.reply.remote, s.now;
      if remote.Status().Pending? || remote.Status().Running? {
        var inactivity := now - LastActivity(row, remote);
        if inactivity > cfg.timeout {
          log := log + [Terminate(sid)];
          UpdateRow(i, NO_CHANGE.(status := Some(TimedOut), error := Some(Inactive(inactivity)),
                                 completedAt := Some(now), lastPolled := Some(now)));
          return;
        }
      }
      var changed := remote.Status() != row.status || Some(remote.raw) != row.rawStatus
                     || remote.FirstPr() != row.prUrl || remote.acus != row.acus || remote.output != row.output;
      if !changed {
        UpdateRow(i, NO_CHANGE.(lastPolled := Some(now)));
        return;
      }
      var updates := NO_CHANGE.(status := Some(remote.Status()), rawStatus := Some(remote.raw),
                               acus := Some(remote.acus), lastPolled := Some(now));
      if remote.prs != [] {
        updates := updates.(prUrl := remote.FirstPr(), prUrls := Some(remote.prs));
      }
      if remote.output.Some? {
        updates := updates.(output := remote.output);
      }
      if remote.FirstState() == Some("merged") && !Terminal(row.status) {
        log := log + [Terminate(sid)];
        updates := updates.(status := Some(Completed), completedAt := Some(now));
      } else if remote.FirstState() == Some("closed") && !Terminal(row.status) {
        updates := updates.(status := Some(Cancelled), error := Some(PrClosedWithoutMerge), completedAt := Some(now));
      } else if Terminal(remote.Status()) && row.completedAt.None? {
        updates := updates.(completedAt := Some(now));
      }
      assert updates == Poller.Poll(cfg.timeout, row, s.reply, now).patch;
      UpdateRow(i, updates);
    }

    method PollInTurn(i: nat, row: Row, samples: seq<Sample>, ghost before: Ledger)
      requires i < |before.rows| && row == before.rows[i] && Active(row.status)
      requires Books() == PollFirst(cfg, before, samples, i)
      modifies this`rows, this`log
      ensures Books() == PollFirst(cfg, before, samples, i + 1)
    {
      PollListed(i, row, SampleAt(samples, i));
    }

    method PollNth(listed: seq<nat>, n: nat, snapshot: seq<Row>, samples: seq<Sample>, ghost before: Ledger)
      requires listed == ListNonTerminal(before.rows) && snapshot == before.rows && n < |listed|
      requires Passed(listed, n) <= |before.rows| && Books() == PollFirst(cfg, before, samples, Passed(listed, n))
      modifies this`rows, this`log
      ensures Passed(listed, n + 1) <= |before.rows|
      ensures Books() == PollFirst(cfg, before, samples, Passed(listed, n + 1))
    {
      var i := listed[n];
      PollReaches(cfg, before, samples, listed, n, i);
      PollInTurn(i, snapshot[i], samples, before);
    }

    method PollTables(samples: seq<Sample>)
      modifies this`rows, this`log
      ensures Books() == PollAll(cfg, old(Books()), samples)
      ensures |rows| == |old(rows)|
      ensures forall i :: 0 <= i < |rows| ==>
                rows[i] == if i < |samples| then PollRow(cfg.timeout, old(rows)[i], samples[i]) else old(rows)[i]
      ensures log == old(log) + Stopping(cfg, old(rows), samples, |old(rows)|)
    {
      PollsEachOnce(cfg, Books(), samples, |rows|);
      PollsStopDue(cfg, Books(), samples, |rows|);
      ghost var before := Books();
      var snapshot := rows;   // the rows as the query returned them
      var listed := ListNonTerminal(rows);
      for n := 0 to |listed|
        invariant Passed(listed, n) <= |before.rows|
        invariant Books() == PollFirst(cfg, before, samples, Passed(listed, n))
      {
        PollNth(listed, n, snapshot, samples, before);
      }
      PollRest(cfg, before, samples);
    }

    method PollOnce(attempts: seq<Attempt>, samples: seq<Sample>)
      modifies this
      ensures State() == Queue.PollOnce(Front(cfg), old(State()), attempts, samples)
    {
      DrainQueue(attempts);
      PollTables(samples);
    }
  }

  /** The first row position behind the n rows listed first. */
  function Passed(listed: seq<nat>, n: nat): nat
    requires n <= |listed|
  {
    if n == 0 then 0 else listed[n - 1] + 1
  }

  lemma IdleBetween(rows: seq<Row>, n: nat)
    requires n <= |ListNonTerminal(rows)|
    ensures var listed := ListNonTerminal(rows);
            var stop := if n < |listed| then listed[n] else |rows|;
            && Passed(listed, n) <= stop <= |rows|
            && forall i :: Passed(listed, n) <= i < stop ==> !Active(rows[i].status)
  {
    var listed := ListNonTerminal(rows);
    var stop := if n < |listed| then listed[n] else |rows|;
    forall i | Passed(listed, n) <= i < stop ensures !Active(rows[i].status) {
      assert i !in listed by {
        assert forall a :: 0 <= a < |listed| ==> listed[a] != i;
      }
    }
  }

  /** When the n-th listed row comes up, it is still as it was listed. */
  lemma PollReaches(cfg: Config, l: Ledger, samples: seq<Sample>, listed: seq<nat>, n: nat, i: nat)
    requires listed == ListNonTerminal(l.rows) && n < |listed| && i == listed[n]
    ensures Passed(listed, n) <= i < |l.rows| && Active(l.rows[i].status) && Passed(listed, n + 1) == i + 1
    ensures PollFirst(cfg, l, samples, Passed(listed, n)) == PollFirst(cfg, l, samples, i)
    ensures PollFirst(cfg, l, samples, i).rows[i] == l.rows[i]
  {
    IdleBetween(l.rows, n);
    PollIdle(cfg, l, samples, Passed(listed, n), i);
  }

  lemma PollRest(cfg: Config, l: Ledger, samples: seq<Sample>)
    ensures var listed := ListNonTerminal(l.rows);
            Passed(listed, |listed|) <= |l.rows| &&
            PollFirst(cfg, l, samples, Passed(listed, |listed|)) == PollAll(cfg, l, samples)
  {
    var listed := ListNonTerminal(l.rows);
    IdleBetween(l.rows, |listed|);
    PollIdle(cfg, l, samples, Passed(listed, |listed|), |l.rows|);
  }

  function CancelFirst(rows: seq<Row>, kids: seq<nat>, n: nat): (r: seq<Row>)
    requires n <= |kids|
    ensures |r| == |rows|
  {
    if n == 0 then rows else Update(CancelFirst(rows, kids, n - 1), kids[n - 1], CANCEL_PATCH)
  }

  lemma {:induction false} CancelFirstAt(rows: seq<Row>, kids: seq<nat>, n: nat, i: nat)
    requires n <= |kids| && i < |rows|
    requires forall a, b :: 0 <= a < b < |kids| ==> kids[a] < kids[b]
    ensures CancelFirst(rows, kids, n)[i] == if i in kids[..n] then Apply(rows[i], CANCEL_PATCH) else rows[i]
  {
    if n == 0 {
    } else {
      CancelFirstAt(rows, kids, n - 1, i);
      assert kids[..n] == kids[..n - 1] + [kids[n - 1]];
      assert kids[n - 1] !in kids[..n - 1];
    }
  }

  lemma CancelFirstIsAll(rows: seq<Row>, sid: Option<string>)
    ensures var kids := ActiveChildren(rows, sid); CancelFirst(rows, kids, |kids|) == CancelChildren(rows, sid)
  {
    var kids := ActiveChildren(rows, sid);
    forall i | 0 <= i < |rows| ensures CancelFirst(rows, kids, |kids|)[i] == CancelChildren(rows, sid)[i] {
      CancelFirstAt(rows, kids, |kids|, i);
      assert kids[..|kids|] == kids;
      assert i in kids <==> ActiveChild(rows[i], sid);
    }
  }

  /** Rows that are not active are passed over. */
  lemma {:induction false} PollIdle(cfg: Config, l: Ledger, samples: seq<Sample>, lo: nat, hi: nat)
    requires lo <= hi <= |l.rows|
    requires forall i :: lo <= i < hi ==> !Active(l.rows[i].status)
    ensures PollFirst(cfg, l, samples, hi) == PollFirst(cfg, l, samples, lo)
  {
    if lo == hi {
    } else {
      PollIdle(cfg, l, samples, lo, hi - 1);
    }
  }
}
