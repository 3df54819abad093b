/**
 Which endings of a session the service brings about itself, and the calls it makes for them.
 */
module Endings {
  import opened Base
  import opened Devin
  import opened Sessions
  import opened Handlers
  import opened Poller
  import opened Serial
  import opened FixTree
  import opened Bookkeeping

  /** How often this Devin session was terminated. */
  function Terminates(log: seq<Call>, sid: string): nat { multiset(log)[Terminate(sid)] }

  predicate SaysMerged(reply: Reply) {
    reply.Up? && reply.remote.prs != [] && reply.remote.prs[0].state == Some("merged")
  }

  /** A session with a Devin id is ended by the service and not by Devin: it times out, its pull request is seen
      merged, or a CI failure ends it. */
  predicate Stopped(before: seq<Row>, after: seq<Row>, step: Step, i: nat) {
    && Ended(before, after, i) && before[i].devinId.Some?
    && (step.CiRun? || after[i].status.TimedOut? || (step.PollOne? && SaysMerged(step.sample.reply)))
  }

  lemma Appended(log: seq<Call>, c: Call, sid: string)
    ensures Terminates(log + [c], sid) == Terminates(log, sid) + One(c == Terminate(sid))
  {
    assert multiset(log + [c]) == multiset(log) + multiset{c};
  }

  // ---------- a poll ----------

  lemma PollStopsRow(limit: int, row: Row, s: Sample)
    requires Active(row.status) && row.devinId.Some?
    ensures StopsRemote(limit, row, s) <==>
              var r := PollRow(limit, row, s);
              Terminal(r.status) && (r.status.TimedOut? || SaysMerged(s.reply))
  {
  }

  /** A poll terminates its own session exactly if it ends it by a timeout or on a merge, and makes no other call. */
  lemma PollCallsExactly(cfg: Config, l: Ledger, i: nat, s: Sample)
    requires i < |l.rows|
    ensures var r := Next(cfg, l, PollOne(i, s));
            r.log == if Stopped(l.rows, r.rows, PollOne(i, s), i) then l.log + [Terminate(l.rows[i].devinId.value)]
                     else l.log
  {
    PollStops(cfg, l, i, s);
    PollsRow(cfg, l, i, s);
    if Active(l.rows[i].status) && l.rows[i].devinId.Some? {
      PollStopsRow(cfg.timeout, l.rows[i], s);
    }
  }

  lemma PollTerminates(l: Ledger, r: Ledger, j: nat, step: Step, i: nat, sid: string)
    requires IdsDistinct(l.rows) && i < |l.rows| && l.rows[i].devinId == Some(sid) && j < |l.rows|
    requires |r.rows| == |l.rows| && r.rows == l.rows[j := r.rows[j]]
    requires r.log == if Stopped(l.rows, r.rows, step, j) then l.log + [Terminate(l.rows[j].devinId.value)] else l.log
    ensures Terminates(r.log, sid) == Terminates(l.log, sid) + One(Stopped(l.rows, r.rows, step, i))
  {
    if Stopped(l.rows, r.rows, step, j) {
      Appended(l.log, Terminate(l.rows[j].devinId.value), sid);
      assert l.rows[j].devinId == Some(sid) <==> i == j;
    }
  }

  // ---------- an escalation ----------

  lemma OnlyOwnCall(maxFix: int, rows: seq<Row>, p: nat, calls: seq<Call>, i: nat, sid: string)
    requires Tree(maxFix, rows) && TerminatesExactly(rows, p, calls) && i < |rows| && rows[i].devinId == Some(sid)
    requires p < |rows|
    ensures multiset(calls)[Terminate(sid)] == One(IsParent(rows, p, i) && Active(rows[i].status))
  {
    assert multiset(calls)[Terminate(sid)] == One(exists k :: 0 <= k < |rows| && LiveChild(rows, p, k, sid));
    if k :| 0 <= k < |rows| && LiveChild(rows, p, k, sid) {
      assert k == i;
    } else if IsParent(rows, p, i) && Active(rows[i].status) {
      assert LiveChild(rows, p, i, sid);
    }
  }

  lemma Sandwiched(log: seq<Call>, calls: seq<Call>, p: nat, sid: string)
    ensures Terminates(log + calls + [Comment(p)], sid) == Terminates(log, sid) + Terminates(calls, sid)
  {
    assert multiset(log + calls + [Comment(p)]) == multiset(log) + multiset(calls) + multiset{Comment(p)};
  }

  lemma RaisedCalls(maxFix: int, l: Ledger, p: nat, attempts: nat, i: nat, sid: string)
    requires Tree(maxFix, l.rows) && p < |l.rows| && Terminal(l.rows[p].status)
    requires i < |l.rows| && l.rows[i].devinId == Some(sid)
    ensures Terminates(Escalate(l, p, attempts).log, sid) ==
            Terminates(l.log, sid) + One(IsParent(l.rows, p, i) && Active(l.rows[i].status))
  {
    EscalationExact(maxFix, l, p, attempts);
    var calls :| TerminatesExactly(l.rows, p, calls) && Escalate(l, p, attempts).log == l.log + calls + [Comment(p)];
    Sandwiched(l.log, calls, p, sid);
    OnlyOwnCall(maxFix, l.rows, p, calls, i, sid);
  }

  lemma RaisedStops(maxFix: int, l: Ledger, p: nat, attempts: nat, step: Step, i: nat)
    requires Tree(maxFix, l.rows) && p < |l.rows| && Terminal(l.rows[p].status) && step.CiRun?
    requires i < |l.rows| && l.rows[i].devinId.Some?
    ensures Stopped(l.rows, Escalate(l, p, attempts).rows, step, i) <==>
              IsParent(l.rows, p, i) && Active(l.rows[i].status)
  {
    EscalatedRow(l, p, attempts, i);
    assert !IsParent(l.rows, p, p);
  }

  lemma RaisedTerminates(maxFix: int, l: Ledger, p: nat, attempts: nat, step: Step, i: nat, sid: string)
    requires Tree(maxFix, l.rows) && p < |l.rows| && Terminal(l.rows[p].status) && step.CiRun?
    requires i < |l.rows| && l.rows[i].devinId == Some(sid)
    ensures var r := Escalate(l, p, attempts);
            Terminates(r.log, sid) == Terminates(l.log, sid) + One(Stopped(l.rows, r.rows, step, i))
  {
    RaisedCalls(maxFix, l, p, attempts, i, sid);
    RaisedStops(maxFix, l, p, attempts, step, i);
  }

  // ---------- any step ----------

  lemma StepTerminates(cfg: Config, l: Ledger, step: Step, i: nat, sid: string)
    requires Tree(cfg.maxFix, l.rows) && Legal(l.rows, step) && i < |l.rows| && l.rows[i].devinId == Some(sid)
    ensures var r := Next(cfg, l, step);
            Terminates(r.log, sid) == Terminates(l.log, sid) + One(Stopped(l.rows, r.rows, step, i))
  {
    var ch, r := ChangeOf(cfg, l, step), Next(cfg, l, step);
    NextDoes(cfg, l, step);
    match ch {
      case Unchanged =>
      case Added(row, parentAt) => Appended(l.log, Create(row.job.workKey, row.devinId), sid);
      case Raised(p, url, attempts) => RaisedTerminates(cfg.maxFix, l, p, attempts, step, i, sid);
      case Polled(j, s) =>
        PolledIsPoll(cfg, l, step);
        PollCallsExactly(cfg, l, j, s);
        PollTerminates(l, r, j, step, i, sid);
    }
  }

  // ---------- over a run ----------

  /** In how many steps of a run row i was stopped. */
  function Stops(cfg: Config, steps: seq<Step>, i: nat): nat {
    if steps == [] then 0
    else
      var init, last := steps[..|steps| - 1], steps[|steps| - 1];
      Stops(cfg, init, i) + One(Stopped(Run(cfg, NOTHING, init).rows, Run(cfg, NOTHING, steps).rows, last, i))
  }

  /** A session is terminated only under an id some row holds. */
  ghost predicate Held(l: Ledger) {
    forall sid :: Terminate(sid) in l.log ==> exists i :: 0 <= i < |l.rows| && l.rows[i].devinId == Some(sid)
  }

  lemma DoesKeepsIds(cfg: Config, l: Ledger, ch: Change, r: Ledger, i: nat)
    requires Does(cfg, l, ch, r) && i < |l.rows|
    ensures i < |r.rows| && r.rows[i].devinId == l.rows[i].devinId
  {
    match ch {
      case Unchanged =>
      case Added(row, parentAt) =>
      case Raised(p, url, attempts) => EscalatedRow(l, p, attempts, i);
      case Polled(j, s) => PollNeedsId(cfg.timeout, l.rows[j], s);
    }
  }

  lemma RaisedIsHeld(maxFix: int, l: Ledger, p: nat, attempts: nat, sid: string)
    requires Tree(maxFix, l.rows) && p < |l.rows| && Terminal(l.rows[p].status)
    requires Terminate(sid) in Escalate(l, p, attempts).log && Terminate(sid) !in l.log
    ensures exists i :: 0 <= i < |l.rows| && l.rows[i].devinId == Some(sid)
  {
    EscalationExact(maxFix, l, p, attempts);
    var calls :| TerminatesExactly(l.rows, p, calls) && Escalate(l, p, attempts).log == l.log + calls + [Comment(p)];
    assert Terminate(sid) in multiset(calls);
    var i :| 0 <= i < |l.rows| && LiveChild(l.rows, p, i, sid);
  }

  lemma CallIsHeld(cfg: Config, l: Ledger, ch: Change, r: Ledger, sid: string)
    requires Tree(cfg.maxFix, l.rows) && Does(cfg, l, ch, r) && Terminate(sid) in r.log
    ensures Terminate(sid) in l.log || exists i :: 0 <= i < |l.rows| && l.rows[i].devinId == Some(sid)
  {
    if ch.Raised? && Terminate(sid) !in l.log {
      RaisedIsHeld(cfg.maxFix, l, ch.p, ch.attempts, sid);
    }
  }

  lemma DoesStaysHeld(cfg: Config, l: Ledger, ch: Change, r: Ledger)
    requires Tree(cfg.maxFix, l.rows) && Held(l) && Does(cfg, l, ch, r)
    ensures Held(r)
  {
    forall sid | Terminate(sid) in r.log ensures exists i :: 0 <= i < |r.rows| && r.rows[i].devinId == Some(sid) {
      CallIsHeld(cfg, l, ch, r, sid);
      var i :| 0 <= i < |l.rows| && l.rows[i].devinId == Some(sid);
      DoesKeepsIds(cfg, l, ch, r, i);
      assert r.rows[i].devinId == Some(sid);
    }
  }

  lemma {:induction false} HeldInvariant(cfg: Config, steps: seq<Step>)
    requires LegalRun(cfg, NOTHING, steps)
    ensures Held(Run(cfg, NOTHING, steps))
  {
    if steps == [] {
    } else {
      var init, last := steps[..|steps| - 1], steps[|steps| - 1];
      LegalSplit(cfg, NOTHING, steps);
      HeldInvariant(cfg, init);
      TreeInvariant(cfg, init);
      var l := Run(cfg, NOTHING, init);
      NextDoes(cfg, l, last);
      DoesStaysHeld(cfg, l, ChangeOf(cfg, l, last), Run(cfg, NOTHING, steps));
    }
  }

  lemma {:induction false} NotYetStopped(cfg: Config, steps: seq<Step>, i: nat)
    requires LegalRun(cfg, NOTHING, steps) && i >= |Run(cfg, NOTHING, steps).rows|
    ensures Stops(cfg, steps, i) == 0
  {
    if steps == [] {
    } else {
      var init, last := steps[..|steps| - 1], steps[|steps| - 1];
      LegalSplit(cfg, NOTHING, steps);
      NextDoes(cfg, Run(cfg, NOTHING, init), last);
      DoesExtends(cfg, Run(cfg, NOTHING, init), ChangeOf(cfg, Run(cfg, NOTHING, init), last), Run(cfg, NOTHING, steps));
      NotYetStopped(cfg, init, i);
    }
  }

  lemma NewIsUncalled(cfg: Config, l: Ledger, step: Step, i: nat, sid: string)
    requires Legal(l.rows, step) && Held(l) && |l.rows| <= i < |Next(cfg, l, step).rows|
    requires Next(cfg, l, step).rows[i].devinId == Some(sid)
    ensures Terminates(Next(cfg, l, step).log, sid) == 0
  {
    var ch, r := ChangeOf(cfg, l, step), Next(cfg, l, step);
    NextDoes(cfg, l, step);
    if ch.Raised? {
      EscalatedRow(l, ch.p, ch.attempts, ch.p);
    }
    assert ch.Added?;
    Appended(l.log, Create(ch.row.job.workKey, ch.row.devinId), sid);
    assert Terminate(sid) in l.log <==> Terminate(sid) in multiset(l.log);
  }

  /** Over every run a Devin session is terminated exactly as often as the service has ended its row: by a timeout,
      on a merge, or with its parent.  It is left alone when Devin reports the end or the pull request is closed,
      and never terminated twice for one ending. */
  lemma {:induction false} TerminatedAsOftenAsStopped(cfg: Config, steps: seq<Step>, i: nat, sid: string)
    requires LegalRun(cfg, NOTHING, steps)
    requires i < |Run(cfg, NOTHING, steps).rows| && Run(cfg, NOTHING, steps).rows[i].devinId == Some(sid)
    ensures Terminates(Run(cfg, NOTHING, steps).log, sid) == Stops(cfg, steps, i)
  {
    if steps == [] {
    } else {
      var init, last := steps[..|steps| - 1], steps[|steps| - 1];
      var l := Run(cfg, NOTHING, init);
      LegalSplit(cfg, NOTHING, steps);
      TreeInvariant(cfg, init);
      HeldInvariant(cfg, init);
      if i < |l.rows| {
        NextDoes(cfg, l, last);
        DoesKeepsIds(cfg, l, ChangeOf(cfg, l, last), Run(cfg, NOTHING, steps), i);
        TerminatedAsOftenAsStopped(cfg, init, i, sid);
        StepTerminates(cfg, l, last, i, sid);
      } else {
        NotYetStopped(cfg, init, i);
        NewIsUncalled(cfg, l, last, i, sid);
      }
    }
  }

  /** And after any run, the step that times a session out, or completes it on a merge, makes just that call. */
  lemma StopIsLogged(cfg: Config, steps: seq<Step>, i: nat, s: Sample)
    requires LegalRun(cfg, NOTHING, steps) && i < |Run(cfg, NOTHING, steps).rows|
    ensures var l := Run(cfg, NOTHING, steps);
            var r := Run(cfg, NOTHING, steps + [PollOne(i, s)]);
            r.log == if Stopped(l.rows, r.rows, PollOne(i, s), i) then l.log + [Terminate(l.rows[i].devinId.value)]
                     else l.log
  {
    assert (steps + [PollOne(i, s)])[..|steps|] == steps;
    PollCallsExactly(cfg, Run(cfg, NOTHING, steps), i, s);
  }
}
