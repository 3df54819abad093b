/**
 The inactivity timeout over runs, where handlers work on the same rows as the poller.
 */
module Timeouts {
  import opened Base
  import opened Devin
  import opened Sessions
  import opened Handlers
  import opened Poller
  import opened Serial

  predicate Watched(row: Row) { Active(row.status) && row.devinId.Some? }

  /** This step is a poll of row i that reaches Devin. */
  predicate Hears(rows: seq<Row>, step: Step, i: nat) {
    step.PollOne? && step.i == i && step.sample.reply.Up? && i < |rows| && Watched(rows[i])
  }

  /** When a run last heard of row i. */
  function Heard(cfg: Config, steps: seq<Step>, i: nat): Option<int> {
    if steps == [] then None
    else
      var init, last := steps[..|steps| - 1], steps[|steps| - 1];
      if Hears(Run(cfg, NOTHING, init).rows, last, i) then Some(last.sample.now) else Heard(cfg, init, i)
  }

  lemma PollHears(limit: int, row: Row, s: Sample)
    ensures PollRow(limit, row, s).lastPolled ==
            if Watched(row) && s.reply.Up? then Some(s.now) else row.lastPolled
  {
  }

  /** The poll time a step leaves on row i. */
  predicate Stamped(before: seq<Row>, after: seq<Row>, step: Step, i: nat) {
    && |before| <= |after|
    && (i < |after| ==>
          after[i].lastPolled == if Hears(before, step, i) then Some(step.sample.now)
                                 else if i < |before| then before[i].lastPolled else None)
  }

  lemma ChangeStamps(cfg: Config, l: Ledger, ch: Change, r: Ledger, i: nat)
    requires Does(cfg, l, ch, r)
    ensures |l.rows| <= |r.rows|
    ensures i < |r.rows| ==>
              r.rows[i].lastPolled ==
              if ch.Polled? && ch.i == i then PollRow(cfg.timeout, l.rows[i], ch.sample).lastPolled
              else if i < |l.rows| then l.rows[i].lastPolled else None
  {
    if ch.Raised? {
      EscalatedRow(l, ch.p, ch.attempts, ch.p);
      if i < |l.rows| {
        EscalatedRow(l, ch.p, ch.attempts, i);
      }
    }
  }

  lemma NextStamps(cfg: Config, l: Ledger, step: Step, i: nat)
    requires Legal(l.rows, step)
    ensures Stamped(l.rows, Next(cfg, l, step).rows, step, i)
  {
    var ch, r := ChangeOf(cfg, l, step), Next(cfg, l, step);
    NextDoes(cfg, l, step);
    PolledIsPoll(cfg, l, step);
    ChangeStamps(cfg, l, ch, r, i);
    if ch.Polled? && ch.i == i {
      PollHears(cfg.timeout, l.rows[i], ch.sample);
    }
  }

  /** The poll time stored on a row is the last time the run heard of it, escalations in between or not. */
  lemma {:induction false} StoredIsHeard(cfg: Config, steps: seq<Step>, i: nat)
    requires LegalRun(cfg, NOTHING, steps)
    ensures var rows := Run(cfg, NOTHING, steps).rows;
            Heard(cfg, steps, i) == if i < |rows| then rows[i].lastPolled else None
  {
    if steps == [] {
    } else {
      var init, last := steps[..|steps| - 1], steps[|steps| - 1];
      LegalSplit(cfg, NOTHING, steps);
      StoredIsHeard(cfg, init, i);
      NextStamps(cfg, Run(cfg, NOTHING, init), last, i);
    }
  }

  // ---------- when a session times out ----------

  predicate BecomesTimedOut(before: seq<Row>, after: seq<Row>, i: nat) {
    && i < |after| && after[i].status.TimedOut?
    && (i < |before| ==> !before[i].status.TimedOut?)
  }

  /** A poll that reaches Devin finds the session at work and silent for longer than the limit, measured from
      Devin's clock, from `heard` if there is no clock, or from the start if it was never heard of. */
  predicate FoundSilent(limit: int, rows: seq<Row>, step: Step, i: nat, heard: Option<int>) {
    Hears(rows, step, i) &&
    var m := step.sample.reply.remote;
    && (m.Status().Pending? || m.Status().Running?)
    && step.sample.now - (if m.Clock().Some? then m.Clock().value
                          else if heard.Some? then heard.value else rows[i].job.startedAt) > limit
  }

  lemma PollTimesOut(limit: int, row: Row, s: Sample)
    requires !row.status.TimedOut?
    ensures PollRow(limit, row, s).status.TimedOut? <==>
              Watched(row) && s.reply.Up? && TimesOut(limit, row, s.reply.remote, s.now)
  {
  }

  lemma ChangeTimesOut(cfg: Config, l: Ledger, ch: Change, r: Ledger, i: nat)
    requires Does(cfg, l, ch, r)
    ensures BecomesTimedOut(l.rows, r.rows, i) <==>
              ch.Polled? && ch.i == i && !l.rows[i].status.TimedOut?
              && PollRow(cfg.timeout, l.rows[i], ch.sample).status.TimedOut?
  {
    if ch.Raised? {
      EscalatedRow(l, ch.p, ch.attempts, ch.p);
      if i < |l.rows| {
        EscalatedRow(l, ch.p, ch.attempts, i);
      }
    }
  }

  lemma NextTimesOut(cfg: Config, l: Ledger, step: Step, i: nat)
    requires Legal(l.rows, step)
    ensures BecomesTimedOut(l.rows, Next(cfg, l, step).rows, i) <==>
              FoundSilent(cfg.timeout, l.rows, step, i, if i < |l.rows| then l.rows[i].lastPolled else None)
  {
    var ch := ChangeOf(cfg, l, step);
    NextDoes(cfg, l, step);
    PolledIsPoll(cfg, l, step);
    ChangeTimesOut(cfg, l, ch, Next(cfg, l, step), i);
    if ch.Polled? && ch.i == i {
      PollTimesOut(cfg.timeout, l.rows[i], ch.sample);
    }
  }

  /** After any run, a step makes row i time out exactly if it is a poll that finds the session silent, counting
      from the last time the run heard of it. */
  lemma TimesOutExactly(cfg: Config, steps: seq<Step>, step: Step, i: nat)
    requires LegalRun(cfg, NOTHING, steps) && Legal(Run(cfg, NOTHING, steps).rows, step)
    ensures var l := Run(cfg, NOTHING, steps);
            BecomesTimedOut(l.rows, Next(cfg, l, step).rows, i) <==>
              FoundSilent(cfg.timeout, l.rows, step, i, Heard(cfg, steps, i))
  {
    StoredIsHeard(cfg, steps, i);
    NextTimesOut(cfg, Run(cfg, NOTHING, steps), step, i);
  }

  /** An escalation does not restart the clock: a revived session that was last heard of longer ago than the
      limit times out at its next poll, if Devin reports it at work and gives no clock. */
  lemma RevivedSessionTimesOut(cfg: Config, steps: seq<Step>, i: nat, m: Remote, now: int, heard: int)
    requires LegalRun(cfg, NOTHING, steps) && i < |Run(cfg, NOTHING, steps).rows|
    requires Run(cfg, NOTHING, steps).rows[i].status == NeedsAttention && Run(cfg, NOTHING, steps).rows[i].devinId.Some?
    requires Heard(cfg, steps, i) == Some(heard) && now - heard > cfg.timeout
    requires m.Clock().None? && (m.Status().Pending? || m.Status().Running?)
    ensures BecomesTimedOut(Run(cfg, NOTHING, steps).rows,
                            Next(cfg, Run(cfg, NOTHING, steps), PollOne(i, Sample(Up(m), now))).rows, i)
  {
    TimesOutExactly(cfg, steps, PollOne(i, Sample(Up(m), now)), i);
  }
}
