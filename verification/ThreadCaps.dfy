/**
 The two spending limits under races: how far n handlers that all checked a limit before any of them
 reserved can go past it.
 */
module ThreadCaps {
  import opened Base
  import opened Devin
  import opened Sessions
  import opened Handlers
  import opened Threads
  import opened ThreadSpending
  import Poller

  /** How high a count guarded by "if count >= limit: stop" can get with n handlers. */
  function Slack(limit: int, n: nat): nat { if limit <= 0 then 0 else Cap(limit + n - 1) }

  // ---------- security sessions per day ----------

  function CveOn(day: int): Row -> bool {
    (r: Row) => r.job.kind.CveIssue? && Day(r.job.startedAt) == day
  }

  /** A handler that passed the daily limit and has not reserved yet. */
  const PASSED_DAILY: Slot -> bool := (s: Slot) => s.SecToday?

  /** Past days are final, today's handlers still count, future days are empty. */
  ghost predicate Daily(limit: int, s: State, day: int) {
    var started, pending := Count(s.l.rows, CveOn(day)), Count(s.slots, PASSED_DAILY);
    && (day < Day(s.clock) ==> started <= Slack(limit, |s.slots|))
    && (day >= Day(s.clock) ==> started + pending <= Slack(limit, |s.slots|))
    && (day > Day(s.clock) ==> started == 0)
  }

  lemma WriteCves(rows: seq<Row>, w: Write, day: int)
    ensures Count(Written(rows, w), CveOn(day)) ==
            Count(rows, CveOn(day)) + One(w.Insert? && w.job.kind.CveIssue? && Day(w.job.startedAt) == day)
  {
    match w {
      case Nothing =>
      case Insert(job) => CountAppend(rows, Reserved(job), CveOn(day));
      case Edit(pk, patch) =>
        if pk < |rows| {
          CountReplace(rows, pk, Apply(rows[pk], patch), CveOn(day));
        }
    }
  }

  lemma AdvanceDaily(cfg: Config, l: Ledger, slot: Slot, env: Env)
    ensures var w, next := WriteOf(l, slot, env), Advance(cfg, l, slot, env).1;
            && (w.Insert? && w.job.kind.CveIssue? ==> PASSED_DAILY(slot) && Day(w.job.startedAt) == Day(env.now))
            && (PASSED_DAILY(slot) ==> !PASSED_DAILY(next))
            && (PASSED_DAILY(next) ==> w.Nothing? && CountStartedOn(l.rows, Day(env.now)) < cfg.maxPerDay)
  {
  }

  lemma ClockMoves(limit: int, s: State, day: int, now: int)
    requires Daily(limit, s, day) && s.clock <= now
    ensures Daily(limit, s.(clock := now), day)
  {
  }

  lemma ActDaily(cfg: Config, s: State, k: nat, env: Env, day: int)
    requires k < |s.slots| && s.clock == env.now && Daily(cfg.maxPerDay, s, day)
    ensures Daily(cfg.maxPerDay, Next(cfg, s, Act(k, env)), day)
  {
    var slot := s.slots[k];
    var w, next := WriteOf(s.l, slot, env), Advance(cfg, s.l, slot, env).1;
    AdvanceWrites(cfg, s.l, slot, env);
    AdvanceDaily(cfg, s.l, slot, env);
    WriteCves(s.l.rows, w, day);
    CountReplace(s.slots, k, next, PASSED_DAILY);
    CountBound(s.slots[k := next], PASSED_DAILY);
    CountMonotone(s.l.rows, CveOn(Day(env.now)), StartedOn(Day(env.now)));
  }

  lemma NextDaily(cfg: Config, s: State, step: Step, day: int)
    requires Daily(cfg.maxPerDay, s, day) && Legal(s, step)
    ensures Daily(cfg.maxPerDay, Next(cfg, s, step), day)
  {
    match step {
      case Start(k, task) =>
        if k < |s.slots| {
          CountReplace(s.slots, k, Next(cfg, s, step).slots[k], PASSED_DAILY);
        }
      case Act(k, env) =>
        if k < |s.slots| {
          ClockMoves(cfg.maxPerDay, s, day, env.now);
          ActDaily(cfg, s.(clock := env.now), k, env, day);
        }
      case List =>
      case PollNext(sample) =>
        if s.polling != [] {
          ClockMoves(cfg.maxPerDay, s, day, sample.now);
          PollLogs(cfg, s.l, s.polling[0], sample);
          var p :| Next(cfg, s, step).l.rows == Written(s.l.rows, Edit(s.polling[0].pk, p)) && p.devinId.None?;
          WriteCves(s.l.rows, Edit(s.polling[0].pk, p), day);
        }
    }
  }

  lemma {:induction false} DailyInvariant(cfg: Config, n: nat, clock: int, steps: seq<Step>, day: int)
    requires LegalRun(cfg, Fresh(n, clock), steps)
    ensures var s := Run(cfg, Fresh(n, clock), steps);
            |s.slots| == n && Daily(cfg.maxPerDay, s, day)
  {
    if steps == [] {
      CountNone(Fresh(n, clock).slots, PASSED_DAILY);
    } else {
      var init, last := steps[..|steps| - 1], steps[|steps| - 1];
      LegalSplit(cfg, Fresh(n, clock), steps);
      DailyInvariant(cfg, n, clock, init, day);
      NextDaily(cfg, Run(cfg, Fresh(n, clock), init), last, day);
      NextExtends(cfg, Run(cfg, Fresh(n, clock), init), last);
    }
  }

  /** The security sessions started in a stretch of time. */
  function CvesBetween(rows: seq<Row>, start: int, end: int): set<nat> {
    set i: nat | i < |rows| && rows[i].job.kind.CveIssue? && start <= rows[i].job.startedAt < end
  }

  lemma CvesOfDay(rows: seq<Row>, day: int)
    ensures Count(rows, CveOn(day)) == |CvesBetween(rows, 86400 * day, 86400 * (day + 1))|
  {
    CountIsSize(rows, CveOn(day));
    assert Places(rows, CveOn(day)) == CvesBetween(rows, 86400 * day, 86400 * (day + 1));
  }

  /** In every interleaving, across midnight too, the security sessions started on one day are fewer than the
      daily limit plus the number of handlers. */
  lemma DailyCap(cfg: Config, n: nat, clock: int, steps: seq<Step>, day: int)
    requires LegalRun(cfg, Fresh(n, clock), steps)
    ensures var rows := Run(cfg, Fresh(n, clock), steps).l.rows;
            |CvesBetween(rows, 86400 * day, 86400 * (day + 1))| <=
            if cfg.maxPerDay <= 0 then 0 else cfg.maxPerDay + n - 1
  {
    DailyInvariant(cfg, n, clock, steps, day);
    CvesOfDay(Run(cfg, Fresh(n, clock), steps).l.rows, day);
  }

  // ---------- active sessions ----------

  /** A handler that passed the concurrency limit and has not reserved yet. */
  const PASSED_CAP: Slot -> bool := (s: Slot) => s.SecRoom? || s.SecToday? || s.CiRoom?

  const IS_TRUE: bool -> bool := (b: bool) => b

  /** The rows that are active and that no escalation has written to. */
  function Live(rows: seq<Row>, touched: set<nat>): (r: seq<bool>)
    ensures |r| == |rows|
  {
    seq(|rows|, i requires 0 <= i < |rows| => Active(rows[i].status) && i !in touched)
  }

  function CountLive(s: State): nat { Count(Live(s.l.rows, s.touched), IS_TRUE) }

  lemma {:induction false} LiveIsActive(rows: seq<Row>, touched: set<nat>)
    ensures Count(Live(rows, touched), IS_TRUE) <= CountActive(rows)
  {
    if rows == [] {
    } else {
      var n := |rows| - 1;
      assert Live(rows, touched)[..n] == Live(rows[..n], touched);
      LiveIsActive(rows[..n], touched);
    }
  }

  /** Rows no escalation has touched: while a handler owns one it is reserving, and while the poller has it
      listed with its session it is active. */
  ghost predicate Current(s: State) {
    && (forall k :: 0 <= k < |s.slots| && OwnsOne(s.slots[k]) && s.slots[k].pk !in s.touched ==>
          s.slots[k].pk < |s.l.rows| && s.l.rows[s.slots[k].pk].status.Reserving?)
    && (forall a :: 0 <= a < |s.polling| && s.polling[a].row.devinId.Some? && s.polling[a].pk !in s.touched ==>
          Pollable(s.l.rows, s.polling[a].pk))
    && (forall a, b :: 0 <= a < b < |s.polling| ==> s.polling[a].pk < s.polling[b].pk)
  }

  predicate OwnsOne(slot: Slot) { slot.Calling? || slot.Failing? || slot.Holding? }

  predicate Pollable(rows: seq<Row>, pk: nat) {
    pk < |rows| && Active(rows[pk].status) && rows[pk].devinId.Some?
  }

  /** What one handler step may do to the rows, as far as the cap is concerned. */
  lemma AdvanceLive(cfg: Config, l: Ledger, slot: Slot, env: Env)
    ensures var w, next := WriteOf(l, slot, env), Advance(cfg, l, slot, env).1;
            && (w.Insert? ==> PASSED_CAP(slot) && !PASSED_CAP(next) && Touches(slot) == {})
            && (w.Edit? ==> !PASSED_CAP(slot) && !PASSED_CAP(next))
            && (w.Edit? ==> Touches(slot) == {w.pk} || (OwnsOne(slot) && slot.pk == w.pk && Touches(slot) == {}))
            && (w.Nothing? ==> Touches(slot) == {})
            && (w.Nothing? && PASSED_CAP(next) ==> PASSED_CAP(slot) || CountActive(l.rows) < cfg.maxConcurrent)
  {
  }

  ghost predicate Capped(limit: int, s: State) {
    CountLive(s) + Count(s.slots, PASSED_CAP) <= Slack(limit, |s.slots|)
  }

  lemma WriteLive(rows: seq<Row>, w: Write, touched: set<nat>, more: set<nat>)
    requires more == {} || (w.Edit? && more == {w.pk})
    requires w.Edit? && more == {} ==> w.pk in touched || (w.pk < |rows| && Active(rows[w.pk].status))
    ensures Count(Live(Written(rows, w), touched + more), IS_TRUE) <=
            Count(Live(rows, touched), IS_TRUE) + One(w.Insert?)
  {
    var before, after := Live(rows, touched), Live(Written(rows, w), touched + more);
    match w {
      case Nothing =>
        assert after == before;
      case Insert(job) =>
        assert after == before + [after[|rows|]];
        CountAppend(before, after[|rows|], IS_TRUE);
      case Edit(pk, patch) =>
        if pk < |rows| {
          assert after == before[pk := after[pk]];
          CountReplace(before, pk, after[pk], IS_TRUE);
        } else {
          assert after == before;
        }
    }
  }

  lemma ActCapped(cfg: Config, s: State, k: nat, env: Env)
    requires k < |s.slots| && Capped(cfg.maxConcurrent, s) && Current(s)
    ensures Capped(cfg.maxConcurrent, Next(cfg, s, Act(k, env)))
  {
    var slot := s.slots[k];
    var w, next := WriteOf(s.l, slot, env), Advance(cfg, s.l, slot, env).1;
    AdvanceWrites(cfg, s.l, slot, env);
    AdvanceLive(cfg, s.l, slot, env);
    WriteLive(s.l.rows, w, s.touched, Touches(slot));
    CountReplace(s.slots, k, next, PASSED_CAP);
    CountBound(s.slots[k := next], PASSED_CAP);
    LiveIsActive(s.l.rows, s.touched);
  }

  lemma PollCapped(cfg: Config, s: State, sample: Poller.Sample)
    requires s.polling != [] && Capped(cfg.maxConcurrent, s) && Current(s)
    ensures Capped(cfg.maxConcurrent, Next(cfg, s, PollNext(sample)))
  {
    var seen := s.polling[0];
    var p := Poller.Poll(cfg.timeout, seen.row, sample.reply, sample.now).patch;
    if seen.row.devinId.Some? {
      WriteLive(s.l.rows, Edit(seen.pk, p), s.touched, {});
    } else {
      assert Poll(cfg, s.l, seen, sample).rows == s.l.rows;
    }
    assert s.touched + {} == s.touched;
  }

  // ---------- untouched rows stay current ----------

  ghost predicate AllOwned(s: State) { forall pk :: Owned(s, pk) }

  lemma OneOwner(s: State, j: nat, k: nat)
    requires AllOwned(s) && j < |s.slots| && k < |s.slots| && j != k
    requires OwnsOne(s.slots[j]) && OwnsOne(s.slots[k])
    ensures s.slots[j].pk != s.slots[k].pk
  {
    var pk := s.slots[j].pk;
    assert Owned(s, pk);
    if s.slots[k].pk == pk {
      CountReplace(s.slots, j, Idle, Owns(pk));
      CountHasOne(s.slots[j := Idle], k, Owns(pk));
    }
  }

  /** A row that a handler owns has no Devin session yet, so the poller leaves it alone. */
  lemma OwnedHasNoId(s: State, k: nat)
    requires AllOwned(s) && k < |s.slots| && OwnsOne(s.slots[k])
    ensures s.slots[k].pk < |s.l.rows| && s.l.rows[s.slots[k].pk].devinId.None?
  {
    assert Owned(s, s.slots[k].pk);
    CountHasOne(s.slots, k, Owns(s.slots[k].pk));
  }

  lemma AdvanceOwnership(cfg: Config, l: Ledger, slot: Slot, env: Env)
    ensures var w, next := WriteOf(l, slot, env), Advance(cfg, l, slot, env).1;
            && (OwnsOne(next) ==>
                  || (w.Insert? && next.pk == |l.rows|)
                  || (w.Nothing? && OwnsOne(slot) && next.pk == slot.pk))
  {
  }

  lemma ActCurrent(cfg: Config, s: State, k: nat, env: Env)
    requires k < |s.slots| && Current(s) && AllOwned(s)
    ensures Current(Next(cfg, s, Act(k, env)))
  {
    var slot := s.slots[k];
    var w := WriteOf(s.l, slot, env);
    var r := Next(cfg, s, Act(k, env));
    AdvanceWrites(cfg, s.l, slot, env);
    AdvanceLive(cfg, s.l, slot, env);
    AdvanceOwnership(cfg, s.l, slot, env);
    assert r.l.rows == Written(s.l.rows, w) && r.touched == s.touched + Touches(slot);
    if OwnsOne(slot) {
      OwnedHasNoId(s, k);
    }
    forall j | 0 <= j < |r.slots| && OwnsOne(r.slots[j]) && r.slots[j].pk !in r.touched
      ensures r.slots[j].pk < |r.l.rows| && r.l.rows[r.slots[j].pk].status.Reserving? {
      if j != k {
        assert r.slots[j] == s.slots[j];
        if OwnsOne(slot) {
          OneOwner(s, j, k);
        }
      }
    }
  }

  lemma PollCurrent(cfg: Config, s: State, sample: Poller.Sample)
    requires s.polling != [] && Current(s) && AllOwned(s)
    ensures Current(Next(cfg, s, PollNext(sample)))
  {
    var r := Next(cfg, s, PollNext(sample));
    var seen := s.polling[0];
    var p := Poller.Poll(cfg.timeout, seen.row, sample.reply, sample.now).patch;
    assert r.l.rows == Update(s.l.rows, seen.pk, p);
    if seen.row.devinId.None? {
      assert r.l.rows == s.l.rows;
    }
    forall j | 0 <= j < |r.slots| && OwnsOne(r.slots[j]) && r.slots[j].pk !in r.touched
      ensures r.slots[j].pk < |r.l.rows| && r.l.rows[r.slots[j].pk].status.Reserving? {
      OwnedHasNoId(s, j);
    }
  }

  lemma NextCurrent(cfg: Config, s: State, step: Step)
    requires Current(s) && AllOwned(s)
    ensures Current(Next(cfg, s, step))
  {
    match step {
      case Start(k, task) =>
      case Act(k, env) => if k < |s.slots| { ActCurrent(cfg, s, k, env); }
      case List =>
      case PollNext(sample) => if s.polling != [] { PollCurrent(cfg, s, sample); }
    }
  }

  lemma NextCapped(cfg: Config, s: State, step: Step)
    requires Capped(cfg.maxConcurrent, s) && Current(s)
    ensures Capped(cfg.maxConcurrent, Next(cfg, s, step))
  {
    match step {
      case Start(k, task) =>
        if k < |s.slots| {
          CountReplace(s.slots, k, Next(cfg, s, step).slots[k], PASSED_CAP);
        }
      case Act(k, env) => if k < |s.slots| { ActCapped(cfg, s, k, env); }
      case List =>
      case PollNext(sample) => if s.polling != [] { PollCapped(cfg, s, sample); }
    }
  }

  lemma {:induction false} CapInvariant(cfg: Config, n: nat, clock: int, steps: seq<Step>)
    ensures var s := Run(cfg, Fresh(n, clock), steps);
            |s.slots| == n && Current(s) && Capped(cfg.maxConcurrent, s)
  {
    if steps == [] {
      CountNone(Fresh(n, clock).slots, PASSED_CAP);
    } else {
      var init, last := steps[..|steps| - 1], steps[|steps| - 1];
      CapInvariant(cfg, n, clock, init);
      var s := Run(cfg, Fresh(n, clock), init);
      forall pk: nat ensures Owned(s, pk) {
        RunOwned(cfg, n, clock, init, pk);
      }
      NextCurrent(cfg, s, last);
      NextCapped(cfg, s, last);
      NextExtends(cfg, s, last);
    }
  }

  /** The active sessions that no escalation has touched. */
  function LiveUntouched(s: State): set<nat> {
    set i: nat | i < |s.l.rows| && Active(s.l.rows[i].status) && i !in s.touched
  }

  lemma LiveIsUntouched(s: State)
    ensures CountLive(s) == |LiveUntouched(s)|
  {
    CountIsSize(Live(s.l.rows, s.touched), IS_TRUE);
    assert Places(Live(s.l.rows, s.touched), IS_TRUE) == LiveUntouched(s);
  }

  /** In every interleaving, the active sessions that no escalation has touched are fewer than the concurrency
      limit plus the number of handlers. */
  lemma ActiveCap(cfg: Config, n: nat, clock: int, steps: seq<Step>)
    ensures |LiveUntouched(Run(cfg, Fresh(n, clock), steps))| <=
            if cfg.maxConcurrent <= 0 then 0 else cfg.maxConcurrent + n - 1
  {
    CapInvariant(cfg, n, clock, steps);
    LiveIsUntouched(Run(cfg, Fresh(n, clock), steps));
  }

  /** Without escalations that is all active sessions. */
  lemma ActiveCapUnescalated(cfg: Config, n: nat, clock: int, steps: seq<Step>)
    requires Run(cfg, Fresh(n, clock), steps).touched == {}
    ensures CountActive(Run(cfg, Fresh(n, clock), steps).l.rows) <=
            if cfg.maxConcurrent <= 0 then 0 else cfg.maxConcurrent + n - 1
  {
    CapInvariant(cfg, n, clock, steps);
    AllLive(Run(cfg, Fresh(n, clock), steps).l.rows);
  }

  lemma {:induction false} AllLive(rows: seq<Row>)
    ensures Count(Live(rows, {}), IS_TRUE) == CountActive(rows)
  {
    if rows == [] {
    } else {
      var n := |rows| - 1;
      assert Live(rows, {})[..n] == Live(rows[..n], {});
      AllLive(rows[..n]);
    }
  }
}
