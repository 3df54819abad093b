/**
 The cap on fix attempts, with handlers interleaved at every database call.
 */
module ThreadAttempts {
  import opened Base
  import opened Sessions
  import opened Handlers
  import opened Threads
  import Poller

  // ---------- no attempt past the maximum ----------

  predicate RowInRange(maxFix: int, row: Row) {
    row.job.attempt <= Cap(maxFix) && (row.job.parent.Some? ==> 1 <= row.job.attempt)
  }

  predicate SlotInRange(maxFix: int, slot: Slot) {
    slot.CiCounted? || slot.CiRoom? ==> 1 <= slot.attempt <= maxFix
  }

  ghost predicate InRange(maxFix: int, s: State) {
    && (forall i :: 0 <= i < |s.l.rows| ==> RowInRange(maxFix, s.l.rows[i]))
    && (forall k :: 0 <= k < |s.slots| ==> SlotInRange(maxFix, s.slots[k]))
  }

  predicate JobInRange(maxFix: int, w: Write) {
    w.Insert? ==> RowInRange(maxFix, Reserved(w.job))
  }

  lemma AdvanceInRange(cfg: Config, l: Ledger, slot: Slot, env: Env)
    requires SlotInRange(cfg.maxFix, slot)
    ensures JobInRange(cfg.maxFix, WriteOf(l, slot, env))
    ensures SlotInRange(cfg.maxFix, Advance(cfg, l, slot, env).1)
  {
  }

  lemma WriteInRange(maxFix: int, rows: seq<Row>, w: Write)
    requires forall i :: 0 <= i < |rows| ==> RowInRange(maxFix, rows[i])
    requires JobInRange(maxFix, w)
    ensures forall i :: 0 <= i < |Written(rows, w)| ==> RowInRange(maxFix, Written(rows, w)[i])
  {
  }

  lemma NextInRange(cfg: Config, s: State, step: Step)
    requires InRange(cfg.maxFix, s)
    ensures InRange(cfg.maxFix, Next(cfg, s, step))
  {
    match step {
      case Act(k, env) =>
        if k < |s.slots| {
          AdvanceWrites(cfg, s.l, s.slots[k], env);
          AdvanceInRange(cfg, s.l, s.slots[k], env);
          WriteInRange(cfg.maxFix, s.l.rows, WriteOf(s.l, s.slots[k], env));
        }
      case _ =>
    }
  }

  // ---------- how many sessions share an attempt number ----------

  function FixOf(sid: string, a: nat): Row -> bool {
    (r: Row) => r.job.parent == Some(sid) && r.job.attempt == a
  }

  /** A handler that has worked out this attempt number and not yet reserved it. */
  function Bound(sid: string, a: nat): Slot -> bool {
    (s: Slot) => (s.CiCounted? || s.CiRoom?) && s.parent == Some(sid) && s.attempt == a
  }

  lemma WriteCount(rows: seq<Row>, w: Write, sid: string, a: nat)
    ensures Count(Written(rows, w), FixOf(sid, a)) ==
            Count(rows, FixOf(sid, a)) + One(w.Insert? && w.job.parent == Some(sid) && w.job.attempt == a)
  {
    match w {
      case Nothing =>
      case Insert(job) => CountAppend(rows, Reserved(job), FixOf(sid, a));
      case Edit(pk, patch) =>
        if pk < |rows| {
          CountReplace(rows, pk, Apply(rows[pk], patch), FixOf(sid, a));
        }
    }
  }

  /** Only a handler that holds the number reserves it, and a handler comes to hold it only while no session
      has it: the highest attempt of the chain never goes down. */
  lemma AdvanceBound(cfg: Config, l: Ledger, slot: Slot, env: Env, sid: string, a: nat)
    ensures var w, next := WriteOf(l, slot, env), Advance(cfg, l, slot, env).1;
            var reserves := w.Insert? && w.job.parent == Some(sid) && w.job.attempt == a;
            || One(reserves) + One(Bound(sid, a)(next)) <= One(Bound(sid, a)(slot))
            || (!reserves && Count(l.rows, FixOf(sid, a)) == 0)
  {
    if slot.CiTracked? {
      var highest := MaxFixAttempt(l.rows, slot.seen.row.devinId);
      if slot.seen.row.devinId == Some(sid) && highest + 1 == a {
        forall i | 0 <= i < |l.rows| ensures !FixOf(sid, a)(l.rows[i]) {
          assert l.rows[i].job.parent == Some(sid) ==> InChain(l.rows[i], Some(sid));
        }
        CountNone(l.rows, FixOf(sid, a));
      }
    }
  }

  /** Sessions that have this attempt number, and handlers about to reserve it. */
  ghost predicate Limited(s: State, sid: string, a: nat) {
    Count(s.l.rows, FixOf(sid, a)) + Count(s.slots, Bound(sid, a)) <= |s.slots|
  }

  lemma NextLimited(cfg: Config, s: State, step: Step, sid: string, a: nat)
    requires Limited(s, sid, a)
    ensures Limited(Next(cfg, s, step), sid, a)
  {
    var b := Bound(sid, a);
    match step {
      case Start(k, task) =>
        if k < |s.slots| {
          CountReplace(s.slots, k, Next(cfg, s, step).slots[k], b);
        }
      case Act(k, env) =>
        if k < |s.slots| {
          var w, next := WriteOf(s.l, s.slots[k], env), Advance(cfg, s.l, s.slots[k], env).1;
          AdvanceWrites(cfg, s.l, s.slots[k], env);
          AdvanceBound(cfg, s.l, s.slots[k], env, sid, a);
          WriteCount(s.l.rows, w, sid, a);
          CountReplace(s.slots, k, next, b);
          CountBound(s.slots[k := next], b);
        }
      case List =>
      case PollNext(sample) =>
        if s.polling != [] {
          WriteCount(s.l.rows, Edit(s.polling[0].pk,
            Poller.Poll(cfg.timeout, s.polling[0].row, sample.reply, sample.now).patch), sid, a);
        }
    }
  }

  lemma {:induction false} RunLimited(cfg: Config, n: nat, clock: int, steps: seq<Step>, sid: string, a: nat)
    ensures var s := Run(cfg, Fresh(n, clock), steps);
            && |s.slots| == n && InRange(cfg.maxFix, s) && Limited(s, sid, a)
  {
    if steps == [] {
      CountNone(Fresh(n, clock).slots, Bound(sid, a));
    } else {
      var init, last := steps[..|steps| - 1], steps[|steps| - 1];
      RunLimited(cfg, n, clock, init, sid, a);
      NextInRange(cfg, Run(cfg, Fresh(n, clock), init), last);
      NextLimited(cfg, Run(cfg, Fresh(n, clock), init), last, sid, a);
      NextExtends(cfg, Run(cfg, Fresh(n, clock), init), last);
    }
  }

  // ---------- how many fix sessions one session gets ----------

  function FixUpTo(sid: string, m: nat): Row -> bool {
    (r: Row) => r.job.parent == Some(sid) && 1 <= r.job.attempt <= m
  }

  function FixesOf(sid: string): Row -> bool {
    (r: Row) => r.job.parent == Some(sid)
  }

  lemma {:induction false} CountSplit(rows: seq<Row>, sid: string, m: nat)
    requires m > 0
    ensures Count(rows, FixUpTo(sid, m)) == Count(rows, FixUpTo(sid, m - 1)) + Count(rows, FixOf(sid, m))
  {
    if rows == [] {
    } else {
      CountSplit(rows[..|rows| - 1], sid, m);
    }
  }

  lemma {:induction false} SumOfAttempts(rows: seq<Row>, sid: string, m: nat, n: nat)
    requires forall a :: 1 <= a <= m ==> Count(rows, FixOf(sid, a)) <= n
    ensures Count(rows, FixUpTo(sid, m)) <= n * m
  {
    if m == 0 {
      CountNone(rows, FixUpTo(sid, 0));
    } else {
      SumOfAttempts(rows, sid, m - 1, n);
      CountSplit(rows, sid, m);
      assert Count(rows, FixOf(sid, m)) <= n;
      assert n * m == n * (m - 1) + n;
    }
  }

  /** With n handlers in flight, however their database calls interleave with each other and with the poller:
      no attempt number passes MAX_FIX_ATTEMPTS, at most n sessions share one under the same parent, and a
      parent gets at most n * MAX_FIX_ATTEMPTS fix sessions of its own. */
  lemma AttemptCap(cfg: Config, n: nat, clock: int, steps: seq<Step>, sid: string)
    ensures var rows := Run(cfg, Fresh(n, clock), steps).l.rows;
            && (forall i :: 0 <= i < |rows| ==> rows[i].job.attempt <= Cap(cfg.maxFix))
            && (forall a: nat :: Count(rows, FixOf(sid, a)) <= n)
            && Count(rows, FixesOf(sid)) <= n * Cap(cfg.maxFix)
  {
    var s := Run(cfg, Fresh(n, clock), steps);
    forall a: nat ensures Count(s.l.rows, FixOf(sid, a)) <= n {
      RunLimited(cfg, n, clock, steps, sid, a);
    }
    RunLimited(cfg, n, clock, steps, sid, 0);
    forall i | 0 <= i < |s.l.rows| ensures s.l.rows[i].job.attempt <= Cap(cfg.maxFix) {
      assert RowInRange(cfg.maxFix, s.l.rows[i]);
    }
    SumOfAttempts(s.l.rows, sid, Cap(cfg.maxFix), n);
    CountMonotone(s.l.rows, FixesOf(sid), FixUpTo(sid, Cap(cfg.maxFix)));
  }
}
