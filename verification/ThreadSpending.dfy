/**
 Paying once: with handlers interleaved at every database call, no unit of work is sent to Devin twice, no
 session Devin created is lost or claimed twice, and no reservation is left without its handler.
 */
module ThreadSpending {
  import opened Base
  import opened Sessions
  import opened Handlers
  import opened Threads
  import Poller

  // ---------- every reservation has one handler ----------

  /** A handler between its reservation of row pk and its last write to it. */
  function Owns(pk: nat): Slot -> bool {
    (s: Slot) => (s.Calling? || s.Failing? || s.Holding?) && s.pk == pk
  }

  ghost predicate Owned(s: State, pk: nat) {
    && Count(s.slots, Owns(pk)) <= 1
    && (pk >= |s.l.rows| ==> Count(s.slots, Owns(pk)) == 0)
    && (pk < |s.l.rows| && s.l.rows[pk].status.Reserving? ==> Count(s.slots, Owns(pk)) == 1)
    && (pk < |s.l.rows| && Count(s.slots, Owns(pk)) == 1 ==> s.l.rows[pk].devinId.None?)
  }

  /** A handler takes ownership by inserting the row and gives it up by writing its outcome. */
  lemma AdvanceOwns(cfg: Config, l: Ledger, slot: Slot, env: Env, pk: nat)
    ensures var w, next := WriteOf(l, slot, env), Advance(cfg, l, slot, env).1;
            && (Owns(pk)(next) <==> (w.Insert? && pk == |l.rows|) || (w.Nothing? && Owns(pk)(slot)))
            && (Owns(pk)(slot) ==> w.Nothing? || (w.Edit? && w.pk == pk))
            && (w.Edit? ==> w.patch.status.Some? && !w.patch.status.value.Reserving?)
            && (w.Edit? && w.patch.devinId.Some? ==> Owns(w.pk)(slot))
  {
  }

  lemma ActOwned(cfg: Config, s: State, k: nat, env: Env, pk: nat)
    requires k < |s.slots| && Owned(s, pk)
    ensures Owned(Next(cfg, s, Act(k, env)), pk)
  {
    var slot := s.slots[k];
    var w, next := WriteOf(s.l, slot, env), Advance(cfg, s.l, slot, env).1;
    AdvanceWrites(cfg, s.l, slot, env);
    AdvanceOwns(cfg, s.l, slot, env, pk);
    CountReplace(s.slots, k, next, Owns(pk));
    if Owns(pk)(slot) {
      CountHasOne(s.slots, k, Owns(pk));
    }
  }

  lemma NextOwned(cfg: Config, s: State, step: Step, pk: nat)
    requires Owned(s, pk)
    ensures Owned(Next(cfg, s, step), pk)
  {
    match step {
      case Start(k, task) =>
        if k < |s.slots| {
          CountReplace(s.slots, k, Next(cfg, s, step).slots[k], Owns(pk));
        }
      case Act(k, env) => if k < |s.slots| { ActOwned(cfg, s, k, env, pk); }
      case _ =>
    }
  }

  lemma {:induction false} RunOwned(cfg: Config, n: nat, clock: int, steps: seq<Step>, pk: nat)
    ensures Owned(Run(cfg, Fresh(n, clock), steps), pk)
  {
    if steps == [] {
      CountNone(Fresh(n, clock).slots, Owns(pk));
    } else {
      RunOwned(cfg, n, clock, steps[..|steps| - 1], pk);
      NextOwned(cfg, Run(cfg, Fresh(n, clock), steps[..|steps| - 1]), steps[|steps| - 1], pk);
    }
  }

  // ---------- one call to Devin for each unit of work ----------

  function HasKey(key: string): Row -> bool { (r: Row) => r.job.workKey == key }

  /** A handler about to call Devin for this unit of work. */
  function CallsFor(key: string): Slot -> bool { (s: Slot) => s.Calling? && s.key == key }

  /** A call to create_session for this unit of work, whether it succeeded or not. */
  function CreateFor(key: string): Call -> bool { (c: Call) => c.Create? && c.key == key }

  /** Calls made and about to be made for a unit of work are paid for by its one row. */
  ghost predicate Paid(s: State, key: string) {
    Count(s.l.log, CreateFor(key)) + Count(s.slots, CallsFor(key)) <= Count(s.l.rows, HasKey(key)) <= 1
  }

  lemma WriteKeys(rows: seq<Row>, w: Write, key: string)
    ensures Count(Written(rows, w), HasKey(key)) ==
            Count(rows, HasKey(key)) + One(w.Insert? && w.job.workKey == key)
  {
    match w {
      case Nothing =>
      case Insert(job) => CountAppend(rows, Reserved(job), HasKey(key));
      case Edit(pk, patch) =>
        if pk < |rows| {
          CountReplace(rows, pk, Apply(rows[pk], patch), HasKey(key));
        }
    }
  }

  /** What one step adds to the log. */
  lemma AdvanceLogs(cfg: Config, l: Ledger, slot: Slot, env: Env)
    ensures var log := Advance(cfg, l, slot, env).0.log;
            || log == l.log
            || (log == l.log + [log[|l.log|]] &&
                if slot.Calling? then log[|l.log|] == Create(slot.key, env.created) else !log[|l.log|].Create?)
  {
  }

  lemma AdvancePays(cfg: Config, l: Ledger, slot: Slot, env: Env, key: string)
    ensures var w, next := WriteOf(l, slot, env), Advance(cfg, l, slot, env).1;
            && (CallsFor(key)(next) ==> w.Insert? && w.job.workKey == key)
            && (w.Insert? ==> !KeyTaken(l.rows, w.job.workKey) && !slot.Calling?)
  {
  }

  lemma ActPaid(cfg: Config, s: State, k: nat, env: Env, key: string)
    requires k < |s.slots| && Paid(s, key)
    ensures Paid(Next(cfg, s, Act(k, env)), key)
  {
    var slot := s.slots[k];
    var w, r := WriteOf(s.l, slot, env), Advance(cfg, s.l, slot, env);
    AdvanceWrites(cfg, s.l, slot, env);
    AdvanceLogs(cfg, s.l, slot, env);
    AdvancePays(cfg, s.l, slot, env, key);
    WriteKeys(s.l.rows, w, key);
    CountReplace(s.slots, k, r.1, CallsFor(key));
    if |r.0.log| > |s.l.log| {
      CountAppend(s.l.log, r.0.log[|s.l.log|], CreateFor(key));
    }
    if w.Insert? && w.job.workKey == key {
      CountNone(s.l.rows, HasKey(key));
    }
  }

  lemma PollLogs(cfg: Config, l: Ledger, seen: Seen, sample: Poller.Sample)
    ensures var log := Poll(cfg, l, seen, sample).log;
            log == l.log || (log == l.log + [log[|l.log|]] && log[|l.log|].Terminate?)
    ensures exists p :: Poll(cfg, l, seen, sample).rows == Written(l.rows, Edit(seen.pk, p)) && p.devinId.None?
  {
    var p := Poller.Poll(cfg.timeout, seen.row, sample.reply, sample.now).patch;
    assert Poll(cfg, l, seen, sample).rows == Written(l.rows, Edit(seen.pk, p)) && p.devinId.None?;
  }

  lemma NextPaid(cfg: Config, s: State, step: Step, key: string)
    requires Paid(s, key)
    ensures Paid(Next(cfg, s, step), key)
  {
    match step {
      case Start(k, task) =>
        if k < |s.slots| {
          CountReplace(s.slots, k, Next(cfg, s, step).slots[k], CallsFor(key));
        }
      case Act(k, env) => if k < |s.slots| { ActPaid(cfg, s, k, env, key); }
      case List =>
      case PollNext(sample) =>
        if s.polling != [] {
          PollLogs(cfg, s.l, s.polling[0], sample);
          var r := Poll(cfg, s.l, s.polling[0], sample);
          var p :| r.rows == Written(s.l.rows, Edit(s.polling[0].pk, p)) && p.devinId.None?;
          WriteKeys(s.l.rows, Edit(s.polling[0].pk, p), key);
          if |r.log| > |s.l.log| {
            CountAppend(s.l.log, r.log[|s.l.log|], CreateFor(key));
          }
        }
    }
  }

  lemma {:induction false} RunPaid(cfg: Config, n: nat, clock: int, steps: seq<Step>, key: string)
    ensures Paid(Run(cfg, Fresh(n, clock), steps), key)
  {
    if steps == [] {
      CountNone(Fresh(n, clock).slots, CallsFor(key));
    } else {
      RunPaid(cfg, n, clock, steps[..|steps| - 1], key);
      NextPaid(cfg, Run(cfg, Fresh(n, clock), steps[..|steps| - 1]), steps[|steps| - 1], key);
    }
  }

  // ---------- no created session is lost or claimed twice ----------

  function HasId(sid: string): Row -> bool { (r: Row) => r.devinId == Some(sid) }

  function Holds(sid: string): Slot -> bool { (s: Slot) => s.Holding? && s.sid == sid }

  function Made(sid: string): Call -> bool { (c: Call) => c.Create? && c.result == Some(sid) }

  /** Every id Devin returned is held by exactly one row or by exactly one handler about to store it. */
  ghost predicate Conserved(s: State, sid: string) {
    Count(s.l.rows, HasId(sid)) + Count(s.slots, Holds(sid)) == Count(s.l.log, Made(sid)) <= 1
  }

  lemma WriteIds(rows: seq<Row>, w: Write, sid: string)
    requires w.Edit? && w.patch.devinId.Some? ==> w.pk < |rows| && rows[w.pk].devinId.None?
    ensures Count(Written(rows, w), HasId(sid)) ==
            Count(rows, HasId(sid)) + One(w.Edit? && w.patch.devinId == Some(sid))
  {
    match w {
      case Nothing =>
      case Insert(job) => CountAppend(rows, Reserved(job), HasId(sid));
      case Edit(pk, patch) =>
        if pk < |rows| {
          CountReplace(rows, pk, Apply(rows[pk], patch), HasId(sid));
        }
    }
  }

  lemma AdvanceHolds(cfg: Config, l: Ledger, slot: Slot, env: Env, sid: string)
    ensures var w, next := WriteOf(l, slot, env), Advance(cfg, l, slot, env).1;
            && (Holds(sid)(slot) <==> w.Edit? && w.patch.devinId == Some(sid))
            && (w.Edit? && w.patch.devinId.Some? ==> Owns(w.pk)(slot))
            && (Holds(sid)(next) <==> slot.Calling? && env.created == Some(sid))
            && (slot.Calling? ==> Advance(cfg, l, slot, env).0.log == l.log + [Create(slot.key, env.created)])
  {
  }

  lemma ActConserved(cfg: Config, s: State, k: nat, env: Env, sid: string)
    requires k < |s.slots| && Conserved(s, sid) && (forall pk :: Owned(s, pk)) && Legal(s, Act(k, env))
    ensures Conserved(Next(cfg, s, Act(k, env)), sid)
  {
    var slot := s.slots[k];
    var w, r := WriteOf(s.l, slot, env), Advance(cfg, s.l, slot, env);
    AdvanceWrites(cfg, s.l, slot, env);
    AdvanceLogs(cfg, s.l, slot, env);
    AdvanceHolds(cfg, s.l, slot, env, sid);
    if w.Edit? && w.patch.devinId.Some? {
      assert Owned(s, w.pk);
      CountHasOne(s.slots, k, Owns(w.pk));
    }
    WriteIds(s.l.rows, w, sid);
    CountReplace(s.slots, k, r.1, Holds(sid));
    if |r.0.log| > |s.l.log| {
      CountAppend(s.l.log, r.0.log[|s.l.log|], Made(sid));
    }
    if slot.Calling? && env.created == Some(sid) {
      CountNone(s.l.log, Made(sid));
    }
  }

  lemma NextConserved(cfg: Config, s: State, step: Step, sid: string)
    requires Conserved(s, sid) && (forall pk :: Owned(s, pk)) && Legal(s, step)
    ensures Conserved(Next(cfg, s, step), sid)
  {
    match step {
      case Start(k, task) =>
        if k < |s.slots| {
          CountReplace(s.slots, k, Next(cfg, s, step).slots[k], Holds(sid));
        }
      case Act(k, env) => if k < |s.slots| { ActConserved(cfg, s, k, env, sid); }
      case List =>
      case PollNext(sample) =>
        if s.polling != [] {
          PollLogs(cfg, s.l, s.polling[0], sample);
          var r := Poll(cfg, s.l, s.polling[0], sample);
          var p :| r.rows == Written(s.l.rows, Edit(s.polling[0].pk, p)) && p.devinId.None?;
          WriteIds(s.l.rows, Edit(s.polling[0].pk, p), sid);
          if |r.log| > |s.l.log| {
            CountAppend(s.l.log, r.log[|s.l.log|], Made(sid));
          }
        }
    }
  }

  lemma {:induction false} RunConserved(cfg: Config, n: nat, clock: int, steps: seq<Step>, sid: string)
    requires LegalRun(cfg, Fresh(n, clock), steps)
    ensures Conserved(Run(cfg, Fresh(n, clock), steps), sid)
  {
    if steps == [] {
      CountNone(Fresh(n, clock).slots, Holds(sid));
    } else {
      var init := steps[..|steps| - 1];
      LegalSplit(cfg, Fresh(n, clock), steps);
      RunConserved(cfg, n, clock, init, sid);
      forall pk: nat ensures Owned(Run(cfg, Fresh(n, clock), init), pk) {
        RunOwned(cfg, n, clock, init, pk);
      }
      NextConserved(cfg, Run(cfg, Fresh(n, clock), init), steps[|steps| - 1], sid);
    }
  }

  // ---------- the id ends up on the row it was bought for ----------

  predicate SlotTruthful(l: Ledger, slot: Slot) {
    && (slot.Calling? ==> slot.pk < |l.rows| && l.rows[slot.pk].job.workKey == slot.key)
    && (slot.Holding? ==> slot.pk < |l.rows| && Create(l.rows[slot.pk].job.workKey, Some(slot.sid)) in l.log)
  }

  predicate RowTruthful(l: Ledger, row: Row) {
    row.devinId.Some? ==> Create(row.job.workKey, row.devinId) in l.log
  }

  /** A row's Devin session was created for that row's unit of work. */
  ghost predicate Truthful(s: State) {
    && (forall i :: 0 <= i < |s.l.rows| ==> RowTruthful(s.l, s.l.rows[i]))
    && (forall k :: 0 <= k < |s.slots| ==> SlotTruthful(s.l, s.slots[k]))
  }

  lemma AdvanceTruthful(cfg: Config, l: Ledger, slot: Slot, env: Env)
    requires SlotTruthful(l, slot)
    ensures SlotTruthful(Advance(cfg, l, slot, env).0, Advance(cfg, l, slot, env).1)
    ensures var w := WriteOf(l, slot, env);
            w.Edit? && w.patch.devinId.Some? ==>
              w.pk < |l.rows| && Create(l.rows[w.pk].job.workKey, w.patch.devinId) in l.log
  {
  }

  /** More rows, more log: what was true of a slot stays true. */
  lemma SlotStaysTruthful(l: Ledger, r: Ledger, slot: Slot)
    requires SlotTruthful(l, slot) && Extends(l.rows, r.rows) && l.log <= r.log
    ensures SlotTruthful(r, slot)
  {
  }

  lemma WriteTruthful(l: Ledger, r: Ledger, w: Write)
    requires forall i :: 0 <= i < |l.rows| ==> RowTruthful(l, l.rows[i])
    requires r.rows == Written(l.rows, w) && l.log <= r.log
    requires w.Edit? && w.patch.devinId.Some? ==>
               w.pk < |l.rows| && Create(l.rows[w.pk].job.workKey, w.patch.devinId) in l.log
    ensures forall i :: 0 <= i < |r.rows| ==> RowTruthful(r, r.rows[i])
  {
    forall i | 0 <= i < |r.rows| ensures RowTruthful(r, r.rows[i]) {
      if i < |l.rows| {
        assert RowTruthful(l, l.rows[i]);
      }
    }
  }

  lemma NextTruthful(cfg: Config, s: State, step: Step)
    requires Truthful(s)
    ensures Truthful(Next(cfg, s, step))
  {
    NextExtends(cfg, s, step);
    var r := Next(cfg, s, step);
    forall k | 0 <= k < |s.slots| ensures SlotTruthful(r.l, s.slots[k]) {
      SlotStaysTruthful(s.l, r.l, s.slots[k]);
    }
    match step {
      case Act(k, env) =>
        if k < |s.slots| {
          AdvanceWrites(cfg, s.l, s.slots[k], env);
          AdvanceTruthful(cfg, s.l, s.slots[k], env);
          WriteTruthful(s.l, r.l, WriteOf(s.l, s.slots[k], env));
        }
      case PollNext(sample) =>
        if s.polling != [] {
          PollLogs(cfg, s.l, s.polling[0], sample);
          var p :| r.l.rows == Written(s.l.rows, Edit(s.polling[0].pk, p)) && p.devinId.None?;
          WriteTruthful(s.l, r.l, Edit(s.polling[0].pk, p));
        }
      case _ =>
    }
  }

  lemma {:induction false} RunTruthful(cfg: Config, n: nat, clock: int, steps: seq<Step>)
    ensures Truthful(Run(cfg, Fresh(n, clock), steps))
  {
    if steps == [] {
    } else {
      RunTruthful(cfg, n, clock, steps[..|steps| - 1]);
      NextTruthful(cfg, Run(cfg, Fresh(n, clock), steps[..|steps| - 1]), steps[|steps| - 1]);
    }
  }

  /** Exactly-once spending, in every interleaving: at most one create_session call for each unit of work;
      every id Devin returned is held by exactly one row or exactly one handler, and a row holds only an id
      bought for its own unit of work; and every reserving row belongs to exactly one handler in flight. */
  lemma ExactlyOnce(cfg: Config, n: nat, clock: int, steps: seq<Step>)
    requires LegalRun(cfg, Fresh(n, clock), steps)
    ensures var s := Run(cfg, Fresh(n, clock), steps);
            && (forall key :: Count(s.l.log, CreateFor(key)) <= 1)
            && (forall sid :: Count(s.l.rows, HasId(sid)) + Count(s.slots, Holds(sid)) ==
                              One(exists c :: c in s.l.log && Made(sid)(c)))
            && (forall i :: 0 <= i < |s.l.rows| && s.l.rows[i].devinId.Some? ==>
                  Create(s.l.rows[i].job.workKey, s.l.rows[i].devinId) in s.l.log)
            && (forall pk :: 0 <= pk < |s.l.rows| && s.l.rows[pk].status.Reserving? ==>
                  Count(s.slots, Owns(pk)) == 1)
  {
    RunTruthful(cfg, n, clock, steps);
    var s := Run(cfg, Fresh(n, clock), steps);
    forall key ensures Count(s.l.log, CreateFor(key)) <= 1 {
      RunPaid(cfg, n, clock, steps, key);
    }
    forall sid ensures Count(s.l.rows, HasId(sid)) + Count(s.slots, Holds(sid)) ==
                       One(exists c :: c in s.l.log && Made(sid)(c)) {
      RunConserved(cfg, n, clock, steps, sid);
      if c :| c in s.l.log && Made(sid)(c) {
        var k :| 0 <= k < |s.l.log| && s.l.log[k] == c;
        CountHasOne(s.l.log, k, Made(sid));
      } else {
        CountNone(s.l.log, Made(sid));
      }
    }
    forall i | 0 <= i < |s.l.rows| && s.l.rows[i].devinId.Some?
      ensures Create(s.l.rows[i].job.workKey, s.l.rows[i].devinId) in s.l.log {
      assert RowTruthful(s.l, s.l.rows[i]);
    }
    forall pk | 0 <= pk < |s.l.rows| && s.l.rows[pk].status.Reserving?
      ensures Count(s.slots, Owns(pk)) == 1 {
      RunOwned(cfg, n, clock, steps, pk);
    }
  }
}
