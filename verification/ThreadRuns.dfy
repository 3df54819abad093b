/**
 Serial runs among the interleaved ones: with one handler and nobody stepping in, the threads go through every
 ledger that a serial run in the order of its times goes through.
 */
module ThreadRuns {
  import opened Base
  import opened Devin
  import opened Sessions
  import opened Handlers
  import opened Threads
  import opened ThreadSolo
  import Poller
  import Serial

  // ---------- one more step ----------

  /** A legal interleaved run of one handler, and where it has got to. */
  ghost predicate Reaches(cfg: Config, clock: int, steps: seq<Step>, s: State) {
    LegalRun(cfg, Fresh(1, clock), steps) && Run(cfg, Fresh(1, clock), steps) == s
  }

  lemma RunNext(cfg: Config, s: State, steps: seq<Step>, step: Step)
    ensures Run(cfg, s, steps + [step]) == Next(cfg, Run(cfg, s, steps), step)
    ensures States(cfg, s, steps + [step]) == States(cfg, s, steps) + [Run(cfg, s, steps + [step])]
  {
    assert (steps + [step])[..|steps|] == steps;
  }

  lemma Goes(cfg: Config, clock: int, steps: seq<Step>, s: State, step: Step)
    requires Reaches(cfg, clock, steps, s) && Legal(s, step)
    ensures Reaches(cfg, clock, steps + [step], Next(cfg, s, step))
  {
    var more, s0 := steps + [step], Fresh(1, clock);
    RunNext(cfg, s0, steps, step);
    LastState(cfg, s0, steps);
    forall k | 0 <= k < |more| ensures Legal(States(cfg, s0, more)[k], more[k]) {
      if k < |steps| {
        assert Legal(States(cfg, s0, steps)[k], steps[k]);
      }
    }
  }

  // ---------- a handler runs to its end ----------

  /** No session was created under this id. */
  ghost predicate NeverCreated(log: seq<Call>, sid: Option<string>) {
    sid.Some? ==> forall key :: Create(key, sid) !in log
  }

  /** What the handler still gets to hear: the id is handed out once. */
  function Rest(slot: Slot, env: Env): Env { if slot.Calling? then env.(created := None) else env }

  lemma AdvanceCreates(cfg: Config, l: Ledger, slot: Slot, env: Env)
    requires NeverCreated(l.log, env.created)
    ensures NeverCreated(Advance(cfg, l, slot, env).0.log, Rest(slot, env).created)
  {
  }

  lemma RestIsEnough(cfg: Config, l: Ledger, slot: Slot, env: Env)
    ensures var (r, next) := Advance(cfg, l, slot, env);
            Finish(cfg, r, next, env) == Finish(cfg, r, next, Rest(slot, env))
  {
    if slot.Calling? {
      var (r, next) := Advance(cfg, l, slot, env);
      if env.created.Some? {
        FinishHolding(cfg, r, slot.pk, env.created.value, env);
        FinishHolding(cfg, r, slot.pk, env.created.value, Rest(slot, env));
      } else {
        FinishFailing(cfg, r, slot.pk, CreateFailed, env);
        FinishFailing(cfg, r, slot.pk, CreateFailed, Rest(slot, env));
      }
    }
  }

  /** The handler acts until it is idle; the poller's list stays as it is. */
  lemma {:induction false} ActsAlone(cfg: Config, clock: int, steps: seq<Step>, s: State, slot: Slot, env: Env)
    returns (more: seq<Step>, r: State)
    requires Reaches(cfg, clock, steps, s) && s.slots == [slot]
    requires s.clock <= env.now && NeverCreated(s.l.log, env.created)
    ensures Reaches(cfg, clock, more, r) && r.slots == [Idle] && r.polling == s.polling
    ensures r.clock == if slot.Idle? then s.clock else env.now
    ensures r.l == Finish(cfg, s.l, slot, env)
    decreases StepsLeft(slot), if slot.EscKids? then |slot.kids| else 0
  {
    if slot.Idle? {
      more, r := steps, s;
    } else {
      Progress(cfg, s.l, slot, env);
      var (l, next) := Advance(cfg, s.l, slot, env);
      var t := Next(cfg, s, Act(0, env));
      Goes(cfg, clock, steps, s, Act(0, env));
      AdvanceCreates(cfg, s.l, slot, env);
      assert t.slots == [next];
      more, r := ActsAlone(cfg, clock, steps + [Act(0, env)], t, next, Rest(slot, env));
      RestIsEnough(cfg, s.l, slot, env);
    }
  }

  function Asked(task: Task): Slot {
    match task
    case Security(issue) => SecStart(issue)
    case CiRun(run) => CiStart(run)
  }

  lemma HandlesAlone(cfg: Config, clock: int, steps: seq<Step>, s: State, task: Task, env: Env)
    returns (more: seq<Step>, r: State)
    requires Reaches(cfg, clock, steps, s) && s.slots == [Idle]
    requires s.clock <= env.now && NeverCreated(s.l.log, env.created)
    ensures Reaches(cfg, clock, more, r) && r.slots == [Idle] && r.polling == s.polling && r.clock == env.now
    ensures r.l == match task
                   case Security(issue) => HandleSecurity(cfg, s.l, issue, env).0
                   case CiRun(run) => HandleCi(cfg, s.l, run, env).0
  {
    var t := Next(cfg, s, Start(0, task));
    Goes(cfg, clock, steps, s, Start(0, task));
    assert t.slots == [Asked(task)];
    more, r := ActsAlone(cfg, clock, steps + [Start(0, task)], t, Asked(task), env);
    match task {
      case Security(issue) => SoloSecurity(cfg, s.l, issue, env);
      case CiRun(run) => SoloCi(cfg, s.l, run, env);
    }
  }

  // ---------- one row is polled ----------

  /** Devin does not answer. */
  function Silence(now: int): Poller.Sample { Poller.Sample(Poller.Down, now) }

  lemma SilenceChangesNothing(cfg: Config, l: Ledger, seen: Seen, now: int)
    ensures Poll(cfg, l, seen, Silence(now)) == l
  {
    if seen.pk < |l.rows| {
      assert Apply(l.rows[seen.pk], NO_CHANGE) == l.rows[seen.pk];
    }
  }

  lemma {:induction false} PollsOut(cfg: Config, clock: int, steps: seq<Step>, s: State, now: int)
    returns (more: seq<Step>, r: State)
    requires Reaches(cfg, clock, steps, s) && s.clock <= now
    ensures Reaches(cfg, clock, more, r) && r.slots == s.slots && r.polling == [] && r.clock <= now && r.l == s.l
    decreases |s.polling|
  {
    if s.polling == [] {
      more, r := steps, s;
    } else {
      var step := PollNext(Silence(now));
      Goes(cfg, clock, steps, s, step);
      SilenceChangesNothing(cfg, s.l, s.polling[0], now);
      more, r := PollsOut(cfg, clock, steps + [step], Next(cfg, s, step), now);
    }
  }

  ghost predicate AsListed(l: Ledger, list: seq<Seen>) {
    forall a :: 0 <= a < |list| ==>
      list[a].pk < |l.rows| && list[a].row == l.rows[list[a].pk] && Active(list[a].row.status)
  }

  lemma PollIsStep(cfg: Config, l: Ledger, seen: Seen, sample: Poller.Sample)
    requires seen.pk < |l.rows| && seen.row == l.rows[seen.pk] && Active(seen.row.status)
    ensures Poll(cfg, l, seen, sample) == PollStep(cfg, l, seen.pk, sample)
  {
  }

  /** Devin answers for row i only. */
  lemma {:induction false} PollsFor(cfg: Config, clock: int, steps: seq<Step>, s: State, i: nat, sample: Poller.Sample)
    returns (more: seq<Step>, r: State)
    requires Reaches(cfg, clock, steps, s) && s.clock <= sample.now && AsListed(s.l, s.polling)
    ensures Reaches(cfg, clock, more, r) && r.slots == s.slots && r.polling == [] && r.clock <= sample.now
    ensures r.l == if Listed(s.polling, i) then PollStep(cfg, s.l, i, sample) else s.l
    decreases |s.polling|
  {
    if s.polling == [] {
      more, r := steps, s;
    } else if s.polling[0].pk == i {
      var step := PollNext(sample);
      Goes(cfg, clock, steps, s, step);
      PollIsStep(cfg, s.l, s.polling[0], sample);
      more, r := PollsOut(cfg, clock, steps + [step], Next(cfg, s, step), sample.now);
    } else {
      var step := PollNext(Silence(sample.now));
      Goes(cfg, clock, steps, s, step);
      SilenceChangesNothing(cfg, s.l, s.polling[0], sample.now);
      var t := Next(cfg, s, step);
      assert t.polling == s.polling[1..] && t.l == s.l;
      SameBehindFirst(s.polling, i);
      more, r := PollsFor(cfg, clock, steps + [step], t, i, sample);
    }
  }

  lemma SameBehindFirst(list: seq<Seen>, i: nat)
    requires list != [] && list[0].pk != i
    ensures Listed(list[1..], i) <==> Listed(list, i)
  {
    if a :| 0 <= a < |list| && list[a].pk == i {
      assert list[1..][a - 1].pk == i;
    }
  }

  lemma ListsActive(l: Ledger, i: nat)
    ensures var list := Look(l.rows, ListNonTerminal(l.rows));
            AsListed(l, list) && (Listed(list, i) <==> i < |l.rows| && Active(l.rows[i].status))
  {
    if i < |l.rows| && !Listed(Look(l.rows, ListNonTerminal(l.rows)), i) {
      NotListedIsIdle(l.rows, i);
    }
  }

  lemma PollsAlone(cfg: Config, clock: int, steps: seq<Step>, s: State, i: nat, sample: Poller.Sample)
    returns (more: seq<Step>, r: State)
    requires Reaches(cfg, clock, steps, s) && s.polling == [] && s.clock <= sample.now
    ensures Reaches(cfg, clock, more, r) && r.slots == s.slots && r.polling == [] && r.clock <= sample.now
    ensures r.l == PollStep(cfg, s.l, i, sample)
  {
    Goes(cfg, clock, steps, s, List);
    ListsActive(s.l, i);
    more, r := PollsFor(cfg, clock, steps + [List], Next(cfg, s, List), i, sample);
  }

  // ---------- a serial run ----------

  function TimeOf(step: Serial.Step): int {
    match step
    case Security(_, env) => env.now
    case CiRun(_, env) => env.now
    case PollOne(_, sample) => sample.now
  }

  /** The steps are in the order of their times, none before the clock. */
  predicate InTime(clock: int, steps: seq<Serial.Step>) {
    && (forall k :: 0 <= k < |steps| ==> clock <= TimeOf(steps[k]))
    && (forall j, k :: 0 <= j < k < |steps| ==> TimeOf(steps[j]) <= TimeOf(steps[k]))
  }

  predicate HasId(rows: seq<Row>, sid: Option<string>) { exists i :: 0 <= i < |rows| && rows[i].devinId == sid }

  /** Every id Devin returned is on some row. */
  ghost predicate IdsStored(l: Ledger) {
    forall key, sid :: Create(key, Some(sid)) in l.log ==> HasId(l.rows, Some(sid))
  }

  lemma {:induction false} NoCreates(rows: seq<Row>, kids: seq<nat>, n: nat, key: string, sid: Option<string>)
    requires n <= |kids| && forall a :: 0 <= a < |kids| ==> kids[a] < |rows|
    ensures Create(key, sid) !in Terminations(rows, kids, n)
  {
    if n == 0 {
    } else {
      NoCreates(rows, kids, n - 1, key, sid);
    }
  }

  lemma CreatedBefore(cfg: Config, l: Ledger, ch: Serial.Change, r: Ledger, key: string, sid: string)
    requires Serial.Does(cfg, l, ch, r) && Create(key, Some(sid)) in r.log
    ensures Create(key, Some(sid)) in l.log || (ch.Added? && ch.row.devinId == Some(sid))
  {
    if ch.Raised? {
      var marked := Update(l.rows, ch.p, EscalatePatch(ch.attempts));
      var kids := ActiveChildren(marked, l.rows[ch.p].devinId);
      NoCreates(marked, kids, |kids|, key, Some(sid));
    }
  }

  lemma IdStays(cfg: Config, l: Ledger, ch: Serial.Change, r: Ledger, sid: string)
    requires Serial.Does(cfg, l, ch, r) && HasId(l.rows, Some(sid))
    ensures HasId(r.rows, Some(sid))
  {
    var i :| 0 <= i < |l.rows| && l.rows[i].devinId == Some(sid);
    if ch.Raised? {
      Serial.EscalatedRow(l, ch.p, ch.attempts, i);
    }
    assert r.rows[i].devinId == Some(sid);
  }

  lemma DoesStores(cfg: Config, l: Ledger, ch: Serial.Change, r: Ledger)
    requires IdsStored(l) && Serial.Does(cfg, l, ch, r)
    ensures IdsStored(r)
  {
    forall key, sid | Create(key, Some(sid)) in r.log ensures HasId(r.rows, Some(sid)) {
      CreatedBefore(cfg, l, ch, r, key, sid);
      if Create(key, Some(sid)) in l.log {
        IdStays(cfg, l, ch, r, sid);
      } else {
        assert r.rows[|l.rows|].devinId == Some(sid);
      }
    }
  }

  lemma {:induction false} RunStores(cfg: Config, steps: seq<Serial.Step>)
    requires Serial.LegalRun(cfg, Serial.NOTHING, steps)
    ensures IdsStored(Serial.Run(cfg, Serial.NOTHING, steps))
  {
    if steps == [] {
    } else {
      var init, last := steps[..|steps| - 1], steps[|steps| - 1];
      Serial.LegalSplit(cfg, Serial.NOTHING, steps);
      RunStores(cfg, init);
      var l := Serial.Run(cfg, Serial.NOTHING, init);
      Serial.NextDoes(cfg, l, last);
      DoesStores(cfg, l, Serial.ChangeOf(cfg, l, last), Serial.Run(cfg, Serial.NOTHING, steps));
    }
  }

  lemma FreshIsNeverCreated(l: Ledger, sid: Option<string>)
    requires IdsStored(l) && Serial.FreshId(l.rows, sid)
    ensures NeverCreated(l.log, sid)
  {
  }

  /** One serial step, taken by the threads. */
  lemma StepAlone(cfg: Config, clock: int, steps: seq<Step>, s: State, step: Serial.Step)
    returns (more: seq<Step>, r: State)
    requires Reaches(cfg, clock, steps, s) && s.slots == [Idle] && s.polling == [] && s.clock <= TimeOf(step)
    requires IdsStored(s.l) && Serial.Legal(s.l.rows, step)
    ensures Reaches(cfg, clock, more, r) && r.slots == [Idle] && r.polling == [] && r.clock <= TimeOf(step)
    ensures r.l == Serial.Next(cfg, s.l, step)
  {
    match step {
      case Security(issue, env) =>
        FreshIsNeverCreated(s.l, env.created);
        more, r := HandlesAlone(cfg, clock, steps, s, Security(issue), env);
      case CiRun(run, env) =>
        FreshIsNeverCreated(s.l, env.created);
        more, r := HandlesAlone(cfg, clock, steps, s, CiRun(run), env);
      case PollOne(i, sample) =>
        more, r := PollsAlone(cfg, clock, steps, s, i, sample);
    }
  }

  lemma Starting(cfg: Config, clock: int)
    ensures Reaches(cfg, clock, [], Fresh(1, clock)) && Fresh(1, clock).slots == [Idle]
    ensures Fresh(1, clock).l == Serial.NOTHING
  {
  }

  /** Every ledger of a serial run in the order of its times is the ledger of an interleaved run. */
  lemma {:induction false} SerialIsThreaded(cfg: Config, clock: int, steps: seq<Serial.Step>)
    returns (threaded: seq<Step>, s: State)
    requires Serial.LegalRun(cfg, Serial.NOTHING, steps) && InTime(clock, steps)
    ensures Reaches(cfg, clock, threaded, s) && s.slots == [Idle] && s.polling == []
    ensures s.clock <= if steps == [] then clock else TimeOf(steps[|steps| - 1])
    ensures s.l == Serial.Run(cfg, Serial.NOTHING, steps)
  {
    if steps == [] {
      Starting(cfg, clock);
      threaded, s := [], Fresh(1, clock);
    } else {
      var init, last := steps[..|steps| - 1], steps[|steps| - 1];
      Serial.LegalSplit(cfg, Serial.NOTHING, steps);
      threaded, s := SerialIsThreaded(cfg, clock, init);
      RunStores(cfg, init);
      threaded, s := StepAlone(cfg, clock, threaded, s, last);
    }
  }
}
