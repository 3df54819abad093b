/**
 Terminal rows under races: when a poll from an old listing, or a handler, can bring one back.
 */
module ThreadFinal {
  import opened Base
  import opened Devin
  import opened Sessions
  import opened Handlers
  import opened Threads
  import opened ThreadCaps
  import ThreadRuns
  import Scenarios
  import Escalations
  import Serial
  import Poller

  /** Row i comes back from a terminal status. */
  predicate ComesBack(before: seq<Row>, after: seq<Row>, i: nat) {
    i < |before| && Terminal(before[i].status) && i < |after| && Active(after[i].status)
  }

  lemma ActBringsBack(cfg: Config, s: State, k: nat, env: Env, i: nat)
    requires k < |s.slots| && Current(s) && ComesBack(s.l.rows, Next(cfg, s, Act(k, env)).l.rows, i)
    ensures i in s.touched + Touches(s.slots[k])
  {
    var slot := s.slots[k];
    var w := WriteOf(s.l, slot, env);
    AdvanceWrites(cfg, s.l, slot, env);
    AdvanceLive(cfg, s.l, slot, env);
    assert w.Edit? && w.pk == i;
  }

  lemma NoIdNoWrite(cfg: Config, l: Ledger, seen: Seen, sample: Poller.Sample)
    ensures seen.row.devinId.None? ==> Poll(cfg, l, seen, sample).rows == l.rows
  {
    if seen.row.devinId.None? && seen.pk < |l.rows| {
      assert Apply(l.rows[seen.pk], NO_CHANGE) == l.rows[seen.pk];
    }
  }

  lemma PollBringsBack(cfg: Config, s: State, sample: Poller.Sample, i: nat)
    requires s.polling != [] && Current(s) && ComesBack(s.l.rows, Next(cfg, s, PollNext(sample)).l.rows, i)
    ensures i in s.touched && i == s.polling[0].pk && s.polling[0].row.devinId.Some?
  {
    NoIdNoWrite(cfg, s.l, s.polling[0], sample);
  }

  lemma StateIsCurrent(cfg: Config, n: nat, clock: int, steps: seq<Step>)
    ensures Current(Run(cfg, Fresh(n, clock), steps))
  {
    CapInvariant(cfg, n, clock, steps);
  }

  /** In every interleaving, a step brings back a terminal row only if an escalation touches or has touched it. */
  lemma BroughtBackIsTouched(cfg: Config, n: nat, clock: int, steps: seq<Step>, step: Step, i: nat)
    requires var s := Run(cfg, Fresh(n, clock), steps); ComesBack(s.l.rows, Next(cfg, s, step).l.rows, i)
    ensures i in Next(cfg, Run(cfg, Fresh(n, clock), steps), step).touched
    ensures step.PollNext? ==> i in Run(cfg, Fresh(n, clock), steps).touched
  {
    var s := Run(cfg, Fresh(n, clock), steps);
    StateIsCurrent(cfg, n, clock, steps);
    match step {
      case Start(k, task) =>
      case Act(k, env) => if k < |s.slots| { ActBringsBack(cfg, s, k, env, i); }
      case List =>
      case PollNext(sample) => if s.polling != [] { PollBringsBack(cfg, s, sample, i); }
    }
  }

  lemma TouchedGrows(cfg: Config, s: State, step: Step)
    ensures s.touched <= Next(cfg, s, step).touched
  {
  }

  /** So over every interleaving a terminal row that no escalation touches stays terminal. */
  lemma {:induction false} UntouchedIsFinal(cfg: Config, n: nat, clock: int, steps: seq<Step>, k: nat, i: nat)
    requires k <= |steps| && i !in Run(cfg, Fresh(n, clock), steps).touched
    requires var rows := Run(cfg, Fresh(n, clock), steps[..k]).l.rows; i < |rows| && Terminal(rows[i].status)
    ensures var rows := Run(cfg, Fresh(n, clock), steps).l.rows; i < |rows| && Terminal(rows[i].status)
    decreases |steps|
  {
    if k == |steps| {
      assert steps[..k] == steps;
    } else {
      var init, last := steps[..|steps| - 1], steps[|steps| - 1];
      var s := Run(cfg, Fresh(n, clock), init);
      assert init[..k] == steps[..k];
      TouchedGrows(cfg, s, last);
      UntouchedIsFinal(cfg, n, clock, init, k, i);
      NextExtends(cfg, s, last);
      if !Terminal(Next(cfg, s, last).l.rows[i].status) {
        BroughtBackIsTouched(cfg, n, clock, init, last, i);
      }
    }
  }

  // ---------- a poll from an old listing ----------

  ghost predicate ListedActive(s: State) {
    forall a :: 0 <= a < |s.polling| ==> Active(s.polling[a].row.status)
  }

  lemma {:induction false} RunListsActive(cfg: Config, s: State, steps: seq<Step>)
    requires ListedActive(s)
    ensures ListedActive(Run(cfg, s, steps))
  {
    if steps == [] {
    } else {
      RunListsActive(cfg, s, steps[..|steps| - 1]);
    }
  }

  /** The poller writes an active status, going by the row as it was listed. */
  predicate WritesActive(limit: int, row: Row, s: Poller.Sample) {
    && row.devinId.Some? && s.reply.Up? && Active(s.reply.remote.Status())
    && Poller.Changed(row, s.reply.remote) && !Poller.TimesOut(limit, row, s.reply.remote, s.now)
    && !Poller.Merged(s.reply.remote) && !Poller.Closed(s.reply.remote)
  }

  lemma StaleWrite(limit: int, seen: Row, now: Row, s: Poller.Sample)
    requires Active(seen.status) && Terminal(now.status)
    ensures Active(Apply(now, Poller.Poll(limit, seen, s.reply, s.now).patch).status) <==> WritesActive(limit, seen, s)
  {
  }

  /** In every interleaving, the poll of a row that has ended since it was listed brings it back exactly if Devin
      reports it alive and the row as it was listed has anything to learn; and then an escalation ended it. */
  lemma StalePollExactly(cfg: Config, n: nat, clock: int, steps: seq<Step>, sample: Poller.Sample)
    requires var s := Run(cfg, Fresh(n, clock), steps);
             s.polling != [] && s.polling[0].pk < |s.l.rows| && Terminal(s.l.rows[s.polling[0].pk].status)
    ensures var s := Run(cfg, Fresh(n, clock), steps);
            var seen := s.polling[0];
            && (ComesBack(s.l.rows, Next(cfg, s, PollNext(sample)).l.rows, seen.pk) <==>
                  WritesActive(cfg.timeout, seen.row, sample))
            && (WritesActive(cfg.timeout, seen.row, sample) ==> seen.pk in s.touched)
  {
    var s := Run(cfg, Fresh(n, clock), steps);
    var seen := s.polling[0];
    RunListsActive(cfg, Fresh(n, clock), steps);
    StaleWrite(cfg.timeout, seen.row, s.l.rows[seen.pk], sample);
    if WritesActive(cfg.timeout, seen.row, sample) {
      BroughtBackIsTouched(cfg, n, clock, steps, PollNext(sample), seen.pk);
    }
  }

  // ---------- it happens ----------

  const RUNNING := Poller.Sample(Poller.Up(Remote(RawRunning, 0.0, [], Some(1), None)), 1)

  lemma NotTwice(pks: seq<nat>)
    requires |pks| >= 2 && forall a, b :: 0 <= a < b < |pks| ==> pks[a] < pks[b]
    ensures pks[0] != pks[1]
  {
  }

  lemma OnlyOne(pks: seq<nat>, pk: nat)
    requires pk in pks && (forall a :: 0 <= a < |pks| ==> pks[a] == pk)
    requires forall a, b :: 0 <= a < b < |pks| ==> pks[a] < pks[b]
    ensures pks == [pk]
  {
    if |pks| >= 2 {
      NotTwice(pks);
      assert false;
    }
  }

  lemma OnlySecondActive(rows: seq<Row>)
    requires |rows| == 2 && Terminal(rows[0].status) && Active(rows[1].status)
    ensures ListNonTerminal(rows) == [1]
  {
    OnlyOne(ListNonTerminal(rows), 1);
  }

  lemma OnlySecondListed(rows: seq<Row>)
    requires |rows| == 2 && Terminal(rows[0].status) && Active(rows[1].status)
    ensures Look(rows, ListNonTerminal(rows)) == [Seen(1, rows[1])]
  {
    OnlySecondActive(rows);
  }

  /** The run of Escalations in which a fix session starts. */
  lemma FixRun(cfg: Config, body: string, nodes: seq<Scenarios.Node>) returns (steps: seq<Serial.Step>)
    requires cfg.maxConcurrent >= 1 && cfg.maxPerDay >= 1 && cfg.maxFix == 1 && Scenarios.Accepted(body)
    requires nodes == [Escalations.RootNode(Completed, Some("u1")), Escalations.FixNode(0, 1, Pending, None)]
    ensures Serial.LegalRun(cfg, Serial.NOTHING, steps)
    ensures Scenarios.Looks(Serial.Run(cfg, Serial.NOTHING, steps).rows, nodes)
    ensures |steps| == 3 && forall k :: 0 <= k < 3 ==> ThreadRuns.TimeOf(steps[k]) == 0
  {
    var views;
    steps, views := Escalations.FixStarts(cfg, body, "u1");
    Scenarios.LastTable(cfg, steps, views);
  }

  /** A fix session is pending. */
  lemma FixPending(cfg: Config, body: string, nodes: seq<Scenarios.Node>) returns (steps: seq<Step>, s: State)
    requires cfg.maxConcurrent >= 1 && cfg.maxPerDay >= 1 && cfg.maxFix == 1 && Scenarios.Accepted(body)
    requires nodes == [Escalations.RootNode(Completed, Some("u1")), Escalations.FixNode(0, 1, Pending, None)]
    ensures ThreadRuns.Reaches(cfg, 0, steps, s) && s.slots == [Idle] && s.polling == [] && s.clock <= 0
    ensures ThreadRuns.IdsStored(s.l) && Scenarios.Looks(s.l.rows, nodes)
  {
    var serial := FixRun(cfg, body, nodes);
    ThreadRuns.RunStores(cfg, serial);
    steps, s := ThreadRuns.SerialIsThreaded(cfg, 0, serial);
  }

  lemma ThenListed(cfg: Config, steps: seq<Step>, s: State, nodes: seq<Scenarios.Node>)
    requires ThreadRuns.Reaches(cfg, 0, steps, s) && s.polling == [] && Scenarios.Looks(s.l.rows, nodes)
    requires nodes == [Escalations.RootNode(Completed, Some("u1")), Escalations.FixNode(0, 1, Pending, None)]
    ensures |s.l.rows| == 2 && Next(cfg, s, List) == s.(polling := [Seen(1, s.l.rows[1])])
    ensures ThreadRuns.Reaches(cfg, 0, steps + [List], Next(cfg, s, List))
    ensures s.l.rows[1].status == Pending && s.l.rows[1].devinId.Some?
  {
    Escalations.TwoShow(s.l.rows, nodes);
    assert Scenarios.LooksLike(s.l.rows[1], 1, nodes[1]);
    OnlySecondListed(s.l.rows);
    ThreadRuns.Goes(cfg, 0, steps, s, List);
  }

  lemma ThenCancelled(cfg: Config, steps: seq<Step>, s: State, nodes: seq<Scenarios.Node>)
    returns (more: seq<Step>, r: State)
    requires ThreadRuns.Reaches(cfg, 0, steps, s) && s.slots == [Idle] && s.clock <= 0 && cfg.maxFix == 1
    requires ThreadRuns.IdsStored(s.l) && Scenarios.Looks(s.l.rows, nodes)
    requires nodes == [Escalations.RootNode(Completed, Some("u1")), Escalations.FixNode(0, 1, Pending, None)]
    ensures ThreadRuns.Reaches(cfg, 0, more, r) && r.clock <= 0 && r.polling == s.polling
    ensures |r.l.rows| == 2 && r.l.rows[0].status == NeedsAttention && r.l.rows[1].status == Cancelled
  {
    var step := Scenarios.Failure(2, "u1");
    Escalations.TopOfTwo(nodes, 0);
    Scenarios.GivesUp(cfg, s.l, nodes, 2, "u1", 0, 1);
    ThreadRuns.FreshIsNeverCreated(s.l, step.env.created);
    more, r := ThreadRuns.HandlesAlone(cfg, 0, steps, s, CiRun(step.run), step.env);
    Escalations.TwoShow(r.l.rows, Scenarios.Marked(nodes, 0));
  }

  /** Its row is listed, and then its parent is escalated. */
  lemma CancelledWhileListed(cfg: Config, body: string) returns (steps: seq<Step>, s: State, seen: Row)
    requires cfg.maxConcurrent >= 1 && cfg.maxPerDay >= 1 && cfg.maxFix == 1 && Scenarios.Accepted(body)
    ensures ThreadRuns.Reaches(cfg, 0, steps, s) && s.clock <= 0 && s.polling == [Seen(1, seen)]
    ensures |s.l.rows| == 2 && s.l.rows[0].status == NeedsAttention && s.l.rows[1].status == Cancelled
    ensures seen.status == Pending && seen.devinId.Some?
  {
    var nodes := [Escalations.RootNode(Completed, Some("u1")), Escalations.FixNode(0, 1, Pending, None)];
    var before, t := FixPending(cfg, body, nodes);
    ThenListed(cfg, before, t, nodes);
    seen := t.l.rows[1];
    steps, s := ThenCancelled(cfg, before + [List], Next(cfg, t, List), nodes);
  }

  /** And then Devin's answer for it is written back: the child runs again, beside the parent that waits for a
      human. */
  lemma CancelledChildRunsOn(cfg: Config) returns (steps: seq<Step>)
    requires cfg.maxConcurrent >= 1 && cfg.maxPerDay >= 1 && cfg.maxFix == 1 && cfg.timeout >= 0
    ensures LegalRun(cfg, Fresh(1, 0), steps + [PollNext(RUNNING)])
    ensures var before, after := Run(cfg, Fresh(1, 0), steps).l.rows,
                                 Run(cfg, Fresh(1, 0), steps + [PollNext(RUNNING)]).l.rows;
            && |before| == |after| == 2 && before[0].status == after[0].status == NeedsAttention
            && before[1].status == Cancelled && after[1].status == Running
  {
    var body := Scenarios.AcceptedBody();
    var s, seen;
    steps, s, seen := CancelledWhileListed(cfg, body);
    ThreadRuns.Goes(cfg, 0, steps, s, PollNext(RUNNING));
  }
}
