/**
 The webhook_events table, and the queue that lives in it (app/db/webhook_events.py,
 app/routes/webhook.py, drain_queue in app/orchestrator.py).
 */
module Queue {
  import opened Base
  import opened Devin
  import opened Sessions
  import opened Handlers
  import opened Dispatcher
  import Poller

  /** A recorded delivery.  `result` is what its handler last returned; None until it has run. */
  datatype Delivery = Delivery(id: string, event: Event, result: Option<Outcome>)
  {
    predicate Waiting() { result.Some? && result.value.Queued? }
    predicate Settled() { result.Some? && !result.value.Queued? }
  }

  /** A dispatcher: what becomes of the ledger, and the answer; how many slots a ledger takes; and which
      events it may queue.  The queue's guarantees need only the facts stated as `Polite` below. */
  datatype Desk = Desk(
    cfg: Config,
    dispatch: (Ledger, Event, Env) -> (Ledger, Outcome),
    load: Ledger -> nat,
    queueable: Event -> bool)

  datatype World = World(ledger: Ledger, deliveries: seq<Delivery>)

  /** One dispatch: it raises before doing anything, or it runs. */
  datatype Attempt = Crash | Runs(env: Env)

  predicate Known(ds: seq<Delivery>, id: string) {
    exists k :: 0 <= k < |ds| && ds[k].id == id
  }

  function MarkProcessed(ds: seq<Delivery>, id: string, outcome: Outcome): seq<Delivery> {
    seq(|ds|, k requires 0 <= k < |ds| => if ds[k].id == id then ds[k].(result := Some(outcome)) else ds[k])
  }

  /** Positions of the waiting deliveries, oldest first. */
  function Waiting(ds: seq<Delivery>): (r: seq<nat>)
    ensures forall a :: 0 <= a < |r| ==> r[a] < |ds| && ds[r[a]].Waiting()
    ensures forall k :: 0 <= k < |ds| && ds[k].Waiting() ==> k in r
    ensures forall a, b :: 0 <= a < b < |r| ==> r[a] < r[b]
  {
    if ds == [] then []
    else
      var n := |ds| - 1;
      assert ds[..n] + [ds[n]] == ds;
      Waiting(ds[..n]) + if ds[n].Waiting() then [n] else []
  }

  function ListQueued(ds: seq<Delivery>, limit: int): seq<nat> {
    var all := Waiting(ds);
    if 0 <= limit < |all| then all[..limit] else all
  }

  function Capacity(desk: Desk, l: Ledger): int { desk.cfg.maxConcurrent - desk.load(l) }

  function AttemptAt(attempts: seq<Attempt>, j: nat): Attempt {
    if j < |attempts| then attempts[j] else Crash
  }

  /** Retry one delivery: a crash or a renewed "queued" leaves it where it was. */
  function Retry(desk: Desk, w: World, k: nat, a: Attempt): World
    requires k < |w.deliveries|
  {
    if a.Crash? then w
    else
      var (l, outcome) := desk.dispatch(w.ledger, w.deliveries[k].event, a.env);
      World(l, if outcome.Queued? then w.deliveries else MarkProcessed(w.deliveries, w.deliveries[k].id, outcome))
  }

  function RetryFirst(desk: Desk, w: World, listed: seq<nat>, attempts: seq<Attempt>, n: nat): (r: World)
    requires n <= |listed| && forall a :: 0 <= a < |listed| ==> listed[a] < |w.deliveries|
    ensures |r.deliveries| == |w.deliveries|
    ensures forall k {:trigger r.deliveries[k]} :: 0 <= k < |w.deliveries| ==>
              r.deliveries[k].id == w.deliveries[k].id && r.deliveries[k].event == w.deliveries[k].event
  {
    if n == 0 then w
    else Retry(desk, RetryFirst(desk, w, listed, attempts, n - 1), listed[n - 1], AttemptAt(attempts, n - 1))
  }

  function Drain(desk: Desk, w: World, attempts: seq<Attempt>): World {
    if Capacity(desk, w.ledger) <= 0 then w
    else
      var listed := ListQueued(w.deliveries, Capacity(desk, w.ledger));
      RetryFirst(desk, w, listed, attempts, |listed|)
  }

  function SampleAt(samples: seq<Poller.Sample>, i: nat): Poller.Sample {
    if i < |samples| then samples[i] else Poller.Sample(Poller.Down, 0)
  }

  function PollFirst(cfg: Config, l: Ledger, samples: seq<Poller.Sample>, n: nat): (r: Ledger)
    requires n <= |l.rows|
    ensures |r.rows| == |l.rows|
    ensures forall i :: n <= i < |l.rows| ==> r.rows[i] == l.rows[i]
  {
    if n == 0 then l else PollStep(cfg, PollFirst(cfg, l, samples, n - 1), n - 1, SampleAt(samples, n - 1))
  }

  function PollAll(cfg: Config, l: Ledger, samples: seq<Poller.Sample>): Ledger {
    PollFirst(cfg, l, samples, |l.rows|)
  }

  /** The termination due when row i is polled, if one is. */
  function StopDue(cfg: Config, row: Row, samples: seq<Poller.Sample>, i: nat): seq<Call> {
    if i < |samples| && Active(row.status) && Poller.StopsRemote(cfg.timeout, row, samples[i])
    then [Terminate(row.devinId.value)] else []
  }

  /** The terminations due when the first n rows are polled, in row order. */
  function Stopping(cfg: Config, rows: seq<Row>, samples: seq<Poller.Sample>, n: nat): seq<Call>
    requires n <= |rows|
  {
    if n == 0 then [] else Stopping(cfg, rows, samples, n - 1) + StopDue(cfg, rows[n - 1], samples, n - 1)
  }

  lemma {:induction false} PollsEachOnce(cfg: Config, l: Ledger, samples: seq<Poller.Sample>, n: nat)
    requires n <= |l.rows|
    ensures forall i :: 0 <= i < n ==>
              PollFirst(cfg, l, samples, n).rows[i] ==
              Poller.PollRow(cfg.timeout, l.rows[i], SampleAt(samples, i))
  {
    if n == 0 {
    } else {
      PollsEachOnce(cfg, l, samples, n - 1);
      PollsRow(cfg, PollFirst(cfg, l, samples, n - 1), n - 1, SampleAt(samples, n - 1));
    }
  }

  lemma PollStopsDue(cfg: Config, l: Ledger, samples: seq<Poller.Sample>, i: nat)
    requires i < |l.rows|
    ensures PollStep(cfg, l, i, SampleAt(samples, i)).log == l.log + StopDue(cfg, l.rows[i], samples, i)
  {
    PollStops(cfg, l, i, SampleAt(samples, i));
  }

  lemma {:induction false} PollsStopDue(cfg: Config, l: Ledger, samples: seq<Poller.Sample>, n: nat)
    requires n <= |l.rows|
    ensures PollFirst(cfg, l, samples, n).log == l.log + Stopping(cfg, l.rows, samples, n)
  {
    if n == 0 {
    } else {
      PollsStopDue(cfg, l, samples, n - 1);
      PollStopsDue(cfg, PollFirst(cfg, l, samples, n - 1), samples, n - 1);
      Append3(l.log, Stopping(cfg, l.rows, samples, n - 1), StopDue(cfg, l.rows[n - 1], samples, n - 1));
    }
  }

  lemma Append3(a: seq<Call>, b: seq<Call>, c: seq<Call>)
    ensures a + b + c == a + (b + c)
  {
  }

  // ---------- the whole service, one event or tick at a time ----------

  datatype Step =
    | Receive(id: string, event: Event)
    | Process(k: nat, attempt: Attempt)
    | Tick(attempts: seq<Attempt>, samples: seq<Poller.Sample>)

  function Record(ds: seq<Delivery>, id: string, event: Event): seq<Delivery> {
    if Known(ds, id) then ds else ds + [Delivery(id, event, None)]
  }

  function ProcessDelivery(desk: Desk, w: World, k: nat, a: Attempt): World
    requires k < |w.deliveries|
  {
    if a.Crash? then World(w.ledger, MarkProcessed(w.deliveries, w.deliveries[k].id, Errored))
    else
      var (l, outcome) := desk.dispatch(w.ledger, w.deliveries[k].event, a.env);
      World(l, MarkProcessed(w.deliveries, w.deliveries[k].id, outcome))
  }

  function PollOnce(desk: Desk, w: World, attempts: seq<Attempt>, samples: seq<Poller.Sample>): World {
    var d := Drain(desk, w, attempts);
    World(PollAll(desk.cfg, d.ledger, samples), d.deliveries)
  }

  function Next(desk: Desk, w: World, step: Step): World {
    match step
    case Receive(id, event) => World(w.ledger, Record(w.deliveries, id, event))
    case Process(k, a) =>   // scheduled once, when the delivery was recorded
      if k < |w.deliveries| && w.deliveries[k].result.None? then ProcessDelivery(desk, w, k, a) else w
    case Tick(attempts, samples) => PollOnce(desk, w, attempts, samples)
  }

  function Run(desk: Desk, w: World, steps: seq<Step>): World {
    if steps == [] then w else Next(desk, Run(desk, w, steps[..|steps| - 1]), steps[|steps| - 1])
  }

  const EMPTY := World(Ledger([], []), [])

  // ---------- what is ever queued ----------

  ghost predicate DistinctDeliveries(ds: seq<Delivery>) {
    forall a, b :: 0 <= a < b < |ds| ==> ds[a].id != ds[b].id
  }

  predicate PoliteAt(desk: Desk, l: Ledger, e: Event, env: Env) {
    var (after, outcome) := desk.dispatch(l, e, env);
    && (outcome.Queued? ==> desk.queueable(e))
    && (desk.queueable(e) && desk.load(l) < desk.cfg.maxConcurrent ==>
          !outcome.Queued? && desk.load(after) <= desk.load(l) + 1)
  }

  /** Only queueable events are ever queued, and with a free slot one of them is not queued and
      takes at most that slot. */
  ghost predicate Polite(desk: Desk) {
    forall l, e, env :: PoliteAt(desk, l, e, env)
  }

  /** Deliveries are distinct, and only queueable events wait in the queue. */
  ghost predicate QueueInv(desk: Desk, w: World) {
    && DistinctDeliveries(w.deliveries)
    && forall k :: 0 <= k < |w.deliveries| && w.deliveries[k].Waiting() ==> desk.queueable(w.deliveries[k].event)
  }

  lemma MarksOnlyItself(ds: seq<Delivery>, k: nat, outcome: Outcome)
    requires DistinctDeliveries(ds) && k < |ds|
    ensures MarkProcessed(ds, ds[k].id, outcome) == ds[k := ds[k].(result := Some(outcome))]
  {
  }

  lemma RetryKeepsQueue(desk: Desk, w: World, k: nat, a: Attempt)
    requires Polite(desk) && QueueInv(desk, w) && k < |w.deliveries|
    ensures QueueInv(desk, Retry(desk, w, k, a))
  {
    if a.Runs? {
      assert PoliteAt(desk, w.ledger, w.deliveries[k].event, a.env);
      var outcome := desk.dispatch(w.ledger, w.deliveries[k].event, a.env).1;
      MarksOnlyItself(w.deliveries, k, outcome);
    }
  }

  lemma {:induction false} RetryFirstKeepsQueue(desk: Desk, w: World, listed: seq<nat>, attempts: seq<Attempt>, n: nat)
    requires Polite(desk) && QueueInv(desk, w)
    requires n <= |listed| && forall a :: 0 <= a < |listed| ==> listed[a] < |w.deliveries|
    ensures QueueInv(desk, RetryFirst(desk, w, listed, attempts, n))
  {
    if n == 0 {
    } else {
      RetryFirstKeepsQueue(desk, w, listed, attempts, n - 1);
      RetryKeepsQueue(desk, RetryFirst(desk, w, listed, attempts, n - 1), listed[n - 1], AttemptAt(attempts, n - 1));
    }
  }

  lemma StepKeepsQueue(desk: Desk, w: World, step: Step)
    requires Polite(desk) && QueueInv(desk, w)
    ensures QueueInv(desk, Next(desk, w, step))
  {
    match step {
      case Receive(id, event) =>
      case Process(k, a) =>
        if k < |w.deliveries| && w.deliveries[k].result.None? {
          var outcome := if a.Crash? then Errored else desk.dispatch(w.ledger, w.deliveries[k].event, a.env).1;
          MarksOnlyItself(w.deliveries, k, outcome);
          if a.Runs? {
            assert PoliteAt(desk, w.ledger, w.deliveries[k].event, a.env);
          }
        }
      case Tick(attempts, samples) =>
        if Capacity(desk, w.ledger) > 0 {
          var listed := ListQueued(w.deliveries, Capacity(desk, w.ledger));
          RetryFirstKeepsQueue(desk, w, listed, attempts, |listed|);
        }
    }
  }

  lemma {:induction false} QueueInvariant(desk: Desk, steps: seq<Step>)
    requires Polite(desk)
    ensures QueueInv(desk, Run(desk, EMPTY, steps))
  {
    if steps == [] {
    } else {
      QueueInvariant(desk, steps[..|steps| - 1]);
      StepKeepsQueue(desk, Run(desk, EMPTY, steps[..|steps| - 1]), steps[|steps| - 1]);
    }
  }

  // ---------- receiving and processing are exact ----------

  /** A new id is recorded at the end of the log, not yet run; a known one changes nothing. */
  lemma ReceiveExact(desk: Desk, w: World, id: string, event: Event)
    ensures var r := Next(desk, w, Receive(id, event));
            && r.ledger == w.ledger
            && ((exists k :: 0 <= k < |w.deliveries| && w.deliveries[k].id == id) ==> r.deliveries == w.deliveries)
            && ((forall k :: 0 <= k < |w.deliveries| ==> w.deliveries[k].id != id) ==>
                  r.deliveries == w.deliveries + [Delivery(id, event, None)])
  {
  }

  /** The background task of a delivery stores what the dispatch answers, and the error if it raises; no other
      delivery is touched. */
  lemma ProcessExact(desk: Desk, w: World, k: nat, a: Attempt)
    requires DistinctDeliveries(w.deliveries) && k < |w.deliveries| && w.deliveries[k].result.None?
    ensures var r, d := Next(desk, w, Process(k, a)), w.deliveries[k];
            && |r.deliveries| == |w.deliveries|
            && (forall j :: 0 <= j < |w.deliveries| && j != k ==> r.deliveries[j] == w.deliveries[j])
            && (a.Crash? ==> r.ledger == w.ledger && r.deliveries[k] == Delivery(d.id, d.event, Some(Errored)))
            && (a.Runs? ==>
                  && r.ledger == desk.dispatch(w.ledger, d.event, a.env).0
                  && r.deliveries[k] == Delivery(d.id, d.event, Some(desk.dispatch(w.ledger, d.event, a.env).1)))
  {
    MarksOnlyItself(w.deliveries, k, if a.Crash? then Errored
                                     else desk.dispatch(w.ledger, w.deliveries[k].event, a.env).1);
  }

  lemma ProcessedOnce(desk: Desk, w: World, k: nat, a: Attempt)
    requires k >= |w.deliveries| || w.deliveries[k].result.Some?
    ensures Next(desk, w, Process(k, a)) == w
  {
  }

  /** A tick drains the queue and then polls every row as the drain left it, once each. */
  lemma TickExact(desk: Desk, w: World, attempts: seq<Attempt>, samples: seq<Poller.Sample>)
    ensures var d, r := Drain(desk, w, attempts), Next(desk, w, Tick(attempts, samples));
            && r.deliveries == d.deliveries && |r.ledger.rows| == |d.ledger.rows|
            && (forall i :: 0 <= i < |d.ledger.rows| ==>
                  r.ledger.rows[i] ==
                  if i < |samples| then Poller.PollRow(desk.cfg.timeout, d.ledger.rows[i], samples[i])
                  else d.ledger.rows[i])
            && r.ledger.log == d.ledger.log + Stopping(desk.cfg, d.ledger.rows, samples, |d.ledger.rows|)
  {
    var l := Drain(desk, w, attempts).ledger;
    PollsEachOnce(desk.cfg, l, samples, |l.rows|);
    PollsStopDue(desk.cfg, l, samples, |l.rows|);
  }

  /** No earlier step has received this id. */
  predicate FirstReceipt(steps: seq<Step>, i: nat) {
    i < |steps| && steps[i].Receive? && forall j :: 0 <= j < i && steps[j].Receive? ==> steps[j].id != steps[i].id
  }

  /** Delivery k is the one step at[k] received. */
  predicate ReceivedAt(steps: seq<Step>, ds: seq<Delivery>, at: seq<nat>, k: nat)
    requires k < |ds| && |at| == |ds|
  {
    FirstReceipt(steps, at[k]) && ds[k].id == steps[at[k]].id && ds[k].event == steps[at[k]].event
  }

  /** These deliveries are the first receipts of their ids, all of them, in order. */
  ghost predicate LogOf(steps: seq<Step>, ds: seq<Delivery>, at: seq<nat>) {
    && |at| == |ds| && (forall a, b :: 0 <= a < b < |at| ==> at[a] < at[b])
    && (forall k :: 0 <= k < |ds| ==> ReceivedAt(steps, ds, at, k))
    && (forall i :: 0 <= i < |steps| && FirstReceipt(steps, i) ==> i in at)
  }

  predicate SameLog(before: seq<Delivery>, after: seq<Delivery>) {
    |after| == |before| && forall k :: 0 <= k < |before| ==>
                             after[k].id == before[k].id && after[k].event == before[k].event
  }

  /** Only a receipt changes what is recorded. */
  lemma NextKeepsLog(desk: Desk, w: World, step: Step)
    requires !step.Receive?
    ensures SameLog(w.deliveries, Next(desk, w, step).deliveries)
  {
  }

  lemma FirstStays(steps: seq<Step>, step: Step, i: nat)
    requires i < |steps|
    ensures FirstReceipt(steps + [step], i) <==> FirstReceipt(steps, i)
  {
    assert forall j :: 0 <= j <= i ==> (steps + [step])[j] == steps[j];
  }

  /** An id is in the log exactly if some step has received it. */
  lemma LoggedMeansReceived(steps: seq<Step>, ds: seq<Delivery>, at: seq<nat>, id: string)
    requires LogOf(steps, ds, at)
    ensures (exists k :: 0 <= k < |ds| && ds[k].id == id) <==>
            exists i :: 0 <= i < |steps| && steps[i].Receive? && steps[i].id == id
  {
    if k :| 0 <= k < |ds| && ds[k].id == id {
      assert ReceivedAt(steps, ds, at, k);
      assert steps[at[k]].Receive? && steps[at[k]].id == id;
    }
    if i :| 0 <= i < |steps| && steps[i].Receive? && steps[i].id == id {
      var f := FirstOf(steps, i);
      var k :| 0 <= k < |at| && at[k] == f;
      assert ReceivedAt(steps, ds, at, k);
    }
  }

  lemma {:induction false} FirstOf(steps: seq<Step>, i: nat) returns (f: nat)
    requires i < |steps| && steps[i].Receive?
    ensures f <= i && FirstReceipt(steps, f) && steps[f].id == steps[i].id
  {
    if FirstReceipt(steps, i) {
      f := i;
    } else {
      var j :| 0 <= j < i && steps[j].Receive? && steps[j].id == steps[i].id;
      f := FirstOf(steps, j);
    }
  }

  lemma LogStays(steps: seq<Step>, step: Step, ds: seq<Delivery>, after: seq<Delivery>, at: seq<nat>)
    requires LogOf(steps, ds, at) && SameLog(ds, after)
    requires step.Receive? ==> exists k :: 0 <= k < |ds| && ds[k].id == step.id
    ensures LogOf(steps + [step], after, at)
  {
    var more := steps + [step];
    forall k | 0 <= k < |after| ensures ReceivedAt(more, after, at, k) {
      assert ReceivedAt(steps, ds, at, k);
      FirstStays(steps, step, at[k]);
    }
    if step.Receive? {
      LoggedMeansReceived(steps, ds, at, step.id);
      var j :| 0 <= j < |steps| && steps[j].Receive? && steps[j].id == step.id;
      assert more[j] == steps[j];
    }
    forall i | 0 <= i < |more| && FirstReceipt(more, i) ensures i in at {
      if i < |steps| {
        FirstStays(steps, step, i);
      }
    }
  }

  lemma LogGrows(steps: seq<Step>, ds: seq<Delivery>, at: seq<nat>, id: string, event: Event)
    requires LogOf(steps, ds, at) && forall k :: 0 <= k < |ds| ==> ds[k].id != id
    ensures LogOf(steps + [Receive(id, event)], ds + [Delivery(id, event, None)], at + [|steps|])
  {
    var step := Receive(id, event);
    var more, after, ats := steps + [step], ds + [Delivery(id, event, None)], at + [|steps|];
    LoggedMeansReceived(steps, ds, at, id);
    forall k | 0 <= k < |after| ensures ReceivedAt(more, after, ats, k) && (k < |at| ==> ats[k] < |steps|) {
      if k < |ds| {
        assert ReceivedAt(steps, ds, at, k);
        FirstStays(steps, step, at[k]);
      } else {
        assert forall j :: 0 <= j < |steps| ==> more[j] == steps[j];
      }
    }
    forall i | 0 <= i < |more| && FirstReceipt(more, i) ensures i in ats {
      if i < |steps| {
        FirstStays(steps, step, i);
        assert i in at;
      } else {
        assert ats[|at|] == i;
      }
    }
  }

  /** Nothing is dropped and nothing recorded twice: over every run the log of deliveries is the sequence of first
      receipts, each with the event that came with it, whatever runs in between. */
  lemma {:induction false} RecordsFirstReceipts(desk: Desk, steps: seq<Step>) returns (at: seq<nat>)
    ensures LogOf(steps, Run(desk, EMPTY, steps).deliveries, at)
  {
    at := [];
    if steps == [] {
    } else {
      var init, last := steps[..|steps| - 1], steps[|steps| - 1];
      at := RecordsFirstReceipts(desk, init);
      var w := Run(desk, EMPTY, init);
      assert steps == init + [last];
      if last.Receive? {
        ReceiveExact(desk, w, last.id, last.event);
      } else {
        NextKeepsLog(desk, w, last);
      }
      if last.Receive? && forall k :: 0 <= k < |w.deliveries| ==> w.deliveries[k].id != last.id {
        LogGrows(init, w.deliveries, at, last.id, last.event);
        at := at + [|init|];
      } else {
        LogStays(init, last, w.deliveries, Run(desk, EMPTY, steps).deliveries, at);
      }
    }
  }

  /** So after a webhook its delivery is there, with the event of the first webhook of that id. */
  lemma ReceivedIsRecorded(desk: Desk, steps: seq<Step>, i: nat) returns (k: nat, f: nat)
    requires i < |steps| && steps[i].Receive?
    ensures f <= i && FirstReceipt(steps, f) && steps[f].id == steps[i].id
    ensures var ds := Run(desk, EMPTY, steps).deliveries;
            k < |ds| && ds[k].id == steps[i].id && ds[k].event == steps[f].event
  {
    var at := RecordsFirstReceipts(desk, steps);
    f := FirstOf(steps, i);
    k :| 0 <= k < |at| && at[k] == f;
    assert ReceivedAt(steps, Run(desk, EMPTY, steps).deliveries, at, k);
  }

  // ---------- draining is exact ----------

  /** No attempt of a drain crashes. */
  ghost predicate Crashless(attempts: seq<Attempt>, n: nat) {
    forall j :: 0 <= j < n ==> AttemptAt(attempts, j).Runs?
  }

  /** With a free slot, one retry settles its delivery and takes at most one slot. */
  lemma RetrySettles(desk: Desk, w: World, k: nat, env: Env)
    requires Polite(desk) && QueueInv(desk, w) && Capacity(desk, w.ledger) > 0
    requires k < |w.deliveries| && w.deliveries[k].Waiting()
    ensures var r := Retry(desk, w, k, Runs(env));
            && desk.load(r.ledger) <= desk.load(w.ledger) + 1
            && |r.deliveries| == |w.deliveries| && r.deliveries[k].Settled()
            && r.deliveries == w.deliveries[k := r.deliveries[k]]
  {
    assert PoliteAt(desk, w.ledger, w.deliveries[k].event, env);
    MarksOnlyItself(w.deliveries, k, desk.dispatch(w.ledger, w.deliveries[k].event, env).1);
  }

  ghost predicate Listing(w: World, listed: seq<nat>) {
    && (forall a :: 0 <= a < |listed| ==> listed[a] < |w.deliveries| && w.deliveries[listed[a]].Waiting())
    && forall a, b :: 0 <= a < b < |listed| ==> listed[a] < listed[b]
  }

  predicate Beyond(listed: seq<nat>, n: nat, k: int)
    requires n <= |listed|
  {
    forall a :: 0 <= a < n ==> listed[a] != k
  }

  /** Retries touch only the deliveries they are for. */
  lemma {:induction false} RetriesTouchOnly(desk: Desk, w: World, listed: seq<nat>, attempts: seq<Attempt>,
                                            n: nat, k: nat)
    requires DistinctDeliveries(w.deliveries) && n <= |listed|
    requires forall a :: 0 <= a < |listed| ==> listed[a] < |w.deliveries|
    requires k < |w.deliveries| && Beyond(listed, n, k)
    ensures RetryFirst(desk, w, listed, attempts, n).deliveries[k] == w.deliveries[k]
  {
    if n == 0 {
    } else {
      assert listed[n - 1] != k;
      RetriesTouchOnly(desk, w, listed, attempts, n - 1, k);
      var v := RetryFirst(desk, w, listed, attempts, n - 1);
      assert v.deliveries[k].id != v.deliveries[listed[n - 1]].id;
    }
  }

  lemma {:induction false} SettledStays(desk: Desk, w: World, listed: seq<nat>, attempts: seq<Attempt>,
                                        m: nat, n: nat)
    requires DistinctDeliveries(w.deliveries) && m < n <= |listed| && Listing(w, listed)
    ensures RetryFirst(desk, w, listed, attempts, n).deliveries[listed[m]] ==
            RetryFirst(desk, w, listed, attempts, m + 1).deliveries[listed[m]]
  {
    if n == m + 1 {
    } else {
      SettledStays(desk, w, listed, attempts, m, n - 1);
      var v := RetryFirst(desk, w, listed, attempts, n - 1);
      assert v.deliveries[listed[m]].id != v.deliveries[listed[n - 1]].id;
    }
  }

  lemma NextIsWaiting(desk: Desk, w: World, listed: seq<nat>, attempts: seq<Attempt>, n: nat)
    requires Polite(desk) && QueueInv(desk, w) && n < |listed| && Listing(w, listed)
    ensures var v := RetryFirst(desk, w, listed, attempts, n);
            QueueInv(desk, v) && v.deliveries[listed[n]].Waiting()
  {
    RetryFirstKeepsQueue(desk, w, listed, attempts, n);
    assert Beyond(listed, n, listed[n]);
    RetriesTouchOnly(desk, w, listed, attempts, n, listed[n]);
  }

  lemma RetryTakesSlot(desk: Desk, v: World, k: nat, a: Attempt, used: int)
    requires Polite(desk) && QueueInv(desk, v) && k < |v.deliveries| && v.deliveries[k].Waiting()
    requires desk.load(v.ledger) <= used < desk.cfg.maxConcurrent
    ensures desk.load(Retry(desk, v, k, a).ledger) <= used + 1
  {
    if a.Runs? {
      RetrySettles(desk, v, k, a.env);
    }
  }

  lemma NextTakesSlot(desk: Desk, w: World, listed: seq<nat>, attempts: seq<Attempt>, n: nat)
    requires Polite(desk) && QueueInv(desk, w) && n < |listed| && n < Capacity(desk, w.ledger)
    requires Listing(w, listed)
    requires desk.load(RetryFirst(desk, w, listed, attempts, n).ledger) <= desk.load(w.ledger) + n
    ensures desk.load(RetryFirst(desk, w, listed, attempts, n + 1).ledger) <= desk.load(w.ledger) + n + 1
  {
    NextIsWaiting(desk, w, listed, attempts, n);
    RetryTakesSlot(desk, RetryFirst(desk, w, listed, attempts, n), listed[n], AttemptAt(attempts, n),
                   desk.load(w.ledger) + n);
  }

  /** Each retry takes at most one slot, as long as there are slots. */
  lemma {:induction false} RetriesTakeSlots(desk: Desk, w: World, listed: seq<nat>, attempts: seq<Attempt>, n: nat)
    requires Polite(desk) && QueueInv(desk, w)
    requires n <= |listed| && n <= Capacity(desk, w.ledger) && Listing(w, listed)
    ensures desk.load(RetryFirst(desk, w, listed, attempts, n).ledger) <= desk.load(w.ledger) + n
  {
    if n == 0 {
    } else {
      RetriesTakeSlots(desk, w, listed, attempts, n - 1);
      NextTakesSlot(desk, w, listed, attempts, n - 1);
    }
  }

  lemma RetrySettlesInTurn(desk: Desk, w: World, listed: seq<nat>, attempts: seq<Attempt>, n: nat)
    requires Polite(desk) && QueueInv(desk, w) && n < |listed| && n < Capacity(desk, w.ledger)
    requires Listing(w, listed) && AttemptAt(attempts, n).Runs?
    ensures RetryFirst(desk, w, listed, attempts, n + 1).deliveries[listed[n]].Settled()
  {
    RetriesTakeSlots(desk, w, listed, attempts, n);
    NextIsWaiting(desk, w, listed, attempts, n);
    RetrySettles(desk, RetryFirst(desk, w, listed, attempts, n), listed[n], AttemptAt(attempts, n).env);
  }

  function Min(a: int, b: int): int { if a <= b then a else b }

  /** What an attempt to dispatch an event makes of the ledger; a crash does nothing. */
  function Serve(desk: Desk, l: Ledger, e: Event, a: Attempt): Ledger {
    match a
    case Crash => l
    case Runs(env) => desk.dispatch(l, e, env).0
  }

  /** The ledger once the first n of these deliveries have had their attempt, each at the ledger the ones before it
      left. */
  function Served(desk: Desk, l: Ledger, ds: seq<Delivery>, queue: seq<nat>, attempts: seq<Attempt>, n: nat): Ledger
    requires n <= |queue| && forall a :: 0 <= a < |queue| ==> queue[a] < |ds|
  {
    if n == 0 then l
    else Serve(desk, Served(desk, l, ds, queue, attempts, n - 1), ds[queue[n - 1]].event,
               if n <= |attempts| then attempts[n - 1] else Crash)
  }

  /** What an attempt at this ledger makes of a delivery: after a crash or a renewed "queued" it is as it was,
      otherwise it holds the answer. */
  predicate Answered(desk: Desk, l: Ledger, d: Delivery, a: Attempt, after: Delivery) {
    match a
    case Crash => after == d
    case Runs(env) =>
      var answer := desk.dispatch(l, d.event, env).1;
      after == if answer.Queued? then d else Delivery(d.id, d.event, Some(answer))
  }

  /** A delivery holds the answer of the dispatch of its own event at this ledger; after a crash it is as it was. */
  predicate Dispatched(desk: Desk, l: Ledger, d: Delivery, a: Attempt, after: Delivery) {
    match a
    case Crash => after == d
    case Runs(env) => after == Delivery(d.id, d.event, Some(desk.dispatch(l, d.event, env).1))
  }

  lemma {:induction false} ServedPrefix(desk: Desk, l: Ledger, ds: seq<Delivery>, queue: seq<nat>,
                                        attempts: seq<Attempt>, m: nat, n: nat)
    requires n <= m <= |queue| && forall a :: 0 <= a < |queue| ==> queue[a] < |ds|
    ensures Served(desk, l, ds, queue[..m], attempts, n) == Served(desk, l, ds, queue, attempts, n)
  {
    if n == 0 {
    } else {
      ServedPrefix(desk, l, ds, queue, attempts, m, n - 1);
    }
  }

  lemma {:induction false} RetriesServe(desk: Desk, w: World, listed: seq<nat>, attempts: seq<Attempt>, n: nat)
    requires n <= |listed| && forall a :: 0 <= a < |listed| ==> listed[a] < |w.deliveries|
    ensures RetryFirst(desk, w, listed, attempts, n).ledger ==
            Served(desk, w.ledger, w.deliveries, listed, attempts, n)
  {
    if n == 0 {
    } else {
      RetriesServe(desk, w, listed, attempts, n - 1);
      assert RetryFirst(desk, w, listed, attempts, n - 1).deliveries[listed[n - 1]].event ==
             w.deliveries[listed[n - 1]].event;
    }
  }

  lemma RetryAnswers(desk: Desk, v: World, k: nat, a: Attempt)
    requires DistinctDeliveries(v.deliveries) && k < |v.deliveries|
    ensures Answered(desk, v.ledger, v.deliveries[k], a, Retry(desk, v, k, a).deliveries[k])
  {
  }

  /** Every listed delivery has the answer of its own dispatch, at the ledger the retries before it left. */
  lemma RetriesAnswer(desk: Desk, w: World, listed: seq<nat>, attempts: seq<Attempt>, n: nat, m: nat)
    requires DistinctDeliveries(w.deliveries) && m < n <= |listed| && Listing(w, listed)
    ensures Answered(desk, Served(desk, w.ledger, w.deliveries, listed, attempts, m), w.deliveries[listed[m]],
                     AttemptAt(attempts, m), RetryFirst(desk, w, listed, attempts, n).deliveries[listed[m]])
  {
    var v := RetryFirst(desk, w, listed, attempts, m);
    assert Beyond(listed, m, listed[m]);
    RetriesTouchOnly(desk, w, listed, attempts, m, listed[m]);
    RetriesServe(desk, w, listed, attempts, m);
    RetryAnswers(desk, v, listed[m], AttemptAt(attempts, m));
    SettledStays(desk, w, listed, attempts, m, n);
  }

  /** A drain without a free slot does nothing. */
  lemma FullMeansNoDrain(desk: Desk, w: World, attempts: seq<Attempt>)
    requires desk.load(w.ledger) >= desk.cfg.maxConcurrent
    ensures Drain(desk, w, attempts) == w
  {
  }

  lemma ListedFirst(desk: Desk, w: World, n: nat)
    requires Capacity(desk, w.ledger) > 0 && n == Min(Capacity(desk, w.ledger), |Waiting(w.deliveries)|)
    ensures var listed := ListQueued(w.deliveries, Capacity(desk, w.ledger));
            listed == Waiting(w.deliveries)[..n] && |listed| == n <= Capacity(desk, w.ledger) && Listing(w, listed)
  {
  }

  lemma DrainAnswers(desk: Desk, w: World, attempts: seq<Attempt>, n: nat, a: nat)
    requires Polite(desk) && QueueInv(desk, w) && Capacity(desk, w.ledger) > 0
    requires a < n == Min(Capacity(desk, w.ledger), |Waiting(w.deliveries)|)
    ensures var queue, r := Waiting(w.deliveries), Drain(desk, w, attempts);
            && |r.deliveries| == |w.deliveries|
            && Dispatched(desk, Served(desk, w.ledger, w.deliveries, queue, attempts, a), w.deliveries[queue[a]],
                          AttemptAt(attempts, a), r.deliveries[queue[a]])
            && (AttemptAt(attempts, a).Runs? ==> r.deliveries[queue[a]].Settled())
  {
    var listed := ListQueued(w.deliveries, Capacity(desk, w.ledger));
    ListedFirst(desk, w, n);
    RetriesAnswer(desk, w, listed, attempts, n, a);
    ServedPrefix(desk, w.ledger, w.deliveries, Waiting(w.deliveries), attempts, n, a);
    if AttemptAt(attempts, a).Runs? {
      RetrySettlesInTurn(desk, w, listed, attempts, a);
      SettledStays(desk, w, listed, attempts, a, n);
    }
  }

  lemma DrainLeaves(desk: Desk, w: World, attempts: seq<Attempt>, n: nat, k: nat)
    requires QueueInv(desk, w) && Capacity(desk, w.ledger) > 0
    requires n == Min(Capacity(desk, w.ledger), |Waiting(w.deliveries)|)
    requires k < |w.deliveries| && Beyond(Waiting(w.deliveries), n, k)
    ensures |Drain(desk, w, attempts).deliveries| == |w.deliveries|
    ensures Drain(desk, w, attempts).deliveries[k] == w.deliveries[k]
  {
    var listed := ListQueued(w.deliveries, Capacity(desk, w.ledger));
    ListedFirst(desk, w, n);
    assert Beyond(listed, n, k);
    RetriesTouchOnly(desk, w, listed, attempts, n, k);
  }

  lemma DrainServes(desk: Desk, w: World, attempts: seq<Attempt>, n: nat)
    requires Polite(desk) && QueueInv(desk, w) && Capacity(desk, w.ledger) > 0
    requires n == Min(Capacity(desk, w.ledger), |Waiting(w.deliveries)|)
    ensures var r := Drain(desk, w, attempts);
            && |r.deliveries| == |w.deliveries|
            && r.ledger == Served(desk, w.ledger, w.deliveries, Waiting(w.deliveries), attempts, n)
            && desk.load(r.ledger) <= desk.cfg.maxConcurrent
  {
    var listed := ListQueued(w.deliveries, Capacity(desk, w.ledger));
    ListedFirst(desk, w, n);
    RetriesTakeSlots(desk, w, listed, attempts, n);
    RetriesServe(desk, w, listed, attempts, n);
    ServedPrefix(desk, w.ledger, w.deliveries, Waiting(w.deliveries), attempts, n, n);
  }

  /** Each of the first n deliveries of the queue whose attempt does not crash is settled, with the answer its
      dispatch gives at the ledger the ones before it left. */
  ghost predicate FrontServed(desk: Desk, w: World, queue: seq<nat>, attempts: seq<Attempt>, n: nat, r: World)
    requires n <= |queue| && |r.deliveries| == |w.deliveries|
    requires forall a :: 0 <= a < |queue| ==> queue[a] < |w.deliveries|
  {
    forall a :: 0 <= a < n ==>
      var attempt := if a < |attempts| then attempts[a] else Crash;
      && Dispatched(desk, Served(desk, w.ledger, w.deliveries, queue, attempts, a), w.deliveries[queue[a]],
                    attempt, r.deliveries[queue[a]])
      && (attempt.Runs? ==> r.deliveries[queue[a]].Settled())
  }

  ghost predicate RestKept(w: World, queue: seq<nat>, n: nat, r: World)
    requires n <= |queue| && |r.deliveries| == |w.deliveries|
  {
    forall k :: 0 <= k < |w.deliveries| && Beyond(queue, n, k) ==> r.deliveries[k] == w.deliveries[k]
  }

  lemma DrainServesFront(desk: Desk, w: World, attempts: seq<Attempt>, n: nat)
    requires Polite(desk) && QueueInv(desk, w) && Capacity(desk, w.ledger) > 0
    requires n == Min(Capacity(desk, w.ledger), |Waiting(w.deliveries)|)
    ensures var queue, r := Waiting(w.deliveries), Drain(desk, w, attempts);
            |r.deliveries| == |w.deliveries| && FrontServed(desk, w, queue, attempts, n, r) && RestKept(w, queue, n, r)
  {
    var queue, r := Waiting(w.deliveries), Drain(desk, w, attempts);
    DrainServes(desk, w, attempts, n);
    forall a | 0 <= a < n
      ensures Dispatched(desk, Served(desk, w.ledger, w.deliveries, queue, attempts, a), w.deliveries[queue[a]],
                         AttemptAt(attempts, a), r.deliveries[queue[a]])
      ensures AttemptAt(attempts, a).Runs? ==> r.deliveries[queue[a]].Settled() {
      DrainAnswers(desk, w, attempts, n, a);
    }
    forall k | 0 <= k < |w.deliveries| && Beyond(queue, n, k) ensures r.deliveries[k] == w.deliveries[k] {
      DrainLeaves(desk, w, attempts, n, k);
    }
  }

  /** A drain takes exactly the oldest min(free slots, queue length) deliveries, in order, and serves them; every
      other delivery is as it was, the ledger is that of those dispatches, and the cap holds. */
  ghost predicate Drained(desk: Desk, w: World, attempts: seq<Attempt>, r: World)
    requires desk.load(w.ledger) < desk.cfg.maxConcurrent
  {
    var queue := Waiting(w.deliveries);
    var n := Min(desk.cfg.maxConcurrent - desk.load(w.ledger), |queue|);
    && |r.deliveries| == |w.deliveries|
    && FrontServed(desk, w, queue, attempts, n, r) && RestKept(w, queue, n, r)
    && r.ledger == Served(desk, w.ledger, w.deliveries, queue, attempts, n)
    && desk.load(r.ledger) <= desk.cfg.maxConcurrent
  }

  lemma DrainExact(desk: Desk, w: World, attempts: seq<Attempt>)
    requires Polite(desk) && QueueInv(desk, w) && desk.load(w.ledger) < desk.cfg.maxConcurrent
    ensures Drained(desk, w, attempts, Drain(desk, w, attempts))
  {
    var n := Min(desk.cfg.maxConcurrent - desk.load(w.ledger), |Waiting(w.deliveries)|);
    DrainServes(desk, w, attempts, n);
    DrainServesFront(desk, w, attempts, n);
  }

  lemma FrontSettles(desk: Desk, w: World, queue: seq<nat>, attempts: seq<Attempt>, n: nat, r: World)
    requires n <= |queue| && |r.deliveries| == |w.deliveries| && Crashless(attempts, n)
    requires forall a :: 0 <= a < |queue| ==> queue[a] < |w.deliveries|
    requires FrontServed(desk, w, queue, attempts, n, r)
    ensures forall a :: 0 <= a < n ==> r.deliveries[queue[a]].Settled()
  {
    forall a | 0 <= a < n ensures r.deliveries[queue[a]].Settled() {
      assert AttemptAt(attempts, a).Runs?;
    }
  }

  /** So without a crash the queue that is left is the old queue without its front. */
  lemma DrainTakesTheFront(desk: Desk, w: World, attempts: seq<Attempt>)
    requires Polite(desk) && QueueInv(desk, w) && Capacity(desk, w.ledger) > 0
    requires Crashless(attempts, Min(Capacity(desk, w.ledger), |Waiting(w.deliveries)|))
    ensures Waiting(Drain(desk, w, attempts).deliveries) ==
            Waiting(w.deliveries)[Min(Capacity(desk, w.ledger), |Waiting(w.deliveries)|)..]
  {
    var n, r := Min(Capacity(desk, w.ledger), |Waiting(w.deliveries)|), Drain(desk, w, attempts);
    DrainServesFront(desk, w, attempts, n);
    FrontSettles(desk, w, Waiting(w.deliveries), attempts, n, r);
    QueueWithoutFront(w.deliveries, r.deliveries, n);
  }

  lemma StillWaits(before: seq<Delivery>, after: seq<Delivery>, n: nat, k: nat)
    requires n <= |Waiting(before)| && |after| == |before|
    requires forall a :: 0 <= a < n ==> after[Waiting(before)[a]].Settled()
    requires k < |before| && Beyond(Waiting(before), n, k) ==> after[k] == before[k]
    ensures k in Waiting(after) <==> k in Waiting(before)[n..]
  {
    SplitSorted(Waiting(before), n, k);
    if !Beyond(Waiting(before), n, k) {
      var a :| 0 <= a < n && Waiting(before)[a] == k;
      assert after[Waiting(before)[a]].Settled();
    }
  }

  lemma QueueWithoutFront(before: seq<Delivery>, after: seq<Delivery>, n: nat)
    requires n <= |Waiting(before)| && |after| == |before|
    requires forall a :: 0 <= a < n ==> after[Waiting(before)[a]].Settled()
    requires forall k :: 0 <= k < |before| && Beyond(Waiting(before), n, k) ==> after[k] == before[k]
    ensures Waiting(after) == Waiting(before)[n..]
  {
    var queue, rest := Waiting(before), Waiting(after);
    forall k: nat ensures k in rest <==> k in queue[n..] {
      StillWaits(before, after, n, k);
    }
    SortedSame(rest, queue[n..]);
  }

  lemma SplitSorted(s: seq<nat>, n: nat, k: int)
    requires n <= |s| && forall i, j :: 0 <= i < j < |s| ==> s[i] < s[j]
    ensures k in s[n..] <==> k in s && Beyond(s, n, k)
  {
    assert s == s[..n] + s[n..];
    assert forall i, j :: 0 <= i < n && 0 <= j < |s[n..]| ==> s[i] < s[n..][j];
    if k in s && Beyond(s, n, k) {
      var b :| 0 <= b < |s| && s[b] == k;
      assert s[n..][b - n] == k;
    }
  }

  lemma BelowLast(s: seq<nat>, k: nat)
    requires s != [] && forall i, j :: 0 <= i < j < |s| ==> s[i] < s[j]
    ensures k in s[..|s| - 1] <==> k in s && k < s[|s| - 1]
  {
    assert s == s[..|s| - 1] + [s[|s| - 1]];
  }

  lemma {:induction false} SortedSame(a: seq<nat>, b: seq<nat>)
    requires forall i, j :: 0 <= i < j < |a| ==> a[i] < a[j]
    requires forall i, j :: 0 <= i < j < |b| ==> b[i] < b[j]
    requires forall k :: k in a <==> k in b
    ensures a == b
  {
    assert a != [] ==> a[0] in b;
    assert b != [] ==> b[0] in a;
    if a == [] {
    } else {
      var m, n := |a| - 1, |b| - 1;
      assert a[m] in b && b[n] in a;
      assert a[m] == b[n];
      forall k ensures k in a[..m] <==> k in b[..n] {
        BelowLast(a, k);
        BelowLast(b, k);
      }
      SortedSame(a[..m], b[..n]);
      assert a == a[..m] + [a[m]] && b == b[..n] + [b[n]];
    }
  }

  // ---------- nothing is lost, nothing starves ----------

  /** Deliveries received no later than e that still have to be settled. */
  function Ahead(ds: seq<Delivery>, e: nat): set<nat> {
    set k: nat | k <= e && k < |ds| && !ds[k].Settled()
  }

  /** A retry of a waiting delivery leaves it waiting or settles it. */
  lemma {:induction false} RetriesMoveForward(desk: Desk, w: World, listed: seq<nat>, attempts: seq<Attempt>,
                                              n: nat, k: nat)
    requires DistinctDeliveries(w.deliveries) && n <= |listed| && k < |w.deliveries| && Listing(w, listed)
    ensures var d := RetryFirst(desk, w, listed, attempts, n).deliveries[k];
            d == w.deliveries[k] || (w.deliveries[k].Waiting() && d.Settled())
  {
    if n == 0 {
    } else {
      RetriesMoveForward(desk, w, listed, attempts, n - 1, k);
      var v := RetryFirst(desk, w, listed, attempts, n - 1);
      assert k != listed[n - 1] ==> v.deliveries[k].id != v.deliveries[listed[n - 1]].id;
    }
  }

  /** A delivery only moves forward: not yet run, then waiting or settled, and settled for good. */
  ghost predicate Forward(before: seq<Delivery>, after: seq<Delivery>) {
    && |before| <= |after|
    && forall k :: 0 <= k < |before| ==>
         && after[k].id == before[k].id && after[k].event == before[k].event
         && (after[k] == before[k] || before[k].result.None? || (before[k].Waiting() && after[k].Settled()))
  }

  lemma StepMovesForward(desk: Desk, w: World, step: Step)
    requires Polite(desk) && QueueInv(desk, w)
    ensures Forward(w.deliveries, Next(desk, w, step).deliveries)
  {
    match step {
      case Receive(id, event) =>
      case Process(k, a) =>
        if k < |w.deliveries| && w.deliveries[k].result.None? {
          MarksOnlyItself(w.deliveries, k,
            if a.Crash? then Errored else desk.dispatch(w.ledger, w.deliveries[k].event, a.env).1);
        }
      case Tick(attempts, samples) =>
        if Capacity(desk, w.ledger) > 0 {
          var listed := ListQueued(w.deliveries, Capacity(desk, w.ledger));
          forall k | 0 <= k < |w.deliveries|
            ensures var d := Drain(desk, w, attempts).deliveries[k];
                    d == w.deliveries[k] || (w.deliveries[k].Waiting() && d.Settled()) {
            RetriesMoveForward(desk, w, listed, attempts, |listed|, k);
          }
        }
    }
  }

  lemma ForwardTransitive(a: seq<Delivery>, b: seq<Delivery>, c: seq<Delivery>)
    requires Forward(a, b) && Forward(b, c)
    ensures Forward(a, c)
  {
    forall k | 0 <= k < |a|
      ensures c[k].id == a[k].id && c[k].event == a[k].event
      ensures c[k] == a[k] || a[k].result.None? || (a[k].Waiting() && c[k].Settled()) {
      assert b[k].id == a[k].id && c[k].id == b[k].id;
    }
  }

  /** Nothing is lost: over any run a recorded delivery stays recorded and only moves forward, and once
      settled it is never touched again. */
  lemma {:induction false} NothingLost(desk: Desk, w: World, steps: seq<Step>)
    requires Polite(desk) && QueueInv(desk, w)
    ensures QueueInv(desk, Run(desk, w, steps)) && Forward(w.deliveries, Run(desk, w, steps).deliveries)
  {
    if steps == [] {
    } else {
      var init, last := steps[..|steps| - 1], steps[|steps| - 1];
      NothingLost(desk, w, init);
      StepKeepsQueue(desk, Run(desk, w, init), last);
      StepMovesForward(desk, Run(desk, w, init), last);
      ForwardTransitive(w.deliveries, Run(desk, w, init).deliveries, Run(desk, w, steps).deliveries);
    }
  }

  /** A tick that finds a free slot and whose first retry does not crash. */
  predicate Productive(desk: Desk, w: World, step: Step) {
    && step.Tick? && desk.load(w.ledger) < desk.cfg.maxConcurrent
    && (Waiting(w.deliveries) != [] ==> AttemptAt(step.attempts, 0).Runs?)
  }

  lemma FirstSettles(desk: Desk, w: World, attempts: seq<Attempt>)
    requires Polite(desk) && QueueInv(desk, w) && Capacity(desk, w.ledger) > 0
    requires Waiting(w.deliveries) != [] && AttemptAt(attempts, 0).Runs?
    ensures var r, first := Drain(desk, w, attempts), Waiting(w.deliveries)[0];
            first < |r.deliveries| && r.deliveries[first].Settled()
  {
    DrainAnswers(desk, w, attempts, Min(Capacity(desk, w.ledger), |Waiting(w.deliveries)|), 0);
  }

  lemma FirstIsAhead(ds: seq<Delivery>, e: nat)
    requires e < |ds| && ds[e].Waiting()
    ensures Waiting(ds) != [] && Waiting(ds)[0] <= e && Waiting(ds)[0] in Ahead(ds, e)
  {
    var a :| 0 <= a < |Waiting(ds)| && Waiting(ds)[a] == e;
  }

  lemma AheadShrinks(desk: Desk, w: World, step: Step, e: nat)
    requires Polite(desk) && QueueInv(desk, w) && e < |w.deliveries|
    ensures Ahead(Next(desk, w, step).deliveries, e) <= Ahead(w.deliveries, e)
    ensures w.deliveries[e].Waiting() && Productive(desk, w, step) ==>
              Ahead(Next(desk, w, step).deliveries, e) < Ahead(w.deliveries, e)
  {
    StepMovesForward(desk, w, step);
    if w.deliveries[e].Waiting() && Productive(desk, w, step) {
      FirstIsAhead(w.deliveries, e);
      FirstSettles(desk, w, step.attempts);
      assert Waiting(w.deliveries)[0] !in Ahead(Next(desk, w, step).deliveries, e);
    }
  }

  function ProductiveTicks(desk: Desk, w: World, steps: seq<Step>): nat {
    if steps == [] then 0
    else
      var init := steps[..|steps| - 1];
      ProductiveTicks(desk, w, init) + if Productive(desk, Run(desk, w, init), steps[|steps| - 1]) then 1 else 0
  }

  lemma {:induction false} WaitingPaysForTicks(desk: Desk, w: World, steps: seq<Step>, e: nat)
    requires Polite(desk) && QueueInv(desk, w) && e < |w.deliveries| && w.deliveries[e].Waiting()
    ensures var r := Run(desk, w, steps);
            && QueueInv(desk, r) && Forward(w.deliveries, r.deliveries)
            && (r.deliveries[e].Settled() || r.deliveries[e] == w.deliveries[e])
            && (!r.deliveries[e].Settled() ==>
                  ProductiveTicks(desk, w, steps) + |Ahead(r.deliveries, e)| <= |Ahead(w.deliveries, e)|)
  {
    if steps == [] {
    } else {
      var init, last := steps[..|steps| - 1], steps[|steps| - 1];
      WaitingPaysForTicks(desk, w, init, e);
      var v := Run(desk, w, init);
      StepKeepsQueue(desk, v, last);
      StepMovesForward(desk, v, last);
      AheadShrinks(desk, v, last, e);
      SubsetBound(Ahead(Next(desk, v, last).deliveries, e), Ahead(v.deliveries, e));
      if Ahead(Next(desk, v, last).deliveries, e) < Ahead(v.deliveries, e) {
        var gone :| gone in Ahead(v.deliveries, e) && gone !in Ahead(Next(desk, v, last).deliveries, e);
        SubsetBound(Ahead(Next(desk, v, last).deliveries, e), Ahead(v.deliveries, e) - {gone});
      }
    }
  }

  /** No starvation: whatever else happens, the delivery at position e of the log cannot still be
      waiting after e + 1 productive ticks. */
  lemma NoStarvation(desk: Desk, w: World, steps: seq<Step>, e: nat)
    requires Polite(desk) && QueueInv(desk, w) && e < |w.deliveries| && w.deliveries[e].Waiting()
    requires ProductiveTicks(desk, w, steps) > e
    ensures e < |Run(desk, w, steps).deliveries| && Run(desk, w, steps).deliveries[e].Settled()
  {
    WaitingPaysForTicks(desk, w, steps, e);
    var r := Run(desk, w, steps);
    IndexSetBound(Ahead(w.deliveries, e), e + 1);
    assert r.deliveries[e].Settled() || e in Ahead(r.deliveries, e);
  }
}
