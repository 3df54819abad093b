/**
 Whatever the service does, it does as a sequence of handler calls and polls: every run of webhooks,
 deliveries and ticks leaves the ledger of a serial run, so what is proved of serial runs holds of it.
 */
module Refinement {
  import opened Base
  import opened Handlers
  import opened Dispatcher
  import opened Queue
  import opened Service
  import Serial
  import FixTree
  import Bookkeeping
  import Racing
  import opened Devin
  import Poller

  /** The handler call behind one dispatch. */
  function HandlerSteps(e: Event, env: Env): seq<Serial.Step> {
    match RouteOf(e)
    case Answer(_) => []
    case ToSecurity(issue) => [Serial.Security(issue, env)]
    case ToCi(run) => [Serial.CiRun(run, env)]
  }

  function Attempted(e: Event, a: Attempt): seq<Serial.Step> {
    if a.Crash? then [] else HandlerSteps(e, a.env)
  }

  function Retried(ds: seq<Delivery>, listed: seq<nat>, attempts: seq<Attempt>, n: nat): seq<Serial.Step>
    requires n <= |listed| && forall a :: 0 <= a < |listed| ==> listed[a] < |ds|
  {
    if n == 0 then []
    else Retried(ds, listed, attempts, n - 1) + Attempted(ds[listed[n - 1]].event, AttemptAt(attempts, n - 1))
  }

  function Polled(samples: seq<Poller.Sample>, n: nat): seq<Serial.Step> {
    if n == 0 then [] else Polled(samples, n - 1) + [Serial.PollOne(n - 1, SampleAt(samples, n - 1))]
  }

  function Drained(cfg: Config, w: World, attempts: seq<Attempt>): seq<Serial.Step> {
    if Capacity(Front(cfg), w.ledger) <= 0 then []
    else
      var listed := ListQueued(w.deliveries, Capacity(Front(cfg), w.ledger));
      Retried(w.deliveries, listed, attempts, |listed|)
  }

  /** The handler calls and polls of one step of the service. */
  function Small(cfg: Config, w: World, step: Step): seq<Serial.Step> {
    match step
    case Receive(_, _) => []
    case Process(k, a) =>
      if k < |w.deliveries| && w.deliveries[k].result.None? then Attempted(w.deliveries[k].event, a) else []
    case Tick(attempts, samples) =>
      Drained(cfg, w, attempts) + Polled(samples, |Drain(Front(cfg), w, attempts).ledger.rows|)
  }

  function SmallRun(cfg: Config, w: World, steps: seq<Step>): seq<Serial.Step> {
    if steps == [] then []
    else
      var init := steps[..|steps| - 1];
      SmallRun(cfg, w, init) + Small(cfg, Run(Front(cfg), w, init), steps[|steps| - 1])
  }

  function Stepper(cfg: Config): (Ledger, Serial.Step) -> Ledger {
    (l, s) => Serial.Next(cfg, l, s)
  }

  lemma {:induction false} RunIsFold(cfg: Config, l: Ledger, steps: seq<Serial.Step>)
    ensures Serial.Run(cfg, l, steps) == Fold(Stepper(cfg), l, steps)
  {
    if steps == [] {
    } else {
      RunIsFold(cfg, l, steps[..|steps| - 1]);
    }
  }

  lemma RunConcat(cfg: Config, l: Ledger, a: seq<Serial.Step>, b: seq<Serial.Step>)
    ensures Serial.Run(cfg, l, a + b) == Serial.Run(cfg, Serial.Run(cfg, l, a), b)
  {
    FoldConcat(Stepper(cfg), l, a, b);
    RunIsFold(cfg, l, a + b);
    RunIsFold(cfg, l, a);
    RunIsFold(cfg, Serial.Run(cfg, l, a), b);
  }

  lemma OneStep(cfg: Config, l: Ledger, s: Serial.Step)
    ensures Serial.Run(cfg, l, [s]) == Serial.Next(cfg, l, s)
  {
    assert [s][..0] == [];
  }

  lemma DispatchIsSmall(cfg: Config, l: Ledger, e: Event, env: Env)
    ensures Serial.Run(cfg, l, HandlerSteps(e, env)) == Dispatch(cfg, l, e, env).0
  {
    match RouteOf(e) {
      case Answer(_) =>
      case ToSecurity(issue) => OneStep(cfg, l, Serial.Security(issue, env));
      case ToCi(run) => OneStep(cfg, l, Serial.CiRun(run, env));
    }
  }

  lemma AttemptIsSmall(cfg: Config, w: World, k: nat, a: Attempt)
    requires k < |w.deliveries|
    ensures Retry(Front(cfg), w, k, a).ledger == Serial.Run(cfg, w.ledger, Attempted(w.deliveries[k].event, a))
  {
    if a.Runs? {
      DispatchIsSmall(cfg, w.ledger, w.deliveries[k].event, a.env);
    }
  }

  lemma {:induction false} RetriesAreSmall(cfg: Config, w: World, listed: seq<nat>, attempts: seq<Attempt>, n: nat)
    requires n <= |listed| && forall a :: 0 <= a < |listed| ==> listed[a] < |w.deliveries|
    ensures RetryFirst(Front(cfg), w, listed, attempts, n).ledger ==
            Serial.Run(cfg, w.ledger, Retried(w.deliveries, listed, attempts, n))
  {
    if n == 0 {
    } else {
      RetriesAreSmall(cfg, w, listed, attempts, n - 1);
      var v := RetryFirst(Front(cfg), w, listed, attempts, n - 1);
      var d, a := listed[n - 1], AttemptAt(attempts, n - 1);
      assert v.deliveries[d].event == w.deliveries[d].event;
      AttemptIsSmall(cfg, v, d, a);
      RunConcat(cfg, w.ledger, Retried(w.deliveries, listed, attempts, n - 1), Attempted(w.deliveries[d].event, a));
    }
  }

  lemma AttemptServes(cfg: Config, l: Ledger, e: Event, a: Attempt)
    ensures Serial.Run(cfg, l, Attempted(e, a)) == Serve(Front(cfg), l, e, a)
  {
    if a.Runs? {
      DispatchIsSmall(cfg, l, e, a.env);
    }
  }

  /** The ledger that a drain's retries work on is that of the serial run of their handler calls. */
  lemma {:induction false} ServedIsSerial(cfg: Config, l: Ledger, ds: seq<Delivery>, queue: seq<nat>,
                                          attempts: seq<Attempt>, n: nat)
    requires n <= |queue| && forall a :: 0 <= a < |queue| ==> queue[a] < |ds|
    ensures Served(Front(cfg), l, ds, queue, attempts, n) == Serial.Run(cfg, l, Retried(ds, queue, attempts, n))
  {
    if n == 0 {
    } else {
      ServedIsSerial(cfg, l, ds, queue, attempts, n - 1);
      var before := Served(Front(cfg), l, ds, queue, attempts, n - 1);
      var e, a := ds[queue[n - 1]].event, AttemptAt(attempts, n - 1);
      AttemptServes(cfg, before, e, a);
      RunConcat(cfg, l, Retried(ds, queue, attempts, n - 1), Attempted(e, a));
    }
  }

  lemma OneMore(cfg: Config, l: Ledger, init: seq<Serial.Step>, s: Serial.Step)
    ensures Serial.Run(cfg, l, init + [s]) == Serial.Next(cfg, Serial.Run(cfg, l, init), s)
  {
    assert (init + [s])[..|init|] == init;
  }

  lemma {:induction false} PollsAreSmall(cfg: Config, l: Ledger, samples: seq<Poller.Sample>, n: nat)
    requires n <= |l.rows|
    ensures PollFirst(cfg, l, samples, n) == Serial.Run(cfg, l, Polled(samples, n))
  {
    if n == 0 {
    } else {
      PollsAreSmall(cfg, l, samples, n - 1);
      OneMore(cfg, l, Polled(samples, n - 1), Serial.PollOne(n - 1, SampleAt(samples, n - 1)));
    }
  }

  lemma StepIsSmall(cfg: Config, w: World, step: Step)
    ensures Next(Front(cfg), w, step).ledger == Serial.Run(cfg, w.ledger, Small(cfg, w, step))
  {
    match step {
      case Receive(_, _) =>
      case Process(k, a) =>
        if k < |w.deliveries| && w.deliveries[k].result.None? && a.Runs? {
          DispatchIsSmall(cfg, w.ledger, w.deliveries[k].event, a.env);
        }
      case Tick(attempts, samples) =>
        var d := Drain(Front(cfg), w, attempts);
        if Capacity(Front(cfg), w.ledger) > 0 {
          var listed := ListQueued(w.deliveries, Capacity(Front(cfg), w.ledger));
          RetriesAreSmall(cfg, w, listed, attempts, |listed|);
        }
        PollsAreSmall(cfg, d.ledger, samples, |d.ledger.rows|);
        RunConcat(cfg, w.ledger, Drained(cfg, w, attempts), Polled(samples, |d.ledger.rows|));
    }
  }

  /** Every run of the service leaves the ledger of the serial run made of its handler calls and polls. */
  lemma {:induction false} ServiceIsSerial(cfg: Config, w: World, steps: seq<Step>)
    ensures Run(Front(cfg), w, steps).ledger == Serial.Run(cfg, w.ledger, SmallRun(cfg, w, steps))
  {
    if steps == [] {
    } else {
      var init, last := steps[..|steps| - 1], steps[|steps| - 1];
      ServiceIsSerial(cfg, w, init);
      StepIsSmall(cfg, Run(Front(cfg), w, init), last);
      RunConcat(cfg, w.ledger, SmallRun(cfg, w, init), Small(cfg, Run(Front(cfg), w, init), last));
    }
  }

  /** So whatever mix of webhooks and ticks came in, while Devin hands out fresh ids: fix attempts stay within
      their trees and the trees within their bounds, terminal rows and comments are accounted for, and sessions
      never escalated keep within the cap. */
  lemma ServiceKeepsAll(cfg: Config, steps: seq<Step>, r: nat)
    requires Serial.LegalRun(cfg, Serial.NOTHING, SmallRun(cfg, EMPTY, steps))
    ensures var l := Run(Front(cfg), EMPTY, steps).ledger;
            && FixTree.Tree(cfg.maxFix, l.rows)
            && |FixTree.FixRows(cfg.maxFix, l.rows, r)| <= FixTree.Pow2(Cap(cfg.maxFix)) - 1
            && Bookkeeping.Booked(l)
            && Bookkeeping.Comments(l.log, r) == Bookkeeping.Revivals(cfg, SmallRun(cfg, EMPTY, steps), r)
            && Bookkeeping.Unescalated(l, |l.rows|) <= Cap(cfg.maxConcurrent)
  {
    var small := SmallRun(cfg, EMPTY, steps);
    ServiceIsSerial(cfg, EMPTY, steps);
    FixTree.TreeInvariant(cfg, small);
    FixTree.TreeBound(cfg.maxFix, Serial.Run(cfg, Serial.NOTHING, small).rows, r);
    Bookkeeping.BookedInvariant(cfg, small);
    Bookkeeping.CommentsMatchRevivals(cfg, small, r);
    Bookkeeping.UnescalatedWithinCap(cfg, small);
  }

  /** And while the sessions of a tree report one pull request, no two on one chain are alive. */
  lemma ServiceNeverRaces(cfg: Config, steps: seq<Step>)
    requires Serial.LegalRun(cfg, Serial.NOTHING, SmallRun(cfg, EMPTY, steps))
    requires Racing.SamePrThroughout(cfg, SmallRun(cfg, EMPTY, steps))
    ensures var rows := Run(Front(cfg), EMPTY, steps).ledger.rows;
            FixTree.Tree(cfg.maxFix, rows) &&
            forall a: nat, d: nat :: d < |rows| && Racing.Above(cfg.maxFix, rows, a, d) ==>
              a < d && !(Active(rows[a].status) && Active(rows[d].status))
  {
    ServiceIsSerial(cfg, EMPTY, steps);
    Racing.NeverRacing(cfg, SmallRun(cfg, EMPTY, steps));
  }
}
