/**
 A run of the whole service in which an issue has to wait and is served later.
 */
module QueueRuns {
  import opened Base
  import opened Devin
  import opened Sessions
  import opened Handlers
  import opened Dispatcher
  import opened Queue
  import opened Service
  import opened Refinement
  import opened Scenarios
  import Decisions
  import Serial
  import Poller
  import opened WorkKeys

  // ---------- runs and the handler calls in them ----------

  /** A run of the service that is legal, where it leads, and its handler calls and polls. */
  ghost predicate Reached(cfg: Config, steps: seq<Step>, w: World, small: seq<Serial.Step>) {
    && Run(Front(cfg), EMPTY, steps) == w && SmallRun(cfg, EMPTY, steps) == small
    && Serial.LegalRun(cfg, Serial.NOTHING, small) && w.ledger == Serial.Run(cfg, Serial.NOTHING, small)
  }

  lemma RunPlus(cfg: Config, steps: seq<Step>, step: Step)
    ensures Run(Front(cfg), EMPTY, steps + [step]) == Next(Front(cfg), Run(Front(cfg), EMPTY, steps), step)
    ensures SmallRun(cfg, EMPTY, steps + [step]) ==
            SmallRun(cfg, EMPTY, steps) + Small(cfg, Run(Front(cfg), EMPTY, steps), step)
  {
    assert (steps + [step])[..|steps|] == steps;
  }

  predicate PollsOnly(polls: seq<Serial.Step>) {
    forall k :: 0 <= k < |polls| ==> polls[k].PollOne?
  }

  lemma {:induction false} PollsAreLegal(cfg: Config, small: seq<Serial.Step>, polls: seq<Serial.Step>)
    requires Serial.LegalRun(cfg, Serial.NOTHING, small) && PollsOnly(polls)
    ensures Serial.LegalRun(cfg, Serial.NOTHING, small + polls)
  {
    if polls == [] {
      assert small + polls == small;
    } else {
      var init, last := polls[..|polls| - 1], polls[|polls| - 1];
      PollsAreLegal(cfg, small, init);
      LegalNext(cfg, small + init, last);
      assert small + polls == (small + init) + [last];
    }
  }

  lemma Advances(cfg: Config, steps: seq<Step>, w: World, small: seq<Serial.Step>, step: Step, more: seq<Serial.Step>)
    requires Reached(cfg, steps, w, small) && Small(cfg, w, step) == more
    requires Serial.LegalRun(cfg, Serial.NOTHING, small + more)
    ensures Reached(cfg, steps + [step], Next(Front(cfg), w, step), small + more)
  {
    RunPlus(cfg, steps, step);
    ServiceIsSerial(cfg, EMPTY, steps + [step]);
  }

  lemma Regroup<T>(a: seq<T>, x: T, b: seq<T>)
    ensures a + ([x] + b) == (a + [x]) + b
  {
  }

  lemma CallIsLegal(cfg: Config, l: Ledger, small: seq<Serial.Step>, s: Serial.Step, polls: seq<Serial.Step>)
    requires Serial.LegalRun(cfg, Serial.NOTHING, small) && Serial.Run(cfg, Serial.NOTHING, small) == l
    requires Serial.Legal(l.rows, s) && PollsOnly(polls)
    ensures Serial.LegalRun(cfg, Serial.NOTHING, small + ([s] + polls))
  {
    LegalNext(cfg, small, s);
    PollsAreLegal(cfg, small + [s], polls);
    Regroup(small, s, polls);
  }

  lemma Calls(cfg: Config, steps: seq<Step>, w: World, small: seq<Serial.Step>, step: Step, s: Serial.Step,
              polls: seq<Serial.Step>)
    requires Reached(cfg, steps, w, small) && Small(cfg, w, step) == [s] + polls && PollsOnly(polls)
    requires Serial.Legal(w.ledger.rows, s)
    ensures Reached(cfg, steps + [step], Next(Front(cfg), w, step), small + ([s] + polls))
  {
    CallIsLegal(cfg, w.ledger, small, s, polls);
    Advances(cfg, steps, w, small, step, [s] + polls);
  }

  lemma OnlyPolls(cfg: Config, steps: seq<Step>, w: World, small: seq<Serial.Step>, step: Step, polls: seq<Serial.Step>)
    requires Reached(cfg, steps, w, small) && Small(cfg, w, step) == polls && PollsOnly(polls)
    ensures Reached(cfg, steps + [step], Next(Front(cfg), w, step), small + polls)
  {
    PollsAreLegal(cfg, small, polls);
    Advances(cfg, steps, w, small, step, polls);
  }

  // ---------- the run ----------

  /** Issue number i is opened with both labels. */
  function Opened(i: nat, body: string): Event {
    Issues("opened", {"devin-remediate", "devin-security"}, IssueNo(i, body))
  }

  function Call(i: nat): Attempt { Runs(EnvOf(i, "")) }

  lemma OpenedBegins(cfg: Config, l: Ledger, i: nat, body: string)
    ensures HandlerSteps(Opened(i, body), EnvOf(i, "")) == [Begin(i, body)]
    ensures Dispatch(cfg, l, Opened(i, body), EnvOf(i, "")) == HandleSecurity(cfg, l, IssueNo(i, body), EnvOf(i, ""))
  {
    RoutedExactly(Opened(i, body));
  }

  /** With a free slot the issue is answered with its session. */
  lemma BeginAnswers(cfg: Config, l: Ledger, nodes: seq<Node>, body: string) returns (r: Ledger)
    requires Looks(l.rows, nodes) && Count(nodes, LIVE) < cfg.maxConcurrent && |nodes| < cfg.maxPerDay && Accepted(body)
    ensures Dispatch(cfg, l, Opened(|nodes|, body), EnvOf(|nodes|, "")) == (r, CreatedSession(Dec(|nodes|)))
    ensures Looks(r.rows, nodes + [Node(None, 0, Pending, None)])
    ensures Serial.Legal(l.rows, Begin(|nodes|, body))
  {
    var i := |nodes|;
    OpenedBegins(cfg, l, i, body);
    Begins(cfg, l, nodes, body);
    BeginReady(cfg, l.rows, nodes);
    assert Vet(IssueNo(i, body)).Good?;
    BeginCalls(cfg, l, IssueNo(i, body), EnvOf(i, ""), Dec(i));
    r := HandleSecurity(cfg, l, IssueNo(i, body), EnvOf(i, "")).0;
  }

  lemma BeginCalls(cfg: Config, l: Ledger, issue: Issue, env: Env, sid: string)
    requires CountActive(l.rows) < cfg.maxConcurrent && CountStartedOn(l.rows, Day(env.now)) < cfg.maxPerDay
    requires !KeyTaken(l.rows, SecurityKey(issue)) && Vet(issue).Good? && env.created == Some(sid)
    ensures HandleSecurity(cfg, l, issue, env).1 == CreatedSession(sid)
  {
  }

  // ---------- one event at a time ----------

  /** The deliveries so far and a sketch of the sessions table. */
  ghost predicate Stands(w: World, ds: seq<Delivery>, nodes: seq<Node>) {
    w.deliveries == ds && Looks(w.ledger.rows, nodes)
  }

  lemma Arrives(cfg: Config, steps: seq<Step>, w: World, small: seq<Serial.Step>, id: string, e: Event,
                nodes: seq<Node>) returns (v: World)
    requires Reached(cfg, steps, w, small) && Stands(w, w.deliveries, nodes)
    requires forall k :: 0 <= k < |w.deliveries| ==> w.deliveries[k].id != id
    ensures Reached(cfg, steps + [Receive(id, e)], v, small)
    ensures Stands(v, w.deliveries + [Delivery(id, e, None)], nodes)
  {
    OnlyPolls(cfg, steps, w, small, Receive(id, e), []);
    assert small + [] == small;
    v := Next(Front(cfg), w, Receive(id, e));
    ReceiveExact(Front(cfg), w, id, e);
  }

  lemma AttemptCalls(cfg: Config, w: World, k: nat, i: nat, body: string)
    requires k < |w.deliveries| && w.deliveries[k].result.None? && w.deliveries[k].event == Opened(i, body)
    ensures Small(cfg, w, Process(k, Call(i))) == [Begin(i, body)] + []
  {
    OpenedBegins(cfg, w.ledger, i, body);
  }

  lemma ProcessedIs(cfg: Config, w: World, k: nat, env: Env, l: Ledger, answer: Outcome)
    requires DistinctDeliveries(w.deliveries) && k < |w.deliveries| && w.deliveries[k].result.None?
    requires Dispatch(cfg, w.ledger, w.deliveries[k].event, env) == (l, answer)
    ensures Next(Front(cfg), w, Process(k, Runs(env))) ==
            World(l, w.deliveries[k := w.deliveries[k].(result := Some(answer))])
  {
    ProcessExact(Front(cfg), w, k, Runs(env));
  }

  /** A delivery is run with a free slot. */
  lemma IsServed(cfg: Config, steps: seq<Step>, w: World, small: seq<Serial.Step>, k: nat, nodes: seq<Node>,
                 body: string) returns (v: World, more: seq<Serial.Step>)
    requires Reached(cfg, steps, w, small) && Stands(w, w.deliveries, nodes) && Accepted(body)
    requires DistinctDeliveries(w.deliveries) && k < |w.deliveries| && w.deliveries[k].result.None?
    requires w.deliveries[k].event == Opened(|nodes|, body)
    requires Count(nodes, LIVE) < cfg.maxConcurrent && |nodes| < cfg.maxPerDay
    ensures Reached(cfg, steps + [Process(k, Call(|nodes|))], v, more)
    ensures Stands(v, w.deliveries[k := w.deliveries[k].(result := Some(CreatedSession(Dec(|nodes|))))],
                   nodes + [Node(None, 0, Pending, None)])
  {
    var step := Process(k, Call(|nodes|));
    var l := BeginAnswers(cfg, w.ledger, nodes, body);
    AttemptCalls(cfg, w, k, |nodes|, body);
    Calls(cfg, steps, w, small, step, Begin(|nodes|, body), []);
    ProcessedIs(cfg, w, k, EnvOf(|nodes|, ""), l, CreatedSession(Dec(|nodes|)));
    v, more := Next(Front(cfg), w, step), small + ([Begin(|nodes|, body)] + []);
  }

  lemma FullQueues(cfg: Config, l: Ledger, nodes: seq<Node>, i: nat, body: string)
    requires Looks(l.rows, nodes) && Count(nodes, LIVE) >= cfg.maxConcurrent && i >= |nodes|
    ensures Dispatch(cfg, l, Opened(i, body), EnvOf(i, "")) == (l, Queued(SecurityKey(IssueNo(i, body))))
    ensures Serial.Legal(l.rows, Begin(i, body))
  {
    OpenedBegins(cfg, l, i, body);
    SketchCount(l.rows, nodes);
    LaterIsFresh(l.rows, nodes, i);
  }

  /** A delivery is run without one. */
  lemma HasToWait(cfg: Config, steps: seq<Step>, w: World, small: seq<Serial.Step>, k: nat, nodes: seq<Node>,
                  body: string) returns (v: World, more: seq<Serial.Step>)
    requires Reached(cfg, steps, w, small) && Stands(w, w.deliveries, nodes)
    requires DistinctDeliveries(w.deliveries) && k < |w.deliveries| && w.deliveries[k].result.None?
    requires w.deliveries[k].event == Opened(|nodes|, body) && Count(nodes, LIVE) >= cfg.maxConcurrent
    ensures Reached(cfg, steps + [Process(k, Call(|nodes|))], v, more)
    ensures Stands(v, w.deliveries[k := w.deliveries[k].(result := Some(Queued(SecurityKey(IssueNo(|nodes|, body)))))],
                   nodes)
  {
    var step := Process(k, Call(|nodes|));
    FullQueues(cfg, w.ledger, nodes, |nodes|, body);
    AttemptCalls(cfg, w, k, |nodes|, body);
    Calls(cfg, steps, w, small, step, Begin(|nodes|, body), []);
    ProcessedIs(cfg, w, k, EnvOf(|nodes|, ""), w.ledger, Queued(SecurityKey(IssueNo(|nodes|, body))));
    v, more := Next(Front(cfg), w, step), small + ([Begin(|nodes|, body)] + []);
  }

  /** The tick in which the only session is seen to have ended: there was no slot for the queue yet. */
  function Ends(): Step { Tick([], [Exits(0, None).sample]) }

  lemma EndsPolls(cfg: Config, w: World)
    requires |w.ledger.rows| == 1 && CountActive(w.ledger.rows) >= cfg.maxConcurrent
    ensures Drain(Front(cfg), w, []) == w && Small(cfg, w, Ends()) == [Exits(0, None)]
  {
    assert Polled([Exits(0, None).sample], 1) == Polled([Exits(0, None).sample], 0) + [Exits(0, None)];
  }

  lemma SessionEnds(cfg: Config, steps: seq<Step>, w: World, small: seq<Serial.Step>, node: Node)
    returns (v: World, more: seq<Serial.Step>)
    requires Reached(cfg, steps, w, small) && Stands(w, w.deliveries, [node]) && Active(node.status)
    requires CountActive(w.ledger.rows) >= cfg.maxConcurrent
    ensures Reached(cfg, steps + [Ends()], v, more) && Stands(v, w.deliveries, [Exited(node, None)])
  {
    EndsPolls(cfg, w);
    OnlyPolls(cfg, steps, w, small, Ends(), [Exits(0, None)]);
    v, more := Next(Front(cfg), w, Ends()), small + [Exits(0, None)];
    TickExact(Front(cfg), w, [], [Exits(0, None).sample]);
    assert LooksLike(w.ledger.rows[0], 0, node);
    ExitLooks(cfg.timeout, w.ledger.rows[0], 0, node, None);
  }

  lemma DrainsOne(cfg: Config, w: World, k: nat, a: Attempt)
    requires CountActive(w.ledger.rows) == 0 && cfg.maxConcurrent == 1
    requires k < |w.deliveries| && w.deliveries[k].Waiting()
    requires forall j :: 0 <= j < |w.deliveries| && j != k ==> !w.deliveries[j].Waiting()
    ensures Drain(Front(cfg), w, [a]) == Retry(Front(cfg), w, k, a)
    ensures Refinement.Drained(cfg, w, [a]) == Attempted(w.deliveries[k].event, a)
  {
    OnlyOneWaits(w.deliveries, k);
    var listed := ListQueued(w.deliveries, 1);
    assert listed == [k];
    assert Retried(w.deliveries, listed, [a], 1) ==
           Retried(w.deliveries, listed, [a], 0) + Attempted(w.deliveries[k].event, a);
    assert RetryFirst(Front(cfg), w, listed, [a], 1) ==
           Retry(Front(cfg), RetryFirst(Front(cfg), w, listed, [a], 0), k, AttemptAt([a], 0));
  }

  lemma OnlyOneWaits(ds: seq<Delivery>, k: nat)
    requires k < |ds| && ds[k].Waiting() && forall j :: 0 <= j < |ds| && j != k ==> !ds[j].Waiting()
    ensures Waiting(ds) == [k]
  {
    SortedSame(Waiting(ds), [k]);
  }

  lemma RetryIs(cfg: Config, w: World, k: nat, env: Env, l: Ledger, answer: Outcome)
    requires DistinctDeliveries(w.deliveries) && k < |w.deliveries| && !answer.Queued?
    requires Dispatch(cfg, w.ledger, w.deliveries[k].event, env) == (l, answer)
    ensures Retry(Front(cfg), w, k, Runs(env)) == World(l, w.deliveries[k := w.deliveries[k].(result := Some(answer))])
  {
    MarksOnlyItself(w.deliveries, k, answer);
  }

  /** The next tick finds the slot free, and nobody hears from Devin in it. */
  function Serves(i: nat): Step { Tick([Call(i)], []) }

  lemma SilentPolls(cfg: Config, w: World, d: World, i: nat)
    requires Drain(Front(cfg), w, [Call(i)]) == d
    ensures Next(Front(cfg), w, Serves(i)) == d && PollsOnly(Polled([], |d.ledger.rows|))
    ensures Small(cfg, w, Serves(i)) == Refinement.Drained(cfg, w, [Call(i)]) + Polled([], |d.ledger.rows|)
  {
    SilentPollsChangeNothing(cfg, d.ledger, |d.ledger.rows|);
  }

  lemma {:induction false} SilentPollsChangeNothing(cfg: Config, l: Ledger, n: nat)
    requires n <= |l.rows|
    ensures PollFirst(cfg, l, [], n) == l && PollsOnly(Polled([], n))
  {
    if n == 0 {
    } else {
      SilentPollsChangeNothing(cfg, l, n - 1);
      SilentPoll(cfg, l, n - 1, SampleAt([], n - 1));
    }
  }

  lemma SilentPoll(cfg: Config, l: Ledger, i: nat, s: Poller.Sample)
    requires s.reply.Down?
    ensures PollStep(cfg, l, i, s) == l
  {
    if i < |l.rows| {
      assert l.rows[i := l.rows[i]] == l.rows;
      PollsRow(cfg, l, i, s);
    }
  }

  /** The waiting delivery is served. */
  lemma WaiterIsServed(cfg: Config, steps: seq<Step>, w: World, small: seq<Serial.Step>, k: nat, nodes: seq<Node>,
                       body: string) returns (v: World, more: seq<Serial.Step>)
    requires Reached(cfg, steps, w, small) && Stands(w, w.deliveries, nodes) && Accepted(body)
    requires DistinctDeliveries(w.deliveries) && k < |w.deliveries| && w.deliveries[k].Waiting()
    requires forall j :: 0 <= j < |w.deliveries| && j != k ==> !w.deliveries[j].Waiting()
    requires w.deliveries[k].event == Opened(|nodes|, body)
    requires Count(nodes, LIVE) == 0 && cfg.maxConcurrent == 1 && |nodes| < cfg.maxPerDay
    ensures Reached(cfg, steps + [Serves(|nodes|)], v, more)
    ensures Stands(v, w.deliveries[k := w.deliveries[k].(result := Some(CreatedSession(Dec(|nodes|))))],
                   nodes + [Node(None, 0, Pending, None)])
  {
    var i := |nodes|;
    SketchCount(w.ledger.rows, nodes);
    var l := BeginAnswers(cfg, w.ledger, nodes, body);
    DrainsOne(cfg, w, k, Call(i));
    RetryIs(cfg, w, k, EnvOf(i, ""), l, CreatedSession(Dec(i)));
    v := World(l, w.deliveries[k := w.deliveries[k].(result := Some(CreatedSession(Dec(i))))]);
    SilentPolls(cfg, w, v, i);
    OpenedBegins(cfg, w.ledger, i, body);
    Calls(cfg, steps, w, small, Serves(i), Begin(i, body), Polled([], |l.rows|));
    more := small + ([Begin(i, body)] + Polled([], |l.rows|));
  }

  // ---------- the whole run ----------

  function First(body: string): seq<Step> {
    [Receive("a", Opened(0, body)), Process(0, Call(0)), Receive("b", Opened(1, body)), Process(1, Call(1))]
  }

  lemma FirstGrows(body: string)
    ensures First(body)[..1] == [] + [Receive("a", Opened(0, body))]
    ensures First(body)[..2] == First(body)[..1] + [Process(0, Call(0))]
    ensures First(body)[..3] == First(body)[..2] + [Receive("b", Opened(1, body))]
    ensures First(body) == First(body)[..3] + [Process(1, Call(1))]
    ensures First(body) + [Ends(), Serves(1)] == (First(body) + [Ends()]) + [Serves(1)]
  {
  }

  lemma FirstArrives(cfg: Config, body: string) returns (w: World)
    requires Accepted(body)
    ensures Reached(cfg, First(body)[..1], w, []) && Stands(w, [Delivery("a", Opened(0, body), None)], [])
  {
    assert Reached(cfg, [], EMPTY, []) && Stands(EMPTY, EMPTY.deliveries, []);
    w := Arrives(cfg, [], EMPTY, [], "a", Opened(0, body), []);
    FirstGrows(body);
    assert [] + [Delivery("a", Opened(0, body), None)] == [Delivery("a", Opened(0, body), None)];
  }

  /** The first delivery, run. */
  function A(body: string): Delivery { Delivery("a", Opened(0, body), Some(CreatedSession(Dec(0)))) }

  const STARTED := Node(None, 0, Pending, None)

  lemma OneStarted()
    ensures [] + [STARTED] == [STARTED] && Count<Node>([], LIVE) == 0 && Count([STARTED], LIVE) == 1
    ensures Count([Exited(STARTED, None)], LIVE) == 0
  {
    assert [STARTED][..0] == [] && [Exited(STARTED, None)][..0] == [];
  }

  lemma ServesFirst(cfg: Config, steps: seq<Step>, w: World, small: seq<Serial.Step>, body: string)
    returns (v: World, more: seq<Serial.Step>)
    requires cfg.maxConcurrent == 1 && cfg.maxPerDay >= 2 && Accepted(body)
    requires Reached(cfg, steps, w, small) && Stands(w, [Delivery("a", Opened(0, body), None)], [])
    ensures Reached(cfg, steps + [Process(0, Call(0))], v, more) && Stands(v, [A(body)], [STARTED])
  {
    OneStarted();
    v, more := IsServed(cfg, steps, w, small, 0, [], body);
  }

  lemma FirstIsServed(cfg: Config, body: string) returns (w: World, small: seq<Serial.Step>)
    requires cfg.maxConcurrent == 1 && cfg.maxPerDay >= 2 && Accepted(body)
    ensures Reached(cfg, First(body)[..2], w, small) && Stands(w, [A(body)], [STARTED])
  {
    var w1 := FirstArrives(cfg, body);
    FirstGrows(body);
    w, small := ServesFirst(cfg, First(body)[..1], w1, [], body);
  }

  lemma ThenSecond(cfg: Config, steps: seq<Step>, w: World, small: seq<Serial.Step>, body: string) returns (v: World)
    requires Reached(cfg, steps, w, small) && Stands(w, [A(body)], [STARTED])
    ensures Reached(cfg, steps + [Receive("b", Opened(1, body))], v, small)
    ensures Stands(v, [A(body), Delivery("b", Opened(1, body), None)], [STARTED])
  {
    v := Arrives(cfg, steps, w, small, "b", Opened(1, body), [STARTED]);
  }

  lemma SecondArrives(cfg: Config, body: string) returns (w: World, small: seq<Serial.Step>)
    requires cfg.maxConcurrent == 1 && cfg.maxPerDay >= 2 && Accepted(body)
    ensures Reached(cfg, First(body)[..3], w, small)
    ensures Stands(w, [A(body), Delivery("b", Opened(1, body), None)], [STARTED])
  {
    var v: World;
    v, small := FirstIsServed(cfg, body);
    FirstGrows(body);
    w := ThenSecond(cfg, First(body)[..2], v, small, body);
  }

  function Key(body: string): string { SecurityKey(IssueNo(1, body)) }

  lemma ThenWaits(cfg: Config, steps: seq<Step>, w: World, small: seq<Serial.Step>, body: string)
    returns (v: World, more: seq<Serial.Step>)
    requires Reached(cfg, steps, w, small) && cfg.maxConcurrent == 1
    requires Stands(w, [A(body), Delivery("b", Opened(1, body), None)], [STARTED])
    ensures Reached(cfg, steps + [Process(1, Call(1))], v, more)
    ensures Stands(v, [A(body), Delivery("b", Opened(1, body), Some(Queued(Key(body))))], [STARTED])
  {
    OneStarted();
    v, more := HasToWait(cfg, steps, w, small, 1, [STARTED], body);
  }

  lemma UntilWaiting(cfg: Config, body: string) returns (w: World, small: seq<Serial.Step>)
    requires cfg.maxConcurrent == 1 && cfg.maxPerDay >= 2 && Accepted(body)
    ensures Reached(cfg, First(body), w, small)
    ensures Stands(w, [A(body), Delivery("b", Opened(1, body), Some(Queued(Key(body))))], [STARTED])
  {
    var v: World, before: seq<Serial.Step>;
    v, before := SecondArrives(cfg, body);
    FirstGrows(body);
    w, small := ThenWaits(cfg, First(body)[..3], v, before, body);
  }

  lemma ThenEnds(cfg: Config, steps: seq<Step>, w: World, small: seq<Serial.Step>)
    returns (v: World, more: seq<Serial.Step>)
    requires Reached(cfg, steps, w, small) && cfg.maxConcurrent == 1 && Stands(w, w.deliveries, [STARTED])
    ensures Reached(cfg, steps + [Ends()], v, more) && Stands(v, w.deliveries, [Exited(STARTED, None)])
  {
    OneStarted();
    SketchCount(w.ledger.rows, [STARTED]);
    v, more := SessionEnds(cfg, steps, w, small, STARTED);
  }

  lemma ThenServed(cfg: Config, steps: seq<Step>, w: World, small: seq<Serial.Step>, body: string)
    returns (v: World, more: seq<Serial.Step>)
    requires cfg.maxConcurrent == 1 && cfg.maxPerDay >= 2 && Accepted(body) && Reached(cfg, steps, w, small)
    requires Stands(w, [A(body), Delivery("b", Opened(1, body), Some(Queued(Key(body))))], [Exited(STARTED, None)])
    ensures Reached(cfg, steps + [Serves(1)], v, more)
    ensures v.deliveries == [A(body), Delivery("b", Opened(1, body), Some(CreatedSession(Dec(1))))]
  {
    OneStarted();
    v, more := WaiterIsServed(cfg, steps, w, small, 1, [Exited(STARTED, None)], body);
  }

  /** A legal run in which an issue waits and is served: with one slot, the second of two issues is queued behind the
      first.  The tick that sees the first session end leaves it waiting, since the queue is drained before the
      sessions are polled; the next tick starts its session. */
  lemma WaitsThenServed(cfg: Config) returns (body: string)
    requires cfg.maxConcurrent == 1 && cfg.maxPerDay >= 2
    ensures Serial.LegalRun(cfg, Serial.NOTHING, SmallRun(cfg, EMPTY, First(body) + [Ends(), Serves(1)]))
    ensures Run(Front(cfg), EMPTY, First(body)).deliveries ==
            [A(body), Delivery("b", Opened(1, body), Some(Queued(Key(body))))]
    ensures Run(Front(cfg), EMPTY, First(body) + [Ends()]).deliveries == Run(Front(cfg), EMPTY, First(body)).deliveries
    ensures Run(Front(cfg), EMPTY, First(body) + [Ends(), Serves(1)]).deliveries ==
            [A(body), Delivery("b", Opened(1, body), Some(CreatedSession(Dec(1))))]
  {
    body := AcceptedBody();
    FirstGrows(body);
    var w, small := UntilWaiting(cfg, body);
    var seen, more := ThenEnds(cfg, First(body), w, small);
    var v, all := ThenServed(cfg, First(body) + [Ends()], seen, more, body);
  }
}
