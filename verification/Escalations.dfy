/**
 Runs that show what an escalation can do to its session and to those around it.
 */
module Escalations {
  import opened Base
  import opened Devin
  import opened Sessions
  import opened Handlers
  import opened Serial
  import opened FixTree
  import opened Scenarios
  import Bookkeeping
  import Poller
  import Racing
  import Timeouts

  function RootNode(status: Status, pr: Option<string>): Node { Node(None, 0, status, pr) }

  function FixNode(parent: nat, attempt: nat, status: Status, pr: Option<string>): Node {
    Node(Some(parent), attempt, status, pr)
  }

  lemma TopOfOne(nodes: seq<Node>)
    requires |nodes| == 1 && nodes[0].attempt == 0
    ensures Top(nodes, 0, 0)
  {
  }

  lemma TopOfTwo(nodes: seq<Node>, p: nat)
    requires |nodes| >= 2 && p < 2 && nodes[0].attempt == 0 && nodes[1].attempt == 1 && nodes[1].parent == Some(0)
    requires forall i :: 2 <= i < |nodes| ==> nodes[i].attempt == 0
    ensures Top(nodes, p, 1)
  {
    assert InChainOf(nodes[1], 1, p);
  }

  lemma MarkedIs(nodes: seq<Node>, p: nat, after: seq<Node>)
    requires |nodes| == |after| && forall i :: 0 <= i < |nodes| ==> after[i] == MarkedNode(nodes[i], i, p)
    ensures Marked(nodes, p) == after
  {
  }

  lemma SessionEnds(cfg: Config, body: string, url: string) returns (steps: seq<Step>, views: seq<seq<Node>>)
    requires cfg.maxConcurrent >= 1 && cfg.maxPerDay >= 1 && Accepted(body)
    ensures Shows(cfg, steps, views) && steps == [Begin(0, body), Exits(0, Some(url))]
    ensures views == [[], [RootNode(Pending, None)], [RootNode(Completed, Some(url))]]
  {
    steps, views := Starts(cfg, body);
    var a, b := [RootNode(Pending, None)], [RootNode(Completed, Some(url))];
    ThenStops(cfg, steps, views, a, 0, Some(url));
    assert a[0 := Exited(a[0], Some(url))] == b;
    steps, views := steps + [Exits(0, Some(url))], views + [b];
  }

  lemma FixStarts(cfg: Config, body: string, url: string) returns (steps: seq<Step>, views: seq<seq<Node>>)
    requires cfg.maxConcurrent >= 1 && cfg.maxPerDay >= 1 && cfg.maxFix >= 1 && Accepted(body)
    ensures Shows(cfg, steps, views) && steps == [Begin(0, body), Exits(0, Some(url)), Failure(1, url)]
    ensures views == [[], [RootNode(Pending, None)], [RootNode(Completed, Some(url))],
                      [RootNode(Completed, Some(url)), FixNode(0, 1, Pending, None)]]
  {
    steps, views := SessionEnds(cfg, body, url);
    var a, b := [RootNode(Completed, Some(url))], [RootNode(Completed, Some(url)), FixNode(0, 1, Pending, None)];
    FixGoes(cfg, steps, views, a, b, url);
    steps, views := steps + [Failure(1, url)], views + [b];
  }

  lemma OneEnded(a: seq<Node>, url: string)
    requires a == [RootNode(Completed, Some(url))]
    ensures NewestNode(a, url, 0) && Terminal(a[0].status) && Top(a, 0, 0) && Count(a, LIVE) == 0
  {
    TopOfOne(a);
    CountNone(a, LIVE);
  }

  lemma FixGoes(cfg: Config, steps: seq<Step>, views: seq<seq<Node>>, a: seq<Node>, b: seq<Node>, url: string)
    requires Shows(cfg, steps, views) && a == Now(views) && cfg.maxConcurrent >= 1 && cfg.maxFix >= 1
    requires a == [RootNode(Completed, Some(url))] && b == a + [FixNode(0, 1, Pending, None)]
    ensures Shows(cfg, steps + [Failure(1, url)], views + [b])
  {
    OneEnded(a, url);
    ThenRepairs(cfg, steps, views, a, url, 0, 0);
  }

  /** An issue; its session ends with a pull request; that fails in CI, and a fix session starts and ends. */
  lemma RepairedOnce(cfg: Config, body: string, url: string, second: Option<string>)
    returns (steps: seq<Step>, views: seq<seq<Node>>)
    requires cfg.maxConcurrent >= 1 && cfg.maxPerDay >= 1 && cfg.maxFix >= 1 && Accepted(body)
    ensures Shows(cfg, steps, views) && |steps| == 4
    ensures Now(views) == [RootNode(Completed, Some(url)), FixNode(0, 1, Completed, second)]
  {
    steps, views := FixStarts(cfg, body, url);
    var b, c := [RootNode(Completed, Some(url)), FixNode(0, 1, Pending, None)],
                [RootNode(Completed, Some(url)), FixNode(0, 1, Completed, second)];
    ThenStops(cfg, steps, views, b, 1, second);
    assert b[1 := Exited(b[1], second)] == c;
    steps, views := steps + [Exits(1, second)], views + [c];
  }

  // ---------- a session ended by its parent's escalation, between two of its own ----------

  lemma TwoShow(rows: seq<Row>, nodes: seq<Node>)
    requires Looks(rows, nodes) && |nodes| == 2 && nodes[1].parent == Some(0)
    ensures |rows| == 2 && rows[0].status == nodes[0].status && rows[1].status == nodes[1].status
    ensures IsParent(rows, 0, 1)
  {
    assert LooksLike(rows[0], 0, nodes[0]) && LooksLike(rows[1], 1, nodes[1]);
  }

  /** The statuses of rows 0 and 1 over the last four tables. */
  lemma FourShow(t: seq<seq<Row>>, views: seq<seq<Node>>, r: Node, s: Node, w: Node, x: Node, y: Node, z: Node)
    requires |t| == 8 && |views| == 8 && forall k :: 0 <= k < 8 ==> Looks(t[k], views[k])
    requires views[4] == [r, s] && views[5] == [r, w] && views[6] == [x, y] && views[7] == [x, z]
    requires s.parent == Some(0) && w.parent == Some(0) && y.parent == Some(0) && z.parent == Some(0)
    requires Terminal(r.status) && Terminal(s.status) && w.status == NeedsAttention
    requires x.status == NeedsAttention && Terminal(y.status) && z.status == NeedsAttention
    ensures Bookkeeping.Revived(t[4], t[5], 1) && Bookkeeping.Revived(t[6], t[7], 1)
    ensures Bookkeeping.Ended(t[5], t[6], 1) && Bookkeeping.ParentRevived(t[5], t[6], 1)
  {
    TwoShow(t[4], views[4]);
    TwoShow(t[5], views[5]);
    TwoShow(t[6], views[6]);
    TwoShow(t[7], views[7]);
    assert IsParent(t[5], 0, 1) && Bookkeeping.Revived(t[5], t[6], 0);
  }

  /** A failure on the pull request of one of the two sessions, both out of attempts. */
  lemma FailsAgain(cfg: Config, steps: seq<Step>, views: seq<seq<Node>>, nodes: seq<Node>, url: string, p: nat,
                   after: seq<Node>)
    requires Shows(cfg, steps, views) && nodes == Now(views) && cfg.maxFix == 1 && |nodes| >= 2 && p < 2
    requires nodes[0].attempt == 0 && nodes[1].attempt == 1 && nodes[0].parent.None? && nodes[1].parent == Some(0)
    requires forall i :: 2 <= i < |nodes| ==> nodes[i].attempt == 0
    requires NewestNode(nodes, url, p) && Terminal(nodes[p].status)
    requires |nodes| == |after| && forall i :: 0 <= i < |nodes| ==> after[i] == MarkedNode(nodes[i], i, p)
    ensures Shows(cfg, steps + [Failure(|nodes|, url)], views + [after])
  {
    TopOfTwo(nodes, p);
    ThenGivesUp(cfg, steps, views, nodes, url, p, 1);
    MarkedIs(nodes, p, after);
  }

  /** The two sessions, with pull requests u1 and u2. */
  function Pair(s0: Status, s1: Status): seq<Node> { [RootNode(s0, Some("u1")), FixNode(0, 1, s1, Some("u2"))] }

  lemma FailsOnSecond(cfg: Config, steps: seq<Step>, views: seq<seq<Node>>, s0: Status, s1: Status)
    requires Shows(cfg, steps, views) && Now(views) == Pair(s0, s1) && cfg.maxFix == 1 && Terminal(s1)
    ensures Shows(cfg, steps + [Failure(2, "u2")], views + [Pair(s0, NeedsAttention)])
  {
    FailsAgain(cfg, steps, views, Pair(s0, s1), "u2", 1, Pair(s0, NeedsAttention));
  }

  lemma FailsOnFirst(cfg: Config, steps: seq<Step>, views: seq<seq<Node>>, s0: Status, s1: Status)
    requires Shows(cfg, steps, views) && Now(views) == Pair(s0, s1) && cfg.maxFix == 1 && Terminal(s0) && Active(s1)
    ensures Shows(cfg, steps + [Failure(2, "u1")], views + [Pair(NeedsAttention, Cancelled)])
  {
    assert "u1" != "u2";
    FailsAgain(cfg, steps, views, Pair(s0, s1), "u1", 0, Pair(NeedsAttention, Cancelled));
  }

  lemma ThreeFailures(cfg: Config, body: string) returns (steps: seq<Step>, views: seq<seq<Node>>)
    requires cfg.maxConcurrent >= 1 && cfg.maxPerDay >= 1 && cfg.maxFix == 1 && Accepted(body)
    ensures Shows(cfg, steps, views) && |steps| == 7
    ensures views[4] == Pair(Completed, Completed) && views[5] == Pair(Completed, NeedsAttention)
    ensures views[6] == Pair(NeedsAttention, Cancelled) && views[7] == Pair(NeedsAttention, NeedsAttention)
    ensures steps[4..] == [Failure(2, "u2"), Failure(2, "u1"), Failure(2, "u2")]
  {
    steps, views := RepairedOnce(cfg, body, "u1", Some("u2"));
    assert Now(views) == Pair(Completed, Completed);
    FailsOnSecond(cfg, steps, views, Completed, Completed);
    steps, views := steps + [Failure(2, "u2")], views + [Pair(Completed, NeedsAttention)];
    FailsOnFirst(cfg, steps, views, Completed, NeedsAttention);
    steps, views := steps + [Failure(2, "u1")], views + [Pair(NeedsAttention, Cancelled)];
    FailsOnSecond(cfg, steps, views, NeedsAttention, Cancelled);
    steps, views := steps + [Failure(2, "u2")], views + [Pair(NeedsAttention, NeedsAttention)];
  }

  /** With one allowed attempt there is a run in which row 1 is escalated at step 4 and again at step 6, and what
      ended it in between is not its poll but the escalation of its parent, at step 5. */
  lemma ParentEndsChild(cfg: Config) returns (steps: seq<Step>)
    requires cfg.maxConcurrent >= 1 && cfg.maxPerDay >= 1 && cfg.maxFix == 1
    ensures LegalRun(cfg, NOTHING, steps) && |steps| == 7
    ensures steps[4].CiRun? && steps[5].CiRun? && steps[6].CiRun?
    ensures var t := Tables(cfg, NOTHING, steps);
            && Bookkeeping.Revived(t[4], t[5], 1) && Bookkeeping.Revived(t[6], t[7], 1)
            && Bookkeeping.Ended(t[5], t[6], 1) && Bookkeeping.ParentRevived(t[5], t[6], 1)
  {
    var body := AcceptedBody();
    var views;
    steps, views := ThreeFailures(cfg, body);
    assert steps[4] == steps[4..][0] && steps[5] == steps[4..][1] && steps[6] == steps[4..][2];
    FourShow(Tables(cfg, NOTHING, steps), views, views[4][0], views[4][1], views[5][1],
             views[6][0], views[6][1], views[7][1]);
  }

  /** The same run leaves parent and child alive side by side: one pull request per tree is needed for Racing. */
  lemma TwoPrsRace(cfg: Config) returns (steps: seq<Step>)
    requires cfg.maxConcurrent >= 1 && cfg.maxPerDay >= 1 && cfg.maxFix == 1
    ensures LegalRun(cfg, NOTHING, steps) && !Racing.SamePrThroughout(cfg, steps)
    ensures var rows := Run(cfg, NOTHING, steps).rows;
            && Tree(cfg.maxFix, rows) && |rows| == 2 && Racing.Above(cfg.maxFix, rows, 0, 1)
            && Active(rows[0].status) && Active(rows[1].status)
  {
    var body := AcceptedBody();
    var views;
    steps, views := ThreeFailures(cfg, body);
    LastTable(cfg, steps, views);
    var rows := Run(cfg, NOTHING, steps).rows;
    TwoShow(rows, views[7]);
    TreeInvariant(cfg, steps);
    OnlyRowAbove(cfg.maxFix, rows);
    if Racing.SamePrThroughout(cfg, steps) {
      Racing.NeverRacing(cfg, steps);
      assert false;
    }
  }

  lemma OnlyRowAbove(maxFix: int, rows: seq<Row>)
    requires Tree(maxFix, rows) && |rows| == 2 && IsParent(rows, 0, 1)
    ensures Racing.Above(maxFix, rows, 0, 1)
  {
    assert Parent(maxFix, rows, 1) == 0;
  }

  // ---------- a child cancelled before it was ever ended ----------

  /** The session ends with a pull request, a fix session starts, and while it is pending the pull request fails
      once more: with one allowed attempt that escalates the first session and cancels the second. */
  lemma ChildCancelled(cfg: Config, body: string) returns (steps: seq<Step>, views: seq<seq<Node>>)
    requires cfg.maxConcurrent >= 1 && cfg.maxPerDay >= 1 && cfg.maxFix == 1 && Accepted(body)
    ensures Shows(cfg, steps, views)
    ensures steps == [Begin(0, body), Exits(0, Some("u1")), Failure(1, "u1"), Failure(2, "u1")]
    ensures views == [[], [RootNode(Pending, None)], [RootNode(Completed, Some("u1"))],
                      [RootNode(Completed, Some("u1")), FixNode(0, 1, Pending, None)],
                      [RootNode(NeedsAttention, Some("u1")), FixNode(0, 1, Cancelled, None)]]
  {
    steps, views := FixStarts(cfg, body, "u1");
    var a := [RootNode(Completed, Some("u1")), FixNode(0, 1, Pending, None)];
    var b := [RootNode(NeedsAttention, Some("u1")), FixNode(0, 1, Cancelled, None)];
    FailsAgain(cfg, steps, views, a, "u1", 0, b);
    steps, views := steps + [Failure(2, "u1")], views + [b];
  }

  lemma NeverStamped(t: seq<seq<Row>>, views: seq<seq<Node>>, steps: seq<Step>)
    requires |steps| == 4 && |t| == 5 && |views| == 5 && forall k :: 0 <= k < 5 ==> Looks(t[k], views[k])
    requires |views[1]| <= 1 && |views[2]| <= 1 && |views[3]| == 2 && views[3][1].status.Pending? && !steps[3].PollOne?
    requires |views[0]| <= 1 && !steps[2].PollOne?
    ensures !Bookkeeping.Timed(t, steps, 4, 1)
  {
    assert LooksLike(t[3][1], 1, views[3][1]);
    forall k | 0 <= k < 4 ensures !Bookkeeping.Stamps(t[k], t[k + 1], steps[k], 1) {
      assert Looks(t[k], views[k]) && Looks(t[k + 1], views[k + 1]);
    }
  }

  /** That leaves a terminal row without a completion time. */
  lemma CancelledWithoutTime(cfg: Config) returns (steps: seq<Step>)
    requires cfg.maxConcurrent >= 1 && cfg.maxPerDay >= 1 && cfg.maxFix == 1
    ensures LegalRun(cfg, NOTHING, steps) && |steps| == 4
    ensures var rows := Run(cfg, NOTHING, steps).rows;
            |rows| == 2 && rows[1].status == Cancelled && rows[1].completedAt.None?
  {
    var body := AcceptedBody();
    var views;
    steps, views := ChildCancelled(cfg, body);
    LastTable(cfg, steps, views);
    TwoShow(Run(cfg, NOTHING, steps).rows, views[4]);
    NeverStamped(Tables(cfg, NOTHING, steps), views, steps);
    Bookkeeping.CompletionTimes(cfg, steps, 1);
  }

  // ---------- a revived session that times out ----------

  lemma HeardOnce(cfg: Config, steps: seq<Step>, t: seq<seq<Row>>)
    requires |steps| == 4 && t == Tables(cfg, NOTHING, steps) && |t[1]| == 1 && Timeouts.Watched(t[1][0])
    requires steps[1] == Exits(0, Some("u1")) && steps[2].CiRun? && steps[3].CiRun?
    ensures Timeouts.Heard(cfg, steps, 0) == Some(0)
  {
    assert steps[..3][..2] == steps[..2] && steps[..2][..1] == steps[..1];
    TableAt(cfg, NOTHING, steps, 1);
    assert Timeouts.Heard(cfg, steps[..2], 0) == Some(0);
    assert Timeouts.Heard(cfg, steps[..3], 0) == Some(0);
  }

  /** What the tables of that run say about the first session. */
  lemma FirstRevived(t: seq<seq<Row>>, views: seq<seq<Node>>)
    requires |t| == 5 && |views| == 5 && forall k :: 0 <= k < 5 ==> Looks(t[k], views[k])
    requires |views[1]| == 1 && views[1][0].status.Pending? && |views[3]| == 2 && |views[4]| == 2
    requires views[3][0].status.Completed? && views[4][0].status.NeedsAttention?
    requires views[3][1].parent == Some(0) && views[4][1].parent == Some(0)
    ensures |t[1]| == 1 && Timeouts.Watched(t[1][0]) && |t[4]| == 2
    ensures t[4][0].status == NeedsAttention && t[4][0].devinId.Some? && Bookkeeping.Revived(t[3], t[4], 0)
  {
    TwoShow(t[3], views[3]);
    TwoShow(t[4], views[4]);
    assert LooksLike(t[1][0], 0, views[1][0]) && LooksLike(t[4][0], 0, views[4][0]);
  }

  /** Devin says the session is running, and gives no clock. */
  function Busy(now: int): Step { PollOne(0, Poller.Sample(Poller.Up(Remote(RawRunning, 0.0, [], None, None)), now)) }

  lemma ThenTimesOut(cfg: Config, before: seq<Step>, now: int)
    requires |before| == 4 && LegalRun(cfg, NOTHING, before) && now > cfg.timeout
    requires var rows := Run(cfg, NOTHING, before).rows;
             |rows| > 0 && rows[0].status == NeedsAttention && rows[0].devinId.Some?
    requires Timeouts.Heard(cfg, before, 0) == Some(0)
    ensures var t := Tables(cfg, NOTHING, before + [Busy(now)]);
            LegalRun(cfg, NOTHING, before + [Busy(now)]) && Timeouts.BecomesTimedOut(t[4], t[5], 0)
    ensures Tables(cfg, NOTHING, before) == Tables(cfg, NOTHING, before + [Busy(now)])[..5]
  {
    Timeouts.RevivedSessionTimesOut(cfg, before, 0, Busy(now).sample.reply.remote, now, 0);
    LegalNext(cfg, before, Busy(now));
    TablesNext(cfg, before, Busy(now));
    RunNext(cfg, before, Busy(now));
    TableAt(cfg, NOTHING, before, 4);
    assert before[..4] == before;
  }

  /** The first session of that run was last heard of at time 0.  Its next poll finds it at work, and ends it if
      more than the limit has passed since, although it was escalated in between. */
  lemma EscalatedThenTimedOut(cfg: Config, now: int) returns (steps: seq<Step>)
    requires cfg.maxConcurrent >= 1 && cfg.maxPerDay >= 1 && cfg.maxFix == 1 && now > cfg.timeout
    ensures LegalRun(cfg, NOTHING, steps) && |steps| == 5 && steps[4] == Busy(now)
    ensures var t := Tables(cfg, NOTHING, steps);
            Bookkeeping.Revived(t[3], t[4], 0) && Timeouts.BecomesTimedOut(t[4], t[5], 0)
  {
    var body := AcceptedBody();
    var before, views := ChildCancelled(cfg, body);
    var t := Tables(cfg, NOTHING, before);
    FirstRevived(t, views);
    HeardOnce(cfg, before, t);
    TableAt(cfg, NOTHING, before, 4);
    assert before[..4] == before;
    ThenTimesOut(cfg, before, now);
    steps := before + [Busy(now)];
    assert Tables(cfg, NOTHING, steps)[3] == t[3] && Tables(cfg, NOTHING, steps)[4] == t[4];
  }

  // ---------- the concurrency cap passed ----------

  /** The pair of sessions, the second without a pull request, and another issue's session. */
  function Trio(s0: Status): seq<Node> {
    [RootNode(s0, Some("u1")), FixNode(0, 1, Completed, None), RootNode(Pending, None)]
  }

  lemma TrioCounts()
    ensures Count(Trio(Completed), LIVE) == 1 && Count(Trio(NeedsAttention), LIVE) == 2
  {
    var a := [RootNode(Completed, Some("u1")), FixNode(0, 1, Completed, None)];
    CountNone(a, LIVE);
    assert Trio(Completed) == a + [RootNode(Pending, None)];
    CountAppend(a, RootNode(Pending, None), LIVE);
    CountReplace(Trio(Completed), 0, RootNode(NeedsAttention, Some("u1")), LIVE);
    assert Trio(NeedsAttention) == Trio(Completed)[0 := RootNode(NeedsAttention, Some("u1"))];
  }

  lemma SecondIssue(cfg: Config, body: string) returns (steps: seq<Step>, views: seq<seq<Node>>)
    requires cfg.maxConcurrent >= 1 && cfg.maxPerDay >= 3 && cfg.maxFix == 1 && Accepted(body)
    ensures Shows(cfg, steps, views) && |steps| == 5 && Now(views) == Trio(Completed)
  {
    steps, views := RepairedOnce(cfg, body, "u1", None);
    var a := [RootNode(Completed, Some("u1")), FixNode(0, 1, Completed, None)];
    CountNone(a, LIVE);
    ThenBegins(cfg, steps, views, a, body);
    assert a + [RootNode(Pending, None)] == Trio(Completed);
    steps, views := steps + [Begin(2, body)], views + [Trio(Completed)];
  }

  lemma TrioFacts(nodes: seq<Node>, after: seq<Node>)
    requires nodes == Trio(Completed) && after == Trio(NeedsAttention)
    ensures |nodes| == 3 && NewestNode(nodes, "u1", 0) && Terminal(nodes[0].status) && nodes[0].parent.None?
    ensures Top(nodes, 0, 1) && Marked(nodes, 0) == after
  {
    TopOfTwo(nodes, 0);
    MarkedIs(nodes, 0, after);
  }

  lemma FailsOnTrio(cfg: Config, steps: seq<Step>, views: seq<seq<Node>>, nodes: seq<Node>)
    requires Shows(cfg, steps, views) && Now(views) == nodes == Trio(Completed) && cfg.maxFix == 1
    ensures Shows(cfg, steps + [Failure(3, "u1")], views + [Trio(NeedsAttention)])
  {
    TrioFacts(nodes, Trio(NeedsAttention));
    ThenGivesUp(cfg, steps, views, nodes, "u1", 0, 1);
  }

  /** One slot and one allowed attempt: a second issue takes the slot, and the next failure of the first pull
      request escalates its session all the same. */
  lemma CapIsPassed(cfg: Config) returns (steps: seq<Step>)
    requires cfg.maxConcurrent == 1 && cfg.maxPerDay >= 3 && cfg.maxFix == 1
    ensures LegalRun(cfg, NOTHING, steps) && |steps| == 6 && steps[5].CiRun?
    ensures var t := Tables(cfg, NOTHING, steps);
            CountActive(t[5]) == cfg.maxConcurrent && CountActive(t[6]) == cfg.maxConcurrent + 1
  {
    var body := AcceptedBody();
    var before, views := SecondIssue(cfg, body);
    FailsOnTrio(cfg, before, views, Trio(Completed));
    steps, views := before + [Failure(3, "u1")], views + [Trio(NeedsAttention)];
    TrioCounts();
    SketchCount(Tables(cfg, NOTHING, steps)[5], views[5]);
    SketchCount(Tables(cfg, NOTHING, steps)[6], views[6]);
  }
}
