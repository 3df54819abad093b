/**
 One slot is enough to reach the bound on a tree of fix sessions if every session opens a pull request of its own:
 the sessions run one at a time, and each is given its fix sessions by failures on its own pull request.
 */
module OwnPrs {
  import opened Base
  import opened Devin
  import opened Sessions
  import opened Handlers
  import opened Serial
  import opened WorkKeys
  import opened FixTree
  import opened Scenarios
  import FullTree

  /** The pull request each session opens. */
  type Urls = nat -> string

  ghost predicate Distinct(urls: Urls) { forall i: nat, j: nat :: i != j ==> urls(i) != urls(j) }

  function UrlOf(i: nat): string { "u" + Dec(i) }

  lemma UrlsDiffer(i: nat, j: nat)
    requires i != j
    ensures UrlOf(i) != UrlOf(j)
  {
    if UrlOf(i) == UrlOf(j) {
      assert UrlOf(i)[1..] == Dec(i) && UrlOf(j)[1..] == Dec(j);
      DecInjective(i, j);
    }
  }

  /** How many sessions this one stands for: itself once it has been dealt with, before that all of its subtree. */
  function Weight(n: nat, node: Node, dealt: bool): nat {
    if dealt || node.attempt > n then 1 else Pow2(n - node.attempt)
  }

  /** The weight of the first m sessions; those before place k have been dealt with. */
  function Sum(n: nat, nodes: seq<Node>, k: nat, m: nat): nat
    requires m <= |nodes|
  {
    if m == 0 then 0 else Sum(n, nodes, k, m - 1) + Weight(n, nodes[m - 1], m - 1 < k)
  }

  lemma {:induction false} SumGrows(n: nat, nodes: seq<Node>, k: nat, node: Node, m: nat)
    requires m <= |nodes|
    ensures Sum(n, nodes + [node], k, m) == Sum(n, nodes, k, m)
  {
    if m == 0 {
    } else {
      SumGrows(n, nodes, k, node, m - 1);
    }
  }

  /** Dealing with session k. */
  lemma {:induction false} SumDeals(n: nat, nodes: seq<Node>, k: nat, m: nat)
    requires k < m <= |nodes|
    ensures Sum(n, nodes, k + 1, m) + Weight(n, nodes[k], false) == Sum(n, nodes, k, m) + 1
  {
    if m == k + 1 {
      SumBelow(n, nodes, k, k);
      SumBelow(n, nodes, k + 1, k);
    } else {
      SumDeals(n, nodes, k, m - 1);
    }
  }

  lemma {:induction false} SumBelow(n: nat, nodes: seq<Node>, k: nat, m: nat)
    requires m <= k && m <= |nodes|
    ensures Sum(n, nodes, k, m) == m
  {
    if m == 0 {
    } else {
      SumBelow(n, nodes, k, m - 1);
    }
  }

  lemma {:induction false} SumAtLeast(n: nat, nodes: seq<Node>, k: nat, m: nat)
    requires m <= |nodes|
    ensures Sum(n, nodes, k, m) >= m
  {
    if m == 0 {
    } else {
      SumAtLeast(n, nodes, k, m - 1);
      if nodes[m - 1].attempt <= n {
        FullTree.Pow2Positive(n - nodes[m - 1].attempt);
      }
    }
  }

  /** What all the sessions stand for. */
  function Total(n: nat, nodes: seq<Node>, k: nat): nat { Sum(n, nodes, k, |nodes|) }

  lemma TotalAppend(n: nat, nodes: seq<Node>, k: nat, node: Node)
    ensures Total(n, nodes + [node], k) == Total(n, nodes, k) + Weight(n, node, |nodes| < k)
  {
    SumGrows(n, nodes, k, node, |nodes|);
  }

  // ---------- the sketches of the run ----------

  predicate NodeAt(urls: Urls, n: nat, node: Node, i: int, k: nat) {
    && i >= 0 && node.status == Completed && node.pr == Some(urls(i)) && node.attempt <= n
    && (if i == 0 then node.parent.None? && node.attempt == 0 else node.parent.Some? && node.parent.value < k)
  }

  /** All sessions have ended with their own pull requests; only the first k have been given fix sessions. */
  ghost predicate AllEnded(urls: Urls, n: nat, nodes: seq<Node>, k: nat) {
    1 <= |nodes| && k <= |nodes| && forall i :: 0 <= i < |nodes| ==> NodeAt(urls, n, nodes[i], i, k)
  }

  lemma NoneLive(urls: Urls, n: nat, nodes: seq<Node>, k: nat)
    requires AllEnded(urls, n, nodes, k)
    ensures Count(nodes, LIVE) == 0
  {
    forall i | 0 <= i < |nodes| ensures !LIVE(nodes[i]) {
      assert NodeAt(urls, n, nodes[i], i, k);
    }
    CountNone(nodes, LIVE);
  }

  lemma OwnIsNewest(urls: Urls, n: nat, nodes: seq<Node>, k: nat, p: nat)
    requires Distinct(urls) && AllEnded(urls, n, nodes, k) && p < |nodes|
    ensures NewestNode(nodes, urls(p), p) && Terminal(nodes[p].status)
  {
    assert NodeAt(urls, n, nodes[p], p, k);
    forall j | p < j < |nodes| ensures nodes[j].pr != Some(urls(p)) {
      assert NodeAt(urls, n, nodes[j], j, k);
    }
  }

  /** Session k is alone in its chain. */
  lemma Alone(urls: Urls, n: nat, nodes: seq<Node>, k: nat)
    requires AllEnded(urls, n, nodes, k) && k < |nodes|
    ensures AllEnded(urls, n, nodes, k + 1) && Top(nodes, k, nodes[k].attempt) && nodes[k].attempt <= n
  {
    forall i | 0 <= i < |nodes| ensures NodeAt(urls, n, nodes[i], i, k + 1) && (i != k ==> !InChainOf(nodes[i], i, k)) {
      assert NodeAt(urls, n, nodes[i], i, k);
    }
    assert InChainOf(nodes[k], k, k);
  }

  function NewNode(k: nat, j: nat): Node { Node(Some(k), j + 1, Pending, None) }

  function EndedNode(urls: Urls, k: nat, j: nat, i: nat): Node { Node(Some(k), j + 1, Completed, Some(urls(i))) }

  lemma FixJoins(urls: Urls, n: nat, nodes: seq<Node>, k: nat, j: nat) returns (after: seq<Node>)
    requires AllEnded(urls, n, nodes, k + 1) && k < |nodes| && j < n && Top(nodes, k, j)
    ensures after == nodes + [EndedNode(urls, k, j, |nodes|)] && AllEnded(urls, n, after, k + 1) && Top(after, k, j + 1)
    ensures Total(n, after, k + 1) == Total(n, nodes, k + 1) + Pow2(n - (j + 1))
  {
    var fix := EndedNode(urls, k, j, |nodes|);
    after := nodes + [fix];
    forall i | 0 <= i < |after| ensures NodeAt(urls, n, after[i], i, k + 1) {
      if i < |nodes| {
        assert NodeAt(urls, n, nodes[i], i, k + 1);
      }
    }
    assert InChainOf(after[|nodes|], |nodes|, k);
    forall i | 0 <= i < |after| && InChainOf(after[i], i, k) ensures after[i].attempt <= j + 1 {
      if i < |nodes| {
        assert InChainOf(nodes[i], i, k);
      }
    }
    TotalAppend(n, nodes, k + 1, fix);
  }

  // ---------- growing the tree ----------

  /** A failure on the pull request of session k starts a fix session with attempt j + 1. */
  ghost predicate Fixable(urls: Urls, n: nat, nodes: seq<Node>, k: nat, j: nat) {
    && Count(nodes, LIVE) == 0 && NewestNode(nodes, urls(k), k) && Terminal(nodes[k].status)
    && Top(nodes, k, j) && j < n
  }

  /** Which sketches are reached is closed under starting a fix session and letting it end with a pull request. */
  ghost predicate Grows(urls: Urls, n: nat, reached: seq<Node> -> bool) {
    forall nodes, k: nat, j: nat :: reached(nodes) && Fixable(urls, n, nodes, k, j) ==>
      reached(nodes + [EndedNode(urls, k, j, |nodes|)])
  }

  /** Session k, whose chain carries attempt j, is given the rest of its fix sessions. */
  lemma {:induction false} FixSteps(urls: Urls, n: nat, reached: seq<Node> -> bool, nodes: seq<Node>, k: nat, j: nat)
    returns (after: seq<Node>)
    requires Distinct(urls) && Grows(urls, n, reached) && reached(nodes)
    requires AllEnded(urls, n, nodes, k + 1) && k < |nodes| && j <= n
    requires Top(nodes, k, j) && Total(n, nodes, k + 1) + Pow2(n - j) - 1 == Pow2(n)
    ensures reached(after) && AllEnded(urls, n, after, k + 1) && Total(n, after, k + 1) == Pow2(n)
    decreases n - j
  {
    if j == n {
      after := nodes;
    } else {
      NoneLive(urls, n, nodes, k + 1);
      OwnIsNewest(urls, n, nodes, k + 1, k);
      assert Fixable(urls, n, nodes, k, j);
      after := FixJoins(urls, n, nodes, k, j);
      after := FixSteps(urls, n, reached, after, k, j + 1);
    }
  }

  lemma OneSession(urls: Urls, n: nat, reached: seq<Node> -> bool, nodes: seq<Node>, k: nat)
    returns (after: seq<Node>)
    requires Distinct(urls) && Grows(urls, n, reached) && reached(nodes)
    requires AllEnded(urls, n, nodes, k) && k < |nodes| && Total(n, nodes, k) == Pow2(n)
    ensures reached(after) && AllEnded(urls, n, after, k + 1) && Total(n, after, k + 1) == Pow2(n)
  {
    Alone(urls, n, nodes, k);
    SumDeals(n, nodes, k, |nodes|);
    after := FixSteps(urls, n, reached, nodes, k, nodes[k].attempt);
  }

  lemma TotalFits(n: nat, nodes: seq<Node>, k: nat)
    requires k <= |nodes| && Total(n, nodes, k) == Pow2(n)
    ensures |nodes| <= Pow2(n) && (k == |nodes| ==> |nodes| == Pow2(n))
  {
    SumAtLeast(n, nodes, k, |nodes|);
    if k == |nodes| {
      SumBelow(n, nodes, k, k);
    }
  }

  /** From the k-th session on, until all have been dealt with. */
  lemma {:induction false} AllSteps(urls: Urls, n: nat, reached: seq<Node> -> bool, nodes: seq<Node>, k: nat)
    returns (after: seq<Node>)
    requires Distinct(urls) && Grows(urls, n, reached) && reached(nodes)
    requires AllEnded(urls, n, nodes, k) && Total(n, nodes, k) == Pow2(n)
    ensures reached(after) && AllEnded(urls, n, after, |after|) && |after| == Pow2(n)
    decreases Pow2(n) - k
  {
    TotalFits(n, nodes, k);
    if k == |nodes| {
      after := nodes;
    } else {
      after := OneSession(urls, n, reached, nodes, k);
      after := AllSteps(urls, n, reached, after, k + 1);
    }
  }

  // ---------- the run ----------

  function Limits(n: nat): Config { Config(1, 1, 0, n, {}) }

  ghost predicate Runs(cfg: Config, steps: seq<Step>, views: seq<seq<Node>>, nodes: seq<Node>) {
    Shows(cfg, steps, views) && nodes == Now(views)
  }

  ghost predicate Reachable(cfg: Config, nodes: seq<Node>) { exists steps, views :: Runs(cfg, steps, views, nodes) }

  lemma LastExits(urls: Urls, nodes: seq<Node>, k: nat, j: nat)
    ensures var mid := nodes + [NewNode(k, j)];
            mid[|nodes| := Exited(mid[|nodes|], Some(urls(|nodes|)))] == nodes + [EndedNode(urls, k, j, |nodes|)]
  {
  }

  /** A session starts for session k, and ends with its own pull request. */
  lemma StartsAndEnds(urls: Urls, n: nat, steps: seq<Step>, views: seq<seq<Node>>, nodes: seq<Node>, k: nat, j: nat)
    returns (s: seq<Step>, v: seq<seq<Node>>)
    requires Runs(Limits(n), steps, views, nodes) && Fixable(urls, n, nodes, k, j)
    ensures Runs(Limits(n), s, v, nodes + [EndedNode(urls, k, j, |nodes|)])
  {
    var i, mid := |nodes|, nodes + [NewNode(k, j)];
    ThenRepairs(Limits(n), steps, views, nodes, urls(k), k, j);
    s, v := steps + [Failure(i, urls(k))], views + [mid];
    ThenStops(Limits(n), s, v, mid, i, Some(urls(i)));
    LastExits(urls, nodes, k, j);
    s, v := s + [Exits(i, Some(urls(i)))], v + [nodes + [EndedNode(urls, k, j, i)]];
  }

  lemma IsReachable(cfg: Config, steps: seq<Step>, views: seq<seq<Node>>, nodes: seq<Node>)
    requires Runs(cfg, steps, views, nodes)
    ensures Reachable(cfg, nodes)
  {
  }

  lemma FirstTotal(urls: Urls, n: nat, nodes: seq<Node>)
    requires nodes == [Node(None, 0, Completed, Some(urls(0)))]
    ensures AllEnded(urls, n, nodes, 0) && Total(n, nodes, 0) == Pow2(n)
  {
    assert NodeAt(urls, n, nodes[0], 0, 0);
    assert Sum(n, nodes, 0, 1) == Sum(n, nodes, 0, 0) + Weight(n, nodes[0], false);
  }

  lemma FirstSession(urls: Urls, n: nat, body: string) returns (s: seq<Step>, v: seq<seq<Node>>)
    requires Accepted(body)
    ensures Runs(Limits(n), s, v, [Node(None, 0, Completed, Some(urls(0)))])
  {
    s, v := Starts(Limits(n), body);
    var first, nodes := [Node(None, 0, Pending, None)], [Node(None, 0, Completed, Some(urls(0)))];
    ThenStops(Limits(n), s, v, first, 0, Some(urls(0)));
    assert first[0 := Exited(first[0], Some(urls(0)))] == nodes;
    s, v := s + [Exits(0, Some(urls(0)))], v + [nodes];
  }

  lemma SketchedParents(urls: Urls, n: nat, rows: seq<Row>, nodes: seq<Node>, k: nat)
    requires Looks(rows, nodes) && AllEnded(urls, n, nodes, k)
    ensures forall i :: 0 < i < |rows| ==> rows[i].job.parent.Some?
  {
    forall i | 0 < i < |rows| ensures rows[i].job.parent.Some? {
      assert LooksLike(rows[i], i, nodes[i]) && NodeAt(urls, n, nodes[i], i, k);
    }
  }

  ghost function Reached(n: nat): seq<Node> -> bool { (nodes: seq<Node>) => Reachable(Limits(n), nodes) }

  lemma RunsGrow(urls: Urls, n: nat)
    ensures Grows(urls, n, Reached(n))
  {
    forall nodes, k: nat, j: nat | Reached(n)(nodes) && Fixable(urls, n, nodes, k, j)
      ensures Reached(n)(nodes + [EndedNode(urls, k, j, |nodes|)]) {
      var steps, views :| Runs(Limits(n), steps, views, nodes);
      var s, v := StartsAndEnds(urls, n, steps, views, nodes, k, j);
      IsReachable(Limits(n), s, v, nodes + [EndedNode(urls, k, j, |nodes|)]);
    }
  }

  lemma FullRun(urls: Urls, n: nat) returns (nodes: seq<Node>)
    requires Distinct(urls)
    ensures Reachable(Limits(n), nodes) && AllEnded(urls, n, nodes, |nodes|) && |nodes| == Pow2(n)
  {
    var body := AcceptedBody();
    RunsGrow(urls, n);
    var s, v := FirstSession(urls, n, body);
    nodes := [Node(None, 0, Completed, Some(urls(0)))];
    IsReachable(Limits(n), s, v, nodes);
    FirstTotal(urls, n, nodes);
    nodes := AllSteps(urls, n, Reached(n), nodes, 0);
  }

  lemma DistinctUrls() returns (urls: Urls)
    ensures Distinct(urls)
  {
    urls := (i: nat) => UrlOf(i);
    forall i: nat, j: nat | i != j ensures urls(i) != urls(j) {
      UrlsDiffer(i, j);
    }
  }

  /** For every attempt cap there is a legal run with a single slot that reaches the bound of FixTree. */
  lemma OneSlotReachesBound(n: nat) returns (steps: seq<Step>)
    ensures Limits(n).maxConcurrent == 1 && Limits(n).maxFix == n && LegalRun(Limits(n), NOTHING, steps)
    ensures var rows := Run(Limits(n), NOTHING, steps).rows;
            Tree(n, rows) && |FixRows(n, rows, 0)| == Pow2(n) - 1
  {
    var urls := DistinctUrls();
    var nodes := FullRun(urls, n);
    var views;
    steps, views :| Runs(Limits(n), steps, views, nodes);
    LastTable(Limits(n), steps, views);
    TreeInvariant(Limits(n), steps);
    var rows := Run(Limits(n), NOTHING, steps).rows;
    SketchedParents(urls, n, rows, nodes, |nodes|);
    FullTree.AllAreFixes(n, rows);
    TreeBound(n, rows, 0);
  }
}
