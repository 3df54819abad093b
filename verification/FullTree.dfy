/**
 The bound on a tree of fix sessions is reached: for every attempt cap there is a run, all on one pull request,
 in which one issue collects 2^MAX_FIX_ATTEMPTS - 1 fix sessions.

 The sessions are dealt with in the order they started.  Each ends with the pull request, is then the newest
 session to report it, and is given fix sessions until its chain carries the last allowed attempt.
 */
module FullTree {
  import opened Base
  import opened Devin
  import opened Sessions
  import opened Handlers
  import opened Serial
  import opened FixTree
  import opened Scenarios
  import Racing

  const PR := "u1"

  /** How many sessions this one stands for: itself, and while it is pending all it can still lead to. */
  function Weight(n: nat, node: Node): nat {
    if node.status.Pending? && node.attempt <= n then Pow2(n - node.attempt) else 1
  }

  function Total(n: nat, nodes: seq<Node>): nat {
    if nodes == [] then 0 else Total(n, nodes[..|nodes| - 1]) + Weight(n, nodes[|nodes| - 1])
  }

  lemma TotalAppend(n: nat, nodes: seq<Node>, node: Node)
    ensures Total(n, nodes + [node]) == Total(n, nodes) + Weight(n, node)
  {
    assert (nodes + [node])[..|nodes|] == nodes;
  }

  lemma {:induction false} TotalReplace(n: nat, nodes: seq<Node>, i: nat, node: Node)
    requires i < |nodes|
    ensures Total(n, nodes[i := node]) + Weight(n, nodes[i]) == Total(n, nodes) + Weight(n, node)
  {
    var last := |nodes| - 1;
    if i == last {
      assert nodes[i := node][..last] == nodes[..last];
    } else {
      assert nodes[i := node][..last] == nodes[..last][i := node];
      TotalReplace(n, nodes[..last], i, node);
    }
  }

  lemma {:induction false} Pow2Positive(n: nat)
    ensures Pow2(n) >= 1
  {
    if n == 0 {
    } else {
      Pow2Positive(n - 1);
    }
  }

  lemma {:induction false} TotalAtLeast(n: nat, nodes: seq<Node>)
    ensures Total(n, nodes) >= |nodes|
  {
    if nodes == [] {
    } else {
      TotalAtLeast(n, nodes[..|nodes| - 1]);
      if nodes[|nodes| - 1].attempt <= n {
        Pow2Positive(n - nodes[|nodes| - 1].attempt);
      }
    }
  }

  lemma {:induction false} TotalWhenDone(n: nat, nodes: seq<Node>)
    requires forall i :: 0 <= i < |nodes| ==> !nodes[i].status.Pending?
    ensures Total(n, nodes) == |nodes|
  {
    if nodes == [] {
    } else {
      TotalWhenDone(n, nodes[..|nodes| - 1]);
    }
  }

  // ---------- the sketches of the run ----------

  predicate NodeAt(n: nat, node: Node, i: int, k: nat) {
    && (if i < k then node.status == Completed && node.pr == Some(PR) else node.status == Pending && node.pr == None)
    && node.attempt <= n
    && (if i == 0 then node.parent.None? && node.attempt == 0 else node.parent.Some? && node.parent.value < k)
  }

  /** The first k sessions have ended with the pull request, the others are pending. */
  ghost predicate DealtUpTo(n: nat, nodes: seq<Node>, k: nat) {
    1 <= |nodes| && k <= |nodes| && forall i :: 0 <= i < |nodes| ==> NodeAt(n, nodes[i], i, k)
  }

  predicate OnePr(nodes: seq<Node>) {
    forall i :: 0 <= i < |nodes| ==> nodes[i].pr.None? || nodes[i].pr == Some(PR)
  }

  /** The run so far, all on one pull request. */
  ghost predicate Runs(cfg: Config, steps: seq<Step>, views: seq<seq<Node>>, nodes: seq<Node>) {
    && Shows(cfg, steps, views) && nodes == Now(views)
    && forall k :: 0 <= k < |views| ==> OnePr(views[k])
  }

  lemma RunsOn(cfg: Config, steps: seq<Step>, views: seq<seq<Node>>, nodes: seq<Node>, step: Step, view: seq<Node>)
    requires Runs(cfg, steps, views, nodes) && OnePr(view) && Shows(cfg, steps + [step], views + [view])
    ensures Runs(cfg, steps + [step], views + [view], view)
  {
    var more := views + [view];
    forall k | 0 <= k < |more| ensures OnePr(more[k]) {
      if k < |views| {
        assert OnePr(views[k]);
      }
    }
  }

  lemma DealtIsOnePr(n: nat, nodes: seq<Node>, k: nat)
    requires DealtUpTo(n, nodes, k)
    ensures OnePr(nodes)
  {
    forall i | 0 <= i < |nodes| ensures nodes[i].pr.None? || nodes[i].pr == Some(PR) {
      assert NodeAt(n, nodes[i], i, k);
    }
  }

  /** Session k ends: it is now the newest with the pull request, and alone in its chain. */
  lemma EndsNext(n: nat, nodes: seq<Node>, k: nat) returns (after: seq<Node>)
    requires DealtUpTo(n, nodes, k) && k < |nodes|
    ensures after == nodes[k := Exited(nodes[k], Some(PR))] && DealtUpTo(n, after, k + 1)
    ensures NewestNode(after, PR, k) && Top(after, k, after[k].attempt)
    ensures Total(n, after) + Pow2(n - after[k].attempt) - 1 == Total(n, nodes)
  {
    after := nodes[k := Exited(nodes[k], Some(PR))];
    assert NodeAt(n, nodes[k], k, k);
    forall i | 0 <= i < |after| ensures NodeAt(n, after[i], i, k + 1) && (i != k ==> !InChainOf(after[i], i, k)) {
      assert NodeAt(n, nodes[i], i, k);
    }
    forall i | k < i < |after| ensures after[i].pr != Some(PR) {
      assert NodeAt(n, after[i], i, k + 1);
    }
    assert InChainOf(after[k], k, k);
    TotalReplace(n, nodes, k, after[k]);
    Pow2Positive(n - after[k].attempt);
  }

  lemma FixJoins(n: nat, nodes: seq<Node>, k: nat, j: nat) returns (after: seq<Node>)
    requires DealtUpTo(n, nodes, k + 1) && k < |nodes| && j < n && NewestNode(nodes, PR, k) && Top(nodes, k, j)
    ensures after == nodes + [Node(Some(k), j + 1, Pending, None)] && DealtUpTo(n, after, k + 1)
    ensures NewestNode(after, PR, k) && Top(after, k, j + 1)
    ensures Total(n, after) + Pow2(n - (j + 1)) - 1 == Total(n, nodes) + Pow2(n - j) - 1
  {
    var fix := Node(Some(k), j + 1, Pending, None);
    after := nodes + [fix];
    forall i | 0 <= i < |after| ensures NodeAt(n, after[i], i, k + 1) {
      if i < |nodes| {
        assert NodeAt(n, nodes[i], i, k + 1);
      }
    }
    assert InChainOf(after[|nodes|], |nodes|, k);
    forall i | 0 <= i < |after| && InChainOf(after[i], i, k) ensures after[i].attempt <= j + 1 {
      if i < |nodes| {
        assert InChainOf(nodes[i], i, k);
      }
    }
    TotalAppend(n, nodes, fix);
  }

  // ---------- the run ----------

  function Limits(n: nat): Config { Config(Pow2(n) + 1, 1, 0, n, {}) }

  lemma RoomLeft(n: nat, nodes: seq<Node>)
    requires Total(n, nodes) <= Pow2(n)
    ensures Count(nodes, LIVE) < Limits(n).maxConcurrent
  {
    CountBound(nodes, LIVE);
    TotalAtLeast(n, nodes);
  }

  lemma FixReady(n: nat, nodes: seq<Node>, k: nat, j: nat)
    requires DealtUpTo(n, nodes, k + 1) && k < |nodes| && j < n && Total(n, nodes) + Pow2(n - j) - 1 == Pow2(n)
    ensures Count(nodes, LIVE) < Limits(n).maxConcurrent && Terminal(nodes[k].status)
  {
    Pow2Positive(n - j);
    RoomLeft(n, nodes);
    assert NodeAt(n, nodes[k], k, k + 1);
  }

  lemma FixRuns(n: nat, steps: seq<Step>, views: seq<seq<Node>>, nodes: seq<Node>, k: nat, j: nat, after: seq<Node>)
    requires Runs(Limits(n), steps, views, nodes) && Count(nodes, LIVE) < Limits(n).maxConcurrent && j < n
    requires NewestNode(nodes, PR, k) && Terminal(nodes[k].status) && Top(nodes, k, j)
    requires after == nodes + [Node(Some(k), j + 1, Pending, None)] && OnePr(after)
    ensures Runs(Limits(n), steps + [Failure(|nodes|, PR)], views + [after], after)
  {
    ThenRepairs(Limits(n), steps, views, nodes, PR, k, j);
    RunsOn(Limits(n), steps, views, nodes, Failure(|nodes|, PR), after);
  }

  lemma FixStep(n: nat, steps: seq<Step>, views: seq<seq<Node>>, nodes: seq<Node>, k: nat, j: nat)
    returns (s: seq<Step>, v: seq<seq<Node>>, after: seq<Node>)
    requires Runs(Limits(n), steps, views, nodes) && DealtUpTo(n, nodes, k + 1) && k < |nodes| && j < n
    requires NewestNode(nodes, PR, k) && Top(nodes, k, j) && Total(n, nodes) + Pow2(n - j) - 1 == Pow2(n)
    ensures Runs(Limits(n), s, v, after) && DealtUpTo(n, after, k + 1) && |after| > |nodes|
    ensures NewestNode(after, PR, k) && Top(after, k, j + 1) && Total(n, after) + Pow2(n - (j + 1)) - 1 == Pow2(n)
  {
    after := FixJoins(n, nodes, k, j);
    FixReady(n, nodes, k, j);
    DealtIsOnePr(n, after, k + 1);
    FixRuns(n, steps, views, nodes, k, j, after);
    s, v := steps + [Failure(|nodes|, PR)], views + [after];
  }

  /** Session k, whose chain carries attempt j, is given the rest of its fix sessions. */
  lemma {:induction false} FixSteps(n: nat, steps: seq<Step>, views: seq<seq<Node>>, nodes: seq<Node>, k: nat, j: nat)
    returns (s: seq<Step>, v: seq<seq<Node>>, after: seq<Node>)
    requires Runs(Limits(n), steps, views, nodes) && DealtUpTo(n, nodes, k + 1) && k < |nodes| && j <= n
    requires NewestNode(nodes, PR, k) && Top(nodes, k, j) && Total(n, nodes) + Pow2(n - j) - 1 == Pow2(n)
    ensures Runs(Limits(n), s, v, after) && DealtUpTo(n, after, k + 1) && Total(n, after) == Pow2(n)
    decreases n - j
  {
    if j == n {
      s, v, after := steps, views, nodes;
    } else {
      s, v, after := FixStep(n, steps, views, nodes, k, j);
      s, v, after := FixSteps(n, s, v, after, k, j + 1);
    }
  }

  lemma EndStep(n: nat, steps: seq<Step>, views: seq<seq<Node>>, nodes: seq<Node>, k: nat)
    returns (s: seq<Step>, v: seq<seq<Node>>, after: seq<Node>)
    requires Runs(Limits(n), steps, views, nodes) && DealtUpTo(n, nodes, k) && k < |nodes| && Total(n, nodes) == Pow2(n)
    ensures Runs(Limits(n), s, v, after) && DealtUpTo(n, after, k + 1) && k < |after| && after[k].attempt <= n
    ensures NewestNode(after, PR, k) && Top(after, k, after[k].attempt)
    ensures Total(n, after) + Pow2(n - after[k].attempt) - 1 == Pow2(n)
  {
    assert NodeAt(n, nodes[k], k, k);
    after := EndsNext(n, nodes, k);
    ThenStops(Limits(n), steps, views, nodes, k, Some(PR));
    DealtIsOnePr(n, after, k + 1);
    s, v := steps + [Exits(k, Some(PR))], views + [after];
    RunsOn(Limits(n), steps, views, nodes, Exits(k, Some(PR)), after);
  }

  lemma OneSession(n: nat, steps: seq<Step>, views: seq<seq<Node>>, nodes: seq<Node>, k: nat)
    returns (s: seq<Step>, v: seq<seq<Node>>, after: seq<Node>)
    requires Runs(Limits(n), steps, views, nodes) && DealtUpTo(n, nodes, k) && k < |nodes| && Total(n, nodes) == Pow2(n)
    ensures Runs(Limits(n), s, v, after) && DealtUpTo(n, after, k + 1) && Total(n, after) == Pow2(n)
  {
    s, v, after := EndStep(n, steps, views, nodes, k);
    s, v, after := FixSteps(n, s, v, after, k, after[k].attempt);
  }

  lemma AllDone(n: nat, nodes: seq<Node>)
    requires DealtUpTo(n, nodes, |nodes|)
    ensures Total(n, nodes) == |nodes|
  {
    forall i | 0 <= i < |nodes| ensures !nodes[i].status.Pending? {
      assert NodeAt(n, nodes[i], i, |nodes|);
    }
    TotalWhenDone(n, nodes);
  }

  /** From the k-th session on, until all have been dealt with. */
  lemma {:induction false} AllSteps(n: nat, steps: seq<Step>, views: seq<seq<Node>>, nodes: seq<Node>, k: nat)
    returns (s: seq<Step>, v: seq<seq<Node>>, after: seq<Node>)
    requires Runs(Limits(n), steps, views, nodes) && DealtUpTo(n, nodes, k) && Total(n, nodes) == Pow2(n)
    ensures Runs(Limits(n), s, v, after) && DealtUpTo(n, after, |after|) && |after| == Pow2(n)
    decreases Pow2(n) - k
  {
    TotalAtLeast(n, nodes);
    if k == |nodes| {
      AllDone(n, nodes);
      s, v, after := steps, views, nodes;
    } else {
      s, v, after := OneSession(n, steps, views, nodes, k);
      s, v, after := AllSteps(n, s, v, after, k + 1);
    }
  }

  lemma FirstSession(n: nat, nodes: seq<Node>)
    requires nodes == [Node(None, 0, Pending, None)]
    ensures DealtUpTo(n, nodes, 0) && Total(n, nodes) == Pow2(n) && OnePr(nodes) && OnePr([])
  {
    TotalAppend(n, [], nodes[0]);
    assert [] + nodes == nodes;
    assert NodeAt(n, nodes[0], 0, 0);
  }

  lemma FirstRun(n: nat, body: string) returns (s: seq<Step>, v: seq<seq<Node>>)
    requires Accepted(body)
    ensures Runs(Limits(n), s, v, [Node(None, 0, Pending, None)])
  {
    s, v := Starts(Limits(n), body);
    FirstSession(n, [Node(None, 0, Pending, None)]);
  }

  lemma FullRun(n: nat, body: string) returns (s: seq<Step>, v: seq<seq<Node>>, after: seq<Node>)
    requires Accepted(body)
    ensures Runs(Limits(n), s, v, after) && DealtUpTo(n, after, |after|) && |after| == Pow2(n)
  {
    s, v := FirstRun(n, body);
    FirstSession(n, [Node(None, 0, Pending, None)]);
    s, v, after := AllSteps(n, s, v, [Node(None, 0, Pending, None)], 0);
  }

  // ---------- what it leaves ----------

  lemma OnePrIsSame(rows: seq<Row>, nodes: seq<Node>)
    requires Looks(rows, nodes) && OnePr(nodes)
    requires forall j, i :: IsParent(rows, j, i) ==> rows[j].prUrl.Some?
    ensures Racing.SamePr(rows)
  {
    forall j, i | IsParent(rows, j, i) && rows[i].prUrl.Some? ensures rows[i].prUrl == rows[j].prUrl {
      assert LooksLike(rows[j], j, nodes[j]) && LooksLike(rows[i], i, nodes[i]);
    }
  }

  lemma OnePrThroughout(cfg: Config, steps: seq<Step>, views: seq<seq<Node>>, nodes: seq<Node>)
    requires Runs(cfg, steps, views, nodes)
    ensures Racing.SamePrThroughout(cfg, steps)
  {
    forall k | 0 <= k <= |steps| ensures Racing.SamePr(Tables(cfg, NOTHING, steps)[k]) {
      LegalPrefix(cfg, NOTHING, steps, k);
      TableAt(cfg, NOTHING, steps, k);
      TreeInvariant(cfg, steps[..k]);
      OnePrIsSame(Tables(cfg, NOTHING, steps)[k], views[k]);
    }
  }

  lemma {:induction false} RootIsFirst(maxFix: int, rows: seq<Row>, i: nat)
    requires Tree(maxFix, rows) && i < |rows| && forall k :: 0 < k < |rows| ==> rows[k].job.parent.Some?
    ensures Root(maxFix, rows, i) == 0
    decreases i
  {
    assert i > 0 ==> rows[i].job.parent.Some?;
    if rows[i].job.parent.Some? {
      RootIsFirst(maxFix, rows, Parent(maxFix, rows, i));
    }
  }

  lemma {:induction false} HoldsRange(xs: set<nat>, n: nat)
    requires forall i :: 0 < i < n ==> i in xs
    ensures |xs| >= n - 1
  {
    if n <= 1 {
    } else {
      HoldsRange(xs - {n - 1}, n - 1);
      assert |xs - {n - 1}| == |xs| - 1;
    }
  }

  lemma AllAreFixes(maxFix: int, rows: seq<Row>)
    requires Tree(maxFix, rows) && forall k :: 0 < k < |rows| ==> rows[k].job.parent.Some?
    ensures |FixRows(maxFix, rows, 0)| >= |rows| - 1
  {
    forall i | 0 < i < |rows| ensures i in FixRows(maxFix, rows, 0) {
      RootIsFirst(maxFix, rows, i);
    }
    HoldsRange(FixRows(maxFix, rows, 0), |rows|);
  }

  lemma SketchedParents(n: nat, rows: seq<Row>, nodes: seq<Node>, k: nat)
    requires Looks(rows, nodes) && DealtUpTo(n, nodes, k)
    ensures forall i :: 0 < i < |rows| ==> rows[i].job.parent.Some?
  {
    forall i | 0 < i < |rows| ensures rows[i].job.parent.Some? {
      assert LooksLike(rows[i], i, nodes[i]) && NodeAt(n, nodes[i], i, k);
    }
  }

  /** For every attempt cap there is a legal run on one pull request that reaches the bound of FixTree. */
  lemma BoundIsReached(n: nat) returns (steps: seq<Step>)
    ensures LegalRun(Limits(n), NOTHING, steps) && Racing.SamePrThroughout(Limits(n), steps)
    ensures var rows := Run(Limits(n), NOTHING, steps).rows;
            Tree(n, rows) && |FixRows(n, rows, 0)| == Pow2(n) - 1
  {
    var body := AcceptedBody();
    var views, nodes;
    steps, views, nodes := FullRun(n, body);
    OnePrThroughout(Limits(n), steps, views, nodes);
    LastTable(Limits(n), steps, views);
    TreeInvariant(Limits(n), steps);
    var rows := Run(Limits(n), NOTHING, steps).rows;
    SketchedParents(n, rows, nodes, |nodes|);
    AllAreFixes(n, rows);
    TreeBound(n, rows, 0);
  }

  /** So the cap is one per parent and not one per pull request: with two allowed attempts, one pull request can
      collect three fix sessions. */
  lemma CapIsPerParent() returns (steps: seq<Step>)
    ensures LegalRun(Limits(2), NOTHING, steps) && Racing.SamePrThroughout(Limits(2), steps)
    ensures var rows := Run(Limits(2), NOTHING, steps).rows;
            Tree(2, rows) && |FixRows(2, rows, 0)| == 3 > Limits(2).maxFix
  {
    steps := BoundIsReached(2);
    assert Pow2(2) == 2 * Pow2(1) && Pow2(1) == 2 * Pow2(0);
  }
}
