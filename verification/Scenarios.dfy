/**
 Runs that can really happen, built step by step.

 A table is described by its sketch: for each row its parent, its attempt, its status and its pull request.
 Row i has the Devin id that spells i.  Four lemmas say how a sketch changes under a new issue, a CI failure that
 starts a fix, a CI failure that escalates, and a poll that finds a session ended.
 */
module Scenarios {
  import opened Base
  import opened Devin
  import opened Sessions
  import opened Handlers
  import opened Poller
  import opened Serial
  import opened WorkKeys
  import IssueBody
  import Spending
  import Summaries

  datatype Node = Node(parent: Option<nat>, attempt: nat, status: Status, pr: Option<string>)

  const REPO := "o/r"

  function KeyOf(i: nat, n: Node): string {
    if n.parent.None? then MakeWorkKey(REPO, i, SECURITY_LABEL) else MakeCiFixWorkKey(REPO, i)
  }

  function IdOf(parent: Option<nat>): Option<string> {
    if parent.Some? then Some(Dec(parent.value)) else None
  }

  predicate LooksLike(row: Row, i: nat, n: Node) {
    && row.devinId == Some(Dec(i)) && row.job.parent == IdOf(n.parent) && row.job.attempt == n.attempt
    && row.status == n.status && row.prUrl == n.pr && row.job.workKey == KeyOf(i, n)
  }

  ghost predicate Looks(rows: seq<Row>, nodes: seq<Node>) {
    |rows| == |nodes| && forall i :: 0 <= i < |rows| ==> LooksLike(rows[i], i, nodes[i])
  }

  // ---------- reading a sketch ----------

  lemma DecInjective(i: nat, j: nat)
    requires Dec(i) == Dec(j)
    ensures i == j
  {
    ValueOfDec(i);
    ValueOfDec(j);
  }

  ghost predicate NewestNode(nodes: seq<Node>, url: string, p: nat) {
    && p < |nodes| && nodes[p].pr == Some(url)
    && forall j :: p < j < |nodes| ==> nodes[j].pr != Some(url)
  }

  lemma SketchFinds(rows: seq<Row>, nodes: seq<Node>, url: string, p: nat)
    requires Looks(rows, nodes) && NewestNode(nodes, url, p)
    ensures FindByPr(rows, url) == Some(p)
  {
    forall j | 0 <= j < |rows| ensures rows[j].prUrl == nodes[j].pr {
      assert LooksLike(rows[j], j, nodes[j]);
    }
    Spending.NewestIsFound(rows, url, p);
  }

  predicate InChainOf(n: Node, i: int, p: nat) { i == p || n.parent == Some(p) }

  /** m is the highest attempt among node p and its children. */
  ghost predicate Top(nodes: seq<Node>, p: nat, m: nat) {
    && (forall i :: 0 <= i < |nodes| && InChainOf(nodes[i], i, p) ==> nodes[i].attempt <= m)
    && (m > 0 ==> exists i :: 0 <= i < |nodes| && InChainOf(nodes[i], i, p) && nodes[i].attempt == m)
  }

  lemma SketchChain(row: Row, i: nat, n: Node, p: nat)
    requires LooksLike(row, i, n)
    ensures InChain(row, Some(Dec(p))) <==> InChainOf(n, i, p)
  {
    if Dec(i) == Dec(p) {
      DecInjective(i, p);
    }
    if n.parent.Some? && Dec(n.parent.value) == Dec(p) {
      DecInjective(n.parent.value, p);
    }
  }

  lemma SketchTop(rows: seq<Row>, nodes: seq<Node>, p: nat, m: nat)
    requires Looks(rows, nodes) && Top(nodes, p, m)
    ensures MaxFixAttempt(rows, Some(Dec(p))) == m
  {
    var sid := Some(Dec(p));
    var top := MaxFixAttempt(rows, sid);
    forall i | 0 <= i < |rows|
      ensures (InChain(rows[i], sid) <==> InChainOf(nodes[i], i, p)) && rows[i].job.attempt == nodes[i].attempt {
      assert LooksLike(rows[i], i, nodes[i]);
      SketchChain(rows[i], i, nodes[i], p);
    }
    if m > 0 {
      var i :| 0 <= i < |nodes| && InChainOf(nodes[i], i, p) && nodes[i].attempt == m;
      assert InChain(rows[i], sid);
    }
  }

  const LIVE: Node -> bool := (n: Node) => Active(n.status)

  lemma {:induction false} SketchCount(rows: seq<Row>, nodes: seq<Node>)
    requires Looks(rows, nodes)
    ensures CountActive(rows) == Count(nodes, LIVE)
  {
    if rows == [] {
    } else {
      var n := |rows| - 1;
      forall i | 0 <= i < n ensures LooksLike(rows[..n][i], i, nodes[..n][i]) {
        assert LooksLike(rows[i], i, nodes[i]);
      }
      SketchCount(rows[..n], nodes[..n]);
      assert LooksLike(rows[n], n, nodes[n]);
    }
  }

  lemma SketchIsFresh(rows: seq<Row>, nodes: seq<Node>)
    requires Looks(rows, nodes)
    ensures FreshId(rows, Some(Dec(|rows|)))
  {
    LaterIsFresh(rows, nodes, |rows|);
  }

  lemma KeysDiffer(i: nat, n: Node, j: nat, m: Node)
    requires i != j
    ensures KeyOf(i, n) != KeyOf(j, m)
  {
    KeyFamiliesDisjoint(REPO, i, SECURITY_LABEL, REPO, j, 0);
    KeyFamiliesDisjoint(REPO, j, SECURITY_LABEL, REPO, i, 0);
    if KeyOf(i, n) == KeyOf(j, m) {
      if n.parent.None? && m.parent.None? {
        WorkKeyInjective(REPO, i, SECURITY_LABEL, REPO, j, SECURITY_LABEL);
      } else if n.parent.Some? && m.parent.Some? {
        CiFixKeyInjective(REPO, i, REPO, j);
      }
    }
  }

  lemma SketchKeyIsNew(rows: seq<Row>, nodes: seq<Node>, n: Node)
    requires Looks(rows, nodes)
    ensures !KeyTaken(rows, KeyOf(|rows|, n))
  {
    forall i | 0 <= i < |rows| ensures rows[i].job.workKey != KeyOf(|rows|, n) {
      assert LooksLike(rows[i], i, nodes[i]);
      KeysDiffer(i, nodes[i], |rows|, n);
    }
  }

  lemma SketchAppend(rows: seq<Row>, nodes: seq<Node>, row: Row, n: Node)
    requires Looks(rows, nodes) && LooksLike(row, |rows|, n)
    ensures Looks(rows + [row], nodes + [n])
  {
    forall i | 0 <= i <= |rows| ensures LooksLike((rows + [row])[i], i, (nodes + [n])[i]) {
      if i < |rows| {
        assert LooksLike(rows[i], i, nodes[i]);
      }
    }
  }

  // ---------- an issue that is accepted ----------

  const FINDING := IssueBody.Finding("c", "p", "1", "2", "L", "")

  /** Issue number i, with this body. */
  function IssueNo(i: nat, body: string): Issue { Issue("u", i, REPO, body) }

  /** A body the security handler accepts, under any number. */
  ghost predicate Accepted(body: string) { forall i: nat :: Vet(IssueNo(i, body)).Good? }

  lemma Letter(c: char)
    requires 'a' <= c <= 'z' || '0' <= c <= '9' || c == 'L'
    ensures IssueBody.Fieldable([c]) && IssueBody.Strip([c]) == [c] && !IssueBody.Placeholder([c])
  {
    IssueBody.SpaceFacts();
    IssueBody.StripTrimmed([c]);
    assert |IssueBody.Lower([c])| == 1;
  }

  lemma FindingIsFiled()
    ensures IssueBody.Filed(FINDING) && !IssueBody.Placeholder(IssueBody.Strip(FINDING.cve))
    ensures !IssueBody.Placeholder(IssueBody.Strip(FINDING.installed))
    ensures !IssueBody.Placeholder(IssueBody.Strip(FINDING.fix))
  {
    Letter('c');
    Letter('p');
    Letter('1');
    Letter('2');
    Letter('L');
    assert "c" == ['c'] && "p" == ['p'] && "1" == ['1'] && "2" == ['2'] && "L" == ['L'];
  }

  /** There is such a body. */
  lemma SomeBodyIsAccepted()
    ensures Accepted(IssueBody.Body(FINDING))
  {
    FindingIsFiled();
    Summaries.OneLineIsUnforged(FINDING);
    forall i: nat ensures Vet(IssueNo(i, IssueBody.Body(FINDING))).Good? {
      Summaries.FiledIssueIsComplete(FINDING, "u", i);
      Spending.GoodMeansComplete(IssueNo(i, IssueBody.Body(FINDING)),
                                 IssueBody.ParseIssue(IssueBody.Body(FINDING), "u", i));
    }
  }

  lemma AcceptedBody() returns (body: string)
    ensures Accepted(body)
  {
    SomeBodyIsAccepted();
    body := IssueBody.Body(FINDING);
  }

  // ---------- steps on a sketch ----------

  function EnvOf(i: nat, url: string): Env { Env(0, Some(Dec(i)), PrFound(url, "devin/"), Commits([])) }

  /** Issue number i arrives; Devin would call its session i. */
  function Begin(i: nat, body: string): Step { Security(IssueNo(i, body), EnvOf(i, "")) }

  /** CI run number i fails on this pull request. */
  function Failure(i: nat, url: string): Step {
    CiRun(RunNo(i), EnvOf(i, url))
  }

  /** The poll of row i finds the session ended, with this pull request if any. */
  function Exits(i: nat, url: Option<string>): Step {
    PollOne(i, Sample(Up(Remote(RawExit(), 0.0, if url.Some? then [PrRef(url.value, None)] else [], None, None)), 0))
  }

  function RawExit(): Raw { Raw.Exit }

  lemma SpendAppends(rows: seq<Row>, log: seq<Call>, job: Job, env: Env, sid: string)
    requires env.created == Some(sid)
    ensures Spend(rows, log, job, env).0.rows == rows + [Apply(Reserved(job), ActivatePatch(sid))]
  {
  }

  lemma AdmitAppends(rows: seq<Row>, log: seq<Call>, job: Job, vetting: Vetting, env: Env, sid: string)
    requires vetting.Good? && env.created == Some(sid)
    ensures Admit(rows, log, job, vetting, env).0.rows == rows + [Apply(Reserved(job), ActivatePatch(sid))]
  {
    SpendAppends(rows, log, job, env, sid);
  }

  lemma BeginSpends(cfg: Config, l: Ledger, issue: Issue, env: Env, sid: string)
    requires CountActive(l.rows) < cfg.maxConcurrent && CountStartedOn(l.rows, Day(env.now)) < cfg.maxPerDay
    requires !KeyTaken(l.rows, SecurityKey(issue)) && Vet(issue).Good? && env.created == Some(sid)
    ensures HandleSecurity(cfg, l, issue, env).0.rows ==
            l.rows + [Apply(Reserved(SecurityJob(issue, env.now)), ActivatePatch(sid))]
  {
    AdmitAppends(l.rows, l.log, SecurityJob(issue, env.now), Vet(issue), env, sid);
  }

  lemma BeginReady(cfg: Config, rows: seq<Row>, nodes: seq<Node>)
    requires Looks(rows, nodes) && Count(nodes, LIVE) < cfg.maxConcurrent && |nodes| < cfg.maxPerDay
    ensures CountActive(rows) < cfg.maxConcurrent && CountStartedOn(rows, Day(0)) < cfg.maxPerDay
    ensures !KeyTaken(rows, MakeWorkKey(REPO, |nodes|, SECURITY_LABEL)) && FreshId(rows, Some(Dec(|nodes|)))
  {
    SketchIsFresh(rows, nodes);
    SketchKeyIsNew(rows, nodes, Node(None, 0, Pending, None));
    SketchCount(rows, nodes);
    CountBound(rows, StartedOn(Day(0)));
  }

  lemma BegunLooks(i: nat, body: string)
    ensures LooksLike(Apply(Reserved(SecurityJob(IssueNo(i, body), 0)), ActivatePatch(Dec(i))), i,
                      Node(None, 0, Pending, None))
  {
  }

  lemma Begins(cfg: Config, l: Ledger, nodes: seq<Node>, body: string)
    requires Looks(l.rows, nodes) && Count(nodes, LIVE) < cfg.maxConcurrent && |nodes| < cfg.maxPerDay && Accepted(body)
    ensures Legal(l.rows, Begin(|nodes|, body))
    ensures Looks(Next(cfg, l, Begin(|nodes|, body)).rows, nodes + [Node(None, 0, Pending, None)])
  {
    var i := |nodes|;
    var issue := IssueNo(i, body);
    BeginReady(cfg, l.rows, nodes);
    assert Vet(issue).Good?;
    BeginSpends(cfg, l, issue, EnvOf(i, ""), Dec(i));
    BegunLooks(i, body);
    SketchAppend(l.rows, nodes, Apply(Reserved(SecurityJob(issue, 0)), ActivatePatch(Dec(i))),
                 Node(None, 0, Pending, None));
  }

  /** What a CI failure on the pull request of a finished session finds. */
  lemma FailureReady(rows: seq<Row>, nodes: seq<Node>, url: string, p: nat, m: nat)
    requires Looks(rows, nodes)
    requires NewestNode(nodes, url, p) && Terminal(nodes[p].status) && Top(nodes, p, m)
    ensures FindByPr(rows, url) == Some(p) && p < |rows| && Terminal(rows[p].status)
    ensures rows[p].devinId == Some(Dec(p)) && MaxFixAttempt(rows, Some(Dec(p))) == m
  {
    SketchFinds(rows, nodes, url, p);
    SketchTop(rows, nodes, p, m);
    assert LooksLike(rows[p], p, nodes[p]);
  }

  function RunNo(i: nat): WorkflowRun { WorkflowRun(i, REPO, "pull_request", [Some(1)]) }

  function FixJob(i: nat, url: string, p: nat, attempt: nat): Job {
    CiJob(RunNo(i), 1, url, Some(Dec(p)), attempt, 0)
  }

  lemma CiTracks(cfg: Config, l: Ledger, i: nat, url: string, p: nat)
    requires FindByPr(l.rows, url) == Some(p)
    ensures HandleCi(cfg, l, RunNo(i), EnvOf(i, url)) == HandleTracked(cfg, l, RunNo(i), EnvOf(i, url), p)
  {
  }

  lemma TrackedSpends(cfg: Config, l: Ledger, run: WorkflowRun, env: Env, p: nat, m: nat, job: Job)
    requires p < |l.rows| && Terminal(l.rows[p].status) && PrOf(run).Some? && env.pr.PrFound?
    requires MaxFixAttempt(l.rows, l.rows[p].devinId) == m < cfg.maxFix && env.commits == Commits([])
    requires job == CiJob(run, PrOf(run).value, env.pr.url, l.rows[p].devinId, m + 1, env.now)
    requires CountActive(l.rows) < cfg.maxConcurrent && !KeyTaken(l.rows, job.workKey)
    ensures HandleTracked(cfg, l, run, env, p) == Spend(l.rows, l.log, job, env)
  {
  }

  lemma RepairSpends(cfg: Config, l: Ledger, i: nat, url: string, p: nat, m: nat)
    requires FindByPr(l.rows, url) == Some(p) && p < |l.rows| && Terminal(l.rows[p].status)
    requires l.rows[p].devinId == Some(Dec(p)) && MaxFixAttempt(l.rows, Some(Dec(p))) == m < cfg.maxFix
    requires CountActive(l.rows) < cfg.maxConcurrent && !KeyTaken(l.rows, MakeCiFixWorkKey(REPO, i))
    ensures HandleCi(cfg, l, RunNo(i), EnvOf(i, url)).0.rows ==
            l.rows + [Apply(Reserved(FixJob(i, url, p, m + 1)), ActivatePatch(Dec(i)))]
  {
    CiTracks(cfg, l, i, url, p);
    TrackedSpends(cfg, l, RunNo(i), EnvOf(i, url), p, m, FixJob(i, url, p, m + 1));
    SpendAppends(l.rows, l.log, FixJob(i, url, p, m + 1), EnvOf(i, url), Dec(i));
  }

  lemma FixLooks(i: nat, url: string, p: nat, attempt: nat)
    ensures LooksLike(Apply(Reserved(FixJob(i, url, p, attempt)), ActivatePatch(Dec(i))), i,
                      Node(Some(p), attempt, Pending, None))
  {
  }

  lemma RepairReady(cfg: Config, rows: seq<Row>, nodes: seq<Node>, p: nat)
    requires Looks(rows, nodes) && Count(nodes, LIVE) < cfg.maxConcurrent
    ensures CountActive(rows) < cfg.maxConcurrent && !KeyTaken(rows, MakeCiFixWorkKey(REPO, |nodes|))
    ensures FreshId(rows, Some(Dec(|nodes|)))
  {
    SketchIsFresh(rows, nodes);
    SketchKeyIsNew(rows, nodes, Node(Some(p), 1, Pending, None));
    SketchCount(rows, nodes);
  }

  lemma Repairs(cfg: Config, l: Ledger, nodes: seq<Node>, url: string, p: nat, m: nat)
    requires Looks(l.rows, nodes) && Count(nodes, LIVE) < cfg.maxConcurrent
    requires NewestNode(nodes, url, p) && Terminal(nodes[p].status) && Top(nodes, p, m) && m < cfg.maxFix
    ensures Legal(l.rows, Failure(|nodes|, url))
    ensures Looks(Next(cfg, l, Failure(|nodes|, url)).rows, nodes + [Node(Some(p), m + 1, Pending, None)])
  {
    var i, n := |nodes|, Node(Some(p), m + 1, Pending, None);
    RepairReady(cfg, l.rows, nodes, p);
    FailureReady(l.rows, nodes, url, p, m);
    RepairSpends(cfg, l, i, url, p, m);
    FixLooks(i, url, p, m + 1);
    SketchAppend(l.rows, nodes, Apply(Reserved(FixJob(i, url, p, m + 1)), ActivatePatch(Dec(i))), n);
  }

  function MarkedNode(n: Node, i: nat, p: nat): Node {
    if i == p then n.(status := NeedsAttention)
    else if n.parent == Some(p) && Active(n.status) then n.(status := Cancelled)
    else n
  }

  function Marked(nodes: seq<Node>, p: nat): (r: seq<Node>)
    ensures |r| == |nodes| && forall i :: 0 <= i < |r| ==> r[i] == MarkedNode(nodes[i], i, p)
  {
    seq(|nodes|, i requires 0 <= i < |nodes| => MarkedNode(nodes[i], i, p))
  }

  lemma FailureRaises(cfg: Config, l: Ledger, k: nat, url: string, p: nat, m: nat)
    requires FindByPr(l.rows, url) == Some(p) && p < |l.rows| && Terminal(l.rows[p].status)
    requires l.rows[p].devinId == Some(Dec(p)) && MaxFixAttempt(l.rows, Some(Dec(p))) == m && m >= cfg.maxFix
    ensures HandleCi(cfg, l, RunNo(k), EnvOf(k, url)).0 == Escalate(l, p, m)
  {
  }

  lemma EscalateLooks(l: Ledger, nodes: seq<Node>, p: nat, m: nat)
    requires Looks(l.rows, nodes) && p < |nodes| && Terminal(nodes[p].status) && nodes[p].parent != Some(p)
    ensures Looks(Escalate(l, p, m).rows, Marked(nodes, p))
  {
    assert LooksLike(l.rows[p], p, nodes[p]);
    var r := Escalate(l, p, m).rows;
    EscalatedRow(l, p, m, p);
    forall i | 0 <= i < |l.rows| ensures LooksLike(r[i], i, Marked(nodes, p)[i]) {
      EscalatedRow(l, p, m, i);
      MarkedLooks(l.rows, nodes, p, m, i);
    }
  }

  lemma LaterIsFresh(rows: seq<Row>, nodes: seq<Node>, k: nat)
    requires Looks(rows, nodes) && k >= |nodes|
    ensures FreshId(rows, Some(Dec(k)))
  {
    forall i | 0 <= i < |rows| ensures rows[i].devinId != Some(Dec(k)) {
      assert LooksLike(rows[i], i, nodes[i]);
      if Dec(i) == Dec(k) {
        DecInjective(i, k);
      }
    }
  }

  lemma GivesUp(cfg: Config, l: Ledger, nodes: seq<Node>, k: nat, url: string, p: nat, m: nat)
    requires Looks(l.rows, nodes) && k >= |nodes|
    requires NewestNode(nodes, url, p) && Terminal(nodes[p].status) && Top(nodes, p, m) && m >= cfg.maxFix
    requires nodes[p].parent != Some(p)
    ensures Legal(l.rows, Failure(k, url))
    ensures Looks(Next(cfg, l, Failure(k, url)).rows, Marked(nodes, p))
  {
    LaterIsFresh(l.rows, nodes, k);
    FailureReady(l.rows, nodes, url, p, m);
    FailureRaises(cfg, l, k, url, p, m);
    EscalateLooks(l, nodes, p, m);
  }

  lemma MarkedLooks(rows: seq<Row>, nodes: seq<Node>, p: nat, m: nat, i: nat)
    requires Looks(rows, nodes) && p < |rows| && i < |rows| && nodes[p].parent != Some(p)
    ensures var marked := if i == p then Apply(rows[p], EscalatePatch(m)) else rows[i];
            LooksLike(if ActiveChild(marked, rows[p].devinId) then Apply(marked, CANCEL_PATCH) else marked, i,
                      MarkedNode(nodes[i], i, p))
  {
    assert LooksLike(rows[i], i, nodes[i]) && LooksLike(rows[p], p, nodes[p]);
    if nodes[i].parent.Some? && Dec(nodes[i].parent.value) == Dec(p) {
      DecInjective(nodes[i].parent.value, p);
    }
  }

  function Exited(n: Node, url: Option<string>): Node { n.(status := Completed, pr := OrElse(url, n.pr)) }

  lemma ExitLooks(limit: int, row: Row, i: nat, n: Node, url: Option<string>)
    requires LooksLike(row, i, n) && Active(n.status)
    ensures LooksLike(PollRow(limit, row, Exits(i, url).sample), i, Exited(n, url))
  {
  }

  lemma Stops(cfg: Config, l: Ledger, nodes: seq<Node>, i: nat, url: Option<string>)
    requires Looks(l.rows, nodes) && i < |nodes| && Active(nodes[i].status)
    ensures Legal(l.rows, Exits(i, url))
    ensures Looks(Next(cfg, l, Exits(i, url)).rows, nodes[i := Exited(nodes[i], url)])
  {
    var r := Next(cfg, l, Exits(i, url)).rows;
    assert LooksLike(l.rows[i], i, nodes[i]);
    assert r == l.rows[i := PollRow(cfg.timeout, l.rows[i], Exits(i, url).sample)];
    ExitLooks(cfg.timeout, l.rows[i], i, nodes[i], url);
    forall k | 0 <= k < |r| ensures LooksLike(r[k], k, nodes[i := Exited(nodes[i], url)][k]) {
      assert LooksLike(l.rows[k], k, nodes[k]);
    }
  }

  // ---------- runs and their sketches ----------

  /** A legal run, with a sketch of each of its tables. */
  ghost predicate Shows(cfg: Config, steps: seq<Step>, views: seq<seq<Node>>) {
    && LegalRun(cfg, NOTHING, steps) && |views| == |steps| + 1
    && forall k :: 0 <= k <= |steps| ==> Looks(Tables(cfg, NOTHING, steps)[k], views[k])
  }

  lemma LastTable(cfg: Config, steps: seq<Step>, views: seq<seq<Node>>)
    requires Shows(cfg, steps, views)
    ensures Looks(Run(cfg, NOTHING, steps).rows, views[|steps|])
  {
    TableAt(cfg, NOTHING, steps, |steps|);
    assert steps[..|steps|] == steps;
  }

  lemma RunNext(cfg: Config, steps: seq<Step>, step: Step)
    ensures Run(cfg, NOTHING, steps + [step]) == Next(cfg, Run(cfg, NOTHING, steps), step)
  {
    assert (steps + [step])[..|steps|] == steps;
  }

  lemma TablesNext(cfg: Config, steps: seq<Step>, step: Step)
    ensures Tables(cfg, NOTHING, steps + [step]) ==
            Tables(cfg, NOTHING, steps) + [Run(cfg, NOTHING, steps + [step]).rows]
  {
    assert (steps + [step])[..|steps|] == steps;
  }

  lemma LegalPlus(t: seq<seq<Row>>, steps: seq<Step>, step: Step, table: seq<Row>)
    requires |t| == |steps| + 1 && (forall k :: 0 <= k < |steps| ==> Legal(t[k], steps[k])) && Legal(t[|steps|], step)
    ensures forall k :: 0 <= k < |steps| + 1 ==> Legal((t + [table])[k], (steps + [step])[k])
  {
    forall k | 0 <= k < |steps| + 1 ensures Legal((t + [table])[k], (steps + [step])[k]) {
      if k < |steps| {
        assert Legal(t[k], steps[k]);
      }
    }
  }

  lemma LegalNext(cfg: Config, steps: seq<Step>, step: Step)
    requires LegalRun(cfg, NOTHING, steps) && Legal(Run(cfg, NOTHING, steps).rows, step)
    ensures LegalRun(cfg, NOTHING, steps + [step])
  {
    TablesNext(cfg, steps, step);
    TableAt(cfg, NOTHING, steps, |steps|);
    assert steps[..|steps|] == steps;
    LegalPlus(Tables(cfg, NOTHING, steps), steps, step, Run(cfg, NOTHING, steps + [step]).rows);
  }

  lemma Goes(cfg: Config, steps: seq<Step>, views: seq<seq<Node>>, step: Step, view: seq<Node>)
    requires Shows(cfg, steps, views)
    requires Legal(Run(cfg, NOTHING, steps).rows, step)
    requires Looks(Next(cfg, Run(cfg, NOTHING, steps), step).rows, view)
    ensures Shows(cfg, steps + [step], views + [view])
  {
    var more := steps + [step];
    var t, u := Tables(cfg, NOTHING, steps), Tables(cfg, NOTHING, more);
    LegalNext(cfg, steps, step);
    RunNext(cfg, steps, step);
    TablesNext(cfg, steps, step);
    forall k | 0 <= k <= |more| ensures Looks(u[k], (views + [view])[k]) {
      if k <= |steps| {
        assert Looks(t[k], views[k]);
      }
    }
  }

  // ---------- one step of a run ----------

  /** The last sketch of a run. */
  function Now(views: seq<seq<Node>>): seq<Node>
    requires views != []
  {
    views[|views| - 1]
  }

  lemma ThenBegins(cfg: Config, steps: seq<Step>, views: seq<seq<Node>>, nodes: seq<Node>, body: string)
    requires Shows(cfg, steps, views) && nodes == Now(views) && Accepted(body)
    requires Count(nodes, LIVE) < cfg.maxConcurrent && |nodes| < cfg.maxPerDay
    ensures Shows(cfg, steps + [Begin(|nodes|, body)], views + [nodes + [Node(None, 0, Pending, None)]])
  {
    LastTable(cfg, steps, views);
    Begins(cfg, Run(cfg, NOTHING, steps), nodes, body);
    Goes(cfg, steps, views, Begin(|nodes|, body), nodes + [Node(None, 0, Pending, None)]);
  }

  lemma ThenRepairs(cfg: Config, steps: seq<Step>, views: seq<seq<Node>>, nodes: seq<Node>, url: string, p: nat, m: nat)
    requires Shows(cfg, steps, views) && nodes == Now(views) && Count(nodes, LIVE) < cfg.maxConcurrent
    requires NewestNode(nodes, url, p) && Terminal(nodes[p].status) && Top(nodes, p, m) && m < cfg.maxFix
    ensures Shows(cfg, steps + [Failure(|nodes|, url)], views + [nodes + [Node(Some(p), m + 1, Pending, None)]])
  {
    LastTable(cfg, steps, views);
    Repairs(cfg, Run(cfg, NOTHING, steps), nodes, url, p, m);
    Goes(cfg, steps, views, Failure(|nodes|, url), nodes + [Node(Some(p), m + 1, Pending, None)]);
  }

  lemma ThenGivesUp(cfg: Config, steps: seq<Step>, views: seq<seq<Node>>, nodes: seq<Node>, url: string, p: nat, m: nat)
    requires Shows(cfg, steps, views) && nodes == Now(views)
    requires NewestNode(nodes, url, p) && Terminal(nodes[p].status) && Top(nodes, p, m) && m >= cfg.maxFix
    requires nodes[p].parent != Some(p)
    ensures Shows(cfg, steps + [Failure(|nodes|, url)], views + [Marked(nodes, p)])
  {
    LastTable(cfg, steps, views);
    GivesUp(cfg, Run(cfg, NOTHING, steps), nodes, |nodes|, url, p, m);
    Goes(cfg, steps, views, Failure(|nodes|, url), Marked(nodes, p));
  }

  lemma ThenStops(cfg: Config, steps: seq<Step>, views: seq<seq<Node>>, nodes: seq<Node>, i: nat, url: Option<string>)
    requires Shows(cfg, steps, views) && nodes == Now(views) && i < |nodes| && Active(nodes[i].status)
    ensures Shows(cfg, steps + [Exits(i, url)], views + [nodes[i := Exited(nodes[i], url)]])
  {
    LastTable(cfg, steps, views);
    Stops(cfg, Run(cfg, NOTHING, steps), nodes, i, url);
    Goes(cfg, steps, views, Exits(i, url), nodes[i := Exited(nodes[i], url)]);
  }

  lemma EmptyRun(cfg: Config)
    ensures Shows(cfg, [], [[]]) && Now([[]]) == [] && Count<Node>([], LIVE) == 0
  {
  }

  /** The first session of an empty service. */
  lemma Starts(cfg: Config, body: string) returns (steps: seq<Step>, views: seq<seq<Node>>)
    requires cfg.maxConcurrent >= 1 && cfg.maxPerDay >= 1 && Accepted(body)
    ensures Shows(cfg, steps, views) && steps == [Begin(0, body)] && views == [[], [Node(None, 0, Pending, None)]]
  {
    EmptyRun(cfg);
    ThenBegins(cfg, [], [[]], [], body);
    steps, views := [Begin(0, body)], [[], [Node(None, 0, Pending, None)]];
    assert [] + [Begin(0, body)] == steps && [] + [Node(None, 0, Pending, None)] == views[1];
    assert [[]] + [views[1]] == views;
  }
}
