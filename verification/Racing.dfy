/**
 The orchestrator never races Devin on a branch: along any chain of fix sessions at most one is alive,
 as long as the sessions of one tree report one pull request.
 */
module Racing {
  import opened Base
  import opened Devin
  import opened Sessions
  import opened Handlers
  import opened Poller
  import opened Serial
  import opened FixTree

  /** A fix session that reports a pull request reports its parent's. */
  ghost predicate SamePr(rows: seq<Row>) {
    forall j, i :: IsParent(rows, j, i) && rows[i].prUrl.Some? ==> rows[i].prUrl == rows[j].prUrl
  }

  ghost predicate SamePrThroughout(cfg: Config, steps: seq<Step>) {
    forall k :: 0 <= k <= |steps| ==> SamePr(Tables(cfg, NOTHING, steps)[k])
  }

  /** While a session is alive, every fix session started for it is over and has no pull request. */
  ghost predicate Quiet(rows: seq<Row>) {
    forall j, i :: IsParent(rows, j, i) && Active(rows[j].status) ==>
      Terminal(rows[i].status) && rows[i].prUrl.None?
  }

  /** The newest session of a pull request has no child that reports it. */
  lemma NewestHasNoChild(maxFix: int, rows: seq<Row>, p: nat, url: string, i: int)
    requires Tree(maxFix, rows) && SamePr(rows) && FindByPr(rows, url) == Some(p) && IsParent(rows, p, i)
    ensures rows[i].prUrl.None?
  {
  }

  lemma AddedStaysQuiet(cfg: Config, rows: seq<Row>, row: Row, parentAt: Option<nat>)
    requires Tree(cfg.maxFix, rows) && Quiet(rows) && NewRow(rows, row) && NewJob(cfg, rows, row.job, parentAt)
    ensures Quiet(rows + [row])
  {
    var after, n := rows + [row], |rows|;
    AddedShape(cfg, rows, row, parentAt);
    forall j, i | IsParent(after, j, i) && Active(after[j].status)
      ensures Terminal(after[i].status) && after[i].prUrl.None? {
      assert j < i;
      if i < n {
        assert IsParent(rows, j, i);
      } else {
        assert IsParent(after, parentAt.value, n);
        OneParent(after, j, parentAt.value, n);
      }
    }
  }

  /** An escalation keeps the parent from being alive beside a session below it exactly if none of its
      children has a pull request of its own. */
  lemma RaisedQuietExactly(maxFix: int, l: Ledger, p: nat, attempts: nat)
    requires Tree(maxFix, l.rows) && Quiet(l.rows)
    requires p < |l.rows| && Terminal(l.rows[p].status) && l.rows[p].prUrl.Some?
    ensures Quiet(Escalate(l, p, attempts).rows) <==> forall i :: IsParent(l.rows, p, i) ==> l.rows[i].prUrl.None?
  {
    var after := Escalate(l, p, attempts).rows;
    EscalatedRow(l, p, attempts, p);
    assert !IsParent(l.rows, p, p);
    if forall i :: IsParent(l.rows, p, i) ==> l.rows[i].prUrl.None? {
      forall j, i | IsParent(after, j, i) && Active(after[j].status)
        ensures Terminal(after[i].status) && after[i].prUrl.None? {
        EscalatedRow(l, p, attempts, i);
        EscalatedRow(l, p, attempts, j);
        assert IsParent(l.rows, j, i);
        if j != p {
          assert Active(l.rows[j].status) && i != p;
        }
      }
    } else {
      var i :| IsParent(l.rows, p, i) && l.rows[i].prUrl.Some?;
      EscalatedRow(l, p, attempts, i);
      assert IsParent(after, p, i) && Active(after[p].status) && after[i].prUrl.Some?;
    }
  }

  lemma RaisedStaysQuiet(maxFix: int, l: Ledger, p: nat, url: string, attempts: nat)
    requires Tree(maxFix, l.rows) && SamePr(l.rows) && Quiet(l.rows)
    requires FindByPr(l.rows, url) == Some(p) && Terminal(l.rows[p].status)
    ensures Quiet(Escalate(l, p, attempts).rows)
  {
    RaisedQuietExactly(maxFix, l, p, attempts);
    forall i | IsParent(l.rows, p, i) ensures l.rows[i].prUrl.None? {
      NewestHasNoChild(maxFix, l.rows, p, url, i);
    }
  }

  lemma PolledStaysQuiet(maxFix: int, limit: int, rows: seq<Row>, i: nat, s: Sample)
    requires Tree(maxFix, rows) && Quiet(rows) && i < |rows| && Active(rows[i].status)
    ensures Quiet(rows[i := PollRow(limit, rows[i], s)])
  {
    var after := rows[i := PollRow(limit, rows[i], s)];
    PollKeeps(limit, rows[i], s);
    assert after[i].devinId == rows[i].devinId;
    forall j, c | IsParent(after, j, c) && Active(after[j].status)
      ensures Terminal(after[c].status) && after[c].prUrl.None? {
      assert IsParent(rows, j, c);
      assert Active(rows[j].status);
      assert c != i;
    }
  }

  lemma DoesStaysQuiet(cfg: Config, l: Ledger, ch: Change, r: Ledger)
    requires Tree(cfg.maxFix, l.rows) && SamePr(l.rows) && Quiet(l.rows) && Does(cfg, l, ch, r)
    ensures Quiet(r.rows)
  {
    match ch {
      case Unchanged =>
      case Added(row, parentAt) => AddedStaysQuiet(cfg, l.rows, row, parentAt);
      case Raised(p, url, attempts) => RaisedStaysQuiet(cfg.maxFix, l, p, url, attempts);
      case Polled(i, s) => PolledStaysQuiet(cfg.maxFix, cfg.timeout, l.rows, i, s);
    }
  }

  lemma {:induction false} QuietInvariant(cfg: Config, steps: seq<Step>)
    requires LegalRun(cfg, NOTHING, steps) && SamePrThroughout(cfg, steps)
    ensures Tree(cfg.maxFix, Run(cfg, NOTHING, steps).rows) && Quiet(Run(cfg, NOTHING, steps).rows)
  {
    TreeInvariant(cfg, steps);
    if steps == [] {
    } else {
      var init, last := steps[..|steps| - 1], steps[|steps| - 1];
      assert forall k :: 0 <= k <= |init| ==> Tables(cfg, NOTHING, init)[k] == Tables(cfg, NOTHING, steps)[k];
      LegalSplit(cfg, NOTHING, steps);
      QuietInvariant(cfg, init);
      TableAt(cfg, NOTHING, init, |init|);
      assert init[..|init|] == init;
      var l := Run(cfg, NOTHING, init);
      NextDoes(cfg, l, last);
      DoesStaysQuiet(cfg, l, ChangeOf(cfg, l, last), Run(cfg, NOTHING, steps));
    }
  }

  /** Row a is above row d: its parent, its parent's parent, and so on. */
  ghost predicate Above(maxFix: int, rows: seq<Row>, a: nat, d: nat)
    requires Tree(maxFix, rows) && d < |rows|
  {
    rows[d].job.parent.Some? &&
    (Parent(maxFix, rows, d) == a || Above(maxFix, rows, a, Parent(maxFix, rows, d)))
  }

  /** A living session has nothing but finished, childless sessions below it. */
  lemma {:induction false} LeavesBelow(maxFix: int, rows: seq<Row>, a: nat, d: nat)
    requires Tree(maxFix, rows) && Quiet(rows) && d < |rows| && Above(maxFix, rows, a, d)
    ensures a < d && (Active(rows[a].status) ==> Terminal(rows[d].status) && IsParent(rows, a, d))
  {
    var p := Parent(maxFix, rows, d);
    if p != a {
      LeavesBelow(maxFix, rows, a, p);
      assert rows[p].prUrl.Some?;
    }
  }

  /** Never racing: in every state a run can reach, of two sessions on one chain at most one is alive. */
  lemma NeverRacing(cfg: Config, steps: seq<Step>)
    requires LegalRun(cfg, NOTHING, steps) && SamePrThroughout(cfg, steps)
    ensures var rows := Run(cfg, NOTHING, steps).rows;
            Tree(cfg.maxFix, rows) &&
            forall a: nat, d: nat :: d < |rows| && Above(cfg.maxFix, rows, a, d) ==>
              a < d && !(Active(rows[a].status) && Active(rows[d].status))
  {
    var rows := Run(cfg, NOTHING, steps).rows;
    QuietInvariant(cfg, steps);
    forall a: nat, d: nat | d < |rows| && Above(cfg.maxFix, rows, a, d)
      ensures a < d && !(Active(rows[a].status) && Active(rows[d].status)) {
      LeavesBelow(cfg.maxFix, rows, a, d);
    }
  }
}
