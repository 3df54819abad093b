/**
 With a single slot, a tree of fix sessions on one pull request is no tree but a line: its sessions carry the attempt
 numbers one after the other, so there are at most MAX_FIX_ATTEMPTS of them.
 */
module OneSlot {
  import opened Base
  import opened Devin
  import opened Sessions
  import opened Handlers
  import opened Serial
  import opened FixTree
  import opened Racing
  import Bookkeeping

  // ---------- roots ----------

  /** The rows are still there, with their identity and their session. */
  ghost predicate SameIds(rows: seq<Row>, after: seq<Row>) {
    |rows| <= |after| &&
    forall i :: 0 <= i < |rows| ==> after[i].job == rows[i].job && after[i].devinId == rows[i].devinId
  }

  lemma {:induction false} RootStays(maxFix: int, rows: seq<Row>, after: seq<Row>, i: nat)
    requires Tree(maxFix, rows) && Tree(maxFix, after) && SameIds(rows, after) && i < |rows|
    ensures Root(maxFix, after, i) == Root(maxFix, rows, i) <= i
  {
    if rows[i].job.parent.None? {
    } else {
      var p := Parent(maxFix, rows, i);
      assert IsParent(after, p, i);
      OneParent(after, p, Parent(maxFix, after, i), i);
      RootStays(maxFix, rows, after, p);
    }
  }

  lemma RootOf(maxFix: int, rows: seq<Row>, p: nat, i: nat)
    requires Tree(maxFix, rows) && IsParent(rows, p, i)
    ensures Root(maxFix, rows, i) == Root(maxFix, rows, p)
  {
    OneParent(rows, p, Parent(maxFix, rows, i), i);
  }

  /** A session that reports a pull request reports its root's. */
  lemma {:induction false} PrIsRoots(maxFix: int, rows: seq<Row>, i: nat)
    requires Tree(maxFix, rows) && SamePr(rows) && i < |rows| && rows[i].prUrl.Some?
    ensures Root(maxFix, rows, i) < |rows| && rows[Root(maxFix, rows, i)].prUrl == rows[i].prUrl
  {
    if rows[i].job.parent.None? {
    } else {
      var p := Parent(maxFix, rows, i);
      assert IsParent(rows, p, i);
      PrIsRoots(maxFix, rows, p);
    }
  }

  // ---------- one after the other ----------

  /** Two fix sessions of one tree, the earlier with the lower attempt. */
  ghost predicate Ordered(maxFix: int, rows: seq<Row>, i: nat, k: nat)
    requires Tree(maxFix, rows) && i < k < |rows|
  {
    rows[i].job.parent.Some? && rows[k].job.parent.Some? && Root(maxFix, rows, i) == Root(maxFix, rows, k) ==>
      rows[i].job.attempt < rows[k].job.attempt
  }

  /** Over for good. */
  predicate Spent(row: Row) { Terminal(row.status) && row.prUrl.None? }

  /** Row k of the tree, started between a fix session and its parent, is over for good. */
  ghost predicate Passed(maxFix: int, rows: seq<Row>, p: nat, k: nat, q: nat)
    requires Tree(maxFix, rows) && p < k < q < |rows|
  {
    IsParent(rows, p, q) && Root(maxFix, rows, k) == Root(maxFix, rows, q) ==> Spent(rows[k])
  }

  ghost predicate InLine(maxFix: int, rows: seq<Row>)
    requires Tree(maxFix, rows)
  {
    && (forall i: nat, k: nat :: i < k < |rows| ==> Ordered(maxFix, rows, i, k))
    && (forall p: nat, k: nat, q: nat :: p < k < q < |rows| ==> Passed(maxFix, rows, p, k, q))
  }

  lemma StaysInLine(maxFix: int, rows: seq<Row>, after: seq<Row>)
    requires Tree(maxFix, rows) && Tree(maxFix, after) && SameIds(rows, after) && InLine(maxFix, rows)
    requires forall i :: 0 <= i < |rows| && Spent(rows[i]) ==> Spent(after[i])
    ensures forall i: nat, k: nat :: i < k < |rows| ==> Ordered(maxFix, after, i, k)
    ensures forall p: nat, k: nat, q: nat :: p < k < q < |rows| ==> Passed(maxFix, after, p, k, q)
  {
    forall i: nat, k: nat | i < k < |rows| ensures Ordered(maxFix, after, i, k) {
      RootStays(maxFix, rows, after, i);
      RootStays(maxFix, rows, after, k);
      assert Ordered(maxFix, rows, i, k);
    }
    forall p: nat, k: nat, q: nat | p < k < q < |rows| ensures Passed(maxFix, after, p, k, q) {
      RootStays(maxFix, rows, after, k);
      RootStays(maxFix, rows, after, q);
      assert Passed(maxFix, rows, p, k, q);
      assert IsParent(after, p, q) ==> IsParent(rows, p, q);
    }
  }

  // ---------- a fix session joins ----------

  /** No later session of the tree has a pull request, if p is the newest that reports it. */
  lemma NoneBehindNewest(maxFix: int, rows: seq<Row>, p: nat, url: string, k: nat)
    requires Tree(maxFix, rows) && SamePr(rows) && FindByPr(rows, url) == Some(p) && p < k < |rows|
    requires Root(maxFix, rows, k) == Root(maxFix, rows, p)
    ensures rows[k].prUrl.None?
  {
    PrIsRoots(maxFix, rows, p);
    if rows[k].prUrl.Some? {
      PrIsRoots(maxFix, rows, k);
      assert false;
    }
  }

  lemma PassedIsSpent(maxFix: int, rows: seq<Row>, p: nat, k: nat, q: nat)
    requires Tree(maxFix, rows) && InLine(maxFix, rows) && p < k < q < |rows| && IsParent(rows, p, q)
    requires Root(maxFix, rows, k) == Root(maxFix, rows, q)
    ensures Spent(rows[k])
  {
    assert Passed(maxFix, rows, p, k, q);
  }

  /** Every fix session of the tree behind its newest session with a pull request was started for that one. */
  lemma StartedForNewest(maxFix: int, rows: seq<Row>, p: nat, url: string, i: nat)
    requires Tree(maxFix, rows) && SamePr(rows) && InLine(maxFix, rows) && FindByPr(rows, url) == Some(p)
    requires p < i < |rows| && rows[i].job.parent.Some? && Root(maxFix, rows, i) == Root(maxFix, rows, p)
    ensures IsParent(rows, p, i)
  {
    var q := Parent(maxFix, rows, i);
    RootOf(maxFix, rows, q, i);
    assert rows[q].prUrl.Some?;
    if q < p {
      PassedIsSpent(maxFix, rows, q, p, i);
      assert false;
    } else if q > p {
      NoneBehindNewest(maxFix, rows, p, url, q);
      assert false;
    }
  }

  lemma {:induction false} RootIsBelow(maxFix: int, rows: seq<Row>, i: nat)
    requires Tree(maxFix, rows) && i < |rows|
    ensures Root(maxFix, rows, i) <= i
  {
    RootStays(maxFix, rows, rows, i);
  }

  lemma JoinsBehind(maxFix: int, rows: seq<Row>, p: nat, url: string, i: nat)
    requires Tree(maxFix, rows) && SamePr(rows) && InLine(maxFix, rows) && FindByPr(rows, url) == Some(p)
    requires i < |rows| && rows[i].job.parent.Some? && Root(maxFix, rows, i) == Root(maxFix, rows, p)
    requires rows[p].devinId.Some?
    ensures rows[i].job.attempt <= MaxFixAttempt(rows, rows[p].devinId)
  {
    assert InChain(rows[p], rows[p].devinId);
    if i > p {
      StartedForNewest(maxFix, rows, p, url, i);
      assert InChain(rows[i], rows[p].devinId);
    } else if i < p {
      RootIsBelow(maxFix, rows, i);
      assert Ordered(maxFix, rows, i, p);
    }
  }

  lemma FixJoinsLine(cfg: Config, rows: seq<Row>, row: Row, p: nat)
    requires Tree(cfg.maxFix, rows) && SamePr(rows) && InLine(cfg.maxFix, rows)
    requires NewRow(rows, row) && NewJob(cfg, rows, row.job, Some(p)) && Tree(cfg.maxFix, rows + [row])
    requires forall k :: 0 <= k < |rows| ==> Terminal(rows[k].status)
    ensures forall i: nat :: i < |rows| ==> Ordered(cfg.maxFix, rows + [row], i, |rows|)
    ensures forall j: nat, k: nat :: j < k < |rows| ==> Passed(cfg.maxFix, rows + [row], j, k, |rows|)
  {
    var after, n := rows + [row], |rows|;
    assert IsParent(after, p, n);
    RootOf(cfg.maxFix, after, p, n);
    RootStays(cfg.maxFix, rows, after, p);
    forall i: nat | i < n ensures Ordered(cfg.maxFix, after, i, n) {
      RootStays(cfg.maxFix, rows, after, i);
      if rows[i].job.parent.Some? && Root(cfg.maxFix, rows, i) == Root(cfg.maxFix, rows, p) {
        JoinsBehind(cfg.maxFix, rows, p, row.job.triggerRef, i);
      }
    }
    forall j: nat, k: nat | j < k < n ensures Passed(cfg.maxFix, after, j, k, n) {
      RootStays(cfg.maxFix, rows, after, k);
      if IsParent(after, j, n) && Root(cfg.maxFix, rows, k) == Root(cfg.maxFix, rows, p) {
        OneParent(after, j, p, n);
        NoneBehindNewest(cfg.maxFix, rows, p, row.job.triggerRef, k);
      }
    }
  }

  lemma {:induction false} NoneActive(rows: seq<Row>)
    requires CountActive(rows) == 0
    ensures forall k :: 0 <= k < |rows| ==> Terminal(rows[k].status)
  {
    forall k | 0 <= k < |rows| ensures Terminal(rows[k].status) {
      if Active(rows[k].status) {
        CountHasOne(rows, k, IS_ACTIVE);
        assert false;
      }
    }
  }

  lemma AddedStaysInLine(cfg: Config, rows: seq<Row>, row: Row, parentAt: Option<nat>)
    requires Tree(cfg.maxFix, rows) && SamePr(rows) && InLine(cfg.maxFix, rows) && CountActive(rows) == 0
    requires NewRow(rows, row) && NewJob(cfg, rows, row.job, parentAt)
    ensures Tree(cfg.maxFix, rows + [row]) && InLine(cfg.maxFix, rows + [row])
  {
    var after, n := rows + [row], |rows|;
    AddedShape(cfg, rows, row, parentAt);
    StaysInLine(cfg.maxFix, rows, after);
    NoneActive(rows);
    if parentAt.Some? {
      FixJoinsLine(cfg, rows, row, parentAt.value);
    }
    forall i: nat, k: nat | i < k < |after| ensures Ordered(cfg.maxFix, after, i, k) {
      if k == n {
        assert parentAt.Some? ==> Ordered(cfg.maxFix, after, i, n);
      }
    }
    forall p: nat, k: nat, q: nat | p < k < q < |after| ensures Passed(cfg.maxFix, after, p, k, q) {
      if q == n {
        assert parentAt.Some? ==> Passed(cfg.maxFix, after, p, k, n);
      }
    }
  }

  // ---------- every step, every run ----------

  lemma SpentStays(cfg: Config, l: Ledger, ch: Change, r: Ledger, i: nat)
    requires Tree(cfg.maxFix, l.rows) && Does(cfg, l, ch, r) && i < |l.rows| && Spent(l.rows[i])
    ensures i < |r.rows| && Spent(r.rows[i])
  {
    Bookkeeping.TerminalUnlessRaised(cfg, l, ch, r, i);
    RaisedHasPr(cfg, l, ch, r);
  }

  lemma RaisedHasPr(cfg: Config, l: Ledger, ch: Change, r: Ledger)
    requires Does(cfg, l, ch, r)
    ensures ch.Raised? ==> l.rows[ch.p].prUrl.Some?
  {
  }

  lemma KeepsIds(cfg: Config, l: Ledger, ch: Change, r: Ledger)
    requires Does(cfg, l, ch, r)
    ensures SameIds(l.rows, r.rows)
  {
    if ch.Raised? {
      forall i | 0 <= i < |l.rows|
        ensures |r.rows| == |l.rows| && r.rows[i].job == l.rows[i].job && r.rows[i].devinId == l.rows[i].devinId {
        EscalatedRow(l, ch.p, ch.attempts, i);
      }
      EscalatedRow(l, ch.p, ch.attempts, ch.p);
    }
  }

  lemma SameRowsStayInLine(cfg: Config, l: Ledger, ch: Change, r: Ledger)
    requires Tree(cfg.maxFix, l.rows) && InLine(cfg.maxFix, l.rows) && Does(cfg, l, ch, r) && !ch.Added?
    ensures Tree(cfg.maxFix, r.rows) && InLine(cfg.maxFix, r.rows)
  {
    DoesKeepsTree(cfg, l, ch, r);
    KeepsIds(cfg, l, ch, r);
    Bookkeeping.RowsAfter(cfg, l, ch, r);
    forall i | 0 <= i < |l.rows| && Spent(l.rows[i]) ensures Spent(r.rows[i]) {
      SpentStays(cfg, l, ch, r, i);
    }
    StaysInLine(cfg.maxFix, l.rows, r.rows);
  }

  lemma DoesStaysInLine(cfg: Config, l: Ledger, ch: Change, r: Ledger)
    requires Tree(cfg.maxFix, l.rows) && SamePr(l.rows) && InLine(cfg.maxFix, l.rows) && Does(cfg, l, ch, r)
    requires cfg.maxConcurrent <= 1
    ensures Tree(cfg.maxFix, r.rows) && InLine(cfg.maxFix, r.rows)
  {
    if ch.Added? {
      AddedStaysInLine(cfg, l.rows, ch.row, ch.parentAt);
    } else {
      SameRowsStayInLine(cfg, l, ch, r);
    }
  }

  lemma {:induction false} InLineInvariant(cfg: Config, steps: seq<Step>)
    requires LegalRun(cfg, NOTHING, steps) && SamePrThroughout(cfg, steps) && cfg.maxConcurrent <= 1
    ensures Tree(cfg.maxFix, Run(cfg, NOTHING, steps).rows) && InLine(cfg.maxFix, Run(cfg, NOTHING, steps).rows)
  {
    if steps == [] {
    } else {
      var init, last := steps[..|steps| - 1], steps[|steps| - 1];
      assert forall k :: 0 <= k <= |init| ==> Tables(cfg, NOTHING, init)[k] == Tables(cfg, NOTHING, steps)[k];
      LegalSplit(cfg, NOTHING, steps);
      InLineInvariant(cfg, init);
      TableAt(cfg, NOTHING, init, |init|);
      assert init[..|init|] == init;
      var l := Run(cfg, NOTHING, init);
      NextDoes(cfg, l, last);
      DoesStaysInLine(cfg, l, ChangeOf(cfg, l, last), Run(cfg, NOTHING, steps));
    }
  }

  lemma LineBound(maxFix: int, rows: seq<Row>, r: nat)
    requires Tree(maxFix, rows) && InLine(maxFix, rows)
    ensures |FixRows(maxFix, rows, r)| <= Cap(maxFix)
  {
    var fixes := FixRows(maxFix, rows, r);
    var m: map<nat, nat> := map i | i in fixes :: rows[i].job.attempt - 1;
    forall i, k | i in m && k in m && m[i] == m[k] ensures i == k {
      assert i < k ==> Ordered(maxFix, rows, i, k);
      assert k < i ==> Ordered(maxFix, rows, k, i);
    }
    InjectionBound(m, m.Values);
    assert m.Keys == fixes;
    IndexSetBound(m.Values, Cap(maxFix));
  }

  /** With one slot and one pull request per tree, over every run: one root collects at most MAX_FIX_ATTEMPTS fix
      sessions, and they carry rising attempts. */
  lemma OneSlotTreeBound(cfg: Config, steps: seq<Step>, r: nat)
    requires LegalRun(cfg, NOTHING, steps) && SamePrThroughout(cfg, steps) && cfg.maxConcurrent <= 1
    ensures var rows := Run(cfg, NOTHING, steps).rows;
            && Tree(cfg.maxFix, rows) && |FixRows(cfg.maxFix, rows, r)| <= Cap(cfg.maxFix)
            && forall i: nat, k: nat ::
                 i in FixRows(cfg.maxFix, rows, r) && k in FixRows(cfg.maxFix, rows, r) && i < k ==>
                   rows[i].job.attempt < rows[k].job.attempt
  {
    InLineInvariant(cfg, steps);
    var rows := Run(cfg, NOTHING, steps).rows;
    LineBound(cfg.maxFix, rows, r);
    forall i: nat, k: nat | i in FixRows(cfg.maxFix, rows, r) && k in FixRows(cfg.maxFix, rows, r) && i < k
      ensures rows[i].job.attempt < rows[k].job.attempt {
      assert Ordered(cfg.maxFix, rows, i, k);
    }
  }
}
