/**
 The trees of fix sessions: how attempt numbers run along them, and how large they can grow.
 */
module FixTree {
  import opened Base
  import opened Devin
  import opened Sessions
  import opened Handlers
  import opened Poller
  import opened Serial

  ghost predicate IdsDistinct(rows: seq<Row>) {
    forall i, j :: 0 <= i < j < |rows| && rows[i].devinId.Some? ==> rows[i].devinId != rows[j].devinId
  }

  /** Row j is the session that row i was started to repair. */
  predicate IsParent(rows: seq<Row>, j: int, i: int) {
    0 <= j < |rows| && 0 <= i < |rows| && rows[i].job.parent.Some? && rows[j].devinId == rows[i].job.parent
  }

  lemma OneParent(rows: seq<Row>, j: int, k: int, i: int)
    requires IdsDistinct(rows) && IsParent(rows, j, i) && IsParent(rows, k, i)
    ensures j == k
  {
  }

  ghost predicate HasParent(rows: seq<Row>, i: int) {
    exists j :: IsParent(rows, j, i)
  }

  /** The shape every reachable sessions table has. */
  ghost predicate Tree(maxFix: int, rows: seq<Row>) {
    && IdsDistinct(rows)
    && (forall i :: 0 <= i < |rows| && rows[i].prUrl.Some? ==> rows[i].devinId.Some?)
    && (forall i :: 0 <= i < |rows| ==>
          if rows[i].job.parent.Some? then 1 <= rows[i].job.attempt <= maxFix && HasParent(rows, i)
          else rows[i].job.attempt == 0)
    && (forall i, j :: IsParent(rows, j, i) ==>
          j < i && rows[j].prUrl.Some? && rows[j].job.attempt < rows[i].job.attempt)
    && (forall i, k :: 0 <= i < k < |rows| && rows[i].job.parent.Some? && rows[k].job.parent == rows[i].job.parent ==>
          rows[i].job.attempt < rows[k].job.attempt)
  }

  /** Steps that add no row and touch no identity, id or pull request keep the shape. */
  lemma SameShape(maxFix: int, rows: seq<Row>, after: seq<Row>)
    requires Tree(maxFix, rows) && |after| == |rows|
    requires forall i :: 0 <= i < |rows| ==>
               after[i].job == rows[i].job && after[i].devinId == rows[i].devinId
               && (rows[i].prUrl.Some? ==> after[i].prUrl.Some?)
               && (after[i].prUrl.Some? ==> after[i].devinId.Some?)
    ensures Tree(maxFix, after)
  {
    forall i, j | IsParent(after, j, i) ensures IsParent(rows, j, i) {}
    forall i | 0 <= i < |rows| && rows[i].job.parent.Some? ensures HasParent(after, i) {
      var j :| IsParent(rows, j, i);
      assert IsParent(after, j, i);
    }
  }

  lemma AddedIds(rows: seq<Row>, row: Row)
    requires IdsDistinct(rows) && FreshId(rows, row.devinId)
    ensures IdsDistinct(rows + [row])
  {
  }

  lemma AddedParent(cfg: Config, rows: seq<Row>, row: Row, parentAt: Option<nat>, j: int, i: int)
    requires Tree(cfg.maxFix, rows) && NewRow(rows, row) && NewJob(cfg, rows, row.job, parentAt)
    requires IsParent(rows + [row], j, i)
    ensures j < i && j < |rows| && rows[j].prUrl.Some? && rows[j].job.attempt < (rows + [row])[i].job.attempt
  {
    var after, n := rows + [row], |rows|;
    AddedIds(rows, row);
    if i < n {
      var k :| IsParent(rows, k, i);
      assert IsParent(after, k, i);
      OneParent(after, j, k, i);
    } else {
      assert IsParent(after, parentAt.value, n);
      OneParent(after, j, parentAt.value, n);
      assert InChain(rows[j], row.job.parent);
    }
  }

  lemma AddedShape(cfg: Config, rows: seq<Row>, row: Row, parentAt: Option<nat>)
    requires Tree(cfg.maxFix, rows) && NewRow(rows, row) && NewJob(cfg, rows, row.job, parentAt)
    ensures Tree(cfg.maxFix, rows + [row])
  {
    var after, n := rows + [row], |rows|;
    AddedIds(rows, row);
    forall i | 0 <= i <= n && after[i].job.parent.Some? ensures HasParent(after, i) {
      if i < n {
        var j :| IsParent(rows, j, i);
        assert IsParent(after, j, i);
      } else {
        assert IsParent(after, parentAt.value, n);
      }
    }
    forall i, j | IsParent(after, j, i)
      ensures j < i && after[j].prUrl.Some? && after[j].job.attempt < after[i].job.attempt {
      AddedParent(cfg, rows, row, parentAt, j, i);
    }
    forall i, k | 0 <= i < k < |after| && after[i].job.parent.Some? && after[k].job.parent == after[i].job.parent
      ensures after[i].job.attempt < after[k].job.attempt {
      if k == n {
        assert InChain(rows[i], row.job.parent);
      }
    }
  }

  lemma RaisedShape(maxFix: int, l: Ledger, p: nat, attempts: nat)
    requires Tree(maxFix, l.rows) && p < |l.rows| && Terminal(l.rows[p].status)
    ensures Tree(maxFix, Escalate(l, p, attempts).rows)
  {
    var after := Escalate(l, p, attempts).rows;
    forall i | 0 <= i < |l.rows|
      ensures |after| == |l.rows| && after[i].job == l.rows[i].job && after[i].devinId == l.rows[i].devinId
      ensures after[i].prUrl == l.rows[i].prUrl {
      EscalatedRow(l, p, attempts, i);
    }
    SameShape(maxFix, l.rows, after);
  }

  lemma PolledShape(maxFix: int, limit: int, rows: seq<Row>, i: nat, s: Sample)
    requires Tree(maxFix, rows) && i < |rows|
    ensures Tree(maxFix, rows[i := PollRow(limit, rows[i], s)])
  {
    PollKeeps(limit, rows[i], s);
    PollNeedsId(limit, rows[i], s);
    SameShape(maxFix, rows, rows[i := PollRow(limit, rows[i], s)]);
  }

  lemma PollNeedsId(limit: int, row: Row, s: Sample)
    ensures PollRow(limit, row, s).devinId == row.devinId
    ensures row.devinId.None? ==> PollRow(limit, row, s).prUrl == row.prUrl
  {
  }

  lemma DoesKeepsTree(cfg: Config, l: Ledger, ch: Change, r: Ledger)
    requires Tree(cfg.maxFix, l.rows) && Does(cfg, l, ch, r)
    ensures Tree(cfg.maxFix, r.rows)
  {
    match ch {
      case Unchanged =>
      case Added(row, parentAt) => AddedShape(cfg, l.rows, row, parentAt);
      case Raised(p, _, attempts) => RaisedShape(cfg.maxFix, l, p, attempts);
      case Polled(i, s) => PolledShape(cfg.maxFix, cfg.timeout, l.rows, i, s);
    }
  }

  lemma {:induction false} TreeInvariant(cfg: Config, steps: seq<Step>)
    requires LegalRun(cfg, NOTHING, steps)
    ensures Tree(cfg.maxFix, Run(cfg, NOTHING, steps).rows)
  {
    if steps == [] {
    } else {
      var init, last := steps[..|steps| - 1], steps[|steps| - 1];
      LegalSplit(cfg, NOTHING, steps);
      TreeInvariant(cfg, init);
      NextDoes(cfg, Run(cfg, NOTHING, init), last);
      DoesKeepsTree(cfg, Run(cfg, NOTHING, init), ChangeOf(cfg, Run(cfg, NOTHING, init), last),
                    Run(cfg, NOTHING, steps));
    }
  }

  // ---------- how large a tree can be ----------

  ghost function Parent(maxFix: int, rows: seq<Row>, i: nat): (j: nat)
    requires Tree(maxFix, rows) && i < |rows| && rows[i].job.parent.Some?
    ensures j < i && IsParent(rows, j, i)
  {
    var j :| IsParent(rows, j, i);
    j
  }

  ghost function Root(maxFix: int, rows: seq<Row>, i: nat): nat
    requires Tree(maxFix, rows) && i < |rows|
  {
    if rows[i].job.parent.None? then i else Root(maxFix, rows, Parent(maxFix, rows, i))
  }

  /** The attempt numbers from the root's child down to row i. */
  ghost function Path(maxFix: int, rows: seq<Row>, i: nat): (p: set<nat>)
    requires Tree(maxFix, rows) && i < |rows|
    ensures forall a :: a in p ==> 1 <= a <= rows[i].job.attempt && a <= maxFix
    ensures rows[i].job.parent.Some? ==> rows[i].job.attempt in p
    ensures rows[i].job.parent.None? ==> p == {}
  {
    if rows[i].job.parent.None? then {}
    else Path(maxFix, rows, Parent(maxFix, rows, i)) + {rows[i].job.attempt}
  }

  /** Two rows under one root with the same attempt numbers above them are the same row. */
  lemma {:induction false} PathTellsRow(maxFix: int, rows: seq<Row>, i: nat, k: nat)
    requires Tree(maxFix, rows) && i < |rows| && k < |rows|
    requires Root(maxFix, rows, i) == Root(maxFix, rows, k) && Path(maxFix, rows, i) == Path(maxFix, rows, k)
    ensures i == k
    decreases i
  {
    if rows[i].job.parent.None? {
      assert rows[k].job.parent.Some? ==> rows[k].job.attempt in Path(maxFix, rows, k);
    } else {
      var a := rows[i].job.attempt;
      assert a in Path(maxFix, rows, k);
      assert rows[k].job.parent.Some? && rows[k].job.attempt in Path(maxFix, rows, i);
      assert rows[k].job.attempt == a;
      var p, q := Parent(maxFix, rows, i), Parent(maxFix, rows, k);
      assert Path(maxFix, rows, p) == Path(maxFix, rows, i) - {a};
      assert Path(maxFix, rows, q) == Path(maxFix, rows, k) - {a};
      PathTellsRow(maxFix, rows, p, q);
      assert rows[i].job.parent == rows[k].job.parent;
    }
  }

  function Pow2(n: nat): nat { if n == 0 then 1 else 2 * Pow2(n - 1) }

  function WithEach(half: set<set<nat>>, n: nat): set<set<nat>> {
    set s | s in half :: s + {n}
  }

  function Subsets(n: nat): set<set<nat>> {
    if n == 0 then {{}} else Subsets(n - 1) + WithEach(Subsets(n - 1), n)
  }

  lemma {:induction false} SubsetsCount(n: nat)
    ensures |Subsets(n)| <= Pow2(n)
  {
    if n == 0 {
    } else {
      SubsetsCount(n - 1);
      WithEachBound(Subsets(n - 1), n);
      UnionBound(Subsets(n - 1), WithEach(Subsets(n - 1), n));
    }
  }

  lemma {:induction false} WithEachBound(half: set<set<nat>>, n: nat)
    ensures |WithEach(half, n)| <= |half|
    decreases |half|
  {
    if half == {} {
      assert WithEach(half, n) == {};
    } else {
      var s :| s in half;
      WithEachBound(half - {s}, n);
      SubsetBound(WithEach(half, n), WithEach(half - {s}, n) + {s + {n}});
    }
  }

  lemma {:induction false} SubsetsHolds(s: set<nat>, n: nat)
    requires forall a :: a in s ==> 1 <= a <= n
    ensures s in Subsets(n)
  {
    if n == 0 {
      assert s == {};
    } else {
      SubsetsHolds(s - {n}, n - 1);
      if n in s {
        assert s == (s - {n}) + {n};
      } else {
        assert s == s - {n};
      }
    }
  }

  ghost function FixRows(maxFix: int, rows: seq<Row>, r: nat): set<nat>
    requires Tree(maxFix, rows)
  {
    set i: nat | i < |rows| && rows[i].job.parent.Some? && Root(maxFix, rows, i) == r
  }

  lemma NonEmptySubsets(n: nat)
    ensures |Subsets(n) - {{}}| <= Pow2(n) - 1
  {
    SubsetsHolds({}, n);
    SubsetsCount(n);
    assert |Subsets(n) - {{}}| == |Subsets(n)| - 1;
  }

  lemma PathIsSubset(maxFix: int, rows: seq<Row>, i: nat)
    requires Tree(maxFix, rows) && i < |rows| && rows[i].job.parent.Some?
    ensures Path(maxFix, rows, i) in Subsets(Cap(maxFix)) - {{}}
  {
    SubsetsHolds(Path(maxFix, rows, i), Cap(maxFix));
    assert rows[i].job.attempt in Path(maxFix, rows, i);
  }

  /** One root collects at most 2^MAX_FIX_ATTEMPTS - 1 fix sessions, because each is told apart by the
      non-empty set of attempt numbers on its path. */
  lemma TreeBound(maxFix: int, rows: seq<Row>, r: nat)
    requires Tree(maxFix, rows)
    ensures |FixRows(maxFix, rows, r)| <= Pow2(Cap(maxFix)) - 1
  {
    var fixes := FixRows(maxFix, rows, r);
    var m := map i | i in fixes :: Path(maxFix, rows, i);
    forall i, k | i in m && k in m && m[i] == m[k] ensures i == k {
      PathTellsRow(maxFix, rows, i, k);
    }
    forall i | i in m ensures m[i] in Subsets(Cap(maxFix)) - {{}} {
      PathIsSubset(maxFix, rows, i);
    }
    InjectionBound(m, Subsets(Cap(maxFix)) - {{}});
    assert m.Keys == fixes;
    NonEmptySubsets(Cap(maxFix));
  }

  lemma RootIsParent(maxFix: int, rows: seq<Row>, i: nat)
    requires Tree(maxFix, rows) && i < |rows| && rows[i].job.parent.Some?
    requires forall k :: 0 <= k < |rows| && rows[k].job.parent.Some? ==> rows[k].prUrl.None?
    ensures IsParent(rows, Root(maxFix, rows, i), i)
  {
    var j := Parent(maxFix, rows, i);
    assert rows[j].prUrl.Some?;
    assert Root(maxFix, rows, j) == j;
  }

  /** If no fix session ever gets a pull request of its own, a root has at most MAX_FIX_ATTEMPTS. */
  lemma FlatTreeBound(maxFix: int, rows: seq<Row>, r: nat)
    requires Tree(maxFix, rows)
    requires forall i :: 0 <= i < |rows| && rows[i].job.parent.Some? ==> rows[i].prUrl.None?
    ensures |FixRows(maxFix, rows, r)| <= Cap(maxFix)
  {
    var fixes := FixRows(maxFix, rows, r);
    var m: map<nat, nat> := map i | i in fixes :: rows[i].job.attempt - 1;
    forall i | i in fixes ensures IsParent(rows, r, i) {
      RootIsParent(maxFix, rows, i);
    }
    forall i, k | i in m && k in m && m[i] == m[k] ensures i == k {
      assert IsParent(rows, r, i) && IsParent(rows, r, k);
    }
    InjectionBound(m, m.Values);
    assert m.Keys == fixes;
    IndexSetBound(m.Values, Cap(maxFix));
  }

  /** Over every run: attempts rise strictly from parent to child and from one sibling to the next,
      stay within MAX_FIX_ATTEMPTS, and bound the tree. */
  lemma FixTreeBound(cfg: Config, steps: seq<Step>, r: nat)
    requires LegalRun(cfg, NOTHING, steps)
    ensures var rows := Run(cfg, NOTHING, steps).rows;
            && Tree(cfg.maxFix, rows)
            && |FixRows(cfg.maxFix, rows, r)| <= Pow2(Cap(cfg.maxFix)) - 1
            && ((forall i :: 0 <= i < |rows| && rows[i].job.parent.Some? ==> rows[i].prUrl.None?) ==>
                  |FixRows(cfg.maxFix, rows, r)| <= Cap(cfg.maxFix))
  {
    TreeInvariant(cfg, steps);
    var rows := Run(cfg, NOTHING, steps).rows;
    TreeBound(cfg.maxFix, rows, r);
    if forall i :: 0 <= i < |rows| && rows[i].job.parent.Some? ==> rows[i].prUrl.None? {
      FlatTreeBound(cfg.maxFix, rows, r);
    }
  }
}
