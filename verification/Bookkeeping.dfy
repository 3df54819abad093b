/**
 What the columns of a row say about its past: completion times, escalations and their comments.
 */
module Bookkeeping {
  import opened Base
  import opened Devin
  import opened Sessions
  import opened Handlers
  import opened Poller
  import opened Serial
  import opened FixTree
  import Racing

  // ---------- what one escalation logs ----------

  /** How often the pull request of row i was commented on. */
  function Comments(log: seq<Call>, i: nat): nat { multiset(log)[Comment(i)] }

  lemma {:induction false} OnlyTerminates(rows: seq<Row>, kids: seq<nat>, n: nat, c: Call)
    requires n <= |kids| && forall a :: 0 <= a < |kids| ==> kids[a] < |rows|
    ensures c in Terminations(rows, kids, n) <==>
            c.Terminate? && exists a :: 0 <= a < n && rows[kids[a]].devinId == Some(c.sid)
  {
    if n == 0 {
    } else {
      OnlyTerminates(rows, kids, n - 1, c);
    }
  }

  lemma CommentsAfter(before: seq<Call>, more: seq<Call>, p: nat, i: nat)
    requires Comment(i) !in more
    ensures Comments(before + more + [Comment(p)], i) == Comments(before, i) + if i == p then 1 else 0
  {
    assert multiset(before + more + [Comment(p)]) == multiset(before) + multiset(more) + multiset{Comment(p)};
  }

  lemma RaisedComments(l: Ledger, p: nat, attempts: nat, i: nat)
    requires p < |l.rows| && Terminal(l.rows[p].status)
    ensures Comments(Escalate(l, p, attempts).log, i) == Comments(l.log, i) + if i == p then 1 else 0
  {
    var marked := Update(l.rows, p, EscalatePatch(attempts));
    var kids := ActiveChildren(marked, l.rows[p].devinId);
    OnlyTerminates(marked, kids, |kids|, Comment(i));
    CommentsAfter(l.log, Terminations(marked, kids, |kids|), p, i);
  }

  lemma DoesComments(cfg: Config, l: Ledger, ch: Change, r: Ledger, i: nat)
    requires Does(cfg, l, ch, r)
    ensures Comments(r.log, i) == Comments(l.log, i) + if ch.Raised? && ch.p == i then 1 else 0
  {
    match ch {
      case Unchanged =>
      case Added(row, parentAt) =>
      case Raised(p, url, attempts) => RaisedComments(l, p, attempts, i);
      case Polled(j, s) =>
    }
  }

  predicate LiveChild(rows: seq<Row>, p: nat, i: nat, sid: string) {
    p < |rows| && i < |rows| && IsParent(rows, p, i) && Active(rows[i].status) && rows[i].devinId == Some(sid)
  }

  /** One terminate call for each live child of row p that has a session, and no other call. */
  ghost predicate TerminatesExactly(rows: seq<Row>, p: nat, calls: seq<Call>) {
    forall c :: multiset(calls)[c] ==
                One(c.Terminate? && exists i :: 0 <= i < |rows| && LiveChild(rows, p, i, c.sid))
  }

  lemma OnceAppended(calls: seq<Call>, last: seq<Call>, c: Call)
    requires multiset(calls)[c] == One(c in calls) && |last| <= 1 && (c in last ==> c !in calls)
    ensures multiset(calls + last)[c] == One(c in calls + last)
  {
    assert multiset(calls + last) == multiset(calls) + multiset(last);
    if last == [] {
    } else {
      assert last == [last[0]];
    }
  }

  /** Different rows have different sessions. */
  lemma LastIsNew(rows: seq<Row>, kids: seq<nat>, n: nat, c: Call)
    requires IdsDistinct(rows) && n < |kids| && forall a :: 0 <= a < |kids| ==> kids[a] < |rows|
    requires forall a, b :: 0 <= a < b < |kids| ==> kids[a] < kids[b]
    ensures c in Termination(rows[kids[n]]) ==> c !in Terminations(rows, kids, n)
  {
    OnlyTerminates(rows, kids, n, c);
    if c in Termination(rows[kids[n]]) {
      forall a | 0 <= a < n ensures rows[kids[a]].devinId != Some(c.sid) {
        assert kids[a] < kids[n];
      }
    }
  }

  /** So no call is made twice. */
  lemma {:induction false} TerminatesOnce(rows: seq<Row>, kids: seq<nat>, n: nat, c: Call)
    requires IdsDistinct(rows) && n <= |kids| && forall a :: 0 <= a < |kids| ==> kids[a] < |rows|
    requires forall a, b :: 0 <= a < b < |kids| ==> kids[a] < kids[b]
    ensures multiset(Terminations(rows, kids, n))[c] == One(c in Terminations(rows, kids, n))
  {
    if n == 0 {
    } else {
      TerminatesOnce(rows, kids, n - 1, c);
      LastIsNew(rows, kids, n - 1, c);
      OnceAppended(Terminations(rows, kids, n - 1), Termination(rows[kids[n - 1]]), c);
    }
  }

  lemma KidsAreLive(rows: seq<Row>, marked: seq<Row>, p: nat, i: nat)
    requires p < |rows| && i < |rows| && |marked| == |rows| && !IsParent(rows, p, p)
    requires marked == rows[p := marked[p]] && marked[p].job == rows[p].job
    ensures i in ActiveChildren(marked, rows[p].devinId) <==> IsParent(rows, p, i) && Active(rows[i].status)
  {
    var kids := ActiveChildren(marked, rows[p].devinId);
    assert i in kids <==> ActiveChild(marked[i], rows[p].devinId) by {
      if i in kids {
        var a :| 0 <= a < |kids| && kids[a] == i;
      }
    }
  }

  predicate KidWith(rows: seq<Row>, kids: seq<nat>, i: nat, sid: string) {
    i < |rows| && i in kids && rows[i].devinId == Some(sid)
  }

  /** The calls for a list of rows, told by the rows and not by their places in the list. */
  lemma CallsAreFor(rows: seq<Row>, kids: seq<nat>, c: Call)
    requires forall a :: 0 <= a < |kids| ==> kids[a] < |rows|
    ensures c in Terminations(rows, kids, |kids|) <==> c.Terminate? && exists i: nat :: KidWith(rows, kids, i, c.sid)
  {
    OnlyTerminates(rows, kids, |kids|, c);
    if c.Terminate? && exists a :: 0 <= a < |kids| && rows[kids[a]].devinId == Some(c.sid) {
      var a :| 0 <= a < |kids| && rows[kids[a]].devinId == Some(c.sid);
      assert KidWith(rows, kids, kids[a], c.sid);
    }
  }

  lemma KidIsLive(rows: seq<Row>, marked: seq<Row>, p: nat, kids: seq<nat>, i: nat, sid: string)
    requires p < |rows| && |marked| == |rows| && !IsParent(rows, p, p) && marked == rows[p := marked[p]]
    requires i < |rows| ==> (i in kids <==> IsParent(rows, p, i) && Active(rows[i].status))
    ensures KidWith(marked, kids, i, sid) <==> LiveChild(rows, p, i, sid)
  {
  }

  lemma CallIsForLive(rows: seq<Row>, marked: seq<Row>, p: nat, kids: seq<nat>, c: Call)
    requires p < |rows| && |marked| == |rows| && !IsParent(rows, p, p) && marked == rows[p := marked[p]]
    requires forall a :: 0 <= a < |kids| ==> kids[a] < |rows|
    requires forall i :: 0 <= i < |rows| ==> (i in kids <==> IsParent(rows, p, i) && Active(rows[i].status))
    ensures c in Terminations(marked, kids, |kids|) <==>
            c.Terminate? && exists i :: 0 <= i < |rows| && LiveChild(rows, p, i, c.sid)
  {
    CallsAreFor(marked, kids, c);
    if c.Terminate? {
      forall i: nat ensures KidWith(marked, kids, i, c.sid) <==> LiveChild(rows, p, i, c.sid) {
        KidIsLive(rows, marked, p, kids, i, c.sid);
      }
    }
  }

  lemma KidsAreIndices(rows: seq<Row>, marked: seq<Row>, p: nat, kids: seq<nat>)
    requires p < |rows| && |marked| == |rows| && !IsParent(rows, p, p)
    requires marked == rows[p := marked[p]] && marked[p].job == rows[p].job
    requires kids == ActiveChildren(marked, rows[p].devinId)
    ensures forall i :: 0 <= i < |rows| ==> (i in kids <==> IsParent(rows, p, i) && Active(rows[i].status))
  {
    forall i | 0 <= i < |rows| ensures i in kids <==> IsParent(rows, p, i) && Active(rows[i].status) {
      KidsAreLive(rows, marked, p, i);
    }
  }

  lemma CallsAreForLive(rows: seq<Row>, marked: seq<Row>, p: nat)
    requires p < |rows| && |marked| == |rows| && !IsParent(rows, p, p) && IdsDistinct(rows)
    requires marked == rows[p := marked[p]] && marked[p].job == rows[p].job && marked[p].devinId == rows[p].devinId
    ensures var kids := ActiveChildren(marked, rows[p].devinId);
            TerminatesExactly(rows, p, Terminations(marked, kids, |kids|))
  {
    var kids := ActiveChildren(marked, rows[p].devinId);
    assert IdsDistinct(marked);
    KidsAreIndices(rows, marked, p, kids);
    forall c ensures multiset(Terminations(marked, kids, |kids|))[c] ==
                     One(c.Terminate? && exists i :: 0 <= i < |rows| && LiveChild(rows, p, i, c.sid)) {
      CallIsForLive(rows, marked, p, kids, c);
      TerminatesOnce(marked, kids, |kids|, c);
    }
  }

  /** An escalation leaves no child of the session active, and terminates exactly the children that were
      active and had a Devin session. */
  lemma EscalationExact(maxFix: int, l: Ledger, p: nat, attempts: nat)
    requires Tree(maxFix, l.rows) && p < |l.rows| && Terminal(l.rows[p].status)
    ensures var r := Escalate(l, p, attempts);
            && |r.rows| == |l.rows|
            && r.rows[p] == l.rows[p].(status := NeedsAttention, error := Some(Exhausted(attempts)))
            && (forall i :: 0 <= i < |l.rows| && i != p ==>
                  r.rows[i] == if IsParent(l.rows, p, i) && Active(l.rows[i].status)
                               then l.rows[i].(status := Cancelled, error := Some(CapHitOnParent)) else l.rows[i])
            && exists calls :: TerminatesExactly(l.rows, p, calls) && r.log == l.log + calls + [Comment(p)]
  {
    var sid := l.rows[p].devinId;
    var marked := Update(l.rows, p, EscalatePatch(attempts));
    var kids := ActiveChildren(marked, sid);
    assert !IsParent(l.rows, p, p);
    CallsAreForLive(l.rows, marked, p);
    EscalatedRow(l, p, attempts, p);
    forall i | 0 <= i < |l.rows| && i != p
      ensures Escalate(l, p, attempts).rows[i] ==
              if IsParent(l.rows, p, i) && Active(l.rows[i].status)
              then l.rows[i].(status := Cancelled, error := Some(CapHitOnParent)) else l.rows[i] {
      EscalatedRow(l, p, attempts, i);
    }
    assert TerminatesExactly(l.rows, p, Terminations(marked, kids, |kids|));
  }

  // ---------- escalations and the number of active sessions ----------

  function LiveChildOf(sid: Option<string>): Row -> bool { (r: Row) => ActiveChild(r, sid) }

  lemma {:induction false} SelectedAreCounted(rows: seq<Row>, p: Row -> bool)
    ensures |Select(rows, p)| == Count(rows, p)
  {
    if rows == [] {
    } else {
      SelectedAreCounted(rows[..|rows| - 1], p);
    }
  }

  lemma {:induction false} CancelledAreCounted(rows: seq<Row>, sid: Option<string>)
    ensures CountActive(CancelChildren(rows, sid)) + Count(rows, LiveChildOf(sid)) == CountActive(rows)
  {
    if rows == [] {
    } else {
      var n := |rows| - 1;
      assert CancelChildren(rows, sid)[..n] == CancelChildren(rows[..n], sid);
      CancelledAreCounted(rows[..n], sid);
    }
  }

  /** An escalation frees the slots of the children it cancels and takes one for the parent, whatever the
      concurrency cap: with no child alive the number of active sessions goes up. */
  lemma EscalationTakesSlot(l: Ledger, p: nat, attempts: nat)
    requires p < |l.rows| && Terminal(l.rows[p].status)
    ensures var marked := Update(l.rows, p, EscalatePatch(attempts));
            CountActive(Escalate(l, p, attempts).rows) + |ActiveChildren(marked, l.rows[p].devinId)| ==
            CountActive(l.rows) + 1
  {
    var sid := l.rows[p].devinId;
    var marked := Update(l.rows, p, EscalatePatch(attempts));
    CountReplace(l.rows, p, marked[p], IS_ACTIVE);
    CancelledAreCounted(marked, sid);
    SelectedAreCounted(marked, (r: Row) => ActiveChild(r, sid));
    SameCount(marked, LiveChildOf(sid), (r: Row) => ActiveChild(r, sid));
  }

  lemma SameCount(rows: seq<Row>, p: Row -> bool, q: Row -> bool)
    requires forall r :: p(r) == q(r)
    ensures Count(rows, p) == Count(rows, q)
  {
    CountMonotone(rows, p, q);
    CountMonotone(rows, q, p);
  }

  /** An escalation does not last: after the next successful poll the session needs attention only if Devin
      itself reports a status nobody knows, and no merge or close comes with a change. */
  lemma EscalationIsNotSticky(limit: int, row: Row, attempts: nat, m: Remote, now: int)
    requires row.devinId.Some?
    ensures var marked := Apply(row, EscalatePatch(attempts));
            PollRow(limit, marked, Sample(Up(m), now)).status.NeedsAttention? <==>
            m.raw.Other? && !(Changed(marked, m) && (Merged(m) || Closed(m)))
  {
  }

  // ---------- escalations over a run ----------

  /** Row i goes from a terminal status to needs_attention. */
  predicate Revived(before: seq<Row>, after: seq<Row>, i: nat) {
    i < |before| && Terminal(before[i].status) && i < |after| && after[i].status == NeedsAttention
  }

  /** Row i goes from an active status to a terminal one. */
  predicate Ended(before: seq<Row>, after: seq<Row>, i: nat) {
    i < |before| && Active(before[i].status) && i < |after| && Terminal(after[i].status)
  }

  function Revivals(cfg: Config, steps: seq<Step>, i: nat): nat {
    if steps == [] then 0
    else
      var init := steps[..|steps| - 1];
      Revivals(cfg, init, i) +
      if Revived(Run(cfg, NOTHING, init).rows, Run(cfg, NOTHING, steps).rows, i) then 1 else 0
  }

  /** Only an escalation of the row itself changes a terminal row, and it always makes it needs_attention. */
  lemma TerminalUnlessRaised(cfg: Config, l: Ledger, ch: Change, r: Ledger, i: nat)
    requires Tree(cfg.maxFix, l.rows) && Does(cfg, l, ch, r) && i < |l.rows| && Terminal(l.rows[i].status)
    ensures i < |r.rows|
    ensures if ch.Raised? && ch.p == i then r.rows[i].status == NeedsAttention else r.rows[i] == l.rows[i]
  {
    match ch {
      case Unchanged =>
      case Added(row, parentAt) =>
      case Raised(p, url, attempts) => TerminalIfRaised(cfg.maxFix, l, p, attempts, i);
      case Polled(j, s) =>
    }
  }

  lemma TerminalIfRaised(maxFix: int, l: Ledger, p: nat, attempts: nat, i: nat)
    requires Tree(maxFix, l.rows) && p < |l.rows| && Terminal(l.rows[p].status)
    requires i < |l.rows| && Terminal(l.rows[i].status)
    ensures var r := Escalate(l, p, attempts).rows;
            i < |r| && if i == p then r[i].status == NeedsAttention else r[i] == l.rows[i]
  {
    EscalatedRow(l, p, attempts, i);
    assert !IsParent(l.rows, p, p);
  }

  /** Over every run, the comments about a row are as many as its moves from terminal to needs_attention. */
  lemma {:induction false} CommentsMatchRevivals(cfg: Config, steps: seq<Step>, i: nat)
    requires LegalRun(cfg, NOTHING, steps)
    ensures Comments(Run(cfg, NOTHING, steps).log, i) == Revivals(cfg, steps, i)
  {
    if steps == [] {
    } else {
      var init, last := steps[..|steps| - 1], steps[|steps| - 1];
      LegalSplit(cfg, NOTHING, steps);
      CommentsMatchRevivals(cfg, init, i);
      TreeInvariant(cfg, init);
      var l := Run(cfg, NOTHING, init);
      var ch, r := ChangeOf(cfg, l, last), Next(cfg, l, last);
      NextDoes(cfg, l, last);
      assert r == Run(cfg, NOTHING, steps);
      DoesComments(cfg, l, ch, r, i);
      if i < |l.rows| && Terminal(l.rows[i].status) {
        TerminalUnlessRaised(cfg, l, ch, r, i);
      }
    }
  }

  ghost predicate ParentRevived(before: seq<Row>, after: seq<Row>, i: nat) {
    exists p: nat :: IsParent(before, p, i) && Revived(before, after, p)
  }

  /** Row p can be escalated: it has ended, it is the newest session of its pull request, and its chain carries
      the last allowed attempt. */
  ghost predicate Escalatable(maxFix: int, rows: seq<Row>, p: nat) {
    && p < |rows| && Terminal(rows[p].status) && rows[p].prUrl.Some?
    && FindByPr(rows, rows[p].prUrl.value) == Some(p)
    && MaxFixAttempt(rows, rows[p].devinId) >= maxFix
  }

  /** Row i's parent can be escalated. */
  ghost predicate Endangered(maxFix: int, rows: seq<Row>, i: nat) {
    exists p: nat :: IsParent(rows, p, i) && Escalatable(maxFix, rows, p)
  }

  /** That takes a second pull request: the endangered row has none of its own, or another one than its parent. */
  lemma EndangeredReportsAnother(maxFix: int, rows: seq<Row>, p: nat, i: nat)
    requires Tree(maxFix, rows) && IsParent(rows, p, i) && Escalatable(maxFix, rows, p)
    ensures rows[i].prUrl != rows[p].prUrl
    ensures Racing.SamePr(rows) ==> rows[i].prUrl.None?
  {
    assert p < i;
  }

  lemma SamePrIsSafe(maxFix: int, rows: seq<Row>, i: nat)
    requires Tree(maxFix, rows) && Racing.SamePr(rows) && i < |rows| && rows[i].prUrl.Some?
    ensures !Endangered(maxFix, rows, i)
  {
    forall p: nat | IsParent(rows, p, i) ensures !Escalatable(maxFix, rows, p) {
      if Escalatable(maxFix, rows, p) {
        EndangeredReportsAnother(maxFix, rows, p, i);
      }
    }
  }

  lemma ActiveUnlessCaused(cfg: Config, l: Ledger, ch: Change, r: Ledger, i: nat)
    requires Tree(cfg.maxFix, l.rows) && Does(cfg, l, ch, r) && Ended(l.rows, r.rows, i)
    ensures (ch.Polled? && ch.i == i) ||
            (ch.Raised? && ParentRevived(l.rows, r.rows, i) && Endangered(cfg.maxFix, l.rows, i))
  {
    if ch.Raised? {
      EscalatedRow(l, ch.p, ch.attempts, i);
      assert IsParent(l.rows, ch.p, i);
      TerminalUnlessRaised(cfg, l, ch, r, ch.p);
      assert l.rows[ch.p].prUrl == Some(ch.url);
      assert Escalatable(cfg.maxFix, l.rows, ch.p);
    }
  }

  // ---------- which steps can end a session ----------

  /** A CI failure on the pull request of row p, with GitHub's answers. */
  function FailureOn(url: string): Step {
    CiRun(WorkflowRun(0, "", "pull_request", [Some(1)]), Env(0, None, PrFound(url, "devin/"), CommitsFailed))
  }

  lemma FailureEscalates(cfg: Config, l: Ledger, p: nat)
    requires Escalatable(cfg.maxFix, l.rows, p)
    ensures Legal(l.rows, FailureOn(l.rows[p].prUrl.value))
    ensures Next(cfg, l, FailureOn(l.rows[p].prUrl.value)) == Escalate(l, p, MaxFixAttempt(l.rows, l.rows[p].devinId))
  {
  }

  lemma FailureEnds(cfg: Config, l: Ledger, p: nat, i: nat)
    requires Tree(cfg.maxFix, l.rows) && Escalatable(cfg.maxFix, l.rows, p) && IsParent(l.rows, p, i)
    requires Active(l.rows[i].status)
    ensures var step := FailureOn(l.rows[p].prUrl.value);
            Legal(l.rows, step) && Ended(l.rows, Next(cfg, l, step).rows, i)
  {
    FailureEscalates(cfg, l, p);
    EscalatedRow(l, p, MaxFixAttempt(l.rows, l.rows[p].devinId), i);
  }

  lemma StepEndsOnlyEndangered(cfg: Config, l: Ledger, step: Step, i: nat)
    requires Tree(cfg.maxFix, l.rows) && Legal(l.rows, step) && Ended(l.rows, Next(cfg, l, step).rows, i)
    ensures (step.PollOne? && step.i == i) ||
            (step.CiRun? && ParentRevived(l.rows, Next(cfg, l, step).rows, i) && Endangered(cfg.maxFix, l.rows, i))
  {
    var ch := ChangeOf(cfg, l, step);
    NextDoes(cfg, l, step);
    assert ch.Raised? ==> step.CiRun?;
    assert ch.Polled? && ch.i == i ==> step.PollOne? && step.i == i;
    ActiveUnlessCaused(cfg, l, ch, Next(cfg, l, step), i);
  }

  ghost predicate EndedByCi(cfg: Config, l: Ledger, step: Step, i: nat) {
    step.CiRun? && Legal(l.rows, step) && Ended(l.rows, Next(cfg, l, step).rows, i)
  }

  /** Some CI failure can end an active session exactly if its parent can be escalated; in any other state only
      the session's own poll can end it. */
  lemma CiCanEndExactly(cfg: Config, l: Ledger, i: nat)
    requires Tree(cfg.maxFix, l.rows) && i < |l.rows| && Active(l.rows[i].status)
    ensures (exists step :: EndedByCi(cfg, l, step, i)) <==> Endangered(cfg.maxFix, l.rows, i)
  {
    if step :| EndedByCi(cfg, l, step, i) {
      StepEndsOnlyEndangered(cfg, l, step, i);
    }
    if p: nat :| IsParent(l.rows, p, i) && Escalatable(cfg.maxFix, l.rows, p) {
      FailureEnds(cfg, l, p, i);
      assert EndedByCi(cfg, l, FailureOn(l.rows[p].prUrl.value), i);
    }
  }

  /** A row that is active in one table and terminal in a later one was ended in between. */
  lemma {:induction false} EndedBetween(tables: seq<seq<Row>>, i: nat) returns (m: nat)
    requires |tables| > 0 && forall k :: 0 <= k < |tables| - 1 ==> Extends(tables[k], tables[k + 1])
    requires i < |tables[0]| && Active(tables[0][i].status)
    requires i < |tables[|tables| - 1]| && Terminal(tables[|tables| - 1][i].status)
    ensures m + 1 < |tables| && i < |tables[m]| && i < |tables[m + 1]|
    ensures Active(tables[m][i].status) && Terminal(tables[m + 1][i].status)
    ensures tables[0][i].prUrl.Some? ==> tables[m][i].prUrl.Some?
  {
    assert Extends(tables[0], tables[1]);
    if Terminal(tables[1][i].status) {
      m := 0;
    } else {
      m := EndedBetween(tables[1..], i);
      m := m + 1;
    }
  }

  /** What one step means for row i's escalations. */
  ghost predicate Accounted(maxFix: int, before: seq<Row>, after: seq<Row>, step: Step, i: nat) {
    && Tree(maxFix, before) && Extends(before, after)
    && (Revived(before, after, i) ==> after[i].prUrl.Some?)
    && (Ended(before, after, i) ==>
          || (step.PollOne? && step.i == i)
          || (step.CiRun? && ParentRevived(before, after, i) && Endangered(maxFix, before, i)))
  }

  /** Step k of a run, seen from its tables. */
  lemma StepAt(cfg: Config, steps: seq<Step>, k: nat)
    requires LegalRun(cfg, NOTHING, steps) && k < |steps|
    ensures var l := Run(cfg, NOTHING, steps[..k]);
            && Tables(cfg, NOTHING, steps)[k] == l.rows && Tree(cfg.maxFix, l.rows) && Legal(l.rows, steps[k])
            && Tables(cfg, NOTHING, steps)[k + 1] == Next(cfg, l, steps[k]).rows
  {
    TableAt(cfg, NOTHING, steps, k);
    TableAt(cfg, NOTHING, steps, k + 1);
    LegalPrefix(cfg, NOTHING, steps, k + 1);
    assert steps[..k + 1][..k] == steps[..k];
    TreeInvariant(cfg, steps[..k]);
  }

  lemma StepFacts(cfg: Config, steps: seq<Step>, k: nat, i: nat)
    requires LegalRun(cfg, NOTHING, steps) && k < |steps|
    ensures Accounted(cfg.maxFix, Tables(cfg, NOTHING, steps)[k], Tables(cfg, NOTHING, steps)[k + 1], steps[k], i)
  {
    StepAt(cfg, steps, k);
    NextFacts(cfg, Run(cfg, NOTHING, steps[..k]), steps[k], i);
  }

  lemma NextFacts(cfg: Config, l: Ledger, step: Step, i: nat)
    requires Tree(cfg.maxFix, l.rows) && Legal(l.rows, step)
    ensures Accounted(cfg.maxFix, l.rows, Next(cfg, l, step).rows, step, i)
  {
    var ch, r := ChangeOf(cfg, l, step), Next(cfg, l, step);
    NextDoes(cfg, l, step);
    DoesExtends(cfg, l, ch, r);
    RevivedHasPr(cfg, l, ch, r, i);
    if Ended(l.rows, r.rows, i) {
      StepEndsOnlyEndangered(cfg, l, step, i);
    }
  }

  lemma RevivedHasPr(cfg: Config, l: Ledger, ch: Change, r: Ledger, i: nat)
    requires Tree(cfg.maxFix, l.rows) && Does(cfg, l, ch, r) && Extends(l.rows, r.rows)
    ensures Revived(l.rows, r.rows, i) ==> r.rows[i].prUrl.Some?
  {
    if Revived(l.rows, r.rows, i) {
      TerminalUnlessRaised(cfg, l, ch, r, i);
      assert l.rows[ch.p].prUrl == Some(ch.url);
    }
  }

  ghost predicate AllAccounted(maxFix: int, t: seq<seq<Row>>, steps: seq<Step>, i: nat)
    requires |t| == |steps| + 1
  {
    forall k :: 0 <= k < |steps| ==> Accounted(maxFix, t[k], t[k + 1], steps[k], i)
  }

  lemma StepsAccounted(cfg: Config, steps: seq<Step>, i: nat)
    requires LegalRun(cfg, NOTHING, steps)
    ensures AllAccounted(cfg.maxFix, Tables(cfg, NOTHING, steps), steps, i)
  {
    forall k | 0 <= k < |steps|
      ensures Accounted(cfg.maxFix, Tables(cfg, NOTHING, steps)[k], Tables(cfg, NOTHING, steps)[k + 1], steps[k], i) {
      StepFacts(cfg, steps, k, i);
    }
  }

  lemma Separated(maxFix: int, t: seq<seq<Row>>, steps: seq<Step>, a: nat, b: nat, i: nat) returns (m: nat)
    requires |t| == |steps| + 1 && a < b < |steps|
    requires AllAccounted(maxFix, t, steps, i)
    requires Revived(t[a], t[a + 1], i) && Revived(t[b], t[b + 1], i)
    ensures a < m < b && Ended(t[m], t[m + 1], i) && Tree(maxFix, t[m]) && t[m][i].prUrl.Some?
    ensures || (steps[m].PollOne? && steps[m].i == i)
            || (steps[m].CiRun? && ParentRevived(t[m], t[m + 1], i) && Endangered(maxFix, t[m], i))
  {
    var part := t[a + 1..b + 1];
    forall k | 0 <= k < |part| - 1 ensures Extends(part[k], part[k + 1]) {
      assert Accounted(maxFix, t[a + 1 + k], t[a + 1 + k + 1], steps[a + 1 + k], i);
    }
    var k := EndedBetween(part, i);
    m := a + 1 + k;
    assert part[k] == t[m] && part[k + 1] == t[m + 1];
    assert Accounted(maxFix, t[a], t[a + 1], steps[a], i) && Accounted(maxFix, t[m], t[m + 1], steps[m], i);
  }

  /** Between two escalations of one session it was ended: by its own poll, or by a CI failure that escalated its
      parent, and that only from a state in which the parent could be escalated.  So it was its own poll if there
      is no such state in between, as when the sessions of a tree report one pull request. */
  lemma EscalationsAreSeparated(cfg: Config, steps: seq<Step>, a: nat, b: nat, i: nat) returns (m: nat)
    requires LegalRun(cfg, NOTHING, steps) && a < b < |steps|
    requires var t := Tables(cfg, NOTHING, steps); Revived(t[a], t[a + 1], i) && Revived(t[b], t[b + 1], i)
    ensures a < m < b && Ended(Tables(cfg, NOTHING, steps)[m], Tables(cfg, NOTHING, steps)[m + 1], i)
    ensures var t := Tables(cfg, NOTHING, steps);
            || (steps[m].PollOne? && steps[m].i == i)
            || (steps[m].CiRun? && ParentRevived(t[m], t[m + 1], i) && Endangered(cfg.maxFix, t[m], i))
    ensures Racing.SamePr(Tables(cfg, NOTHING, steps)[m]) ==> steps[m].PollOne? && steps[m].i == i
  {
    var t := Tables(cfg, NOTHING, steps);
    StepsAccounted(cfg, steps, i);
    m := Separated(cfg.maxFix, t, steps, a, b, i);
    if Racing.SamePr(t[m]) {
      SamePrIsSafe(cfg.maxFix, t[m], i);
    }
  }

  // ---------- completion times ----------

  predicate RowBooked(row: Row, commented: bool) {
    && (Terminal(row.status) ==> row.completedAt.Some? || row.error == Some(CapHitOnParent))
    && (Active(row.status) && row.completedAt.Some? ==> commented)
  }

  /** A terminal row has its completion time, unless it was cancelled with its parent; an active row with a
      completion time has been escalated. */
  ghost predicate Booked(l: Ledger) {
    forall i :: 0 <= i < |l.rows| ==> RowBooked(l.rows[i], Comment(i) in l.log)
  }

  lemma PolledBooked(limit: int, row: Row, s: Sample, commented: bool)
    requires RowBooked(row, commented)
    ensures RowBooked(PollRow(limit, row, s), commented)
  {
  }

  lemma RaisedBooked(l: Ledger, p: nat, attempts: nat, i: nat)
    requires Booked(l) && p < |l.rows| && Terminal(l.rows[p].status) && i < |l.rows|
    ensures var r := Escalate(l, p, attempts); i < |r.rows| && RowBooked(r.rows[i], Comment(i) in l.log || i == p)
  {
    assert RowBooked(l.rows[i], Comment(i) in l.log);
    EscalatedRow(l, p, attempts, i);
  }

  lemma CommentsGrow(cfg: Config, l: Ledger, ch: Change, r: Ledger, i: nat)
    requires Does(cfg, l, ch, r)
    ensures Comment(i) in r.log <==> Comment(i) in l.log || (ch.Raised? && ch.p == i)
  {
    DoesComments(cfg, l, ch, r, i);
    assert Comment(i) in l.log <==> Comment(i) in multiset(l.log);
    assert Comment(i) in r.log <==> Comment(i) in multiset(r.log);
  }

  lemma DoesStaysBooked(cfg: Config, l: Ledger, ch: Change, r: Ledger)
    requires Booked(l) && Does(cfg, l, ch, r)
    ensures Booked(r)
  {
    forall i | 0 <= i < |r.rows| ensures RowBooked(r.rows[i], Comment(i) in r.log) {
      CommentsGrow(cfg, l, ch, r, i);
      match ch {
        case Unchanged => assert RowBooked(l.rows[i], Comment(i) in l.log);
        case Added(row, parentAt) => assert i < |l.rows| ==> RowBooked(l.rows[i], Comment(i) in l.log);
        case Raised(p, url, attempts) =>
          EscalatedRow(l, p, attempts, p);
          RaisedBooked(l, p, attempts, i);
        case Polled(j, s) =>
          assert RowBooked(l.rows[i], Comment(i) in l.log);
          if i == j {
            PolledBooked(cfg.timeout, l.rows[i], s, Comment(i) in l.log);
          }
      }
    }
  }

  lemma {:induction false} BookedInvariant(cfg: Config, steps: seq<Step>)
    requires LegalRun(cfg, NOTHING, steps)
    ensures Booked(Run(cfg, NOTHING, steps))
  {
    if steps == [] {
    } else {
      var init, last := steps[..|steps| - 1], steps[|steps| - 1];
      LegalSplit(cfg, NOTHING, steps);
      BookedInvariant(cfg, init);
      var l := Run(cfg, NOTHING, init);
      NextDoes(cfg, l, last);
      DoesStaysBooked(cfg, l, ChangeOf(cfg, l, last), Run(cfg, NOTHING, steps));
    }
  }

  /** The step gives row i a completion time: it inserts the row as failed, or it is a poll that ends it. */
  predicate Stamps(before: seq<Row>, after: seq<Row>, step: Step, i: nat) {
    || (|before| <= i < |after| && Terminal(after[i].status))
    || (step.PollOne? && Ended(before, after, i))
  }

  /** The completion time of a row whose poll ends it: the time of the poll, unless the row has one and it is Devin
      itself that reports the end. */
  function PolledEnd(row: Row, m: Remote, now: int): int {
    if row.completedAt.Some? && Terminal(m.Status()) && !Merged(m) && !Closed(m) then row.completedAt.value else now
  }

  lemma PollEnds(limit: int, row: Row, s: Sample)
    requires Active(row.status) && Terminal(PollRow(limit, row, s).status)
    ensures s.reply.Up? && PollRow(limit, row, s).completedAt == Some(PolledEnd(row, s.reply.remote, s.now))
  {
  }

  /** What a step that ends a row does to its completion time: its own poll sets it, the escalation of its parent
      leaves it as it is. */
  lemma EndingTimes(cfg: Config, l: Ledger, ch: Change, r: Ledger, i: nat)
    requires Tree(cfg.maxFix, l.rows) && Does(cfg, l, ch, r) && Ended(l.rows, r.rows, i)
    ensures || (ch.Raised? && IsParent(l.rows, ch.p, i) && r.rows[i].completedAt == l.rows[i].completedAt)
            || (ch.Polled? && ch.i == i && ch.sample.reply.Up?
                && r.rows[i].completedAt == Some(PolledEnd(l.rows[i], ch.sample.reply.remote, ch.sample.now)))
  {
    if ch.Raised? {
      EscalatedRow(l, ch.p, ch.attempts, i);
    } else if ch.Polled? && ch.i == i {
      PollEnds(cfg.timeout, l.rows[i], ch.sample);
    }
  }

  /** So a row that had no completion time ends without one exactly if its parent's escalation ends it. */
  lemma EndsUntimedExactly(cfg: Config, l: Ledger, ch: Change, r: Ledger, i: nat)
    requires Tree(cfg.maxFix, l.rows) && Does(cfg, l, ch, r) && Ended(l.rows, r.rows, i)
    requires l.rows[i].completedAt.None?
    ensures r.rows[i].completedAt.None? <==> ch.Raised? && IsParent(l.rows, ch.p, i)
  {
    EndingTimes(cfg, l, ch, r, i);
  }

  lemma PollTimes(limit: int, row: Row, s: Sample)
    requires Active(row.status)
    ensures PollRow(limit, row, s).completedAt.Some? <==>
            row.completedAt.Some? || Terminal(PollRow(limit, row, s).status)
  {
  }

  lemma ChangeTimes(cfg: Config, l: Ledger, ch: Change, r: Ledger, i: nat)
    requires Does(cfg, l, ch, r)
    ensures |l.rows| <= |r.rows|
    ensures i < |r.rows| ==>
              (r.rows[i].completedAt.Some? <==>
                 || (i < |l.rows| && l.rows[i].completedAt.Some?)
                 || (i >= |l.rows| && Terminal(r.rows[i].status))
                 || (ch.Polled? && ch.i == i && Ended(l.rows, r.rows, i)))
  {
    match ch {
      case Unchanged =>
      case Added(row, parentAt) =>
      case Raised(p, url, attempts) =>
        EscalatedRow(l, p, attempts, p);
        if i < |l.rows| {
          EscalatedRow(l, p, attempts, i);
        }
      case Polled(j, s) => PollTimes(cfg.timeout, l.rows[j], s);
    }
  }

  lemma NextTimes(cfg: Config, l: Ledger, step: Step, i: nat)
    requires Tree(cfg.maxFix, l.rows) && Legal(l.rows, step)
    ensures var r := Next(cfg, l, step).rows;
            && |l.rows| <= |r|
            && (i < |r| ==> (r[i].completedAt.Some? <==>
                               (i < |l.rows| && l.rows[i].completedAt.Some?) || Stamps(l.rows, r, step, i)))
  {
    var ch, r := ChangeOf(cfg, l, step), Next(cfg, l, step);
    NextDoes(cfg, l, step);
    ChangeTimes(cfg, l, ch, r, i);
    PolledIsPoll(cfg, l, step);
    if step.PollOne? && Ended(l.rows, r.rows, i) {
      ActiveUnlessCaused(cfg, l, ch, r, i);
    }
  }

  /** One of the first n steps gave row i a completion time. */
  ghost predicate Timed(t: seq<seq<Row>>, steps: seq<Step>, n: nat, i: nat)
    requires |t| == |steps| + 1 && n <= |steps|
  {
    exists k :: 0 <= k < n && Stamps(t[k], t[k + 1], steps[k], i)
  }

  predicate Holds(t: seq<seq<Row>>, n: nat, i: nat)
    requires n < |t|
  {
    i < |t[n]| && t[n][i].completedAt.Some?
  }

  /** Step k gives row i a completion time exactly if it stamps it. */
  ghost predicate TimingAt(t: seq<seq<Row>>, steps: seq<Step>, k: nat, i: nat)
    requires |t| == |steps| + 1 && k < |steps|
  {
    Holds(t, k + 1, i) <==> Holds(t, k, i) || Stamps(t[k], t[k + 1], steps[k], i)
  }

  lemma StepTimes(cfg: Config, steps: seq<Step>, k: nat, i: nat)
    requires LegalRun(cfg, NOTHING, steps) && k < |steps|
    ensures TimingAt(Tables(cfg, NOTHING, steps), steps, k, i)
  {
    StepAt(cfg, steps, k);
    NextTimes(cfg, Run(cfg, NOTHING, steps[..k]), steps[k], i);
  }

  lemma {:induction false} TimedUpTo(t: seq<seq<Row>>, steps: seq<Step>, n: nat, i: nat)
    requires |t| == |steps| + 1 && n <= |steps| && t[0] == []
    requires forall k :: 0 <= k < n ==> TimingAt(t, steps, k, i)
    ensures Holds(t, n, i) <==> Timed(t, steps, n, i)
  {
    if n == 0 {
    } else {
      TimedUpTo(t, steps, n - 1, i);
      assert TimingAt(t, steps, n - 1, i);
    }
  }

  lemma TimedExactly(cfg: Config, steps: seq<Step>, i: nat)
    requires LegalRun(cfg, NOTHING, steps)
    ensures var t := Tables(cfg, NOTHING, steps); Holds(t, |steps|, i) <==> Timed(t, steps, |steps|, i)
  {
    var t := Tables(cfg, NOTHING, steps);
    TableAt(cfg, NOTHING, steps, 0);
    forall k | 0 <= k < |steps| ensures TimingAt(t, steps, k, i) {
      StepTimes(cfg, steps, k, i);
    }
    TimedUpTo(t, steps, |steps|, i);
  }

  /** Terminal bookkeeping, over every run: a row has a completion time exactly if it was inserted as failed or one
      of its polls ended it.  A terminal row without one was cancelled with its parent, and an active row with one
      was escalated. */
  lemma CompletionTimes(cfg: Config, steps: seq<Step>, i: nat)
    requires LegalRun(cfg, NOTHING, steps) && i < |Run(cfg, NOTHING, steps).rows|
    ensures var row := Run(cfg, NOTHING, steps).rows[i];
            && (row.completedAt.Some? <==> Timed(Tables(cfg, NOTHING, steps), steps, |steps|, i))
            && (Terminal(row.status) && row.completedAt.None? ==> row.error == Some(CapHitOnParent))
            && (Active(row.status) && row.completedAt.Some? ==> Revivals(cfg, steps, i) > 0)
  {
    BookedInvariant(cfg, steps);
    CommentsMatchRevivals(cfg, steps, i);
    var l := Run(cfg, NOTHING, steps);
    assert RowBooked(l.rows[i], Comment(i) in l.log);
    assert Comment(i) in l.log ==> Comment(i) in multiset(l.log);
    TableAt(cfg, NOTHING, steps, |steps|);
    assert steps[..|steps|] == steps;
    TimedExactly(cfg, steps, i);
  }

  // ---------- the concurrency cap, escalations aside ----------

  /** Among the first n rows, those that are active and were never escalated. */
  function Unescalated(l: Ledger, n: nat): nat
    requires n <= |l.rows|
  {
    if n == 0 then 0
    else Unescalated(l, n - 1) + if Active(l.rows[n - 1].status) && Comment(n - 1) !in l.log then 1 else 0
  }

  lemma {:induction false} UnescalatedShrinks(l: Ledger, r: Ledger, n: nat)
    requires n <= |l.rows| && n <= |r.rows|
    requires forall i :: 0 <= i < n && Active(r.rows[i].status) && Comment(i) !in r.log ==>
               Active(l.rows[i].status) && Comment(i) !in l.log
    ensures Unescalated(r, n) <= Unescalated(l, n)
  {
    if n == 0 {
    } else {
      UnescalatedShrinks(l, r, n - 1);
    }
  }

  lemma {:induction false} UnescalatedIsActive(l: Ledger, n: nat)
    requires n <= |l.rows|
    ensures Unescalated(l, n) <= CountActive(l.rows[..n])
  {
    if n == 0 {
    } else {
      UnescalatedIsActive(l, n - 1);
      assert l.rows[..n][..n - 1] == l.rows[..n - 1];
    }
  }

  /** A row that is active and unescalated after a step was so before it, if it was there. */
  lemma UnescalatedBefore(cfg: Config, l: Ledger, ch: Change, r: Ledger, i: nat)
    requires Does(cfg, l, ch, r) && i < |l.rows| && i < |r.rows|
    requires Active(r.rows[i].status) && Comment(i) !in r.log
    ensures Active(l.rows[i].status) && Comment(i) !in l.log
  {
    CommentsGrow(cfg, l, ch, r, i);
    match ch {
      case Unchanged =>
      case Added(row, parentAt) =>
      case Raised(p, url, attempts) => EscalatedRow(l, p, attempts, i);
      case Polled(j, s) =>
        if i == j {
          PollKeeps(cfg.timeout, l.rows[i], s);
        }
    }
  }

  lemma UnescalatedNext(l: Ledger, n: nat)
    requires n < |l.rows|
    ensures Unescalated(l, n + 1) <= Unescalated(l, n) + 1
  {
  }

  lemma RowsAfter(cfg: Config, l: Ledger, ch: Change, r: Ledger)
    requires Does(cfg, l, ch, r)
    ensures |r.rows| == |l.rows| + One(ch.Added?)
    ensures ch.Added? ==> CountActive(l.rows) < cfg.maxConcurrent
  {
    if ch.Raised? {
      EscalatedRow(l, ch.p, ch.attempts, ch.p);
    }
  }

  lemma OneMoreStaysCapped(limit: int, l: Ledger, r: Ledger)
    requires |r.rows| == |l.rows| + 1 && CountActive(l.rows) < limit
    requires Unescalated(r, |l.rows|) <= Unescalated(l, |l.rows|)
    ensures Unescalated(r, |r.rows|) <= Cap(limit)
  {
    UnescalatedIsActive(l, |l.rows|);
    assert l.rows[..|l.rows|] == l.rows;
    UnescalatedNext(r, |l.rows|);
  }

  lemma DoesShrinks(cfg: Config, l: Ledger, ch: Change, r: Ledger)
    requires Does(cfg, l, ch, r) && |r.rows| >= |l.rows|
    ensures Unescalated(r, |l.rows|) <= Unescalated(l, |l.rows|)
  {
    forall i | 0 <= i < |l.rows| && Active(r.rows[i].status) && Comment(i) !in r.log
      ensures Active(l.rows[i].status) && Comment(i) !in l.log {
      UnescalatedBefore(cfg, l, ch, r, i);
    }
    UnescalatedShrinks(l, r, |l.rows|);
  }

  lemma DoesStaysCapped(cfg: Config, l: Ledger, ch: Change, r: Ledger)
    requires Does(cfg, l, ch, r)
    requires Unescalated(l, |l.rows|) <= Cap(cfg.maxConcurrent)
    ensures Unescalated(r, |r.rows|) <= Cap(cfg.maxConcurrent)
  {
    RowsAfter(cfg, l, ch, r);
    DoesShrinks(cfg, l, ch, r);
    if ch.Added? {
      OneMoreStaysCapped(cfg.maxConcurrent, l, r);
    }
  }

  /** In every reachable state the active sessions that were never escalated are within the cap. */
  lemma {:induction false} UnescalatedWithinCap(cfg: Config, steps: seq<Step>)
    requires LegalRun(cfg, NOTHING, steps)
    ensures var l := Run(cfg, NOTHING, steps); Unescalated(l, |l.rows|) <= Cap(cfg.maxConcurrent)
  {
    if steps == [] {
    } else {
      var init, last := steps[..|steps| - 1], steps[|steps| - 1];
      LegalSplit(cfg, NOTHING, steps);
      UnescalatedWithinCap(cfg, init);
      var l := Run(cfg, NOTHING, init);
      NextDoes(cfg, l, last);
      DoesStaysCapped(cfg, l, ChangeOf(cfg, l, last), Run(cfg, NOTHING, steps));
    }
  }
}
