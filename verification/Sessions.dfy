/**
 The sessions table (app/db/sessions.py): one row per unit of work handed to Devin.

 The table is a sequence in insertion order.  Rows are never deleted, so a row's position
 plays the part of its primary key, and the newest row matching a query is the one with
 the largest position (`started_at` is taken to grow with every insertion).
 */
module Sessions {
  import opened Base
  import opened Devin

  datatype Kind = CveIssue | CiFailure

  datatype Reason =
    | NotACveIssue
    | MissingFields(names: seq<string>)
    | CreateFailed
    | CapHitOnParent
    | Exhausted(attempts: nat)
    | Inactive(seconds: int)
    | PrClosedWithoutMerge

  /** The columns fixed at insertion. */
  datatype Job = Job(
    workKey: string,
    kind: Kind,
    triggerRef: string,
    issueNumber: int,
    labelName: string,
    parent: Option<string>,
    attempt: nat,
    startedAt: int)

  datatype Row = Row(
    job: Job,
    status: Status,
    devinId: Option<string>,
    rawStatus: Option<Raw>,
    prUrl: Option<string>,
    prUrls: Option<seq<PrRef>>,
    acus: real,
    completedAt: Option<int>,
    lastPolled: Option<int>,
    error: Option<Reason>,
    output: Option<string>)

  /** A row as the reservation INSERT leaves it. */
  function Reserved(job: Job): Row {
    Row(job, Reserving, None, None, None, None, 0.0, None, None, None, None)
  }

  /** The keyword arguments of one `update` call: a column that is absent is left alone, and
      no caller ever writes a null. */
  datatype Patch = Patch(
    status: Option<Status>,
    devinId: Option<string>,
    rawStatus: Option<Raw>,
    prUrl: Option<string>,
    prUrls: Option<seq<PrRef>>,
    acus: Option<real>,
    completedAt: Option<int>,
    lastPolled: Option<int>,
    error: Option<Reason>,
    output: Option<string>)

  const NO_CHANGE := Patch(None, None, None, None, None, None, None, None, None, None)

  function Apply(row: Row, p: Patch): Row {
    Row(row.job,
        if p.status.Some? then p.status.value else row.status,
        OrElse(p.devinId, row.devinId),
        OrElse(p.rawStatus, row.rawStatus),
        OrElse(p.prUrl, row.prUrl),
        OrElse(p.prUrls, row.prUrls),
        if p.acus.Some? then p.acus.value else row.acus,
        OrElse(p.completedAt, row.completedAt),
        OrElse(p.lastPolled, row.lastPolled),
        OrElse(p.error, row.error),
        OrElse(p.output, row.output))
  }

  function Update(rows: seq<Row>, pk: nat, p: Patch): seq<Row> {
    if pk < |rows| then rows[pk := Apply(rows[pk], p)] else rows
  }

  /** Two writes to one row as one: the later one wins where both name a column. */
  function Merge(p: Patch, q: Patch): Patch {
    Patch(OrElse(q.status, p.status), OrElse(q.devinId, p.devinId), OrElse(q.rawStatus, p.rawStatus),
          OrElse(q.prUrl, p.prUrl), OrElse(q.prUrls, p.prUrls), OrElse(q.acus, p.acus),
          OrElse(q.completedAt, p.completedAt), OrElse(q.lastPolled, p.lastPolled), OrElse(q.error, p.error),
          OrElse(q.output, p.output))
  }

  /** Two updates of one row leave what their merged columns leave in one. */
  lemma UpdateMerges(rows: seq<Row>, pk: nat, p: Patch, q: Patch)
    ensures Update(Update(rows, pk, p), pk, q) == Update(rows, pk, Merge(p, q))
  {
    if pk < |rows| {
      assert Apply(Apply(rows[pk], p), q) == Apply(rows[pk], Merge(p, q));
    }
  }

  /** Updates of different rows do not see each other. */
  lemma UpdatesCommute(rows: seq<Row>, a: nat, p: Patch, b: nat, q: Patch)
    requires a != b
    ensures Update(Update(rows, a, p), b, q) == Update(Update(rows, b, q), a, p)
    ensures b < |rows| ==> Update(rows, a, p)[b] == rows[b]
  {
    if a < |rows| && b < |rows| {
      var x, y := Apply(rows[a], p), Apply(rows[b], q);
      assert rows[a := x][b := y] == rows[b := y][a := x];
    }
  }

  function FailPatch(reason: Reason, now: int): Patch {
    NO_CHANGE.(status := Some(Failed), error := Some(reason), completedAt := Some(now))
  }

  function ActivatePatch(sid: string): Patch {
    NO_CHANGE.(devinId := Some(sid), status := Some(Pending))
  }

  const CANCEL_PATCH := NO_CHANGE.(status := Some(Cancelled), error := Some(CapHitOnParent))

  function EscalatePatch(attempts: nat): Patch {
    NO_CHANGE.(status := Some(NeedsAttention), error := Some(Exhausted(attempts)))
  }

  // ---------- queries ----------

  predicate KeyTaken(rows: seq<Row>, key: string) {
    exists i :: 0 <= i < |rows| && rows[i].job.workKey == key
  }

  const IS_ACTIVE: Row -> bool := (r: Row) => Active(r.status)

  function CountActive(rows: seq<Row>): nat {
    Count(rows, IS_ACTIVE)
  }

  function Day(t: int): int { t / 86400 }

  function StartedOn(day: int): Row -> bool {
    (r: Row) => Day(r.job.startedAt) == day
  }

  function CountStartedOn(rows: seq<Row>, day: int): nat {
    Count(rows, StartedOn(day))
  }

  /** The rows started in a stretch of time. */
  function StartedBetween(rows: seq<Row>, start: int, end: int): set<nat> {
    set i: nat | i < |rows| && start <= rows[i].job.startedAt < end
  }

  /** What is counted for a day is the rows started in its 86400 seconds. */
  lemma CountsOneDay(rows: seq<Row>, day: int)
    ensures CountStartedOn(rows, day) == |StartedBetween(rows, 86400 * day, 86400 * (day + 1))|
  {
    CountIsSize(rows, StartedOn(day));
    assert Places(rows, StartedOn(day)) == StartedBetween(rows, 86400 * day, 86400 * (day + 1));
  }

  /** Today's rows are those started since midnight, and before the next one. */
  lemma CountsToday(rows: seq<Row>, now: int)
    ensures CountStartedOn(rows, Day(now)) == |StartedBetween(rows, now - now % 86400, now - now % 86400 + 86400)|
  {
    CountsOneDay(rows, Day(now));
    assert now - now % 86400 == 86400 * Day(now);
  }

  /** The newest row holding this pull request. */
  function FindByPr(rows: seq<Row>, url: string): (r: Option<nat>)
    ensures r.Some? ==> r.value < |rows| && rows[r.value].prUrl == Some(url)
    ensures r.Some? ==> forall j :: r.value < j < |rows| ==> rows[j].prUrl != Some(url)
    ensures r.None? ==> forall j :: 0 <= j < |rows| ==> rows[j].prUrl != Some(url)
  {
    if rows == [] then None
    else if rows[|rows| - 1].prUrl == Some(url) then Some(|rows| - 1)
    else FindByPr(rows[..|rows| - 1], url)
  }

  predicate InChain(row: Row, sid: Option<string>) {
    sid.Some? && (row.devinId == sid || row.job.parent == sid)
  }

  /** Highest attempt number over a session and its direct children (0 if there are none). */
  function MaxFixAttempt(rows: seq<Row>, sid: Option<string>): (m: nat)
    ensures forall i :: 0 <= i < |rows| && InChain(rows[i], sid) ==> rows[i].job.attempt <= m
    ensures m > 0 ==> exists i :: 0 <= i < |rows| && InChain(rows[i], sid) && rows[i].job.attempt == m
  {
    if rows == [] then 0
    else
      var n := |rows| - 1;
      var m := MaxFixAttempt(rows[..n], sid);
      if InChain(rows[n], sid) && rows[n].job.attempt > m then rows[n].job.attempt else m
  }

  predicate ActiveChild(row: Row, sid: Option<string>) {
    sid.Some? && row.job.parent == sid && Active(row.status)
  }

  /** Positions, in ascending order, of the rows a query selects. */
  function Select(rows: seq<Row>, p: Row -> bool): (r: seq<nat>)
    ensures forall a :: 0 <= a < |r| ==> r[a] < |rows| && p(rows[r[a]])
    ensures forall i :: 0 <= i < |rows| && p(rows[i]) ==> i in r
    ensures forall a, b :: 0 <= a < b < |r| ==> r[a] < r[b]
  {
    if rows == [] then []
    else
      var n := |rows| - 1;
      assert rows[..n] + [rows[n]] == rows;
      Select(rows[..n], p) + if p(rows[n]) then [n] else []
  }

  function ActiveChildren(rows: seq<Row>, sid: Option<string>): seq<nat> {
    Select(rows, (r: Row) => ActiveChild(r, sid))
  }

  function ListNonTerminal(rows: seq<Row>): seq<nat> {
    Select(rows, (r: Row) => Active(r.status))
  }

  /** Marking an active row failed frees its slot for good and keeps its work key taken. */
  lemma FailureFreesSlot(rows: seq<Row>, pk: nat, reason: Reason, now: int)
    requires pk < |rows| && Active(rows[pk].status)
    ensures var r := Update(rows, pk, FailPatch(reason, now));
            && Terminal(r[pk].status) && r[pk].error == Some(reason) && r[pk].completedAt == Some(now)
            && CountActive(r) == CountActive(rows) - 1
            && forall key :: KeyTaken(r, key) <==> KeyTaken(rows, key)
  {
    var r := Update(rows, pk, FailPatch(reason, now));
    CountReplace(rows, pk, r[pk], IS_ACTIVE);
    assert forall i :: 0 <= i < |rows| ==> r[i].job == rows[i].job;
    forall key | KeyTaken(rows, key) ensures KeyTaken(r, key) {
      var i :| 0 <= i < |rows| && rows[i].job.workKey == key;
      assert r[i].job.workKey == key;
    }
  }

  // ---------- what every step does to the table ----------

  /** Identity is fixed, and no column that was set goes back to null. */
  predicate Keeps(before: Row, after: Row) {
    && after.job == before.job
    && (before.devinId.Some? ==> after.devinId.Some?)
    && (before.prUrl.Some? ==> after.prUrl.Some?)
    && (before.output.Some? ==> after.output.Some?)
    && (before.completedAt.Some? ==> after.completedAt.Some?)
    && (before.lastPolled.Some? ==> after.lastPolled.Some?)
  }

  ghost predicate Extends(before: seq<Row>, after: seq<Row>) {
    && |before| <= |after|
    && forall i :: 0 <= i < |before| ==> Keeps(before[i], after[i])
  }

  /** The newest-first answer really is the row with the latest start time, once start times
      grow with insertion. */
  lemma {:induction false} FindByPrIsLatest(rows: seq<Row>, url: string, i: nat)
    requires forall a, b :: 0 <= a < b < |rows| ==> rows[a].job.startedAt < rows[b].job.startedAt
    requires i < |rows| && rows[i].prUrl == Some(url)
    ensures FindByPr(rows, url).Some?
    ensures rows[i].job.startedAt <= rows[FindByPr(rows, url).value].job.startedAt
  {
    var f := FindByPr(rows, url);
    assert f.Some? && i <= f.value;
  }
}
