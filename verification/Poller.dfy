/**
 Polling one session row (the loop body of poll_once, app/orchestrator.py).

 `Poll` says which columns the poller writes for one answer from Devin.  `AlwaysRow` is an
 independent definition of the row a poller without the change test would leave.
 */
module Poller {
  import opened Base
  import opened Devin
  import opened Sessions

  /** What get_session gives back: an exception, or details. */
  datatype Reply = Down | Up(remote: Remote)

  datatype Sample = Sample(reply: Reply, now: int)

  /** The write and the terminate calls of one poll. */
  datatype Effect = Effect(patch: Patch, terminate: bool)

  function LastActivity(row: Row, m: Remote): int {
    if m.Clock().Some? then m.Clock().value
    else if row.lastPolled.Some? then row.lastPolled.value
    else row.job.startedAt
  }

  predicate TimesOut(limit: int, row: Row, m: Remote, now: int) {
    (m.Status().Pending? || m.Status().Running?) && now - LastActivity(row, m) > limit
  }

  predicate Changed(row: Row, m: Remote) {
    || m.Status() != row.status
    || Some(m.raw) != row.rawStatus
    || m.FirstPr() != row.prUrl
    || m.acus != row.acus
    || m.output != row.output
  }

  predicate Merged(m: Remote) { m.FirstState() == Some("merged") }

  predicate Closed(m: Remote) { m.FirstState() == Some("closed") }

  /** The poller has to stop the Devin session itself: it has been silent for too long, or its first pull request
      has been merged and the poll has something new to write. */
  predicate StopsRemote(limit: int, row: Row, s: Sample) {
    row.devinId.Some? && s.reply.Up? &&
    (TimesOut(limit, row, s.reply.remote, s.now) ||
     (Changed(row, s.reply.remote) && s.reply.remote.prs != [] && s.reply.remote.prs[0].state == Some("merged")))
  }

  /** The poll of one listed row.  `row` is the row as it was listed. */
  function Poll(limit: int, row: Row, reply: Reply, now: int): Effect {
    if row.devinId.None? || reply.Down? then Effect(NO_CHANGE, false)
    else
      var m := reply.remote;
      if TimesOut(limit, row, m, now) then
        Effect(NO_CHANGE.(status := Some(TimedOut), error := Some(Inactive(now - LastActivity(row, m))),
                         completedAt := Some(now), lastPolled := Some(now)), true)
      else if !Changed(row, m) then
        Effect(NO_CHANGE.(lastPolled := Some(now)), false)
      else
        var base := NO_CHANGE.(
          status := Some(m.Status()), rawStatus := Some(m.raw), acus := Some(m.acus),
          lastPolled := Some(now),
          prUrl := m.FirstPr(),
          prUrls := if m.prs == [] then None else Some(m.prs),
          output := m.output);
        if Merged(m) && !Terminal(row.status) then
          Effect(base.(status := Some(Completed), completedAt := Some(now)), true)
        else if Closed(m) && !Terminal(row.status) then
          Effect(base.(status := Some(Cancelled), error := Some(PrClosedWithoutMerge),
                       completedAt := Some(now)), false)
        else if Terminal(m.Status()) && row.completedAt.None? then
          Effect(base.(completedAt := Some(now)), false)
        else Effect(base, false)
  }

  function PollRow(limit: int, row: Row, s: Sample): Row {
    if Active(row.status) then Apply(row, Poll(limit, row, s.reply, s.now).patch) else row
  }

  // ---------- the poller without the change test ----------

  /** The status a poll settles on when there is no timeout: the pull request decides first. */
  function Settled(m: Remote): Status {
    if Merged(m) then Completed else if Closed(m) then Cancelled else m.Status()
  }

  function AlwaysRow(limit: int, row: Row, m: Remote, now: int): Row {
    if TimesOut(limit, row, m, now) then
      row.(status := TimedOut, error := Some(Inactive(now - LastActivity(row, m))),
           completedAt := Some(now), lastPolled := Some(now))
    else
      row.(status := Settled(m),
           rawStatus := Some(m.raw),
           acus := m.acus,
           prUrl := if m.prs == [] then row.prUrl else Some(m.prs[0].url),
           prUrls := if m.prs == [] then row.prUrls else Some(m.prs),
           output := OrElse(m.output, row.output),
           error := if Closed(m) then Some(PrClosedWithoutMerge) else row.error,
           completedAt := if Merged(m) || Closed(m) || (Terminal(m.Status()) && row.completedAt.None?)
                          then Some(now) else row.completedAt,
           lastPolled := Some(now))
  }

  function AlwaysPoll(limit: int, row: Row, s: Sample): Row {
    if Active(row.status) && row.devinId.Some? && s.reply.Up? then AlwaysRow(limit, row, s.reply.remote, s.now)
    else row
  }

  /** Equal in every column but the stored list of pull requests. */
  predicate Agree(a: Row, b: Row) {
    a == b.(prUrls := a.prUrls)
  }

  /** A merge or close that arrives while none of the five tracked columns changed. */
  predicate Missed(limit: int, row: Row, s: Sample) {
    && Active(row.status) && row.devinId.Some? && s.reply.Up?
    && !TimesOut(limit, row, s.reply.remote, s.now)
    && !Changed(row, s.reply.remote)
    && (Merged(s.reply.remote) || Closed(s.reply.remote))
  }

  lemma GatedAgreesUnlessMissed(limit: int, a: Row, b: Row, s: Sample)
    requires Agree(a, b)
    ensures Agree(PollRow(limit, a, s), AlwaysPoll(limit, b, s)) <==> !Missed(limit, a, s)
    ensures Missed(limit, a, s) ==> Active(PollRow(limit, a, s).status) && Terminal(AlwaysPoll(limit, b, s).status)
  {
  }

  /** One poll, column by column: a poll that times the session out or has something new writes what the other poller
      writes, every other successful poll writes the poll time alone, and a failed one nothing. */
  lemma PollWritesExactly(limit: int, row: Row, s: Sample)
    requires Active(row.status)
    ensures PollRow(limit, row, s) ==
            if row.devinId.None? || s.reply.Down? then row
            else if TimesOut(limit, row, s.reply.remote, s.now) || Changed(row, s.reply.remote) then
              AlwaysRow(limit, row, s.reply.remote, s.now)
            else row.(lastPolled := Some(s.now))
  {
  }

  function GatedRun(limit: int, row: Row, hist: seq<Sample>): Row {
    if hist == [] then row
    else PollRow(limit, GatedRun(limit, row, hist[..|hist| - 1]), hist[|hist| - 1])
  }

  function AlwaysRun(limit: int, row: Row, hist: seq<Sample>): Row {
    if hist == [] then row
    else AlwaysPoll(limit, AlwaysRun(limit, row, hist[..|hist| - 1]), hist[|hist| - 1])
  }

  /** The two pollers agree after every answer of the history. */
  predicate AgreeThroughout(limit: int, row: Row, hist: seq<Sample>) {
    Agree(GatedRun(limit, row, hist), AlwaysRun(limit, row, hist)) &&
    (hist != [] ==> AgreeThroughout(limit, row, hist[..|hist| - 1]))
  }

  /** At no point of the history does a merge or close slip past the change test. */
  predicate NothingMissed(limit: int, row: Row, hist: seq<Sample>) {
    hist != [] ==>
      && NothingMissed(limit, row, hist[..|hist| - 1])
      && !Missed(limit, GatedRun(limit, row, hist[..|hist| - 1]), hist[|hist| - 1])
  }

  /** Over any history of answers, writing only on a change gives the same rows as writing every
      time, if and only if no merge or close slips past the change test. */
  lemma {:induction false} GatedRefinesAlways(limit: int, row: Row, hist: seq<Sample>)
    ensures AgreeThroughout(limit, row, hist) <==> NothingMissed(limit, row, hist)
  {
    if hist == [] {
    } else {
      var init, last := hist[..|hist| - 1], hist[|hist| - 1];
      GatedRefinesAlways(limit, row, init);
      var a, b := GatedRun(limit, row, init), AlwaysRun(limit, row, init);
      if Agree(a, b) {
        GatedAgreesUnlessMissed(limit, a, b, last);
      }
    }
  }

  /** It does happen: a running session is seen with an open pull request, then with a merged one and nothing
      else changed.  The poller that writes every time completes the session, this one leaves it running. */
  lemma MergeCanBeMissed(limit: int, job: Job, sid: string, url: string, t: int)
    requires limit >= 0 && t != 0
    ensures var row := Apply(Reserved(job), ActivatePatch(sid));
            var open := Remote(RawRunning, 1.0, [PrRef(url, Some("open"))], Some(t), None);
            var merged := open.(prs := [PrRef(url, Some("merged"))]);
            var hist := [Sample(Up(open), t), Sample(Up(merged), t)];
            && Missed(limit, GatedRun(limit, row, hist[..1]), hist[1])
            && GatedRun(limit, row, hist).status == Running && AlwaysRun(limit, row, hist).status == Completed
  {
    var row := Apply(Reserved(job), ActivatePatch(sid));
    var open := Remote(RawRunning, 1.0, [PrRef(url, Some("open"))], Some(t), None);
    var merged := open.(prs := [PrRef(url, Some("merged"))]);
    var hist := [Sample(Up(open), t), Sample(Up(merged), t)];
    assert hist[..1] == [hist[0]] && [hist[0]][..0] == [] && hist[..|hist| - 1] == hist[..1];
    var once := PollRow(limit, row, hist[0]);
    assert GatedRun(limit, row, hist[..1]) == once == AlwaysRun(limit, row, hist[..1]);
    assert !Changed(once, merged) && !TimesOut(limit, once, merged, t);
  }

  // ---------- a merged pull request and the timeout ----------

  /** A merged pull request completes the session exactly if something tracked has changed and the session is not
      timed out first. */
  lemma MergeCompletesExactly(limit: int, row: Row, m: Remote, now: int)
    requires Active(row.status) && row.devinId.Some? && m.prs != [] && m.prs[0].state == Some("merged")
    ensures PollRow(limit, row, Sample(Up(m), now)).status.Completed? <==>
            !TimesOut(limit, row, m, now) && Changed(row, m)
  {
  }

  /** A pull request closed without a merge cancels the session under the same condition, and says why. */
  lemma CloseCancelsExactly(limit: int, row: Row, m: Remote, now: int)
    requires Active(row.status) && row.devinId.Some? && m.prs != [] && m.prs[0].state == Some("closed")
    ensures var r := PollRow(limit, row, Sample(Up(m), now));
            && (r.status.Cancelled? <==> !TimesOut(limit, row, m, now) && Changed(row, m))
            && (r.status.Cancelled? ==> r.error == Some(PrClosedWithoutMerge) && r.completedAt == Some(now))
  {
  }

  /** If the pull request is in no such state, Devin's status decides. */
  lemma OpenFollowsDevin(limit: int, row: Row, m: Remote, now: int)
    requires Active(row.status) && row.devinId.Some?
    requires m.prs == [] || (m.prs[0].state != Some("merged") && m.prs[0].state != Some("closed"))
    ensures var r := PollRow(limit, row, Sample(Up(m), now));
            r.status == if TimesOut(limit, row, m, now) then TimedOut else MapStatus(m.raw)
  {
  }

  /** The timeout does come first: a running session whose pull request has just been merged is timed out if
      Devin's clock stands still for longer than the limit. */
  lemma TimeoutBeatsMerge(limit: int, job: Job, sid: string, url: string, t: int, now: int)
    requires t != 0 && now - t > limit
    ensures var row := Apply(Reserved(job), ActivatePatch(sid));
            var merged := Remote(RawRunning, 1.0, [PrRef(url, Some("merged"))], Some(t), None);
            && Changed(row, merged) && PollRow(limit, row, Sample(Up(merged), now)).status.TimedOut?
            && AlwaysPoll(limit, row, Sample(Up(merged), now)).status.TimedOut?
  {
  }

  // ---------- polling twice ----------

  /** The row already holds everything the poller would copy from m, and m closes nothing. */
  predicate Copied(row: Row, m: Remote) {
    && row.status == m.Status() && row.rawStatus == Some(m.raw) && row.acus == m.acus
    && (m.prs != [] ==> row.prUrl == m.FirstPr() && row.prUrls == Some(m.prs))
    && (m.output.Some? ==> row.output == m.output)
    && !Merged(m) && !Closed(m)
  }

  lemma PollCopies(limit: int, row: Row, m: Remote, t: int)
    ensures var once := PollRow(limit, row, Sample(Up(m), t));
            Active(once.status) && once.devinId.Some? ==> !Changed(once, m) || Copied(once, m)
  {
  }

  lemma PollCopied(limit: int, once: Row, m: Remote, u: int)
    requires !TimesOut(limit, once, m, u)
    requires Active(once.status) && once.devinId.Some? ==> !Changed(once, m) || Copied(once, m)
    ensures PollRow(limit, once, Sample(Up(m), u)) ==
            once.(lastPolled := if Active(once.status) && once.devinId.Some? then Some(u) else once.lastPolled)
  {
  }

  lemma PollTwice(limit: int, row: Row, m: Remote, t: int, u: int)
    requires !TimesOut(limit, PollRow(limit, row, Sample(Up(m), t)), m, u)
    ensures var once := PollRow(limit, row, Sample(Up(m), t));
            PollRow(limit, once, Sample(Up(m), u)) ==
            once.(lastPolled := if Active(once.status) && once.devinId.Some? then Some(u) else once.lastPolled)
  {
    PollCopies(limit, row, m, t);
    PollCopied(limit, PollRow(limit, row, Sample(Up(m), t)), m, u);
  }

  /** Polling an unchanged remote any number of times leaves what polling it once left, up to the
      poll time. */
  lemma {:induction false} RepeatedPollsSettle(limit: int, row: Row, m: Remote, hist: seq<Sample>)
    requires hist != [] && forall k :: 0 <= k < |hist| ==> hist[k].reply == Up(m)
    requires forall k :: 0 < k < |hist| ==> !TimesOut(limit, GatedRun(limit, row, hist[..k]), m, hist[k].now)
    ensures var once := PollRow(limit, row, hist[0]);
            var many := GatedRun(limit, row, hist);
            many == once.(lastPolled := many.lastPolled)
  {
    var n := |hist| - 1;
    if n == 0 {
      assert hist[..0] == [];
    } else {
      var init := hist[..n];
      assert forall k :: 0 <= k <= n ==> init[..k] == hist[..k];
      RepeatedPollsSettle(limit, row, m, init);
      PollTwice(limit, if n == 1 then row else GatedRun(limit, row, hist[..n - 1]), m, hist[n - 1].now, hist[n].now);
      assert hist[..n][..n - 1] == hist[..n - 1];
    }
  }

  lemma PollKeeps(limit: int, row: Row, s: Sample)
    ensures Keeps(row, PollRow(limit, row, s))
    ensures Active(PollRow(limit, row, s).status) ==> Active(row.status)
    ensures Terminal(row.status) ==> PollRow(limit, row, s) == row
  {
  }

  // ---------- the inactivity timeout ----------

  /** When the poller last heard from the session, over a history of polls. */
  function LastContact(row: Row, hist: seq<Sample>): int {
    if hist == [] then if row.lastPolled.Some? then row.lastPolled.value else row.job.startedAt
    else if hist[|hist| - 1].reply.Up? then hist[|hist| - 1].now
    else LastContact(row, hist[..|hist| - 1])
  }

  lemma {:induction false} ContactIsStored(limit: int, row: Row, hist: seq<Sample>)
    requires row.devinId.Some?
    ensures var r := GatedRun(limit, row, hist);
            && r.job == row.job && r.devinId.Some?
            && (Active(r.status) ==>
                  Active(row.status) &&
                  LastContact(row, hist) == if r.lastPolled.Some? then r.lastPolled.value else r.job.startedAt)
  {
    if hist == [] {
    } else {
      ContactIsStored(limit, row, hist[..|hist| - 1]);
    }
  }

  /** Silence seen by a poll: against Devin's clock when it has one, else against our last contact. */
  predicate Silent(limit: int, row: Row, hist: seq<Sample>, k: nat)
    requires k < |hist|
  {
    && hist[k].reply.Up?
    && var m := hist[k].reply.remote;
       && (m.Status().Pending? || m.Status().Running?)
       && hist[k].now - (if m.Clock().Some? then m.Clock().value else LastContact(row, hist[..k])) > limit
  }

  /** At some poll of the history the session was still active and silent. */
  predicate SilentSometime(limit: int, row: Row, hist: seq<Sample>) {
    hist != [] &&
    (SilentSometime(limit, row, hist[..|hist| - 1]) ||
     (Active(GatedRun(limit, row, hist[..|hist| - 1]).status) && Silent(limit, row, hist, |hist| - 1)))
  }

  /** A watched session is timed out exactly when it is still active at some silent poll. */
  lemma {:induction false} TimesOutExactlyWhenSilent(limit: int, row: Row, hist: seq<Sample>)
    requires Active(row.status) && row.devinId.Some?
    ensures GatedRun(limit, row, hist).status.TimedOut? <==> SilentSometime(limit, row, hist)
  {
    if hist == [] {
    } else {
      TimesOutExactlyWhenSilent(limit, row, hist[..|hist| - 1]);
      ContactIsStored(limit, row, hist[..|hist| - 1]);
    }
  }

  lemma {:induction false} TerminalStays(limit: int, row: Row, hist: seq<Sample>, k: nat)
    requires k <= |hist| && Terminal(GatedRun(limit, row, hist[..k]).status)
    ensures GatedRun(limit, row, hist) == GatedRun(limit, row, hist[..k])
    decreases |hist|
  {
    if k < |hist| {
      var init := hist[..|hist| - 1];
      assert init[..k] == hist[..k];
      TerminalStays(limit, row, init, k);
    } else {
      assert hist[..k] == hist;
    }
  }

  /** A session frozen in pending or running, with a known clock, is terminal from the first
      successful poll past the limit. */
  lemma FrozenSessionEnds(limit: int, row: Row, hist: seq<Sample>, k: nat, clock: int)
    requires Active(row.status) && row.devinId.Some?
    requires k < |hist| && hist[k].reply.Up?
    requires hist[k].reply.remote.Clock() == Some(clock)
    requires hist[k].reply.remote.Status().Pending? || hist[k].reply.remote.Status().Running?
    requires hist[k].now - clock > limit
    ensures Terminal(GatedRun(limit, row, hist).status)
  {
    ContactIsStored(limit, row, hist[..k]);
    var upTo := hist[..k + 1];
    assert upTo[..k] == hist[..k];
    TerminalStays(limit, row, hist, k + 1);
  }

  /** Without a remote clock, regular successful polls never time a session out. */
  lemma RegularPollsNeverTimeOut(limit: int, row: Row, hist: seq<Sample>)
    requires Active(row.status) && row.devinId.Some?
    requires forall k :: 0 <= k < |hist| && hist[k].reply.Up? ==>
               hist[k].reply.remote.Clock().None? && hist[k].now - LastContact(row, hist[..k]) <= limit
    ensures !GatedRun(limit, row, hist).status.TimedOut?
  {
    TimesOutExactlyWhenSilent(limit, row, hist);
    RegularIsNeverSilent(limit, row, hist);
  }

  lemma {:induction false} RegularIsNeverSilent(limit: int, row: Row, hist: seq<Sample>)
    requires forall k :: 0 <= k < |hist| && hist[k].reply.Up? ==>
               hist[k].reply.remote.Clock().None? && hist[k].now - LastContact(row, hist[..k]) <= limit
    ensures !SilentSometime(limit, row, hist)
  {
    if hist == [] {
    } else {
      var init := hist[..|hist| - 1];
      assert forall k :: 0 <= k <= |init| ==> init[..k] == hist[..k];
      RegularIsNeverSilent(limit, row, init);
    }
  }
}
