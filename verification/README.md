# Devin maintenance orchestrator: a verified model

The orchestrator turns GitHub webhooks into paid Devin sessions, watches them until they end, starts fix
sessions when their pull requests fail in CI, and hands over to a human when the fixes run out. This project
models that control plane in Dafny and proves what it guarantees. `dafny verify dfyconfig.toml` checks it all.

## How it is laid out

| module | what it models |
|---|---|
| `Base` | options, counting, a few facts about finite sets |
| `Devin`, `Sessions` | what Devin reports and how it is translated; the sessions table and its queries |
| `Poller` | the poll of one session row, and histories of polls |
| `WorkKeys`, `Migration` | work keys as strings, and the backfill of missing ones |
| `IssueBody`, `BodyLines`, `LineFacts` | the issue body and the pattern that parses it; the pattern told as a reader of lines |
| `Summaries`, `Filing` | the round trip of a body, whatever its summary is; the script that files issues |
| `Handlers`, `Spending`, `Decisions` | specification functions of the handlers, when they spend, and what they decide, told from tables and payload alone |
| `Dispatcher`, `Queue` | the router, the delivery log and its drain |
| `Orchestrator` | the service as a class over its two tables, every method proved to compute its specification function |
| `Serial`, `FixTree`, `Racing`, `Bookkeeping`, `Timeouts` | runs in which a handler call or the poll of a row is one step, and what they keep |
| `Scenarios`, `Escalations`, `FullTree`, `OwnPrs` | runs built step by step, to show where a guarantee ends and that a bound is reached |
| `OneSlot` | trees of fix sessions when only one session may run at a time |
| `Endings` | which endings of a session the service brings about itself, and its calls for them |
| `Service`, `Refinement`, `QueueRuns` | the queue's guarantees for the real dispatcher; service runs as serial runs; a run in which an issue waits |
| `Threads`, `ThreadAttempts`, `ThreadCaps`, `ThreadSpending`, `ThreadFinal` | handlers and poller interleaved at every database call |
| `ThreadSolo`, `ThreadRuns` | the serial layer found again in the interleaved one, call by call and over whole runs |

The state is the sessions table, the delivery log and a log of outside calls (sessions created, sessions
terminated, comments posted). The table is a sequence in insertion order; rows are never deleted, so a row's
position is its primary key. There are two layers over one row type. In the serial layer a handler call is one
step. In the interleaved layer every database call is one step of its own, any number of handlers are in
flight, and the poller writes from rows it listed earlier. `ThreadSolo` proves that a handler or poll nobody
interrupts does in the second layer what it does in the first, `ThreadRuns` that every serial run in the order of its
times is therefore an interleaved run, and `Refinement` that every run of webhooks, deliveries and ticks is a serial
run, so the serial theorems hold of the service.

## Assumptions about the surroundings

- Devin never hands out a session id twice (`Serial.Legal`, `Threads.Legal`).
- Start times and receipt times grow with insertion; the SQL breaks no ties. `Sessions.FindByPrIsLatest` is the
  place where the order of start times is used. The clock does not run backwards where days are counted.
- The tables are not emptied and deliveries are not replayed by hand (`/admin/reset`, `/admin/replay`).
- The process does not stop between a reservation and its activation. A dispatch may raise, before it has done
  anything (`Queue.Attempt`).
- What GitHub and Devin answer is arbitrary: it comes in through `Env`, `Sample` and `Tracker`, and may be a
  failure.

## Where the code differs from its prose

The model follows the code. These are the differences, each with the member that states what the code does.

- An escalated parent becomes `needs_attention`, which is an active status. The concurrency cap can be passed
  that way: `Bookkeeping.EscalationTakesSlot` gives the balance and `Escalations.CapIsPassed` a run, so the cap is
  proved for sessions no escalation has touched. The next successful poll writes Devin's status back over the
  mark (`Bookkeeping.EscalationIsNotSticky`).
- A merge or close that comes with no other change is not seen, because the pull request's state is not
  compared. `Poller.GatedRefinesAlways` says exactly when the gated poller is right, `Poller.MergeCanBeMissed`
  gives a history on which it is not.
- A merged pull request does not complete the session whatever Devin's status says, as app/orchestrator.py:178-182 has
  it: an inactivity timeout is decided first. `Poller.MergeCompletesExactly` says when the merge decides,
  `Poller.TimeoutBeatsMerge` gives an input on which it does not. An escalation does not restart the timeout's clock
  (`Timeouts.RevivedSessionTimesOut`, and `Escalations.EscalatedThenTimedOut` for a run).
- The fix cap counts per parent session and not per pull request: a fix session with a pull request of its own
  becomes the next parent. One root collects at most 2^MAX_FIX_ATTEMPTS - 1 fix sessions (`FixTree.TreeBound`). For
  every cap there is a run on a single pull request that reaches this bound, with 2^MAX_FIX_ATTEMPTS + 1 slots
  (`FullTree.BoundIsReached`), and one with a single slot, on a pull request for each session
  (`OwnPrs.OneSlotReachesBound`). With a single slot and a single pull request the cap does hold
  (`OneSlot.OneSlotTreeBound`).
- A child that is cancelled with its parent gets no new completion time. Of a row that has none, exactly those endings
  write none (`Bookkeeping.EndsUntimedExactly`), and `Escalations.CancelledWithoutTime` is a run that leaves a terminal
  row without any. `Bookkeeping.CompletionTimes` says for every run which rows have one.
- A terminal status is not final under races: the poll of a row that was listed while its session was alive can
  write an active status back over the row its parent's escalation has cancelled. `ThreadFinal.StalePollExactly` says
  when, `ThreadFinal.CancelledChildRunsOn` is a run; rows no escalation has touched are final
  (`ThreadFinal.UntouchedIsFinal`).
- That the orchestrator never races Devin on a branch needs one pull request per tree: with two,
  `Escalations.TwoPrsRace` leaves a parent and its child alive side by side.
- CI failures over the concurrency cap are dropped, only security issues are queued (`Dispatcher.QueuedExactly`).
- Two escalations of one session need not be separated by its own poll: `Escalations.ParentEndsChild` is a run in
  which the escalation of its parent ended it. `Bookkeeping.CiCanEndExactly` says in which states that can happen;
  with one pull request per tree it never does (`Bookkeeping.EscalationsAreSeparated`).
- A summary is read back only if the ink of its first 300 characters is on one line
  (`Summaries.SummarySurvivesExactly`): blank, it is read as the heading that follows it. A further line can override
  the fields printed above, the fix version included (`Summaries.SummaryForgesVersion`);
  `Summaries.FieldsSurviveExactly` says when none is, by the lines of the summary alone.
- The migration can leave two equal keys if a label looks like a `:dup:` suffix, even on a table without any key
  (`Migration.SquattingHappens`, `Migration.LabelSquats`; `Migration.BackfillUniqueExactly` says exactly when).
  Labels and repositories free of `:dup:` are not enough, since behind a repository name with a colon the label
  `dup:7` completes one (`Migration.ShortLabelSquats`); the condition used is on the label behind its colon.
- An issue counts as filed if the first hit whose title contains the CVE id has a URL (`Filing.TrackedExactly`),
  so the issue of a longer id masks every id that begins it (`Filing.LongerIdMasks`).

## Model

| member | source | states |
|---|---|---|
| Devin.MapStatus | app/devin/types.py:11-30 | exactly exit, error and suspended are terminal, every other word stays active, and exactly the unknown words need attention |
| Devin.MapsWords | app/devin/types.py:11-30 | each of the seven words has the status written down for it, and any other word needs attention |
| Devin.RawKeepsWord | app/devin/types.py:67-79 | no two words are stored as the same raw status, so a change of the word is seen as a change |
| Devin.ActiveOrTerminal | app/db/sessions.py:22-26 | every status is active or terminal and none is both, by the two lists |
| Devin.ReadsResponse | app/devin/types.py:67-89 | an absent or empty status needs attention, absent costs are zero, an absent or zero clock is none, the output is taken over |
| Devin.KeepsLinkedInOrder | app/devin/types.py:70-74 | the pull requests kept are exactly the entries with a non-empty URL, each once, with their states and in their order |
| Devin.FirstPrSkipsUnlinked | app/devin/types.py:63-74 | the first pull request is the first entry that has a URL, with that entry's state |
| Base.CountIsSize | app/db/sessions.py:162-175 | the counting queries count the rows that satisfy their condition |
| Sessions.CountsOneDay | app/db/sessions.py:172-175 | the rows counted for a day are those whose start lies in its 86400 seconds |
| Sessions.FindByPr | app/db/sessions.py:178-185 | the answer holds the pull request, nothing newer does, and there is none only if no row does |
| Sessions.FindByPrIsLatest | app/db/sessions.py:178-185 | with increasing start times the answer is the row that started last |
| Sessions.MaxFixAttempt | app/db/sessions.py:201-216 | an upper bound of the attempts in the chain that is reached unless it is zero |
| Sessions.Select | app/db/sessions.py:152-198 | exactly the rows that satisfy the condition, once each, in insertion order |
| Sessions.UpdateMerges | app/db/sessions.py:115-123 | two updates of a row leave what their merged columns leave in one, the later column winning |
| Sessions.UpdatesCommute | app/db/sessions.py:115-123 | updates of different rows do not see each other |
| Sessions.FailureFreesSlot | app/db/sessions.py:126-128 | marking an active row failed ends it with its reason and time, frees one slot and keeps its key taken |
| Poller.GatedAgreesUnlessMissed | app/orchestrator.py:145-205 | one poll that writes only on a change equals one that always writes, if and only if no merge or close is missed |
| Poller.GatedRefinesAlways | app/orchestrator.py:145-205 | the same over any history of answers, as an equivalence |
| Poller.MergeCanBeMissed | app/orchestrator.py:153-205 | a history of two answers after which the always-writing poller has completed the session and this one has it running |
| Poller.PollWritesExactly | app/orchestrator.py:98-205 | a poll column by column: all columns on a timeout or a change, the poll time alone otherwise, nothing if Devin does not answer |
| Poller.MergeCompletesExactly | app/orchestrator.py:117-197 | a merged pull request completes an active session if and only if the poll does not time it out and something tracked has changed |
| Poller.CloseCancelsExactly | app/orchestrator.py:117-201 | a pull request whose state is closed cancels an active session, with its reason and time, if and only if the poll does not time it out and something tracked has changed |
| Poller.OpenFollowsDevin | app/orchestrator.py:117-205 | with the pull request in any other state the row ends with the status Devin's word stands for, unless it times out |
| Poller.TimeoutBeatsMerge | app/orchestrator.py:117-145 | a running session whose pull request is merged, with Devin's clock standing still past the limit, is timed out |
| Poller.PollTwice | app/orchestrator.py:145-205 | polling an unchanged remote again changes only the poll time |
| Poller.RepeatedPollsSettle | app/orchestrator.py:145-205 | polling an unchanged remote any number of times leaves what the first poll left, up to the poll time |
| Poller.PollKeeps | app/orchestrator.py:98-205 | a poll keeps identity, nulls nothing, never revives a row and leaves terminal rows alone |
| Poller.ContactIsStored | app/orchestrator.py:127-129 | the stored poll time of an active row is the time of the last answer, over any history |
| Poller.TimesOutExactlyWhenSilent | app/orchestrator.py:117-145 | a watched session times out if and only if a poll found it active and silent for longer than the limit |
| Poller.TerminalStays | app/orchestrator.py:98-98 | no later poll changes a row once it is terminal |
| Poller.FrozenSessionEnds | app/orchestrator.py:117-145 | a session frozen in pending or running with a known clock is terminal from the first successful poll past the limit |
| Poller.RegularPollsNeverTimeOut | app/orchestrator.py:127-145 | without a remote clock, successful polls no further apart than the limit never time a session out |
| Handlers.PollStops | app/orchestrator.py:117-196 | a poll terminates its own session if and only if it times it out, or its pull request is merged and something tracked has changed; no other poll makes a call |
| WorkKeys.WorkKeyInjective | app/db/sessions.py:67-74 | colon-free repositories: equal issue keys mean the same repository, number and label |
| WorkKeys.CiFixKeyInjective | app/db/sessions.py:77-81 | equal CI-fix keys mean the same repository and run, for any repository name |
| WorkKeys.KeyFamiliesDisjoint | app/db/connection.py:92-95 | issue, CI-fix and legacy keys never meet |
| WorkKeys.KeyShapes | app/db/sessions.py:67-81 | both kinds of key, spelled out |
| WorkKeys.MatchesSpelling | app/db/connection.py:83-91 | however a text spells an issue at its front, owner, name and all its digits are matched |
| WorkKeys.MatchIsSpelled | app/db/connection.py:83-91 | only a text that spells an issue is matched |
| WorkKeys.SearchIsLeftmost | app/db/connection.py:83-91 | the search gives the leftmost match, and none if and only if there is none |
| WorkKeys.SearchFindsIssue | app/db/connection.py:83-91 | searching an issue's URL gives back its repository and number, through the decimal numeral |
| Migration.CanonicalKeyIs | app/db/connection.py:83-95 | the canonical key of a row, spelled out: repository from the URL, number from the column before the URL, its own id if URL or label is missing |
| Migration.AssignKeys | app/db/connection.py:66-107 | the loop with its growing set of keys leaves the specified table, for any naming rule |
| Migration.BackfillMissingWorkKeys | app/db/connection.py:51-107 | the same for the canonical keys |
| Migration.BackfillAssigns | app/db/connection.py:83-107 | which key each row ends with: its old key, its canonical key, or its suffixed key if the canonical one was taken by its turn |
| Migration.RestartSafe | app/db/connection.py:66-107 | stopping after any row and starting over ends in the same table, and a second run changes nothing |
| Migration.BackfillUniqueExactly | app/db/connection.py:66-107 | every row gets a key, and keys are distinct if and only if no row's suffixed key is squatted |
| Migration.BackfillUnique | app/db/connection.py:58-62 | without labels or old keys that end as a suffix, all keys are present and distinct |
| Migration.CanonicalDupComesFromLabel | app/db/connection.py:92-95 | a canonical key can end as a suffix only through its label |
| Migration.OldestWins | app/db/connection.py:66-70 | a canonical key nobody holds goes to the row with the lowest id that computes it, unless that row's own label ends as the suffix of an earlier one |
| Migration.LabelSquats | app/db/connection.py:97-105 | any three rows of one issue, none with a key: a label ending as the suffix of the last row leaves two equal keys |
| Migration.ShortLabelSquats | app/db/connection.py:83-105 | the same with a label of dup: and the id, behind a repository name with a colon |
| Migration.SquattingHappens | app/db/connection.py:97-105 | so there is a table without any key on which the unique index cannot be built |
| Migration.BackfillAgreesWithHandler | app/db/connection.py:83-95 | an uncollided migrated row of an issue carries the key a handler computes for that issue |
| IssueBody.ShapedMatches | app/prompts/cve.py:59-59 | every such text matches, however it is divided, and the name group is its name |
| IssueBody.MatchIsShaped | app/prompts/cve.py:59-59 | only a text of whitespace, dash, whitespace, two stars, a name of letters and blanks, a colon, two stars and something behind them matches |
| IssueBody.FieldLineMatches | app/prompts/cve.py:59-59 | on a printed field line the pattern reaches the value with the printed name |
| IssueBody.MatchValueReads | app/prompts/cve.py:59-59 | the value group is the first inked line behind the name, stripped |
| IssueBody.SpacesAre | app/prompts/cve.py:59-59 | the whitespace of the pattern and of strip, character by character |
| IssueBody.ParsesExactly | app/prompts/cve.py:62-88 | of each field name the last one found counts, a missing severity is UNKNOWN, other missing fields are empty, and there is no finding if and only if id or package comes out empty |
| IssueBody.Missing | app/prompts/cve.py:30-48 | nothing is missing if and only if id and versions are no placeholders and package and URL are present |
| IssueBody.MissingExactly | app/prompts/cve.py:37-48 | the names reported are exactly those of the unusable fields, in the order of the five checks |
| IssueBody.PlaceholdersAre | app/prompts/cve.py:16-45 | a field is a placeholder if and only if it is empty or one of four words, however capitalised |
| IssueBody.MissingRequiredFields | app/prompts/cve.py:30-48 | the step-by-step list is the specified one, so exactly the unusable fields in order |
| BodyLines.ScanReadsLines | app/prompts/cve.py:59-71 | on every text that ends in ink, what the multi-line pattern finds, backtracking and crossing line breaks, is what a reader of its inked lines finds |
| Summaries.BodyReads | superset-fork-scripts/file_issues.py:64-83 | whatever the summary is, a printed body is read as the five fields followed by what the text from the summary on holds |
| Summaries.ParsedByLines | app/prompts/cve.py:51-88 | the body of every filed finding parses, and each field is the last one found on the summary's further lines, or else the finding's own; the summary likewise, or else its first inked line |
| Summaries.ScanBodyExactly | superset-fork-scripts/file_issues.py:64-83 | scanning a printed body finds exactly the six fields, in order, if and only if the ink of the first 300 characters of the summary is on one line |
| Summaries.RoundTripExactly | superset-fork-scripts/file_issues.py:64-83 | under the same condition, and only then, parsing the body gives back every field of the finding, stripped |
| Summaries.SummarySurvivesExactly | superset-fork-scripts/file_issues.py:71-71 | the parser returns the stripped first 300 characters of the summary if and only if they hold ink, all of it on one line |
| Summaries.EmptySummaryReads | superset-fork-scripts/file_issues.py:71-71 | a finding without a summary is printed and read back with the words for that |
| Summaries.FieldsSurviveExactly | app/prompts/cve.py:59-88 | the five fields survive the round trip if and only if a reader of the summary's further lines finds nothing that overrides one of them |
| Summaries.OneLineIsUnforged | app/prompts/cve.py:59-88 | a summary whose ink fits on one line overrides nothing |
| Summaries.InertLinesAreUnforged | app/prompts/cve.py:59-88 | neither does one whose further lines are no list items; its first line is the summary |
| Summaries.SummaryForgesVersion | app/prompts/cve.py:71-82 | any finding that names a fix version on a second line of its summary is read with that version |
| Summaries.FiledIssueIsComplete | app/prompts/cve.py:30-88 | a printed finding whose fields survive parses, and is complete if and only if its id and versions are no placeholders |
| Filing.CollapseAliases | superset-fork-scripts/file_issues.py:110-118 | the loop keeps the first finding of each CVE, in order |
| Filing.CollapsedKeepsFirsts | superset-fork-scripts/file_issues.py:110-118 | the findings kept are exactly the first of each CVE, in the order of the list |
| Filing.FileAll | superset-fork-scripts/file_issues.py:100-143 | exactly the entries due are sent in order, filed counts those whose creation gave a URL, and every unique finding is counted once as skipped, filed or failed |
| Filing.SentExactly | superset-fork-scripts/file_issues.py:100-137 | the findings sent are exactly the first fixable entry of each untracked CVE, once each, in the order of the scan |
| Filing.ContainsExactly | superset-fork-scripts/file_issues.py:51-54 | the containment test holds if and only if the title is the id with some text before and behind it |
| Filing.TitleIs | superset-fork-scripts/file_issues.py:60-63 | the title of an issue, spelled out |
| Filing.OneIssuePerCve | superset-fork-scripts/file_issues.py:105-137 | a CVE is sent if and only if it has a fixable finding and no issue, and never twice |
| Filing.FiledOnce | superset-fork-scripts/file_issues.py:33-63 | a later run whose search returns the issue files nothing for that CVE |
| Filing.TrackedExactly | superset-fork-scripts/file_issues.py:33-55 | a CVE counts as tracked if and only if the search worked and the first hit whose title contains it has a URL |
| Filing.LongerIdMasks | superset-fork-scripts/file_issues.py:52-54 | if the issue of a longer id is the first such hit, the shorter id is tracked if and only if that issue has a URL, and then is not filed |
| Dispatcher.RoutedExactly | app/dispatcher.py:16-50 | exactly the gated security issues and the failed runs reach a handler, each its own, with their payload |
| Dispatcher.AnsweredExactly | app/dispatcher.py:16-50 | every other event is answered at once, with the reason that applies first |
| Dispatcher.QueuedExactly | app/dispatcher.py:16-50 | an event is queued if and only if it is a gated security issue and no slot is free, and then nothing changes |
| Dispatcher.SecurityAddsAtMostOne | app/handlers.py:110-176 | a security issue takes at most one slot |
| Spending.SecuritySpendsExactly | app/handlers.py:110-164 | a security issue is paid for if and only if a slot is free, fewer sessions than the daily limit were started since midnight, its key is new and its body parses to a complete finding |
| Spending.FiledFindingIsPaidFor | app/handlers.py:110-164 | an issue the filing script wrote for a finding with real versions, whose summary forges nothing, is paid for if and only if a slot is free, the day since midnight has room and its key is new |
| Spending.CiSpendsExactly | app/handlers.py:187-315 | a CI failure is paid for if and only if it is on a Devin branch without human commits, the newest session of its pull request has ended below the attempt cap, a slot is free and the run is new |
| Decisions.NewIssueDecides | app/handlers.py:110-176 | with room in both limits and a new key: the answer, the log and every column of the new row, for a body that is no finding, lacks fields, or is complete, whether Devin answers or not |
| Decisions.OtherIssueDecides | app/handlers.py:110-137 | otherwise nothing changes, and the answer is queued without a slot, else skipped for a full day, else skipped as reserved |
| Decisions.OtherRunDecides | app/handlers.py:187-222 | a run that is not on a numbered pull request of a Devin branch changes nothing and is answered with the first reason that applies |
| Decisions.UntrackedDecides | app/handlers.py:224-229 | nor does one on a pull request no session holds |
| Decisions.TrackedRunDecides | app/handlers.py:227-330 | on a tracked pull request the newest session decides: still active, escalated at the cap, human commits, no slot, a known run, or a fix session with that session as parent and the next attempt, column by column |
| Queue.QueueInvariant | app/db/webhook_events.py:10-30 | over every run deliveries stay distinct and only queueable events wait |
| Queue.ReceiveExact | app/db/webhook_events.py:10-21 | a new id is recorded at the end of the log as not yet run, a known one changes nothing |
| Queue.RecordsFirstReceipts | app/routes/webhook.py:51-58 | over every run the log of deliveries is exactly the first receipts of their ids, in order, each with the event that came with it |
| Queue.ReceivedIsRecorded | app/routes/webhook.py:51-58 | so every webhook of a run has its delivery in the log |
| Queue.ProcessExact | app/routes/webhook.py:21-29 | the background task stores what the dispatch of that event answers at that ledger, an error if it raises, and touches no other delivery |
| Queue.ProcessedOnce | app/routes/webhook.py:53-57 | a delivery that has run is not run again by its webhook |
| Queue.StepMovesForward | app/routes/webhook.py:21-58 | a step moves a delivery only from not run to a result, or from waiting to settled, and never changes id or event |
| Queue.NothingLost | app/db/webhook_events.py:10-49 | over every run no delivery disappears and a settled one is never touched again |
| Queue.RetriesAnswer | app/orchestrator.py:67-82 | whatever the attempts, a listed delivery ends with the answer of its own dispatch at the ledger the retries before it left, or as it was after a crash or a renewed queued answer |
| Queue.FullMeansNoDrain | app/orchestrator.py:61-63 | without a free slot a drain does nothing |
| Queue.DrainExact | app/orchestrator.py:61-83 | whatever the attempts, a drain takes exactly the oldest deliveries that fit the free slots; each whose attempt does not crash is settled with the answer of its own dispatch at the ledger the ones before it left, the others are as they were, the final ledger is that of those dispatches, and the cap holds |
| Queue.DrainTakesTheFront | app/orchestrator.py:65-82 | without a crash the queue left over is the old one without its front, in order |
| Queue.TickExact | app/orchestrator.py:86-205 | a tick drains and then polls every row as the drain left it, once each with its own answer, and logs exactly the terminations due, in row order |
| Queue.AheadShrinks | app/orchestrator.py:61-83 | unsettled deliveries up to a waiting one never grow in number and strictly drop on a tick that finds a slot and whose first retry does not crash |
| Queue.NoStarvation | app/orchestrator.py:61-83 | the delivery at position e is settled before e + 1 such ticks have passed, whatever else arrives |
| Service.FrontIsPolite | app/dispatcher.py:27-41 | the real dispatcher queues only security issues and with a free slot takes at most that slot |
| Service.ServiceDrains | app/orchestrator.py:61-83 | drain exactness with the real dispatcher, answers included, in every reachable state of the service |
| Service.ServiceQueueShrinks | app/orchestrator.py:65-82 | without a crash the queue of the service loses exactly its front |
| Service.WaitsExactly | app/handlers.py:116-120 | in every reachable state the first dispatch of a delivery leaves it waiting if and only if it is a gated security issue and no slot is free, and then changes nothing else |
| Service.ServiceStarvesNothing | app/orchestrator.py:61-83 | no starvation in every run of the service |
| Service.MigratedIssueIsNotRepeated | app/handlers.py:129-137 | whatever the service has done since the migration, a webhook for an issue whose row was migrated without collision changes nothing |
| Orchestrator.Database.TryReserve | app/db/sessions.py:84-112 | a new reserving row at the end, unless the key is taken, and then no change |
| Orchestrator.Database.MarkFailed | app/db/sessions.py:126-128 | an active row ends with its reason, its slot is free again and its key stays taken |
| Orchestrator.Database.HandleSecurityIssue | app/handlers.py:110-180 | tables, log and answer are those of the specification function, and Devin is paid if and only if slot, day, key and body allow it |
| Orchestrator.Database.EscalateToHuman | app/handlers.py:25-69 | tables and log are those of the specified escalation |
| Orchestrator.Database.TerminateChildren | app/handlers.py:49-60 | the loop over the listed children cancels exactly those and logs their terminations in order |
| Orchestrator.Database.HandleCiFailure | app/handlers.py:187-330 | tables, log and answer are those of the specification function, guard by guard, and Devin is paid under the exact condition for it |
| Orchestrator.Database.RepairTracked | app/handlers.py:231-330 | the guards from the parent's status on, likewise |
| Orchestrator.Database.DispatchEvent | app/dispatcher.py:16-50 | the event reaches the handler the routing gives, or is answered |
| Orchestrator.Database.RecordDelivery | app/db/webhook_events.py:10-21 | the delivery is appended, not yet run, if no delivery has its id, and nothing changes if one has |
| Orchestrator.Database.SetResult | app/db/webhook_events.py:24-30 | every delivery with that id carries the result and keeps its event, every other delivery is as it was |
| Orchestrator.Database.ProcessInBackground | app/routes/webhook.py:21-29 | the tables are those of the dispatch, and every delivery with that id holds its answer, or the error of a raised dispatch |
| Orchestrator.Database.DrainQueue | app/orchestrator.py:49-83 | the loop over the listed deliveries leaves the state of which drain exactness is proved |
| Orchestrator.Database.RetryDelivery | app/orchestrator.py:67-82 | the tables are those of the dispatch, and the delivery holds its answer unless that is queued again; a crash changes nothing |
| Orchestrator.Database.PollListed | app/orchestrator.py:98-205 | the branches over a dictionary of updates write the polled row, and terminate the session exactly when the poll has to stop it |
| Orchestrator.Database.PollTables | app/orchestrator.py:95-205 | the loop over the listed rows polls every row once, as it was listed, and logs exactly the terminations due |
| Orchestrator.Database.PollOnce | app/orchestrator.py:86-213 | one tick drains first and then polls |
| Serial.NextDoes | app/handlers.py:110-330 | every step of a serial run is one of four changes, with the facts the guards have established |
| Serial.RunExtends | app/db/sessions.py:30-35 | over every serial run rows stay, identity is fixed, nothing goes back to null, the log only grows |
| FixTree.TreeInvariant | app/handlers.py:246-278 | in every reachable state ids are distinct, parents are older and have a pull request, and attempts rise from parent to child and among siblings within the maximum |
| FixTree.PathTellsRow | app/handlers.py:246-278 | a fix session is determined by its root and the attempt numbers on its path |
| FixTree.TreeBound | app/db/sessions.py:178-216 | one root collects at most 2^MAX_FIX_ATTEMPTS - 1 fix sessions |
| FixTree.FlatTreeBound | app/db/sessions.py:201-216 | at most MAX_FIX_ATTEMPTS if no fix session gains a pull request |
| FixTree.FixTreeBound | app/handlers.py:246-278 | all of this over every serial run |
| FullTree.BoundIsReached | app/handlers.py:246-278 | for every attempt cap a legal run on one pull request, with 2^MAX_FIX_ATTEMPTS + 1 slots, in which one root collects 2^MAX_FIX_ATTEMPTS - 1 fix sessions |
| FullTree.CapIsPerParent | app/db/sessions.py:178-216 | with two allowed attempts, a legal run in which one pull request collects three fix sessions |
| OwnPrs.OneSlotReachesBound | app/db/sessions.py:178-216 | for every attempt cap a legal run with a single slot, each session on its own pull request, that reaches the same bound |
| OneSlot.OneSlotTreeBound | app/handlers.py:246-278 | with a single slot and one pull request per tree, over every run: at most MAX_FIX_ATTEMPTS fix sessions per root, with rising attempts |
| Racing.RaisedQuietExactly | app/handlers.py:39-60 | an escalation leaves no live session over an unfinished one if and only if no child of the parent has a pull request |
| Racing.QuietInvariant | app/handlers.py:227-239 | with one pull request per tree, a live session has only finished children without a pull request, in every reachable state |
| Racing.NeverRacing | app/handlers.py:227-239 | of any two sessions on one ancestor chain at most one is active, in every reachable state |
| Escalations.TwoPrsRace | app/handlers.py:227-239 | a legal run on two pull requests that leaves a session and its parent active together |
| Bookkeeping.EscalationExact | app/handlers.py:39-69 | an escalation marks the parent, cancels exactly its active children, touches no other row, terminates each of those with a session exactly once and nothing else, and comments once |
| Endings.PollCallsExactly | app/orchestrator.py:117-205 | a poll terminates a session if and only if it ends it by a timeout or with its pull request seen merged |
| Endings.TerminatedAsOftenAsStopped | app/orchestrator.py:132-196 | over every run a Devin session is terminated exactly as often as the service ends its row: by a timeout, on a merge, or with its parent; never when Devin reports the end or the pull request is closed |
| Endings.StopIsLogged | app/orchestrator.py:132-196 | after every run, the poll that times a row out or completes it on a merge logs just that session's termination |
| Bookkeeping.EscalationTakesSlot | app/handlers.py:39-60 | active sessions after an escalation plus children cancelled equal active sessions before plus one |
| Escalations.CapIsPassed | app/handlers.py:39-60 | a legal run that fills the concurrency cap and whose next step, an escalation, leaves one active session more |
| Bookkeeping.EscalationIsNotSticky | app/orchestrator.py:153-205 | after the next successful poll, timeouts included, the mark is there if and only if Devin itself reports an unknown status and no merge or close comes with a change |
| Bookkeeping.CommentsMatchRevivals | app/handlers.py:25-69 | over every run the comments about a row equal its moves from terminal to needs_attention |
| Bookkeeping.CiCanEndExactly | app/handlers.py:239-249 | some CI failure can end an active session if and only if its parent has ended, is the newest session of its pull request, and its chain carries the last allowed attempt |
| Bookkeeping.EndangeredReportsAnother | app/handlers.py:215-249 | a session in that position reports another pull request than its parent, or none |
| Bookkeeping.EscalationsAreSeparated | app/orchestrator.py:164-205 | between two escalations of a row it was ended, by its own poll or by a CI failure from a state of that kind; by its poll if the tree reports one pull request |
| Escalations.ParentEndsChild | app/handlers.py:39-60 | a legal run in which a session is escalated twice and was ended in between by the escalation of its parent |
| Bookkeeping.BookedInvariant | app/db/sessions.py:126-128 | terminal rows have a completion time or were cancelled with their parent, active rows with one have been commented on, in every reachable state |
| Bookkeeping.EndingTimes | app/orchestrator.py:137-203 | whatever ends a row is its own poll, which sets the completion time (or keeps it, if there is one and Devin reports the end), or its parent's escalation, which leaves it as it is |
| Bookkeeping.EndsUntimedExactly | app/handlers.py:49-60 | a row without a completion time ends without one if and only if its parent's escalation ends it |
| Bookkeeping.CompletionTimes | app/orchestrator.py:137-203 | over every run a row has a completion time if and only if it was inserted as failed or one of its polls ended it; a terminal row without one was cancelled with its parent, an active row with one was escalated |
| Escalations.CancelledWithoutTime | app/handlers.py:49-60 | a legal run that leaves a terminal row without a completion time |
| Bookkeeping.UnescalatedWithinCap | app/handlers.py:116-133 | in every reachable state the active sessions never escalated are within MAX_CONCURRENT_SESSIONS |
| Refinement.ServiceIsSerial | app/orchestrator.py:86-205 | every run of webhooks, deliveries and ticks leaves the ledger of the serial run of its handler calls and polls |
| Refinement.ServedIsSerial | app/orchestrator.py:61-83 | the ledgers a drain dispatches at are those of the serial run of its handler calls |
| Refinement.ServiceKeepsAll | app/orchestrator.py:86-205 | tree shape and bound, bookkeeping, comments and cap for every run of the service |
| Refinement.ServiceNeverRaces | app/handlers.py:227-239 | no two active sessions on one chain, for every run of the service on one pull request per tree |
| QueueRuns.WaitsThenServed | app/orchestrator.py:86-98 | a legal run of the service in which an issue is queued behind another, still waits after the tick that sees the session end, and gets its own session at the next tick |
| Timeouts.StoredIsHeard | app/orchestrator.py:127-129 | over every serial run the stored poll time of a row is the last time its poll reached Devin, escalations in between or not |
| Timeouts.TimesOutExactly | app/orchestrator.py:117-145 | after every serial run a step makes a row time out if and only if it is a poll that finds the session silent for longer than the limit |
| Timeouts.RevivedSessionTimesOut | app/orchestrator.py:117-145 | an escalated session last heard of too long ago times out at its next poll when Devin gives no clock |
| Escalations.EscalatedThenTimedOut | app/orchestrator.py:117-145 | a legal run in which a session is escalated and its next poll times it out |
| Threads.RunExtends | app/db/sessions.py:30-35 | under every interleaving rows stay, identity is fixed, nothing goes back to null, the log only grows |
| Threads.PollStopsListed | app/orchestrator.py:95-196 | under every interleaving the poll of a listed row terminates its session if and only if it has to stop it, going by the row as it was listed |
| Threads.TickIsOnePass | app/orchestrator.py:97-100 | whatever happens in between, the rows a tick listed are polled one by one, in order and as listed, before any row is listed again |
| Threads.TouchedExactly | app/handlers.py:39-60 | the rows the theorems call touched are exactly those an escalation has marked or cancelled |
| ThreadAttempts.AdvanceBound | app/handlers.py:246-278 | a handler comes to hold an attempt number only while no session has it, and only a holder reserves it |
| ThreadAttempts.AttemptCap | app/handlers.py:246-278 | n handlers, any interleaving: no attempt passes the maximum, at most n sessions share one under a parent, a parent has at most n * MAX_FIX_ATTEMPTS direct fix sessions |
| ThreadCaps.DailyCap | app/handlers.py:122-137 | n handlers, any interleaving, across midnight: the security sessions started in the 86400 seconds of a day are at most MAX_SESSIONS_PER_DAY + n - 1, and none if that limit is not positive |
| ThreadCaps.ActiveCap | app/handlers.py:116-133 | n handlers, any interleaving with stale polls: active sessions no escalation has touched are at most MAX_CONCURRENT_SESSIONS + n - 1 |
| ThreadCaps.ActiveCapUnescalated | app/handlers.py:263-278 | without an escalation that bounds all active sessions |
| ThreadSpending.RunOwned | app/db/sessions.py:84-112 | a row has at most one handler between its reservation and its outcome, a reserving row exactly one, and no id yet |
| ThreadSpending.RunPaid | app/handlers.py:125-160 | calls made and about to be made for a key are paid for by its one row |
| ThreadSpending.RunConserved | app/handlers.py:147-171 | an id Devin returned is held by exactly one row or exactly one handler |
| ThreadSpending.RunTruthful | app/handlers.py:165-171 | a row's id was bought for that row's unit of work |
| ThreadSpending.ExactlyOnce | app/handlers.py:125-171 | the four together, for every interleaving |
| ThreadSolo.SoloSecurity | app/handlers.py:110-176 | a security handler nobody interrupts does, call by call, what the serial specification says |
| ThreadSolo.FinishEscalation | app/handlers.py:25-69 | so does an escalation, child by child |
| ThreadSolo.SoloCi | app/handlers.py:187-330 | so does a CI handler |
| ThreadSolo.SoloPoll | app/orchestrator.py:95-205 | so does a tick's polling |
| ThreadRuns.SerialIsThreaded | app/db/connection.py:24-35 | every serial run in the order of its times is, ledger for ledger, a run of the interleaved layer |
| ThreadFinal.BroughtBackIsTouched | app/orchestrator.py:95-205 | in every interleaving a step brings back a terminal row only if an escalation touches it or has touched it |
| ThreadFinal.UntouchedIsFinal | app/orchestrator.py:95-205 | over every interleaving a terminal row no escalation has touched stays terminal |
| ThreadFinal.StalePollExactly | app/orchestrator.py:95-205 | the poll of a row that has ended since it was listed brings it back if and only if Devin reports it alive and the row as listed has anything to learn, and then an escalation ended it |
| ThreadFinal.CancelledChildRunsOn | app/handlers.py:49-60 | a legal interleaved run in which a child is listed, cancelled with its parent, and running again after its poll |

## Left out

- Prompts, prompt snapshots, session URLs, comment texts, the failing log's tail: text that no decision depends on.
- The wording of the fixed lines an issue body ends with: the model carries them, and what is proved is that the
  parser finds no field in them.
- HTTP, signature checks, admin routes, the dashboard, metrics and serializers: no invariant of their own.
- Retries inside the Devin client: a call to `create_session` is one call that returns an id or fails.
- `_repo_full_name` and the default repository: an issue comes with its repository name resolved.
- The quality and generic handlers only return a string; they appear as settled answers.
- The counters `poll_once` and `drain_queue` return for logging, and the exit code of the filing script.
- Time within one poll: the several clock readings of one poll are one reading. Times are integer seconds, and a
  timestamp that cannot be parsed is not modelled.
- SQL itself: queries are functions on the sequence of rows. The rebuild of the table and the creation of its
  index are not modelled; the migration starts from a table with a work_key column, given in ascending id order.
- The ordering of rows by a query without ORDER BY is taken to be insertion order (the active children of a
  parent); only the order of the logged terminations depends on it.
- Webhook deliveries and the drain are serial only: interleavings cover the handlers, the reservation and the
  poller, and not two retries of one delivery.
- A crash in the middle of a handler: a dispatch that raises has done nothing yet.
- Pattern classes beyond ASCII: `\d` matches the ten ASCII digits, and lower-casing covers ASCII letters and the
  Kelvin sign, the only other character that lowers to an ASCII letter.
- JSON encoding: structured output is a text that is compared, an empty object counts as none.
- FullTree.BoundIsReached: all children of a session are alive together in it; how large a tree on one pull request
  can grow with more than one slot and fewer than 2^MAX_FIX_ATTEMPTS + 1 is left open.
- ThreadRuns.SerialIsThreaded: for one handler, and runs whose times do not decrease.
- The update allow-list permits writing parent_devin_session_id; no caller does, and the model has no such write.
