/**
 The queue's guarantees for the real dispatcher.
 */
module Service {
  import opened Handlers
  import opened Dispatcher
  import opened Sessions
  import opened Queue
  import Migration
  import Serial
  import opened WorkKeys
  import opened Base

  function Front(cfg: Config): Desk {
    Desk(cfg, (l, e, env) => Dispatch(cfg, l, e, env), (l: Ledger) => CountActive(l.rows),
         (e: Event) => RouteOf(e).ToSecurity?)
  }

  lemma FrontIsPolite(cfg: Config)
    ensures Polite(Front(cfg))
  {
    forall l, e, env ensures PoliteAt(Front(cfg), l, e, env)
    {
      QueuedExactly(cfg, l, e, env);
      RoutedExactly(e);
      if RouteOf(e).ToSecurity? {
        SecurityAddsAtMostOne(cfg, l, RouteOf(e).issue, env);
      }
    }
  }

  /** In every reachable state with a free slot, a drain does exactly that with the real dispatcher. */
  lemma ServiceDrains(cfg: Config, steps: seq<Step>, attempts: seq<Attempt>)
    requires CountActive(Run(Front(cfg), EMPTY, steps).ledger.rows) < cfg.maxConcurrent
    ensures var w := Run(Front(cfg), EMPTY, steps); Drained(Front(cfg), w, attempts, Drain(Front(cfg), w, attempts))
  {
    FrontIsPolite(cfg);
    QueueInvariant(Front(cfg), steps);
    DrainExact(Front(cfg), Run(Front(cfg), EMPTY, steps), attempts);
  }

  /** Without a crash the queue that is left is the old one without its front. */
  lemma ServiceQueueShrinks(cfg: Config, steps: seq<Step>, attempts: seq<Attempt>)
    requires var w := Run(Front(cfg), EMPTY, steps);
             CountActive(w.ledger.rows) < cfg.maxConcurrent &&
             Crashless(attempts, Min(cfg.maxConcurrent - CountActive(w.ledger.rows), |Waiting(w.deliveries)|))
    ensures var w := Run(Front(cfg), EMPTY, steps);
            Waiting(Drain(Front(cfg), w, attempts).deliveries) ==
            Waiting(w.deliveries)[Min(cfg.maxConcurrent - CountActive(w.ledger.rows), |Waiting(w.deliveries)|)..]
  {
    FrontIsPolite(cfg);
    QueueInvariant(Front(cfg), steps);
    DrainTakesTheFront(Front(cfg), Run(Front(cfg), EMPTY, steps), attempts);
  }

  /** In every reachable state, the first dispatch of a delivery leaves it waiting exactly if it is a gated security
      issue and no slot is free, and then changes nothing else. */
  lemma WaitsExactly(cfg: Config, steps: seq<Step>, k: nat, env: Env)
    requires var ds := Run(Front(cfg), EMPTY, steps).deliveries; k < |ds| && ds[k].result.None?
    ensures var w := Run(Front(cfg), EMPTY, steps);
            var r := Next(Front(cfg), w, Process(k, Runs(env)));
            && |r.deliveries| == |w.deliveries|
            && (r.deliveries[k].Waiting() <==>
                  GatedSecurity(w.deliveries[k].event) && CountActive(w.ledger.rows) >= cfg.maxConcurrent)
            && (r.deliveries[k].Waiting() ==> r.ledger == w.ledger)
            && forall j :: 0 <= j < |w.deliveries| && j != k ==> r.deliveries[j] == w.deliveries[j]
  {
    FrontIsPolite(cfg);
    QueueInvariant(Front(cfg), steps);
    var w := Run(Front(cfg), EMPTY, steps);
    ProcessExact(Front(cfg), w, k, Runs(env));
    QueuedExactly(cfg, w.ledger, w.deliveries[k].event, env);
  }

  /** In every run, a delivery that is waiting at some point is settled before e + 1 more ticks have passed that find a
      free slot and whose first retry does not crash, e being its place in the log. */
  lemma ServiceStarvesNothing(cfg: Config, past: seq<Step>, future: seq<Step>, e: nat)
    requires var w := Run(Front(cfg), EMPTY, past);
             && e < |w.deliveries| && w.deliveries[e].Waiting()
             && ProductiveTicks(Front(cfg), w, future) > e
    ensures var r := Run(Front(cfg), Run(Front(cfg), EMPTY, past), future);
            e < |r.deliveries| && r.deliveries[e].Settled()
  {
    FrontIsPolite(cfg);
    QueueInvariant(Front(cfg), past);
    NoStarvation(Front(cfg), Run(Front(cfg), EMPTY, past), future, e);
  }

  /** The sessions table starts with the migrated rows, under the keys the migration gave them. */
  ghost predicate StartsMigrated(rows: seq<Row>, legacy: seq<Migration.LegacyRow>) {
    |legacy| <= |rows| &&
    forall i :: 0 <= i < |legacy| ==> rows[i].job.workKey == Migration.Backfill(Migration.CANONICAL, legacy)[i].key
  }

  /** Nothing the service does afterwards changes that. */
  lemma StaysMigrated(cfg: Config, l: Ledger, legacy: seq<Migration.LegacyRow>, steps: seq<Serial.Step>)
    requires StartsMigrated(l.rows, legacy) && Serial.LegalRun(cfg, l, steps)
    ensures StartsMigrated(Serial.Run(cfg, l, steps).rows, legacy)
  {
    var after := Serial.Run(cfg, l, steps).rows;
    Serial.RunExtends(cfg, l, steps);
    forall i | 0 <= i < |legacy|
      ensures after[i].job.workKey == Migration.Backfill(Migration.CANONICAL, legacy)[i].key {
      assert Keeps(l.rows[i], after[i]);
    }
  }

  lemma TakenIsSkipped(cfg: Config, l: Ledger, issue: Issue, env: Env)
    requires KeyTaken(l.rows, SecurityKey(issue))
    ensures HandleSecurity(cfg, l, issue, env).0 == l
  {
  }

  /** An issue whose row was migrated without a collision is never started again: whatever the service has done
      since the migration, a webhook for it leaves the ledger as it is. */
  lemma MigratedIssueIsNotRepeated(cfg: Config, l: Ledger, legacy: seq<Migration.LegacyRow>, steps: seq<Serial.Step>,
                                   i: nat, owner: string, name: string, issue: Issue, env: Env)
    requires StartsMigrated(l.rows, legacy) && Serial.LegalRun(cfg, l, steps)
    requires i < |legacy| && legacy[i].Missing() && !Migration.Collides(Migration.CANONICAL, legacy, i)
    requires owner != "" && name != "" && Free('/', owner) && Free('/', name)
    requires issue.number >= 0 && issue.repo == owner + "/" + name && issue.url == IssueUrl(owner, name, issue.number)
    requires legacy[i].triggerRef == issue.url && legacy[i].labelName == Some(SECURITY_LABEL)
    requires legacy[i].issueNumber.None? || legacy[i].issueNumber == Some(issue.number)
    ensures var now := Serial.Run(cfg, l, steps); HandleSecurity(cfg, now, issue, env).0 == now
  {
    var now := Serial.Run(cfg, l, steps);
    StaysMigrated(cfg, l, legacy, steps);
    Migration.BackfillAgreesWithHandler(legacy, i, owner, name, issue.number, SECURITY_LABEL);
    assert now.rows[i].job.workKey == SecurityKey(issue);
    TakenIsSkipped(cfg, now, issue, env);
  }
}
