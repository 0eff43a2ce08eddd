/** Lease mutual exclusion: what a claim, renewal or adoption promises a runner until the lease it wrote runs out. */
module Leases {
  import opened Wrappers
  import opened Model
  import opened Cluster
  import opened Rows

  /** The row is running for this runner at least until the given time. */
  predicate RunsFor(db: Db, job: string, runner: string, until: Time)
  {
    job in db.jobs && db.jobs[job].status.Running? && db.jobs[job].owner == Some(runner)
    && db.jobs[job].leaseUntil.Some? && db.jobs[job].leaseUntil.value >= until
  }

  predicate FinishedBy(s: System, job: string, runner: string)
  {
    job in s.history.finalizer && s.history.finalizer[job] == runner
  }

  predicate Honoured(s: System, receipt: Receipt)
  {
    receipt.until >= s.clock ==>
      RunsFor(s.db, receipt.job, receipt.runner, receipt.until) || FinishedBy(s, receipt.job, receipt.runner)
  }

  ghost predicate FinishedStay(s: System)
  {
    forall id :: id in s.history.finalizer ==> id in s.db.jobs && IsTerminal(s.db.jobs[id].status)
  }

  ghost predicate LeasesOk(s: System)
  {
    FinishedStay(s) && forall receipt :: receipt in s.history.receipts ==> Honoured(s, receipt)
  }

  lemma FinalizeIsRecorded(cfg: Config, s: System, step: Step, id: string)
    requires step.FinalizeJob? && id in s.db.jobs && s.db.jobs[id].status.Running?
    requires id in Next(cfg, s, step).db.jobs && IsTerminal(Next(cfg, s, step).db.jobs[id].status)
    ensures FinishedBy(Next(cfg, s, step), id, step.r)
  {
  }

  lemma OthersStayFinished(cfg: Config, s: System, step: Step)
    requires step.FinalizeJob? && FinishedStay(s)
    ensures forall id :: id in s.history.finalizer ==> FinishedBy(Next(cfg, s, step), id, s.history.finalizer[id])
    ensures forall id :: id in Next(cfg, s, step).history.finalizer && id !in s.history.finalizer ==>
              id in Next(cfg, s, step).db.jobs && IsTerminal(Next(cfg, s, step).db.jobs[id].status)
  {
  }

  lemma FinishedStayNext(cfg: Config, s: System, step: Step)
    requires ValidConfig(cfg) && RowsOk(cfg, s) && FinishedStay(s)
    ensures FinishedStay(Next(cfg, s, step))
    ensures forall id :: id in s.history.finalizer ==> FinishedBy(Next(cfg, s, step), id, s.history.finalizer[id])
  {
    HistoryFrame(cfg, s, step);
    if step.FinalizeJob? {
      OthersStayFinished(cfg, s, step);
    }
    forall id | id in s.history.finalizer
      ensures id in Next(cfg, s, step).db.jobs && IsTerminal(Next(cfg, s, step).db.jobs[id].status)
    {
      Frame(cfg, s, step, id);
    }
  }

  lemma RunningEndsByFinalize(cfg: Config, s: System, step: Step, id: string)
    requires RowsOk(cfg, s) && id in s.db.jobs && s.db.jobs[id].status.Running?
    requires id in Next(cfg, s, step).db.jobs && IsTerminal(Next(cfg, s, step).db.jobs[id].status)
    ensures step.FinalizeJob?
  {
    if step.SaveSpec? || step.CommitLaunch? || step.SaveRecord? {
      FrameLaunching(cfg, s, step, id);
    } else if step.RenewLease? {
      FrameRenew(cfg, s, step, id);
    } else if step.CountAttempt? {
      FrameCount(cfg, s, step, id);
    } else if step.Release? || step.AdoptJob? || step.FreezeJob? {
      FrameRecovering(cfg, s, step, id);
    } else if step.Claim? {
      FrameClaim(cfg, s, step, id);
    } else if !step.FinalizeJob? {
      FrameRest(cfg, s, step, id);
    }
  }

  lemma RowHonours(cfg: Config, s: System, step: Step, receipt: Receipt, j: Job, k: Job)
    requires RowOk(cfg.lease, s.clock, j) && Allowed(cfg, s, step, receipt.job, j, k) && ValidConfig(cfg)
    requires receipt.until >= s.clock && receipt.job in s.db.jobs && j == s.db.jobs[receipt.job]
    requires j.status.Running? && j.owner == Some(receipt.runner) && j.leaseUntil.Some? && j.leaseUntil.value >= receipt.until
    ensures if k.status.Running? then
              k.owner == Some(receipt.runner) && k.leaseUntil.Some? && k.leaseUntil.value >= receipt.until
            else IsTerminal(k.status) && Actor(step) == Some(receipt.runner)
  {
  }

  lemma LiveRunHonoured(cfg: Config, s: System, step: Step, receipt: Receipt)
    requires ValidConfig(cfg) && RowsOk(cfg, s)
    requires receipt.until >= s.clock && RunsFor(s.db, receipt.job, receipt.runner, receipt.until)
    ensures RunsFor(Next(cfg, s, step).db, receipt.job, receipt.runner, receipt.until)
            || FinishedBy(Next(cfg, s, step), receipt.job, receipt.runner)
  {
    var id := receipt.job;
    Frame(cfg, s, step, id);
    var k := Next(cfg, s, step).db.jobs[id];
    RowHonours(cfg, s, step, receipt, s.db.jobs[id], k);
    if IsTerminal(k.status) {
      RunningEndsByFinalize(cfg, s, step, id);
      FinalizeIsRecorded(cfg, s, step, id);
    }
  }

  lemma ClockNeverGoesBack(cfg: Config, s: System, step: Step)
    ensures Next(cfg, s, step).clock >= s.clock
  {
  }

  /** A promise already made outlives any single step. */
  lemma StepHonours(cfg: Config, s: System, step: Step, receipt: Receipt)
    requires ValidConfig(cfg) && RowsOk(cfg, s) && FinishedStay(s) && Honoured(s, receipt)
    ensures Honoured(Next(cfg, s, step), receipt)
  {
    ClockNeverGoesBack(cfg, s, step);
    if receipt.until >= s.clock {
      if FinishedBy(s, receipt.job, receipt.runner) {
        FinishedStayNext(cfg, s, step);
      } else {
        LiveRunHonoured(cfg, s, step, receipt);
      }
    }
  }

  lemma ClaimPromises(cfg: Config, s: System, step: Step, receipt: Receipt)
    requires step.Claim? && receipt in Next(cfg, s, step).history.receipts && receipt !in s.history.receipts
    ensures RunsFor(Next(cfg, s, step).db, receipt.job, receipt.runner, receipt.until)
  {
  }

  lemma RenewalPromises(cfg: Config, s: System, step: Step, receipt: Receipt)
    requires step.RenewLease? && receipt in Next(cfg, s, step).history.receipts && receipt !in s.history.receipts
    ensures RunsFor(Next(cfg, s, step).db, receipt.job, receipt.runner, receipt.until)
  {
  }

  lemma AdoptionPromises(cfg: Config, s: System, step: Step, receipt: Receipt)
    requires step.AdoptJob? && receipt in Next(cfg, s, step).history.receipts && receipt !in s.history.receipts
    ensures RunsFor(Next(cfg, s, step).db, receipt.job, receipt.runner, receipt.until)
  {
  }

  /** A promise is made by a claim, a renewal or an adoption, and it is what the row then says. */
  lemma NewReceipts(cfg: Config, s: System, step: Step, receipt: Receipt)
    requires receipt in Next(cfg, s, step).history.receipts && receipt !in s.history.receipts
    ensures step.Claim? || step.RenewLease? || step.AdoptJob?
    ensures RunsFor(Next(cfg, s, step).db, receipt.job, receipt.runner, receipt.until)
  {
    HistoryFrame(cfg, s, step);
    if step.Claim? {
      ClaimPromises(cfg, s, step, receipt);
    } else if step.RenewLease? {
      RenewalPromises(cfg, s, step, receipt);
    } else {
      AdoptionPromises(cfg, s, step, receipt);
    }
  }

  lemma LeasesOkNext(cfg: Config, s: System, step: Step)
    requires ValidConfig(cfg) && RowsOk(cfg, s) && LeasesOk(s)
    ensures LeasesOk(Next(cfg, s, step))
  {
    FinishedStayNext(cfg, s, step);
    forall receipt | receipt in Next(cfg, s, step).history.receipts ensures Honoured(Next(cfg, s, step), receipt) {
      if receipt in s.history.receipts {
        StepHonours(cfg, s, step, receipt);
      } else {
        NewReceipts(cfg, s, step, receipt);
      }
    }
  }

  /** At most one runner holds a live promise for a job. */
  lemma LiveReceiptsAgree(s: System, a: Receipt, b: Receipt)
    requires LeasesOk(s)
    requires a in s.history.receipts && b in s.history.receipts && a.job == b.job
    requires a.until >= s.clock && b.until >= s.clock
    ensures a.runner == b.runner
  {
    assert Honoured(s, a) && Honoured(s, b);
  }
}
