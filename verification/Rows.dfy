/** What holds of every row in every reachable state, and which moves a row can make. */
module Rows {
  import opened Wrappers
  import opened Model
  import opened Queries
  import opened Cluster

  /** A row nobody runs names no owner, lease, process or launch. */
  predicate Idle(job: Job)
  {
    job.owner == None && job.lockedBy == None && job.leaseUntil == None && job.pid == None && job.launch == NO_LAUNCH
  }

  predicate RunningOk(lease: Time, clock: Time, job: Job)
  {
    && Present(job.owner) && job.leaseUntil.Some? && job.leaseUntil.value <= clock + lease && job.launch.state.Some?
    && (job.launch.state.value != Preparing ==> job.launch.token.Some?)
    && (job.launch.token.Some? ==>
          Present(job.launch.kind) && Present(job.launch.token) && Present(job.launch.metadataPath))
    && (job.launch.state.value in {Preparing, Launching} ==> job.pid == None)
    && (job.launch.state.value == Unknown ==> job.leaseUntil.value < clock)
  }

  /** A counted job carries the scope it was counted under; an uncounted one carries none. */
  predicate AttemptOk(job: Job)
  {
    if job.attempt.scope.Some? then !Blank(job.attempt.scope.value) && job.attempt.count >= 0
    else job.attempt.count == 0
  }

  predicate RowOk(lease: Time, clock: Time, job: Job)
  {
    AttemptOk(job) && if job.status.Running? then RunningOk(lease, clock, job) else Idle(job)
  }

  ghost predicate RowsOk(cfg: Config, s: System)
  {
    forall id :: id in s.db.jobs ==> RowOk(cfg.lease, s.clock, s.db.jobs[id])
  }

  lemma RowsOkLaunching(cfg: Config, s: System, step: Step)
    requires ValidConfig(cfg) && RowsOk(cfg, s)
    requires step.SaveSpec? || step.CommitLaunch? || step.SaveRecord?
    ensures RowsOk(cfg, Next(cfg, s, step))
  {
  }

  lemma RowsOkRecovering(cfg: Config, s: System, step: Step)
    requires ValidConfig(cfg) && RowsOk(cfg, s)
    requires step.Release? || step.AdoptJob? || step.FreezeJob?
    ensures RowsOk(cfg, Next(cfg, s, step))
  {
  }

  lemma RowsOkAccounting(cfg: Config, s: System, step: Step)
    requires ValidConfig(cfg) && RowsOk(cfg, s)
    requires step.CountAttempt? || step.FinalizeJob?
    ensures RowsOk(cfg, Next(cfg, s, step))
  {
  }

  /** Row well-formedness is inductive: the guards, written separately, keep it together. */
  lemma RowsOkNext(cfg: Config, s: System, step: Step)
    requires ValidConfig(cfg) && RowsOk(cfg, s)
    ensures RowsOk(cfg, Next(cfg, s, step))
  {
    if step.SaveSpec? || step.CommitLaunch? || step.SaveRecord? {
      RowsOkLaunching(cfg, s, step);
    } else if step.Release? || step.AdoptJob? || step.FreezeJob? {
      RowsOkRecovering(cfg, s, step);
    } else if step.CountAttempt? || step.FinalizeJob? {
      RowsOkAccounting(cfg, s, step);
    }
  }

  /** Launch progress of one claim: preparing, then launching, then active. */
  predicate Forward(before: LaunchState, after: LaunchState)
  {
    before == after || (before == Preparing && after == Launching) || (before == Launching && after == Active)
  }

  /** An update made by the runner that holds the row. */
  ghost predicate HolderMove(cfg: Config, s: System, r: string, j: Job, k: Job)
  {
    && Holds(j, r, s.clock)
    && if k.status.Running? then
         && k.owner == j.owner && (k.leaseUntil == j.leaseUntil || k.leaseUntil == Some(s.clock + cfg.lease))
         && (j.launch.state.Some? && k.launch.state.Some? ==> Forward(j.launch.state.value, k.launch.state.value))
         && (j.launch.state != Some(Preparing) ==> k.launch.token == j.launch.token)
       else IsTerminal(k.status)
  }

  /** A recovery move: the lease expired and the owner has no heartbeat at or after the cutoff. */
  ghost predicate RecoveryMove(cfg: Config, s: System, step: Step, id: string, j: Job, k: Job)
  {
    match step
    case Release(at, cutoff, current, active) =>
      at <= s.clock && Releasable(s.db, j, at, cutoff) && !Excluded(id, j, current, active) && k == Released(j, at)
    case AdoptJob(who, id', oldOwner, at, cutoff) =>
      at <= s.clock && id == id' && Takeable(s.db, id, oldOwner, at, cutoff) && k == Adopted(j, who, at, cfg.lease)
    case FreezeJob(id', oldOwner, at, cutoff) =>
      at <= s.clock && id == id' && Takeable(s.db, id, oldOwner, at, cutoff) && k == Frozen(j, at)
    case _ => false
  }

  /** What one step may do to one row. */
  ghost predicate Allowed(cfg: Config, s: System, step: Step, id: string, j: Job, k: Job)
  {
    && k.task == j.task
    && (k != j ==>
          && !IsTerminal(j.status)
          && (j.status.Running? ==> j.launch.state != Some(Unknown))
          && (j.status.Pending? ==>
                step.Claim? && step.id == id && Claimable(s.db, ClaimFilter(step.kinds, cfg.limits, step.frontier), id, s.clock)
                && k == Claimed(j, step.who, s.clock, cfg.lease))
          && (j.status.Running? ==>
                RecoveryMove(cfg, s, step, id, j, k)
                || (Actor(step).Some? && HolderMove(cfg, s, Actor(step).value, j, k))))
  }

  /** The holder's update of the launch columns. */
  ghost predicate LaunchingMove(cfg: Config, s: System, step: Step, id: string)
    requires id in s.db.jobs
  {
    var s' := Next(cfg, s, step);
    && id in s'.db.jobs && s'.db.jobs[id].attempt == s.db.jobs[id].attempt
    && s'.db.jobs[id].status == s.db.jobs[id].status && s'.db.jobs[id].task == s.db.jobs[id].task
    && (s'.db.jobs[id] == s.db.jobs[id]
        || (Actor(step).Some? && HolderMove(cfg, s, Actor(step).value, s.db.jobs[id], s'.db.jobs[id])))
  }

  lemma FrameSaveSpec(cfg: Config, s: System, step: Step, id: string)
    requires id in s.db.jobs && RowOk(cfg.lease, s.clock, s.db.jobs[id]) && step.SaveSpec?
    ensures LaunchingMove(cfg, s, step, id)
  {
  }

  lemma FrameCommit(cfg: Config, s: System, step: Step, id: string)
    requires id in s.db.jobs && RowOk(cfg.lease, s.clock, s.db.jobs[id]) && step.CommitLaunch?
    ensures LaunchingMove(cfg, s, step, id)
  {
  }

  lemma SaveRecordOther(cfg: Config, s: System, step: Step, id: string)
    requires id in s.db.jobs && step.SaveRecord? && !(step.r in s.activity && s.activity[step.r].job == id)
    ensures id in Next(cfg, s, step).db.jobs && Next(cfg, s, step).db.jobs[id] == s.db.jobs[id]
  {
  }

  lemma FrameSaveRecord(cfg: Config, s: System, step: Step, id: string)
    requires id in s.db.jobs && RowOk(cfg.lease, s.clock, s.db.jobs[id]) && step.SaveRecord?
    ensures LaunchingMove(cfg, s, step, id)
  {
    if !(step.r in s.activity && s.activity[step.r].job == id) {
      SaveRecordOther(cfg, s, step, id);
    }
  }

  lemma FrameLaunching(cfg: Config, s: System, step: Step, id: string)
    requires id in s.db.jobs && RowOk(cfg.lease, s.clock, s.db.jobs[id])
    requires step.SaveSpec? || step.CommitLaunch? || step.SaveRecord?
    ensures LaunchingMove(cfg, s, step, id)
  {
    if step.SaveSpec? {
      FrameSaveSpec(cfg, s, step, id);
    } else if step.CommitLaunch? {
      FrameCommit(cfg, s, step, id);
    } else {
      FrameSaveRecord(cfg, s, step, id);
    }
  }

  lemma FrameRenew(cfg: Config, s: System, step: Step, id: string)
    requires id in s.db.jobs && step.RenewLease?
    ensures id in Next(cfg, s, step).db.jobs
    ensures var j, k := s.db.jobs[id], Next(cfg, s, step).db.jobs[id];
            && k == j.(leaseUntil := k.leaseUntil, updatedAt := k.updatedAt)
            && (k == j || HolderMove(cfg, s, step.r, j, k))
  {
  }

  lemma FrameCount(cfg: Config, s: System, step: Step, id: string)
    requires id in s.db.jobs && step.CountAttempt?
    ensures id in Next(cfg, s, step).db.jobs
    ensures var j, k := s.db.jobs[id], Next(cfg, s, step).db.jobs[id];
            && k == j.(attempt := k.attempt, updatedAt := k.updatedAt)
            && (k == j || HolderMove(cfg, s, step.r, j, k))
  {
  }

  lemma FinalizeOther(cfg: Config, s: System, step: Step, id: string)
    requires id in s.db.jobs && step.FinalizeJob? && step.id != id
    ensures id in Next(cfg, s, step).db.jobs && Next(cfg, s, step).db.jobs[id] == s.db.jobs[id]
  {
  }

  lemma FrameFinalize(cfg: Config, s: System, step: Step, id: string)
    requires id in s.db.jobs && RowOk(cfg.lease, s.clock, s.db.jobs[id]) && step.FinalizeJob?
    ensures id in Next(cfg, s, step).db.jobs
    ensures Next(cfg, s, step).db.jobs[id].task == s.db.jobs[id].task
    ensures Next(cfg, s, step).db.jobs[id] == s.db.jobs[id]
            || HolderMove(cfg, s, step.r, s.db.jobs[id], Next(cfg, s, step).db.jobs[id])
  {
    if step.id != id {
      FinalizeOther(cfg, s, step, id);
    }
  }

  lemma FrameRecovering(cfg: Config, s: System, step: Step, id: string)
    requires id in s.db.jobs && RowOk(cfg.lease, s.clock, s.db.jobs[id])
    requires step.Release? || step.AdoptJob? || step.FreezeJob?
    ensures id in Next(cfg, s, step).db.jobs
    ensures Next(cfg, s, step).db.jobs[id] == s.db.jobs[id]
            || RecoveryMove(cfg, s, step, id, s.db.jobs[id], Next(cfg, s, step).db.jobs[id])
  {
  }

  lemma FrameClaim(cfg: Config, s: System, step: Step, id: string)
    requires id in s.db.jobs && step.Claim?
    ensures id in Next(cfg, s, step).db.jobs
    ensures Next(cfg, s, step).db.jobs[id] == s.db.jobs[id]
            || (step.id == id && Claimable(s.db, ClaimFilter(step.kinds, cfg.limits, step.frontier), id, s.clock)
                && Next(cfg, s, step).db.jobs[id] == Claimed(s.db.jobs[id], step.who, s.clock, cfg.lease))
  {
  }

  predicate MovesNoRow(step: Step)
  {
    step.Tick? || step.EnqueueJob? || step.SnapshotIssue? || step.CountTransition? || step.Launch? || step.Leave? || step.Heartbeats?
    || step.DropHeartbeat? || step.PruneHeartbeats?
  }

  lemma FrameRest(cfg: Config, s: System, step: Step, id: string)
    requires id in s.db.jobs && MovesNoRow(step)
    ensures id in Next(cfg, s, step).db.jobs && Next(cfg, s, step).db.jobs[id] == s.db.jobs[id]
  {
  }

  /** Which steps write which part of the history. */
  ghost predicate HistoryKept(step: Step, h: History, h': History)
  {
    && h.receipts <= h'.receipts
    && (!step.Claim? && !step.RenewLease? && !step.AdoptJob? ==> h'.receipts == h.receipts)
    && (!step.FinalizeJob? ==> h'.finalizer == h.finalizer && h'.reversals == h.reversals && h'.reversed == h.reversed)
    && (!step.CountAttempt? ==> h'.increments == h.increments && h'.granted == h.granted)
    && (!step.Launch? ==> h'.launches == h.launches)
    && (!step.CountTransition? ==> h'.transitions == h.transitions && h'.passed == h.passed)
  }

  lemma HistoryOfClaim(cfg: Config, s: System, step: Step)
    requires step.Claim? || step.Launch?
    ensures HistoryKept(step, s.history, Next(cfg, s, step).history)
  {
  }

  lemma HistoryOfCount(cfg: Config, s: System, step: Step)
    requires step.CountAttempt?
    ensures HistoryKept(step, s.history, Next(cfg, s, step).history)
  {
  }

  lemma HistoryOfLaunching(cfg: Config, s: System, step: Step)
    requires step.SaveSpec? || step.CommitLaunch? || step.SaveRecord? || step.Leave?
    ensures Next(cfg, s, step).history == s.history
  {
  }

  lemma HistoryOfLeasing(cfg: Config, s: System, step: Step)
    requires step.RenewLease? || step.AdoptJob?
    ensures HistoryKept(step, s.history, Next(cfg, s, step).history)
  {
  }

  lemma HistoryOfFinalize(cfg: Config, s: System, step: Step)
    requires step.FinalizeJob?
    ensures HistoryKept(step, s.history, Next(cfg, s, step).history)
  {
  }

  lemma HistoryOfTransition(cfg: Config, s: System, step: Step)
    requires step.CountTransition?
    ensures HistoryKept(step, s.history, Next(cfg, s, step).history)
  {
  }

  lemma HistoryFrame(cfg: Config, s: System, step: Step)
    ensures HistoryKept(step, s.history, Next(cfg, s, step).history)
  {
    if step.Claim? || step.Launch? {
      HistoryOfClaim(cfg, s, step);
    } else if step.CountAttempt? {
      HistoryOfCount(cfg, s, step);
    } else if IsLaunchStep(step) {
      HistoryOfLaunching(cfg, s, step);
    } else if step.RenewLease? || step.AdoptJob? {
      HistoryOfLeasing(cfg, s, step);
    } else if step.FinalizeJob? {
      HistoryOfFinalize(cfg, s, step);
    } else if step.CountTransition? {
      HistoryOfTransition(cfg, s, step);
    }
  }

  /** Ownership frame: a row never disappears or changes its task; a terminal row or a running row of unknown launch
      state never changes; a pending row changes only by being claimed; a running row changes only by its holder or by
      recovery of an expired lease of a stale owner. */
  lemma Frame(cfg: Config, s: System, step: Step, id: string)
    requires id in s.db.jobs && RowOk(cfg.lease, s.clock, s.db.jobs[id])
    ensures id in Next(cfg, s, step).db.jobs
    ensures Allowed(cfg, s, step, id, s.db.jobs[id], Next(cfg, s, step).db.jobs[id])
  {
    if step.SaveSpec? || step.CommitLaunch? || step.SaveRecord? {
      FrameLaunching(cfg, s, step, id);
    } else if step.Release? || step.AdoptJob? || step.FreezeJob? {
      FrameRecovering(cfg, s, step, id);
    } else if step.RenewLease? {
      FrameRenew(cfg, s, step, id);
    } else if step.CountAttempt? {
      FrameCount(cfg, s, step, id);
    } else if step.FinalizeJob? {
      FrameFinalize(cfg, s, step, id);
    } else if step.Claim? {
      FrameClaim(cfg, s, step, id);
    } else {
      FrameRest(cfg, s, step, id);
    }
  }
}
