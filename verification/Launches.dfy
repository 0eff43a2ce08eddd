/** Supervisor.Launch is called at most once per job, over every interleaving of every runner. */
module Launches {
  import opened Wrappers
  import opened Model
  import opened Cluster
  import opened Rows

  /** No claim can launch this row any more. */
  predicate PastPreparing(job: Job)
  {
    !job.status.Pending? && (job.status.Running? ==> job.launch.state.Some? && job.launch.state.value != Preparing)
  }

  /** What a runner in the middle of a launch knows about the row, if the row is still its own. */
  predicate PhaseMatches(job: Job, phase: Phase)
  {
    match phase
    case Fresh => job.launch.state == Some(Preparing)
    case Granted => job.launch.state == Some(Preparing)
    case Refused => job.launch.state == Some(Preparing)
    case SpecSaved(token) => job.launch.state == Some(Preparing) && job.launch.token == Some(token)
    case Committed(token) => job.launch.state in {Some(Launching), Some(Unknown)} && job.launch.token == Some(token)
    case Launched(token) => job.launch.state in {Some(Launching), Some(Unknown)} && job.launch.token == Some(token)
  }

  predicate ActivityMatches(db: Db, r: string, a: Activity)
  {
    a.job in db.jobs
    && (db.jobs[a.job].status.Running? && db.jobs[a.job].owner == Some(r) ==> PhaseMatches(db.jobs[a.job], a.phase))
  }

  ghost predicate ActivityOk(s: System)
  {
    forall r :: r in s.activity ==> ActivityMatches(s.db, r, s.activity[r])
  }

  predicate AboutToLaunch(s: System, r: string, id: string)
  {
    r in s.activity && s.activity[r].job == id && s.activity[r].phase.Committed?
  }

  ghost predicate LaunchesOk(s: System)
  {
    && (forall id :: s.history.launches[id] <= 1)
    && (forall id :: s.history.launches[id] > 0 ==> id in s.db.jobs && PastPreparing(s.db.jobs[id]))
    && (forall r, id :: AboutToLaunch(s, r, id) ==>
          s.history.launches[id] == 0 && id in s.db.jobs && PastPreparing(s.db.jobs[id]))
    && (forall r, q, id :: AboutToLaunch(s, r, id) && AboutToLaunch(s, q, id) ==> r == q)
  }

  lemma PastPreparingRow(cfg: Config, s: System, step: Step, id: string, j: Job, k: Job, clock: Time)
    requires RowOk(cfg.lease, s.clock, j) && RowOk(cfg.lease, clock, k) && Allowed(cfg, s, step, id, j, k) && PastPreparing(j)
    ensures PastPreparing(k)
  {
  }

  /** The release guard cannot undo a launch: launching, active and unknown rows carry a kind and a token. */
  lemma PastPreparingStays(cfg: Config, s: System, step: Step, id: string)
    requires ValidConfig(cfg) && RowsOk(cfg, s)
    requires id in s.db.jobs && PastPreparing(s.db.jobs[id])
    ensures id in Next(cfg, s, step).db.jobs && PastPreparing(Next(cfg, s, step).db.jobs[id])
  {
    Frame(cfg, s, step, id);
    RowsOkNext(cfg, s, step);
    PastPreparingRow(cfg, s, step, id, s.db.jobs[id], Next(cfg, s, step).db.jobs[id], Next(cfg, s, step).clock);
  }

  /** Only a runner's own launch steps move it to another phase. */
  lemma ActivityFrame(cfg: Config, s: System, step: Step, r: string)
    requires !(IsLaunchStep(step) && Actor(step) == Some(r))
    ensures r in Next(cfg, s, step).activity <==> r in s.activity
    ensures r in s.activity ==> Next(cfg, s, step).activity[r] == s.activity[r]
  {
  }

  lemma OwnLaunchStep(cfg: Config, s: System, step: Step, r: string)
    requires ValidConfig(cfg) && ActivityOk(s)
    requires IsLaunchStep(step) && Actor(step) == Some(r) && r in Next(cfg, s, step).activity
    ensures ActivityMatches(Next(cfg, s, step).db, r, Next(cfg, s, step).activity[r])
  {
    if r in s.activity {
      assert ActivityMatches(s.db, r, s.activity[r]);
    }
  }

  lemma AdoptingNeedsIdle(cfg: Config, s: System, step: Step)
    requires step.AdoptJob? && step.who.instanceId in s.activity
    ensures Next(cfg, s, step) == s
  {
  }

  lemma RecoveryKeepsMatch(cfg: Config, s: System, step: Step, r: string)
    requires RowsOk(cfg, s) && r in s.activity && ActivityMatches(s.db, r, s.activity[r])
    requires step.Release? || step.AdoptJob? || step.FreezeJob?
    ensures ActivityMatches(Next(cfg, s, step).db, r, s.activity[r])
  {
    FrameRecovering(cfg, s, step, s.activity[r].job);
    if step.AdoptJob? && step.who.instanceId in s.activity {
      AdoptingNeedsIdle(cfg, s, step);
    }
  }

  lemma OtherStep(cfg: Config, s: System, step: Step, r: string)
    requires ValidConfig(cfg) && RowsOk(cfg, s) && r in s.activity && ActivityMatches(s.db, r, s.activity[r])
    requires !(IsLaunchStep(step) && Actor(step) == Some(r))
    ensures ActivityMatches(Next(cfg, s, step).db, r, s.activity[r])
  {
    var id := s.activity[r].job;
    if step.RenewLease? {
      FrameRenew(cfg, s, step, id);
    } else if step.CountAttempt? {
      FrameCount(cfg, s, step, id);
    } else if step.SaveSpec? || step.CommitLaunch? || step.SaveRecord? {
      FrameLaunching(cfg, s, step, id);
    } else if step.FinalizeJob? {
      FrameFinalize(cfg, s, step, id);
    } else if step.Claim? {
      FrameClaim(cfg, s, step, id);
    } else if step.Release? || step.AdoptJob? || step.FreezeJob? {
      RecoveryKeepsMatch(cfg, s, step, r);
    } else {
      FrameRest(cfg, s, step, id);
    }
  }

  lemma ActivityOkNext(cfg: Config, s: System, step: Step)
    requires ValidConfig(cfg) && RowsOk(cfg, s) && ActivityOk(s)
    ensures ActivityOk(Next(cfg, s, step))
  {
    forall r | r in Next(cfg, s, step).activity
      ensures ActivityMatches(Next(cfg, s, step).db, r, Next(cfg, s, step).activity[r])
    {
      if IsLaunchStep(step) && Actor(step) == Some(r) {
        OwnLaunchStep(cfg, s, step, r);
      } else {
        ActivityFrame(cfg, s, step, r);
        OtherStep(cfg, s, step, r);
      }
    }
  }

  /** What the launch history and the commits may do in one step, apart from the step itself. */
  ghost predicate LaunchMove(s: System, s': System)
  {
    && (forall id :: id in s.db.jobs && PastPreparing(s.db.jobs[id]) ==> id in s'.db.jobs && PastPreparing(s'.db.jobs[id]))
    && (|| (s'.history.launches == s.history.launches && forall r, id :: AboutToLaunch(s', r, id) ==> AboutToLaunch(s, r, id))
        || exists r, id :: CommitMove(s, s', r, id) || SpendMove(s, s', r, id))
  }

  /** A commit of a job nobody committed or launched before. */
  ghost predicate CommitMove(s: System, s': System, r: string, id: string)
  {
    && s'.history.launches == s.history.launches && s.history.launches[id] == 0
    && id in s'.db.jobs && PastPreparing(s'.db.jobs[id])
    && (forall q :: !AboutToLaunch(s, q, id))
    && (forall q, other :: AboutToLaunch(s', q, other) ==> (q == r && other == id) || AboutToLaunch(s, q, other))
  }

  /** A launch that uses up its commit. */
  ghost predicate SpendMove(s: System, s': System, r: string, id: string)
  {
    && AboutToLaunch(s, r, id) && s'.history.launches == s.history.launches + multiset{id}
    && (forall q, other :: AboutToLaunch(s', q, other) ==> q != r && AboutToLaunch(s, q, other))
  }

  lemma CommitMoveKeeps(s: System, s': System, r: string, id: string)
    requires LaunchesOk(s) && LaunchMove(s, s') && CommitMove(s, s', r, id)
    ensures LaunchesOk(s')
  {
  }

  lemma SpendMoveKeeps(s: System, s': System, r: string, id: string)
    requires LaunchesOk(s) && LaunchMove(s, s') && SpendMove(s, s', r, id)
    ensures LaunchesOk(s')
  {
  }

  lemma LaunchMoveKeeps(s: System, s': System)
    requires LaunchesOk(s) && LaunchMove(s, s')
    ensures LaunchesOk(s')
  {
    if r, id :| CommitMove(s, s', r, id) {
      CommitMoveKeeps(s, s', r, id);
    } else if r, id :| SpendMove(s, s', r, id) {
      SpendMoveKeeps(s, s', r, id);
    }
  }

  /** Committing needs a row still preparing. */
  lemma CommitIsFirst(cfg: Config, s: System, step: Step)
    requires RowsOk(cfg, s) && LaunchesOk(s) && step.CommitLaunch? && Next(cfg, s, step) != s
    ensures step.r in s.activity && CommitMove(s, Next(cfg, s, step), step.r, s.activity[step.r].job)
  {
  }

  lemma LaunchSpendsCommit(cfg: Config, s: System, step: Step)
    requires step.Launch? && Next(cfg, s, step) != s
    ensures step.r in s.activity && SpendMove(s, Next(cfg, s, step), step.r, s.activity[step.r].job)
  {
  }

  lemma NoNewCommit(cfg: Config, s: System, step: Step, r: string, id: string)
    requires !step.CommitLaunch? && AboutToLaunch(Next(cfg, s, step), r, id)
    ensures AboutToLaunch(s, r, id)
  {
  }

  lemma StepIsLaunchMove(cfg: Config, s: System, step: Step)
    requires ValidConfig(cfg) && RowsOk(cfg, s) && LaunchesOk(s)
    ensures LaunchMove(s, Next(cfg, s, step))
  {
    forall id | id in s.db.jobs && PastPreparing(s.db.jobs[id])
      ensures id in Next(cfg, s, step).db.jobs && PastPreparing(Next(cfg, s, step).db.jobs[id])
    {
      PastPreparingStays(cfg, s, step, id);
    }
    if Next(cfg, s, step) != s {
      if step.CommitLaunch? {
        CommitIsFirst(cfg, s, step);
      } else if step.Launch? {
        LaunchSpendsCommit(cfg, s, step);
      } else {
        HistoryFrame(cfg, s, step);
        forall r, id | AboutToLaunch(Next(cfg, s, step), r, id) ensures AboutToLaunch(s, r, id) {
          NoNewCommit(cfg, s, step, r, id);
        }
      }
    }
  }

  lemma LaunchesOkNext(cfg: Config, s: System, step: Step)
    requires ValidConfig(cfg) && RowsOk(cfg, s) && LaunchesOk(s)
    ensures LaunchesOk(Next(cfg, s, step))
  {
    StepIsLaunchMove(cfg, s, step);
    LaunchMoveKeeps(s, Next(cfg, s, step));
  }
}
