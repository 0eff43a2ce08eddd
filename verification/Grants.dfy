/** Every launch under GitHub was counted within the attempt limit first. */
module Grants {
  import opened Wrappers
  import opened Model
  import opened Cluster
  import opened Rows
  import opened Launches

  predicate Owns(db: Db, r: string, id: string)
  {
    id in db.jobs && db.jobs[id].status.Running? && db.jobs[id].owner == Some(r)
  }

  predicate GrantedAct(s: System, r: string, a: Activity)
  {
    match a.phase
    case Fresh => true
    case Refused => true
    case Granted => Owns(s.db, r, a.job) ==> a.job in s.history.granted
    case SpecSaved(_) => Owns(s.db, r, a.job) ==> a.job in s.history.granted
    case Committed(_) => a.job in s.history.granted
    case Launched(_) => a.job in s.history.granted && s.history.launches[a.job] > 0
  }

  ghost predicate LaunchesGranted(s: System)
  {
    && (forall id :: s.history.launches[id] > 0 ==> id in s.history.granted)
    && (forall r :: r in s.activity ==> GrantedAct(s, r, s.activity[r]))
  }

  /** A runner in the middle of a launch cannot come to own a row it did not own. */
  lemma BusyOwnsNothingNew(cfg: Config, s: System, step: Step, r: string, id: string)
    requires ValidConfig(cfg) && RowsOk(cfg, s) && r in s.activity && id in s.db.jobs
    requires Owns(Next(cfg, s, step).db, r, id)
    ensures Owns(s.db, r, id)
  {
    if step.AdoptJob? && step.who.instanceId == r {
      AdoptingNeedsIdle(cfg, s, step);
    } else if step.Claim? && step.who.instanceId == r {
      ClaimingNeedsIdle(cfg, s, step);
    } else {
      Frame(cfg, s, step, id);
      OwnershipMoves(cfg, s, step, r, id, s.db.jobs[id], Next(cfg, s, step).db.jobs[id]);
    }
  }

  lemma ClaimingNeedsIdle(cfg: Config, s: System, step: Step)
    requires step.Claim? && step.who.instanceId in s.activity
    ensures Next(cfg, s, step) == s
  {
  }

  lemma OwnershipMoves(cfg: Config, s: System, step: Step, r: string, id: string, j: Job, k: Job)
    requires RowOk(cfg.lease, s.clock, j) && Allowed(cfg, s, step, id, j, k)
    requires !((step.Claim? || step.AdoptJob?) && step.who.instanceId == r)
    requires k.status.Running? && k.owner == Some(r)
    ensures j.status.Running? && j.owner == Some(r)
  {
  }

  /** Only a fresh claim is counted, and it has committed and launched nothing. */
  lemma CountingIsEarly(cfg: Config, s: System, step: Step)
    requires ValidConfig(cfg) && RowsOk(cfg, s) && ActivityOk(s) && LaunchesOk(s)
    requires step.CountAttempt? && Next(cfg, s, step) != s
    ensures Owns(s.db, step.r, step.id) && InPhase(s, step.r, step.id, Fresh)
    ensures s.history.launches[step.id] == 0 && forall q :: !AboutToLaunch(s, q, step.id)
    ensures Next(cfg, s, step).activity.Keys == s.activity.Keys
    ensures forall q :: q in s.activity && q != step.r ==> Next(cfg, s, step).activity[q] == s.activity[q]
    ensures var a := Next(cfg, s, step).activity[step.r];
            a.job == step.id && (a.phase.Granted? || a.phase.Refused?)
            && Next(cfg, s, step).history.granted ==
                 if a.phase.Granted? then s.history.granted + {step.id} else s.history.granted - {step.id}
    ensures Next(cfg, s, step).history.launches == s.history.launches
  {
    assert ActivityMatches(s.db, step.r, s.activity[step.r]);
  }

  lemma CountKeepsGrants(cfg: Config, s: System, step: Step)
    requires ValidConfig(cfg) && RowsOk(cfg, s) && ActivityOk(s) && LaunchesOk(s) && LaunchesGranted(s)
    requires step.CountAttempt? && Next(cfg, s, step) != s
    ensures LaunchesGranted(Next(cfg, s, step))
  {
    CountingIsEarly(cfg, s, step);
    var s' := Next(cfg, s, step);
    forall r | r in s'.activity ensures GrantedAct(s', r, s'.activity[r]) {
      if r != step.r {
        assert GrantedAct(s, r, s.activity[r]) && ActivityMatches(s.db, r, s.activity[r]);
        assert !AboutToLaunch(s, r, step.id);
        if Owns(s'.db, r, s.activity[r].job) {
          BusyOwnsNothingNew(cfg, s, step, r, s.activity[r].job);
        }
      }
    }
  }

  /** A launch step other than counting moves one runner one phase on, from a phase that was granted. */
  lemma OwnStepGranted(cfg: Config, s: System, step: Step, r: string)
    requires cfg.github && LaunchesGranted(s)
    requires IsLaunchStep(step) && !step.CountAttempt? && Actor(step) == Some(r)
    requires r in Next(cfg, s, step).activity
    ensures GrantedAct(Next(cfg, s, step), r, Next(cfg, s, step).activity[r])
  {
    if r in s.activity {
      assert GrantedAct(s, r, s.activity[r]);
    }
  }

  lemma LaunchesGrow(cfg: Config, s: System, step: Step, id: string)
    requires LaunchesGranted(s) && !step.CountAttempt?
    ensures Next(cfg, s, step).history.launches[id] >= s.history.launches[id]
    ensures Next(cfg, s, step).history.launches[id] > 0 ==> id in Next(cfg, s, step).history.granted
  {
    HistoryFrame(cfg, s, step);
    if step.Launch? && step.r in s.activity {
      assert GrantedAct(s, step.r, s.activity[step.r]);
    }
  }

  lemma LaunchesGrantedNext(cfg: Config, s: System, step: Step)
    requires ValidConfig(cfg) && cfg.github && RowsOk(cfg, s) && ActivityOk(s) && LaunchesOk(s) && LaunchesGranted(s)
    ensures LaunchesGranted(Next(cfg, s, step))
  {
    var s' := Next(cfg, s, step);
    if step.CountAttempt? {
      if s' != s {
        CountKeepsGrants(cfg, s, step);
      }
    } else {
      forall id ensures s'.history.launches[id] >= s.history.launches[id]
                && (s'.history.launches[id] > 0 ==> id in s'.history.granted)
      {
        LaunchesGrow(cfg, s, step, id);
      }
      HistoryFrame(cfg, s, step);
      forall r | r in s'.activity ensures GrantedAct(s', r, s'.activity[r]) {
        if IsLaunchStep(step) && Actor(step) == Some(r) {
          OwnStepGranted(cfg, s, step, r);
        } else {
          ActivityFrame(cfg, s, step, r);
          assert GrantedAct(s, r, s.activity[r]) && ActivityMatches(s.db, r, s.activity[r]);
          if Owns(s'.db, r, s.activity[r].job) {
            BusyOwnsNothingNew(cfg, s, step, r, s.activity[r].job);
          }
        }
      }
    }
  }
}
