/** Concurrency limits hold in every reachable state. */
module Capacity {
  import opened Wrappers
  import opened Model
  import opened Queries
  import opened Cluster
  import opened Rows

  ghost predicate CapacityOk(cfg: Config, s: System)
  {
    && |RunningJobs(s.db)| <= cfg.maxGlobal
    && (forall route :: route in cfg.limits && cfg.limits[route] > 0 ==> |RunningOn(s.db, route)| <= cfg.limits[route])
  }

  lemma FewerIn<T>(a: set<T>, b: set<T>)
    requires a <= b
    ensures |a| <= |b|
  {
    assert b == a + (b - a);
  }

  /** Only a claim starts running a row. */
  lemma OnlyClaimStarts(cfg: Config, s: System, step: Step, id: string)
    requires ValidConfig(cfg) && RowsOk(cfg, s)
    requires id in Next(cfg, s, step).db.jobs && Next(cfg, s, step).db.jobs[id].status.Running?
    requires !(id in s.db.jobs && s.db.jobs[id].status.Running?)
    ensures step.Claim? && id == step.id && |RunningJobs(s.db)| < cfg.maxGlobal && id in s.db.jobs
    ensures RouteHasRoom(s.db, cfg.limits, s.db.jobs[id].task.routeName)
  {
    if id in s.db.jobs {
      Frame(cfg, s, step, id);
    } else {
      NewRowsArePending(cfg, s, step, id);
    }
  }

  lemma NewRowsArePending(cfg: Config, s: System, step: Step, id: string)
    requires id in Next(cfg, s, step).db.jobs && id !in s.db.jobs
    ensures step.EnqueueJob? && Next(cfg, s, step).db.jobs[id].status.Pending?
  {
    if !step.EnqueueJob? {
      NoNewRows(cfg, s, step);
    }
  }

  lemma NoNewRows(cfg: Config, s: System, step: Step)
    requires !step.EnqueueJob?
    ensures Next(cfg, s, step).db.jobs.Keys <= s.db.jobs.Keys
  {
  }

  lemma RunningAfter(cfg: Config, s: System, step: Step)
    requires ValidConfig(cfg) && RowsOk(cfg, s)
    ensures RunningJobs(Next(cfg, s, step).db) <= RunningJobs(s.db)
            || (step.Claim? && step.id in s.db.jobs && |RunningJobs(s.db)| < cfg.maxGlobal
                && RouteHasRoom(s.db, cfg.limits, s.db.jobs[step.id].task.routeName)
                && RunningJobs(Next(cfg, s, step).db) <= RunningJobs(s.db) + {step.id})
  {
    forall id | id in RunningJobs(Next(cfg, s, step).db) && id !in RunningJobs(s.db)
      ensures step.Claim? && id == step.id && |RunningJobs(s.db)| < cfg.maxGlobal && id in s.db.jobs
              && RouteHasRoom(s.db, cfg.limits, s.db.jobs[id].task.routeName)
    {
      OnlyClaimStarts(cfg, s, step, id);
    }
  }

  lemma RouteAfter(cfg: Config, s: System, step: Step, route: string)
    requires ValidConfig(cfg) && RowsOk(cfg, s)
    ensures var after, before := RunningOn(Next(cfg, s, step).db, route), RunningOn(s.db, route);
            after <= before
            || (step.Claim? && RouteHasRoom(s.db, cfg.limits, route) && after <= before + {step.id})
  {
    forall id | id in RunningOn(Next(cfg, s, step).db, route) && id !in RunningOn(s.db, route)
      ensures step.Claim? && id == step.id && RouteHasRoom(s.db, cfg.limits, route)
    {
      if id in s.db.jobs {
        Frame(cfg, s, step, id);
      }
      OnlyClaimStarts(cfg, s, step, id);
    }
  }

  lemma CapacityOkNext(cfg: Config, s: System, step: Step)
    requires ValidConfig(cfg) && RowsOk(cfg, s) && CapacityOk(cfg, s)
    ensures CapacityOk(cfg, Next(cfg, s, step))
  {
    var s' := Next(cfg, s, step);
    RunningAfter(cfg, s, step);
    if RunningJobs(s'.db) <= RunningJobs(s.db) {
      FewerIn(RunningJobs(s'.db), RunningJobs(s.db));
    } else {
      FewerIn(RunningJobs(s'.db), RunningJobs(s.db) + {step.id});
    }
    forall route | route in cfg.limits && cfg.limits[route] > 0 ensures |RunningOn(s'.db, route)| <= cfg.limits[route] {
      RouteAfter(cfg, s, step, route);
      if RunningOn(s'.db, route) <= RunningOn(s.db, route) {
        FewerIn(RunningOn(s'.db, route), RunningOn(s.db, route));
      } else {
        FewerIn(RunningOn(s'.db, route), RunningOn(s.db, route) + {step.id});
      }
    }
  }
}
