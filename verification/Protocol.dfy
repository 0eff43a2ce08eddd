/** The protocol's guarantees over every run of any number of runners, crashes included. */
module Protocol {
  import opened Wrappers
  import opened Model
  import opened Queries
  import opened Cluster
  import opened Rows
  import opened Leases
  import opened Launches
  import opened AttemptCounters
  import opened Grants
  import opened Capacity

  ghost predicate Inv(cfg: Config, s: System)
  {
    && ValidConfig(cfg) && RowsOk(cfg, s) && LeasesOk(s) && ActivityOk(s) && LaunchesOk(s)
    && CountersOk(s) && GrantsOk(cfg, s) && CapacityOk(cfg, s) && (cfg.github ==> LaunchesGranted(s))
  }

  lemma InvNext(cfg: Config, s: System, step: Step)
    requires Inv(cfg, s)
    ensures Inv(cfg, Next(cfg, s, step))
  {
    RowsOkNext(cfg, s, step);
    LeasesOkNext(cfg, s, step);
    ActivityOkNext(cfg, s, step);
    LaunchesOkNext(cfg, s, step);
    CountersOkNext(cfg, s, step);
    CapacityOkNext(cfg, s, step);
    if cfg.github {
      LaunchesGrantedNext(cfg, s, step);
    }
  }

  lemma InvStart(cfg: Config)
    requires ValidConfig(cfg)
    ensures Inv(cfg, START)
  {
    forall key ensures CounterOk(START, key) && Charged(START, key) == {} {
      assert Charged(START, key) == {};
    }
    assert RunningJobs(START.db) == {};
    forall route ensures RunningOn(START.db, route) == {} {
    }
  }

  lemma {:induction false} InvRun(cfg: Config, s: System, steps: seq<Step>)
    requires Inv(cfg, s)
    ensures Inv(cfg, Run(cfg, s, steps))
    decreases |steps|
  {
    if steps != [] {
      InvRun(cfg, s, steps[..|steps| - 1]);
      InvNext(cfg, Run(cfg, s, steps[..|steps| - 1]), steps[|steps| - 1]);
    }
  }

  /** The state after any run from an empty database. */
  function Reached(cfg: Config, steps: seq<Step>): System
  {
    Run(cfg, START, steps)
  }

  lemma OneMoreStep(cfg: Config, steps: seq<Step>, step: Step)
    ensures Reached(cfg, steps + [step]) == Next(cfg, Reached(cfg, steps), step)
  {
    assert (steps + [step])[..|steps|] == steps;
  }

  lemma ReachedInv(cfg: Config, steps: seq<Step>)
    requires ValidConfig(cfg)
    ensures Inv(cfg, Reached(cfg, steps))
  {
    InvStart(cfg);
    InvRun(cfg, START, steps);
  }

  /** Supervisor.Launch is called at most once per job id. */
  lemma AtMostOneLaunch(cfg: Config, steps: seq<Step>, id: string)
    requires ValidConfig(cfg)
    ensures Reached(cfg, steps).history.launches[id] <= 1
  {
    ReachedInv(cfg, steps);
  }

  /** Launched jobs that stand against a counter: not reversed, and last counted there. */
  function WorkedLaunches(s: System, key: AttemptKey): set<string>
  {
    set id | id in s.db.jobs && s.history.launches[id] > 0 && id !in s.history.reversed && Provenance(s.db.jobs[id]) == key
  }

  /** With GitHub configured, the launches that were not reversed never exceed the route's attempt limit. */
  lemma AttemptCap(cfg: Config, steps: seq<Step>, key: AttemptKey)
    requires ValidConfig(cfg) && cfg.github
    ensures |WorkedLaunches(Reached(cfg, steps), key)| <= (if key.routeName in cfg.maxAttempts then cfg.maxAttempts[key.routeName] else 0)
  {
    ReachedInv(cfg, steps);
    var s := Reached(cfg, steps);
    assert WorkedLaunches(s, key) <= Charged(s, key) * s.history.granted;
    Smaller(WorkedLaunches(s, key), Charged(s, key) * s.history.granted);
  }

  /** Two unexpired promises for one job name one runner. */
  lemma LeaseExclusion(cfg: Config, steps: seq<Step>, a: Receipt, b: Receipt)
    requires ValidConfig(cfg)
    requires a in Reached(cfg, steps).history.receipts && b in Reached(cfg, steps).history.receipts && a.job == b.job
    requires a.until >= Reached(cfg, steps).clock && b.until >= Reached(cfg, steps).clock
    ensures a.runner == b.runner
    ensures RunsFor(Reached(cfg, steps).db, a.job, a.runner, a.until) || FinishedBy(Reached(cfg, steps), a.job, a.runner)
  {
    ReachedInv(cfg, steps);
    LiveReceiptsAgree(Reached(cfg, steps), a, b);
    assert Honoured(Reached(cfg, steps), a);
  }

  /** Every counter is its increments less its reversals, and at least the number of unreversed jobs last counted there. */
  lemma AttemptConservation(cfg: Config, steps: seq<Step>, key: AttemptKey)
    requires ValidConfig(cfg)
    ensures var s := Reached(cfg, steps);
            Attempts(s.db, key) + s.history.reversals[key] == s.history.increments[key]
            && |Charged(s, key)| <= Attempts(s.db, key)
            && |s.history.reversals| == |s.history.reversed|
  {
    ReachedInv(cfg, steps);
    assert CounterOk(Reached(cfg, steps), key);
  }

  /** The `attempts > 0` guards never block the reversal of a counted running job. */
  lemma ReversalNeverBlocked(cfg: Config, steps: seq<Step>, id: string)
    requires ValidConfig(cfg)
    requires id in Reached(cfg, steps).db.jobs && Reached(cfg, steps).db.jobs[id].status.Running?
    ensures var s := Reached(cfg, steps);
            Reversible(s.db, s.db.jobs[id]) <==> s.db.jobs[id].attempt.scope.Some?
  {
    ReachedInv(cfg, steps);
    var s := Reached(cfg, steps);
    if s.db.jobs[id].attempt.scope.Some? {
      assert id in Charged(s, Provenance(s.db.jobs[id]));
      assert CounterOk(s, Provenance(s.db.jobs[id]));
    }
  }

  /** A count charges the counter it raised, and only another count of the same job moves the charge. */
  lemma {:induction false} ChargeStays(cfg: Config, s: System, steps: seq<Step>, id: string)
    requires Inv(cfg, s) && id in s.db.jobs
    requires forall k :: 0 <= k < |steps| ==> !(steps[k].CountAttempt? && steps[k].id == id)
    ensures id in Run(cfg, s, steps).db.jobs
    ensures Provenance(Run(cfg, s, steps).db.jobs[id]) == Provenance(s.db.jobs[id])
    decreases |steps|
  {
    if steps != [] {
      var before := Run(cfg, s, steps[..|steps| - 1]);
      ChargeStays(cfg, s, steps[..|steps| - 1], id);
      InvRun(cfg, s, steps[..|steps| - 1]);
      ChargeStaysNext(cfg, before, steps[|steps| - 1], id);
    }
  }

  lemma CountMoves(cfg: Config, s: System, step: Step, id: string)
    requires step.CountAttempt? && id in s.db.jobs
    ensures id in Next(cfg, s, step).db.jobs
    ensures step.id != id ==> Next(cfg, s, step).db.jobs[id] == s.db.jobs[id]
    ensures s.db.jobs[id].attempt.scope.Some? ==> Next(cfg, s, step).db.jobs[id].attempt.scope.Some?
  {
    if Next(cfg, s, step) != s {
      CountStep(cfg, s, step);
    }
  }

  lemma ChargeStaysNext(cfg: Config, s: System, step: Step, id: string)
    requires Inv(cfg, s) && id in s.db.jobs
    ensures id in Next(cfg, s, step).db.jobs
    ensures !(step.CountAttempt? && step.id == id) ==> Provenance(Next(cfg, s, step).db.jobs[id]) == Provenance(s.db.jobs[id])
    ensures s.db.jobs[id].attempt.scope.Some? ==> Next(cfg, s, step).db.jobs[id].attempt.scope.Some?
  {
    if step.CountAttempt? {
      CountMoves(cfg, s, step, id);
    } else if step.FinalizeJob? {
      FinalizeStep(cfg, s, step);
    } else {
      PlainStep(cfg, s, step);
    }
  }

  /** A reversal lowers the counter that the job's latest count raised, by one, and no other counter. */
  lemma ReversalUndoesLatestCount(cfg: Config, s: System, count: Step, steps: seq<Step>, f: JobFinalize, r: string)
    requires Inv(cfg, s) && count.CountAttempt?
    requires forall k :: 0 <= k < |steps| ==> !(steps[k].CountAttempt? && steps[k].id == count.id)
    ensures Next(cfg, s, count) != s ==>
              var t := Run(cfg, Next(cfg, s, count), steps);
              var key := CounterOf(s.db, count.id, count.generation, count.scope);
              && Attempts(Next(cfg, s, count).db, key) == Attempts(s.db, key) + 1
              && (f.workStarted == Some(false) && count.id in t.db.jobs && Holds(t.db.jobs[count.id], r, t.clock) ==>
                    Attempts(t.db, key) > 0
                    && forall k :: Attempts(Next(cfg, t, FinalizeJob(r, count.id, f)).db, k)
                                   == Attempts(t.db, k) - (if k == key then 1 else 0))
  {
    if Next(cfg, s, count) != s {
      CountStep(cfg, s, count);
      InvNext(cfg, s, count);
      LatestCountReverses(cfg, Next(cfg, s, count), count.id, steps, f, r);
    }
  }

  /** A counted job stands against its counter through any run without a further count, until a reversal lowers that one. */
  lemma LatestCountReverses(cfg: Config, u: System, id: string, steps: seq<Step>, f: JobFinalize, r: string)
    requires Inv(cfg, u) && id in u.db.jobs && u.db.jobs[id].attempt.scope.Some?
    requires forall k :: 0 <= k < |steps| ==> !(steps[k].CountAttempt? && steps[k].id == id)
    ensures var t := Run(cfg, u, steps); var key := Provenance(u.db.jobs[id]);
            f.workStarted == Some(false) && id in t.db.jobs && Holds(t.db.jobs[id], r, t.clock) ==>
              Attempts(t.db, key) > 0
              && forall k :: Attempts(Next(cfg, t, FinalizeJob(r, id, f)).db, k)
                             == Attempts(t.db, k) - (if k == key then 1 else 0)
  {
    var t := Run(cfg, u, steps);
    ChargeStays(cfg, u, steps, id);
    InvRun(cfg, u, steps);
    CountedStays(cfg, u, steps, id);
    if f.workStarted == Some(false) && Holds(t.db.jobs[id], r, t.clock) {
      assert id in Charged(t, Provenance(u.db.jobs[id]));
      assert CounterOk(t, Provenance(u.db.jobs[id]));
      LowersOne(cfg, t, id, r, f);
    }
  }

  lemma {:induction false} CountedStays(cfg: Config, s: System, steps: seq<Step>, id: string)
    requires Inv(cfg, s) && id in s.db.jobs && s.db.jobs[id].attempt.scope.Some?
    ensures id in Run(cfg, s, steps).db.jobs && Run(cfg, s, steps).db.jobs[id].attempt.scope.Some?
    decreases |steps|
  {
    if steps != [] {
      var before := Run(cfg, s, steps[..|steps| - 1]);
      CountedStays(cfg, s, steps[..|steps| - 1], id);
      InvRun(cfg, s, steps[..|steps| - 1]);
      ChargeStaysNext(cfg, before, steps[|steps| - 1], id);
    }
  }

  lemma LowersOne(cfg: Config, s: System, id: string, r: string, f: JobFinalize)
    requires RowsOk(cfg, s) && id in s.db.jobs && Holds(s.db.jobs[id], r, s.clock) && f.workStarted == Some(false)
    requires Reversible(s.db, s.db.jobs[id])
    ensures forall k :: Attempts(Next(cfg, s, FinalizeJob(r, id, f)).db, k)
                        == Attempts(s.db, k) - (if k == Provenance(s.db.jobs[id]) then 1 else 0)
  {
  }

  /** A terminal row, or a running row of unknown launch state, is the same row after any further run. */
  lemma {:induction false} Absorbed(cfg: Config, s: System, steps: seq<Step>, id: string)
    requires Inv(cfg, s) && id in s.db.jobs
    requires IsTerminal(s.db.jobs[id].status) || (s.db.jobs[id].status.Running? && s.db.jobs[id].launch.state == Some(Unknown))
    ensures id in Run(cfg, s, steps).db.jobs && Run(cfg, s, steps).db.jobs[id] == s.db.jobs[id]
    decreases |steps|
  {
    if steps != [] {
      Absorbed(cfg, s, steps[..|steps| - 1], id);
      InvRun(cfg, s, steps[..|steps| - 1]);
      Frame(cfg, Run(cfg, s, steps[..|steps| - 1]), steps[|steps| - 1], id);
    }
  }

  /** A frozen row keeps its slot for good: no later renewal, finalization or adoption of it can succeed. Waiting for it to
      go away, as a wave with an active frozen job does, never ends. */
  lemma FrozenForGood(cfg: Config, s: System, steps: seq<Step>, id: string, who: Identity, f: JobFinalize, at: Time, cutoff: Time)
    requires Inv(cfg, s) && id in s.db.jobs && s.db.jobs[id].status.Running? && s.db.jobs[id].launch.state == Some(Unknown)
    ensures var t := Run(cfg, s, steps); var r := who.instanceId; var owner := Text(s.db.jobs[id].owner);
            && id in RunningJobs(t.db)
            && Renew(t.db, id, r, cfg.lease, t.clock).1 != Done && Finalize(t.db, id, r, f, t.clock).1 != Done
            && Adopt(t.db, id, owner, who, cfg.lease, at, cutoff).1 != Done
            && id !in ReleaseSet(t.db, at, cutoff, r, {})
  {
    Absorbed(cfg, s, steps, id);
    InvRun(cfg, s, steps);
    FrozenRefuses(cfg, Run(cfg, s, steps), id, who, f, at, cutoff);
  }

  lemma FrozenRefuses(cfg: Config, t: System, id: string, who: Identity, f: JobFinalize, at: Time, cutoff: Time)
    requires RowsOk(cfg, t) && id in t.db.jobs && t.db.jobs[id].status.Running? && t.db.jobs[id].launch.state == Some(Unknown)
    ensures var r := who.instanceId;
            && Renew(t.db, id, r, cfg.lease, t.clock).1 != Done && Finalize(t.db, id, r, f, t.clock).1 != Done
            && Adopt(t.db, id, Text(t.db.jobs[id].owner), who, cfg.lease, at, cutoff).1 != Done
            && id !in ReleaseSet(t.db, at, cutoff, r, {})
  {
    assert RowOk(cfg.lease, t.clock, t.db.jobs[id]);
  }

  /** A step of anyone but the owner leaves a running row as it is, unless it recovers an expired lease. */
  lemma OnlyOwnerOrRecovery(cfg: Config, steps: seq<Step>, step: Step, id: string)
    requires ValidConfig(cfg)
    requires id in Reached(cfg, steps).db.jobs && Reached(cfg, steps).db.jobs[id].status.Running?
    requires Actor(step) != Reached(cfg, steps).db.jobs[id].owner
    requires Next(cfg, Reached(cfg, steps), step).db.jobs[id] != Reached(cfg, steps).db.jobs[id]
    ensures var s := Reached(cfg, steps);
            IsRecoveryStep(step) && Expired(s.db.jobs[id], s.clock) && step.at <= s.clock
            && NoFreshHeartbeat(s.db.heartbeats, Text(s.db.jobs[id].owner), step.cutoff)
  {
    ReachedInv(cfg, steps);
    Frame(cfg, Reached(cfg, steps), step, id);
  }

  /** Every recovery in the run meets a heartbeat of the row's owner at or after its cutoff. */
  ghost predicate OwnerKeepsBeating(cfg: Config, s: System, steps: seq<Step>, owner: string)
  {
    forall k :: 0 <= k < |steps| && IsRecoveryStep(steps[k]) ==>
      !NoFreshHeartbeat(Run(cfg, s, steps[..k]).db.heartbeats, owner, steps[k].cutoff)
  }

  lemma KeptBeating(cfg: Config, s: System, steps: seq<Step>, owner: string, n: nat)
    requires n <= |steps| && OwnerKeepsBeating(cfg, s, steps, owner)
    ensures OwnerKeepsBeating(cfg, s, steps[..n], owner)
  {
    forall k | 0 <= k < n && IsRecoveryStep(steps[..n][k])
      ensures !NoFreshHeartbeat(Run(cfg, s, steps[..n][..k]).db.heartbeats, owner, steps[..n][k].cutoff)
    {
      assert steps[..n][..k] == steps[..k];
    }
  }

  /** A lost lease is lost for good: while its owner keeps its heartbeat, no run changes the row at all. The owner can
      neither renew nor finalize it, and nobody else may release, adopt or freeze it. */
  lemma {:induction false} LostLeaseStays(cfg: Config, s: System, steps: seq<Step>, id: string)
    requires Inv(cfg, s) && id in s.db.jobs && s.db.jobs[id].status.Running? && Expired(s.db.jobs[id], s.clock)
    requires OwnerKeepsBeating(cfg, s, steps, Text(s.db.jobs[id].owner))
    ensures id in Run(cfg, s, steps).db.jobs && Run(cfg, s, steps).db.jobs[id] == s.db.jobs[id]
    ensures Run(cfg, s, steps).clock >= s.clock
    decreases |steps|
  {
    if steps != [] {
      var n := |steps| - 1;
      KeptBeating(cfg, s, steps, Text(s.db.jobs[id].owner), n);
      LostLeaseStays(cfg, s, steps[..n], id);
      InvRun(cfg, s, steps[..n]);
      LostLeaseStaysNext(cfg, Run(cfg, s, steps[..n]), steps[n], id);
    }
  }

  lemma LostLeaseStaysNext(cfg: Config, s: System, step: Step, id: string)
    requires Inv(cfg, s) && id in s.db.jobs && s.db.jobs[id].status.Running? && Expired(s.db.jobs[id], s.clock)
    requires IsRecoveryStep(step) ==> !NoFreshHeartbeat(s.db.heartbeats, Text(s.db.jobs[id].owner), step.cutoff)
    ensures id in Next(cfg, s, step).db.jobs && Next(cfg, s, step).db.jobs[id] == s.db.jobs[id]
    ensures Next(cfg, s, step).clock >= s.clock
  {
    ClockNeverGoesBack(cfg, s, step);
    Frame(cfg, s, step, id);
  }

  ghost predicate DistinctKeys(db: Db)
  {
    forall a, b :: a in db.jobs && b in db.jobs && a != b ==> db.jobs[a].task.dedupeKey != db.jobs[b].task.dedupeKey
  }

  lemma NewRowNext(cfg: Config, s: System, step: Step, id: string)
    requires id in Next(cfg, s, step).db.jobs && id !in s.db.jobs
    ensures step.EnqueueJob? && id == step.id && !Conflicts(s.db, id, step.task.dedupeKey)
    ensures Next(cfg, s, step).db.jobs[id].task.dedupeKey == step.task.dedupeKey
  {
  }

  /** No two jobs ever share a dedupe key, so a key names one job for good. */
  lemma {:induction false} KeysStayDistinct(cfg: Config, steps: seq<Step>)
    requires ValidConfig(cfg)
    ensures DistinctKeys(Reached(cfg, steps).db)
    decreases |steps|
  {
    if steps != [] {
      var n := |steps| - 1;
      var s, s' := Reached(cfg, steps[..n]), Reached(cfg, steps);
      KeysStayDistinct(cfg, steps[..n]);
      ReachedInv(cfg, steps[..n]);
      forall id | id in s.db.jobs ensures id in s'.db.jobs && s'.db.jobs[id].task == s.db.jobs[id].task {
        Frame(cfg, s, steps[n], id);
      }
      forall id | id in s'.db.jobs && id !in s.db.jobs
        ensures steps[n].EnqueueJob? && id == steps[n].id && !Conflicts(s.db, id, s'.db.jobs[id].task.dedupeKey)
      {
        NewRowNext(cfg, s, steps[n], id);
      }
    }
  }

  function TransitionLimit(cfg: Config): nat
  {
    if cfg.maxTransitions == 0 then 10 else if cfg.maxTransitions < 0 then 0 else cfg.maxTransitions
  }

  lemma TransitionStep(cfg: Config, s: System, step: Step, key: string)
    ensures var s', n := Next(cfg, s, step), Transitions(s.db, key);
            || (Transitions(s'.db, key) == n && s'.history.transitions[key] == s.history.transitions[key]
                && s'.history.passed[key] == s.history.passed[key])
            || (Transitions(s'.db, key) == n + 1 && s'.history.transitions[key] == s.history.transitions[key] + 1
                && s'.history.passed[key] == s.history.passed[key] + (if WithinTransitions(cfg, n + 1) then 1 else 0))
  {
    HistoryFrame(cfg, s, step);
    if !step.CountTransition? {
      OtherTransitions(cfg, s, step, key);
    }
  }

  lemma OtherTransitions(cfg: Config, s: System, step: Step, key: string)
    requires !step.CountTransition?
    ensures Transitions(Next(cfg, s, step).db, key) == Transitions(s.db, key)
  {
  }

  /** Each issue's transition count is the number of counts committed for it, and the counts let through are the first
      ones, up to the limit: over every interleaving no more than the limit ever pass. */
  lemma {:induction false} TransitionCap(cfg: Config, steps: seq<Step>, key: string)
    ensures var s := Reached(cfg, steps);
            && Transitions(s.db, key) == s.history.transitions[key]
            && s.history.passed[key] == if s.history.transitions[key] < TransitionLimit(cfg)
                                        then s.history.transitions[key] else TransitionLimit(cfg)
    decreases |steps|
  {
    if steps != [] {
      var n := |steps| - 1;
      TransitionCap(cfg, steps[..n], key);
      TransitionStep(cfg, Reached(cfg, steps[..n]), steps[n], key);
    }
  }

  /** A row nobody runs names no owner, lease, process or launch, so a claim starts from a clean row. */
  lemma ClaimStartsClean(cfg: Config, steps: seq<Step>, id: string)
    requires ValidConfig(cfg) && id in Reached(cfg, steps).db.jobs
    ensures var job := Reached(cfg, steps).db.jobs[id];
            (!job.status.Running? ==> Idle(job)) && (job.status.Running? ==> Present(job.owner) && job.leaseUntil.Some?)
  {
    ReachedInv(cfg, steps);
  }

  lemma CapacityHolds(cfg: Config, steps: seq<Step>, route: string)
    requires ValidConfig(cfg)
    ensures |RunningJobs(Reached(cfg, steps).db)| <= cfg.maxGlobal
    ensures route in cfg.limits && cfg.limits[route] > 0 ==>
              |RunningOn(Reached(cfg, steps).db, route)| <= cfg.limits[route]
  {
    ReachedInv(cfg, steps);
  }
}
