/** What a runner holds, and what the answer to each guarded call tells it about that. */
module Holding {
  import opened Wrappers
  import opened Model
  import opened Queries
  import opened Cluster
  import opened Rows
  import opened Launches
  import opened Protocol

  /** Rows that name this runner with a lease that has not run out. */
  function Holdings(s: System, r: string): set<string>
  {
    set id | id in s.db.jobs && s.db.jobs[id].status.Running? && s.db.jobs[id].owner == Some(r)
             && !Expired(s.db.jobs[id], s.clock)
  }

  /** Rows that name this runner, whatever became of the lease. */
  function Owned(s: System, r: string): set<string>
  {
    set id | id in s.db.jobs && s.db.jobs[id].status.Running? && s.db.jobs[id].owner == Some(r)
  }

  /** Held rows whose launch has not been committed. */
  function Unlaunched(s: System, r: string): set<string>
  {
    set id | id in s.db.jobs && s.db.jobs[id].status.Running? && s.db.jobs[id].owner == Some(r)
             && !Expired(s.db.jobs[id], s.clock) && s.db.jobs[id].launch.state == Some(Preparing)
  }

  /** Time went on, and the runner came to own no row and left no more rows unlaunched. */
  predicate NoNewRows(s: System, s': System, r: string)
  {
    s.clock <= s'.clock && Owned(s', r) <= Owned(s, r) && Unlaunched(s', r) <= Unlaunched(s, r)
  }

  /** A finished row, or one of unknown launch state. */
  predicate SettledRow(job: Job)
  {
    IsTerminal(job.status) || (job.status.Running? && job.launch.state == Some(Unknown))
  }

  /** Settled rows are still as they were. */
  ghost predicate SettledKept(s: System, s': System)
  {
    forall id :: id in s.db.jobs && SettledRow(s.db.jobs[id]) ==> id in s'.db.jobs && s'.db.jobs[id] == s.db.jobs[id]
  }

  /** The row is this runner's, running, and of unknown launch state. */
  predicate FrozenFor(s: System, r: string, id: string)
  {
    id in s.db.jobs && s.db.jobs[id].status.Running? && s.db.jobs[id].owner == Some(r) && s.db.jobs[id].launch.state == Some(Unknown)
  }

  /** The row is running and carries this launch record. */
  predicate ShowsRecord(job: Job, r: LaunchRecord)
  {
    && job.status.Running? && job.launch.state == Some(Active) && job.launch.kind == Some(r.supervisorKind)
    && r.token != "" && job.launch.token == Some(r.token)
    && job.launch.supervisorId == Some(r.supervisorId) && job.pid == Some(r.pid) && job.launch.pgid == Some(r.pgid)
    && (r.processStartedAt != 0 ==> job.launch.processStartedAt == Some(r.processStartedAt))
    && (r.metadataPath != "" ==> job.launch.metadataPath == Some(r.metadataPath))
    && (r.specPath != "" ==> job.launch.specPath == Some(r.specPath))
    && (r.timeoutAt != 0 ==> job.launch.timeoutAt == Some(r.timeoutAt))
    && (r.contextPath != "" ==> job.files.context == Some(r.contextPath))
    && (r.resultPath != "" ==> job.files.result == Some(r.resultPath))
    && (r.stdoutPath != "" ==> job.files.stdout == Some(r.stdoutPath))
    && (r.stderrPath != "" ==> job.files.stderr == Some(r.stderrPath))
  }

  /** The row carries this launch spec and is still preparing. */
  predicate ShowsSpec(job: Job, spec: LaunchSpecRecord)
  {
    && job.status.Running? && job.launch.state == Some(Preparing) && job.launch.kind == Some(spec.supervisorKind)
    && job.launch.token == Some(spec.token) && job.launch.specPath == Some(spec.specPath)
    && job.launch.metadataPath == Some(spec.metadataPath) && job.launch.timeoutAt == Some(spec.timeoutAt) && job.files == spec.files
  }

  /** The row is finalized with this status, output and error. */
  predicate ShowsOutcome(job: Job, f: JobFinalize)
  {
    && job.status == f.status && job.lastError == NullIfEmpty(f.lastError)
    && (f.resultPath != "" ==> job.files.result == Some(f.resultPath))
    && (f.stdoutPath != "" ==> job.files.stdout == Some(f.stdoutPath))
    && (f.stderrPath != "" ==> job.files.stderr == Some(f.stderrPath))
    && (f.finishedAt != 0 ==> job.finishedAt == Some(f.finishedAt))
  }

  /** A runner's own claim or adoption. */
  predicate Gains(step: Step, r: string)
  {
    Actor(step) == Some(r) && (step.Claim? || step.AdoptJob?)
  }

  /** No transition count drops, and no generation changes. */
  ghost predicate CountsKept(s: System, s': System)
  {
    forall key :: key in s.db.issues ==>
      && key in s'.db.issues && s'.db.issues[key].transitions >= s.db.issues[key].transitions
      && s'.db.issues[key].generation == s.db.issues[key].generation
  }

  /** No row is gone, and each still has its task. */
  ghost predicate TasksKept(s: System, s': System)
  {
    forall id :: id in s.db.jobs ==> id in s'.db.jobs && s'.db.jobs[id].task == s.db.jobs[id].task
  }

  predicate SameActivity(s: System, s': System, r: string)
  {
    (r in s'.activity <==> r in s.activity) && (r in s.activity ==> s'.activity[r] == s.activity[r])
  }

  /** The runner is where it was in its launch, tasks are kept, and no transition count dropped. */
  ghost predicate Steady(s: System, s': System, r: string)
  {
    SameActivity(s, s', r) && CountsKept(s, s') && TasksKept(s, s')
  }

  lemma TasksStay(cfg: Config, s: System, step: Step)
    requires Inv(cfg, s)
    ensures TasksKept(s, Next(cfg, s, step))
  {
    forall id | id in s.db.jobs ensures id in Next(cfg, s, step).db.jobs && Next(cfg, s, step).db.jobs[id].task == s.db.jobs[id].task {
      Frame(cfg, s, step, id);
    }
  }

  lemma CountsStay(cfg: Config, s: System, step: Step)
    ensures CountsKept(s, Next(cfg, s, step))
  {
    if step.CountTransition? {
      CountsStayCounting(cfg, s, step);
    } else {
      CountsStayOtherwise(cfg, s, step);
    }
  }

  lemma CountsStayCounting(cfg: Config, s: System, step: Step)
    requires step.CountTransition?
    ensures CountsKept(s, Next(cfg, s, step))
  {
  }

  lemma CountsStayOtherwise(cfg: Config, s: System, step: Step)
    requires !step.CountTransition?
    ensures CountsKept(s, Next(cfg, s, step))
  {
  }

  lemma LaunchesNeverDrop(cfg: Config, s: System, step: Step)
    ensures s.history.launches <= Next(cfg, s, step).history.launches
  {
    HistoryFrame(cfg, s, step);
  }

  lemma RowWasOwned(cfg: Config, s: System, step: Step, r: string, id: string, j: Job, k: Job)
    requires RowOk(cfg.lease, s.clock, j) && Allowed(cfg, s, step, id, j, k) && !Gains(step, r)
    requires k.status.Running? && k.owner == Some(r)
    ensures j.status.Running? && j.owner == Some(r)
    ensures k.leaseUntil.Some? && k.leaseUntil.value >= s.clock ==> !Expired(j, s.clock)
  {
  }

  lemma SettledStays(cfg: Config, s: System, step: Step)
    requires Inv(cfg, s)
    ensures SettledKept(s, Next(cfg, s, step))
  {
    forall id | id in s.db.jobs && SettledRow(s.db.jobs[id])
      ensures id in Next(cfg, s, step).db.jobs && Next(cfg, s, step).db.jobs[id] == s.db.jobs[id]
    {
      Frame(cfg, s, step, id);
    }
  }

  lemma OwnedWasOwned(cfg: Config, s: System, step: Step, r: string, id: string)
    requires Inv(cfg, s) && id in Owned(Next(cfg, s, step), r) && !Gains(step, r)
    ensures id in Owned(s, r)
    ensures !Expired(Next(cfg, s, step).db.jobs[id], Next(cfg, s, step).clock) ==> !Expired(s.db.jobs[id], s.clock)
  {
    Leases.ClockNeverGoesBack(cfg, s, step);
    if id in s.db.jobs {
      Frame(cfg, s, step, id);
      RowWasOwned(cfg, s, step, r, id, s.db.jobs[id], Next(cfg, s, step).db.jobs[id]);
    } else {
      Capacity.NewRowsArePending(cfg, s, step, id);
    }
  }

  /** No step but a runner's own claim or adoption gives it a row. */
  lemma HoldingsShrink(cfg: Config, s: System, step: Step, r: string)
    requires Inv(cfg, s) && !Gains(step, r)
    ensures Holdings(Next(cfg, s, step), r) <= Holdings(s, r)
    ensures NoNewRows(s, Next(cfg, s, step), r)
  {
    var s' := Next(cfg, s, step);
    Leases.ClockNeverGoesBack(cfg, s, step);
    forall id | id in Owned(s', r)
      ensures id in Owned(s, r)
      ensures id in Holdings(s', r) ==> id in Holdings(s, r)
      ensures id in Unlaunched(s', r) ==> id in Unlaunched(s, r)
    {
      OwnedWasOwned(cfg, s, step, r, id);
      assert RowOk(cfg.lease, s.clock, s.db.jobs[id]);
      if PastPreparing(s.db.jobs[id]) {
        PastPreparingStays(cfg, s, step, id);
      }
    }
  }

  /** Any step that gives this runner no row, seen from a bookmark. */
  lemma QuietStep(cfg: Config, steps: seq<Step>, mark: System, step: Step, r: string)
    requires ValidConfig(cfg) && !step.Claim? && !step.AdoptJob?
    requires NoNewRows(mark, Reached(cfg, steps), r) && SettledKept(mark, Reached(cfg, steps))
    ensures var s, s' := Reached(cfg, steps), Reached(cfg, steps + [step]);
            && s' == Next(cfg, s, step) && Holdings(s', r) <= Holdings(s, r)
            && NoNewRows(mark, s', r) && SettledKept(mark, s') && s.history.launches <= s'.history.launches
            && CountsKept(s, s') && TasksKept(s, s')
  {
    OneMoreStep(cfg, steps, step);
    CountsStay(cfg, Reached(cfg, steps), step);
    ReachedInv(cfg, steps);
    TasksStay(cfg, Reached(cfg, steps), step);
    LaunchesNeverDrop(cfg, Reached(cfg, steps), step);
    HoldingsShrink(cfg, Reached(cfg, steps), step, r);
    SettledStays(cfg, Reached(cfg, steps), step);
  }

  /** Adoption takes over launched rows only. */
  lemma AdoptedAreLaunched(cfg: Config, s: System, step: Step, r: string)
    requires Inv(cfg, s) && step.AdoptJob? && step.who.instanceId == r
    ensures Owned(Next(cfg, s, step), r) <= Owned(s, r) + {step.id}
    ensures Unlaunched(Next(cfg, s, step), r) <= Unlaunched(s, r)
  {
  }

  lemma AdoptStep(cfg: Config, s: System, who: Identity, id: string, oldOwner: string, at: Time, cutoff: Time)
    requires ValidConfig(cfg) && ValidIdentity(who) && who.instanceId !in s.activity && at <= s.clock
    requires Takeable(s.db, id, oldOwner, at, cutoff)
    ensures Next(cfg, s, AdoptJob(who, id, oldOwner, at, cutoff)).db
            == s.db.(jobs := s.db.jobs[id := Adopted(s.db.jobs[id], who, at, cfg.lease)])
  {
  }

  lemma AdoptionTells(cfg: Config, s: System, who: Identity, id: string, oldOwner: string, at: Time, cutoff: Time)
    requires Inv(cfg, s) && ValidIdentity(who) && who.instanceId !in s.activity && at <= s.clock
    requires Takeable(s.db, id, oldOwner, at, cutoff)
    ensures var s' := Next(cfg, s, AdoptJob(who, id, oldOwner, at, cutoff));
            && s'.db == s.db.(jobs := s.db.jobs[id := Adopted(s.db.jobs[id], who, at, cfg.lease)])
            && s'.clock == s.clock && who.instanceId !in s'.activity
            && Owned(s', who.instanceId) <= Owned(s, who.instanceId) + {id}
            && Unlaunched(s', who.instanceId) <= Unlaunched(s, who.instanceId)
  {
    AdoptStep(cfg, s, who, id, oldOwner, at, cutoff);
    AdoptedAreLaunched(cfg, s, AdoptJob(who, id, oldOwner, at, cutoff), who.instanceId);
  }

  lemma FreezeStep(cfg: Config, s: System, id: string, oldOwner: string, at: Time, cutoff: Time)
    requires at <= s.clock && Takeable(s.db, id, oldOwner, at, cutoff)
    ensures Next(cfg, s, FreezeJob(id, oldOwner, at, cutoff)).db == s.db.(jobs := s.db.jobs[id := Frozen(s.db.jobs[id], at)])
  {
  }

  lemma ReleaseStep(cfg: Config, s: System, at: Time, cutoff: Time, current: string, active: set<string>)
    requires at <= s.clock
    ensures Next(cfg, s, Release(at, cutoff, current, active)).db == ReleaseExpired(s.db, at, cutoff, current, active)
  {
  }

  /** A release that is told every row its caller owns leaves all of them alone, however late they are. */
  lemma OwnRowsAreKept(cfg: Config, s: System, r: string, at: Time, cutoff: Time, active: set<string>)
    requires Inv(cfg, s) && Owned(s, r) <= active && at <= s.clock
    ensures Next(cfg, s, Release(at, cutoff, r, active)).activity == s.activity
    ensures var db := Next(cfg, s, Release(at, cutoff, r, active)).db;
            && db == ReleaseExpired(s.db, at, cutoff, r, active)
            && forall id :: id in Owned(s, r) ==> id in db.jobs && db.jobs[id] == s.db.jobs[id]
  {
    ReleaseStep(cfg, s, at, cutoff, r, active);
    forall id | id in Owned(s, r) ensures id !in ReleaseSet(s.db, at, cutoff, r, active) {
      assert RowOk(cfg.lease, s.clock, s.db.jobs[id]);
    }
  }

  lemma {:induction false} OthersTakeOnly(cfg: Config, s: System, steps: seq<Step>, r: string)
    requires Inv(cfg, s)
    requires forall i :: 0 <= i < |steps| ==> Actor(steps[i]) != Some(r)
    ensures Holdings(Run(cfg, s, steps), r) <= Holdings(s, r)
    ensures NoNewRows(s, Run(cfg, s, steps), r) && SettledKept(s, Run(cfg, s, steps))
    ensures Steady(s, Run(cfg, s, steps), r)
    ensures s.history.launches <= Run(cfg, s, steps).history.launches
    decreases |steps|
  {
    if steps != [] {
      var before := Run(cfg, s, steps[..|steps| - 1]);
      OthersTakeOnly(cfg, s, steps[..|steps| - 1], r);
      InvRun(cfg, s, steps[..|steps| - 1]);
      HoldingsShrink(cfg, before, steps[|steps| - 1], r);
      SettledStays(cfg, before, steps[|steps| - 1]);
      ActivityFrame(cfg, before, steps[|steps| - 1], r);
      CountsStay(cfg, before, steps[|steps| - 1]);
      TasksStay(cfg, before, steps[|steps| - 1]);
      LaunchesNeverDrop(cfg, before, steps[|steps| - 1]);
    }
  }

  // ---- What the answer to a guarded call says about the caller's hold on the row ----

  /** On a well-formed row the update guards and the ownership check agree with holding it. */
  lemma HoldsIsHolding(cfg: Config, s: System, r: string, id: string)
    requires Inv(cfg, s) && r != ""
    ensures id in Holdings(s, r) <==> id in s.db.jobs && Holds(s.db.jobs[id], r, s.clock)
    ensures id in Holdings(s, r) <==> AssertOwned(s.db, id, r, s.clock) == Done
  {
    if id in s.db.jobs {
      assert RowOk(cfg.lease, s.clock, s.db.jobs[id]);
    }
  }

  lemma RenewTells(cfg: Config, s: System, r: string, id: string)
    requires Inv(cfg, s) && r != ""
    ensures Renew(s.db, id, r, cfg.lease, s.clock).1 != Invalid
    ensures Renew(s.db, id, r, cfg.lease, s.clock).1 == Done <==> id in Holdings(s, r)
    ensures Renew(s.db, id, r, cfg.lease, s.clock).1 == Done ==> id in Holdings(Next(cfg, s, RenewLease(r, id)), r)
    ensures Renew(s.db, id, r, cfg.lease, s.clock).1 == Done ==> LeaseExtended(cfg, s, Next(cfg, s, RenewLease(r, id)), id)
    ensures Next(cfg, s, RenewLease(r, id)).db == Renew(s.db, id, r, cfg.lease, s.clock).0
  {
    HoldsIsHolding(cfg, s, r, id);
  }

  /** The job's lease now runs for a whole lease from the time of the first state, and nothing else of its row but the time of
      its last update changed. */
  predicate LeaseExtended(cfg: Config, s: System, s': System, id: string)
  {
    && id in s.db.jobs && id in s'.db.jobs
    && s'.db.jobs[id] == s.db.jobs[id].(leaseUntil := Some(s.clock + cfg.lease), updatedAt := s.clock)
  }

  /** This moment of the run is a renewal by the runner; if it holds the job then, the job's lease is extended. */
  ghost predicate RenewalAt(cfg: Config, trace: seq<Step>, n: nat, r: string, id: string)
  {
    && n < |trace| && trace[n] == RenewLease(r, id)
    && (id in Holdings(Reached(cfg, trace[..n]), r) ==> LeaseExtended(cfg, Reached(cfg, trace[..n]), Reached(cfg, trace[..n + 1]), id))
  }

  /** Before the n-th moment the runner renewed its lease on a job it held, and did nothing else since. */
  ghost predicate RenewedBefore(cfg: Config, trace: seq<Step>, n: nat, r: string, id: string)
  {
    n <= |trace|
    && exists m :: 0 <= m < n && RenewalAt(cfg, trace, m, r, id) && id in Holdings(Reached(cfg, trace[..m]), r)
                   && forall k :: m < k < n ==> Actor(trace[k]) != Some(r)
  }

  /** From this moment of the run on, the runner renewed each of these jobs. */
  ghost predicate AllRenewed(cfg: Config, trace: seq<Step>, ids: set<string>, from: nat, r: string)
  {
    forall id :: id in ids ==> RenewedSince(cfg, trace, from, r, id)
  }

  ghost predicate RenewedSince(cfg: Config, trace: seq<Step>, from: nat, r: string, id: string)
  {
    exists n :: from <= n < |trace| && RenewalAt(cfg, trace, n, r, id)
  }

  lemma RenewedSinceStays(cfg: Config, trace: seq<Step>, longer: seq<Step>, from: nat, r: string, id: string)
    requires trace <= longer && RenewedSince(cfg, trace, from, r, id)
    ensures RenewedSince(cfg, longer, from, r, id)
  {
    var n :| from <= n < |trace| && RenewalAt(cfg, trace, n, r, id);
    RenewalStays(cfg, trace, longer, n, r, id);
  }

  lemma AllRenewedStays(cfg: Config, trace: seq<Step>, longer: seq<Step>, ids: set<string>, from: nat, r: string)
    requires trace <= longer && AllRenewed(cfg, trace, ids, from, r)
    ensures AllRenewed(cfg, longer, ids, from, r)
  {
    forall id | id in ids ensures RenewedSince(cfg, longer, from, r, id) {
      RenewedSinceStays(cfg, trace, longer, from, r, id);
    }
  }

  lemma RenewalStays(cfg: Config, trace: seq<Step>, longer: seq<Step>, n: nat, r: string, id: string)
    requires trace <= longer && RenewalAt(cfg, trace, n, r, id)
    ensures RenewalAt(cfg, longer, n, r, id)
  {
    assert longer[..n] == trace[..n] && longer[..n + 1] == trace[..n + 1];
  }

  /** Steps of others do not undo that. */
  lemma OthersKeepRenewed(cfg: Config, trace: seq<Step>, others: seq<Step>, r: string)
    requires forall i :: 0 <= i < |others| ==> Actor(others[i]) != Some(r)
    ensures forall id :: RenewedBefore(cfg, trace, |trace|, r, id) ==> RenewedBefore(cfg, trace + others, |trace + others|, r, id)
  {
    var longer := trace + others;
    forall id | RenewedBefore(cfg, trace, |trace|, r, id) ensures RenewedBefore(cfg, longer, |longer|, r, id) {
      var m :| 0 <= m < |trace| && RenewalAt(cfg, trace, m, r, id) && id in Holdings(Reached(cfg, trace[..m]), r)
               && forall k :: m < k < |trace| ==> Actor(trace[k]) != Some(r);
      RenewalStays(cfg, trace, longer, m, r, id);
      assert longer[..m] == trace[..m];
    }
  }

  /** A renewal that comes last. */
  lemma JustRenewed(cfg: Config, trace: seq<Step>, r: string, id: string)
    requires ValidConfig(cfg) && r != ""
    ensures var longer, s := trace + [RenewLease(r, id)], Reached(cfg, trace);
            && RenewalAt(cfg, longer, |trace|, r, id)
            && (id in Holdings(s, r) ==> RenewedBefore(cfg, longer, |longer|, r, id))
  {
    ReachedInv(cfg, trace);
    OneMoreStep(cfg, trace, RenewLease(r, id));
    RenewTells(cfg, Reached(cfg, trace), r, id);
    var longer := trace + [RenewLease(r, id)];
    assert longer[..|trace|] == trace && longer[..|trace| + 1] == longer;
  }

  lemma FinalizeTells(cfg: Config, s: System, r: string, id: string, f: JobFinalize)
    requires Inv(cfg, s) && r != ""
    ensures Finalize(s.db, id, r, f, s.clock).1 != Invalid
    ensures Finalize(s.db, id, r, f, s.clock).1 == Done <==> id in Holdings(s, r)
    ensures id !in Holdings(Next(cfg, s, FinalizeJob(r, id, f)), r)
    ensures Next(cfg, s, FinalizeJob(r, id, f)).activity == s.activity
    ensures Finalize(s.db, id, r, f, s.clock).1 == Done ==>
              id in s.db.jobs && id in Next(cfg, s, FinalizeJob(r, id, f)).db.jobs
              && FinalColumns(s.db.jobs[id], Next(cfg, s, FinalizeJob(r, id, f)).db.jobs[id], f, s.clock)
    ensures Next(cfg, s, FinalizeJob(r, id, f)).db == Finalize(s.db, id, r, f, s.clock).0
  {
    HoldsIsHolding(cfg, s, r, id);
  }

  lemma TransitionTells(cfg: Config, s: System, r: string, id: string, issueKey: string)
    requires Inv(cfg, s) && r != ""
    ensures var (db, outcome, n) := IncrementTransitions(s.db, id, r, issueKey, s.clock);
            var s' := Next(cfg, s, CountTransition(r, id, issueKey));
            && s'.db == db && s'.activity == s.activity
            && ((outcome == NotOwner || outcome == LostLease) ==> id !in Holdings(s, r))
            && (outcome == Done ==> issueKey in db.issues && db.issues[issueKey].transitions == n)
  {
    HoldsIsHolding(cfg, s, r, id);
  }

  lemma CountNext(cfg: Config, s: System, r: string, id: string, generation: int, scope: string)
    requires InPhase(s, r, id, Fresh)
    ensures var (db, outcome, n) := Increment(s.db, id, r, CounterOf(s.db, id, generation, scope), s.clock);
            var s' := Next(cfg, s, CountAttempt(r, id, generation, scope));
            && s'.db == db && (outcome == Done ==>
                  var limit := MaxAttempts(cfg, CounterOf(s.db, id, generation, scope).routeName);
                  InPhase(s', r, id, if n <= limit then Granted else Refused))
  {
  }

  lemma CountTells(cfg: Config, s: System, r: string, id: string, generation: int, scope: string)
    requires Inv(cfg, s) && r != "" && InPhase(s, r, id, Fresh)
    ensures var (db, outcome, n) := Increment(s.db, id, r, CounterOf(s.db, id, generation, scope), s.clock);
            var s' := Next(cfg, s, CountAttempt(r, id, generation, scope));
            && s'.db == db && outcome != Invalid
            && (outcome != Done ==> id !in Holdings(s, r))
            && (outcome == Done ==>
                  InPhase(s', r, id, if n <= MaxAttempts(cfg, s.db.jobs[id].task.routeName) then Granted else Refused))
  {
    HoldsIsHolding(cfg, s, r, id);
    CountNext(cfg, s, r, id, generation, scope);
  }

  /** A launch spec is refused to a runner at this phase only if the row is no longer its own. */
  lemma SaveSpecTells(cfg: Config, s: System, r: string, id: string, spec: LaunchSpecRecord)
    requires Inv(cfg, s) && r != "" && (InPhase(s, r, id, Granted) || (!cfg.github && InPhase(s, r, id, Fresh)))
    ensures var (db, outcome) := PersistSpec(s.db, id, r, spec, s.clock);
            var s' := Next(cfg, s, SaveSpec(r, id, spec));
            && s'.db == db && (outcome == Done ==> InPhase(s', r, id, SpecSaved(spec.token)))
            && ((outcome == NotOwner || outcome == LostLease) ==> id !in Holdings(s, r))
  {
    HoldsIsHolding(cfg, s, r, id);
    assert ActivityMatches(s.db, r, s.activity[r]);
  }

  lemma CommitTells(cfg: Config, s: System, r: string, id: string, token: string)
    requires Inv(cfg, s) && r != "" && InPhase(s, r, id, SpecSaved(token))
    ensures var (db, outcome) := MarkLaunching(s.db, id, r, token, s.clock);
            var s' := Next(cfg, s, CommitLaunch(r));
            && s'.db == db && outcome != Invalid && (outcome == Done ==> InPhase(s', r, id, Committed(token)))
            && (outcome != Done ==> id !in Holdings(s, r))
  {
    HoldsIsHolding(cfg, s, r, id);
    assert ActivityMatches(s.db, r, s.activity[r]);
  }

  lemma RecordStores(cfg: Config, s: System, r: string, id: string, record: LaunchRecord)
    requires PersistRecord(s.db, id, r, record, s.clock).1 == Done
    ensures var db := PersistRecord(s.db, id, r, record, s.clock).0;
            && id in db.jobs && ShowsRecord(db.jobs[id], record)
            && id in s.db.jobs && RecordColumns(s.db.jobs[id], db.jobs[id], record, s.clock)
  {
  }

  /** A finalization reverses the job's count exactly when work never started and the job was ever counted. */
  lemma FinalizeReversal(cfg: Config, steps: seq<Step>, r: string, id: string, f: JobFinalize)
    requires ValidConfig(cfg) && Finalize(Reached(cfg, steps).db, id, r, f, Reached(cfg, steps).clock).1 == Done
    ensures var s := Reached(cfg, steps);
            && id in s.db.jobs
            && (id in Next(cfg, s, FinalizeJob(r, id, f)).history.reversed <==>
                  f.workStarted == Some(false) && s.db.jobs[id].attempt.scope.Some?)
  {
    ReachedInv(cfg, steps);
    ReversalNeverBlocked(cfg, steps, id);
  }

  lemma RecordTells(cfg: Config, s: System, r: string, id: string, record: LaunchRecord)
    requires Inv(cfg, s) && r != "" && InPhase(s, r, id, Launched(record.token))
    ensures var (db, outcome) := PersistRecord(s.db, id, r, record, s.clock);
            && Next(cfg, s, SaveRecord(r, record)).db == db
            && ((outcome == NotOwner || outcome == LostLease) ==> id !in Holdings(s, r))
  {
    HoldsIsHolding(cfg, s, r, id);
    assert ActivityMatches(s.db, r, s.activity[r]);
    if id in s.db.jobs {
      assert RowOk(cfg.lease, s.clock, s.db.jobs[id]);
    }
  }

  lemma ClaimAddsOne(cfg: Config, s: System, who: Identity, kinds: seq<string>, frontier: Option<set<string>>, id: string)
    requires Inv(cfg, s) && ValidIdentity(who) && who.instanceId !in s.activity && |RunningJobs(s.db)| < cfg.maxGlobal
    requires Claimable(s.db, ClaimFilter(kinds, cfg.limits, frontier), id, s.clock)
    ensures var s' := Next(cfg, s, Claim(who, kinds, frontier, id));
            && s'.db == ClaimRow(s.db, id, who, s.clock, cfg.lease) && InPhase(s', who.instanceId, id, Fresh)
            && Holdings(s', who.instanceId) <= Holdings(s, who.instanceId) + {id}
            && Owned(s', who.instanceId) <= Owned(s, who.instanceId) + {id}
            && Unlaunched(s', who.instanceId) <= Unlaunched(s, who.instanceId) + {id}
  {
  }

  lemma BeatStep(cfg: Config, s: System, who: Identity, pid: int, at: Time)
    requires ValidIdentity(who)
    ensures Next(cfg, s, Heartbeats(who, pid, at)).db == Beat(s.db, who, pid, at).0
    ensures Next(cfg, s, Heartbeats(who, pid, at)).activity == s.activity
  {
  }

  lemma DropStep(cfg: Config, s: System, instance: string)
    ensures Next(cfg, s, DropHeartbeat(instance)).db == DeleteBeat(s.db, instance)
    ensures Next(cfg, s, DropHeartbeat(instance)).activity == s.activity
  {
  }

  lemma PruneStep(cfg: Config, s: System, before: Time)
    ensures Next(cfg, s, PruneHeartbeats(before)).db == Prune(s.db, before)
    ensures Next(cfg, s, PruneHeartbeats(before)).activity == s.activity
  {
  }

  lemma SnapshotStep(cfg: Config, s: System, issueKey: string)
    ensures Next(cfg, s, SnapshotIssue(issueKey)).db == UpsertIssue(s.db, issueKey)
    ensures Next(cfg, s, SnapshotIssue(issueKey)).activity == s.activity
  {
  }

  lemma LaunchStep(cfg: Config, s: System, r: string, id: string, token: string)
    requires InPhase(s, r, id, Committed(token))
    ensures var s' := Next(cfg, s, Step.Launch(r));
            s'.db == s.db && InPhase(s', r, id, Launched(token)) && s'.history.launches[id] > 0
  {
  }

  lemma CountKeepsTask(cfg: Config, s: System, step: Step)
    requires step.CountAttempt? && step.id in s.db.jobs
    ensures step.id in Next(cfg, s, step).db.jobs
    ensures Next(cfg, s, step).db.jobs[step.id].task == s.db.jobs[step.id].task
  {
  }
}
