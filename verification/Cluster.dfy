/** The queue shared by any number of runner instances, as a state machine over atomic store steps.

    A runner instance works through one launch at a time, the phases of LaunchClaimedWrapper and
    PrepareClaimedWrapperLaunch; a crashed runner is one that takes no further step. The clock never goes back, every
    committed step reads it, and the explicit `at` of the recovery calls is an earlier reading. */
module Cluster {
  import opened Wrappers
  import opened Model
  import opened Queries

  /** Settings every runner shares. */
  datatype Config = Config(maxGlobal: nat, limits: map<string, int>, lease: Time, maxAttempts: map<string, nat>,
                           maxTransitions: int, github: bool)

  predicate ValidConfig(cfg: Config)
  {
    cfg.lease > 0
  }

  function MaxAttempts(cfg: Config, route: string): nat
  {
    if route in cfg.maxAttempts then cfg.maxAttempts[route] else 0
  }

  /** The default limit is 10; a negative limit allows nothing. */
  predicate WithinTransitions(cfg: Config, count: nat)
  {
    var limit := if cfg.maxTransitions == 0 then 10 else cfg.maxTransitions;
    0 <= limit && count <= limit
  }

  /** How far a runner is with the job it claimed. */
  datatype Phase =
    | Fresh                      // claimed
    | Granted                    // counted within the attempt limit
    | Refused                    // counted beyond it
    | SpecSaved(token: string)
    | Committed(token: string)   // marked launching, Launch not yet called
    | Launched(token: string)    // Launch called

  datatype Activity = Activity(job: string, phase: Phase)

  /** A promise made to a runner: the job is its own until the given time. */
  datatype Receipt = Receipt(runner: string, job: string, until: Time)

  /** What happened so far; no step reads it. */
  datatype History = History(launches: multiset<string>, receipts: set<Receipt>,
                             increments: multiset<AttemptKey>, reversals: multiset<AttemptKey>,
                             reversed: set<string>, granted: set<string>, finalizer: map<string, string>,
                             transitions: multiset<string>, passed: multiset<string>)

  datatype System = System(db: Db, clock: Time, activity: map<string, Activity>, history: History)

  const START := System(EMPTY_DB, 0, map[], History(multiset{}, {}, multiset{}, multiset{}, {}, {}, map[], multiset{}, multiset{}))

  datatype Step =
    | Tick(to: Time)
    | EnqueueJob(id: string, task: Task)
    | Claim(who: Identity, kinds: seq<string>, frontier: Option<set<string>>, id: string)
    | RenewLease(r: string, id: string)
    | CountAttempt(r: string, id: string, generation: int, scope: string)
    | SnapshotIssue(issueKey: string)
    | CountTransition(r: string, id: string, issueKey: string)
    | SaveSpec(r: string, id: string, spec: LaunchSpecRecord)
    | CommitLaunch(r: string)
    | Launch(r: string)
    | SaveRecord(r: string, record: LaunchRecord)
    | Leave(r: string)
    | FinalizeJob(r: string, id: string, f: JobFinalize)
    | Release(at: Time, cutoff: Time, current: string, active: set<string>)
    | AdoptJob(who: Identity, id: string, oldOwner: string, at: Time, cutoff: Time)
    | FreezeJob(id: string, oldOwner: string, at: Time, cutoff: Time)
    | Heartbeats(who: Identity, pid: int, at: Time)
    | DropHeartbeat(instance: string)
    | PruneHeartbeats(before: Time)

  predicate InPhase(s: System, r: string, id: string, phase: Phase)
  {
    r in s.activity && s.activity[r] == Activity(id, phase)
  }

  function NextClaim(cfg: Config, s: System, who: Identity, kinds: seq<string>, frontier: Option<set<string>>, id: string): System
  {
    if ValidIdentity(who) && who.instanceId !in s.activity && |RunningJobs(s.db)| < cfg.maxGlobal
       && Claimable(s.db, ClaimFilter(kinds, cfg.limits, frontier), id, s.clock) then
      s.(db := ClaimRow(s.db, id, who, s.clock, cfg.lease),
         activity := s.activity[who.instanceId := Activity(id, Fresh)],
         history := s.history.(receipts := s.history.receipts + {Receipt(who.instanceId, id, s.clock + cfg.lease)}))
    else s
  }

  function NextRenew(cfg: Config, s: System, r: string, id: string): System
  {
    var (db, outcome) := Renew(s.db, id, r, cfg.lease, s.clock);
    if outcome == Done then
      s.(db := db, history := s.history.(receipts := s.history.receipts + {Receipt(r, id, s.clock + cfg.lease)}))
    else s
  }

  /** The counter of the job's own issue and route. */
  function CounterOf(db: Db, id: string, generation: int, scope: string): AttemptKey
  {
    AttemptKey(Row(db, id).task.issueKey, generation, Row(db, id).task.routeName, ScopeOrLegacy(scope))
  }

  function NextCount(cfg: Config, s: System, r: string, id: string, generation: int, scope: string): System
  {
    if !InPhase(s, r, id, Fresh) then s
    else
      var key := CounterOf(s.db, id, generation, scope);
      var (db, outcome, n) := Increment(s.db, id, r, key, s.clock);
      if outcome != Done then s
      else
        var within := n <= MaxAttempts(cfg, key.routeName);
        s.(db := db,
           activity := s.activity[r := Activity(id, if within then Granted else Refused)],
           history := s.history.(increments := s.history.increments + multiset{key},
                                 granted := if within then s.history.granted + {id} else s.history.granted - {id}))
  }

  function NextCountTransition(cfg: Config, s: System, r: string, id: string, issueKey: string): System
  {
    var (db, outcome, n) := IncrementTransitions(s.db, id, r, issueKey, s.clock);
    if outcome != Done then s
    else
      s.(db := db,
         history := s.history.(transitions := s.history.transitions + multiset{issueKey},
                               passed := s.history.passed + if WithinTransitions(cfg, n) then multiset{issueKey} else multiset{}))
  }

  function NextSaveSpec(cfg: Config, s: System, r: string, id: string, spec: LaunchSpecRecord): System
  {
    if !(InPhase(s, r, id, Granted) || (!cfg.github && InPhase(s, r, id, Fresh))) then s
    else
      var (db, outcome) := PersistSpec(s.db, id, r, spec, s.clock);
      if outcome == Done then s.(db := db, activity := s.activity[r := Activity(id, SpecSaved(spec.token))]) else s
  }

  function NextCommit(s: System, r: string): System
  {
    if !(r in s.activity && s.activity[r].phase.SpecSaved?) then s
    else
      var a := s.activity[r];
      var (db, outcome) := MarkLaunching(s.db, a.job, r, a.phase.token, s.clock);
      if outcome == Done then s.(db := db, activity := s.activity[r := Activity(a.job, Committed(a.phase.token))]) else s
  }

  function NextLaunch(s: System, r: string): System
  {
    if !(r in s.activity && s.activity[r].phase.Committed?) then s
    else
      var a := s.activity[r];
      s.(activity := s.activity[r := Activity(a.job, Launched(a.phase.token))],
         history := s.history.(launches := s.history.launches + multiset{a.job}))
  }

  function NextSaveRecord(s: System, r: string, record: LaunchRecord): System
  {
    if !(r in s.activity && s.activity[r].phase == Launched(record.token)) then s
    else
      var (db, outcome) := PersistRecord(s.db, s.activity[r].job, r, record, s.clock);
      if outcome == Done then s.(db := db, activity := s.activity - {r}) else s
  }

  function NextFinalize(s: System, r: string, id: string, f: JobFinalize): System
  {
    var (db, outcome) := Finalize(s.db, id, r, f, s.clock);
    if outcome != Done then s
    else
      var h := s.history.(finalizer := s.history.finalizer[id := r]);
      s.(db := db,
         history := if f.workStarted == Some(false) && Reversible(s.db, s.db.jobs[id])
                    then h.(reversals := h.reversals + multiset{Provenance(s.db.jobs[id])}, reversed := h.reversed + {id})
                    else h)
  }

  function NextAdopt(cfg: Config, s: System, who: Identity, id: string, oldOwner: string, at: Time, cutoff: Time): System
  {
    if at > s.clock || who.instanceId in s.activity then s
    else
      var (db, outcome) := Adopt(s.db, id, oldOwner, who, cfg.lease, at, cutoff);
      if outcome == Done then
        s.(db := db,
           history := s.history.(receipts := s.history.receipts + {Receipt(who.instanceId, id, at + cfg.lease)}))
      else s
  }

  function Next(cfg: Config, s: System, step: Step): System
  {
    match step
    case Tick(to) => if to >= s.clock then s.(clock := to) else s
    case EnqueueJob(id, task) => s.(db := Enqueue(s.db, id, task, s.clock))
    case Claim(who, kinds, frontier, id) => NextClaim(cfg, s, who, kinds, frontier, id)
    case RenewLease(r, id) => NextRenew(cfg, s, r, id)
    case CountAttempt(r, id, generation, scope) => NextCount(cfg, s, r, id, generation, scope)
    case SnapshotIssue(issueKey) => s.(db := UpsertIssue(s.db, issueKey))
    case CountTransition(r, id, issueKey) => NextCountTransition(cfg, s, r, id, issueKey)
    case SaveSpec(r, id, spec) => NextSaveSpec(cfg, s, r, id, spec)
    case CommitLaunch(r) => NextCommit(s, r)
    case Launch(r) => NextLaunch(s, r)
    case SaveRecord(r, record) => NextSaveRecord(s, r, record)
    case Leave(r) => s.(activity := s.activity - {r})
    case FinalizeJob(r, id, f) => NextFinalize(s, r, id, f)
    case Release(at, cutoff, current, active) =>
      if at <= s.clock then s.(db := ReleaseExpired(s.db, at, cutoff, current, active)) else s
    case AdoptJob(who, id, oldOwner, at, cutoff) => NextAdopt(cfg, s, who, id, oldOwner, at, cutoff)
    case FreezeJob(id, oldOwner, at, cutoff) =>
      if at <= s.clock then s.(db := MarkUnknown(s.db, id, oldOwner, at, cutoff).0) else s
    case Heartbeats(who, pid, at) => s.(db := Beat(s.db, who, pid, at).0)
    case DropHeartbeat(instance) => s.(db := DeleteBeat(s.db, instance))
    case PruneHeartbeats(before) => s.(db := Prune(s.db, before))
  }

  /** The steps of a launch. */
  predicate IsLaunchStep(step: Step)
  {
    step.Claim? || step.CountAttempt? || step.SaveSpec? || step.CommitLaunch? || step.Launch? || step.SaveRecord? || step.Leave?
  }

  /** The steps that take a row away from an owner whose lease expired. */
  predicate IsRecoveryStep(step: Step)
  {
    step.Release? || step.AdoptJob? || step.FreezeJob?
  }

  /** A run: every interleaving of every runner's steps is such a sequence. */
  function Run(cfg: Config, s: System, steps: seq<Step>): System
    decreases |steps|
  {
    if steps == [] then s
    else Next(cfg, Run(cfg, s, steps[..|steps| - 1]), steps[|steps| - 1])
  }

  lemma {:induction false} RunAppends(cfg: Config, s: System, a: seq<Step>, b: seq<Step>)
    ensures Run(cfg, s, a + b) == Run(cfg, Run(cfg, s, a), b)
    decreases |b|
  {
    if b == [] {
      assert a + b == a;
    } else {
      assert (a + b)[..|a + b| - 1] == a + b[..|b| - 1];
      RunAppends(cfg, s, a, b[..|b| - 1]);
    }
  }

  /** The runner instance that performs a step by itself, when there is one. */
  function Actor(step: Step): Option<string>
  {
    match step
    case Claim(who, _, _, _) => Some(who.instanceId)
    case RenewLease(r, _) => Some(r)
    case CountAttempt(r, _, _, _) => Some(r)
    case CountTransition(r, _, _) => Some(r)
    case SaveSpec(r, _, _) => Some(r)
    case CommitLaunch(r) => Some(r)
    case Launch(r) => Some(r)
    case SaveRecord(r, _) => Some(r)
    case Leave(r) => Some(r)
    case FinalizeJob(r, _, _) => Some(r)
    case AdoptJob(who, _, _, _, _) => Some(who.instanceId)
    case _ => None
  }
}
