/** Each SQL guard and each committed effect of internal/store/sqlite/sqlite.go, on the tables as values.
    The class Store is proved against these functions; the protocol's theorems are about them. */
module Queries {
  import opened Wrappers
  import opened Ordering
  import opened Model

  // ---- Guards ----

  /** WHERE runner_instance_id = ? AND status = 'running' AND (lease_until IS NULL OR lease_until >= ?) */
  predicate Holds(job: Job, runner: string, now: Time)
  {
    job.status.Running? && job.owner == Some(runner) && (job.leaseUntil.None? || job.leaseUntil.value >= now)
  }

  predicate Expired(job: Job, now: Time)
  {
    job.leaseUntil.Some? && job.leaseUntil.value < now
  }

  /** assertJobOwnedTx */
  function AssertOwned(db: Db, id: string, runner: string, now: Time): Outcome
  {
    if id !in db.jobs then NotOwner
    else if !db.jobs[id].status.Running? || Text(db.jobs[id].owner) != runner then NotOwner
    else if Expired(db.jobs[id], now) then LostLease
    else Done
  }

  /** ownershipError: why a guarded update matched no row */
  function OwnershipError(db: Db, id: string, runner: string, now: Time): Outcome
  {
    if id in db.jobs && db.jobs[id].status.Running? && Text(db.jobs[id].owner) == runner && Expired(db.jobs[id], now)
    then LostLease
    else NotOwner
  }

  /** The owner test of the LEFT JOIN queries: no owner, no heartbeat row, or a stale one. */
  predicate OwnerStale(heartbeats: map<string, Heartbeat>, owner: Option<string>, cutoff: Time)
  {
    owner.None? || owner.value == "" || owner.value !in heartbeats || heartbeats[owner.value].at < cutoff
  }

  /** The owner test of the guarded updates: NOT EXISTS (... heartbeat_at >= ?). */
  predicate NoFreshHeartbeat(heartbeats: map<string, Heartbeat>, instance: string, cutoff: Time)
  {
    !(instance in heartbeats && heartbeats[instance].at >= cutoff)
  }

  /** Nothing durable was launched, or the launch is still preparing. */
  predicate Relaunchable(job: Job)
  {
    !Present(job.launch.kind) || !Present(job.launch.token) || job.launch.state == Some(Preparing)
  }

  /** Durable launch evidence that another runner can supervise; NULL launch_state compares as not true. */
  predicate Durable(job: Job)
  {
    job.launch.state.Some? && job.launch.state.value != Preparing && job.launch.state.value != Unknown
    && Present(job.launch.kind) && Present(job.launch.token)
    && (Present(job.launch.supervisorId) || Present(job.launch.metadataPath))
  }

  predicate Releasable(db: Db, job: Job, now: Time, cutoff: Time)
  {
    job.status.Running? && Expired(job, now) && OwnerStale(db.heartbeats, job.owner, cutoff) && Relaunchable(job)
  }

  /** The caller's own active jobs are skipped. */
  predicate Excluded(id: string, job: Job, current: string, active: set<string>)
  {
    id in active && current != "" && Text(job.owner) == current
  }

  predicate StaleDurable(db: Db, job: Job, now: Time, cutoff: Time)
  {
    job.status.Running? && Expired(job, now) && Durable(job) && OwnerStale(db.heartbeats, job.owner, cutoff)
  }

  /** WHERE clause shared by adoption and mark-unknown */
  predicate Takeable(db: Db, id: string, oldOwner: string, now: Time, cutoff: Time)
  {
    id in db.jobs && db.jobs[id].status.Running? && db.jobs[id].owner == Some(oldOwner) && Expired(db.jobs[id], now)
    && Durable(db.jobs[id]) && NoFreshHeartbeat(db.heartbeats, oldOwner, cutoff)
  }

  // ---- Claim ----

  function RunningJobs(db: Db): set<string>
  {
    set id | id in db.jobs && db.jobs[id].status.Running?
  }

  function RunningOn(db: Db, route: string): set<string>
  {
    set id | id in db.jobs && db.jobs[id].status.Running? && db.jobs[id].task.routeName == route
  }

  predicate RouteHasRoom(db: Db, limits: map<string, int>, route: string)
  {
    route in limits && limits[route] > 0 ==> |RunningOn(db, route)| < limits[route]
  }

  /** What one claim may choose from. */
  datatype ClaimFilter = ClaimFilter(kinds: seq<string>, limits: map<string, int>, frontier: Option<set<string>>)

  predicate Wanted(filter: ClaimFilter, id: string, job: Job)
  {
    (filter.frontier.Some? ==> id in filter.frontier.value)
    && (filter.kinds != [] ==> job.task.kind in filter.kinds)
  }

  predicate Eligible(db: Db, id: string, now: Time)
  {
    id in db.jobs && db.jobs[id].status.Pending? && db.jobs[id].task.availableAt <= now
  }

  predicate Claimable(db: Db, filter: ClaimFilter, id: string, now: Time)
  {
    Eligible(db, id, now) && Wanted(filter, id, db.jobs[id])
    && RouteHasRoom(db, filter.limits, db.jobs[id].task.routeName)
  }

  /** ORDER BY priority DESC, created_at ASC, id ASC */
  predicate ClaimsBefore(jobs: map<string, Job>, a: string, b: string)
  {
    if a in jobs && b in jobs then
      var x, y := jobs[a].task, jobs[b].task;
      x.priority > y.priority
      || (x.priority == y.priority && (x.createdAt < y.createdAt || (x.createdAt == y.createdAt && TextLe(a, b))))
    else a in jobs || (b !in jobs && TextLe(a, b))
  }

  /** The row the ordered scan stops at. */
  ghost predicate IsNextClaim(db: Db, filter: ClaimFilter, id: string, now: Time)
  {
    Claimable(db, filter, id, now)
    && forall other :: Claimable(db, filter, other, now) ==> ClaimsBefore(db.jobs, id, other)
  }

  function Claimed(job: Job, who: Identity, now: Time, lease: Time): Job
  {
    job.(status := Running, lockedBy := Some(who.runnerId), owner := Some(who.instanceId),
         leaseUntil := Some(now + lease), startedAt := Coalesce(job.startedAt, Some(now)), updatedAt := now,
         lastError := None, launch := NO_LAUNCH.(state := Some(Preparing)))
  }

  function ClaimRow(db: Db, id: string, who: Identity, now: Time, lease: Time): Db
    requires id in db.jobs
  {
    db.(jobs := db.jobs[id := Claimed(db.jobs[id], who, now, lease)])
  }

  // ---- Release ----

  function Released(job: Job, now: Time): Job
  {
    job.(status := Pending, lockedBy := None, owner := None, leaseUntil := None, pid := None, launch := NO_LAUNCH,
         updatedAt := now, lastError := Some("lease expired"))
  }

  function ReleaseSet(db: Db, now: Time, cutoff: Time, current: string, active: set<string>): set<string>
  {
    set id | id in db.jobs && Releasable(db, db.jobs[id], now, cutoff) && !Excluded(id, db.jobs[id], current, active)
  }

  function ReleaseRows(db: Db, ids: set<string>, now: Time): Db
  {
    db.(jobs := map id | id in db.jobs :: if id in ids then Released(db.jobs[id], now) else db.jobs[id])
  }

  function ReleaseExpired(db: Db, now: Time, cutoff: Time, current: string, active: set<string>): Db
  {
    ReleaseRows(db, ReleaseSet(db, now, cutoff, current, active), now)
  }

  // ---- Guarded single-row updates ----

  /** execOwned: one row or a classified refusal */
  function UpdateHeld(db: Db, id: string, runner: string, now: Time, guard: bool, job: Job): (Db, Outcome)
  {
    if id in db.jobs && Holds(db.jobs[id], runner, now) && guard then (db.(jobs := db.jobs[id := job]), Done)
    else (db, OwnershipError(db, id, runner, now))
  }

  /** The row a guarded update reads; any row when there is none. */
  function Row(db: Db, id: string): Job
  {
    if id in db.jobs then db.jobs[id] else NO_JOB
  }

  const NO_JOB := Job(Task("", "", "", 0, "", 0, 0), Failed, Attempt(0, 0, None), None, None, None, None, NO_LAUNCH,
                      Files(None, None, None, None), None, None, None, 0)

  function Renew(db: Db, id: string, runner: string, lease: Time, now: Time): (Db, Outcome)
  {
    if lease == 0 then (db, Invalid)
    else UpdateHeld(db, id, runner, now, true, Row(db, id).(leaseUntil := Some(now + lease), updatedAt := now))
  }

  predicate ValidSpecRecord(r: LaunchSpecRecord)
  {
    r.supervisorKind != "" && r.token != "" && r.specPath != "" && r.metadataPath != "" && r.timeoutAt != 0
  }

  function SpecPersisted(job: Job, r: LaunchSpecRecord, now: Time): Job
  {
    job.(launch := job.launch.(kind := Some(r.supervisorKind), token := Some(r.token), state := Some(Preparing),
                               specPath := Some(r.specPath), metadataPath := Some(r.metadataPath),
                               timeoutAt := Some(r.timeoutAt)),
         files := r.files, updatedAt := now)
  }

  function PersistSpec(db: Db, id: string, runner: string, r: LaunchSpecRecord, now: Time): (Db, Outcome)
  {
    if !ValidSpecRecord(r) then (db, Invalid)
    else UpdateHeld(db, id, runner, now, Row(db, id).launch.state == Some(Preparing), SpecPersisted(Row(db, id), r, now))
  }

  function MarkLaunching(db: Db, id: string, runner: string, token: string, now: Time): (Db, Outcome)
  {
    var job := Row(db, id);
    UpdateHeld(db, id, runner, now, job.launch.token == Some(token) && job.launch.state == Some(Preparing),
               job.(launch := job.launch.(state := Some(Launching)), updatedAt := now))
  }

  predicate ValidRecord(r: LaunchRecord)
  {
    r.supervisorKind != "" && (r.supervisorId != "" || r.metadataPath != "") && r.token != ""
  }

  function RecordPersisted(job: Job, r: LaunchRecord, now: Time): Job
  {
    job.(pid := Some(r.pid),
         launch := Launch(Coalesce(NullIfEmpty(r.supervisorKind), job.launch.kind), Some(r.supervisorId),
                          Coalesce(NullIfEmpty(r.token), job.launch.token), Some(Active), Some(r.pgid),
                          Coalesce(NullIfZero(r.processStartedAt), job.launch.processStartedAt),
                          Coalesce(NullIfEmpty(r.metadataPath), job.launch.metadataPath),
                          Coalesce(NullIfEmpty(r.specPath), job.launch.specPath),
                          Coalesce(NullIfZero(r.timeoutAt), job.launch.timeoutAt)),
         files := Files(Coalesce(NullIfEmpty(r.contextPath), job.files.context),
                        Coalesce(NullIfEmpty(r.resultPath), job.files.result),
                        Coalesce(NullIfEmpty(r.stdoutPath), job.files.stdout),
                        Coalesce(NullIfEmpty(r.stderrPath), job.files.stderr)),
         updatedAt := now)
  }

  function PersistRecord(db: Db, id: string, runner: string, r: LaunchRecord, now: Time): (Db, Outcome)
  {
    var job := Row(db, id);
    if !ValidRecord(r) then (db, Invalid)
    else UpdateHeld(db, id, runner, now, job.launch.token == Some(r.token) && job.launch.state == Some(Launching),
                    RecordPersisted(job, r, now))
  }

  // ---- Attempts ----

  function ScopeOrLegacy(scope: string): (r: string)
    ensures !Blank(r)
    ensures !Blank(scope) ==> r == scope
  {
    assert !IsSpace("legacy"[0]);
    if Blank(scope) then "legacy" else scope
  }

  function Attempts(db: Db, key: AttemptKey): nat
  {
    if key in db.attempts then db.attempts[key] else 0
  }

  /** The counter a reversal of this job would lower. */
  function Provenance(job: Job): AttemptKey
  {
    AttemptKey(job.task.issueKey, job.attempt.generation, job.task.routeName, Text(job.attempt.scope))
  }

  predicate Reversible(db: Db, job: Job)
  {
    job.attempt.count > 0 && job.attempt.scope.Some? && !Blank(job.attempt.scope.value)
    && Attempts(db, Provenance(job)) > 0
  }

  /** reverseAttemptTx */
  function Reverse(db: Db, id: string): Db
    requires id in db.jobs
  {
    var job := db.jobs[id];
    if !Reversible(db, job) then db
    else
      db.(attempts := db.attempts[Provenance(job) := Attempts(db, Provenance(job)) - 1],
          jobs := db.jobs[id := job.(attempt := job.attempt.(count := job.attempt.count - 1))])
  }

  function Counted(job: Job, count: int, generation: int, scope: string, now: Time): Job
  {
    job.(attempt := Attempt(count, generation, Some(scope)), updatedAt := now)
  }

  /** IncrementAttemptsForJob: the counter's new value, or a rollback */
  function Increment(db: Db, id: string, runner: string, key: AttemptKey, now: Time): (Db, Outcome, nat)
  {
    var k := key.(scope := ScopeOrLegacy(key.scope));
    var n := Attempts(db, k) + 1;
    if AssertOwned(db, id, runner, now) != Done then (db, AssertOwned(db, id, runner, now), 0)
    else if !Holds(db.jobs[id], runner, now) then (db, NotOwner, 0)
    else
      (db.(attempts := db.attempts[k := n], jobs := db.jobs[id := Counted(db.jobs[id], n, k.generation, k.scope, now)]),
       Done, n)
  }

  /** The issue_state half of UpsertIssue: a new row starts at zero, an old one keeps its counts */
  function UpsertIssue(db: Db, issueKey: string): Db
  {
    if issueKey in db.issues then db else db.(issues := db.issues[issueKey := IssueState(0, 0)])
  }

  function Transitions(db: Db, issueKey: string): nat
  {
    if issueKey in db.issues then db.issues[issueKey].transitions else 0
  }

  /** IncrementTransitionsForJob; an unknown issue fails the SELECT and rolls back */
  function IncrementTransitions(db: Db, id: string, runner: string, issueKey: string, now: Time): (Db, Outcome, nat)
  {
    if AssertOwned(db, id, runner, now) != Done then (db, AssertOwned(db, id, runner, now), 0)
    else if issueKey !in db.issues then (db, Invalid, 0)
    else
      var st := db.issues[issueKey];
      (db.(issues := db.issues[issueKey := st.(transitions := st.transitions + 1)]), Done, st.transitions + 1)
  }

  // ---- Finalize ----

  function Finalized(job: Job, f: JobFinalize, now: Time): Job
  {
    var finished := if f.finishedAt == 0 then now else f.finishedAt;
    job.(status := f.status, lockedBy := None, owner := None, leaseUntil := None, pid := None, launch := NO_LAUNCH,
         files := job.files.(result := Coalesce(NullIfEmpty(f.resultPath), job.files.result),
                             stdout := Coalesce(NullIfEmpty(f.stdoutPath), job.files.stdout),
                             stderr := Coalesce(NullIfEmpty(f.stderrPath), job.files.stderr)),
         finishedAt := Some(finished), updatedAt := finished, lastError := NullIfEmpty(f.lastError))
  }

  function Finalize(db: Db, id: string, runner: string, f: JobFinalize, now: Time): (Db, Outcome)
  {
    if AssertOwned(db, id, runner, now) != Done then (db, AssertOwned(db, id, runner, now))
    else if !Holds(db.jobs[id], runner, now) then (db, NotOwner)
    else
      var db1 := if f.workStarted == Some(false) then Reverse(db, id) else db;
      (db1.(jobs := db1.jobs[id := Finalized(db1.jobs[id], f, now)]), Done)
  }

  // ---- Recovery ----

  function Adopted(job: Job, who: Identity, now: Time, lease: Time): Job
  {
    job.(lockedBy := Some(who.runnerId), owner := Some(who.instanceId), leaseUntil := Some(now + lease), updatedAt := now)
  }

  predicate ValidIdentity(who: Identity)
  {
    !Blank(who.runnerId) && !Blank(who.instanceId)
  }

  function Adopt(db: Db, id: string, oldOwner: string, who: Identity, lease: Time, now: Time, cutoff: Time): (Db, Outcome)
  {
    if !ValidIdentity(who) || lease == 0 then (db, Invalid)
    else if Takeable(db, id, oldOwner, now, cutoff) then (db.(jobs := db.jobs[id := Adopted(db.jobs[id], who, now, lease)]), Done)
    else (db, NotOwner)
  }

  function Frozen(job: Job, now: Time): Job
  {
    job.(launch := job.launch.(state := Some(Unknown)), updatedAt := now)
  }

  function MarkUnknown(db: Db, id: string, oldOwner: string, now: Time, cutoff: Time): (Db, Outcome)
  {
    if Takeable(db, id, oldOwner, now, cutoff) then (db.(jobs := db.jobs[id := Frozen(db.jobs[id], now)]), Done)
    else (db, NotOwner)
  }

  // ---- Heartbeats and enqueue ----

  function Beat(db: Db, who: Identity, pid: int, now: Time): (Db, Outcome)
  {
    if !ValidIdentity(who) then (db, Invalid)
    else (db.(heartbeats := db.heartbeats[who.instanceId := Heartbeat(who.runnerId, pid, now)]), Done)
  }

  function DeleteBeat(db: Db, instance: string): Db
  {
    db.(heartbeats := db.heartbeats - {instance})
  }

  function Prune(db: Db, before: Time): Db
  {
    db.(heartbeats := map r | r in db.heartbeats && db.heartbeats[r].at >= before :: db.heartbeats[r])
  }

  predicate Conflicts(db: Db, id: string, dedupeKey: string)
  {
    id in db.jobs || exists other :: other in db.jobs && db.jobs[other].task.dedupeKey == dedupeKey
  }

  function NewJob(task: Task, now: Time): Job
  {
    var available := if task.availableAt == 0 then now else task.availableAt;
    Job(task.(availableAt := available, createdAt := now), Pending, Attempt(0, 0, None), None, None, None, None,
        NO_LAUNCH, Files(None, None, None, None), None, None, None, now)
  }

  /** INSERT OR IGNORE under the primary key and the unique dedupe key */
  function Enqueue(db: Db, id: string, task: Task, now: Time): Db
  {
    if Conflicts(db, id, task.dedupeKey) then db
    else db.(jobs := db.jobs[id := NewJob(task, now)])
  }

  // ---- What a row shows afterwards, column by column ----

  /** An empty or zero argument leaves the column as it was. */
  predicate Merged<T(==)>(before: Option<T>, after: Option<T>, given: bool, value: T)
  {
    after == if given then Some(value) else before
  }

  /** A launch record in the columns of its row; nothing else changed. */
  predicate RecordColumns(j: Job, k: Job, r: LaunchRecord, now: Time)
  {
    && k == j.(pid := Some(r.pid), launch := k.launch, files := k.files, updatedAt := now)
    && k.launch.kind == Some(r.supervisorKind) && k.launch.supervisorId == Some(r.supervisorId)
    && k.launch.token == Some(r.token) && k.launch.state == Some(Active) && k.launch.pgid == Some(r.pgid)
    && Merged(j.launch.processStartedAt, k.launch.processStartedAt, r.processStartedAt != 0, r.processStartedAt)
    && Merged(j.launch.metadataPath, k.launch.metadataPath, r.metadataPath != "", r.metadataPath)
    && Merged(j.launch.specPath, k.launch.specPath, r.specPath != "", r.specPath)
    && Merged(j.launch.timeoutAt, k.launch.timeoutAt, r.timeoutAt != 0, r.timeoutAt)
    && Merged(j.files.context, k.files.context, r.contextPath != "", r.contextPath)
    && Merged(j.files.result, k.files.result, r.resultPath != "", r.resultPath)
    && Merged(j.files.stdout, k.files.stdout, r.stdoutPath != "", r.stdoutPath)
    && Merged(j.files.stderr, k.files.stderr, r.stderrPath != "", r.stderrPath)
  }

  /** A finalized row: the outcome is in its columns, lease, process and launch are gone, and the rest but the attempt count
      is as before. */
  predicate FinalColumns(j: Job, k: Job, f: JobFinalize, now: Time)
  {
    && k == j.(status := f.status, attempt := k.attempt, lockedBy := None, owner := None, leaseUntil := None, pid := None,
               launch := NO_LAUNCH, files := k.files, finishedAt := k.finishedAt, lastError := k.lastError, updatedAt := k.updatedAt)
    && k.files.context == j.files.context
    && Merged(j.files.result, k.files.result, f.resultPath != "", f.resultPath)
    && Merged(j.files.stdout, k.files.stdout, f.stdoutPath != "", f.stdoutPath)
    && Merged(j.files.stderr, k.files.stderr, f.stderrPath != "", f.stderrPath)
    && k.finishedAt == Some(k.updatedAt) && k.updatedAt == (if f.finishedAt == 0 then now else f.finishedAt)
    && k.lastError == (if f.lastError == "" then None else Some(f.lastError))
  }

  /** When the count is to be reversed and the row names a counter above zero, counter and row go down by one together. */
  predicate Reversing(j: Job, k: Job, attempts: map<AttemptKey, nat>, attempts': map<AttemptKey, nat>, wanted: bool)
  {
    var key := AttemptKey(j.task.issueKey, j.attempt.generation, j.task.routeName, Text(j.attempt.scope));
    if && wanted && j.attempt.count > 0 && j.attempt.scope.Some? && !Blank(j.attempt.scope.value)
       && key in attempts && attempts[key] > 0
    then attempts' == attempts[key := attempts[key] - 1] && k.attempt == j.attempt.(count := j.attempt.count - 1)
    else attempts' == attempts && k.attempt == j.attempt
  }
}
